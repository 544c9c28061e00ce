# POS back office — a verified Dafny model

This project models the business rules of a point-of-sale back office:
an Express/Mongoose API (orders and stock, products and their
tax-inclusive prices, the server cart, suppliers, permissions, roles,
taxes, users and the request guards) and the React till and dashboard
(the scan-to-cart screen with its totals, invoice and HTML escaping, and
the role-filtered side menu).

Each MongoDB collection is a sequence of records, and a document's
identifier is its position in that sequence (`Records`, `common.dfy`).
A handler becomes one of two things:

- a method or function from the store and the request to a
  `Response` (an `Ok` with a status code and body, or a `Fail` with a
  status code and message) and the store afterwards;
- a class where the source updates a document in place: the server
  cart (`CartController.Cart`) and a loaded tax
  (`TaxController.TaxDocument`).

Mongoose schemas become casts. A cast applies the setters (`trim`,
`lowercase`, `uppercase`), the defaults, the enums and the bounds. It
returns `None` when validation fails. The same setters also apply to
query values, as Mongoose applies them when it casts a query.

JavaScript truthiness is explicit (`Common.Truthy`). Numeric request
fields that may be missing, or that may fail `parseFloat`, are `Option`
values. Money is `real`, and quantities and stock are `int`.

Password hashing, password comparison, token signing and token
verification are function parameters. The result of a barcode lookup
and the tax lookup by category are also function parameters.

One module per source file:

- `common.dfy`: `Common`, string helpers (`trim`, case mapping, `find`, `countDocuments`)
- `records.dfy`: `Records`, stored record shapes shared by the controllers, ordered `insertMany`
- `order_model.dfy`: `OrderModel`, server/models/order.model.js
- `order_controller.dfy`: `OrderController`, server/controllers/order.controller.js
- `product_model.dfy`: `ProductModel`, server/models/product.model.js
- `product_controller.dfy`: `ProductController`, server/controllers/product.controller.js
- `tax_model.dfy`: `TaxModel`, server/models/tax.model.js
- `tax_controller.dfy`: `TaxController`, server/controllers/tax.controller.js
- `cart_controller.dfy`: `CartController`, server/controllers/cart.controller.js
- `supplier_controller.dfy`: `SupplierController`, server/controllers/suppler.controller.js
- `permission_controller.dfy`: `PermissionController`, server/controllers/permission.controller.js
- `role_controller.dfy`: `RoleController`, server/controllers/role.controller.js
- `role_permission_controller.dfy`: `RolePermissionController`, server/controllers/role.permission.controller.js
- `auth_controller.dfy`: `AuthController`, server/controllers/auth.controller.js
- `auth_middleware.dfy`: `AuthMiddleware`, server/middleware/auth.mddleware.js
- `client_cart.dfy`: `ClientCart`, client/src/components/cart/AddToCart.jsx
- `dashboard.dfy`: `Dashboard`, client/src/components/dashboard/Dashboard.jsx

## Model

| member | source | states |
|---|---|---|
| Common.Trim | server/controllers/permission.controller.js:15 | the trimmed string is no longer than the input and neither starts nor ends with whitespace |
| Common.TrimIsInfix | server/controllers/permission.controller.js:15 | the trimmed string is an infix of the input with only whitespace before and after it, so only whitespace is removed |
| Common.TrimIdempotent | server/models/permission.model.js:9 | trimming twice is trimming once, so the schema's trim setter leaves an already trimmed value alone |
| Common.BlankIffAllSpace | server/controllers/permission.controller.js:15 | a string trims to "" exactly when every character is whitespace |
| Common.ToLower | server/controllers/permission.controller.js:22 | lower-casing keeps the length and maps each character on its own |
| Common.ToUpper | server/models/tax.model.js:15 | upper-casing keeps the length and maps each character on its own |
| Common.FirstWhere | server/controllers/auth.controller.js:46 | the first position whose document matches, with no match before it; none exactly when no document matches |
| Common.FoundCountMatches | server/controllers/role.permission.controller.js:13-16 | the count check passes exactly when every id is stored and none is listed twice |
| Common.FoundBound | server/controllers/role.permission.controller.js:13 | the query never finds more documents than ids given |
| Records.PermissionsResolveIff | server/controllers/role.permission.controller.js:13-16 | the permission count check passes exactly when every id names a stored permission and no id repeats |
| Records.InsertOrdered | server/controllers/permission.controller.js:41 | an ordered insertMany keeps the stored documents, adds a prefix of the batch, and adds all of it when it reports no error |
| Records.InsertOrderedIff | server/controllers/permission.controller.js:41 | the whole batch goes in exactly when its keys are pairwise distinct and none is already stored |
| OrderModel.CastPaymentMethod | server/models/order.model.js:22-26 | an absent payment method is "cash"; a given one is accepted exactly when it is one of the three enum names, and yields that method |
| OrderModel.CastOrderStatus | server/models/order.model.js:29-33 | an absent status is "paid"; a given one is accepted exactly when it is "pending", "paid" or "cancelled" |
| OrderModel.EnumNamesRoundTrip | server/models/order.model.js:22-33 | every payment method and status name is accepted back as the value it names |
| OrderController.OrderLines | server/controllers/order.controller.js:13-17 | the lines are produced exactly when every request line has a product, a quantity and a price snapshot; then one order line per request line, in order, with those values |
| OrderController.SubtotalAppend | server/controllers/order.controller.js:20-23 | the left-to-right price-times-quantity sum of two runs of lines is the sum of their sums |
| OrderController.SubtotalNonNegative | server/controllers/order.controller.js:20-23 | non-negative prices and quantities give a non-negative subtotal |
| OrderController.DeductOne | server/controllers/order.controller.js:45-49 | one loop step keeps the number of products and leaves every product other than the one the line names unchanged |
| OrderController.DeductAll | server/controllers/order.controller.js:44-50 | the whole loop keeps the number of products (what it does to each product is stated by DeductAllStock and DeductAllOnlyStock) |
| OrderController.UntouchedQuantityZero | server/controllers/order.controller.js:44-50 | a product no line names has total ordered quantity 0 |
| OrderController.DeductAllStock | server/controllers/order.controller.js:44-50 | with non-negative quantities, a product ends at max(stock - total ordered quantity, 0) when some line names it, and unchanged otherwise |
| OrderController.DeductAllOnlyStock | server/controllers/order.controller.js:44-50 | for any quantities, only stock changes, and a named product never ends below zero |
| OrderController.DeductMissingProduct | server/controllers/order.controller.js:45-46 | a line naming no stored product changes nothing |
| OrderController.CreateOrder | server/controllers/order.controller.js:4-63 | no items gives 400 "No items in the order." with nothing changed; an invalid line or payment method gives 500 with nothing changed; otherwise one order is appended with the computed subtotal and total, status "paid", the default user when none is given, and the products become the deducted stock; 201 |
| OrderController.DateFormat | server/controllers/order.controller.js:116-151 | daily, weekly, monthly and yearly map to their formats; an absent period is daily; an unknown one falls back to the daily format |
| OrderController.PeriodFormatInjective | server/controllers/order.controller.js:121-151 | the four period formats are pairwise distinct |
| ProductModel.ParseStatus | server/models/product.model.js:16-26 | a status name is accepted exactly when it is one of the five enum names, and yields the status it names |
| ProductModel.Cast | server/models/product.model.js:5-30 | a draft is stored exactly when the trimmed name and sku are non-empty, the category is given, base price, price with tax and cost are numbers and the status (when given) is an enum name; what is stored is schema-valid (required strings non-empty, name and sku trimmed) |
| ProductModel.CastStores | server/models/product.model.js:5-26 | a stored draft keeps its values, with name and sku trimmed, and takes the defaults description "", stock 0, reorder level 10 and status "available" for absent fields |
| ProductModel.CastRoundTrip | server/models/product.model.js:5-26 | writing a stored product back through the schema yields the same product |
| ProductModel.AppendKeepsUnique | server/models/product.model.js:6-7 | adding a product that collides with no stored sku or (present) barcode keeps both unique indexes |
| ProductModel.InsertOne | server/controllers/product.controller.js:119-121 | one document of an unordered insertMany: the collection only grows, by one exactly when the document is counted as inserted; each document is counted once as inserted, invalid or clashing; the unique indexes keep holding |
| ProductModel.InsertUnordered | server/controllers/product.controller.js:119-121 | a whole unordered insertMany: the old collection is a prefix of the new one, which grew by the number inserted; inserted, invalid and clashing add up to the number of documents; the unique indexes keep holding |
| ProductModel.InsertUnorderedAll | server/controllers/product.controller.js:119-121 | when every draft is valid and no two products of store plus batch collide, the whole batch is appended in order with no failure |
| ProductController.PriceWithTaxFormula | server/controllers/product.controller.js:8-16 | with no active tax listing the trimmed category the price is the base price; otherwise it is the base price plus that tax's rate percent of it, for some active tax listing the trimmed category |
| ProductController.LookupFindsIff | server/controllers/product.controller.js:9-13 | the tax lookup finds a tax exactly when some active tax lists the category, trimmed as the schema's setter trims the query value |
| ProductController.LookupIgnoresPadding | server/controllers/product.controller.js:9-12 | a category with surrounding whitespace finds a tax exactly when the trimmed category does |
| ProductController.PriceWithTaxBounds | server/controllers/product.controller.js:8-16 | with stored taxes (rate 0 to 100) a non-negative base price is at most doubled and never lowered |
| ProductController.FoundIsStored | server/controllers/product.controller.js:9-12 | the tax the category query finds is a stored, schema-valid tax |
| ProductController.ClampedParam | server/controllers/product.controller.js:23-24 | page and limit are at least 1, the default when absent, the parsed value raised to 1 when smaller, and NaN exactly when the text is not a number |
| ProductController.Skip | server/controllers/product.controller.js:41 | the number of records skipped before a page is never negative |
| ProductController.Pages | server/controllers/product.controller.js:46 | the page count is the ceiling of total over limit: its pages hold every record, and one page fewer would not |
| ProductController.PageNonEmptyIff | server/controllers/product.controller.js:41-46 | a page holds records exactly when its number is at most the page count |
| ProductController.NoBarcodeMatchesNoBarcode | server/controllers/product.controller.js:136 | a query without a barcode asks for `barcode: null`, which any stored product without a barcode answers, whatever its sku |
| ProductController.NotStoredNoClash | server/controllers/product.controller.js:136-139 | when the sku-or-barcode query finds nothing, the new product collides with no stored one |
| ProductController.CreateProduct | server/controllers/product.controller.js:128-159 | a missing name, sku, category, price or cost gives 400; a stored product answering the sku-or-barcode query (a barcode-less one included when no barcode is sent) gives 409; a document the schema refuses gives 500; each leaves the store unchanged; a complete, unstored entry the schema accepts gives 201 with the cast product appended, priced with its category's tax, and the unique indexes keep holding |
| ProductController.BulkDraftDefaults | server/controllers/product.controller.js:102-115 | a bulk entry without stock, reorder level (or with 0) and status is stored with 0, 10 and "available", name and sku trimmed |
| ProductController.BulkDrafts | server/controllers/product.controller.js:82-117 | the kept entries are never more than the entries given |
| ProductController.BulkDraftsStep | server/controllers/product.controller.js:83-116 | one more entry is kept exactly when it is complete and no stored product answers its sku-or-barcode query (with no barcode, any stored product without one does) |
| ProductController.BulkDraftsKeepOnlyNew | server/controllers/product.controller.js:83-116 | every kept document comes from a complete entry whose sku and barcode are not stored |
| ProductController.CreateProducts | server/controllers/product.controller.js:80-126 | the kept documents go to one unordered insertMany; the store is what it leaves; 201 with the new products when nothing clashed, otherwise 500 with the rest still stored |
| ProductController.RecomputePrices | server/controllers/product.controller.js:171-177 | when the price is truthy (a non-zero number or a non-empty string) or the category is truthy, the base price becomes `parseFloat(price ?? stored basePrice)` and the taxed price is computed for `category ?? stored category`; otherwise the body is left as sent |
| ProductController.PriceRuleCases | server/controllers/product.controller.js:172-173 | an empty string or a 0 alone does not fire the rule; the string "0" fires it and sets the base price to 0; a 0 beside a category is kept as 0; with no price sent the stored base price is used |
| ProductController.UpdateProduct | server/controllers/product.controller.js:165-189 | an unknown id gives 404; for a known id the answer is 200 exactly when the category is not sent empty and, when the rule fires, the new base price is a number, and otherwise 500; failures leave the store unchanged; on success only that product changes, in category, base price and taxed price: the recomputed prices when the rule fired, else the body's own price fields or the stored ones |
| ProductController.ScreenChecksInOrder | server/controllers/product.controller.js:220-279 | each row gets exactly one outcome, by the first failing check in order: missing cells, sku or barcode already stored, base price not a number, cost not a number; a row that passes all four is accepted with its draft |
| ProductController.CountsAddUp | server/controllers/product.controller.js:215-280 | every screened row is either kept or has one error |
| ProductController.ImportCountsAddUp | server/controllers/product.controller.js:215-280 | kept rows plus skipped rows equal the number of rows |
| ProductController.ErrorsNumbered | server/controllers/product.controller.js:227-260 | error rows are numbered from 2 up to the number of rows plus 1, strictly increasing |
| ProductController.RowErrorsNumbered | server/controllers/product.controller.js:227-260 | the same, for a whole import |
| ProductController.NatToString | server/controllers/product.controller.js:228-230 | the row number is printed as a non-empty string of decimal digits |
| ProductController.NatToStringValue | server/controllers/product.controller.js:228-230 | the printed digits denote the row number, and only 0 is printed with a leading zero |
| ProductController.ImportProducts | server/controllers/product.controller.js:200-300 | no file gives 400 "No file uploaded"; an empty sheet gives 400 "Excel file is empty"; otherwise the kept drafts go to one unordered insertMany; when nothing clashed the answer is 200 with added and skipped adding up to the rows, the row messages, and the message chosen by whether anything was added; a clash gives 500 "Import failed" |
| ProductController.ScreenRows | server/controllers/product.controller.js:220-280 | the loop collects exactly the drafts of the accepted rows and the messages of the skipped ones, in row order, and counts each skipped row once |
| ProductController.ScreenStep | server/controllers/product.controller.js:220-280 | one more row screened grows the drafts or the messages by its outcome |
| ProductController.ImportCollected | server/controllers/product.controller.js:220-280 | the outcomes collected one row at a time give the drafts and errors of the whole file |
| ProductController.ImportSameSkuTwice | server/controllers/product.controller.js:238-248 | duplicates are looked up among stored products only, so two rows of one file with the same new sku are both kept |
| TaxModel.Cast | server/models/tax.model.js:3-50 | a save succeeds exactly when the trimmed name and code are non-empty and the rate lies between 0 and 100; it keeps rate, active flag, creator, updater and the number of categories |
| TaxModel.CastValid | server/models/tax.model.js:3-50 | whatever a save lets through satisfies the stored-tax invariant (required fields, rate bounds, setters already applied) |
| TaxModel.CastSetters | server/models/tax.model.js:5-17 | a save stores the name trimmed and the code trimmed and upper-cased |
| TaxModel.TrimUpperTrimmed | server/models/tax.model.js:11-17 | upper-casing a trimmed code leaves it trimmed |
| TaxModel.UpperIdempotent | server/models/tax.model.js:15 | upper-casing twice is upper-casing once |
| TaxModel.CodeSetterIdempotent | server/models/tax.model.js:11-17 | the code setters (trim, then upper-case) are idempotent |
| TaxModel.TrimAllIdempotent | server/models/tax.model.js:30-35 | trimming the categories twice is trimming once |
| TaxModel.NormalizeIdempotent | server/models/tax.model.js:5-35 | applying all setters twice is applying them once |
| TaxModel.CastStoredIsIdentity | server/models/tax.model.js:3-50 | saving a stored tax again changes nothing |
| TaxModel.StoredRateInBounds | server/models/tax.model.js:18-24 | a stored rate is between 0 and 100 |
| TaxModel.StoredCodeUpperCase | server/models/tax.model.js:11-17 | a stored code contains no lower-case ASCII letter |
| TaxController.NewTax | server/controllers/tax.controller.js:3-42 | a falsy name or code or a null rate gives 400 (a rate of 0 passes); a name or code already stored (compared after the setters) gives 409; past both checks the answer is 201 with the cast document appended exactly when the schema accepts it, and 500 "Server error" otherwise; every failure leaves the store unchanged |
| TaxController.NewTaxKeepsValid | server/controllers/tax.controller.js:24-32 | creating a tax keeps every stored tax schema-valid |
| TaxController.NewTaxKeepsUnique | server/controllers/tax.controller.js:15-32 | creating a tax keeps names and codes unique across the collection |
| TaxController.NewTaxAcceptsZeroRate | server/controllers/tax.controller.js:9 | a rate of 0 with a free, non-blank name and code is created with rate 0 |
| TaxController.NewTaxActiveDefault | server/controllers/tax.controller.js:30-31 | the created tax is active unless false was sent, and records the fixed creator |
| TaxController.TaxDocument.Assign | server/controllers/tax.controller.js:67-73 | after the field-by-field overwrite the document holds exactly the given values |
| TaxController.Merge | server/controllers/tax.controller.js:67-73 | the creator is kept and the caller becomes the updater |
| TaxController.MergeFields | server/controllers/tax.controller.js:67-72 | an absent or empty name, code or description keeps the old value, a truthy one replaces it; any category list sent replaces the old one, an empty one included; rate and isActive replace whenever given (0 and false included) and are kept otherwise |
| TaxController.MergeEmptyBody | server/controllers/tax.controller.js:65-73 | an empty body changes nothing but the updater |
| TaxController.UpdateTax | server/controllers/tax.controller.js:61-79 | an unknown tax gives 404; a missing caller, a failing validation or a name or code another tax has gives 500 with the document unchanged; otherwise 200 and the document holds the merged, cast values |
| TaxController.UpdateKeepsValid | server/controllers/tax.controller.js:67-74 | a successful update leaves a schema-valid tax, its rate between 0 and 100 |
| PermissionController.FormatNormal | server/controllers/permission.controller.js:21-24 | every name the handler builds is non-empty, trimmed and lower-case |
| PermissionController.LowerTrimmedIsNormal | server/controllers/permission.controller.js:22 | lower-casing a trimmed non-blank name gives a non-empty, trimmed, lower-case name |
| PermissionController.NotStored | server/controllers/permission.controller.js:27-34 | the filter keeps exactly the formatted entries whose name is not stored |
| PermissionController.NotStoredAppend | server/controllers/permission.controller.js:32-34 | the filter keeps order: filtering two runs is filtering each |
| PermissionController.NotStoredAllNew | server/controllers/permission.controller.js:32-34 | when no name is stored the filter drops nothing |
| PermissionController.CreateFormatted | server/controllers/permission.controller.js:26-49 | nothing new gives 400 "All permissions already exist" with the store unchanged; success is 201 with exactly the unstored entries appended, their count, and the singular or plural message; any other failure is 500, and the store only ever gains a prefix of the unstored entries |
| PermissionController.CreatePermission | server/controllers/permission.controller.js:3-54 | an entry without a non-blank name gives 400 "Each permission must have a name" before anything is stored; the store is never shrunk |
| PermissionController.CreateStoresNew | server/controllers/permission.controller.js:26-49 | with pairwise different formatted names and some new, the call succeeds and stores exactly the new entries, in order |
| PermissionController.CreateAddsOnlyUnseen | server/controllers/permission.controller.js:26-41 | whatever the outcome, every stored permission is a formatted entry whose name was not stored before |
| PermissionController.CreatePermissionAddsOnlyNew | server/controllers/permission.controller.js:3-41 | whatever the outcome, every permission the call stores has a normal name not stored before |
| PermissionController.DistinctNamesKeys | server/models/permission.model.js:5-10 | distinct names is the unique-index condition on the name key |
| PermissionController.FreshSubsetDistinct | server/controllers/permission.controller.js:32-34 | the filter keeps distinct names distinct |
| PermissionController.NotStoredFresh | server/controllers/permission.controller.js:32-34 | no entry the filter keeps has the name of a stored permission |
| PermissionController.CreateTwice | server/controllers/permission.controller.js:26-38 | repeating a successful request gives 400 "All permissions already exist" and stores nothing |
| PermissionController.CreateRepeatedName | server/controllers/permission.controller.js:32-41 | a request naming one new permission twice stores the first copy and fails with 500 at the second |
| RoleController.FormatTrimmed | server/controllers/role.controller.js:18-22 | the name the handler builds is non-empty and trimmed |
| RoleController.FormatAll | server/controllers/role.controller.js:18-22 | one formatted role per entry, in order |
| RoleController.Names | server/controllers/role.controller.js:26 | the requested names, one per formatted role, in order |
| RoleController.ExistingNames | server/controllers/role.controller.js:25-30 | the names found are empty exactly when no stored role has a requested name; every name found is requested and stored |
| RoleController.FirstInvalid | server/controllers/role.controller.js:37-48 | the first role whose non-empty permission list fails the count check, with every role before it passing; none exactly when every role's list passes |
| RoleController.CreateFormatted | server/controllers/role.controller.js:24-59 | a requested name already stored gives 400 "These roles already exist: " and the joined names; otherwise the first role with a non-empty permission list that does not resolve gives 400 naming that role; both store nothing; success is 201 with the whole batch appended, its count and the singular or plural message; the store only ever gains a prefix of the batch |
| RoleController.CreateRole | server/controllers/role.controller.js:5-64 | an entry without a non-blank name gives 400 "Each role must have a name" before anything is stored; the store is never shrunk |
| RoleController.CreateRejectsWholeBatch | server/controllers/role.controller.js:25-34 | one stored name among the requested ones rejects the whole batch with 400 and writes nothing |
| RoleController.CreateStoresWholeBatch | server/controllers/role.controller.js:24-59 | new, pairwise different names whose permission lists all resolve are stored whole, in order, with 201 |
| RoleController.CreateStoresResolvedPermissions | server/controllers/role.controller.js:37-51 | whatever the outcome, every stored role lists only stored permissions, each once |
| RoleController.UpdateRole | server/controllers/role.controller.js:95-123 | a non-empty permission list that does not resolve gives 400 "Some permissions are invalid"; every failure leaves the store unchanged; success changes only that role, to the sent fields (name trimmed), with 200; an unknown id with resolving permissions and no blank name gives 404; with resolving permissions a blank name gives 500 "Server error", and so does a known role renamed to a name another role holds |
| RoleController.UpdateRoleChangesOnlyThatRole | server/controllers/role.controller.js:109-119 | a valid update of a known role succeeds, changes no other role, and keeps every field not sent |
| RoleController.UpdateUnknownRole | server/controllers/role.controller.js:115-117 | an unknown id with valid fields gives 404 "Role not found" and changes nothing |
| RolePermissionController.AssignPermissionsToRole | server/controllers/role.permission.controller.js:5-25 | an unknown role gives 404; a missing list gives 500; a list failing the count check gives 400; these leave the role unchanged; otherwise 200 and the role's list becomes exactly the list sent, its other fields kept |
| SupplierController.NewSupplier | server/controllers/suppler.controller.js:134-141 | creating a complete row fails exactly when its name is blank; otherwise the supplier has the trimmed, non-empty name, the trimmed lower-case email and the phone as given |
| SupplierController.ImportRow | server/controllers/suppler.controller.js:110-144 | one pass of the loop: the collection grows by at most one supplier, never loses one, an aborted import stays aborted, and a running one counts the row once as added or skipped, growing by the added count |
| SupplierController.AppendKeepsUnique | server/controllers/suppler.controller.js:125-141 | adding the supplier of an untaken row keeps emails and phones unique |
| SupplierController.ImportRowKeepsUnique | server/controllers/suppler.controller.js:110-144 | one pass keeps emails and phones unique |
| SupplierController.ImportKeepsUnique | server/controllers/suppler.controller.js:110-144 | a whole import never stores two suppliers with the same email or the same phone |
| SupplierController.ImportPrefixStep | server/controllers/suppler.controller.js:110 | the loop over one more row is one more pass of its body |
| SupplierController.ImportAll | server/controllers/suppler.controller.js:107-144 | the loop keeps what was stored, adds at most one supplier per row, and a finished loop counts every row once, with the collection grown by the added count |
| SupplierController.ImportSuppliers | server/controllers/suppler.controller.js:98-155 | no file gives 400 "No file uploaded" with nothing stored; otherwise the answer and the collection are those of the loop over all rows: 200 "Import completed successfully" with the counters, or 500 "Server error during import" keeping the suppliers created before the failure |
| SupplierController.ImportNext | server/controllers/suppler.controller.js:111-143 | the body on row i advances the loop state by that row, or reports the failure that ends the whole import where it stands |
| SupplierController.ImportNextSkips | server/controllers/suppler.controller.js:120-132 | an incomplete or taken row is counted as skipped and stores nothing |
| SupplierController.ImportNextAdds | server/controllers/suppler.controller.js:134-143 | a complete, untaken, named row is appended and counted as added |
| SupplierController.ImportNextAborts | server/controllers/suppler.controller.js:134-153 | a complete, untaken row with a blank name ends the whole import with what was stored so far |
| SupplierController.ImportStaysAborted | server/controllers/suppler.controller.js:151-154 | once a creation has failed the later rows change nothing |
| SupplierController.ImportSkipsIncomplete | server/controllers/suppler.controller.js:120-123 | a row without a name, email or phone is skipped |
| SupplierController.ImportSkipsTaken | server/controllers/suppler.controller.js:125-132 | a row whose normalised email or phone is stored is skipped |
| SupplierController.ImportAbortsOnBlankName | server/controllers/suppler.controller.js:134-141 | a complete, untaken row with a blank name aborts the import |
| SupplierController.ImportAddsNew | server/controllers/suppler.controller.js:134-143 | a complete, untaken row with a real name is appended |
| SupplierController.ImportSameContactTwice | server/controllers/suppler.controller.js:110-144 | two rows of one file sharing an email (up to case and spaces) or a phone never both become suppliers |
| SupplierController.ImportTwo | server/controllers/suppler.controller.js:110 | a two-row file is two passes of the loop body |
| CartController.Cart.constructor | server/controllers/cart.controller.js:72-74 | a new cart belongs to the given user, has no lines and is active |
| CartController.FirstIndex | server/controllers/cart.controller.js:77-79 | the position of the first line for the product, with no such line before it; none exactly when no line has the product |
| CartController.MergeExisting | server/controllers/cart.controller.js:81-82 | adding a product the cart holds grows that line's quantity, keeps the number of lines and leaves every other line |
| CartController.MergeNew | server/controllers/cart.controller.js:83-85 | adding a product the cart does not hold appends one line with the quantity and keeps the others |
| CartController.MergeKeepsUnique | server/controllers/cart.controller.js:76-85 | with at most one line per product before an add, there is at most one after |
| CartController.WithoutProduct | server/controllers/cart.controller.js:144 | the filter keeps exactly the lines of other products, never more lines than before |
| CartController.WithoutProductAppend | server/controllers/cart.controller.js:144 | the filter keeps order: filtering two runs is filtering each |
| CartController.WithoutAbsentProduct | server/controllers/cart.controller.js:144 | removing a product that has no line changes nothing |
| CartController.WithoutProductKeepsUnique | server/controllers/cart.controller.js:117-119 | the filter never creates a second line for a product |
| CartController.AddToCart | server/controllers/cart.controller.js:56-98 | a missing product id or a missing or zero quantity gives 400 and changes nothing; otherwise 201 and the active cart (or a new one for the test user) holds the merged lines |
| CartController.UpdateCartItem | server/controllers/cart.controller.js:101-131 | no active cart gives 404 "Cart not found"; no line for the product gives 404 "Item not in cart" with the cart unchanged; otherwise 200, and a quantity of 0 or less removes every line of the product while any other quantity replaces the first line's; user and status stay |
| CartController.RemoveFromCart | server/controllers/cart.controller.js:134-154 | no active cart gives 404; otherwise every line of the product is dropped, the rest kept in order, with 200 |
| CartController.CheckoutCart | server/controllers/cart.controller.js:157-179 | a missing or empty cart gives 400 "Cart is empty" and changes nothing; otherwise the cart is checked out with its lines and user kept |
| CartController.GetCart | server/controllers/cart.controller.js:5-22 | always 200; without an active cart the reply says "Cart is empty" with no lines, otherwise it shows the cart's lines |
| ClientCart.LookupBySku | server/controllers/product.controller.js:190-198 | the scanned code is looked up as a sku, not a barcode: no product exactly when no stored sku equals the trimmed code, otherwise the first such product, with its name and `priceWithTax` and no `price` |
| ClientCart.ControlsKeepNoPrice | client/src/components/cart/AddToCart.jsx:60-121 | scanning a product without `price`, incrementing, decrementing and removing never bring a `price` into the cart |
| ClientCart.ScanKeepsNoPrice | client/src/components/cart/AddToCart.jsx:51-70 | a scan answered by the sku lookup never gives the cart a product with a `price` |
| ClientCart.TotalAsWrittenIsNaN | client/src/components/cart/AddToCart.jsx:124-125 | as written, the total of any non-empty cart of fetched products is NaN |
| ClientCart.RequestAsWritten | client/src/components/cart/AddToCart.jsx:195-205 | as written, each posted line carries the product id and quantity and no price |
| ClientCart.SaleRefusedAsWritten | server/controllers/order.controller.js:13-17 | as written, the server builds no order line from a non-empty cart of fetched products, and the till keeps its cart on the resulting error answer |
| ClientCart.Increment | client/src/components/cart/AddToCart.jsx:102-107 | incrementing keeps every line in place; the product's lines gain one unit and every other line is unchanged |
| ClientCart.KeepPositive | client/src/components/cart/AddToCart.jsx:117 | the filter keeps exactly the lines that hold at least one unit, and never adds one |
| ClientCart.RemoveMembers | client/src/components/cart/AddToCart.jsx:120-121 | removing a product keeps exactly the lines of the other products |
| ClientCart.RemoveAppend | client/src/components/cart/AddToCart.jsx:120-121 | removal keeps the surviving lines in their order: it distributes over concatenation |
| ClientCart.KeepPositiveAll | client/src/components/cart/AddToCart.jsx:117 | on a cart whose lines all hold a unit the filter returns the cart unchanged |
| ClientCart.DecrementKeepsLines | client/src/components/cart/AddToCart.jsx:109-118 | on such a cart decrementing never drops a line: the product's lines lose one unit but stay at 1 or more, and the other lines are unchanged |
| ClientCart.ControlsKeepPositive | client/src/components/cart/AddToCart.jsx:60-70 | scanning, incrementing, decrementing and removing each keep at least one unit on every line |
| ClientCart.AddScannedKeepsUnique | client/src/components/cart/AddToCart.jsx:60-70 | a scan never creates a second line for a product already in the cart |
| ClientCart.TotalIncrement | client/src/components/cart/AddToCart.jsx:102-107 | in a till that reads `priceWithTax`, one more unit of a product raises the total by the price on each of its lines |
| ClientCart.MatchingPriceUnique | client/src/components/cart/AddToCart.jsx:124-125 | with one line per product, the product's line prices add up to the price on its single line |
| ClientCart.NoMatchingPrice | client/src/components/cart/AddToCart.jsx:124-125 | a product with no line contributes nothing |
| ClientCart.ScanExistingRaisesTotal | client/src/components/cart/AddToCart.jsx:60-68 | in a till that reads `priceWithTax`, scanning a product already in the cart raises the total by exactly its price |
| ClientCart.ScanNewRaisesTotal | client/src/components/cart/AddToCart.jsx:69 | in a till that reads `priceWithTax`, scanning a product not yet in the cart raises the total by exactly its price |
| ClientCart.TotalAppendOne | client/src/components/cart/AddToCart.jsx:124-125 | a line appended to the cart adds its price times its quantity to the total |
| ClientCart.InvoiceAddsUp | client/src/components/cart/AddToCart.jsx:184-193 | in a till that reads `priceWithTax`, the invoice subtotals add up to the cart total |
| ClientCart.PlaceOrder | client/src/components/cart/AddToCart.jsx:131-140 | in a till that reads `priceWithTax`, no order is posted exactly when the cart is empty; otherwise the order carries the cart's items, status "paid", the chosen payment method and the payment reference |
| ClientCart.OrderMatchesCart | client/src/components/cart/AddToCart.jsx:195-207 | in a till that reads `priceWithTax`, the server accepts the posted lines exactly when no product in the cart is priced 0, and its subtotal is then the cart total the screen showed |
| ClientCart.SubtotalOfCart | server/controllers/order.controller.js:13-23 | order lines with the cart's prices and quantities have the cart total as their subtotal |
| ClientCart.AfterOrder | client/src/components/cart/AddToCart.jsx:209-231 | a 200 or 201 answer keeps the invoice snapshot, makes it printable and clears the cart and payment method; any other answer changes nothing |
| ClientCart.PrintedTotalIsPaidTotal | client/src/components/cart/AddToCart.jsx:269-272 | in a till that reads `priceWithTax`, after a completed sale the printed invoice total is the total of the cart that was paid for |
| ClientCart.HandleScan | client/src/components/cart/AddToCart.jsx:51-70 | an empty read or the code just read changes nothing; another code becomes the last one read, and the looked-up product, if any, is added to the cart |
| ClientCart.ScanDebounced | client/src/components/cart/AddToCart.jsx:52-53 | the same code read again straight after is ignored, whatever the lookup would return |
| ClientCart.ScanKeepsCartShape | client/src/components/cart/AddToCart.jsx:51-70 | a scan keeps one line per product and at least one unit on every line |
| ClientCart.ForgetCode | client/src/components/cart/AddToCart.jsx:94-96 | forgetting the last code read leaves the cart as it is |
| ClientCart.ScanAgainAfterForget | client/src/components/cart/AddToCart.jsx:51-96 | once the last code is forgotten, reading the same code again adds its product once more |
| ClientCart.ReplaceAll | client/src/components/cart/AddToCart.jsx:355-359 | every character of the result comes from the replacement text or is a character of the input other than the one replaced |
| ClientCart.EscapeHtml | client/src/components/cart/AddToCart.jsx:352-360 | a missing or empty name gives the empty string, and the result never holds `<`, `>`, a double quote or an apostrophe |
| ClientCart.ReplaceAllAppend | client/src/components/cart/AddToCart.jsx:355-359 | one replacement distributes over concatenation |
| ClientCart.ReplaceAbsent | client/src/components/cart/AddToCart.jsx:355-359 | replacing a character the text does not hold leaves the text unchanged |
| ClientCart.EscapeChainAppend | client/src/components/cart/AddToCart.jsx:354-359 | the chain of five replacements distributes over concatenation |
| ClientCart.EscapeChainChar | client/src/components/cart/AddToCart.jsx:354-359 | a single character comes out of the chain as its own entity: the `&` written by an earlier stage is never escaped again |
| ClientCart.LaterStagesKeep | client/src/components/cart/AddToCart.jsx:356-359 | the later stages leave an entity alone |
| ClientCart.ReplaceOne | client/src/components/cart/AddToCart.jsx:355-359 | on a single character a replacement gives the replacement text or the character |
| ClientCart.EscapeIsEncode | client/src/components/cart/AddToCart.jsx:354-359 | the chained replacements equal the character-by-character HTML encoding |
| ClientCart.UnescapeEntity | client/src/components/cart/AddToCart.jsx:355-359 | each entity reads back as the character it encodes |
| ClientCart.EncodeRoundTrip | client/src/components/cart/AddToCart.jsx:355-359 | the character-by-character encoding reads back as its input |
| ClientCart.EscapeRoundTrip | client/src/components/cart/AddToCart.jsx:352-360 | escaping loses nothing: any name, escaped, reads back as the name |
| AuthController.ResolveRole | server/controllers/auth.controller.js:39-51 | a given role identifier resolves only when the role is stored; otherwise a given role name, trimmed, resolves exactly when a role has that name, and with neither the role named "cashier" is used; a resolved role is always stored |
| AuthController.NewUser | server/models/user.model.js:3-31 | a user is created exactly when the trimmed full name, the trimmed lower-cased email and the hash are non-empty; it is active, carries the resolved role and the normalised name and email |
| AuthController.RegisterStep | server/controllers/auth.controller.js:20-71 | one entry adds at most one user and keeps every existing one; after an error nothing more changes; a passing entry adds exactly one user and one reply entry |
| AuthController.RegisterAll | server/controllers/auth.controller.js:20-71 | the stored users only grow; a completed run adds one user and one reply entry per input entry |
| AuthController.StepKeepsUnique | server/controllers/auth.controller.js:29-37 | no step stores a second user with the same full name or email |
| AuthController.AppendKeepsUniqueUsers | server/controllers/auth.controller.js:29-37 | a user whose name and email are both untaken keeps full names and emails unique |
| AuthController.RegisterKeepsUnique | server/controllers/auth.controller.js:20-71 | a whole registration keeps full names and emails unique |
| AuthController.RegisterPrefixStep | server/controllers/auth.controller.js:20-71 | registering one more entry is one more step on the result for the entries before it |
| AuthController.Register | server/controllers/auth.controller.js:9-81 | the reply is 201 with the created users when every entry passes, otherwise the error of the first failing entry, and the users stored before that entry stay stored |
| AuthController.RegisterStaysStopped | server/controllers/auth.controller.js:24-51 | once an entry has failed, the later entries change nothing |
| AuthController.StepRejectsMissing | server/controllers/auth.controller.js:23-27 | an entry without a full name, email or password ends the request with 400 and the required-fields message |
| AuthController.StepRejectsTaken | server/controllers/auth.controller.js:29-37 | an entry whose full name or email is taken ends the request with 400 naming the email |
| AuthController.StepRejectsRole | server/controllers/auth.controller.js:49-51 | an entry whose role does not resolve ends the request with 400 "Invalid role provided" |
| AuthController.StepRejectsInvalid | server/controllers/auth.controller.js:57-63 | an entry the user schema rejects ends the request with 500 |
| AuthController.StepCreates | server/controllers/auth.controller.js:53-70 | a passing entry appends the new user and a reply entry with its identifier, stored name and email and its role's name |
| AuthController.RegisterListsCreated | server/controllers/auth.controller.js:65-76 | the reply lists one user per entry, in input order, each with its new identifier, stored full name and email, and its role's name |
| AuthController.ListedAppend | server/controllers/auth.controller.js:65-70 | appending a created user and its reply entry keeps the reply matching the stored users |
| AuthController.RegisterStopsAtMissingFields | server/controllers/auth.controller.js:20-27 | an entry without a required field stops the batch there, with the users of the earlier entries stored |
| AuthController.RegisterSameEmailTwice | server/controllers/auth.controller.js:29-37 | a batch with the same email twice fails and stores at most one of the two |
| AuthController.StepSameEmailTwice | server/controllers/auth.controller.js:29-37 | the second of two entries with one email is refused, after at most one user was added |
| AuthController.RegisterTwo | server/controllers/auth.controller.js:20-71 | a two-entry batch is the step for the first followed by the step for the second |
| AuthController.UserWithEmail | server/controllers/auth.controller.js:95 | the lookup finds a user whose email is the given one after trimming and lower-casing, and finds none exactly when no user has it |
| AuthController.Login | server/controllers/auth.controller.js:86-125 | a missing email or password gives 400; a success carries a stored user with that email, the name of its role and a token signed over its identifier and role name |
| AuthController.LoginOkIff | server/controllers/auth.controller.js:95-111 | login succeeds exactly when the email is stored, the password matches its hash and its role exists |
| AuthController.LoginFailsAlike | server/controllers/auth.controller.js:96-103 | an unknown email and a wrong password get the same 400 reply |
| AuthController.UpdateUserRole | server/controllers/auth.controller.js:143-177 | 400 without a role identifier, 404 for an unknown role and then for an unknown user; success exactly otherwise, when only that user's role changes and the reply carries the updated user |
| AuthController.UpdateUserRoleKeepsUsersValid | server/controllers/auth.controller.js:158-163 | a role change keeps full names and emails unique and every role reference valid |
| AuthController.UpdateUserRoleIdempotent | server/controllers/auth.controller.js:158-163 | setting the same role twice is the same as setting it once |
| AuthMiddleware.Split | server/middleware/auth.mddleware.js:7 | splitting on single spaces gives at least one piece and no piece holds a space |
| AuthMiddleware.JoinSplit | server/middleware/auth.mddleware.js:7 | joining the pieces with single spaces gives back the header |
| AuthMiddleware.SplitJoin | server/middleware/auth.mddleware.js:7 | splitting a space-joined list of space-free pieces gives back the pieces |
| AuthMiddleware.SplitWithoutSpace | server/middleware/auth.mddleware.js:7 | a string without a space is a single piece |
| AuthMiddleware.SplitFirstWord | server/middleware/auth.mddleware.js:7 | a space-free word followed by a space is split off as the first piece |
| AuthMiddleware.Token | server/middleware/auth.mddleware.js:7-8 | a token, when there is one, is a non-empty word without spaces |
| AuthMiddleware.TokenOfSchemeAndToken | server/middleware/auth.mddleware.js:7 | "scheme token" yields the token whatever the scheme word is, "Bearer" or not |
| AuthMiddleware.NoSpaceNoToken | server/middleware/auth.mddleware.js:7-8 | a header without a space yields no token |
| AuthMiddleware.Authenticate | server/middleware/auth.mddleware.js:5-23 | 401 without a token or with a token that fails verification, leaving the request alone; 401 for an unknown user, with the decoded payload left attached; otherwise the stored user is attached and the request goes on, so a request that goes on always carries a stored user |
| AuthMiddleware.Authorize | server/middleware/auth.mddleware.js:26-33 | the request goes on exactly when a loaded user's stored role is among the allowed names; a user whose role is no longer stored makes the check throw; every other refusal is 403 "Forbidden: Insufficient rights" |
| AuthMiddleware.AuthorizeNobody | server/middleware/auth.mddleware.js:26-33 | with no allowed roles nobody passes |
| AuthMiddleware.AuthorizeMonotone | server/middleware/auth.mddleware.js:26-33 | allowing more roles never turns away a caller that passed |
| AuthMiddleware.AuthorizeNeedsLoadedUser | server/middleware/auth.mddleware.js:26-33 | a request without a user, or with only the token payload, is refused with 403 |
| Dashboard.Known | client/src/components/dashboard/Dashboard.jsx:133-137 | a role string names a known role only when it is exactly that role's name |
| Dashboard.KnownName | client/src/components/dashboard/Dashboard.jsx:133-137 | every known role is recognised again from its name |
| Dashboard.EffectiveRole | client/src/components/dashboard/Dashboard.jsx:129-130 | the role is never empty: the stored role in lower case, or "cashier" without a stored user or role |
| Dashboard.EffectiveRoleIgnoresCase | client/src/components/dashboard/Dashboard.jsx:130 | stored roles that differ only in ASCII case give the same menu role |
| Dashboard.ListsIffNameListed | client/src/components/dashboard/Dashboard.jsx:142 | an entry lists the role exactly when one of its role names is the role string |
| Dashboard.FilterMembers | client/src/components/dashboard/Dashboard.jsx:142 | the filter keeps exactly the entries that list the role |
| Dashboard.FilterInOrder | client/src/components/dashboard/Dashboard.jsx:142 | the filter keeps the entries in menu order |
| Dashboard.AllListedKeepsAll | client/src/components/dashboard/Dashboard.jsx:142 | a filter over entries that all list the role keeps all of them |
| Dashboard.SuperAdminMatchesFilter | client/src/components/dashboard/Dashboard.jsx:61-122 | every entry lists "super admin", so its special case gives the same menu as the filter |
| Dashboard.AccessibleInOrder | client/src/components/dashboard/Dashboard.jsx:140-142 | for any role the menu shown is the full menu with entries left out, in order, and only entries that list the role |
| Dashboard.UnknownRoleSeesNothing | client/src/components/dashboard/Dashboard.jsx:140-142 | a role the dashboard does not know, such as a misspelt one, gets an empty menu |
| Dashboard.NoneListedDropsAll | client/src/components/dashboard/Dashboard.jsx:142 | a filter over entries none of which lists the role keeps nothing |
| Dashboard.FilterKeepsListed | client/src/components/dashboard/Dashboard.jsx:142 | an entry that lists the role survives the filter |
| Dashboard.FilterKeeps | client/src/components/dashboard/Dashboard.jsx:142 | an entry that lists the role heads the filtered rest of the menu from it on |
| Dashboard.FilterSkips | client/src/components/dashboard/Dashboard.jsx:142 | an entry that does not list the role is left out |
| Dashboard.CashierMenu | client/src/components/dashboard/Dashboard.jsx:61-142 | without a stored role, as for a cashier, the menu is Dashboard, Products, Cart and Orders |
| Dashboard.PanelLabel | client/src/components/dashboard/Dashboard.jsx:155-164 | each known role other than cashier gets its own panel title; "Cashier Panel" is shown exactly for the cashier and for roles the dashboard does not know |
| Dashboard.NewProductImpliesProductsEntry | client/src/components/dashboard/Dashboard.jsx:196-197 | whoever sees the "New Product" button also has the Products entry |
| Dashboard.CashierSeesProductsWithoutButton | client/src/components/dashboard/Dashboard.jsx:74-79 | a cashier has the Products entry but not the button |

## Left out

- HTTP and Express plumbing: routing, `req`/`res`, JSON reply shapes and file upload (multer, Cloudinary) are not modelled. A handler's outcome is a status code with a message or body, and an uploaded spreadsheet arrives as a list of already parsed rows, or as none when no file was sent.
- Spreadsheet parsing (xlsx): rows are given parsed. A numeric cell that `parseFloat` cannot read is `None`, and the rounding of `parseFloat` and `toFixed` is not modelled.
- Floating point: money is `real`, so the model makes no claim about the rounding of JavaScript doubles, `toFixed(2)` or `Math.ceil` beyond the exact arithmetic.
- Password hashing, password comparison, and JWT signing and verification are function parameters. Token expiry (`8h`) is not modelled.
- AuthController.Login: signs with a key read from `JWT_SECRET_KEY`, while the middleware verifies with `JWT_SECRET`. The key material is not modelled, so whether a token issued by login passes the middleware depends on the deployment's environment and is left open.
- AuthMiddleware.Authenticate: a malformed identifier that makes `findById` throw ends in the catch-all 401 "Unauthorized". The model's identifiers are positions, so that path coincides with the 401 of a refused token.
- AuthMiddleware.Authorize: a user whose role document no longer exists makes `role.name` throw. The model reports this as `Throws`, and Express's error handling after it is not modelled.
- AuthController.Register: a role identifier that is not a well-formed ObjectId makes `Role.findById` throw a CastError, which the catch block answers with 500, the users created before it staying stored. The model's identifiers are positions, so such a role is simply unknown and gets the 400 for an invalid role.
- AuthController.UpdateUserRole: likewise, a malformed role or user identifier throws a CastError and the catch block answers 500. The model answers the 404 of an unknown role or user instead.
- Aggregation pipelines: `getDashboardStats`, the grouping of `getSalesData` and the report controller run inside the database. Only the period-to-format switch is modelled.
- Read-only and delete handlers are not modelled, because they only pass a query to the database: `getOrders`, `getProductById`, `deleteProduct`, `getSuppliers`, `getSupplierById`, `deleteSupplier`, `getPermissions`, `getRoles`, `getRoleById`, `deleteRole`, `getTaxes`, `getTaxById`, `deleteTax` and `getAllUsers`. The client's scan lookup, `getBarcode`, is `ClientCart.LookupBySku`, and its answer is the `found` parameter of `ClientCart.HandleScan`.
- Supplier create and update (`createSupplier`, `updateSupplier`) are plain passthroughs to the database and are not modelled; only the spreadsheet import is.
- ProductController: the search and filter part of `getProducts` (a regular expression over name, sku and barcode, and the category, status and supplier filters) and its sort by creation date are database queries. Only the page, limit, skip and page-count arithmetic is modelled.
- ProductController.UpdateProduct: `findByIdAndUpdate` writes every schema field the body sends, with validators. The model covers category, base price and taxed price only. Name, sku, barcode, description, supplier, cost, stock, reorder level and status are not modelled, and neither are their validators or the 500 that a clash on the unique sku or barcode index gives.
- ProductController.RecomputePrices: a `price` that is neither absent, a number nor a string (a boolean, an array or an object) is not modelled, and the parsed value of a string price is given with it rather than computed from the text.
- ProductController.PriceWithTaxFormula: when several active taxes list a category, `findOne` picks one in an order the database does not fix. The model takes the lookup as a parameter that returns some matching tax, and does not choose a precedence.
- `populate`, timestamps (`createdAt`, `updatedAt`) and the order's `createdAt` sent by the till are not modelled, and neither is the sort order of any listing.
- Concurrency and atomicity: two requests racing on one product's stock, and a failure between saving the order and deducting stock, are not modelled. The model states only the order of the steps: the order is saved, then stock is deducted line by line.
- A database write failing for reasons other than schema validation or a unique-index clash (a lost connection, say) is not modelled.
- Common.ToLower and Common.ToUpper map ASCII letters only. JavaScript's `toLowerCase`/`toUpperCase` also map non-ASCII letters.
- Common.Trim treats space, tab, line feed, vertical tab, form feed and carriage return as whitespace. The other Unicode spaces that JavaScript's `trim` removes are not modelled.
- CartController.UpdateCartItem: the quantity is an integer. A `null` quantity, which satisfies `null <= 0` and so removes the line, and an absent one, which stores `undefined` as the quantity, are not expressible and not modelled.
- TaxController.Draft: a field sent as `null` and a field left out are both None. For `description`, `null` is stored as null, while the model stores the default "", as it does for an absent one. How Mongoose casts `applicableCategories: null` is not modelled either; the model gives it the empty list.
- RoleController.UpdateRole: a `description: null` or `permissions: null` in the update body is written as null by `findByIdAndUpdate`. The model treats it as absent and keeps the stored value.
- ClientCart.TotalIncrement: states the total of a till that reads `priceWithTax`. As written, the till reads `price`, which product documents lack, so every total is NaN (see Findings).
- ClientCart.ScanExistingRaisesTotal: states the total of a till that reads `priceWithTax`. As written, the total is NaN (see Findings).
- ClientCart.ScanNewRaisesTotal: states the total of a till that reads `priceWithTax`. As written, the total is NaN (see Findings).
- ClientCart.InvoiceAddsUp: states the invoice of a till that reads `priceWithTax`. As written, every invoice price and subtotal is undefined or NaN (see Findings).
- ClientCart.PlaceOrder: states the order of a till that reads `priceWithTax`. As written, the posted lines carry no price, and the server refuses them with 500 (see Findings).
- ClientCart.OrderMatchesCart: states the order of a till that reads `priceWithTax`. As written, the server builds no order line from the posted lines (see Findings).
- ClientCart.PrintedTotalIsPaidTotal: states a completed sale of a till that reads `priceWithTax`. As written, no sale completes, so no invoice is printed (see Findings).
- ClientCart.EscapeHtml: the input is a product name, a string or absent. The numeric 0, which the source would turn into "0", is not modelled.
- The Paystack checkout is not modelled: loading its script, checking the public key, the popup, and the amount in pesewas. The payment reference it returns is a parameter of `ClientCart.PlaceOrder`, and so is the `CASH_` reference of a cash sale.
- Toast messages, the loading flag, the printable invoice's HTML layout, dates and the print window are not modelled. The till's state is limited to the cart, the payment method, the invoice snapshot and the last scanned code.
- ClientCart.ForgetCode: the 1.5-second timer is not modelled. Forgetting the last code is a separate step that may happen between any two scans.
- Dashboard: icons, layout, the drawer toggle and the page selected by a menu entry are not modelled.
- The cart schema (server/models/cart.model.js) is not part of this model. The cart's statuses "active" and "checked_out" are taken from the controller.
- The placeholder user identifiers hard-coded in the order and cart controllers are constants of the model.

## Findings

| source | as written | input that shows it | evidently intended | confidence | as-written member | corrected member |
|---|---|---|---|---|---|---|
| client/src/components/cart/AddToCart.jsx:124-125 | the total sums `it.product.price * it.quantity`, but the product documents the scan fetches have no `price` field, so the total is NaN | any non-empty cart, for instance one product scanned once | sum `priceWithTax` times quantity | high; not executed | ClientCart.TotalAsWrittenIsNaN | ClientCart.ScanNewRaisesTotal |
| client/src/components/cart/AddToCart.jsx:184-207 | the posted lines take `price: it.product.price`, which is undefined and dropped from the JSON; the server's `item.price \|\| item.basePrice` is then undefined, the required order price fails and the order is answered 500 | any non-empty cart at checkout | post `priceWithTax` as each line's price | high; not executed | ClientCart.SaleRefusedAsWritten | ClientCart.OrderMatchesCart |

