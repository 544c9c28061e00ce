/**
 * Product intake (server/controllers/product.controller.js): the
 * tax-inclusive price, the listing's pagination arithmetic, single and
 * bulk creation, the recompute rule of an update, and the row-by-row
 * spreadsheet import.
 *
 * The tax collection is reached through `lookup`, which stands for
 * `Taxes.findOne({applicableCategories: {$in: [category]}, isActive: true})`;
 * `SoundLookup` says it returns some active tax listing the category, or
 * None when there is none, without fixing which one when several match.
 * The category is compared trimmed, because the `trim` setter of
 * `applicableCategories` also applies to the `$in` values of the query.
 */
module ProductController {
  import opened Common
  import opened ProductModel
  import TaxModel

  // ---------------------------------------------------------------- tax

  /** `lookup` answers like the tax query over the collection `taxes`, matching the trimmed category. */
  ghost predicate SoundLookup(taxes: seq<TaxModel.Tax>, lookup: string -> Option<TaxModel.Tax>) {
    forall c ::
      && (lookup(c).Some? ==> exists i :: 0 <= i < |taxes| && taxes[i] == lookup(c).value
                                         && taxes[i].isActive && Trim(c) in taxes[i].applicableCategories)
      && (lookup(c).None? ==> forall i :: 0 <= i < |taxes| ==>
                                !(taxes[i].isActive && Trim(c) in taxes[i].applicableCategories))
  }

  /** Some active stored tax lists `category` among its categories. */
  predicate ListsActive(taxes: seq<TaxModel.Tax>, category: string) {
    exists i :: 0 <= i < |taxes| && taxes[i].isActive && category in taxes[i].applicableCategories
  }

  lemma LookupFindsIff(taxes: seq<TaxModel.Tax>, lookup: string -> Option<TaxModel.Tax>, category: string)
    requires SoundLookup(taxes, lookup)
    ensures lookup(category).Some? <==> ListsActive(taxes, Trim(category))
  {
  }

  /**
   * Padding around a product's category does not change whether it is
   * taxed: " Drinks " finds a tax exactly when "Drinks" does.
   */
  lemma LookupIgnoresPadding(taxes: seq<TaxModel.Tax>, lookup: string -> Option<TaxModel.Tax>, category: string)
    requires SoundLookup(taxes, lookup)
    ensures lookup(category).Some? <==> lookup(Trim(category)).Some?
  {
    LookupFindsIff(taxes, lookup, category);
    LookupFindsIff(taxes, lookup, Trim(category));
    TrimIdempotent(category);
  }

  /** `calculatePriceWithTax` once the tax query has answered: the base price, plus the rate as a percentage of it. */
  function PriceWithTax(found: Option<TaxModel.Tax>, basePrice: real): real {
    if found.None? then basePrice else basePrice + basePrice * found.value.rate / 100.0
  }

  /** The same on a base price that may be NaN (None), which stays NaN. */
  function MaybePriceWithTax(found: Option<TaxModel.Tax>, basePrice: Option<real>): Option<real> {
    if basePrice.None? then None else Some(PriceWithTax(found, basePrice.value))
  }

  /**
   * No active tax for the category leaves the price as it is; otherwise the
   * price grows by `rate` percent of itself.
   */
  lemma PriceWithTaxFormula(taxes: seq<TaxModel.Tax>, lookup: string -> Option<TaxModel.Tax>, category: string, basePrice: real)
    requires SoundLookup(taxes, lookup)
    ensures (forall i :: 0 <= i < |taxes| ==> !(taxes[i].isActive && Trim(category) in taxes[i].applicableCategories))
            ==> PriceWithTax(lookup(category), basePrice) == basePrice
    ensures (exists i :: 0 <= i < |taxes| && taxes[i].isActive && Trim(category) in taxes[i].applicableCategories)
            ==> exists i :: 0 <= i < |taxes| && taxes[i].isActive && Trim(category) in taxes[i].applicableCategories
                  && PriceWithTax(lookup(category), basePrice) == basePrice + basePrice * taxes[i].rate / 100.0
  {
    var found := lookup(category);
    if found.Some? {
      var i :| 0 <= i < |taxes| && taxes[i] == found.value && taxes[i].isActive
               && Trim(category) in taxes[i].applicableCategories;
      assert PriceWithTax(found, basePrice) == basePrice + basePrice * taxes[i].rate / 100.0;
    }
  }

  /** With a stored (hence 0 to 100 percent) rate, a non-negative base price at most doubles. */
  lemma PriceWithTaxBounds(taxes: seq<TaxModel.Tax>, lookup: string -> Option<TaxModel.Tax>, category: string, basePrice: real)
    requires SoundLookup(taxes, lookup)
    requires forall i :: 0 <= i < |taxes| ==> TaxModel.SchemaValid(taxes[i])
    requires basePrice >= 0.0
    ensures basePrice <= PriceWithTax(lookup(category), basePrice) <= 2.0 * basePrice
  {
    var found := lookup(category);
    if found.Some? {
      var t := FoundIsStored(taxes, lookup, category);
      TaxModel.StoredRateInBounds(t);
      RateBounds(basePrice, t);
      assert found == Some(t);
    }
  }

  /** What the lookup finds is one of the stored taxes. */
  lemma FoundIsStored(taxes: seq<TaxModel.Tax>, lookup: string -> Option<TaxModel.Tax>, category: string)
    returns (t: TaxModel.Tax)
    requires SoundLookup(taxes, lookup) && lookup(category).Some?
    requires forall i :: 0 <= i < |taxes| ==> TaxModel.SchemaValid(taxes[i])
    ensures t == lookup(category).value && TaxModel.SchemaValid(t)
  {
    var i :| 0 <= i < |taxes| && taxes[i] == lookup(category).value;
    t := taxes[i];
  }

  lemma RateBounds(basePrice: real, t: TaxModel.Tax)
    requires basePrice >= 0.0 && 0.0 <= t.rate <= 100.0
    ensures basePrice <= PriceWithTax(Some(t), basePrice) <= 2.0 * basePrice
  {
    var rate := t.rate;
    assert basePrice * rate >= 0.0;
    assert basePrice * (100.0 - rate) >= 0.0;
    assert basePrice * rate <= basePrice * 100.0;
  }

  /** A 15 percent tax on 100 gives 115. */
  lemma PriceWithTaxExample(t: TaxModel.Tax)
    requires t.rate == 15.0
    ensures PriceWithTax(Some(t), 100.0) == 115.0
  {
  }

  // --------------------------------------------------------- pagination

  /** A `page` or `limit` query parameter: absent (or empty), or present and run through `parseInt` (None = NaN). */
  datatype QueryInt = Absent | Given(parsed: Option<int>)

  /**
   * `Math.max(parseInt(value || default, 10), 1)`: at least 1, the default
   * when absent; NaN when the text is not a number, since `Math.max` with a
   * NaN argument is NaN.
   */
  function ClampedParam(q: QueryInt, default: int): (r: Option<int>)
    requires default >= 1
    ensures r.Some? ==> r.value >= 1
    ensures q.Absent? ==> r == Some(default)
    ensures q.Given? && q.parsed.Some? ==> r.Some? && r.value == (if q.parsed.value < 1 then 1 else q.parsed.value)
    ensures r.None? <==> q.Given? && q.parsed.None?
  {
    match q
    case Absent => Some(default)
    case Given(p) =>
      if p.None? then None
      else if p.value < 1 then Some(1)
      else Some(p.value)
  }

  const DefaultPage: int := 1
  const DefaultLimit: int := 25

  /** How many records come before page `page`. */
  function Skip(page: int, limit: int): (r: int)
    requires page >= 1 && limit >= 1
    ensures r >= 0
  {
    MulNonNegative(page - 1, limit);
    (page - 1) * limit
  }

  lemma MulNonNegative(a: int, b: int)
    requires a >= 0 && b >= 0
    ensures a * b >= 0
  {
  }

  lemma MulMonotone(a: int, b: int, c: int)
    requires a <= b && c >= 0
    ensures a * c <= b * c
  {
    assert b * c - a * c == (b - a) * c;
    MulNonNegative(b - a, c);
  }

  /** `Math.ceil(total / limit)`: the fewest pages of `limit` records that hold `total` records. */
  function Pages(total: nat, limit: int): (r: nat)
    requires limit >= 1
    ensures r * limit >= total
    ensures r == 0 || (r - 1) * limit < total
  {
    var q := (total + limit - 1) / limit;
    var m := (total + limit - 1) % limit;
    assert total + limit - 1 == q * limit + m;
    assert q * limit == total + limit - 1 - m;
    assert (q - 1) * limit == q * limit - limit;
    q
  }

  /** A page holds records exactly when its number is at most the page count. */
  lemma PageNonEmptyIff(total: nat, limit: int, page: int)
    requires limit >= 1 && page >= 1
    ensures Skip(page, limit) < total <==> page <= Pages(total, limit)
  {
    var p := Pages(total, limit);
    if page <= p {
      MulMonotone(page - 1, p - 1, limit);
    } else {
      MulMonotone(p, page - 1, limit);
    }
  }

  // ------------------------------------------------------------- inputs

  /** A product as a request body (or one entry of a bulk array) gives it. */
  datatype ProductInput = ProductInput(
    name: Option<string>,
    sku: Option<string>,
    barcode: Option<string>,
    description: Option<string>,
    category: Option<string>,
    supplier: Option<Id>,
    price: NumInput,
    cost: NumInput,
    stock: Option<int>,
    reorderLevel: Option<int>,
    status: Option<string>)

  /** `parseFloat`: NaN (None) for an absent value or text that is not a number. */
  function Parsed(n: NumInput): Option<real> {
    match n
    case Null => None
    case Num(p) => p
  }

  /** The creation guard: a falsy name, sku or category, or a null price or cost. */
  predicate MissingRequired(p: ProductInput) {
    !Truthy(p.name) || !Truthy(p.sku) || !Truthy(p.category) || p.price.Null? || p.cost.Null?
  }

  /**
   * `Product.findOne({$or: [{sku}, {barcode}]})` finds a document: the sku
   * condition (trimmed, as the schema setter also applies to queries), and
   * the barcode condition, always present. An absent barcode is sent as
   * `null`, which matches every stored product that has no barcode.
   */
  predicate StoreHas(store: seq<Product>, sku: string, barcode: Option<string>) {
    exists i :: 0 <= i < |store| && (store[i].sku == Trim(sku) || store[i].barcode == barcode)
  }

  /**
   * A create without a barcode is answered by any stored product without
   * one, whatever its sku: once such a product is stored, every further
   * barcode-less create is refused as a duplicate.
   */
  lemma NoBarcodeMatchesNoBarcode(store: seq<Product>, sku: string, k: nat)
    requires k < |store| && store[k].barcode.None?
    ensures StoreHas(store, sku, None)
  {
    assert store[k].barcode == None;
  }

  /** When nothing stored answers the query, a product with that sku and barcode collides with nothing stored. */
  lemma NotStoredNoClash(store: seq<Product>, sku: string, barcode: Option<string>, p: Product)
    requires !StoreHas(store, sku, barcode)
    requires p.sku == Trim(sku) && p.barcode == barcode
    ensures !ClashesWithStore(store, p)
  {
    forall i | 0 <= i < |store| ensures !Clash(store[i], p) {
      assert !(store[i].sku == Trim(sku) || store[i].barcode == barcode);
    }
  }

  // ------------------------------------------------------ single create

  /** The document a single create hands to `Product.create`: the body as given, with the parsed prices. */
  function SingleDraft(p: ProductInput, lookup: string -> Option<TaxModel.Tax>): ProductDraft
    requires !MissingRequired(p)
  {
    var basePrice := Parsed(p.price);
    ProductDraft(p.name.value, p.sku.value, p.barcode, p.description, p.category.value, p.supplier,
                 basePrice, MaybePriceWithTax(lookup(p.category.value), basePrice), Parsed(p.cost),
                 p.stock, p.reorderLevel, p.status)
  }

  /**
   * `createProduct` with one object: 400 when a required field is missing,
   * 409 when the sku or barcode is taken, 500 when the schema refuses the
   * document, and otherwise the new product is stored with its price
   * computed from the category's tax.
   */
  method CreateProduct(store: seq<Product>, input: ProductInput, lookup: string -> Option<TaxModel.Tax>)
    returns (resp: Response<Product>, store': seq<Product>)
    ensures MissingRequired(input) ==>
      resp == Fail(400, "name, sku, category, price and cost are required") && store' == store
    ensures !MissingRequired(input) && StoreHas(store, input.sku.value, input.barcode) ==>
      resp == Fail(409, "SKU or barcode already exists") && store' == store
    ensures !MissingRequired(input) && !StoreHas(store, input.sku.value, input.barcode)
            && Cast(SingleDraft(input, lookup)).None? ==>
      resp == Fail(500, "Failed to create product(s)") && store' == store
    ensures !MissingRequired(input) && !StoreHas(store, input.sku.value, input.barcode)
            && Cast(SingleDraft(input, lookup)).Some? ==>
      resp == Ok(201, Cast(SingleDraft(input, lookup)).value) && store' == store + [resp.body]
    ensures resp.Ok? ==>
      && !MissingRequired(input) && !StoreHas(store, input.sku.value, input.barcode)
      && Some(resp.body) == Cast(SingleDraft(input, lookup))
      && resp.code == 201 && store' == store + [resp.body]
      && resp.body.priceWithTax == PriceWithTax(lookup(input.category.value), resp.body.basePrice)
      && (UniqueKeys(store) ==> UniqueKeys(store'))
  {
    if MissingRequired(input) {
      return Fail(400, "name, sku, category, price and cost are required"), store;
    }
    if StoreHas(store, input.sku.value, input.barcode) {
      return Fail(409, "SKU or barcode already exists"), store;
    }
    var draft := SingleDraft(input, lookup);
    var cast := Cast(draft);
    if cast.None? {
      return Fail(500, "Failed to create product(s)"), store;
    }
    CastStores(draft);
    NotStoredNoClash(store, input.sku.value, input.barcode, cast.value);
    AppendKeepsUniqueIf(store, cast.value);
    resp, store' := Ok(201, cast.value), store + [cast.value];
  }

  // -------------------------------------------------------- bulk create

  /**
   * The document a bulk entry becomes: name, sku and barcode trimmed, and
   * `||` defaults: description "", stock 0, reorder level 10 (so an explicit
   * 0 also becomes 10), status "available".
   */
  function BulkDraft(p: ProductInput, lookup: string -> Option<TaxModel.Tax>): (d: ProductDraft)
    requires !MissingRequired(p)
  {
    var basePrice := Parsed(p.price);
    ProductDraft(
      Trim(p.name.value), Trim(p.sku.value),
      if p.barcode.Some? then Some(Trim(p.barcode.value)) else None,
      Some(if Truthy(p.description) then p.description.value else ""),
      p.category.value, p.supplier,
      basePrice, MaybePriceWithTax(lookup(p.category.value), basePrice), Parsed(p.cost),
      Some(p.stock.GetOr(0)),
      Some(if p.reorderLevel.Some? && p.reorderLevel.value != 0 then p.reorderLevel.value else 10),
      Some(if Truthy(p.status) then p.status.value else "available"))
  }

  /** An absent stock, reorder level or status takes 0, 10 and "available"; a reorder level of 0 also takes 10. */
  lemma BulkDraftDefaults(p: ProductInput, lookup: string -> Option<TaxModel.Tax>)
    requires !MissingRequired(p)
    requires p.stock.None? && (p.reorderLevel.None? || p.reorderLevel == Some(0)) && p.status.None?
    requires Parsed(p.price).Some? && Parsed(p.cost).Some? && Trim(p.name.value) != "" && Trim(p.sku.value) != ""
    ensures Cast(BulkDraft(p, lookup)).Some?
    ensures var q := Cast(BulkDraft(p, lookup)).value;
      q.stock == DefaultStock && q.reorderLevel == DefaultReorderLevel && q.status == DefaultStatus
      && q.name == Trim(p.name.value) && q.sku == Trim(p.sku.value)
  {
    var d := BulkDraft(p, lookup);
    TrimIdempotent(p.name.value);
    TrimIdempotent(p.sku.value);
    assert ParseStatus("available") == Some(Available);
    CastStores(d);
  }

  /** The entries a bulk create keeps, left to right: complete ones whose sku and barcode are not yet stored. */
  function BulkDrafts(store: seq<Product>, inputs: seq<ProductInput>, lookup: string -> Option<TaxModel.Tax>): (r: seq<ProductDraft>)
    ensures |r| <= |inputs|
  {
    if inputs == [] then []
    else
      var init := BulkDrafts(store, inputs[..|inputs| - 1], lookup);
      var p := inputs[|inputs| - 1];
      if MissingRequired(p) || StoreHas(store, p.sku.value, p.barcode) then init
      else init + [BulkDraft(p, lookup)]
  }

  /** One more entry looked at: the kept drafts grow by it exactly when it is complete and new. */
  lemma BulkDraftsStep(store: seq<Product>, inputs: seq<ProductInput>, k: nat, lookup: string -> Option<TaxModel.Tax>)
    requires k < |inputs|
    ensures !MissingRequired(inputs[k]) && !StoreHas(store, inputs[k].sku.value, inputs[k].barcode) ==>
      BulkDrafts(store, inputs[..k + 1], lookup) == BulkDrafts(store, inputs[..k], lookup) + [BulkDraft(inputs[k], lookup)]
    ensures MissingRequired(inputs[k]) || StoreHas(store, inputs[k].sku.value, inputs[k].barcode) ==>
      BulkDrafts(store, inputs[..k + 1], lookup) == BulkDrafts(store, inputs[..k], lookup)
  {
    var next := inputs[..k + 1];
    assert next[..k] == inputs[..k] && next[k] == inputs[k];
  }

  /** Entry `j` of `inputs` is complete, new to the store, and drafts as `d`. */
  predicate KeptFrom(store: seq<Product>, inputs: seq<ProductInput>, lookup: string -> Option<TaxModel.Tax>, d: ProductDraft, j: int)
  {
    0 <= j < |inputs| && !MissingRequired(inputs[j]) && !StoreHas(store, inputs[j].sku.value, inputs[j].barcode)
    && d == BulkDraft(inputs[j], lookup)
  }

  /** Every kept draft comes from a complete entry that nothing stored answers. */
  lemma {:induction false} BulkDraftsKeepOnlyNew(store: seq<Product>, inputs: seq<ProductInput>, lookup: string -> Option<TaxModel.Tax>, k: nat)
    requires k < |BulkDrafts(store, inputs, lookup)|
    ensures exists j :: KeptFrom(store, inputs, lookup, BulkDrafts(store, inputs, lookup)[k], j)
    decreases |inputs|
  {
    var init := inputs[..|inputs| - 1];
    var p := inputs[|inputs| - 1];
    var prev := BulkDrafts(store, init, lookup);
    var all := BulkDrafts(store, inputs, lookup);
    if MissingRequired(p) || StoreHas(store, p.sku.value, p.barcode) {
      assert all == prev;
    } else {
      assert all == prev + [BulkDraft(p, lookup)];
    }
    if k < |prev| {
      assert all[k] == prev[k];
      BulkDraftsKeepOnlyNew(store, init, lookup, k);
      var j :| KeptFrom(store, init, lookup, prev[k], j);
      assert inputs[j] == init[j];
      assert KeptFrom(store, inputs, lookup, all[k], j);
    } else {
      assert KeptFrom(store, inputs, lookup, all[k], |inputs| - 1);
    }
  }

  /**
   * `createProduct` with an array: the kept entries go to an unordered
   * `insertMany`; those the schema refuses are dropped silently. A
   * unique-index clash among them fails the request with 500, although
   * the others stay stored.
   */
  method CreateProducts(store: seq<Product>, inputs: seq<ProductInput>, lookup: string -> Option<TaxModel.Tax>)
    returns (resp: Response<seq<Product>>, store': seq<Product>)
    ensures var report := InsertUnordered(store, BulkDrafts(store, inputs, lookup));
      && store' == report.store
      && (report.clashes == 0 ==> resp == Ok(201, store'[|store|..]))
      && (report.clashes > 0 ==> resp == Fail(500, "Failed to create product(s)"))
  {
    var valid: seq<ProductDraft> := [];
    var k := 0;
    while k < |inputs|
      invariant 0 <= k <= |inputs|
      invariant valid == BulkDrafts(store, inputs[..k], lookup)
    {
      var p := inputs[k];
      BulkDraftsStep(store, inputs, k, lookup);
      if !MissingRequired(p) && !StoreHas(store, p.sku.value, p.barcode) {
        valid := valid + [BulkDraft(p, lookup)];
      }
      k := k + 1;
    }
    assert inputs[..k] == inputs;
    var report := InsertUnordered(store, valid);
    store' := report.store;
    if report.clashes > 0 {
      resp := Fail(500, "Failed to create product(s)");
    } else {
      resp := Ok(201, store'[|store|..]);
    }
  }

  // ------------------------------------------------------------- update

  /**
   * The `price` of an update body as sent: absent (or null), a JSON number,
   * or a JSON string together with what `parseFloat` makes of it (None for
   * NaN).
   */
  datatype PriceField = Unset | Number(value: real) | Text(text: string, parsed: Option<real>)

  /** The fields of an update body that the recompute rule reads and writes. */
  datatype UpdateBody = UpdateBody(
    price: PriceField,
    category: Option<string>,
    basePrice: Option<real>,
    priceWithTax: Option<real>)

  /** JavaScript truthiness of `price`: a number other than 0, or a non-empty string (so "0" is truthy). */
  predicate PriceTruthy(f: PriceField) {
    match f
    case Unset => false
    case Number(v) => v != 0.0
    case Text(t, _) => t != ""
  }

  /** The condition of line 172: a truthy price or a truthy category. */
  predicate Fires(body: UpdateBody) {
    PriceTruthy(body.price) || Truthy(body.category)
  }

  /** `parseFloat(price ?? stored basePrice)`: only an absent price falls back to the stored one. */
  function NewBasePrice(stored: Product, body: UpdateBody): Option<real> {
    match body.price
    case Unset => Some(stored.basePrice)
    case Number(v) => Some(v)
    case Text(_, parsed) => parsed
  }

  /**
   * Lines 172-177: when the rule fires, the base price becomes
   * `parseFloat(price ?? stored basePrice)` and the taxed price is computed
   * for `category ?? stored category`; otherwise the body is left as sent.
   */
  method RecomputePrices(stored: Product, body: UpdateBody, lookup: string -> Option<TaxModel.Tax>)
    returns (body': UpdateBody)
    ensures body'.price == body.price && body'.category == body.category
    ensures !Fires(body) ==> body' == body
    ensures Fires(body) ==>
      && body'.basePrice == NewBasePrice(stored, body)
      && body'.priceWithTax == MaybePriceWithTax(lookup(body.category.GetOr(stored.category)), body'.basePrice)
  {
    body' := body;
    if PriceTruthy(body.price) || Truthy(body.category) {
      var basePrice := match body.price
        case Unset => Some(stored.basePrice)
        case Number(v) => Some(v)
        case Text(_, parsed) => parsed;
      var category := if body.category.Some? then body.category.value else stored.category;
      body' := body'.(basePrice := basePrice);
      body' := body'.(priceWithTax := MaybePriceWithTax(lookup(category), basePrice));
    }
  }

  /**
   * Truthiness and `??` at work: an empty string or a 0 alone leaves the
   * prices as sent; the string "0" is truthy and sets the base price to 0;
   * a 0 beside a category is taken literally (`??`, not `||`).
   */
  lemma PriceRuleCases(stored: Product, c: string, parsed: Option<real>)
    requires c != ""
    ensures !Fires(UpdateBody(Text("", parsed), None, None, None))
    ensures !Fires(UpdateBody(Number(0.0), None, None, None))
    ensures var body := UpdateBody(Text("0", Some(0.0)), None, None, None);
      Fires(body) && NewBasePrice(stored, body) == Some(0.0)
    ensures var body := UpdateBody(Number(0.0), Some(c), None, None);
      Fires(body) && NewBasePrice(stored, body) == Some(0.0)
    ensures var body := UpdateBody(Unset, Some(c), None, None);
      Fires(body) && NewBasePrice(stored, body) == Some(stored.basePrice)
  {
  }

  /**
   * `findByIdAndUpdate(id, body, {runValidators: true})` on the recomputed
   * body, as far as these fields go: 404 for an unknown id; 500 when a
   * given field fails validation (an empty category, a NaN base price);
   * otherwise 200, and each given field replaces the stored one.
   */
  method UpdateProduct(store: seq<Product>, id: Id, body: UpdateBody, lookup: string -> Option<TaxModel.Tax>)
    returns (resp: Response<Product>, store': seq<Product>)
    ensures id >= |store| ==> resp == Fail(404, "Product not found") && store' == store
    ensures id < |store| ==>
      (resp.Ok? <==> body.category != Some("") && (Fires(body) ==> NewBasePrice(store[id], body).Some?))
    ensures id < |store| && resp.Fail? ==> resp == Fail(500, "Failed to update product")
    ensures resp.Fail? ==> store' == store
    ensures resp.Ok? ==>
      && id < |store| && resp.code == 200
      && |store'| == |store| && store'[id] == resp.body
      && (forall j :: 0 <= j < |store| && j != id ==> store'[j] == store[j])
      && resp.body.(category := store[id].category, basePrice := store[id].basePrice,
                    priceWithTax := store[id].priceWithTax) == store[id]
      && resp.body.category == body.category.GetOr(store[id].category)
      && (Fires(body) ==>
            && resp.body.basePrice == NewBasePrice(store[id], body).value
            && resp.body.priceWithTax == PriceWithTax(lookup(resp.body.category), resp.body.basePrice))
      && (!Fires(body) ==>
            && resp.body.basePrice == body.basePrice.GetOr(store[id].basePrice)
            && resp.body.priceWithTax == body.priceWithTax.GetOr(store[id].priceWithTax))
  {
    if id >= |store| {
      return Fail(404, "Product not found"), store;
    }
    var stored := store[id];
    var b := RecomputePrices(stored, body, lookup);
    if b.category == Some("") || (Fires(body) && b.basePrice.None?) {
      return Fail(500, "Failed to update product"), store;
    }
    var updated := stored;
    if b.category.Some? {
      updated := updated.(category := b.category.value);
    }
    if b.basePrice.Some? {
      updated := updated.(basePrice := b.basePrice.value);
    }
    if b.priceWithTax.Some? {
      updated := updated.(priceWithTax := b.priceWithTax.value);
    }
    resp, store' := Ok(200, updated), store[id := updated];
  }

  // ------------------------------------------------------------- import

  /** One spreadsheet row, its cells as the sheet reader hands them over. */
  datatype ImportRow = ImportRow(
    name: Option<string>,
    sku: Option<string>,
    barcode: Option<string>,
    category: Option<string>,
    basePrice: NumInput,
    cost: NumInput,
    description: Option<string>,
    supplier: Option<Id>,
    stock: Option<int>,
    reorderLevel: Option<int>,
    status: Option<string>)

  /** Why a row is skipped, in the order the checks run. */
  datatype Issue = MissingFields | AlreadyExists | InvalidBasePrice | InvalidCost

  function IssueText(i: Issue): string {
    match i
    case MissingFields => "Missing required fields (name, sku, category, basePrice, cost)"
    case AlreadyExists => "SKU or barcode already exists"
    case InvalidBasePrice => "Invalid basePrice value"
    case InvalidCost => "Invalid cost value"
  }

  predicate RowMissing(row: ImportRow) {
    !Truthy(row.name) || !Truthy(row.sku) || !Truthy(row.category) || row.basePrice.Null? || row.cost.Null?
  }

  /** The row's barcode as stored: trimmed when truthy, otherwise absent. */
  function RowBarcode(row: ImportRow): Option<string> {
    if Truthy(row.barcode) then Some(Trim(row.barcode.value)) else None
  }

  /** The barcode condition of the duplicate query, present only for a non-empty trimmed barcode. */
  function BarcodeCondition(row: ImportRow): Option<string> {
    var b := RowBarcode(row);
    if b.Some? && b.value != "" then b else None
  }

  /**
   * The import's duplicate query: the sku condition, and the barcode
   * condition only when the row has a barcode.
   */
  predicate StoreHasRow(store: seq<Product>, sku: string, barcode: Option<string>) {
    exists i :: 0 <= i < |store| && (store[i].sku == Trim(sku) || (barcode.Some? && store[i].barcode == barcode))
  }

  /** The outcome of screening one row. */
  datatype Screening = Accepted(draft: ProductDraft) | Rejected(issue: Issue)

  /** The document an accepted row becomes. */
  function RowDraft(row: ImportRow, lookup: string -> Option<TaxModel.Tax>): ProductDraft
    requires !RowMissing(row) && Parsed(row.basePrice).Some? && Parsed(row.cost).Some?
  {
    var basePrice := Parsed(row.basePrice).value;
    ProductDraft(
      Trim(row.name.value), Trim(row.sku.value), RowBarcode(row),
      Some(if Truthy(row.description) then Trim(row.description.value) else ""),
      Trim(row.category.value), row.supplier,
      Some(basePrice), Some(PriceWithTax(lookup(row.category.value), basePrice)),
      Parsed(row.cost),
      Some(row.stock.GetOr(0)),
      Some(if row.reorderLevel.Some? && row.reorderLevel.value != 0 then row.reorderLevel.value else 10),
      Some(if Truthy(row.status) then Trim(row.status.value) else "available"))
  }

  /** Screening one row: the checks below, in order, or the row's draft. */
  function Screen(store: seq<Product>, row: ImportRow, lookup: string -> Option<TaxModel.Tax>): Screening {
    if RowMissing(row) then Rejected(MissingFields)
    else if StoreHasRow(store, row.sku.value, BarcodeCondition(row)) then Rejected(AlreadyExists)
    else if Parsed(row.basePrice).None? then Rejected(InvalidBasePrice)
    else if Parsed(row.cost).None? then Rejected(InvalidCost)
    else Accepted(RowDraft(row, lookup))
  }

  /**
   * The checks of one row run in order: required cells, a duplicate among
   * the stored products, a base price that is not a number, a cost that is
   * not a number. The first one that fails is the row's only issue, and a
   * row that passes all four is accepted.
   */
  lemma ScreenChecksInOrder(store: seq<Product>, row: ImportRow, lookup: string -> Option<TaxModel.Tax>)
    ensures var r := Screen(store, row, lookup);
      && (r == Rejected(MissingFields) <==> RowMissing(row))
      && (r == Rejected(AlreadyExists) <==>
            !RowMissing(row) && StoreHasRow(store, row.sku.value, BarcodeCondition(row)))
      && (r == Rejected(InvalidBasePrice) <==>
            !RowMissing(row) && !StoreHasRow(store, row.sku.value, BarcodeCondition(row)) && Parsed(row.basePrice).None?)
      && (r == Rejected(InvalidCost) <==>
            && !RowMissing(row) && !StoreHasRow(store, row.sku.value, BarcodeCondition(row))
            && Parsed(row.basePrice).Some? && Parsed(row.cost).None?)
      && (r.Accepted? <==>
            && !RowMissing(row) && !StoreHasRow(store, row.sku.value, BarcodeCondition(row))
            && Parsed(row.basePrice).Some? && Parsed(row.cost).Some?)
      && (r.Accepted? ==> r.draft == RowDraft(row, lookup))
  {
  }

  /** `xs.map(f)`. */
  function MapSeq<A, B>(f: A -> B, xs: seq<A>): (r: seq<B>)
    ensures |r| == |xs| && forall i :: 0 <= i < |xs| ==> r[i] == f(xs[i])
  {
    seq(|xs|, i requires 0 <= i < |xs| => f(xs[i]))
  }

  /** `ys` holds `f` of the first |ys| elements of `xs`. */
  predicate MappedPrefix<A, B(==)>(f: A -> B, xs: seq<A>, ys: seq<B>) {
    |ys| <= |xs| && forall j :: 0 <= j < |ys| ==> ys[j] == f(xs[j])
  }

  lemma MappedPrefixSnoc<A, B>(f: A -> B, xs: seq<A>, ys: seq<B>, y: B)
    requires MappedPrefix(f, xs, ys) && |ys| < |xs| && y == f(xs[|ys|])
    ensures MappedPrefix(f, xs, ys + [y])
  {
    var ys' := ys + [y];
    forall j | 0 <= j < |ys'| ensures ys'[j] == f(xs[j]) {
      if j < |ys| { assert ys'[j] == ys[j]; }
    }
  }

  lemma MappedPrefixFull<A, B>(f: A -> B, xs: seq<A>, ys: seq<B>)
    requires MappedPrefix(f, xs, ys) && |ys| == |xs|
    ensures ys == MapSeq(f, xs)
  {
  }

  /** Screening against the products stored when the import starts. */
  function Screener(store: seq<Product>, lookup: string -> Option<TaxModel.Tax>): ImportRow -> Screening {
    row => Screen(store, row, lookup)
  }

  /** Every row's screening, in row order. */
  function Screenings(store: seq<Product>, rows: seq<ImportRow>, lookup: string -> Option<TaxModel.Tax>): seq<Screening> {
    MapSeq(Screener(store, lookup), rows)
  }

  /** The drafts of the accepted rows, in row order. */
  function Drafts(outs: seq<Screening>): seq<ProductDraft> {
    if outs == [] then []
    else
      var s := outs[|outs| - 1];
      Drafts(outs[..|outs| - 1]) + (if s.Accepted? then [s.draft] else [])
  }

  /** A skipped row: its spreadsheet row number (header is row 1) and its issue. */
  datatype RowError = RowError(row: nat, issue: Issue)

  /** The skipped rows, in row order; row `i` of the data is sheet row `i + 2`. */
  function Errors(outs: seq<Screening>): seq<RowError> {
    if outs == [] then []
    else
      var s := outs[|outs| - 1];
      Errors(outs[..|outs| - 1]) + (if s.Rejected? then [RowError(|outs| - 1 + 2, s.issue)] else [])
  }

  function ImportDrafts(store: seq<Product>, rows: seq<ImportRow>, lookup: string -> Option<TaxModel.Tax>): seq<ProductDraft> {
    Drafts(Screenings(store, rows, lookup))
  }

  function RowErrors(store: seq<Product>, rows: seq<ImportRow>, lookup: string -> Option<TaxModel.Tax>): seq<RowError> {
    Errors(Screenings(store, rows, lookup))
  }

  /** Every row is either imported or skipped with one error, never both. */
  lemma {:induction false} CountsAddUp(outs: seq<Screening>)
    ensures |Drafts(outs)| + |Errors(outs)| == |outs|
  {
    if outs != [] {
      CountsAddUp(outs[..|outs| - 1]);
    }
  }

  lemma ImportCountsAddUp(store: seq<Product>, rows: seq<ImportRow>, lookup: string -> Option<TaxModel.Tax>)
    ensures |ImportDrafts(store, rows, lookup)| + |RowErrors(store, rows, lookup)| == |rows|
  {
    CountsAddUp(Screenings(store, rows, lookup));
  }

  /** Row numbers between 2 and `n + 1`, strictly increasing. */
  predicate NumberedWithin(e: seq<RowError>, n: int) {
    && (forall k :: 0 <= k < |e| ==> 2 <= e[k].row <= n + 1)
    && (forall k, l :: 0 <= k < l < |e| ==> e[k].row < e[l].row)
  }

  lemma NumberedSnoc(e: seq<RowError>, n: nat, last: RowError)
    requires NumberedWithin(e, n) && last.row == n + 2
    ensures NumberedWithin(e + [last], n + 1)
  {
    var e' := e + [last];
    forall k | 0 <= k < |e'| ensures 2 <= e'[k].row <= n + 2 {
      if k < |e| { assert e'[k] == e[k]; }
    }
    forall k, l | 0 <= k < l < |e'| ensures e'[k].row < e'[l].row {
      assert e'[k] == e[k];
      if l < |e| {
        assert e'[l] == e[l];
      }
    }
  }

  /** The errors name sheet rows 2 to |outs| + 1, in increasing order. */
  lemma {:induction false} ErrorsNumbered(outs: seq<Screening>)
    ensures NumberedWithin(Errors(outs), |outs|)
  {
    if outs != [] {
      var init := outs[..|outs| - 1];
      ErrorsNumbered(init);
      var prev := Errors(init);
      var s := outs[|outs| - 1];
      if s.Rejected? {
        assert Errors(outs) == prev + [RowError(|outs| + 1, s.issue)];
        NumberedSnoc(prev, |init|, RowError(|outs| + 1, s.issue));
      } else {
        assert Errors(outs) == prev + [];
        assert prev + [] == prev;
      }
    }
  }

  /** The import's errors name sheet rows 2 to |rows| + 1, in increasing order. */
  lemma RowErrorsNumbered(store: seq<Product>, rows: seq<ImportRow>, lookup: string -> Option<TaxModel.Tax>)
    ensures NumberedWithin(RowErrors(store, rows, lookup), |rows|)
  {
    ErrorsNumbered(Screenings(store, rows, lookup));
  }

  predicate AllDigits(s: string) {
    forall k :: 0 <= k < |s| ==> '0' <= s[k] <= '9'
  }

  /** The number a string of decimal digits denotes, most significant digit first. */
  function DigitsValue(s: string): nat
    requires AllDigits(s)
  {
    if s == [] then 0 else 10 * DigitsValue(s[..|s| - 1]) + (s[|s| - 1] as int - '0' as int)
  }

  /** Decimal digits of a natural number: what a template literal prints. */
  function NatToString(n: nat): (r: string)
    ensures r != [] && AllDigits(r)
  {
    var d := ['0' + (n % 10) as char];
    if n < 10 then d else NatToString(n / 10) + d
  }

  /** The printed digits denote the number, and only 0 is printed with a leading zero. */
  lemma {:induction false} NatToStringValue(n: nat)
    ensures DigitsValue(NatToString(n)) == n
    ensures NatToString(n)[0] == '0' <==> n == 0
  {
    if n >= 10 {
      NatToStringValue(n / 10);
      var init := NatToString(n / 10);
      var r := NatToString(n);
      assert r == init + ['0' + (n % 10) as char];
      assert r[..|r| - 1] == init;
    }
  }

  /** The message pushed for a skipped row: `Row <number>: <reason>`. */
  function ErrorMessage(e: RowError): string {
    "Row " + NatToString(e.row) + ": " + IssueText(e.issue)
  }

  function Messages(errors: seq<RowError>): (r: seq<string>)
    ensures |r| == |errors|
    ensures forall k :: 0 <= k < |errors| ==> r[k] == ErrorMessage(errors[k])
  {
    seq(|errors|, k requires 0 <= k < |errors| => ErrorMessage(errors[k]))
  }

  /** What the import answers. */
  datatype ImportSummary = ImportSummary(message: string, added: nat, skipped: nat, errors: seq<string>)

  /**
   * `importProducts`: 400 without a file or with an empty sheet; otherwise
   * every row is screened in order, the accepted ones go to one unordered
   * `insertMany`, and the answer counts them. A unique-index clash among
   * the accepted rows (two rows of the same file with one sku) fails the
   * request with 500, though the others stay stored.
   */
  method ImportProducts(store: seq<Product>, file: Option<seq<ImportRow>>, lookup: string -> Option<TaxModel.Tax>)
    returns (resp: Response<ImportSummary>, store': seq<Product>)
    ensures file.None? ==> resp == Fail(400, "No file uploaded") && store' == store
    ensures file == Some([]) ==> resp == Fail(400, "Excel file is empty") && store' == store
    ensures file.Some? && file.value != [] ==>
      var rows := file.value;
      var drafts := ImportDrafts(store, rows, lookup);
      var errors := RowErrors(store, rows, lookup);
      var report := InsertUnordered(store, drafts);
      && store' == report.store
      && (report.clashes > 0 ==> resp == Fail(500, "Import failed"))
      && (report.clashes == 0 ==>
            && resp.Ok? && resp.code == 200
            && resp.body.added == |drafts| && resp.body.skipped == |errors|
            && resp.body.added + resp.body.skipped == |rows|
            && resp.body.errors == Messages(errors)
            && resp.body.message == (if |drafts| > 0 then "Import completed successfully with tax applied"
                                     else "No products were imported"))
  {
    if file.None? {
      return Fail(400, "No file uploaded"), store;
    }
    var rows := file.value;
    if rows == [] {
      return Fail(400, "Excel file is empty"), store;
    }
    var valid, skipped, errors := ScreenRows(store, rows, lookup);
    ImportCountsAddUp(store, rows, lookup);
    var added := 0;
    var report := InsertUnordered(store, valid);
    if |valid| > 0 {
      added := |valid|;
    }
    store' := report.store;
    if report.clashes > 0 {
      return Fail(500, "Import failed"), store';
    }
    var message := if added > 0 then "Import completed successfully with tax applied" else "No products were imported";
    resp := Ok(200, ImportSummary(message, added, skipped, errors));
  }

  /**
   * The row loop of `importProducts`: each row is screened against the
   * stored products, an accepted row's draft is kept, and a skipped row
   * counts once and leaves one message naming its spreadsheet row.
   */
  method ScreenRows(store: seq<Product>, rows: seq<ImportRow>, lookup: string -> Option<TaxModel.Tax>)
    returns (valid: seq<ProductDraft>, skipped: nat, errors: seq<string>)
    ensures valid == ImportDrafts(store, rows, lookup)
    ensures errors == Messages(RowErrors(store, rows, lookup))
    ensures skipped == |errors|
  {
    ghost var outs: seq<Screening> := [];
    skipped := 0;
    valid := [];
    errors := [];
    var i := 0;
    while i < |rows|
      invariant 0 <= i <= |rows|
      invariant |outs| == i
      invariant MappedPrefix(Screener(store, lookup), rows, outs)
      invariant valid == Drafts(outs)
      invariant errors == Messages(Errors(outs))
      invariant skipped == |errors|
    {
      var outcome := Screen(store, rows[i], lookup);
      match outcome {
        case Rejected(issue) =>
          skipped := skipped + 1;
          errors := errors + [ErrorMessage(RowError(i + 2, issue))];
        case Accepted(draft) =>
          valid := valid + [draft];
      }
      ScreenStep(store, rows, lookup, outs, outcome);
      outs := outs + [outcome];
      i := i + 1;
    }
    ImportCollected(store, rows, lookup, outs);
  }

  lemma MessagesSnoc(errors: seq<RowError>, e: RowError)
    ensures Messages(errors + [e]) == Messages(errors) + [ErrorMessage(e)]
  {
    assert (errors + [e])[..|errors|] == errors;
  }

  /** One more row screened: the drafts grow by its draft when it is accepted. */
  lemma DraftsSnoc(outs: seq<Screening>, s: Screening)
    ensures Drafts(outs + [s]) == Drafts(outs) + (if s.Accepted? then [s.draft] else [])
  {
    assert (outs + [s])[..|outs|] == outs;
  }

  /** One more row screened: the messages grow by its error when it is skipped. */
  lemma ErrorsSnoc(outs: seq<Screening>, s: Screening)
    ensures Messages(Errors(outs + [s]))
            == Messages(Errors(outs)) + (if s.Rejected? then [ErrorMessage(RowError(|outs| + 2, s.issue))] else [])
  {
    assert (outs + [s])[..|outs|] == outs;
    if s.Rejected? {
      MessagesSnoc(Errors(outs), RowError(|outs| + 2, s.issue));
    } else {
      assert Errors(outs + [s]) == Errors(outs);
    }
  }

  /** One more row screened: the prefix, the drafts and the messages all grow by its outcome. */
  lemma ScreenStep(store: seq<Product>, rows: seq<ImportRow>, lookup: string -> Option<TaxModel.Tax>, outs: seq<Screening>, s: Screening)
    requires MappedPrefix(Screener(store, lookup), rows, outs) && |outs| < |rows|
    requires s == Screen(store, rows[|outs|], lookup)
    ensures MappedPrefix(Screener(store, lookup), rows, outs + [s])
    ensures Drafts(outs + [s]) == Drafts(outs) + (if s.Accepted? then [s.draft] else [])
    ensures Messages(Errors(outs + [s]))
            == Messages(Errors(outs)) + (if s.Rejected? then [ErrorMessage(RowError(|outs| + 2, s.issue))] else [])
  {
    MappedPrefixSnoc(Screener(store, lookup), rows, outs, s);
    DraftsSnoc(outs, s);
    ErrorsSnoc(outs, s);
  }

  /** The drafts and errors collected one row at a time are those of the whole file. */
  lemma ImportCollected(store: seq<Product>, rows: seq<ImportRow>, lookup: string -> Option<TaxModel.Tax>, outs: seq<Screening>)
    requires |outs| == |rows| && MappedPrefix(Screener(store, lookup), rows, outs)
    ensures Drafts(outs) == ImportDrafts(store, rows, lookup)
    ensures Errors(outs) == RowErrors(store, rows, lookup)
  {
    MappedPrefixFull(Screener(store, lookup), rows, outs);
  }

  /**
   * Duplicates are looked up among stored products only: two rows of one
   * file with the same new sku are both accepted, and the second then
   * clashes inside `insertMany`.
   */
  lemma ImportSameSkuTwice(store: seq<Product>, row: ImportRow, lookup: string -> Option<TaxModel.Tax>, d: ProductDraft)
    requires Screen(store, row, lookup) == Accepted(d)
    ensures ImportDrafts(store, [row, row], lookup) == [d, d]
  {
    assert Screener(store, lookup)(row) == Accepted(d);
    assert Screenings(store, [row, row], lookup) == [Accepted(d), Accepted(d)];
    DraftsOfAccepted(d);
  }

  lemma DraftsOfAccepted(d: ProductDraft)
    ensures Drafts([Accepted(d), Accepted(d)]) == [d, d]
  {
    var a := Accepted(d);
    assert [a, a][..1] == [a] && [a][..0] == [];
    assert Drafts([a]) == [d];
  }
}
