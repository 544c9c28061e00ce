/**
 * The till screen's cart (client/src/components/cart/AddToCart.jsx): the
 * list of scanned products with their quantities, replaced wholesale on
 * every change; the total; the invoice snapshot and the order sent to the
 * server after payment; and the HTML escaping of product names on the
 * printed invoice.
 *
 * The till reads a product's price as `it.product.price`, a field the
 * product documents do not have. The totals, invoice and order below are
 * those of a till that reads `priceWithTax` instead; the members whose
 * names end in `AsWritten` state what the code as written does.
 */
module ClientCart {
  import opened Common
  import OrderController
  import OrderModel
  import ProductModel

  /**
   * The fields of a fetched product document that the till touches: its
   * `price`, which the code reads but the product schema does not have
   * (None: undefined), and `priceWithTax`, the price a corrected till reads.
   */
  datatype ScannedProduct = ScannedProduct(id: Id, name: string, price: Option<real>, priceWithTax: real)

  /**
   * The barcode lookup `GET /product/barcode/:code` (getBarcode in the
   * product controller): `Product.findOne({sku: code})`, so the scanned code
   * is matched against the sku (trimmed by the sku setter), never the
   * barcode. The document it returns has no `price`.
   */
  function LookupBySku(products: seq<ProductModel.Product>, code: string): (r: Option<ScannedProduct>)
    ensures r.None? <==> forall i :: 0 <= i < |products| ==> products[i].sku != Trim(code)
    ensures r.Some? ==> && r.value.id < |products| && products[r.value.id].sku == Trim(code)
                        && (forall j :: 0 <= j < r.value.id ==> products[j].sku != Trim(code))
                        && r.value.name == products[r.value.id].name
                        && r.value.priceWithTax == products[r.value.id].priceWithTax
                        && r.value.price.None?
  {
    match FirstWhere(products, (q: ProductModel.Product) => q.sku == Trim(code))
    case None => None
    case Some(k) => Some(ScannedProduct(k, products[k].name, None, products[k].priceWithTax))
  }

  datatype CartItem = CartItem(product: ScannedProduct, quantity: int)

  /** Each product has at most one line. */
  predicate UniqueIds(cart: seq<CartItem>) {
    forall i, j :: 0 <= i < j < |cart| ==> cart[i].product.id != cart[j].product.id
  }

  /** Every line holds at least one unit. */
  predicate AllPositive(cart: seq<CartItem>) {
    forall i :: 0 <= i < |cart| ==> cart[i].quantity >= 1
  }

  predicate HasProduct(cart: seq<CartItem>, id: Id) {
    exists i :: 0 <= i < |cart| && cart[i].product.id == id
  }

  // ---------------------------------------------------------------------
  // Quantity controls

  /** One line after `incrementQuantity(id)`'s map. */
  function Bumped(it: CartItem, id: Id): CartItem {
    if it.product.id == id then it.(quantity := it.quantity + 1) else it
  }

  /** `incrementQuantity(id)`: one more unit on every line of the product. */
  function Increment(cart: seq<CartItem>, id: Id): (r: seq<CartItem>)
    ensures |r| == |cart|
    ensures forall i :: 0 <= i < |cart| ==> r[i] == Bumped(cart[i], id)
  {
    seq(|cart|, i requires 0 <= i < |cart| => Bumped(cart[i], id))
  }

  /**
   * Scanning a fetched product: one more unit when the product is already
   * in the cart, otherwise a new line with one unit at the end.
   */
  function AddScanned(cart: seq<CartItem>, p: ScannedProduct): seq<CartItem> {
    if HasProduct(cart, p.id) then Increment(cart, p.id) else cart + [CartItem(p, 1)]
  }

  /** One line after `decrementQuantity(id)`'s map: one unit fewer, but never below 1. */
  function Lowered(it: CartItem, id: Id): CartItem {
    if it.product.id == id then it.(quantity := if 1 > it.quantity - 1 then 1 else it.quantity - 1) else it
  }

  /** `filter(it => it.quantity > 0)`. */
  function KeepPositive(items: seq<CartItem>): (r: seq<CartItem>)
    ensures |r| <= |items|
    ensures forall x :: x in r <==> x in items && x.quantity > 0
  {
    if items == [] then [] else (if items[0].quantity > 0 then [items[0]] else []) + KeepPositive(items[1..])
  }

  /** `decrementQuantity(id)`: lower the product's lines by one (not below 1), then drop lines without units. */
  function Decrement(cart: seq<CartItem>, id: Id): seq<CartItem> {
    KeepPositive(seq(|cart|, i requires 0 <= i < |cart| => Lowered(cart[i], id)))
  }

  /** `removeFromCart(id)`: drop the product's lines. */
  function Remove(cart: seq<CartItem>, id: Id): (r: seq<CartItem>)
    ensures |r| <= |cart|
  {
    if cart == [] then [] else (if cart[0].product.id == id then [] else [cart[0]]) + Remove(cart[1..], id)
  }

  /** Removal keeps exactly the lines of other products. */
  lemma {:induction false} RemoveMembers(cart: seq<CartItem>, id: Id)
    ensures forall x :: x in Remove(cart, id) <==> x in cart && x.product.id != id
  {
    if cart != [] {
      RemoveMembers(cart[1..], id);
      assert forall x :: x in cart <==> x == cart[0] || x in cart[1..];
    }
  }

  /** A filter that removes nothing returns its input. */
  lemma {:induction false} KeepPositiveAll(items: seq<CartItem>)
    requires AllPositive(items)
    ensures KeepPositive(items) == items
  {
    if items != [] {
      assert AllPositive(items[1..]) by {
        forall i | 0 <= i < |items[1..]| ensures items[1..][i].quantity >= 1 {
          assert items[1..][i] == items[i + 1];
        }
      }
      KeepPositiveAll(items[1..]);
      assert [items[0]] + items[1..] == items;
    }
  }

  /**
   * On a cart whose lines all hold a unit, decrementing never removes a
   * line: the product's lines drop by one unit down to 1, and the others
   * are untouched.
   */
  lemma DecrementKeepsLines(cart: seq<CartItem>, id: Id)
    requires AllPositive(cart)
    ensures |Decrement(cart, id)| == |cart|
    ensures forall i :: 0 <= i < |cart| ==>
              && Decrement(cart, id)[i].product == cart[i].product
              && Decrement(cart, id)[i].quantity ==
                   (if cart[i].product.id == id then (if cart[i].quantity > 1 then cart[i].quantity - 1 else 1)
                    else cart[i].quantity)
  {
    var lowered := seq(|cart|, i requires 0 <= i < |cart| => Lowered(cart[i], id));
    assert AllPositive(lowered);
    KeepPositiveAll(lowered);
  }

  /** Every cart the screen builds, from the empty one, holds at least one unit per line. */
  lemma ControlsKeepPositive(cart: seq<CartItem>, p: ScannedProduct, id: Id)
    requires AllPositive(cart)
    ensures AllPositive(AddScanned(cart, p))
    ensures AllPositive(Increment(cart, id))
    ensures AllPositive(Decrement(cart, id))
    ensures AllPositive(Remove(cart, id))
  {
    DecrementKeepsLines(cart, id);
    RemoveMembers(cart, id);
    var r := Remove(cart, id);
    forall i | 0 <= i < |r| ensures r[i].quantity >= 1 {
      assert r[i] in cart;
    }
    var a := AddScanned(cart, p);
    if !HasProduct(cart, p.id) {
      forall i | 0 <= i < |a| ensures a[i].quantity >= 1 {
        if i < |cart| { assert a[i] == cart[i]; }
      }
    }
  }

  /** Scanning keeps at most one line per product. */
  lemma AddScannedKeepsUnique(cart: seq<CartItem>, p: ScannedProduct)
    requires UniqueIds(cart)
    ensures UniqueIds(AddScanned(cart, p))
  {
    var a := AddScanned(cart, p);
    if !HasProduct(cart, p.id) {
      forall i, j | 0 <= i < j < |a| ensures a[i].product.id != a[j].product.id {
        assert a[i] == cart[i];
        if j < |cart| {
          assert a[j] == cart[j];
        } else {
          assert !(cart[i].product.id == p.id);
        }
      }
    }
  }

  /** Removal keeps the remaining lines in their order: it distributes over concatenation. */
  lemma {:induction false} RemoveAppend(a: seq<CartItem>, b: seq<CartItem>, id: Id)
    ensures Remove(a + b, id) == Remove(a, id) + Remove(b, id)
  {
    if a == [] {
      assert a + b == b;
    } else {
      var head := if a[0].product.id == id then [] else [a[0]];
      assert Remove(a + b, id) == head + Remove(a[1..] + b, id) by {
        assert (a + b)[0] == a[0] && (a + b)[1..] == a[1..] + b;
      }
      RemoveAppend(a[1..], b, id);
      ConcatAssoc(head, Remove(a[1..], id), Remove(b, id));
    }
  }

  /** Concatenation is associative (stated on its own to keep the step above small). */
  lemma ConcatAssoc<T>(x: seq<T>, y: seq<T>, z: seq<T>)
    ensures x + (y + z) == (x + y) + z
  {
  }

  // ---------------------------------------------------------------------
  // Total, invoice and order

  /**
   * `calculateCartTotal` of the corrected till: the `reduce` of price times
   * quantity, left to right from 0, with `priceWithTax` as the price.
   */
  function Total(items: seq<CartItem>): real {
    if items == [] then 0.0
    else Total(items[..|items| - 1]) + items[|items| - 1].product.priceWithTax * items[|items| - 1].quantity as real
  }

  /** The prices of the product's lines, added up. */
  function MatchingPrice(cart: seq<CartItem>, id: Id): real {
    if cart == [] then 0.0
    else
      var last := cart[|cart| - 1];
      MatchingPrice(cart[..|cart| - 1], id) + (if last.product.id == id then last.product.priceWithTax else 0.0)
  }

  /** One more unit of a product raises the total by its price (by the prices of all its lines). */
  lemma {:induction false} TotalIncrement(cart: seq<CartItem>, id: Id)
    ensures Total(Increment(cart, id)) == Total(cart) + MatchingPrice(cart, id)
  {
    if cart != [] {
      var n := |cart| - 1;
      var inc := Increment(cart, id);
      assert inc[..n] == Increment(cart[..n], id);
      TotalIncrement(cart[..n], id);
    }
  }

  /** A product with one line at position `k` adds exactly its price when incremented. */
  lemma {:induction false} MatchingPriceUnique(cart: seq<CartItem>, id: Id, k: nat)
    requires UniqueIds(cart) && k < |cart| && cart[k].product.id == id
    ensures MatchingPrice(cart, id) == cart[k].product.priceWithTax
  {
    var n := |cart| - 1;
    if k == n {
      NoMatchingPrice(cart[..n], id);
    } else {
      assert cart[n].product.id != id;
      MatchingPriceUnique(cart[..n], id, k);
    }
  }

  lemma {:induction false} NoMatchingPrice(cart: seq<CartItem>, id: Id)
    requires forall i :: 0 <= i < |cart| ==> cart[i].product.id != id
    ensures MatchingPrice(cart, id) == 0.0
  {
    if cart != [] {
      NoMatchingPrice(cart[..|cart| - 1], id);
    }
  }

  /** Scanning a product already in the cart raises the total by the price on its line. */
  lemma ScanExistingRaisesTotal(cart: seq<CartItem>, p: ScannedProduct, k: nat)
    requires UniqueIds(cart) && k < |cart| && cart[k].product.id == p.id
    ensures Total(AddScanned(cart, p)) == Total(cart) + cart[k].product.priceWithTax
  {
    assert HasProduct(cart, p.id);
    TotalIncrement(cart, p.id);
    MatchingPriceUnique(cart, p.id, k);
  }

  /** Scanning a product not in the cart raises the total by its price. */
  lemma ScanNewRaisesTotal(cart: seq<CartItem>, p: ScannedProduct)
    requires !HasProduct(cart, p.id)
    ensures Total(AddScanned(cart, p)) == Total(cart) + p.priceWithTax
  {
    TotalAppendOne(cart, CartItem(p, 1));
  }

  lemma TotalAppendOne(cart: seq<CartItem>, it: CartItem)
    ensures Total(cart + [it]) == Total(cart) + it.product.priceWithTax * it.quantity as real
  {
    assert (cart + [it])[..|cart|] == cart;
  }

  /** One invoice line: the product, its price and quantity, and their product. */
  datatype InvoiceLine = InvoiceLine(productId: Id, name: string, price: real, quantity: int, subtotal: real)

  /** The invoice snapshot taken before the cart is cleared. */
  function InvoiceLines(cart: seq<CartItem>): (r: seq<InvoiceLine>)
    ensures |r| == |cart|
    ensures forall i :: 0 <= i < |cart| ==>
              && r[i].productId == cart[i].product.id && r[i].name == cart[i].product.name
              && r[i].price == cart[i].product.priceWithTax && r[i].quantity == cart[i].quantity
              && r[i].subtotal == cart[i].product.priceWithTax * cart[i].quantity as real
  {
    seq(|cart|, i requires 0 <= i < |cart| =>
      var it := cart[i];
      InvoiceLine(it.product.id, it.product.name, it.product.priceWithTax, it.quantity, it.product.priceWithTax * it.quantity as real))
  }

  function SubtotalSum(lines: seq<InvoiceLine>): real {
    if lines == [] then 0.0 else SubtotalSum(lines[..|lines| - 1]) + lines[|lines| - 1].subtotal
  }

  /** The invoice lines add up to the cart total. */
  lemma {:induction false} InvoiceAddsUp(cart: seq<CartItem>)
    ensures SubtotalSum(InvoiceLines(cart)) == Total(cart)
  {
    if cart != [] {
      var n := |cart| - 1;
      forall i | 0 <= i < n ensures InvoiceLines(cart)[..n][i] == InvoiceLines(cart[..n])[i] {
        assert cart[..n][i] == cart[i];
      }
      assert InvoiceLines(cart)[..n] == InvoiceLines(cart[..n]);
      InvoiceAddsUp(cart[..n]);
    }
  }

  /** One line of the order the screen posts: product, price and quantity only. */
  datatype PayloadItem = PayloadItem(productId: Id, price: real, quantity: int)

  datatype OrderPayload = OrderPayload(paymentMethod: string, transactionRef: string, status: string, items: seq<PayloadItem>)

  function PayloadItems(cart: seq<CartItem>): (r: seq<PayloadItem>)
    ensures |r| == |cart|
    ensures forall i :: 0 <= i < |cart| ==>
              r[i] == PayloadItem(cart[i].product.id, cart[i].product.priceWithTax, cart[i].quantity)
  {
    seq(|cart|, i requires 0 <= i < |cart| => PayloadItem(cart[i].product.id, cart[i].product.priceWithTax, cart[i].quantity))
  }

  /**
   * Paying (by cash or through the payment popup): refused, with no order
   * posted, when the cart is empty; otherwise the order for the cart with
   * status "paid" and the payment's reference.
   */
  function PlaceOrder(cart: seq<CartItem>, paymentMethod: string, reference: string): (r: Option<OrderPayload>)
    ensures r.None? <==> cart == []
    ensures r.Some? ==> r.value.items == PayloadItems(cart) && r.value.status == "paid"
                        && r.value.paymentMethod == paymentMethod && r.value.transactionRef == reference
  {
    if cart == [] then None else Some(OrderPayload(paymentMethod, reference, "paid", PayloadItems(cart)))
  }

  /** The payload as the order handler reads it: every line with a product, a quantity and a price, and no base price. */
  function AsRequest(p: OrderPayload): OrderController.OrderRequest {
    OrderController.OrderRequest(
      Some(seq(|p.items|, i requires 0 <= i < |p.items| =>
        OrderController.RequestItem(Some(p.items[i].productId), Some(p.items[i].quantity), Some(p.items[i].price), None))),
      Some(p.paymentMethod), None)
  }

  /**
   * The server builds its order lines from the cart exactly when no product
   * in it is priced 0 (a zero price falls back to a base price the screen
   * never sends), and then the server's subtotal is the screen's total.
   */
  lemma OrderMatchesCart(cart: seq<CartItem>, paymentMethod: string, reference: string)
    requires cart != []
    ensures var req := AsRequest(PlaceOrder(cart, paymentMethod, reference).value);
      && (OrderController.OrderLines(req.items.value).Some? <==>
            forall i :: 0 <= i < |cart| ==> cart[i].product.priceWithTax != 0.0)
      && (OrderController.OrderLines(req.items.value).Some? ==>
            OrderController.Subtotal(OrderController.OrderLines(req.items.value).value) == Total(cart))
  {
    var items := AsRequest(PlaceOrder(cart, paymentMethod, reference).value).items.value;
    RequestOfCart(cart, paymentMethod, reference);
    var lines := OrderController.OrderLines(items);
    if lines.Some? {
      SubtotalOfCart(cart, lines.value);
    } else {
      var i :| 0 <= i < |items| && OrderController.ToLine(items[i]).None?;
      assert cart[i].product.priceWithTax == 0.0;
    }
  }

  /** The request the server reads holds one line per cart line, with its product, quantity and price. */
  lemma RequestOfCart(cart: seq<CartItem>, paymentMethod: string, reference: string)
    requires cart != []
    ensures var items := AsRequest(PlaceOrder(cart, paymentMethod, reference).value).items.value;
            && |items| == |cart|
            && forall i :: 0 <= i < |cart| ==>
                 items[i] == OrderController.RequestItem(Some(cart[i].product.id), Some(cart[i].quantity), Some(cart[i].product.priceWithTax), None)
  {
  }

  lemma {:induction false} SubtotalOfCart(cart: seq<CartItem>, lines: seq<OrderModel.OrderItem>)
    requires |lines| == |cart|
    requires forall i :: 0 <= i < |cart| ==> lines[i].quantity == cart[i].quantity && lines[i].price == cart[i].product.priceWithTax
    ensures OrderController.Subtotal(lines) == Total(cart)
  {
    if cart != [] {
      var n := |cart| - 1;
      SubtotalOfCart(cart[..n], lines[..n]);
    }
  }

  /** The screen's state around a sale. */
  datatype Till = Till(cart: seq<CartItem>, paymentMethod: string, invoice: seq<InvoiceLine>, invoiceReady: bool)

  /**
   * The server's answer to the posted order: on 200 or 201 the invoice
   * snapshot is kept and printable, and the cart and payment method are
   * cleared for the next sale; on any other status nothing changes.
   */
  function AfterOrder(t: Till, status: int): (r: Till)
    ensures status == 200 || status == 201 ==>
              r == Till([], "", InvoiceLines(t.cart), true)
    ensures status != 200 && status != 201 ==> r == t
  {
    if status == 200 || status == 201 then Till([], "", InvoiceLines(t.cart), true) else t
  }

  /** The printed total of a completed sale is the total of the cart that was paid for. */
  lemma PrintedTotalIsPaidTotal(t: Till, status: int)
    requires status == 200 || status == 201
    ensures SubtotalSum(AfterOrder(t, status).invoice) == Total(t.cart)
  {
    InvoiceAddsUp(t.cart);
  }

  // ---------------------------------------------------------------------
  // The till as written: it reads `it.product.price`, which is undefined

  /** Every line's product lacks `price`, as every product the lookup returns does. */
  predicate NoDocumentPrice(cart: seq<CartItem>) {
    forall i :: 0 <= i < |cart| ==> cart[i].product.price.None?
  }

  /** The screen's controls never bring a `price` into a cart whose products have none. */
  lemma ControlsKeepNoPrice(cart: seq<CartItem>, p: ScannedProduct, id: Id)
    requires NoDocumentPrice(cart) && p.price.None?
    ensures NoDocumentPrice(AddScanned(cart, p))
    ensures NoDocumentPrice(Increment(cart, id))
    ensures NoDocumentPrice(Decrement(cart, id))
    ensures NoDocumentPrice(Remove(cart, id))
  {
    RemoveMembers(cart, id);
    var r := Remove(cart, id);
    forall i | 0 <= i < |r| ensures r[i].product.price.None? {
      assert r[i] in cart;
    }
    var lowered := seq(|cart|, i requires 0 <= i < |cart| => Lowered(cart[i], id));
    var d := Decrement(cart, id);
    forall i | 0 <= i < |d| ensures d[i].product.price.None? {
      assert d[i] in lowered;
    }
    var a := AddScanned(cart, p);
    if !HasProduct(cart, p.id) {
      forall i | 0 <= i < |a| ensures a[i].product.price.None? {
        if i < |cart| { assert a[i] == cart[i]; }
      }
    }
  }

  /**
   * `calculateCartTotal` as written, in JavaScript numbers: None is NaN,
   * which `undefined * quantity` gives and every later addition keeps.
   */
  function TotalAsWritten(items: seq<CartItem>): Option<real> {
    if items == [] then Some(0.0)
    else
      var init := TotalAsWritten(items[..|items| - 1]);
      var last := items[|items| - 1];
      if init.None? || last.product.price.None? then None
      else Some(init.value + last.product.price.value * last.quantity as real)
  }

  /** As written, the total of any non-empty cart of fetched products is NaN. */
  lemma TotalAsWrittenIsNaN(cart: seq<CartItem>)
    requires cart != [] && NoDocumentPrice(cart)
    ensures TotalAsWritten(cart).None?
  {
    assert cart[|cart| - 1].product.price.None?;
  }

  /**
   * The order as the server reads it from the till as written: `price:
   * undefined` is dropped from the JSON, so each line carries a product and
   * a quantity only.
   */
  function RequestAsWritten(cart: seq<CartItem>, paymentMethod: string): (r: OrderController.OrderRequest)
    ensures r.items.Some? && |r.items.value| == |cart|
    ensures forall i :: 0 <= i < |cart| ==>
              r.items.value[i] == OrderController.RequestItem(Some(cart[i].product.id), Some(cart[i].quantity), cart[i].product.price, None)
  {
    OrderController.OrderRequest(
      Some(seq(|cart|, i requires 0 <= i < |cart| =>
        OrderController.RequestItem(Some(cart[i].product.id), Some(cart[i].quantity), cart[i].product.price, None))),
      Some(paymentMethod), None)
  }

  /**
   * As written, no sale completes: the server cannot build a single order
   * line (`item.price || item.basePrice` is undefined, so the required
   * `price` fails and the order is answered 500), and on that answer the
   * till keeps its cart and prints nothing new.
   */
  lemma SaleRefusedAsWritten(t: Till)
    requires t.cart != [] && NoDocumentPrice(t.cart)
    ensures OrderController.OrderLines(RequestAsWritten(t.cart, t.paymentMethod).items.value).None?
    ensures AfterOrder(t, 500) == t
  {
    var items := RequestAsWritten(t.cart, t.paymentMethod).items.value;
    assert OrderController.ToLine(items[0]).None?;
  }

  // ---------------------------------------------------------------------
  // Scanning

  /** The screen's scan state: the cart and the code read last. */
  datatype ScanState = ScanState(cart: seq<CartItem>, scannedCode: string)

  /**
   * `handleScan(data)`: an empty read, or the code just read, is ignored.
   * Otherwise the code becomes the last one read and the product the
   * lookup returned (`found`, which LookupBySku gives for the stored
   * products; None for no product or a failed request) is added.
   */
  function HandleScan(s: ScanState, data: string, found: Option<ScannedProduct>): (r: ScanState)
    ensures data == "" || data == s.scannedCode ==> r == s
    ensures data != "" && data != s.scannedCode ==> r.scannedCode == data
    ensures data != "" && data != s.scannedCode && found.None? ==> r.cart == s.cart
    ensures data != "" && data != s.scannedCode && found.Some? ==> r.cart == AddScanned(s.cart, found.value)
  {
    if data == "" || data == s.scannedCode then s
    else ScanState(if found.Some? then AddScanned(s.cart, found.value) else s.cart, data)
  }

  /** The same code read again straight after is ignored, whatever the lookup would return. */
  lemma ScanDebounced(s: ScanState, data: string, found: Option<ScannedProduct>, again: Option<ScannedProduct>)
    ensures HandleScan(HandleScan(s, data, found), data, again) == HandleScan(s, data, found)
  {
  }

  /** The timer in `handleScan`'s `finally`: 1.5 seconds later the last code read is forgotten. */
  function ForgetCode(s: ScanState): (r: ScanState)
    ensures r.cart == s.cart
  {
    s.(scannedCode := "")
  }

  /** Once the last code is forgotten, the same code is read again and adds its product once more. */
  lemma ScanAgainAfterForget(s: ScanState, data: string, p: ScannedProduct)
    requires data != ""
    ensures var again := HandleScan(ForgetCode(HandleScan(s, data, Some(p))), data, Some(p));
            again.scannedCode == data && again.cart == AddScanned(HandleScan(s, data, Some(p)).cart, p)
  {
  }

  /** A scan keeps one line per product and at least one unit per line. */
  lemma ScanKeepsCartShape(s: ScanState, data: string, found: Option<ScannedProduct>)
    requires UniqueIds(s.cart) && AllPositive(s.cart)
    ensures UniqueIds(HandleScan(s, data, found).cart) && AllPositive(HandleScan(s, data, found).cart)
  {
    if found.Some? {
      AddScannedKeepsUnique(s.cart, found.value);
      ControlsKeepPositive(s.cart, found.value, found.value.id);
    }
  }

  /** Scanning with the sku lookup never gives the cart a product with a `price`. */
  lemma ScanKeepsNoPrice(s: ScanState, data: string, products: seq<ProductModel.Product>)
    requires NoDocumentPrice(s.cart)
    ensures NoDocumentPrice(HandleScan(s, data, LookupBySku(products, data)).cart)
  {
    var found := LookupBySku(products, data);
    if found.Some? {
      ControlsKeepNoPrice(s.cart, found.value, found.value.id);
    }
  }

  // ---------------------------------------------------------------------
  // HTML escaping

  /** `s.replaceAll(c, rep)` for a one-character pattern. */
  function ReplaceAll(s: string, c: char, rep: string): (r: string)
    ensures forall x :: x in r ==> x in rep || (x in s && x != c)
  {
    if s == [] then [] else (if s[0] == c then rep else [s[0]]) + ReplaceAll(s[1..], c, rep)
  }

  /** The five replacements of `escapeHtml`, ampersand first. */
  function EscapeChain(s: string): string {
    ReplaceAll(ReplaceAll(ReplaceAll(ReplaceAll(ReplaceAll(s, '&', "&amp;"), '<', "&lt;"), '>', "&gt;"), '"', "&quot;"), '\'', "&#039;")
  }

  /** `escapeHtml`: a missing or empty name gives the empty string. */
  function EscapeHtml(str: Option<string>): (r: string)
    ensures str.None? || str == Some("") ==> r == ""
    ensures forall x :: x in r ==> x != '<' && x != '>' && x != '"' && x != '\''
  {
    if str.None? || str.value == "" then "" else EscapeChain(str.value)
  }

  /** The entity each character becomes: the reference encoding, one character at a time. */
  function Entity(c: char): string {
    if c == '&' then "&amp;"
    else if c == '<' then "&lt;"
    else if c == '>' then "&gt;"
    else if c == '"' then "&quot;"
    else if c == '\'' then "&#039;"
    else [c]
  }

  function Encode(s: string): string {
    if s == [] then [] else Entity(s[0]) + Encode(s[1..])
  }

  lemma {:induction false} ReplaceAllAppend(a: string, b: string, c: char, rep: string)
    ensures ReplaceAll(a + b, c, rep) == ReplaceAll(a, c, rep) + ReplaceAll(b, c, rep)
  {
    if a == [] {
      assert a + b == b;
    } else {
      assert (a + b)[0] == a[0] && (a + b)[1..] == a[1..] + b;
      ReplaceAllAppend(a[1..], b, c, rep);
    }
  }

  lemma {:induction false} ReplaceAbsent(s: string, c: char, rep: string)
    requires c !in s
    ensures ReplaceAll(s, c, rep) == s
  {
    if s != [] {
      assert s[0] != c;
      assert c !in s[1..];
      ReplaceAbsent(s[1..], c, rep);
      assert [s[0]] + s[1..] == s;
    }
  }

  lemma EscapeChainAppend(a: string, b: string)
    ensures EscapeChain(a + b) == EscapeChain(a) + EscapeChain(b)
  {
    var a1, b1 := ReplaceAll(a, '&', "&amp;"), ReplaceAll(b, '&', "&amp;");
    ReplaceAllAppend(a, b, '&', "&amp;");
    var a2, b2 := ReplaceAll(a1, '<', "&lt;"), ReplaceAll(b1, '<', "&lt;");
    ReplaceAllAppend(a1, b1, '<', "&lt;");
    var a3, b3 := ReplaceAll(a2, '>', "&gt;"), ReplaceAll(b2, '>', "&gt;");
    ReplaceAllAppend(a2, b2, '>', "&gt;");
    var a4, b4 := ReplaceAll(a3, '"', "&quot;"), ReplaceAll(b3, '"', "&quot;");
    ReplaceAllAppend(a3, b3, '"', "&quot;");
    ReplaceAllAppend(a4, b4, '\'', "&#039;");
  }

  /** A single character comes out of the chain as its entity: no entity is escaped a second time. */
  lemma EscapeChainChar(c: char)
    ensures EscapeChain([c]) == Entity(c)
  {
    if c == '&' {
      ReplaceOne(c, '&', "&amp;");
      LaterStagesKeep("&amp;", 1);
    } else {
      ReplaceOne(c, '&', "&amp;");
      if c == '<' {
        ReplaceOne(c, '<', "&lt;");
        LaterStagesKeep("&lt;", 2);
      } else {
        ReplaceOne(c, '<', "&lt;");
        if c == '>' {
          ReplaceOne(c, '>', "&gt;");
          LaterStagesKeep("&gt;", 3);
        } else {
          ReplaceOne(c, '>', "&gt;");
          if c == '"' {
            ReplaceOne(c, '"', "&quot;");
            LaterStagesKeep("&quot;", 4);
          } else {
            ReplaceOne(c, '"', "&quot;");
            ReplaceOne(c, '\'', "&#039;");
          }
        }
      }
    }
  }

  /** The replacement stages from stage `from` on (2 is `<`, 5 is the apostrophe), applied to `s`. */
  function Stages(s: string, from: nat): string {
    var s2 := if from <= 1 then ReplaceAll(s, '<', "&lt;") else s;
    var s3 := if from <= 2 then ReplaceAll(s2, '>', "&gt;") else s2;
    var s4 := if from <= 3 then ReplaceAll(s3, '"', "&quot;") else s3;
    if from <= 4 then ReplaceAll(s4, '\'', "&#039;") else s4
  }

  /** Those stages leave alone a string that holds none of their characters. */
  lemma LaterStagesKeep(e: string, from: nat)
    requires 1 <= from <= 4
    requires forall x :: x in e ==> x != '<' && x != '>' && x != '"' && x != '\''
    ensures Stages(e, from) == e
  {
    ReplaceAbsent(e, '\'', "&#039;");
    if from <= 3 { ReplaceAbsent(e, '"', "&quot;"); }
    if from <= 2 { ReplaceAbsent(e, '>', "&gt;"); }
    if from <= 1 { ReplaceAbsent(e, '<', "&lt;"); }
  }

  lemma ReplaceOne(c: char, x: char, rep: string)
    ensures ReplaceAll([c], x, rep) == if c == x then rep else [c]
  {
    assert [c][1..] == [];
    assert ReplaceAll([], x, rep) == [];
  }

  /** The chained replacements are the character-by-character encoding. */
  lemma {:induction false} EscapeIsEncode(s: string)
    ensures EscapeChain(s) == Encode(s)
  {
    if s == [] {
      assert EscapeChain(s) == [];
    } else {
      assert s == [s[0]] + s[1..];
      EscapeChainAppend([s[0]], s[1..]);
      EscapeChainChar(s[0]);
      EscapeIsEncode(s[1..]);
    }
  }

  predicate StartsWith(t: string, p: string) {
    |p| <= |t| && t[..|p|] == p
  }

  /** Reading entities back into characters. */
  function Unescape(t: string): string
    decreases |t|
  {
    if t == [] then []
    else if StartsWith(t, "&amp;") then "&" + Unescape(t[5..])
    else if StartsWith(t, "&lt;") then "<" + Unescape(t[4..])
    else if StartsWith(t, "&gt;") then ">" + Unescape(t[4..])
    else if StartsWith(t, "&quot;") then "\"" + Unescape(t[6..])
    else if StartsWith(t, "&#039;") then "'" + Unescape(t[6..])
    else [t[0]] + Unescape(t[1..])
  }

  lemma UnescapeEntity(c: char, rest: string)
    ensures Unescape(Entity(c) + rest) == [c] + Unescape(rest)
  {
    var e := Entity(c);
    var t := e + rest;
    assert t[..|e|] == e && t[|e|..] == rest;
    if c == '&' {
      assert StartsWith(t, "&amp;");
    } else if c == '<' {
      assert t[1] == 'l' && !StartsWith(t, "&amp;");
      assert StartsWith(t, "&lt;");
    } else if c == '>' {
      assert t[1] == 'g' && !StartsWith(t, "&amp;") && !StartsWith(t, "&lt;");
      assert StartsWith(t, "&gt;");
    } else if c == '"' {
      assert t[1] == 'q' && !StartsWith(t, "&amp;") && !StartsWith(t, "&lt;") && !StartsWith(t, "&gt;");
      assert StartsWith(t, "&quot;");
    } else if c == '\'' {
      assert t[1] == '#' && !StartsWith(t, "&amp;") && !StartsWith(t, "&lt;") && !StartsWith(t, "&gt;") && !StartsWith(t, "&quot;");
      assert StartsWith(t, "&#039;");
    } else {
      assert t[0] == c && t[1..] == rest;
      assert !StartsWith(t, "&amp;") && !StartsWith(t, "&lt;") && !StartsWith(t, "&gt;") && !StartsWith(t, "&quot;") && !StartsWith(t, "&#039;");
    }
  }

  /** Escaping loses nothing: the escaped name reads back as the name. */
  lemma {:induction false} EscapeRoundTrip(s: string)
    ensures Unescape(EscapeHtml(Some(s))) == s
  {
    if s != [] {
      EscapeIsEncode(s);
      EncodeRoundTrip(s);
    }
  }

  lemma {:induction false} EncodeRoundTrip(s: string)
    ensures Unescape(Encode(s)) == s
  {
    if s != [] {
      UnescapeEntity(s[0], Encode(s[1..]));
      EncodeRoundTrip(s[1..]);
      assert [s[0]] + s[1..] == s;
    }
  }
}
