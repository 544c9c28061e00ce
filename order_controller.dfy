/**
 * Placing an order (server/controllers/order.controller.js, `createOrder`):
 * the request lines become order lines carrying a price snapshot, the
 * totals are summed, the order is saved, and then every line deducts its
 * quantity from the product it names, never below zero. Also the
 * reporting period to date-format switch of `getSalesData`.
 */
module OrderController {
  import opened Common
  import opened ProductModel
  import opened OrderModel

  /** The user recorded on an order whose request names none. */
  const PlaceholderUser: Id := 0x6700f1b8b123456789abcd01

  /** One line of the request body, every field as the client may or may not send it. */
  datatype RequestItem = RequestItem(
    productId: Option<Id>,
    quantity: Option<int>,
    price: Option<real>,
    basePrice: Option<real>)

  /** The request body: `items` may be absent; `user` absent stands for any falsy value. */
  datatype OrderRequest = OrderRequest(
    items: Option<seq<RequestItem>>,
    paymentMethod: Option<string>,
    user: Option<Id>)

  /**
   * The price snapshot `item.price || item.basePrice`: the given price,
   * unless it is missing or zero, in which case the base price (which may
   * itself be missing).
   */
  function PriceSnapshot(item: RequestItem): (r: Option<real>)
    ensures item.price.Some? && item.price.value != 0.0 ==> r == item.price
    ensures item.price.None? || item.price.value == 0.0 ==> r == item.basePrice
    ensures r.Some? ==> r == item.price || r == item.basePrice
  {
    if item.price.Some? && item.price.value != 0.0 then item.price else item.basePrice
  }

  /** A request line as an order line; None when the order-item schema would refuse it (a required field missing). */
  function ToLine(item: RequestItem): Option<OrderItem> {
    var price := PriceSnapshot(item);
    if item.productId.None? || item.quantity.None? || price.None? then None
    else Some(OrderItem(item.productId.value, item.quantity.value, price.value))
  }

  /** All request lines as order lines, or None when any of them is refused. */
  function OrderLines(items: seq<RequestItem>): (r: Option<seq<OrderItem>>)
    ensures r.Some? <==> forall i :: 0 <= i < |items| ==> ToLine(items[i]).Some?
    ensures r.Some? ==> |r.value| == |items|
    ensures r.Some? ==> forall i :: 0 <= i < |items| ==>
      && r.value[i].product == items[i].productId.value
      && r.value[i].quantity == items[i].quantity.value
      && Some(r.value[i].price) == PriceSnapshot(items[i])
  {
    if items == [] then Some([])
    else
      var first := ToLine(items[0]);
      var rest := OrderLines(items[1..]);
      if first.None? || rest.None? then
        assert first.None? ==> !ToLine(items[0]).Some?;
        None
      else
        var r := [first.value] + rest.value;
        assert forall i :: 1 <= i < |items| ==> items[i] == items[1..][i - 1];
        Some(r)
  }

  /** The `reduce` that sums price times quantity, left to right. */
  function Subtotal(lines: seq<OrderItem>): real {
    if lines == [] then 0.0
    else Subtotal(lines[..|lines| - 1]) + lines[|lines| - 1].price * lines[|lines| - 1].quantity as real
  }

  /** The subtotal of two runs of lines is the sum of their subtotals. */
  lemma {:induction false} SubtotalAppend(a: seq<OrderItem>, b: seq<OrderItem>)
    ensures Subtotal(a + b) == Subtotal(a) + Subtotal(b)
    decreases |b|
  {
    if b != [] {
      var b' := b[..|b| - 1];
      assert (a + b)[..|a + b| - 1] == a + b';
      var last := b[|b| - 1];
      assert (a + b)[|a + b| - 1] == last;
      SubtotalAppend(a, b');
      assert Subtotal(a + b) == Subtotal(a + b') + last.price * last.quantity as real;
      assert Subtotal(b) == Subtotal(b') + last.price * last.quantity as real;
    } else {
      assert a + b == a;
    }
  }

  /** With every price and quantity non-negative, so is the subtotal. */
  lemma {:induction false} SubtotalNonNegative(lines: seq<OrderItem>)
    requires forall i :: 0 <= i < |lines| ==> lines[i].price >= 0.0 && lines[i].quantity >= 0
    ensures Subtotal(lines) >= 0.0
  {
    if lines != [] {
      var init := lines[..|lines| - 1];
      assert forall i :: 0 <= i < |init| ==> init[i] == lines[i];
      SubtotalNonNegative(init);
    }
  }

  /** Two lines, 2 at 10 and 3 at 5, come to 35. */
  lemma SubtotalExample()
    ensures Subtotal([OrderItem(0, 2, 10.0), OrderItem(1, 3, 5.0)]) == 35.0
  {
    var a := [OrderItem(0, 2, 10.0)];
    var b := [OrderItem(1, 3, 5.0)];
    assert a + b == [OrderItem(0, 2, 10.0), OrderItem(1, 3, 5.0)];
    SubtotalAppend(a, b);
    assert a[..0] == [] && b[..0] == [];
  }

  function Max(a: int, b: int): int {
    if a >= b then a else b
  }

  /**
   * One iteration of the stock loop: the product the line names, when it
   * exists, gets `max(stock - quantity, 0)`; a line naming no product
   * changes nothing.
   */
  function DeductOne(products: seq<Product>, line: OrderItem): (r: seq<Product>)
    ensures |r| == |products|
    ensures forall i :: 0 <= i < |products| && i != line.product ==> r[i] == products[i]
  {
    if line.product < |products| then
      var p := products[line.product];
      products[line.product := p.(stock := Max(p.stock - line.quantity, 0))]
    else products
  }

  /** The stock loop over all lines, in order. */
  function DeductAll(products: seq<Product>, lines: seq<OrderItem>): (r: seq<Product>)
    ensures |r| == |products|
  {
    if lines == [] then products
    else DeductOne(DeductAll(products, lines[..|lines| - 1]), lines[|lines| - 1])
  }

  /** Some line names product `id`. */
  predicate Touches(lines: seq<OrderItem>, id: Id) {
    exists k :: 0 <= k < |lines| && lines[k].product == id
  }

  /** The quantity ordered of product `id` over all lines naming it. */
  function TotalQuantity(lines: seq<OrderItem>, id: Id): int {
    if lines == [] then 0
    else
      var last := lines[|lines| - 1];
      TotalQuantity(lines[..|lines| - 1], id) + (if last.product == id then last.quantity else 0)
  }

  lemma {:induction false} UntouchedQuantityZero(lines: seq<OrderItem>, id: Id)
    requires !Touches(lines, id)
    ensures TotalQuantity(lines, id) == 0
  {
    if lines != [] {
      var init := lines[..|lines| - 1];
      assert !Touches(init, id) by {
        forall k | 0 <= k < |init| ensures init[k].product != id {
          assert init[k] == lines[k];
        }
      }
      assert lines[|lines| - 1].product != id;
      UntouchedQuantityZero(init, id);
    }
  }

  lemma TouchesSnoc(init: seq<OrderItem>, last: OrderItem, id: Id)
    ensures Touches(init + [last], id) <==> Touches(init, id) || last.product == id
  {
    var lines := init + [last];
    if Touches(init, id) {
      var k :| 0 <= k < |init| && init[k].product == id;
      assert lines[k] == init[k];
    }
    if last.product == id {
      assert lines[|init|] == last;
    }
    if Touches(lines, id) {
      var k :| 0 <= k < |lines| && lines[k].product == id;
      if k < |init| { assert lines[k] == init[k]; }
    }
  }

  /**
   * Deducting in sequence with non-negative quantities: a product that
   * no line names is unchanged; one that some lines name ends at
   * `max(stock - (sum of those quantities), 0)`, every other field kept.
   */
  lemma {:induction false} DeductAllStock(products: seq<Product>, lines: seq<OrderItem>, id: Id)
    requires id < |products|
    requires forall k :: 0 <= k < |lines| ==> lines[k].quantity >= 0
    ensures !Touches(lines, id) ==> DeductAll(products, lines)[id] == products[id]
    ensures Touches(lines, id) ==>
      DeductAll(products, lines)[id] ==
        products[id].(stock := Max(products[id].stock - TotalQuantity(lines, id), 0))
    decreases |lines|
  {
    if lines != [] {
      var init := lines[..|lines| - 1];
      var last := lines[|lines| - 1];
      assert init + [last] == lines;
      TouchesSnoc(init, last, id);
      assert forall k :: 0 <= k < |init| ==> init[k] == lines[k];
      DeductAllStock(products, init, id);
      if last.product == id && !Touches(init, id) {
        UntouchedQuantityZero(init, id);
      }
    }
  }

  /** Whatever the quantities, deduction changes stock and nothing else, and never leaves a named product below zero. */
  lemma {:induction false} DeductAllOnlyStock(products: seq<Product>, lines: seq<OrderItem>, id: Id)
    requires id < |products|
    ensures DeductAll(products, lines)[id].(stock := products[id].stock) == products[id]
    ensures Touches(lines, id) ==> DeductAll(products, lines)[id].stock >= 0
    decreases |lines|
  {
    if lines != [] {
      var init := lines[..|lines| - 1];
      var last := lines[|lines| - 1];
      assert init + [last] == lines;
      TouchesSnoc(init, last, id);
      DeductAllOnlyStock(products, init, id);
    }
  }

  /** A line naming no stored product changes nothing at all. */
  lemma DeductMissingProduct(products: seq<Product>, line: OrderItem)
    requires line.product >= |products|
    ensures DeductAll(products, [line]) == products
  {
    assert [line][..0] == [];
  }

  /** Stock 5 and an order of 7: the stock floors at 0 instead of going to -2. */
  lemma DeductFloorExample(p: Product)
    requires p.stock == 5
    ensures DeductAll([p], [OrderItem(0, 7, 1.0)]) == [p.(stock := 0)]
  {
    assert [OrderItem(0, 7, 1.0)][..0] == [];
  }

  /** The order `createOrder` saves for valid lines and a valid payment method. */
  function NewOrder(req: OrderRequest, lines: seq<OrderItem>, payment: PaymentMethod): Order {
    var subtotal := Subtotal(lines);
    Order(req.user.GetOr(PlaceholderUser), lines, subtotal, 0.0, 0.0, subtotal - 0.0 + 0.0, payment, Paid)
  }

  /**
   * `createOrder`: 400 when there are no items; 500 when a line or the
   * payment method fails validation (nothing saved); otherwise the order
   * is appended, then every line's product stock is deducted in turn.
   */
  method CreateOrder(products: seq<Product>, orders: seq<Order>, req: OrderRequest)
    returns (resp: Response<Order>, products': seq<Product>, orders': seq<Order>)
    ensures req.items.None? || req.items.value == [] ==>
      resp == Fail(400, "No items in the order.") && products' == products && orders' == orders
    ensures req.items.Some? && req.items.value != [] &&
            (OrderLines(req.items.value).None? || CastPaymentMethod(req.paymentMethod).None?) ==>
      resp == Fail(500, "Failed to create order") && products' == products && orders' == orders
    ensures resp.Ok? <==>
      req.items.Some? && req.items.value != [] &&
      OrderLines(req.items.value).Some? && CastPaymentMethod(req.paymentMethod).Some?
    ensures resp.Ok? ==>
      var lines := OrderLines(req.items.value).value;
      && resp == Ok(201, resp.body)
      && resp.body.user == req.user.GetOr(PlaceholderUser)
      && resp.body.items == lines
      && resp.body.subtotal == Subtotal(lines)
      && resp.body.discount == 0.0 && resp.body.tax == 0.0
      && resp.body.total == resp.body.subtotal
      && resp.body.status == Paid
      && Some(resp.body.paymentMethod) == CastPaymentMethod(req.paymentMethod)
      && orders' == orders + [resp.body]
      && products' == DeductAll(products, lines)
  {
    if req.items.None? || req.items.value == [] {
      return Fail(400, "No items in the order."), products, orders;
    }
    var lines := OrderLines(req.items.value);
    var payment := CastPaymentMethod(req.paymentMethod);
    if lines.None? || payment.None? {
      return Fail(500, "Failed to create order"), products, orders;
    }
    var order := NewOrder(req, lines.value, payment.value);
    orders' := orders + [order];
    products' := products;
    var k := 0;
    while k < |lines.value|
      invariant 0 <= k <= |lines.value|
      invariant products' == DeductAll(products, lines.value[..k])
    {
      assert lines.value[..k + 1][..k] == lines.value[..k];
      products' := DeductOne(products', lines.value[k]);
      k := k + 1;
    }
    assert lines.value[..k] == lines.value;
    resp := Ok(201, order);
  }

  /** The aggregation periods `getSalesData` knows. */
  datatype Period = Daily | Weekly | Monthly | Yearly

  function PeriodFormat(p: Period): string {
    match p
    case Daily => "%Y-%m-%d"
    case Weekly => "%Y-%U"
    case Monthly => "%Y-%m"
    case Yearly => "%Y"
  }

  /** The `period` query parameter, defaulting to "daily" when absent; an unknown name is None. */
  function ParsePeriod(period: Option<string>): Option<Period> {
    match period
    case None => Some(Daily)
    case Some(name) =>
      if name == "daily" then Some(Daily)
      else if name == "weekly" then Some(Weekly)
      else if name == "monthly" then Some(Monthly)
      else if name == "yearly" then Some(Yearly)
      else None
  }

  /** The `$dateToString` format: the period's own, and the daily one for anything unrecognised. */
  function DateFormat(period: Option<string>): (r: string)
    ensures r == "%Y-%U" <==> period == Some("weekly")
    ensures r == "%Y-%m" <==> period == Some("monthly")
    ensures r == "%Y" <==> period == Some("yearly")
    ensures r == "%Y-%m-%d" <==> period != Some("weekly") && period != Some("monthly") && period != Some("yearly")
  {
    PeriodFormat(ParsePeriod(period).GetOr(Daily))
  }

  /** The four formats are pairwise distinct, so grouping by one never merges two periods' keys. */
  lemma PeriodFormatInjective(p: Period, q: Period)
    ensures PeriodFormat(p) == PeriodFormat(q) <==> p == q
  {
    if p != q {
      var f, g := PeriodFormat(p), PeriodFormat(q);
      assert f[|f| - 1] != g[|g| - 1];
    }
  }
}
