/**
 * The order schema (server/models/order.model.js): line items carrying a
 * product reference, a quantity and a price snapshot; subtotal and total
 * required; discount and tax defaulting to 0; the payment-method and
 * status enumerations with their defaults. The schema is strict and has no
 * field for a transaction reference, so none is stored.
 */
module OrderModel {
  import opened Common

  datatype PaymentMethod = Cash | Card | MobileMoney

  function PaymentMethodName(m: PaymentMethod): string {
    match m
    case Cash => "cash"
    case Card => "card"
    case MobileMoney => "mobile money"
  }

  datatype OrderStatus = Pending | Paid | Cancelled

  function OrderStatusName(s: OrderStatus): string {
    match s
    case Pending => "pending"
    case Paid => "paid"
    case Cancelled => "cancelled"
  }

  const DefaultPaymentMethod: PaymentMethod := Cash
  const DefaultStatus: OrderStatus := Paid
  const DefaultDiscount: real := 0.0
  const DefaultTax: real := 0.0

  /**
   * The payment-method field on save: absent takes the default "cash"; a
   * present value must be one of the three names, or validation fails (None).
   */
  function CastPaymentMethod(raw: Option<string>): (r: Option<PaymentMethod>)
    ensures raw.None? ==> r == Some(DefaultPaymentMethod)
    ensures raw.Some? ==> forall m :: r == Some(m) <==> PaymentMethodName(m) == raw.value
  {
    match raw
    case None => Some(DefaultPaymentMethod)
    case Some(name) =>
      if name == "cash" then Some(Cash)
      else if name == "card" then Some(Card)
      else if name == "mobile money" then Some(MobileMoney)
      else None
  }

  /** The status field on save, in the same way: absent is "paid", an unknown name fails. */
  function CastOrderStatus(raw: Option<string>): (r: Option<OrderStatus>)
    ensures raw.None? ==> r == Some(DefaultStatus)
    ensures raw.Some? ==> forall s :: r == Some(s) <==> OrderStatusName(s) == raw.value
  {
    match raw
    case None => Some(DefaultStatus)
    case Some(name) =>
      if name == "pending" then Some(Pending)
      else if name == "paid" then Some(Paid)
      else if name == "cancelled" then Some(Cancelled)
      else None
  }

  /** Every name round-trips through the enum validators. */
  lemma EnumNamesRoundTrip(m: PaymentMethod, s: OrderStatus)
    ensures CastPaymentMethod(Some(PaymentMethodName(m))) == Some(m)
    ensures CastOrderStatus(Some(OrderStatusName(s))) == Some(s)
  {
  }

  /** One order line: the product, the quantity, and the unit price at the time of sale. */
  datatype OrderItem = OrderItem(product: Id, quantity: int, price: real)

  datatype Order = Order(
    user: Id,
    items: seq<OrderItem>,
    subtotal: real,
    discount: real,
    tax: real,
    total: real,
    paymentMethod: PaymentMethod,
    status: OrderStatus)
}
