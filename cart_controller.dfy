/**
 * The server-side cart (server/controllers/cart.controller.js). Every
 * handler works on the one active cart of a fixed test user: it looks that
 * cart up, changes the document in place (a line's quantity, the list of
 * lines, the status) and saves it. The lookup is the `found` parameter of
 * each handler: the active cart of the test user, or null when there is
 * none.
 */
module CartController {
  import opened Common

  /** The user every handler works for, in place of the caller's identity. */
  const TestUser: Id := 0x68e7dee469d4b71029272c39

  datatype CartLine = CartLine(product: Id, quantity: int)

  datatype CartStatus = Active | CheckedOut

  /** A cart document, changed in place by the handlers and then saved. */
  class Cart {
    var user: Id
    var items: seq<CartLine>
    var status: CartStatus

    /** `new Cart({user, items: []})`: an empty cart, active by default. */
    constructor(user: Id)
      ensures this.user == user && items == [] && status == Active
    {
      this.user := user;
      items := [];
      status := Active;
    }
  }

  /** What a handler sends back with the cart: an optional message and the cart itself. */
  datatype CartReply = CartReply(message: Option<string>, cart: Cart)

  /** `items.find(item => item.product === id)`, as a position: the first line for `product`, if any. */
  function FirstIndex(lines: seq<CartLine>, product: Id): (r: Option<nat>)
    ensures r.Some? ==> r.value < |lines| && lines[r.value].product == product
    ensures r.Some? ==> forall j :: 0 <= j < r.value ==> lines[j].product != product
    ensures r.None? ==> forall j :: 0 <= j < |lines| ==> lines[j].product != product
  {
    FirstWhere(lines, (l: CartLine) => l.product == product)
  }

  /** Each product has at most one line. */
  predicate UniqueProducts(lines: seq<CartLine>) {
    forall i, j :: 0 <= i < j < |lines| ==> lines[i].product != lines[j].product
  }

  /**
   * The lines after adding `quantity` of `product`: added to the first line
   * of that product when there is one, otherwise a new line at the end.
   */
  function Merge(lines: seq<CartLine>, product: Id, quantity: int): seq<CartLine> {
    match FirstIndex(lines, product)
    case Some(k) => lines[k := CartLine(product, lines[k].quantity + quantity)]
    case None => lines + [CartLine(product, quantity)]
  }

  /** Adding a product already in the cart grows that line's quantity and creates no line. */
  lemma MergeExisting(lines: seq<CartLine>, product: Id, quantity: int, k: nat)
    requires k < |lines| && lines[k].product == product && UniqueProducts(lines)
    ensures |Merge(lines, product, quantity)| == |lines|
    ensures Merge(lines, product, quantity)[k] == CartLine(product, lines[k].quantity + quantity)
    ensures forall j :: 0 <= j < |lines| && j != k ==> Merge(lines, product, quantity)[j] == lines[j]
  {
    var f := FirstIndex(lines, product);
    assert f.Some? && f.value == k;
  }

  /** Adding a product not in the cart appends one line and leaves the others. */
  lemma MergeNew(lines: seq<CartLine>, product: Id, quantity: int)
    requires forall j :: 0 <= j < |lines| ==> lines[j].product != product
    ensures Merge(lines, product, quantity) == lines + [CartLine(product, quantity)]
  {
  }

  /** If each product has at most one line before an add, it has at most one line after. */
  lemma MergeKeepsUnique(lines: seq<CartLine>, product: Id, quantity: int)
    requires UniqueProducts(lines)
    ensures UniqueProducts(Merge(lines, product, quantity))
  {
    var m := Merge(lines, product, quantity);
    match FirstIndex(lines, product)
    case Some(k) =>
      forall i, j | 0 <= i < j < |m| ensures m[i].product != m[j].product {
        assert m[i].product == lines[i].product && m[j].product == lines[j].product;
      }
    case None =>
      forall i, j | 0 <= i < j < |m| ensures m[i].product != m[j].product {
        assert m[i] == lines[i];
        if j < |lines| {
          assert m[j] == lines[j];
        }
      }
  }

  /** `items.filter(item => item.product !== id)`. */
  function WithoutProduct(lines: seq<CartLine>, id: Id): (r: seq<CartLine>)
    ensures |r| <= |lines|
    ensures forall l :: l in r <==> l in lines && l.product != id
  {
    if lines == [] then []
    else (if lines[0].product == id then [] else [lines[0]]) + WithoutProduct(lines[1..], id)
  }

  /** The filter keeps the other lines in their order: it distributes over concatenation. */
  lemma {:induction false} WithoutProductAppend(a: seq<CartLine>, b: seq<CartLine>, id: Id)
    ensures WithoutProduct(a + b, id) == WithoutProduct(a, id) + WithoutProduct(b, id)
  {
    if a == [] {
      assert a + b == b;
    } else {
      assert (a + b)[0] == a[0] && (a + b)[1..] == a[1..] + b;
      WithoutProductAppend(a[1..], b, id);
    }
  }

  /** Removing a product that has no line changes nothing. */
  lemma {:induction false} WithoutAbsentProduct(lines: seq<CartLine>, id: Id)
    requires forall j :: 0 <= j < |lines| ==> lines[j].product != id
    ensures WithoutProduct(lines, id) == lines
  {
    if lines != [] {
      WithoutAbsentProduct(lines[1..], id);
      assert [lines[0]] + lines[1..] == lines;
    }
  }

  /** The filter never creates a second line for a product. */
  lemma {:induction false} WithoutProductKeepsUnique(lines: seq<CartLine>, id: Id)
    requires UniqueProducts(lines)
    ensures UniqueProducts(WithoutProduct(lines, id))
  {
    if lines != [] {
      var rest := lines[1..];
      UniqueSplit(lines);
      WithoutProductKeepsUnique(rest, id);
      var tail := WithoutProduct(rest, id);
      if lines[0].product != id {
        assert WithoutProduct(lines, id) == [lines[0]] + tail;
        UniqueCons(lines[0], tail);
      } else {
        assert WithoutProduct(lines, id) == tail;
      }
    }
  }

  /** The tail of a cart with one line per product keeps that, and has no line for the head's product. */
  lemma UniqueSplit(lines: seq<CartLine>)
    requires lines != [] && UniqueProducts(lines)
    ensures UniqueProducts(lines[1..])
    ensures forall l :: l in lines[1..] ==> l.product != lines[0].product
  {
    var rest := lines[1..];
    forall i, j | 0 <= i < j < |rest| ensures rest[i].product != rest[j].product {
      assert rest[i] == lines[i + 1] && rest[j] == lines[j + 1];
    }
    forall l | l in rest ensures l.product != lines[0].product {
      var m :| 0 <= m < |rest| && rest[m] == l;
      assert rest[m] == lines[m + 1];
    }
  }

  /** A line for a product the rest does not hold, in front of lines with one per product, keeps one per product. */
  lemma UniqueCons(line: CartLine, tail: seq<CartLine>)
    requires UniqueProducts(tail) && forall l :: l in tail ==> l.product != line.product
    ensures UniqueProducts([line] + tail)
  {
    var r := [line] + tail;
    forall i, j | 0 <= i < j < |r| ensures r[i].product != r[j].product {
      assert r[j] == tail[j - 1] && r[j] in tail;
      if i > 0 {
        assert r[i] == tail[i - 1];
      }
    }
  }

  /**
   * `addToCart`: a falsy product id or quantity (absent, or a quantity of 0)
   * is refused with 400; otherwise the active cart, or a new one for the
   * test user, gets the quantity merged in and is saved (201).
   */
  method AddToCart(found: Cart?, productId: Option<Id>, quantity: Option<int>) returns (resp: Response<CartReply>)
    requires found != null ==> found.user == TestUser && found.status == Active
    modifies found
    ensures productId.None? || quantity.None? || quantity == Some(0) ==>
              resp == Fail(400, "Product ID and quantity are required")
    ensures found != null && (productId.None? || quantity.None? || quantity == Some(0)) ==> unchanged(found)
    ensures productId.Some? && quantity.Some? && quantity.value != 0 ==>
              && resp.Ok? && resp.code == 201
              && resp.body.message == Some("Product added to cart successfully")
              && resp.body.cart.items == Merge(old(if found == null then [] else found.items), productId.value, quantity.value)
              && resp.body.cart.user == TestUser && resp.body.cart.status == Active
              && (found == null ==> fresh(resp.body.cart))
              && (found != null ==> resp.body.cart == found)
  {
    if productId.None? || quantity.None? || quantity.value == 0 {
      return Fail(400, "Product ID and quantity are required");
    }
    var cart: Cart;
    if found == null {
      cart := new Cart(TestUser);
    } else {
      cart := found;
    }
    var id, q := productId.value, quantity.value;
    var existing := FirstIndex(cart.items, id);
    if existing.Some? {
      var k := existing.value;
      cart.items := cart.items[k := CartLine(id, cart.items[k].quantity + q)];
    } else {
      cart.items := cart.items + [CartLine(id, q)];
    }
    resp := Ok(201, CartReply(Some("Product added to cart successfully"), cart));
  }

  /**
   * `updateCartItem`: 404 without an active cart or without a line for the
   * product; a quantity of 0 or less removes every line of the product,
   * any other quantity replaces the quantity of its first line.
   */
  method UpdateCartItem(found: Cart?, productId: Option<Id>, quantity: int) returns (resp: Response<CartReply>)
    modifies found
    ensures found == null ==> resp == Fail(404, "Cart not found")
    ensures found != null && (productId.None? || FirstIndex(old(found.items), productId.value).None?) ==>
              resp == Fail(404, "Item not in cart") && unchanged(found)
    ensures found != null && productId.Some? && FirstIndex(old(found.items), productId.value).Some? ==>
              && resp == Ok(200, CartReply(None, found))
              && found.user == old(found.user) && found.status == old(found.status)
              && (quantity <= 0 ==> found.items == WithoutProduct(old(found.items), productId.value))
              && (quantity > 0 ==>
                    var k := FirstIndex(old(found.items), productId.value).value;
                    found.items == old(found.items)[k := CartLine(productId.value, quantity)])
  {
    if found == null {
      return Fail(404, "Cart not found");
    }
    if productId.None? {
      return Fail(404, "Item not in cart");
    }
    var id := productId.value;
    var item := FirstIndex(found.items, id);
    if item.None? {
      return Fail(404, "Item not in cart");
    }
    if quantity <= 0 {
      found.items := WithoutProduct(found.items, id);
    } else {
      found.items := found.items[item.value := CartLine(id, quantity)];
    }
    resp := Ok(200, CartReply(None, found));
  }

  /** `removeFromCart`: 404 without an active cart; otherwise every line of the product is dropped. */
  method RemoveFromCart(found: Cart?, id: Id) returns (resp: Response<CartReply>)
    modifies found
    ensures found == null ==> resp == Fail(404, "Cart not found")
    ensures found != null ==>
              && resp == Ok(200, CartReply(Some("Item removed successfully"), found))
              && found.items == WithoutProduct(old(found.items), id)
              && found.user == old(found.user) && found.status == old(found.status)
  {
    if found == null {
      return Fail(404, "Cart not found");
    }
    found.items := WithoutProduct(found.items, id);
    resp := Ok(200, CartReply(Some("Item removed successfully"), found));
  }

  /** `checkoutCart`: 400 for a missing or empty cart; otherwise the status becomes checked out and the lines stay. */
  method CheckoutCart(found: Cart?) returns (resp: Response<CartReply>)
    modifies found
    ensures found == null || old(found.items) == [] ==> resp == Fail(400, "Cart is empty")
    ensures found != null && old(found.items) == [] ==> unchanged(found)
    ensures found != null && old(found.items) != [] ==>
              && resp == Ok(200, CartReply(Some("Checkout successful"), found))
              && found.status == CheckedOut
              && found.items == old(found.items) && found.user == old(found.user)
  {
    if found == null || found.items == [] {
      return Fail(400, "Cart is empty");
    }
    found.status := CheckedOut;
    resp := Ok(200, CartReply(Some("Checkout successful"), found));
  }

  /** What `getCart` shows: the message for a missing cart with no lines, or the cart's lines. */
  datatype CartView = NoCart(message: string, lines: seq<CartLine>) | Current(lines: seq<CartLine>)

  /** `getCart`: 200 either way; without an active cart the reply says so and lists no lines. */
  function GetCart(found: Cart?): (r: Response<CartView>)
    reads found
    ensures r.Ok? && r.code == 200
    ensures found == null <==> r.body.NoCart?
    ensures found == null ==> r.body.message == "Cart is empty" && r.body.lines == []
    ensures found != null ==> r.body.lines == found.items
  {
    if found == null then Ok(200, NoCart("Cart is empty", [])) else Ok(200, Current(found.items))
  }
}
