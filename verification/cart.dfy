/** The cart store: a list of lines, each a product snapshot with a
    quantity, keyed by product id; the four mutations and the totals
    pipeline (subtotal, 8% tax, flat shipping with free shipping strictly
    above 500, grand total). Saving the cart to the document store is a
    side effect the model leaves out. */
module Cart {
  import opened Catalog

  /** `{ ...product, quantity }`: the product as it was when first added. */
  datatype Line = Line(product: Product, quantity: int)

  const TaxRate: real := 0.08
  const FreeShippingAbove: int := 500
  const FlatShipping: int := 50

  predicate HasId(cart: seq<Line>, id: string) {
    exists i :: 0 <= i < |cart| && cart[i].product.id == id
  }

  /** At most one line per product id. */
  predicate UniqueIds(cart: seq<Line>) {
    forall i, j :: 0 <= i < j < |cart| ==> cart[i].product.id != cart[j].product.id
  }

  /** The number of lines carrying `id`. */
  function CountId(cart: seq<Line>, id: string): (n: nat)
    ensures n <= |cart|
    ensures n == 0 <==> !HasId(cart, id)
  {
    if cart == [] then 0
    else
      assert forall i :: 0 < i < |cart| ==> cart[i] == cart[1..][i - 1];
      (if cart[0].product.id == id then 1 else 0) + CountId(cart[1..], id)
  }

  // ------------------------------------------------------------- mutations

  /** Adds `qty` to every line with id `id`, leaving the rest alone. */
  function Bump(cart: seq<Line>, id: string, qty: int): (r: seq<Line>)
    ensures |r| == |cart|
    ensures forall i :: 0 <= i < |cart| ==> r[i].product == cart[i].product
    ensures forall i :: 0 <= i < |cart| && cart[i].product.id == id ==> r[i].quantity == cart[i].quantity + qty
    ensures forall i :: 0 <= i < |cart| && cart[i].product.id != id ==> r[i] == cart[i]
  {
    if cart == [] then []
    else
      var head := if cart[0].product.id == id then cart[0].(quantity := cart[0].quantity + qty) else cart[0];
      [head] + Bump(cart[1..], id, qty)
  }

  /** `addToCart(product, qty)`: a product already in the cart gets its
      line's quantity raised by `qty`; a new product is appended as one
      line. */
  function AddToCart(cart: seq<Line>, product: Product, qty: int): (r: seq<Line>)
    ensures HasId(cart, product.id) ==>
      && |r| == |cart|
      && (forall i :: 0 <= i < |cart| ==> r[i].product == cart[i].product)
      && (forall i :: 0 <= i < |cart| && cart[i].product.id == product.id ==> r[i].quantity == cart[i].quantity + qty)
      && (forall i :: 0 <= i < |cart| && cart[i].product.id != product.id ==> r[i] == cart[i])
    ensures !HasId(cart, product.id) ==> r == cart + [Line(product, qty)]
    ensures UniqueIds(cart) ==> UniqueIds(r)
    ensures HasId(r, product.id)
  {
    if HasId(cart, product.id) then Bump(cart, product.id, qty)
    else
      assert (cart + [Line(product, qty)])[|cart|].product.id == product.id;
      cart + [Line(product, qty)]
  }

  /** Sets the quantity of every line with id `id` to `qty`. */
  function SetQuantity(cart: seq<Line>, id: string, qty: int): (r: seq<Line>)
    ensures |r| == |cart|
    ensures forall i :: 0 <= i < |cart| ==> r[i].product == cart[i].product
    ensures forall i :: 0 <= i < |cart| && cart[i].product.id == id ==> r[i].quantity == qty
    ensures forall i :: 0 <= i < |cart| && cart[i].product.id != id ==> r[i] == cart[i]
  {
    if cart == [] then []
    else
      var head := if cart[0].product.id == id then cart[0].(quantity := qty) else cart[0];
      [head] + SetQuantity(cart[1..], id, qty)
  }

  /** `removeFromCart(id)`: drops every line with that id. */
  function RemoveFromCart(cart: seq<Line>, id: string): (r: seq<Line>)
    ensures !HasId(r, id)
    ensures forall l :: l in r ==> l in cart
    ensures forall l :: l in cart && l.product.id != id ==> l in r
    ensures |r| == |cart| - CountId(cart, id)
    ensures UniqueIds(cart) ==> UniqueIds(r)
  {
    if cart == [] then []
    else
      var rest := RemoveFromCart(cart[1..], id);
      assert forall l :: l in cart[1..] ==> l in cart;
      if cart[0].product.id == id then rest
      else
        assert UniqueIds(cart) ==> UniqueIds([cart[0]] + rest) by {
          if UniqueIds(cart) {
            forall l | l in rest ensures l.product.id != cart[0].product.id {
              var i :| 0 <= i < |cart[1..]| && cart[1..][i] == l;
              assert cart[i + 1] == l;
            }
            UniqueCons(cart[0], rest);
          }
        }
        [cart[0]] + rest
  }

  /** A line whose id no other line carries keeps the ids unique. */
  lemma UniqueCons(x: Line, rest: seq<Line>)
    requires UniqueIds(rest)
    requires forall l :: l in rest ==> l.product.id != x.product.id
    ensures UniqueIds([x] + rest)
  {
    var r := [x] + rest;
    forall i, j | 0 <= i < j < |r| ensures r[i].product.id != r[j].product.id {
      assert r[j] == rest[j - 1];
      if i > 0 { assert r[i] == rest[i - 1]; }
    }
  }

  /** `updateQuantity(id, qty)`: a quantity of zero or less removes the
      line; a positive one replaces (does not add to) the line's quantity. */
  function UpdateQuantity(cart: seq<Line>, id: string, qty: int): (r: seq<Line>)
    ensures qty <= 0 ==> !HasId(r, id) && |r| == |cart| - CountId(cart, id)
    ensures qty > 0 ==>
      && |r| == |cart|
      && (forall i :: 0 <= i < |cart| ==> r[i].product == cart[i].product)
      && (forall i :: 0 <= i < |cart| && cart[i].product.id == id ==> r[i].quantity == qty)
      && (forall i :: 0 <= i < |cart| && cart[i].product.id != id ==> r[i] == cart[i])
    ensures UniqueIds(cart) ==> UniqueIds(r)
  {
    if qty <= 0 then RemoveFromCart(cart, id) else SetQuantity(cart, id, qty)
  }

  /** `clearCart()`. */
  function ClearCart(): (r: seq<Line>)
    ensures |r| == 0
  {
    []
  }

  // --------------------------------------------------------------- queries

  /** `getItemQuantity(id)`: the quantity of the first line with that id,
      or 0 when there is none. */
  function ItemQuantity(cart: seq<Line>, id: string): (q: int)
    ensures !HasId(cart, id) ==> q == 0
    ensures forall i :: 0 <= i < |cart| && cart[i].product.id == id && !HasId(cart[..i], id) ==> q == cart[i].quantity
  {
    if cart == [] then 0
    else if cart[0].product.id == id then
      assert forall i :: 0 < i < |cart| ==> HasId(cart[..i], id) by {
        forall i | 0 < i < |cart| ensures HasId(cart[..i], id) { assert cart[..i][0] == cart[0]; }
      }
      cart[0].quantity
    else
      var q := ItemQuantity(cart[1..], id);
      assert forall i :: 0 < i < |cart| && HasId(cart[1..][..i - 1], id) ==> HasId(cart[..i], id) by {
        forall i | 0 < i < |cart| && HasId(cart[1..][..i - 1], id) ensures HasId(cart[..i], id) {
          var k :| 0 <= k < i - 1 && cart[1..][..i - 1][k].product.id == id;
          assert cart[..i][k + 1] == cart[1..][..i - 1][k];
        }
      }
      assert forall i :: 0 < i < |cart| ==> cart[i] == cart[1..][i - 1];
      q
  }

  /** No line holds a negative quantity. */
  predicate NonNegative(cart: seq<Line>) {
    forall i :: 0 <= i < |cart| ==> cart[i].quantity >= 0
  }

  /** `getTotalItems()`: the sum of the line quantities, so with no
      negative quantity it bounds every line's quantity. */
  function TotalItems(cart: seq<Line>): (n: int)
    ensures cart == [] ==> n == 0
    ensures NonNegative(cart) ==> n >= 0 && forall i :: 0 <= i < |cart| ==> cart[i].quantity <= n
  {
    if cart == [] then 0
    else
      var tail := cart[1..];
      assert forall i :: 0 < i < |cart| ==> cart[i] == tail[i - 1];
      cart[0].quantity + TotalItems(tail)
  }

  /** `getTotalPrice()`: the sum of price × quantity over the lines; with
      no negative price or quantity it is never negative. */
  function TotalPrice(cart: seq<Line>): (t: int)
    ensures cart == [] ==> t == 0
    ensures NonNegative(cart) && (forall i :: 0 <= i < |cart| ==> cart[i].product.price >= 0) ==> t >= 0
  {
    if cart == [] then 0
    else
      var tail := cart[1..];
      assert forall i :: 0 < i < |cart| ==> cart[i] == tail[i - 1];
      cart[0].product.price * cart[0].quantity + TotalPrice(tail)
  }

  /** `getSubtotal()`: the same figure as `getTotalPrice()`. */
  function Subtotal(cart: seq<Line>): (s: int)
    ensures s == TotalPrice(cart)
  {
    TotalPrice(cart)
  }

  /** `getTax()`: 8% of the total price. */
  function Tax(cart: seq<Line>): (t: real)
    ensures t * 25.0 == 2.0 * (TotalPrice(cart) as real)
  {
    (TotalPrice(cart) as real) * TaxRate
  }

  /** `getShipping()`: free strictly above 500, else a flat 50. */
  function Shipping(cart: seq<Line>): (s: int)
    ensures s == 0 <==> TotalPrice(cart) > FreeShippingAbove
    ensures s == 0 || s == FlatShipping
  {
    if TotalPrice(cart) > FreeShippingAbove then 0 else FlatShipping
  }

  /** `getGrandTotal()`: subtotal plus tax plus shipping. */
  function GrandTotal(cart: seq<Line>): (g: real)
    ensures g == (TotalPrice(cart) as real) * 1.08 + (if TotalPrice(cart) > 500 then 0.0 else 50.0)
  {
    (Subtotal(cart) as real) + Tax(cart) + (Shipping(cart) as real)
  }

  // ---------------------------------------------------------------- lemmas

  lemma {:induction false} TotalItemsAppend(a: seq<Line>, b: seq<Line>)
    ensures TotalItems(a + b) == TotalItems(a) + TotalItems(b)
  {
    if a != [] {
      assert (a + b)[0] == a[0];
      assert (a + b)[1..] == a[1..] + b;
      TotalItemsAppend(a[1..], b);
    } else {
      assert a + b == b;
    }
  }

  lemma {:induction false} TotalPriceAppend(a: seq<Line>, b: seq<Line>)
    ensures TotalPrice(a + b) == TotalPrice(a) + TotalPrice(b)
  {
    if a != [] {
      assert (a + b)[0] == a[0];
      assert (a + b)[1..] == a[1..] + b;
      TotalPriceAppend(a[1..], b);
    } else {
      assert a + b == b;
    }
  }

  /** With one line per id, a line's quantity is what `getItemQuantity`
      reports for its id. */
  lemma ItemQuantityOfLine(cart: seq<Line>, i: int)
    requires UniqueIds(cart) && 0 <= i < |cart|
    ensures ItemQuantity(cart, cart[i].product.id) == cart[i].quantity
  {
    forall k | 0 <= k < i ensures cart[..i][k].product.id != cart[i].product.id {
      assert cart[..i][k] == cart[k];
    }
  }

  /** A line whose id differs from `id` has no effect on a bump of `id`:
      when `id` is absent, bumping changes nothing. */
  lemma {:induction false} BumpAbsent(cart: seq<Line>, id: string, qty: int)
    requires !HasId(cart, id)
    ensures Bump(cart, id, qty) == cart
  {
    if cart != [] {
      forall k | 0 <= k < |cart[1..]| ensures cart[1..][k].product.id != id {
        assert cart[1..][k] == cart[k + 1];
      }
      BumpAbsent(cart[1..], id, qty);
      assert cart[0].product.id != id;
    }
  }

  lemma {:induction false} BumpTotals(cart: seq<Line>, i: int, qty: int)
    requires UniqueIds(cart) && 0 <= i < |cart|
    ensures TotalItems(Bump(cart, cart[i].product.id, qty)) == TotalItems(cart) + qty
    ensures TotalPrice(Bump(cart, cart[i].product.id, qty)) == TotalPrice(cart) + cart[i].product.price * qty
  {
    BumpItems(cart, i, qty);
    BumpPrice(cart, i, qty);
  }

  /** The item-count half of `BumpTotals`. */
  lemma {:induction false} BumpItems(cart: seq<Line>, i: int, qty: int)
    requires UniqueIds(cart) && 0 <= i < |cart|
    ensures TotalItems(Bump(cart, cart[i].product.id, qty)) == TotalItems(cart) + qty
  {
    var id := cart[i].product.id;
    var r := Bump(cart, id, qty);
    assert r[1..] == Bump(cart[1..], id, qty);
    if i == 0 {
      forall k | 0 <= k < |cart[1..]| ensures cart[1..][k].product.id != id {
        assert cart[1..][k] == cart[k + 1];
      }
      BumpAbsent(cart[1..], id, qty);
    } else {
      assert cart[1..][i - 1] == cart[i];
      BumpItems(cart[1..], i - 1, qty);
    }
  }

  /** The price half of `BumpTotals`. */
  lemma {:induction false} BumpPrice(cart: seq<Line>, i: int, qty: int)
    requires UniqueIds(cart) && 0 <= i < |cart|
    ensures TotalPrice(Bump(cart, cart[i].product.id, qty)) == TotalPrice(cart) + cart[i].product.price * qty
  {
    var id := cart[i].product.id;
    var r := Bump(cart, id, qty);
    assert r[1..] == Bump(cart[1..], id, qty);
    if i == 0 {
      forall k | 0 <= k < |cart[1..]| ensures cart[1..][k].product.id != id {
        assert cart[1..][k] == cart[k + 1];
      }
      BumpAbsent(cart[1..], id, qty);
      BumpHeadPrice(cart, r, qty);
    } else {
      assert cart[1..][i - 1] == cart[i];
      BumpPrice(cart[1..], i - 1, qty);
    }
  }

  /** Raising the first line's quantity by `qty`, tail unchanged, raises
      the total by `qty` times that line's price. */
  lemma BumpHeadPrice(cart: seq<Line>, r: seq<Line>, qty: int)
    requires cart != [] && |r| == |cart| && r[1..] == cart[1..]
    requires r[0] == cart[0].(quantity := cart[0].quantity + qty)
    ensures TotalPrice(r) == TotalPrice(cart) + cart[0].product.price * qty
  {
    var p := cart[0].product.price;
    assert p * (cart[0].quantity + qty) == p * cart[0].quantity + p * qty;
  }


  /** Adding a product already in the cart raises the item count by `qty`
      and the total price by `qty` times the price stored in the existing
      line (the price snapshot, not the price of the product passed in). */
  lemma AddExistingTotals(cart: seq<Line>, product: Product, qty: int, i: int)
    requires UniqueIds(cart) && 0 <= i < |cart| && cart[i].product.id == product.id
    ensures ItemQuantity(AddToCart(cart, product, qty), product.id) == cart[i].quantity + qty
    ensures TotalItems(AddToCart(cart, product, qty)) == TotalItems(cart) + qty
    ensures TotalPrice(AddToCart(cart, product, qty)) == TotalPrice(cart) + cart[i].product.price * qty
    ensures |AddToCart(cart, product, qty)| == |cart|
  {
    var r := AddToCart(cart, product, qty);
    BumpTotals(cart, i, qty);
    ItemQuantityOfLine(r, i);
  }

  /** Adding a product not yet in the cart appends one line holding the
      full product and `qty`. */
  lemma AddNewTotals(cart: seq<Line>, product: Product, qty: int)
    requires !HasId(cart, product.id)
    ensures ItemQuantity(AddToCart(cart, product, qty), product.id) == qty
    ensures TotalItems(AddToCart(cart, product, qty)) == TotalItems(cart) + qty
    ensures TotalPrice(AddToCart(cart, product, qty)) == TotalPrice(cart) + product.price * qty
    ensures |AddToCart(cart, product, qty)| == |cart| + 1
  {
    var line := Line(product, qty);
    var r := cart + [line];
    TotalItemsAppend(cart, [line]);
    TotalPriceAppend(cart, [line]);
    assert TotalItems([line]) == qty;
    assert TotalPrice([line]) == product.price * qty;
    assert r[..|cart|] == cart;
    assert r[|cart|] == line;
    ItemQuantityAfterFresh(r, |cart|);
  }

  lemma ItemQuantityAfterFresh(cart: seq<Line>, i: int)
    requires 0 <= i < |cart| && !HasId(cart[..i], cart[i].product.id)
    ensures ItemQuantity(cart, cart[i].product.id) == cart[i].quantity
  {
  }

  /** A quantity of zero or below is exactly a removal. */
  lemma UpdateNonPositiveIsRemove(cart: seq<Line>, id: string, qty: int)
    requires qty <= 0
    ensures UpdateQuantity(cart, id, qty) == RemoveFromCart(cart, id)
  {
  }

  /** A positive quantity is set, not added: `getItemQuantity` reads it
      back; an id not in the cart leaves the cart as it is. */
  lemma UpdatePositiveSets(cart: seq<Line>, id: string, qty: int)
    requires qty > 0
    ensures HasId(cart, id) ==> ItemQuantity(UpdateQuantity(cart, id, qty), id) == qty
    ensures !HasId(cart, id) ==> UpdateQuantity(cart, id, qty) == cart
  {
    var r := UpdateQuantity(cart, id, qty);
    if HasId(cart, id) {
      var i :| 0 <= i < |cart| && cart[i].product.id == id;
      FirstWithId(cart, id, i);
      var k :| 0 <= k < |cart| && cart[k].product.id == id && !HasId(cart[..k], id);
      assert r[k].product.id == id;
      forall m | 0 <= m < k ensures r[..k][m].product.id != id {
        assert r[..k][m] == r[m];
        assert cart[..k][m] == cart[m];
      }
    } else {
      assert forall i :: 0 <= i < |cart| ==> r[i] == cart[i];
    }
  }

  /** Some line carrying `id` has no earlier line carrying it. */
  lemma {:induction false} FirstWithId(cart: seq<Line>, id: string, i: int)
    requires 0 <= i < |cart| && cart[i].product.id == id
    ensures exists k :: 0 <= k < |cart| && cart[k].product.id == id && !HasId(cart[..k], id)
    decreases i
  {
    if HasId(cart[..i], id) {
      var m :| 0 <= m < i && cart[..i][m].product.id == id;
      assert cart[m] == cart[..i][m];
      FirstWithId(cart, id, m);
    } else {
      assert cart[i].product.id == id && !HasId(cart[..i], id);
    }
  }

  /** Removing a line drops its quantity from the item count. */
  lemma {:induction false} RemoveTotals(cart: seq<Line>, id: string)
    requires UniqueIds(cart)
    ensures TotalItems(RemoveFromCart(cart, id)) == TotalItems(cart) - ItemQuantity(cart, id)
  {
    if cart != [] {
      RemoveTotals(cart[1..], id);
      if cart[0].product.id == id {
        forall k | 0 <= k < |cart[1..]| ensures cart[1..][k].product.id != id {
          assert cart[1..][k] == cart[k + 1];
        }
      }
    }
  }

  /** Removal keeps the surviving lines in their order: it distributes over
      concatenation and leaves a cart without the id unchanged. */
  lemma {:induction false} RemoveAppend(a: seq<Line>, b: seq<Line>, id: string)
    ensures RemoveFromCart(a + b, id) == RemoveFromCart(a, id) + RemoveFromCart(b, id)
  {
    if a == [] {
      assert a + b == b;
    } else {
      var x, t := a[0], a[1..];
      var h := if x.product.id == id then [] else [x];
      assert a == [x] + t;
      RemoveAppend(t, b, id);
      Assoc([x], t, b);
      RemoveCons(x, t + b, id);
      RemoveCons(x, t, id);
      Assoc(h, RemoveFromCart(t, id), RemoveFromCart(b, id));
    }
  }

  lemma Assoc(a: seq<Line>, b: seq<Line>, c: seq<Line>)
    ensures a + (b + c) == (a + b) + c
  {
  }

  /** Removing from a cart one line longer looks at that line alone. */
  lemma RemoveCons(x: Line, t: seq<Line>, id: string)
    ensures RemoveFromCart([x] + t, id) == (if x.product.id == id then [] else [x]) + RemoveFromCart(t, id)
  {
    var c := [x] + t;
    assert c[0] == x && c[1..] == t;
  }

  lemma {:induction false} RemoveAbsent(cart: seq<Line>, id: string)
    requires !HasId(cart, id)
    ensures RemoveFromCart(cart, id) == cart
  {
    if cart != [] {
      forall k | 0 <= k < |cart[1..]| ensures cart[1..][k].product.id != id {
        assert cart[1..][k] == cart[k + 1];
      }
      RemoveAbsent(cart[1..], id);
    }
  }

  /** The shipping threshold is strict: a total of exactly 500 still pays
      shipping. */
  lemma ShippingThreshold(cart: seq<Line>)
    ensures TotalPrice(cart) == 500 ==> Shipping(cart) == 50 && GrandTotal(cart) == 590.0
    ensures TotalPrice(cart) == 501 ==> Shipping(cart) == 0
  {
  }
}
