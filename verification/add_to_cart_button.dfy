/** The add-to-cart control on a product: an "Add to Cart" button while
    the product is not in the cart, otherwise a minus / quantity / plus
    stepper whose buttons call the cart store. */
module AddToCartButton {
  import opened Wrappers
  import opened Catalog
  import Cart

  datatype View =
    | AddButton(disabled: bool, caption: string)
    | Stepper(quantity: int, plusDisabled: bool)

  const OutOfStock: string := "Out of Stock"
  const AddLabel: string := "Add to Cart"

  /** `quantity >= product.quantityAvailable`: a missing stock figure
      compares as false, so the plus button is then never disabled. */
  predicate PlusDisabled(quantity: int, available: Option<int>) {
    available.Some? && quantity >= available.value
  }

  /** What the control shows for the product, given the cart. */
  function Render(cart: seq<Cart.Line>, product: Product): (v: View)
    ensures v.AddButton? <==> Cart.ItemQuantity(cart, product.id) == 0
    ensures v.AddButton? ==>
      && (v.disabled <==> product.quantityAvailable == Some(0))
      && v.caption == (if v.disabled then OutOfStock else AddLabel)
    ensures v.Stepper? ==>
      && v.quantity == Cart.ItemQuantity(cart, product.id)
      && (v.plusDisabled <==> product.quantityAvailable.Some? && v.quantity >= product.quantityAvailable.value)
  {
    var q := Cart.ItemQuantity(cart, product.id);
    if q == 0 then
      var out := product.quantityAvailable == Some(0);
      AddButton(out, if out then OutOfStock else AddLabel)
    else Stepper(q, PlusDisabled(q, product.quantityAvailable))
  }

  /** The add button: `addToCart(product, 1)`. */
  function OnAdd(cart: seq<Cart.Line>, product: Product): (r: seq<Cart.Line>)
    ensures Cart.HasId(r, product.id)
    ensures Cart.UniqueIds(cart) ==> Cart.UniqueIds(r)
  {
    Cart.AddToCart(cart, product, 1)
  }

  /** The minus button: `updateQuantity(id, quantity - 1)`. */
  function OnMinus(cart: seq<Cart.Line>, product: Product): (r: seq<Cart.Line>)
    ensures Cart.ItemQuantity(cart, product.id) <= 1 ==> !Cart.HasId(r, product.id)
    ensures Cart.UniqueIds(cart) ==> Cart.UniqueIds(r)
  {
    Cart.UpdateQuantity(cart, product.id, Cart.ItemQuantity(cart, product.id) - 1)
  }

  /** The plus button: `updateQuantity(id, quantity + 1)`. */
  function OnPlus(cart: seq<Cart.Line>, product: Product): (r: seq<Cart.Line>)
    ensures !Cart.HasId(cart, product.id) ==> r == cart
    ensures Cart.UniqueIds(cart) ==> Cart.UniqueIds(r)
  {
    Cart.UpdateQuantity(cart, product.id, Cart.ItemQuantity(cart, product.id) + 1)
  }

  /** Pressing "Add to Cart" puts exactly one unit in the cart and turns
      the button into the stepper. */
  lemma AddShowsOne(cart: seq<Cart.Line>, product: Product)
    requires Cart.UniqueIds(cart) && Render(cart, product).AddButton?
    ensures Cart.ItemQuantity(OnAdd(cart, product), product.id) == 1
    ensures Render(OnAdd(cart, product), product) == Stepper(1, PlusDisabled(1, product.quantityAvailable))
  {
    if Cart.HasId(cart, product.id) {
      var i :| 0 <= i < |cart| && cart[i].product.id == product.id;
      Cart.ItemQuantityOfLine(cart, i);
      Cart.AddExistingTotals(cart, product, 1, i);
    } else {
      Cart.AddNewTotals(cart, product, 1);
    }
  }

  /** Minus at quantity one takes the product out of the cart entirely,
      and the add button comes back. */
  lemma MinusAtOneRemoves(cart: seq<Cart.Line>, product: Product)
    requires Cart.ItemQuantity(cart, product.id) == 1
    ensures OnMinus(cart, product) == Cart.RemoveFromCart(cart, product.id)
    ensures Render(OnMinus(cart, product), product).AddButton?
  {
    var r := OnMinus(cart, product);
    assert !Cart.HasId(r, product.id);
  }

  /** Minus above one lowers the quantity by exactly one. */
  lemma MinusLowersByOne(cart: seq<Cart.Line>, product: Product)
    requires Cart.ItemQuantity(cart, product.id) > 1
    ensures Cart.ItemQuantity(OnMinus(cart, product), product.id) == Cart.ItemQuantity(cart, product.id) - 1
  {
    Cart.UpdatePositiveSets(cart, product.id, Cart.ItemQuantity(cart, product.id) - 1);
  }

  /** When plus can be pressed, one press never takes the quantity above
      the known stock: starting at or below stock, the stepper stays at or
      below it. */
  lemma PlusStaysWithinStock(cart: seq<Cart.Line>, product: Product)
    requires Render(cart, product).Stepper? && !Render(cart, product).plusDisabled
    requires Cart.ItemQuantity(cart, product.id) > 0
    requires product.quantityAvailable.Some?
    ensures Cart.ItemQuantity(OnPlus(cart, product), product.id) == Cart.ItemQuantity(cart, product.id) + 1
    ensures Cart.ItemQuantity(OnPlus(cart, product), product.id) <= product.quantityAvailable.value
  {
    Cart.UpdatePositiveSets(cart, product.id, Cart.ItemQuantity(cart, product.id) + 1);
  }

  /** Without a stock figure nothing stops the plus button. */
  lemma NoStockNoLimit(cart: seq<Cart.Line>, product: Product)
    requires product.quantityAvailable.None? && Cart.ItemQuantity(cart, product.id) != 0
    ensures Render(cart, product) == Stepper(Cart.ItemQuantity(cart, product.id), false)
  {
  }
}
