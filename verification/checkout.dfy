/** The full checkout page: the form validator and the submit handler,
    which checks the form, then the cart, then either moves to the card
    payment step or (cash on delivery) places the order, asks for the
    confirmation e-mail and clears the cart — in that order. */
module Checkout {
  import opened Wrappers
  import opened Text
  import opened Session
  import Cart
  import Orders
  import Email

  datatype Form = Form(
    firstName: string,
    lastName: string,
    email: string,
    phone: string,
    address: string,
    city: string,
    state: string,
    zipCode: string,
    country: string,
    paymentMethod: string,
    cardNumber: string,
    expiryDate: string,
    cvv: string,
    nameOnCard: string,
    orderNotes: string)

  /** The fields the validator may ask for. */
  datatype Field =
    | FirstName | LastName | Email | Phone | Address | City | ZipCode
    | CardNumber | ExpiryDate | Cvv | NameOnCard

  const Required: seq<Field> := [FirstName, LastName, Email, Phone, Address, City, ZipCode]
  const CardRequired: seq<Field> := [CardNumber, ExpiryDate, Cvv, NameOnCard]
  const Card: string := "card"

  const CartEmpty: string := "Your cart is empty"
  const PlaceFailed: string := "Failed to place order. Please try again."

  /** The form key of a field, as the source spells it. */
  function Key(f: Field): string {
    match f
    case FirstName => "firstName"
    case LastName => "lastName"
    case Email => "email"
    case Phone => "phone"
    case Address => "address"
    case City => "city"
    case ZipCode => "zipCode"
    case CardNumber => "cardNumber"
    case ExpiryDate => "expiryDate"
    case Cvv => "cvv"
    case NameOnCard => "nameOnCard"
  }

  function ValueOf(form: Form, f: Field): string {
    match f
    case FirstName => form.firstName
    case LastName => form.lastName
    case Email => form.email
    case Phone => form.phone
    case Address => form.address
    case City => form.city
    case ZipCode => form.zipCode
    case CardNumber => form.cardNumber
    case ExpiryDate => form.expiryDate
    case Cvv => form.cvv
    case NameOnCard => form.nameOnCard
  }

  predicate IsUpper(c: char) {
    'A' <= c <= 'Z'
  }

  /** `key.replace(/([A-Z])/g, ' $1').toLowerCase()`: a space before each
      capital, then everything in lower case. */
  function Label(key: string): (r: string)
    ensures forall i :: 0 <= i < |r| ==> !IsUpper(r[i])
    ensures (forall i :: 0 <= i < |key| ==> !IsUpper(key[i])) ==> r == key
  {
    if key == [] then []
    else
      var head := if IsUpper(key[0]) then [' ', LowerChar(key[0])] else [key[0]];
      var r := head + Label(key[1..]);
      assert forall i :: 0 <= i < |r| ==> (i < |head| && r[i] == head[i]) || (|head| <= i && r[i] == Label(key[1..])[i - |head|]);
      r
  }

  /** A key with one capital gets one space, before that letter. */
  lemma {:induction false} LabelOneCapital(a: string, c: char, b: string)
    requires forall i :: 0 <= i < |a| ==> !IsUpper(a[i])
    requires forall i :: 0 <= i < |b| ==> !IsUpper(b[i])
    requires IsUpper(c)
    ensures Label(a + [c] + b) == a + [' ', LowerChar(c)] + b
  {
    if a == [] {
      assert [] + [c] + b == [c] + b;
      assert ([c] + b)[1..] == b;
    } else {
      assert (a + [c] + b)[0] == a[0];
      assert (a + [c] + b)[1..] == a[1..] + [c] + b;
      LabelOneCapital(a[1..], c, b);
      assert a + [' ', LowerChar(c)] + b == [a[0]] + (a[1..] + [' ', LowerChar(c)] + b);
    }
  }

  lemma LabelFirstName()
    ensures Label("firstName") == "first name"
  {
    var a, b := "first", "ame";
    assert forall i :: 0 <= i < |a| ==> 'a' <= a[i] <= 'z';
    assert forall i :: 0 <= i < |b| ==> 'a' <= b[i] <= 'z';
    LabelOneCapital(a, 'N', b);
    assert a + ['N'] + b == "firstName";
    assert a + [' ', LowerChar('N')] + b == "first name";
  }

  lemma LabelZipCode()
    ensures Label("zipCode") == "zip code"
  {
    var a, b := "zip", "ode";
    assert forall i :: 0 <= i < |a| ==> 'a' <= a[i] <= 'z';
    assert forall i :: 0 <= i < |b| ==> 'a' <= b[i] <= 'z';
    LabelOneCapital(a, 'C', b);
    assert a + ['C'] + b == "zipCode";
    assert a + [' ', LowerChar('C')] + b == "zip code";
  }

  function Missing(f: Field): string {
    "Please fill in " + Label(Key(f))
  }

  /** `fields[k]` is blank and no field before it is. */
  predicate LeastBlank(form: Form, fields: seq<Field>, k: int) {
    && 0 <= k < |fields|
    && IsBlank(ValueOf(form, fields[k]))
    && forall j :: 0 <= j < k ==> !IsBlank(ValueOf(form, fields[j]))
  }

  /** The first field of `fields` whose trimmed value is empty. */
  function FirstBlank(form: Form, fields: seq<Field>): (r: Option<Field>)
    ensures r.None? <==> forall i :: 0 <= i < |fields| ==> !IsBlank(ValueOf(form, fields[i]))
    ensures r.Some? ==> exists k :: LeastBlank(form, fields, k) && fields[k] == r.value
  {
    if fields == [] then None
    else if Trim(ValueOf(form, fields[0])) == [] then Some(fields[0])
    else
      var r := FirstBlank(form, fields[1..]);
      var tail := fields[1..];
      assert forall i :: 0 < i < |fields| ==> fields[i] == tail[i - 1];
      assert r.Some? ==> exists k :: LeastBlank(form, fields, k) && fields[k] == r.value by {
        if r.Some? {
          var k :| LeastBlank(form, tail, k) && tail[k] == r.value;
          LeastBlankShift(form, fields, k);
        }
      }
      r
  }

  /** A least blank index of the tail, behind a filled head, is one
      further on in the whole list. */
  lemma LeastBlankShift(form: Form, fields: seq<Field>, k: int)
    requires fields != [] && !IsBlank(ValueOf(form, fields[0]))
    requires LeastBlank(form, fields[1..], k)
    ensures LeastBlank(form, fields, k + 1) && fields[k + 1] == fields[1..][k]
  {
  }

  /** `validateForm()`: `None` when the form may be submitted, otherwise
      the message naming the first blank field — the shipping fields in
      their fixed order, then, for card payment only, the card fields. */
  function ValidateForm(form: Form): (r: Option<string>)
    ensures r.None? <==>
      && (forall i :: 0 <= i < |Required| ==> !IsBlank(ValueOf(form, Required[i])))
      && (form.paymentMethod == Card ==> forall i :: 0 <= i < |CardRequired| ==> !IsBlank(ValueOf(form, CardRequired[i])))
    ensures r.Some? ==>
      || (exists k :: LeastBlank(form, Required, k) && r.value == Missing(Required[k]))
      || (&& (forall i :: 0 <= i < |Required| ==> !IsBlank(ValueOf(form, Required[i])))
          && form.paymentMethod == Card
          && exists k :: LeastBlank(form, CardRequired, k) && r.value == Missing(CardRequired[k]))
  {
    match FirstBlank(form, Required)
    case Some(f) => Some(Missing(f))
    case None =>
      if form.paymentMethod == Card then
        match FirstBlank(form, CardRequired)
        case Some(f) => Some(Missing(f))
        case None => None
      else None
  }

  /** A blank first name is the first complaint, whatever else is blank
      ("Please fill in first name", by `LabelFirstName`). */
  lemma BlankFirstNameFirst(form: Form)
    requires IsBlank(form.firstName)
    ensures ValidateForm(form) == Some(Missing(FirstName))
  {
    var r := ValidateForm(form);
    assert Required[0] == FirstName && IsBlank(ValueOf(form, Required[0]));
    assert r.Some?;
    var k :| LeastBlank(form, Required, k) && r.value == Missing(Required[k]);
    assert k == 0;
  }

  /** The two forms agree on every field the validator may read. */
  predicate SameChecked(a: Form, b: Form) {
    && a.firstName == b.firstName && a.lastName == b.lastName && a.email == b.email
    && a.phone == b.phone && a.address == b.address && a.city == b.city && a.zipCode == b.zipCode
    && a.cardNumber == b.cardNumber && a.expiryDate == b.expiryDate && a.cvv == b.cvv
    && a.nameOnCard == b.nameOnCard && a.paymentMethod == b.paymentMethod
  }

  /** Only the checked fields and the payment method matter: the state,
      the country and the notes are never required. */
  lemma NeverRequired(a: Form, b: Form)
    requires SameChecked(a, b)
    ensures ValidateForm(a) == ValidateForm(b)
  {
    SameValues(a, b, Required);
    SameValues(a, b, CardRequired);
  }

  lemma SameValues(a: Form, b: Form, fields: seq<Field>)
    requires SameChecked(a, b)
    ensures FirstBlank(a, fields) == FirstBlank(b, fields)
  {
    forall i | 0 <= i < |fields| ensures ValueOf(a, fields[i]) == ValueOf(b, fields[i]) {
      match fields[i]
      case _ =>
    }
    FirstBlankSameValues(a, b, fields);
  }

  /** The card fields are not looked at unless paying by card. */
  lemma CardFieldsOnlyForCard(form: Form, cardNumber: string, expiryDate: string, cvv: string, nameOnCard: string)
    requires form.paymentMethod != Card
    ensures ValidateForm(form) == ValidateForm(form.(cardNumber := cardNumber, expiryDate := expiryDate, cvv := cvv, nameOnCard := nameOnCard))
  {
    var h := form.(cardNumber := cardNumber, expiryDate := expiryDate, cvv := cvv, nameOnCard := nameOnCard);
    forall i | 0 <= i < |Required| ensures ValueOf(form, Required[i]) == ValueOf(h, Required[i]) {
    }
    FirstBlankSameValues(form, h, Required);
  }

  lemma {:induction false} FirstBlankSameValues(a: Form, b: Form, fields: seq<Field>)
    requires forall i :: 0 <= i < |fields| ==> ValueOf(a, fields[i]) == ValueOf(b, fields[i])
    ensures FirstBlank(a, fields) == FirstBlank(b, fields)
  {
    if fields != [] {
      assert forall i :: 0 <= i < |fields[1..]| ==> fields[1..][i] == fields[i + 1];
      FirstBlankSameValues(a, b, fields[1..]);
    }
  }

  // --------------------------------------------------------------- submit

  const OrderDataKeys: set<string> := {"items", "shippingInfo", "payment", "subtotal", "tax", "shippingCost",
                                        "total", "orderNotes", "status", "paymentStatus"}

  /** The order the form describes, with the cart getters' amounts. */
  function OrderData(form: Form, cart: seq<Cart.Line>): (d: Orders.Doc)
    ensures Orders.HasStatus(d, Orders.Processing)
    ensures Orders.FieldIs(d, "paymentStatus", Orders.Str("pending"))
    ensures Orders.TotalOf(d) == Cart.GrandTotal(cart)
    ensures Orders.FieldIs(d, "subtotal", Orders.Num(Cart.Subtotal(cart) as real))
    ensures Orders.FieldIs(d, "tax", Orders.Num(Cart.Tax(cart)))
    ensures Orders.FieldIs(d, "shippingCost", Orders.Num(Cart.Shipping(cart) as real))
    ensures Orders.FieldIs(d, "items", Orders.Items(cart))
    ensures "shippingInfo" in d && d["shippingInfo"].Fields?
      && "firstName" in d["shippingInfo"].fields && d["shippingInfo"].fields["firstName"] == form.firstName
    ensures d.Keys == OrderDataKeys
  {
    var shippingInfo := map[
      "firstName" := form.firstName, "lastName" := form.lastName,
      "name" := form.firstName + " " + form.lastName,
      "email" := form.email, "phone" := form.phone, "address" := form.address,
      "city" := form.city, "state" := form.state, "zipCode" := form.zipCode,
      "country" := form.country];
    map[
      "items" := Orders.Items(cart),
      "shippingInfo" := Orders.Fields(shippingInfo),
      "payment" := Orders.Fields(map["method" := form.paymentMethod]),
      "subtotal" := Orders.Num(Cart.Subtotal(cart) as real),
      "tax" := Orders.Num(Cart.Tax(cart)),
      "shippingCost" := Orders.Num(Cart.Shipping(cart) as real),
      "total" := Orders.Num(Cart.GrandTotal(cart)),
      "orderNotes" := Orders.Str(form.orderNotes),
      "status" := Orders.Str(Orders.Processing),
      "paymentStatus" := Orders.Str("pending")]
  }

  /** What the submit handler did, in order. The e-mail entry records the
      attempt with the corrected mailer (`SubmitMailAsWritten` relates it
      to the mailer as written); its outcome never changes what follows. */
  datatype Effect =
    | OrderCreated(order: Orders.Doc)
    | ConfirmationEmail(outcome: Email.Outcome<Email.ConfirmationEmail>)
    | CartCleared

  datatype Submission = Submission(
    error: Option<string>,
    paymentStep: bool,
    cart: seq<Cart.Line>,
    orders: Orders.OrderState,
    effects: seq<Effect>)

  /** The order store after a `createOrder` call, failed or not. */
  function OrdersAfter(st: Orders.OrderState, user: Option<User>, data: Orders.Doc, stamp: string,
                       write: Result<string>, now: string): (s: Orders.OrderState)
    ensures user.None? ==> s == st
    ensures user.Some? && write.Err? ==> s == st.(error := Some(write.message))
    ensures Orders.CreateOrder(st, user, data, stamp, write, now).Ok? ==>
      s == Orders.CreateOrder(st, user, data, stamp, write, now).value.0
  {
    match Orders.CreateOrder(st, user, data, stamp, write, now)
    case Ok((s, _)) => s
    case Err(e) => if user.Some? then st.(error := Some(e)) else st
  }

  /** `handleSubmit()`. The outcome of the e-mail is not an input: its
      failure is caught and ignored, so it cannot change what follows. */
  function Submit(form: Form, cart: seq<Cart.Line>, st: Orders.OrderState, user: Option<User>,
                  stamp: string, write: Result<string>, now: string): (r: Submission)
    ensures ValidateForm(form).Some? ==>
      r == Submission(ValidateForm(form), false, cart, st, [])
    ensures ValidateForm(form).None? && cart == [] ==>
      r == Submission(Some(CartEmpty), false, cart, st, [])
    ensures ValidateForm(form).None? && cart != [] && form.paymentMethod == Card ==>
      r == Submission(None, true, cart, st, [])
    ensures r.effects != [] ==>
      var placed := Orders.CreateOrder(st, user, OrderData(form, cart), stamp, write, now);
      && ValidateForm(form).None? && cart != [] && form.paymentMethod != Card
      && placed.Ok?
      && r.effects == [OrderCreated(placed.value.1), ConfirmationEmail(Email.Confirmation(placed.value.1)), CartCleared]
      && r.cart == [] && r.error.None? && r.orders == placed.value.0
    ensures ValidateForm(form).None? && cart != [] && form.paymentMethod != Card ==>
      (r.effects != [] <==> Orders.CreateOrder(st, user, OrderData(form, cart), stamp, write, now).Ok?)
    ensures r.effects == [] ==> r.cart == cart
    ensures ValidateForm(form).None? && cart != [] && form.paymentMethod != Card
            && Orders.CreateOrder(st, user, OrderData(form, cart), stamp, write, now).Err? ==>
      r.error == Some(PlaceFailed) && !r.paymentStep
  {
    match ValidateForm(form)
    case Some(m) => Submission(Some(m), false, cart, st, [])
    case None =>
      if cart == [] then Submission(Some(CartEmpty), false, cart, st, [])
      else if form.paymentMethod == Card then Submission(None, true, cart, st, [])
      else
        var data := OrderData(form, cart);
        match Orders.CreateOrder(st, user, data, stamp, write, now)
        case Err(_) => Submission(Some(PlaceFailed), false, cart, OrdersAfter(st, user, data, stamp, write, now), [])
        case Ok((st', order)) =>
          Submission(None, false, Cart.ClearCart(), st', [OrderCreated(order), ConfirmationEmail(Email.Confirmation(order)), CartCleared])
  }

  /** A cash-on-delivery order carries the grand total the cart showed,
      so it counts towards revenue at that amount, and it is stored as
      processing with payment pending. */
  lemma PlacedOrderTotal(form: Form, cart: seq<Cart.Line>, u: User, stamp: string, id: string, now: string)
    ensures var o := Orders.Placed(OrderData(form, cart), u, stamp, id, now);
      && Orders.TotalOf(o) == Cart.GrandTotal(cart)
      && Orders.TotalOf(o["updatedAt" := Orders.Str(now)]) == Cart.GrandTotal(cart)
      && Orders.HasStatus(o, Orders.Processing)
      && Orders.FieldIs(o, "paymentStatus", Orders.Str("pending"))
  {
    Orders.PlacedKeepsTotal(OrderData(form, cart), u, stamp, id, now);
    Orders.PlacedKeeps(OrderData(form, cart), u, stamp, id, now, "paymentStatus");
  }

  /** As written, the confirmation mail of every cash-on-delivery order
      throws: the order keeps its address under `shippingInfo`, while the
      mailer dereferences `shipping.firstName`. The handler swallows the
      error, so the customer silently gets no confirmation. */
  lemma ConfirmationAsWrittenThrows(form: Form, cart: seq<Cart.Line>, u: User, stamp: string, id: string, now: string)
    ensures Email.ConfirmationAsWritten(Orders.Placed(OrderData(form, cart), u, stamp, id, now)).Threw?
  {
    assert "shipping" !in OrderDataKeys;
    Orders.PlacedLacks(OrderData(form, cart), u, stamp, id, now, "shipping");
  }

  /** The trace of `Submit` records the corrected mailer. As written, the
      confirmation of the very order it created throws instead; the catch
      around it carries on, so the cart is cleared all the same. */
  lemma SubmitMailAsWritten(form: Form, cart: seq<Cart.Line>, st: Orders.OrderState, user: Option<User>,
                            stamp: string, write: Result<string>, now: string)
    ensures var r := Submit(form, cart, st, user, stamp, write, now);
      r.effects != [] ==>
        && |r.effects| == 3 && r.effects[0].OrderCreated?
        && Email.ConfirmationAsWritten(r.effects[0].order).Threw?
        && r.effects[2] == CartCleared && r.cart == []
  {
    var r := Submit(form, cart, st, user, stamp, write, now);
    if r.effects != [] {
      ConfirmationAsWrittenThrows(form, cart, user.value, stamp, write.value, now);
    }
  }

  /** The corrected mailer sends the confirmation to the signed-in user,
      greeting them by the first name typed into the form and listing every
      cart line. */
  lemma ConfirmationCorrectedSends(form: Form, cart: seq<Cart.Line>, u: User, stamp: string, id: string, now: string)
    ensures var e := Email.Confirmation(Orders.Placed(OrderData(form, cart), u, stamp, id, now));
      && e.Sent?
      && e.request.customerName == Some(form.firstName)
      && e.request.to == Some(Orders.Str(u.email))
      && |e.request.items| == |cart|
  {
    ConfirmationOfPlaced(OrderData(form, cart), form.firstName, cart, u, stamp, id, now);
  }

  /** Any order data holding the address under `shippingInfo` and the cart
      under `items` is confirmed by the corrected mailer once placed. */
  lemma ConfirmationOfPlaced(data: Orders.Doc, firstName: string, cart: seq<Cart.Line>,
                             u: User, stamp: string, id: string, now: string)
    requires "shippingInfo" in data && data["shippingInfo"].Fields?
    requires "firstName" in data["shippingInfo"].fields && data["shippingInfo"].fields["firstName"] == firstName
    requires Orders.FieldIs(data, "items", Orders.Items(cart))
    ensures var e := Email.Confirmation(Orders.Placed(data, u, stamp, id, now));
      && e.Sent?
      && e.request.customerName == Some(firstName)
      && e.request.to == Some(Orders.Str(u.email))
      && |e.request.items| == |cart|
  {
    Orders.PlacedKeeps(data, u, stamp, id, now, "shippingInfo");
    Orders.PlacedKeeps(data, u, stamp, id, now, "items");
  }

  /** The same key mismatch in the status mails: they never find a first
      name on an order placed here and always greet "Customer". */
  lemma StatusMailsSayCustomer(form: Form, cart: seq<Cart.Line>, u: User, stamp: string, id: string, now: string)
    ensures Email.CustomerName(Orders.Placed(OrderData(form, cart), u, stamp, id, now)) == Email.DefaultCustomer
  {
    assert "shipping" !in OrderDataKeys;
    Orders.PlacedLacks(OrderData(form, cart), u, stamp, id, now, "shipping");
  }
}

/** The short checkout page: five shipping fields, the cart total, and an
    order placed before the cart is cleared. */
module CheckoutPage {
  import opened Wrappers
  import opened Session
  import Cart
  import Orders

  datatype Shipping = Shipping(name: string, address: string, city: string, zip: string, phone: string)

  datatype PageResult = PageResult(
    error: Option<string>,
    success: Option<string>,
    cart: seq<Cart.Line>,
    orders: Orders.OrderState)

  const AllRequired: string := "All fields are required."
  const CartEmpty: string := "Your cart is empty."
  const Failed: string := "Something went wrong. Please try again."
  const Placed: string := "Order placed! Thank you for shopping Ramro \U{1F3D4}\U{FE0F}"

  /** `!shipping.name || …`: a field counts as missing only when it is the
      empty string; a field of spaces passes. */
  function AllFilled(s: Shipping): (b: bool)
    ensures !b <==> "" in [s.name, s.address, s.city, s.zip, s.phone]
  {
    s.name != "" && s.address != "" && s.city != "" && s.zip != "" && s.phone != ""
  }

  /** `cart.reduce((sum, item) => sum + item.price * item.quantity, 0)`. */
  function PageTotal(cart: seq<Cart.Line>): (t: int)
    ensures t == Cart.TotalPrice(cart)
  {
    if cart == [] then 0
    else
      var t := PageTotal(cart[..|cart| - 1]) + cart[|cart| - 1].product.price * cart[|cart| - 1].quantity;
      assert cart == cart[..|cart| - 1] + [cart[|cart| - 1]];
      Cart.TotalPriceAppend(cart[..|cart| - 1], [cart[|cart| - 1]]);
      t
  }

  /** The order this page sends: its address under `shipping` (never
      `shippingInfo`), the page total and the numeric `createdAt`. */
  function Request(s: Shipping, cart: seq<Cart.Line>, clock: real): (d: Orders.Doc)
    ensures d.Keys == {"items", "shipping", "total", "createdAt"}
    ensures "shippingInfo" !in d
    ensures Orders.TotalOf(d) == Cart.TotalPrice(cart) as real
  {
    map[
      "items" := Orders.Items(cart),
      "shipping" := Orders.Fields(map["name" := s.name, "address" := s.address, "city" := s.city,
                                      "zip" := s.zip, "phone" := s.phone]),
      "total" := Orders.Num(PageTotal(cart) as real),
      "createdAt" := Orders.Num(clock)]
  }

  /** `handleCheckout()`: `clock` is `Date.now()`. */
  function HandleCheckout(s: Shipping, cart: seq<Cart.Line>, st: Orders.OrderState, user: Option<User>,
                          clock: real, stamp: string, write: Result<string>, now: string): (r: PageResult)
    ensures !AllFilled(s) ==> r == PageResult(Some(AllRequired), None, cart, st)
    ensures AllFilled(s) && cart == [] ==> r == PageResult(Some(CartEmpty), None, cart, st)
    ensures r.cart != cart ==> r.cart == [] && Orders.CreateOrder(st, user, Request(s, cart, clock), stamp, write, now).Ok?
    ensures AllFilled(s) && cart != [] ==>
      (r.success == Some(Placed) <==> Orders.CreateOrder(st, user, Request(s, cart, clock), stamp, write, now).Ok?)
    ensures r.success.Some? ==> r.cart == [] && r.error.None?
    ensures r.success.None? ==> r.cart == cart && r.error.Some?
  {
    if !AllFilled(s) then PageResult(Some(AllRequired), None, cart, st)
    else if cart == [] then PageResult(Some(CartEmpty), None, cart, st)
    else
      match Orders.CreateOrder(st, user, Request(s, cart, clock), stamp, write, now)
      case Ok((st', _)) => PageResult(None, Some(Placed), Cart.ClearCart(), st')
      case Err(e) => PageResult(Some(Failed), None, cart, if user.Some? then st.(error := Some(e)) else st)
  }

  /** The page's own `createdAt` number never reaches the order:
      `createOrder` stamps it over with the write time. The total the page
      computed is kept. */
  lemma CreatedAtReplaced(s: Shipping, cart: seq<Cart.Line>, clock: real, u: User, stamp: string, id: string, now: string)
    ensures var o := Orders.Placed(Request(s, cart, clock), u, stamp, id, now);
      Orders.FieldIs(o, "createdAt", Orders.Str(now)) && Orders.TotalOf(o) == Cart.TotalPrice(cart) as real
  {
    Orders.PlacedKeepsTotal(Request(s, cart, clock), u, stamp, id, now);
  }
}
