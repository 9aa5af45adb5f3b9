/** The e-mail service's decisions: which template and subject a status
    change gets (and which status changes send nothing), the data filled
    into the message with its defaults, the early return of the low-stock
    alert, and the order confirmation. Delivery itself is an external call
    the model leaves out; a message is represented by the request that
    would be handed to it. */
module Email {
  import opened Wrappers
  import Orders
  import Inventory
  import Text
  import Cart

  const OrderConfirmation: string := "order_confirmation"
  const OrderShipped: string := "order_shipped"
  const OrderDelivered: string := "order_delivered"
  const OrderCancelled: string := "order_cancelled"
  const LowStockTemplate: string := "low_stock_alert"
  const AdminAddress: string := "admin@ramro.com"
  const DefaultCustomer: string := "Customer"
  const DefaultAlertThreshold: int := 5

  /** What a send attempt came to: returned early, handed a request to the
      mail function, or threw before getting there. */
  datatype Outcome<T> = NotSent | Sent(request: T) | Threw

  datatype ItemSummary = ItemSummary(name: string, quantity: int)

  datatype StatusEmail = StatusEmail(
    template: string,
    to: Option<Orders.Value>,
    subject: string,
    customerName: string,
    orderNumber: Option<Orders.Value>,
    status: string,
    trackingNumber: Option<Orders.Value>,
    estimatedDelivery: Option<Orders.Value>,
    items: seq<ItemSummary>)

  datatype ItemLine = ItemLine(name: string, quantity: int, price: int, total: int)

  datatype ConfirmationEmail = ConfirmationEmail(
    template: string,
    to: Option<Orders.Value>,
    customerName: Option<string>,
    orderNumber: Option<Orders.Value>,
    items: seq<ItemLine>,
    total: Option<Orders.Value>)

  datatype LowStockEmail = LowStockEmail(template: string, to: string, productName: string,
                                         currentStock: Option<int>, threshold: int)

  /** `orderData[key]`, or `undefined`. */
  function Field(o: Orders.Doc, key: string): Option<Orders.Value> {
    if key in o then Some(o[key]) else None
  }

  /** `${value}` for the values an order holds. Arrays of line objects and
      plain objects print as `[object Object]` pieces. */
  function Show(v: Option<Orders.Value>): string {
    match v
    case None => "undefined"
    case Some(Str(s)) => s
    case Some(Flag(b)) => if b then "true" else "false"
    case Some(Num(_)) => ""
    case Some(Fields(_)) => "[object Object]"
    case Some(Items(lines)) => JoinObjects(|lines|)
  }

  /** `n` objects joined with commas. */
  function JoinObjects(n: nat): string {
    if n == 0 then "" else if n == 1 then "[object Object]" else "[object Object]," + JoinObjects(n - 1)
  }

  // ---------------------------------------------------------- status mail

  /** The template for a status, or `None` for the statuses that send
      nothing. */
  function StatusTemplate(status: string): (t: Option<string>)
    ensures t.Some? <==> status in {"shipped", "delivered", "cancelled"}
    ensures status == "shipped" ==> t == Some(OrderShipped)
    ensures status == "delivered" ==> t == Some(OrderDelivered)
    ensures status == "cancelled" ==> t == Some(OrderCancelled)
  {
    if status == "shipped" then Some(OrderShipped)
    else if status == "delivered" then Some(OrderDelivered)
    else if status == "cancelled" then Some(OrderCancelled)
    else None
  }

  /** The subject line; every one of them names the order number. */
  function Subject(status: string, orderNumber: string): (s: string)
    requires StatusTemplate(status).Some?
    ensures Text.StartsWith(s, "Your order #" + orderNumber)
    ensures Text.Contains(s, orderNumber)
  {
    var s := if status == "shipped" then "Your order #" + orderNumber + " has been shipped!"
             else if status == "delivered" then "Your order #" + orderNumber + " has been delivered!"
             else "Your order #" + orderNumber + " has been cancelled";
    assert Text.OccursAt(s, orderNumber, 12);
    s
  }

  /** The three subjects for one order are pairwise different. */
  lemma SubjectsDiffer(orderNumber: string)
    ensures Subject("shipped", orderNumber) != Subject("delivered", orderNumber)
    ensures Subject("shipped", orderNumber) != Subject("cancelled", orderNumber)
    ensures Subject("delivered", orderNumber) != Subject("cancelled", orderNumber)
  {
    var k := 12 + |orderNumber| + 10;
    assert Subject("shipped", orderNumber)[k] == 's';
    assert Subject("delivered", orderNumber)[k] == 'd';
    assert Subject("cancelled", orderNumber)[k] == 'c';
  }

  /** The order has a `shipping` object whose `firstName` is non-empty. */
  predicate NamedShipping(o: Orders.Doc) {
    "shipping" in o && FirstNameOf(o["shipping"]).Some? && FirstNameOf(o["shipping"]).value != []
  }

  /** `orderData.shipping?.firstName || 'Customer'`. */
  function CustomerName(o: Orders.Doc): (n: string)
    ensures n != []
    ensures NamedShipping(o) ==> n == FirstNameOf(o["shipping"]).value
    ensures !NamedShipping(o) ==> n == DefaultCustomer
  {
    match Field(o, "shipping")
    case Some(Fields(m)) => if "firstName" in m && m["firstName"] != [] then m["firstName"] else DefaultCustomer
    case _ => DefaultCustomer
  }

  /** `orderData.items?.map(...) || []`: `None` where `.map` is not a
      function and the call throws. */
  function ItemSummaries(o: Orders.Doc): (r: Option<seq<ItemSummary>>)
    ensures "items" !in o ==> r == Some([])
    ensures r.Some? && "items" in o ==> o["items"].Items? && |r.value| == |o["items"].lines|
  {
    match Field(o, "items")
    case None => Some([])
    case Some(Items(lines)) =>
      Some(seq(|lines|, i requires 0 <= i < |lines| => ItemSummary(lines[i].product.name, lines[i].quantity)))
    case Some(_) => None
  }

  /** `sendOrderStatusUpdate(orderData, newStatus)`: nothing for a status
      without a template; otherwise the message for the order, which
      throws only when `items` is present but not a list. */
  function StatusUpdate(o: Orders.Doc, status: string): (r: Outcome<StatusEmail>)
    ensures r.NotSent? <==> StatusTemplate(status).None?
    ensures r.Sent? ==>
      && r.request.template == StatusTemplate(status).value
      && r.request.to == Field(o, "userEmail")
      && r.request.status == status
      && r.request.customerName == CustomerName(o)
      && r.request.orderNumber == Field(o, "orderNumber")
      && r.request.subject == Subject(status, Show(Field(o, "orderNumber")))
    ensures r.Threw? ==> "items" in o && !o["items"].Items?
  {
    match StatusTemplate(status)
    case None => NotSent
    case Some(template) =>
      match ItemSummaries(o)
      case None => Threw
      case Some(items) =>
        Sent(StatusEmail(template, Field(o, "userEmail"), Subject(status, Show(Field(o, "orderNumber"))),
                         CustomerName(o), Field(o, "orderNumber"), status,
                         Field(o, "trackingNumber"), Field(o, "estimatedDelivery"), items))
  }

  /** The store's notification after `updateOrderStatus`: the status
      argument, not the merged document's status, picks the template. */
  function Notify(change: Orders.StatusChange, status: string): (r: Outcome<StatusEmail>)
    ensures change.notify.None? ==> r.NotSent?
    ensures change.notify.Some? ==> r == StatusUpdate(change.notify.value, status)
  {
    match change.notify
    case None => NotSent
    case Some(o) => StatusUpdate(o, status)
  }

  /** Marking an order shipped mails the customer with the order number in
      the subject; moving it back to processing mails nobody. */
  lemma ShippedMailsProcessingDoesNot(st: Orders.OrderState, id: string, now: string)
    requires Orders.FindOrder(st, id).Some?
    requires var o := Orders.FindOrder(st, id).value; "items" !in o || o["items"].Items?
    ensures Notify(Orders.UpdateOrderStatus(st, id, "shipped", map[], None, now), "shipped").Sent?
    ensures Notify(Orders.UpdateOrderStatus(st, id, "processing", map[], None, now), "processing").NotSent?
  {
    var o := Orders.FindOrder(st, id).value;
    var merged := o + Orders.UpdateData("shipped", map[], now);
    assert "items" in merged ==> merged["items"] == o["items"];
  }

  // ------------------------------------------------------- low-stock mail

  /** `sendLowStockAlert(productData, threshold = 5)`: returns early when
      `inventory > threshold`; a missing `inventory` compares as false and
      so does not stop the alert. The `quantityAvailable` field is not the
      one consulted. */
  function LowStockAlert(data: Inventory.StockDoc, threshold: Option<int>): (r: Outcome<LowStockEmail>)
    ensures r.NotSent? <==> data.inventory.Some? && data.inventory.value > threshold.GetOr(DefaultAlertThreshold)
    ensures r.Sent? ==> r.request.to == AdminAddress && r.request.currentStock == data.inventory
                        && r.request.threshold == threshold.GetOr(DefaultAlertThreshold)
    ensures !r.Threw?
  {
    var t := threshold.GetOr(DefaultAlertThreshold);
    if data.inventory.Some? && data.inventory.value > t then NotSent
    else Sent(LowStockEmail(LowStockTemplate, AdminAddress, data.name, data.inventory, t))
  }

  /** The alert depends on `inventory` only: the same product document with
      any `quantityAvailable` gets the same answer. */
  lemma AlertIgnoresQuantityAvailable(data: Inventory.StockDoc, q: Option<int>, threshold: Option<int>)
    ensures LowStockAlert(data.(quantityAvailable := q), threshold) == LowStockAlert(data, threshold)
  {
  }

  // --------------------------------------------------------- confirmation

  /** The line items of a confirmation, `None` where `items.map` throws. */
  function ConfirmationItems(o: Orders.Doc): (r: Option<seq<ItemLine>>)
    ensures r.Some? <==> "items" in o && o["items"].Items?
    ensures r.Some? ==> |r.value| == |o["items"].lines|
  {
    match Field(o, "items")
    case Some(Items(lines)) =>
      Some(seq(|lines|, i requires 0 <= i < |lines| =>
        var p := lines[i].product;
        ItemLine(p.name, lines[i].quantity, p.price, p.price * lines[i].quantity)))
    case _ => None
  }

  /** `shipping.firstName` once `shipping` is known to be there: a plain
      object may lack the field; any other value has no such field. */
  function FirstNameOf(v: Orders.Value): Option<string> {
    match v
    case Fields(m) => if "firstName" in m then Some(m["firstName"]) else None
    case _ => None
  }

  /** `sendOrderConfirmation(orderData)` as written: it reads
      `orderData.shipping.firstName` without a guard, so an order without a
      `shipping` field makes it throw. */
  function ConfirmationAsWritten(o: Orders.Doc): (r: Outcome<ConfirmationEmail>)
    ensures "shipping" !in o ==> r.Threw?
    ensures r.Sent? ==> r.request.customerName == FirstNameOf(o["shipping"])
    ensures !r.NotSent?
  {
    if "shipping" !in o then Threw
    else
      match ConfirmationItems(o)
      case None => Threw
      case Some(items) =>
        Sent(ConfirmationEmail(OrderConfirmation, Field(o, "userEmail"), FirstNameOf(o["shipping"]),
                               Field(o, "orderNumber"), items, Field(o, "total")))
  }

  /** The confirmation as evidently intended: the address is read from
      `shippingInfo`, the key the checkout writes, falling back to
      `shipping`; a missing address leaves the name out instead of
      throwing. */
  function Confirmation(o: Orders.Doc): (r: Outcome<ConfirmationEmail>)
    ensures r.Sent? <==> "items" in o && o["items"].Items?
    ensures r.Sent? && "shippingInfo" in o ==> r.request.customerName == FirstNameOf(o["shippingInfo"])
    ensures r.Sent? ==> r.request.to == Field(o, "userEmail") && r.request.orderNumber == Field(o, "orderNumber")
    ensures !r.NotSent?
  {
    var name := if "shippingInfo" in o then FirstNameOf(o["shippingInfo"])
                else if "shipping" in o then FirstNameOf(o["shipping"])
                else None;
    match ConfirmationItems(o)
    case None => Threw
    case Some(items) =>
      Sent(ConfirmationEmail(OrderConfirmation, Field(o, "userEmail"), name, Field(o, "orderNumber"), items, Field(o, "total")))
  }

  /** Wherever the as-written confirmation goes through, the corrected one
      sends the same message when the order has no `shippingInfo`. */
  lemma ConfirmationAgreesOnShipping(o: Orders.Doc)
    requires "shippingInfo" !in o && ConfirmationAsWritten(o).Sent?
    ensures Confirmation(o) == ConfirmationAsWritten(o)
  {
  }
}
