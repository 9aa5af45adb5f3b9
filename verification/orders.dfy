/** The order store. Orders are loosely shaped documents that the source
    builds by object spreading, so an order is a map from field name to
    value and `{ ...a, ...b }` is the map union `a + b` (the right operand
    wins). Covered: the defaults `createOrder` forces, the list append of
    `addOrder`, the status merge of `updateOrderStatus` (with no check of
    which status may follow which), and the admin statistics. */
module Orders {
  import opened Wrappers
  import opened Session
  import Cart

  datatype Value =
    | Str(s: string)
    | Num(n: real)
    | Flag(b: bool)
    | Items(lines: seq<Cart.Line>)
    | Fields(fields: map<string, string>)

  type Doc = map<string, Value>

  datatype OrderState = OrderState(orders: seq<Doc>, userOrders: seq<Doc>, error: Option<string>)

  /** The result of `updateOrderStatus`: the new state, and the merged
      order handed to the status e-mail when the order was found locally. */
  datatype StatusChange = StatusChange(state: OrderState, notify: Option<Doc>)

  datatype OrderStats = OrderStats(
    total: nat,
    processing: nat,
    shipped: nat,
    delivered: nat,
    cancelled: nat,
    totalRevenue: real)

  const Processing: string := "processing"
  const OrderNumberPrefix: string := "ORD-"

  /** The field is present and holds that value. */
  predicate FieldIs(o: Doc, field: string, v: Value) {
    field in o && o[field] == v
  }

  predicate HasId(o: Doc, id: string) {
    FieldIs(o, "id", Str(id))
  }

  predicate HasStatus(o: Doc, status: string) {
    FieldIs(o, "status", Str(status))
  }

  /** `o.total || 0` for a numeric or missing total. */
  function TotalOf(o: Doc): real {
    if "total" in o && o["total"].Num? then o["total"].n else 0.0
  }

  // ------------------------------------------------------------ addOrder

  /** `addOrder(order)`: stamps the times, and on a successful write
      appends the order with its new id to both lists and returns the id;
      a failed write records the error and rethrows it. */
  function AddOrder(st: OrderState, order: Doc, write: Result<string>, now: string): (r: Result<(OrderState, string)>)
    ensures write.Err? ==> r == Err(write.message)
    ensures write.Ok? ==>
      var newOrder := order + map["createdAt" := Str(now), "updatedAt" := Str(now), "id" := Str(write.value)];
      && r.Ok?
      && r.value.1 == write.value
      && r.value.0.orders == st.orders + [newOrder]
      && r.value.0.userOrders == st.userOrders + [newOrder]
      && r.value.0.error.None?
  {
    match write
    case Err(e) => Err(e)
    case Ok(newId) =>
      var orderData := order + map["createdAt" := Str(now), "updatedAt" := Str(now)];
      var newOrder := orderData["id" := Str(newId)];
      assert newOrder == order + map["createdAt" := Str(now), "updatedAt" := Str(now), "id" := Str(newId)];
      Ok((OrderState(st.orders + [newOrder], st.userOrders + [newOrder], None), newId))
  }

  /** The state the store is left in by `addOrder`, error included. */
  function AfterAddOrder(st: OrderState, order: Doc, write: Result<string>, now: string): (s: OrderState)
    ensures write.Err? ==> s == st.(error := Some(write.message))
    ensures write.Ok? ==> |s.orders| == |st.orders| + 1 && |s.userOrders| == |st.userOrders| + 1
  {
    match AddOrder(st, order, write, now)
    case Err(e) => st.(error := Some(e))
    case Ok((s, _)) => s
  }

  // --------------------------------------------------------- createOrder

  const ForcedKeys: set<string> := {"userId", "userEmail", "status", "orderNumber", "createdAt"}

  /** The fields `createOrder` writes over whatever the caller passed. */
  function Forced(u: User, stamp: string, now: string): (d: Doc)
    ensures d.Keys == ForcedKeys
  {
    map["userId" := Str(u.uid), "userEmail" := Str(u.email), "status" := Str(Processing),
        "orderNumber" := Str(OrderNumberPrefix + stamp), "createdAt" := Str(now)]
  }

  /** The order `createOrder` hands back: the caller's data with the user,
      status "processing", a fresh order number and the creation time
      forced over it, and the new id. */
  function Placed(orderData: Doc, u: User, stamp: string, id: string, now: string): (o: Doc)
    ensures o.Keys == orderData.Keys + ForcedKeys + {"id"}
    ensures HasStatus(o, Processing) && HasId(o, id)
    ensures FieldIs(o, "userId", Str(u.uid)) && FieldIs(o, "userEmail", Str(u.email))
    ensures FieldIs(o, "orderNumber", Str(OrderNumberPrefix + stamp))
    ensures FieldIs(o, "createdAt", Str(now))
    ensures forall k :: k in orderData && k !in ForcedKeys && k != "id" ==> o[k] == orderData[k]
  {
    (orderData + Forced(u, stamp, now))["id" := Str(id)]
  }

  /** A field the caller chose and `createOrder` does not force survives
      into the placed order, and into its stored copy. */
  lemma PlacedKeeps(orderData: Doc, u: User, stamp: string, id: string, now: string, k: string)
    requires k in orderData && k !in ForcedKeys && k != "id" && k != "updatedAt"
    ensures FieldIs(Placed(orderData, u, stamp, id, now), k, orderData[k])
    ensures FieldIs(Placed(orderData, u, stamp, id, now)["updatedAt" := Str(now)], k, orderData[k])
  {
  }

  /** `createOrder` keeps the caller's total, so revenue counts the
      order at the amount the caller computed. */
  lemma PlacedKeepsTotal(orderData: Doc, u: User, stamp: string, id: string, now: string)
    ensures TotalOf(Placed(orderData, u, stamp, id, now)) == TotalOf(orderData)
    ensures TotalOf(Placed(orderData, u, stamp, id, now)["updatedAt" := Str(now)]) == TotalOf(orderData)
  {
    assert "total" !in ForcedKeys;
  }

  /** A field the caller left out is absent from the placed order unless
      `createOrder` forces it. */
  lemma PlacedLacks(orderData: Doc, u: User, stamp: string, id: string, now: string, k: string)
    requires k !in orderData && k !in ForcedKeys && k != "id"
    ensures k !in Placed(orderData, u, stamp, id, now)
  {
  }

  /** `createOrder(orderData)`: throws when logged out; otherwise the order
      is passed to `addOrder`, and the caller gets it back with its new id
      while both lists gain the stored copy, which also carries
      `updatedAt`. `stamp` is the text of `Date.now()`. */
  function CreateOrder(st: OrderState, user: Option<User>, orderData: Doc, stamp: string,
                       write: Result<string>, now: string): (r: Result<(OrderState, Doc)>)
    ensures r.Ok? <==> user.Some? && write.Ok?
    ensures user.None? ==> r == Err(NotAuthenticated)
    ensures user.Some? && write.Err? ==> r == Err(write.message)
    ensures r.Ok? ==>
      && r.value.1 == Placed(orderData, user.value, stamp, write.value, now)
      && r.value.0.orders == st.orders + [r.value.1["updatedAt" := Str(now)]]
      && r.value.0.userOrders == st.userOrders + [r.value.1["updatedAt" := Str(now)]]
      && r.value.0.error.None?
  {
    match user
    case None => Err(NotAuthenticated)
    case Some(u) =>
      var order := orderData + Forced(u, stamp, now);
      match AddOrder(st, order, write, now)
      case Err(e) => Err(e)
      case Ok((st', id)) =>
        assert order + map["createdAt" := Str(now), "updatedAt" := Str(now), "id" := Str(id)]
            == order["id" := Str(id)]["updatedAt" := Str(now)];
        Ok((st', order["id" := Str(id)]))
  }

  // --------------------------------------------------- updateOrderStatus

  /** `{ status, updatedAt, ...additionalData }`: the extra fields come
      last and so win, even over `status`. */
  function UpdateData(status: string, additional: Doc, now: string): (d: Doc)
    ensures d.Keys == {"status", "updatedAt"} + additional.Keys
    ensures forall k :: k in additional ==> d[k] == additional[k]
    ensures "status" !in additional ==> d["status"] == Str(status)
    ensures "updatedAt" !in additional ==> d["updatedAt"] == Str(now)
  {
    map["status" := Str(status), "updatedAt" := Str(now)] + additional
  }

  function MergeWhere(orders: seq<Doc>, id: string, patch: Doc): (r: seq<Doc>)
    ensures |r| == |orders|
    ensures forall i :: 0 <= i < |orders| && HasId(orders[i], id) ==> r[i] == orders[i] + patch
    ensures forall i :: 0 <= i < |orders| && !HasId(orders[i], id) ==> r[i] == orders[i]
  {
    seq(|orders|, i requires 0 <= i < |orders| => if HasId(orders[i], id) then orders[i] + patch else orders[i])
  }

  /** `orders[k]` carries the id and no order before it does. */
  predicate FirstAt(orders: seq<Doc>, id: string, k: int) {
    && 0 <= k < |orders|
    && HasId(orders[k], id)
    && forall j :: 0 <= j < k ==> !HasId(orders[j], id)
  }

  /** The first order with that id in `orders`, else in `userOrders`. */
  function FindOrder(st: OrderState, id: string): (r: Option<Doc>)
    ensures r.Some? ==> HasId(r.value, id) && (r.value in st.orders || r.value in st.userOrders)
    ensures r.None? ==> (forall o :: o in st.orders ==> !HasId(o, id)) && (forall o :: o in st.userOrders ==> !HasId(o, id))
    ensures (exists o :: o in st.orders && HasId(o, id)) ==>
      r.Some? && exists k :: FirstAt(st.orders, id, k) && r.value == st.orders[k]
    ensures (forall o :: o in st.orders ==> !HasId(o, id)) && r.Some? ==>
      exists k :: FirstAt(st.userOrders, id, k) && r.value == st.userOrders[k]
  {
    match FirstWithId(st.orders, id)
    case Some(o) => Some(o)
    case None => FirstWithId(st.userOrders, id)
  }

  function FirstWithId(orders: seq<Doc>, id: string): (r: Option<Doc>)
    ensures r.Some? ==> HasId(r.value, id) && r.value in orders
    ensures r.Some? ==> exists k :: FirstAt(orders, id, k) && r.value == orders[k]
    ensures r.None? ==> forall o :: o in orders ==> !HasId(o, id)
  {
    if orders == [] then None
    else if HasId(orders[0], id) then
      assert FirstAt(orders, id, 0);
      Some(orders[0])
    else
      assert forall o :: o in orders ==> o == orders[0] || o in orders[1..];
      var tail := orders[1..];
      var r := FirstWithId(tail, id);
      assert r.Some? ==> exists k :: FirstAt(orders, id, k) && r.value == orders[k] by {
        if r.Some? {
          var k :| FirstAt(tail, id, k) && r.value == tail[k];
          assert FirstAt(orders, id, k + 1) && r.value == orders[k + 1];
        }
      }
      r
  }

  /** `updateOrderStatus(id, status, additionalData)`: after a successful
      write every local copy of the order gets the merged fields and the
      others are untouched; the e-mail is asked for only when the order is
      held locally. A failed write records the error and changes no list. */
  function UpdateOrderStatus(st: OrderState, id: string, status: string, additional: Doc,
                             writeError: Option<string>, now: string): (r: StatusChange)
    ensures writeError.Some? ==> r.state == st.(error := writeError) && r.notify.None?
    ensures writeError.None? ==>
      var patch := UpdateData(status, additional, now);
      && r.state.error.None?
      && |r.state.orders| == |st.orders| && |r.state.userOrders| == |st.userOrders|
      && (forall i :: 0 <= i < |st.orders| && HasId(st.orders[i], id) ==> r.state.orders[i] == st.orders[i] + patch)
      && (forall i :: 0 <= i < |st.orders| && !HasId(st.orders[i], id) ==> r.state.orders[i] == st.orders[i])
      && (forall i :: 0 <= i < |st.userOrders| && HasId(st.userOrders[i], id) ==> r.state.userOrders[i] == st.userOrders[i] + patch)
      && (forall i :: 0 <= i < |st.userOrders| && !HasId(st.userOrders[i], id) ==> r.state.userOrders[i] == st.userOrders[i])
      && (r.notify.Some? <==> FindOrder(st, id).Some?)
      && (r.notify.Some? ==> r.notify.value == FindOrder(st, id).value + patch)
  {
    match writeError
    case Some(_) => StatusChange(st.(error := writeError), None)
    case None =>
      var patch := UpdateData(status, additional, now);
      var found := FindOrder(st, id);
      var notify := if found.Some? then Some(found.value + patch) else None;
      StatusChange(OrderState(MergeWhere(st.orders, id, patch), MergeWhere(st.userOrders, id, patch), None), notify)
  }

  /** No transition check: from ANY current status, an order may be moved
      to ANY status (here, a delivered or cancelled order back to
      processing), as long as the extra fields do not name a status. */
  lemma AnyStatusMayFollowAny(st: OrderState, i: int, id: string, status: string, additional: Doc, now: string)
    requires 0 <= i < |st.orders| && HasId(st.orders[i], id)
    requires "status" !in additional
    ensures HasStatus(UpdateOrderStatus(st, id, status, additional, None, now).state.orders[i], status)
  {
  }

  /** A `status` inside the extra fields overrides the status argument. */
  lemma AdditionalDataWins(st: OrderState, i: int, id: string, status: string, other: string, now: string)
    requires 0 <= i < |st.orders| && HasId(st.orders[i], id)
    ensures HasStatus(UpdateOrderStatus(st, id, status, map["status" := Str(other)], None, now).state.orders[i], other)
  {
  }

  // ----------------------------------------------------------- statistics

  /** How many orders carry that status: none exactly when no order has
      it, all exactly when every order has it. */
  function CountStatus(orders: seq<Doc>, status: string): (n: nat)
    ensures n <= |orders|
    ensures n == 0 <==> forall i :: 0 <= i < |orders| ==> !HasStatus(orders[i], status)
    ensures n == |orders| <==> forall i :: 0 <= i < |orders| ==> HasStatus(orders[i], status)
  {
    if orders == [] then 0
    else
      var tail := orders[1..];
      assert forall i :: 0 < i < |orders| ==> orders[i] == tail[i - 1];
      (if HasStatus(orders[0], status) then 1 else 0) + CountStatus(tail, status)
  }

  /** Σ `total || 0` over the orders that are not cancelled. */
  function Revenue(orders: seq<Doc>): (v: real)
    ensures orders == [] ==> v == 0.0
    ensures (forall i :: 0 <= i < |orders| ==> TotalOf(orders[i]) >= 0.0) ==> v >= 0.0
  {
    if orders == [] then 0.0
    else
      var tail := orders[1..];
      assert forall i :: 0 < i < |orders| ==> orders[i] == tail[i - 1];
      (if HasStatus(orders[0], "cancelled") then 0.0 else TotalOf(orders[0])) + Revenue(tail)
  }

  /** `getOrderStats()`. */
  function GetOrderStats(orders: seq<Doc>): (s: OrderStats)
    ensures s.total == |orders|
    ensures s.processing + s.shipped + s.delivered + s.cancelled <= s.total
    ensures s.cancelled == |orders| ==> s.totalRevenue == 0.0
  {
    CountsBounded(orders);
    CancelledRevenue(orders);
    OrderStats(|orders|, CountStatus(orders, "processing"), CountStatus(orders, "shipped"),
               CountStatus(orders, "delivered"), CountStatus(orders, "cancelled"), Revenue(orders))
  }

  /** An order has at most one status, so the four counts never add up to
      more than the number of orders. */
  lemma {:induction false} CountsBounded(orders: seq<Doc>)
    ensures CountStatus(orders, "processing") + CountStatus(orders, "shipped")
          + CountStatus(orders, "delivered") + CountStatus(orders, "cancelled") <= |orders|
  {
    if orders != [] {
      CountsBounded(orders[1..]);
    }
  }

  lemma {:induction false} CancelledRevenue(orders: seq<Doc>)
    ensures CountStatus(orders, "cancelled") == |orders| ==> Revenue(orders) == 0.0
  {
    if orders != [] && CountStatus(orders, "cancelled") == |orders| {
      assert CountStatus(orders[1..], "cancelled") <= |orders[1..]|;
      CancelledRevenue(orders[1..]);
    }
  }

  lemma {:induction false} RevenueAppend(a: seq<Doc>, b: seq<Doc>)
    ensures Revenue(a + b) == Revenue(a) + Revenue(b)
  {
    if a != [] {
      assert (a + b)[0] == a[0];
      assert (a + b)[1..] == a[1..] + b;
      RevenueAppend(a[1..], b);
    } else {
      assert a + b == b;
    }
  }

  /** One order adds its total to the revenue unless it is cancelled; with
      `RevenueAppend` this makes revenue the sum of `total || 0` over the
      orders that are not cancelled. */
  lemma RevenueSingle(o: Doc)
    ensures Revenue([o]) == if HasStatus(o, "cancelled") then 0.0 else TotalOf(o)
  {
    assert [o][1..] == [];
  }

  /** Placing an order adds its total to the revenue and one to the
      processing count: a new order is never born cancelled. */
  lemma NewOrderStats(st: OrderState, user: Option<User>, orderData: Doc, stamp: string, write: Result<string>, now: string)
    requires CreateOrder(st, user, orderData, stamp, write, now).Ok?
    ensures var s := CreateOrder(st, user, orderData, stamp, write, now).value.0;
      && GetOrderStats(s.orders).total == GetOrderStats(st.orders).total + 1
      && GetOrderStats(s.orders).processing == GetOrderStats(st.orders).processing + 1
      && GetOrderStats(s.orders).totalRevenue == GetOrderStats(st.orders).totalRevenue + TotalOf(s.orders[|st.orders|])
  {
    var s := CreateOrder(st, user, orderData, stamp, write, now).value.0;
    var o := s.orders[|st.orders|];
    assert s.orders == st.orders + [o];
    RevenueAppend(st.orders, [o]);
    CountAppend(st.orders, [o], "processing");
  }

  lemma {:induction false} CountAppend(a: seq<Doc>, b: seq<Doc>, status: string)
    ensures CountStatus(a + b, status) == CountStatus(a, status) + CountStatus(b, status)
  {
    if a != [] {
      assert (a + b)[0] == a[0];
      assert (a + b)[1..] == a[1..] + b;
      CountAppend(a[1..], b, status);
    } else {
      assert a + b == b;
    }
  }
}
