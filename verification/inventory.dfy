/** The inventory store: stock arithmetic on a product document
    (subtract, add or set; reserve and release between available and
    reserved stock), the cached per-product view, the low-stock list, and
    the stock status query. A product document read from the store is an
    `Option<StockDoc>` argument (None when it does not exist); the document
    written back is part of the result. */
module Inventory {
  import opened Wrappers

  /** The stock fields of a product document; a field may be missing. */
  datatype StockDoc = StockDoc(
    name: string,
    quantityAvailable: Option<int>,
    reservedQuantity: Option<int>,
    inventory: Option<int>,
    updatedAt: Option<string>)

  /** The store's cached view of one product. */
  datatype StockEntry = StockEntry(
    available: int,
    reserved: Option<int>,
    total: Option<int>,
    lastUpdated: string)

  datatype LowStockItem = LowStockItem(
    id: string,
    name: string,
    quantity: int,
    threshold: int,
    lastAlerted: string)

  datatype InventoryState = InventoryState(
    inventory: map<string, StockEntry>,
    lowStockItems: seq<LowStockItem>)

  /** The outcome of a successful `updateInventory`: the document as
      written, the store state afterwards, and the value returned. */
  datatype StockUpdate = StockUpdate(doc: StockDoc, state: InventoryState, newQuantity: int)

  datatype StockStatus = StockStatus(
    productId: string,
    entry: Option<StockEntry>,
    isLowStock: bool,
    isOutOfStock: bool)

  const DefaultThreshold: int := 5
  const StatusLowStockLimit: int := 5
  const ProductNotFound: string := "Product not found"
  const InsufficientInventory: string := "Insufficient inventory"

  /** `quantityAvailable || 0`. */
  function Available(d: StockDoc): (n: int)
    ensures d.quantityAvailable.None? ==> n == 0
    ensures d.quantityAvailable.Some? ==> n == d.quantityAvailable.value
  {
    d.quantityAvailable.GetOr(0)
  }

  /** `reservedQuantity || 0`. */
  function Reserved(d: StockDoc): (n: int)
    ensures d.reservedQuantity.None? ==> n == 0
    ensures d.reservedQuantity.Some? ==> n == d.reservedQuantity.value
  {
    d.reservedQuantity.GetOr(0)
  }

  // ------------------------------------------------------ updateInventory

  /** The quantity `updateInventory` writes: subtraction floored at zero,
      addition, or (any other operation) the change itself. */
  function NewQuantity(current: int, change: int, operation: string): (q: int)
    ensures operation == "subtract" ==> q >= 0 && q >= current - change && (q == 0 || q == current - change)
    ensures operation == "add" ==> q == current + change
    ensures operation != "subtract" && operation != "add" ==> q == change
  {
    if operation == "subtract" then (if current - change > 0 then current - change else 0)
    else if operation == "add" then current + change
    else change
  }

  /** `updateInventory(productId, change, operation)`: a missing document
      fails with "Product not found" and nothing is written; otherwise the
      new quantity is written to the document and the cache, and the
      low-stock list is refreshed with the default threshold. */
  function UpdateInventory(st: InventoryState, productId: string, stored: Option<StockDoc>,
                           change: int, operation: string, now: string): (r: Result<StockUpdate>)
    ensures stored.None? <==> r.Err?
    ensures r.Err? ==> r.message == ProductNotFound
    ensures r.Ok? ==>
      var u := r.value;
      && u.newQuantity == NewQuantity(Available(stored.value), change, operation)
      && u.doc == stored.value.(quantityAvailable := Some(u.newQuantity), updatedAt := Some(now))
      && productId in u.state.inventory
      && u.state.inventory[productId].available == u.newQuantity
      && u.state.inventory[productId].lastUpdated == now
      && (productId in st.inventory ==>
            && u.state.inventory[productId].reserved == st.inventory[productId].reserved
            && u.state.inventory[productId].total == st.inventory[productId].total)
      && (productId !in st.inventory ==>
            u.state.inventory[productId].reserved.None? && u.state.inventory[productId].total.None?)
      && (forall id :: id in st.inventory && id != productId ==> id in u.state.inventory && u.state.inventory[id] == st.inventory[id])
      && u.state.inventory.Keys == st.inventory.Keys + {productId}
      && u.state.lowStockItems == CheckLowStock(st.lowStockItems, productId, u.doc, DefaultThreshold, now)
    ensures r.Ok? && operation == "subtract" ==> r.value.newQuantity >= 0
  {
    match stored
    case None => Err(ProductNotFound)
    case Some(d) =>
      var q := NewQuantity(Available(d), change, operation);
      var entry := if productId in st.inventory
        then st.inventory[productId].(available := q, lastUpdated := now)
        else StockEntry(q, None, None, now);
      var inv := st.inventory[productId := entry];
      var written := d.(quantityAvailable := Some(q), updatedAt := Some(now));
      var low := CheckLowStock(st.lowStockItems, productId, written, DefaultThreshold, now);
      Ok(StockUpdate(written, InventoryState(inv, low), q))
  }

  // ---------------------------------------------------- reserve / release

  /** `reserveInventory(productId, q)`: moves `q` units from available to
      reserved, or fails (writing nothing) when the document is missing or
      fewer than `q` units are available. */
  function Reserve(stored: Option<StockDoc>, q: int, now: string): (r: Result<StockDoc>)
    ensures stored.None? ==> r == Err(ProductNotFound)
    ensures stored.Some? && Available(stored.value) < q ==> r == Err(InsufficientInventory)
    ensures stored.Some? && Available(stored.value) >= q <==> r.Ok?
    ensures r.Ok? ==>
      && Available(r.value) == Available(stored.value) - q
      && Reserved(r.value) == Reserved(stored.value) + q
      && Available(r.value) + Reserved(r.value) == Available(stored.value) + Reserved(stored.value)
      && Available(r.value) >= 0
      && r.value.name == stored.value.name
      && r.value.inventory == stored.value.inventory
  {
    match stored
    case None => Err(ProductNotFound)
    case Some(d) =>
      var available := Available(d);
      var reserved := Reserved(d);
      if available < q then Err(InsufficientInventory)
      else Ok(d.(quantityAvailable := Some(available - q),
                 reservedQuantity := Some(reserved + q),
                 updatedAt := Some(now)))
  }

  /** `releaseReservedInventory(productId, q)`: returns `q` units to
      available stock and takes them off the reservation, never letting the
      reservation go below zero. Only a missing document fails. */
  function Release(stored: Option<StockDoc>, q: int, now: string): (r: Result<StockDoc>)
    ensures stored.None? <==> r == Err(ProductNotFound)
    ensures r.Ok? ==>
      && Available(r.value) == Available(stored.value) + q
      && Reserved(r.value) >= 0
      && Reserved(r.value) >= Reserved(stored.value) - q
      && (Reserved(r.value) == 0 || Reserved(r.value) == Reserved(stored.value) - q)
      && r.value.name == stored.value.name
      && r.value.inventory == stored.value.inventory
    ensures r.Ok? && 0 <= q <= Reserved(stored.value) ==>
      Available(r.value) + Reserved(r.value) == Available(stored.value) + Reserved(stored.value)
  {
    match stored
    case None => Err(ProductNotFound)
    case Some(d) =>
      var available := Available(d);
      var reserved := Reserved(d);
      var left := if reserved - q > 0 then reserved - q else 0;
      Ok(d.(quantityAvailable := Some(available + q),
            reservedQuantity := Some(left),
            updatedAt := Some(now)))
  }

  /** Releasing what was just reserved restores both counters. */
  lemma ReserveThenRelease(stored: Option<StockDoc>, q: int, t1: string, t2: string)
    requires stored.Some? && Reserved(stored.value) >= 0
    requires Reserve(stored, q, t1).Ok?
    ensures var back := Release(Some(Reserve(stored, q, t1).value), q, t2);
      && back.Ok?
      && Available(back.value) == Available(stored.value)
      && Reserved(back.value) == Reserved(stored.value)
  {
  }

  // ------------------------------------------------------------ low stock

  /** `lowStockItems.filter(item => item.id !== id)`. */
  function WithoutItem(items: seq<LowStockItem>, id: string): (r: seq<LowStockItem>)
    ensures forall it :: it in r ==> it in items && it.id != id
    ensures forall it :: it in items && it.id != id ==> it in r
    ensures |r| <= |items|
  {
    if items == [] then []
    else
      var rest := WithoutItem(items[1..], id);
      assert forall it :: it in items[1..] ==> it in items;
      if items[0].id == id then rest else [items[0]] + rest
  }

  function CountItem(items: seq<LowStockItem>, id: string): nat {
    if items == [] then 0
    else (if items[0].id == id then 1 else 0) + CountItem(items[1..], id)
  }

  /** `checkLowStock(productId, data, threshold)` on the low-stock list:
      a quantity in 1..threshold (re)places the product's entry at the end,
      one above the threshold drops it, and zero (or below) leaves the list
      as it is. The alert e-mail it may send is not part of the model. */
  function CheckLowStock(items: seq<LowStockItem>, productId: string, data: StockDoc,
                         threshold: int, now: string): (r: seq<LowStockItem>)
    ensures 0 < Available(data) <= threshold ==>
      && CountItem(r, productId) == 1
      && r[|r| - 1] == LowStockItem(productId, data.name, Available(data), threshold, now)
      && (forall it :: it in items && it.id != productId ==> it in r)
      && (forall it :: it in r && it.id != productId ==> it in items)
    ensures Available(data) > threshold ==>
      && CountItem(r, productId) == 0
      && (forall it :: it in items && it.id != productId ==> it in r)
      && (forall it :: it in r ==> it in items)
    ensures Available(data) <= 0 && Available(data) <= threshold ==> r == items
  {
    var q := Available(data);
    if q <= threshold && q > 0 then
      var kept := WithoutItem(items, productId);
      var entry := LowStockItem(productId, data.name, q, threshold, now);
      CountWithout(items, productId);
      CountAppend(kept, [entry], productId);
      assert forall it :: it in kept ==> it in kept + [entry];
      kept + [entry]
    else if q > threshold then
      CountWithout(items, productId);
      WithoutItem(items, productId)
    else items
  }

  lemma {:induction false} CountWithout(items: seq<LowStockItem>, id: string)
    ensures CountItem(WithoutItem(items, id), id) == 0
  {
    if items != [] {
      CountWithout(items[1..], id);
    }
  }

  lemma {:induction false} CountAppend(a: seq<LowStockItem>, b: seq<LowStockItem>, id: string)
    ensures CountItem(a + b, id) == CountItem(a, id) + CountItem(b, id)
  {
    if a != [] {
      assert (a + b)[0] == a[0];
      assert (a + b)[1..] == a[1..] + b;
      CountAppend(a[1..], b, id);
    } else {
      assert a + b == b;
    }
  }

  lemma {:induction false} WithoutAppend(a: seq<LowStockItem>, b: seq<LowStockItem>, id: string)
    ensures WithoutItem(a + b, id) == WithoutItem(a, id) + WithoutItem(b, id)
  {
    if a != [] {
      assert (a + b)[0] == a[0];
      assert (a + b)[1..] == a[1..] + b;
      WithoutAppend(a[1..], b, id);
    } else {
      assert a + b == b;
    }
  }

  lemma {:induction false} WithoutTwice(items: seq<LowStockItem>, id: string)
    ensures WithoutItem(WithoutItem(items, id), id) == WithoutItem(items, id)
  {
    if items != [] {
      WithoutTwice(items[1..], id);
    }
  }

  /** Re-checking with the same data and clock changes nothing more: the
      low-stock list holds one entry per check, never a growing trail. */
  lemma CheckLowStockIdempotent(items: seq<LowStockItem>, productId: string, data: StockDoc, threshold: int, now: string)
    ensures var once := CheckLowStock(items, productId, data, threshold, now);
      CheckLowStock(once, productId, data, threshold, now) == once
  {
    var q := Available(data);
    var kept := WithoutItem(items, productId);
    var entry := LowStockItem(productId, data.name, q, threshold, now);
    WithoutTwice(items, productId);
    if q <= threshold && q > 0 {
      WithoutAppend(kept, [entry], productId);
      assert WithoutItem([entry], productId) == [];
    }
  }

  // ------------------------------------------------------------- snapshot

  /** The live-update handler of `trackProduct`: an existing document
      refreshes the cached entry (missing counters read as 0) and the
      low-stock list; a missing one changes nothing. */
  function OnSnapshot(st: InventoryState, productId: string, stored: Option<StockDoc>, now: string): (r: InventoryState)
    ensures stored.None? ==> r == st
    ensures stored.Some? ==>
      && productId in r.inventory
      && r.inventory[productId] == StockEntry(Available(stored.value), Some(Reserved(stored.value)),
                                              Some(stored.value.inventory.GetOr(0)), now)
      && r.inventory.Keys == st.inventory.Keys + {productId}
      && (forall id :: id in st.inventory && id != productId ==> r.inventory[id] == st.inventory[id])
      && r.lowStockItems == CheckLowStock(st.lowStockItems, productId, stored.value, DefaultThreshold, now)
  {
    match stored
    case None => st
    case Some(d) =>
      var entry := StockEntry(Available(d), Some(Reserved(d)), Some(d.inventory.GetOr(0)), now);
      InventoryState(st.inventory[productId := entry],
                     CheckLowStock(st.lowStockItems, productId, d, DefaultThreshold, now))
  }

  // --------------------------------------------------------------- status

  /** `getInventoryStatus(ids)`: one record per requested id, in order. A
      product with no cached entry is neither low nor out of stock, since
      `undefined <= 5` and `undefined === 0` are both false. */
  function InventoryStatus(inventory: map<string, StockEntry>, ids: seq<string>): (r: seq<StockStatus>)
    ensures |r| == |ids|
    ensures forall i :: 0 <= i < |ids| ==> r[i].productId == ids[i]
    ensures forall i :: 0 <= i < |ids| ==>
      (r[i].isLowStock <==> ids[i] in inventory && inventory[ids[i]].available <= StatusLowStockLimit)
    ensures forall i :: 0 <= i < |ids| ==>
      (r[i].isOutOfStock <==> ids[i] in inventory && inventory[ids[i]].available == 0)
    ensures forall i :: 0 <= i < |ids| ==> (r[i].entry.Some? <==> ids[i] in inventory)
    ensures forall i :: 0 <= i < |ids| && r[i].isOutOfStock ==> r[i].isLowStock
  {
    seq(|ids|, i requires 0 <= i < |ids| =>
      var id := ids[i];
      if id in inventory then
        StockStatus(id, Some(inventory[id]), inventory[id].available <= StatusLowStockLimit, inventory[id].available == 0)
      else
        StockStatus(id, None, false, false))
  }
}
