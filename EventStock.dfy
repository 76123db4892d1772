/** The event-sourced variant of the inventory API: the stock of a product is
    not stored but recomputed by folding its restock and removal events, in
    the order they were recorded, from an empty product. The event store is an
    already ordered sequence of stored events; request ids, which the source
    draws from Guid.NewGuid(), are inputs. */
module EventStock {
  import opened Warehouse
  import opened Sequences

  /** Stands for a Guid. */
  type RequestId = int

  /** The domain events the fold understands, plus any other event, which
      the fold ignores. */
  datatype Event =
    | StockRestored(productId: int, amount: int)
    | StockRemovalRequested(productId: int, amount: int, requestId: RequestId)
    | OtherEvent

  /** The folded view of one product. */
  datatype ProductStock = ProductStock(productId: int, stock: int, failedRequests: seq<RequestId>)

  /** A row of the event store (its timestamp only fixes the order of the
      sequence the store is modelled as). */
  datatype StoredEvent = StoredEvent(productId: int, isRestock: bool, quantity: int)

  /** A handler's answer: success, 400 "Not enough stock.", or a failure
      because the warehouse's GetStock call threw. */
  datatype Response = Ok | NotEnoughStock | Failed

  /** What a handler answers and the event store it leaves behind. */
  datatype Handled = Handled(response: Response, store: seq<StoredEvent>)

  // ---------------------------------------------------------------------------
  // The fold

  /** The state before any event: no stock and no failed request. */
  function Default(productId: int): (r: ProductStock)
    ensures r.productId == productId && r.stock == 0 && r.failedRequests == []
  {
    ProductStock(productId, 0, [])
  }

  /** A removal that asks for more than is in stock is refused. */
  predicate Rejects(s: ProductStock, e: Event) {
    e.StockRemovalRequested? && s.stock < e.amount
  }

  /** The effect of one event on the folded state. */
  function Apply(s: ProductStock, e: Event): (r: ProductStock)
    ensures r.productId == s.productId
    ensures e.StockRestored? ==> r.stock == s.stock + e.amount && r.failedRequests == s.failedRequests
    ensures e.StockRemovalRequested? && !Rejects(s, e) ==>
              r.stock == s.stock - e.amount >= 0 && r.failedRequests == s.failedRequests
    ensures Rejects(s, e) ==> r.stock == s.stock && r.failedRequests == s.failedRequests + [e.requestId]
    ensures e.OtherEvent? ==> r == s
  {
    match e
    case StockRestored(_, amount) => s.(stock := s.stock + amount)
    case StockRemovalRequested(_, amount, requestId) =>
      if s.stock >= amount then s.(stock := s.stock - amount)
      else s.(failedRequests := s.failedRequests + [requestId])
    case OtherEvent => s
  }

  /** Left fold of Apply over the events, first event first. */
  function Fold(s: ProductStock, events: seq<Event>): (r: ProductStock)
    ensures r.productId == s.productId
    ensures s.failedRequests <= r.failedRequests
    ensures |r.failedRequests| <= |s.failedRequests| + |events|
    decreases |events|
  {
    if events == [] then s else Fold(Apply(s, events[0]), events[1..])
  }

  /** Folding one more event is applying it to the fold of the others. */
  lemma {:induction false} FoldSnoc(s: ProductStock, events: seq<Event>, e: Event)
    ensures Fold(s, events + [e]) == Apply(Fold(s, events), e)
    decreases |events|
  {
    if events == [] {
      assert events + [e] == [e];
    } else {
      assert (events + [e])[1..] == events[1..] + [e];
      FoldSnoc(Apply(s, events[0]), events[1..], e);
    }
  }

  /** Every restock in `events` adds a non-negative amount. */
  predicate RestocksNonNegative(events: seq<Event>) {
    forall i :: 0 <= i < |events| && events[i].StockRestored? ==> events[i].amount >= 0
  }

  /** A fold that starts with non-negative stock and restocks by
      non-negative amounts ends with non-negative stock. */
  lemma {:induction false} FoldStockNonNegative(s: ProductStock, events: seq<Event>)
    requires s.stock >= 0 && RestocksNonNegative(events)
    ensures Fold(s, events).stock >= 0
    decreases |events|
  {
    if events != [] {
      assert RestocksNonNegative(events[1..]) by {
        forall i | 0 <= i < |events[1..]| && events[1..][i].StockRestored?
          ensures events[1..][i].amount >= 0
        {
          assert events[1..][i] == events[i + 1];
        }
      }
      FoldStockNonNegative(Apply(s, events[0]), events[1..]);
    }
  }

  /** The same holds after every prefix: the folded stock never dips below zero
      along the way. */
  lemma {:induction false} StockNonNegativeOnEveryPrefix(s: ProductStock, events: seq<Event>)
    requires s.stock >= 0 && RestocksNonNegative(events)
    ensures forall k :: 0 <= k <= |events| ==> Fold(s, events[..k]).stock >= 0
  {
    forall k | 0 <= k <= |events|
      ensures Fold(s, events[..k]).stock >= 0
    {
      assert RestocksNonNegative(events[..k]) by {
        forall i | 0 <= i < k && events[..k][i].StockRestored?
          ensures events[..k][i].amount >= 0
        {
          assert events[..k][i] == events[i];
        }
      }
      FoldStockNonNegative(s, events[..k]);
    }
  }

  /** The request ids of the removals refused along the fold, found by
      replaying each prefix of `events` from `s` and asking whether the next
      event is refused there. */
  ghost function RejectedIds(s: ProductStock, events: seq<Event>): seq<RequestId>
    decreases |events|
  {
    if events == [] then []
    else
      var n := |events| - 1;
      RejectedIds(s, events[..n])
        + (if Rejects(Fold(s, events[..n]), events[n]) then [events[n].requestId] else [])
  }

  /** The failed requests of the fold are exactly the refused removals, one id
      per refusal, in event order; in particular their number is the number
      of refused removals. */
  lemma {:induction false} FailedRequestsAreRejections(s: ProductStock, events: seq<Event>)
    ensures Fold(s, events).failedRequests == s.failedRequests + RejectedIds(s, events)
  {
    if events != [] {
      var n := |events| - 1;
      assert events == events[..n] + [events[n]];
      FailedRequestsAreRejections(s, events[..n]);
      FoldSnoc(s, events[..n], events[n]);
    }
  }

  // ---------------------------------------------------------------------------
  // From stored rows to events

  /** The mapping inside GetStockFromEvents: a restock row becomes
      StockRestored, any other row a removal under a fresh request id. */
  function ToEvent(e: StoredEvent, requestId: RequestId): (r: Event)
    ensures !r.OtherEvent? && r.productId == e.productId && r.amount == e.quantity
    ensures r.StockRestored? <==> e.isRestock
    ensures r.StockRemovalRequested? ==> r.requestId == requestId
  {
    if e.isRestock then StockRestored(e.productId, e.quantity)
    else StockRemovalRequested(e.productId, e.quantity, requestId)
  }

  /** The rows mapped one by one, the i-th removal taking the i-th request id. */
  function ToEvents(rows: seq<StoredEvent>, requestIds: seq<RequestId>): (r: seq<Event>)
    requires |requestIds| == |rows|
    ensures |r| == |rows|
    ensures forall i :: 0 <= i < |rows| ==> r[i] == ToEvent(rows[i], requestIds[i])
  {
    seq(|rows|, i requires 0 <= i < |rows| => ToEvent(rows[i], requestIds[i]))
  }

  /** The query of GetEvents: the rows of one product, in store order. */
  function GetEvents(store: seq<StoredEvent>, productId: int): (r: seq<StoredEvent>)
    ensures |r| <= |store|
    ensures forall i :: 0 <= i < |r| ==> r[i].productId == productId && r[i] in store
    ensures forall i :: 0 <= i < |store| && store[i].productId == productId ==> store[i] in r
  {
    if store == [] then []
    else if store[0].productId == productId then [store[0]] + GetEvents(store[1..], productId)
    else GetEvents(store[1..], productId)
  }

  /** The history keeps every row of the product as many times as the store
      holds it, and no other row. */
  lemma {:induction false} GetEventsCounts(store: seq<StoredEvent>, productId: int)
    ensures forall x :: multiset(GetEvents(store, productId))[x]
                        == if x.productId == productId then multiset(store)[x] else 0
  {
    if store != [] {
      GetEventsCounts(store[1..], productId);
      assert store == [store[0]] + store[1..];
    }
  }

  /** Appending to the store appends to each product's history. */
  lemma {:induction false} GetEventsAppend(a: seq<StoredEvent>, b: seq<StoredEvent>, productId: int)
    ensures GetEvents(a + b, productId) == GetEvents(a, productId) + GetEvents(b, productId)
  {
    if a != [] {
      assert (a + b)[1..] == a[1..] + b;
      GetEventsAppend(a[1..], b, productId);
    } else {
      assert a + b == b;
    }
  }

  /** The AnyAsync query of the handlers: some row of the store belongs to
      the product, which is exactly when the product's history is non-empty. */
  predicate HasPreviousEvents(store: seq<StoredEvent>, productId: int): (b: bool)
    ensures b <==> GetEvents(store, productId) != []
  {
    AnyRowIsHistory(store, productId);
    exists i :: 0 <= i < |store| && store[i].productId == productId
  }

  /** Some row belongs to the product exactly when its history is non-empty. */
  lemma {:induction false} AnyRowIsHistory(store: seq<StoredEvent>, productId: int)
    ensures (exists i :: 0 <= i < |store| && store[i].productId == productId)
            <==> GetEvents(store, productId) != []
  {
    if store != [] {
      AnyRowIsHistory(store[1..], productId);
      if exists i :: 0 <= i < |store[1..]| && store[1..][i].productId == productId {
        var i :| 0 <= i < |store[1..]| && store[1..][i].productId == productId;
        assert store[i + 1].productId == productId;
      }
      if store[0].productId != productId && exists i :: 0 <= i < |store| && store[i].productId == productId {
        var i :| 0 <= i < |store| && store[i].productId == productId;
        assert store[1..][i - 1].productId == productId;
      }
    }
  }

  // ---------------------------------------------------------------------------
  // The stock alone

  /** The stock a row leaves behind: restocks add, removals subtract when
      there is enough, and are ignored otherwise. */
  function StockStep(stock: int, e: StoredEvent): int {
    if e.isRestock then stock + e.quantity
    else if stock >= e.quantity then stock - e.quantity
    else stock
  }

  /** The stock after a history of rows, without request ids. */
  function StockOf(stock: int, rows: seq<StoredEvent>): int
    decreases |rows|
  {
    if rows == [] then stock else StockOf(StockStep(stock, rows[0]), rows[1..])
  }

  /** The folded stock does not depend on the request ids the fold draws:
      it is the stock-only replay of the rows. */
  lemma {:induction false} StockOfMatchesFold(s: ProductStock, rows: seq<StoredEvent>, requestIds: seq<RequestId>)
    requires |requestIds| == |rows|
    ensures Fold(s, ToEvents(rows, requestIds)).stock == StockOf(s.stock, rows)
    ensures Fold(s, ToEvents(rows, requestIds)).productId == s.productId
    decreases |rows|
  {
    if rows != [] {
      var events := ToEvents(rows, requestIds);
      assert events[1..] == ToEvents(rows[1..], requestIds[1..]);
      StockOfMatchesFold(Apply(s, events[0]), rows[1..], requestIds[1..]);
    }
  }

  /** The stock after one more row is one more step. */
  lemma {:induction false} StockOfSnoc(stock: int, rows: seq<StoredEvent>, e: StoredEvent)
    ensures StockOf(stock, rows + [e]) == StockStep(StockOf(stock, rows), e)
    decreases |rows|
  {
    if rows == [] {
      assert rows + [e] == [e];
    } else {
      assert (rows + [e])[1..] == rows[1..] + [e];
      StockOfSnoc(StockStep(stock, rows[0]), rows[1..], e);
    }
  }

  // ---------------------------------------------------------------------------
  // The handlers' logic

  /** The stock the handlers work from: the replayed history of a product
      that has one; otherwise the warehouse's figure, None when its GetStock
      call throws. */
  function CurrentStock(store: seq<StoredEvent>, productId: int, warehouseStock: Option<int>): Option<int> {
    if GetEvents(store, productId) == [] then warehouseStock
    else Some(StockOf(0, GetEvents(store, productId)))
  }

  /** GetStockFromEvents: fold the product's history, in store order, from the
      default state, drawing one request id per row. */
  method GetStockFromEvents(store: seq<StoredEvent>, productId: int, requestIds: seq<RequestId>)
    returns (productStock: ProductStock)
    requires |requestIds| == |GetEvents(store, productId)|
    ensures productStock == Fold(Default(productId), ToEvents(GetEvents(store, productId), requestIds))
    ensures productStock.productId == productId
    ensures productStock.stock == StockOf(0, GetEvents(store, productId))
  {
    var events := GetEvents(store, productId);
    ghost var mapped := ToEvents(events, requestIds);
    productStock := Default(productId);
    var i := 0;
    while i < |events|
      invariant 0 <= i <= |events|
      invariant productStock == Fold(Default(productId), mapped[..i])
    {
      var e: Event;
      if events[i].isRestock {
        e := StockRestored(events[i].productId, events[i].quantity);
      } else {
        e := StockRemovalRequested(events[i].productId, events[i].quantity, requestIds[i]);
      }
      assert e == mapped[i];
      assert mapped[..i + 1] == mapped[..i] + [mapped[i]];
      FoldSnoc(Default(productId), mapped[..i], mapped[i]);
      productStock := Apply(productStock, e);
      i := i + 1;
    }
    assert mapped[..i] == mapped;
    StockOfMatchesFold(Default(productId), events, requestIds);
  }

  /** The validate-retrieve handler: fail when the product has no history
      and the warehouse read throws; otherwise refuse exactly when the current
      stock is below the requested amount. */
  method ValidateRetrieve(store: seq<StoredEvent>, productId: int, amount: int,
                          warehouseStock: Option<int>, requestIds: seq<RequestId>)
    returns (r: Response)
    requires |requestIds| == |GetEvents(store, productId)|
    ensures r == Failed <==> CurrentStock(store, productId, warehouseStock).None?
    ensures r == Failed ==> !HasPreviousEvents(store, productId)
    ensures r == NotEnoughStock <==>
              CurrentStock(store, productId, warehouseStock).Some?
              && CurrentStock(store, productId, warehouseStock).value < amount
  {
    if !HasPreviousEvents(store, productId) {
      if warehouseStock.None? {
        return Failed;
      }
      var initialStock := warehouseStock.value;
      if initialStock < amount {
        return NotEnoughStock;
      }
    } else {
      var currentStock := GetStockFromEvents(store, productId, requestIds);
      if currentStock.stock < amount {
        return NotEnoughStock;
      }
    }
    return Ok;
  }

  /** A product with history is left as it is; one without history gets a
      first restock row carrying the warehouse's stock, and when that read
      throws there is nothing to record (None). */
  function Seed(store: seq<StoredEvent>, productId: int, warehouseStock: Option<int>): (r: Option<seq<StoredEvent>>)
    ensures r.None? <==> CurrentStock(store, productId, warehouseStock).None?
    ensures r.Some? ==> |store| <= |r.value| <= |store| + 1 && r.value[..|store|] == store
    ensures r.Some? ==> (r.value == store <==> HasPreviousEvents(store, productId))
  {
    if HasPreviousEvents(store, productId) then Some(store)
    else match warehouseStock
      case None => None
      case Some(initialStock) => Some(store + [StoredEvent(productId, true, initialStock)])
  }

  /** Seeding gives the product a history whose replay is the stock it had,
      and changes no other product's history. */
  lemma SeedKeepsCurrentStock(store: seq<StoredEvent>, productId: int, warehouseStock: Option<int>)
    requires CurrentStock(store, productId, warehouseStock).Some?
    ensures var seeded := Seed(store, productId, warehouseStock).value;
            && GetEvents(seeded, productId) != []
            && StockOf(0, GetEvents(seeded, productId)) == CurrentStock(store, productId, warehouseStock).value
            && forall q :: q != productId ==> GetEvents(seeded, q) == GetEvents(store, q)
  {
    if !HasPreviousEvents(store, productId) {
      var row := StoredEvent(productId, true, warehouseStock.value);
      AppendRow(store, row);
      assert GetEvents(store + [row], productId) == [row];
      assert StockOf(0, [row]) == warehouseStock.value by {
        assert [row][1..] == [];
      }
    }
  }

  /** Appending one row of a product changes no other product's history and
      extends its own history by that row. */
  lemma AppendRow(store: seq<StoredEvent>, row: StoredEvent)
    ensures GetEvents(store + [row], row.productId) == GetEvents(store, row.productId) + [row]
    ensures forall q :: q != row.productId ==> GetEvents(store + [row], q) == GetEvents(store, q)
  {
    GetEventsAppend(store, [row], row.productId);
    assert GetEvents([row], row.productId) == [row];
    forall q | q != row.productId
      ensures GetEvents(store + [row], q) == GetEvents(store, q)
    {
      GetEventsAppend(store, [row], q);
      assert GetEvents([row], q) == [];
      assert GetEvents(store, q) + [] == GetEvents(store, q);
    }
  }

  /** The restock handler: seed a product without history with the
      warehouse's stock, then record the restock; when the warehouse read
      throws nothing is saved. */
  function Restock(store: seq<StoredEvent>, productId: int, amount: int, warehouseStock: Option<int>): (r: Handled)
    ensures r.response != NotEnoughStock
    ensures r.response == Failed ==> r.store == store
    ensures r.response == Ok ==>
              |r.store| > |store| && r.store[..|store|] == store
              && Last(r.store) == StoredEvent(productId, true, amount)
  {
    match Seed(store, productId, warehouseStock)
    case None => Handled(Failed, store)
    case Some(seeded) => Handled(Ok, seeded + [StoredEvent(productId, true, amount)])
  }

  /** A restock fails exactly when the product has no history and the
      warehouse read throws, and then saves nothing; otherwise it raises the
      current stock by its amount. Either way no other product's history
      changes. */
  lemma RestockAddsToCurrentStock(store: seq<StoredEvent>, productId: int, amount: int,
                                  warehouseStock: Option<int>)
    ensures var r := Restock(store, productId, amount, warehouseStock);
            && (r.response == Failed <==> CurrentStock(store, productId, warehouseStock).None?)
            && (r.response == Failed ==> r.store == store)
            && (r.response == Ok ==>
                  && HasPreviousEvents(r.store, productId)
                  && CurrentStock(r.store, productId, warehouseStock)
                     == Some(CurrentStock(store, productId, warehouseStock).value + amount))
            && forall q :: q != productId ==> GetEvents(r.store, q) == GetEvents(store, q)
  {
    var r := Restock(store, productId, amount, warehouseStock);
    if CurrentStock(store, productId, warehouseStock).None? {
      assert r == Handled(Failed, store);
    } else {
      var seeded := Seed(store, productId, warehouseStock).value;
      var row := StoredEvent(productId, true, amount);
      assert r == Handled(Ok, seeded + [row]);
      SeedKeepsCurrentStock(store, productId, warehouseStock);
      AppendRow(seeded, row);
      StockOfSnoc(0, GetEvents(seeded, productId), row);
      assert GetEvents(r.store, productId) != [];
    }
  }

  /** The retrieve handler as written: the validation's answer decides; when
      it passes, one removal row is recorded, and nothing seeds a product
      that has no history yet. */
  function Retrieve(store: seq<StoredEvent>, productId: int, amount: int, warehouseStock: Option<int>): (r: Handled)
    ensures r.response == Failed <==> CurrentStock(store, productId, warehouseStock).None?
    ensures r.response == Ok <==>
              CurrentStock(store, productId, warehouseStock).Some?
              && amount <= CurrentStock(store, productId, warehouseStock).value
    ensures r.response == Ok ==> r.store == store + [StoredEvent(productId, false, amount)]
    ensures r.response != Ok ==> r.store == store
  {
    match CurrentStock(store, productId, warehouseStock)
    case None => Handled(Failed, store)
    case Some(stock) =>
      if stock < amount then Handled(NotEnoughStock, store)
      else Handled(Ok, store + [StoredEvent(productId, false, amount)])
  }

  /** For a product with no history and enough warehouse stock, the retrieve is
      accepted, yet the removal it records is refused when the history is
      folded: the fold starts from zero stock, so the stock reads 0 instead of
      the warehouse's stock less the amount, and the request is listed as
      failed. */
  lemma RetrieveWithoutHistoryFails(store: seq<StoredEvent>, productId: int, amount: int,
                                    warehouseStock: Option<int>, requestIds: seq<RequestId>)
    requires !HasPreviousEvents(store, productId)
    requires warehouseStock.Some? && 0 < amount <= warehouseStock.value
    requires |requestIds| == 1
    ensures Retrieve(store, productId, amount, warehouseStock).response == Ok
    ensures var after := Retrieve(store, productId, amount, warehouseStock).store;
            && GetEvents(after, productId) == [StoredEvent(productId, false, amount)]
            && CurrentStock(after, productId, warehouseStock) == Some(0)
            && Fold(Default(productId), ToEvents(GetEvents(after, productId), requestIds)).failedRequests
               == [requestIds[0]]
  {
    var row := StoredEvent(productId, false, amount);
    AppendRow(store, row);
    assert GetEvents(store + [row], productId) == [row];
    var events := ToEvents([row], requestIds);
    assert events == [StockRemovalRequested(productId, amount, requestIds[0])];
    assert Apply(Default(productId), events[0]).failedRequests == [requestIds[0]];
    assert events[1..] == [];
    assert Fold(Default(productId), events).failedRequests == [requestIds[0]];
    assert [row][1..] == [];
    assert StockOf(0, [row]) == StockOf(0, []);
  }

  /** The retrieve handler as evidently intended: a product without history
      is seeded with the warehouse's stock first, as the restock handler does. */
  function RetrieveSeeded(store: seq<StoredEvent>, productId: int, amount: int, warehouseStock: Option<int>): Handled {
    match CurrentStock(store, productId, warehouseStock)
    case None => Handled(Failed, store)
    case Some(stock) =>
      if stock < amount then Handled(NotEnoughStock, store)
      else Handled(Ok, Seed(store, productId, warehouseStock).value + [StoredEvent(productId, false, amount)])
  }

  /** For a product with history, the handler as written and the seeded one
      agree, so the seeded handler's guarantees hold for it. */
  lemma RetrieveWithHistory(store: seq<StoredEvent>, productId: int, amount: int, warehouseStock: Option<int>)
    requires HasPreviousEvents(store, productId)
    ensures Retrieve(store, productId, amount, warehouseStock) == RetrieveSeeded(store, productId, amount, warehouseStock)
  {
  }

  /** The seeded retrieve fails exactly when the warehouse read it needs
      throws, and is accepted exactly when the stock suffices; then the
      replayed stock drops by the amount, otherwise the store is unchanged. */
  lemma SeededRetrieveLowersStock(store: seq<StoredEvent>, productId: int, amount: int,
                                  warehouseStock: Option<int>)
    ensures var r := RetrieveSeeded(store, productId, amount, warehouseStock);
            var current := CurrentStock(store, productId, warehouseStock);
            && (r.response == Failed <==> current.None?)
            && (r.response == Ok <==> current.Some? && amount <= current.value)
            && (r.response == Ok ==> CurrentStock(r.store, productId, warehouseStock) == Some(current.value - amount))
            && (r.response != Ok ==> r.store == store)
  {
    var current := CurrentStock(store, productId, warehouseStock);
    if current.Some? && amount <= current.value {
      var seeded := Seed(store, productId, warehouseStock).value;
      var row := StoredEvent(productId, false, amount);
      SeedKeepsCurrentStock(store, productId, warehouseStock);
      AppendRow(seeded, row);
      StockOfSnoc(0, GetEvents(seeded, productId), row);
    }
  }
}
