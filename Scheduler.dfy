/** The per-product debounce: each enqueue overwrites the product's pending
    amount and (re)starts a one-shot timer for that product; when the timer
    fires, the pending amount, if any, is sent and then removed. Time is an
    abstract clock in milliseconds, passed to each step; each enqueue and each
    firing is one atomic step. */
module Scheduler {
  import opened Warehouse
  import opened Sequences

  /** The quiet period, in milliseconds, that a timer waits before it fires. */
  const DueTime: int := 2500

  /** A System.Threading.Timer created with a due time and no period: it fires
      once, at `due`, unless it is changed first. */
  class OneShotTimer {
    /** The state object handed to the callback: the product it flushes. */
    const productId: int
    /** The clock reading at which the timer fires. */
    var due: int
    /** Whether the timer is still waiting to fire. */
    var armed: bool

    /** new Timer(callback, productId, 2500, Timeout.Infinite) at time `now`. */
    constructor (productId: int, now: int)
      ensures this.productId == productId && due == now + DueTime && armed
    {
      this.productId := productId;
      due := now + DueTime;
      armed := true;
    }

    /** Change(2500, Timeout.Infinite) at time `now`: fire once, DueTime from now. */
    method Change(now: int)
      modifies this
      ensures due == now + DueTime && armed
    {
      due := now + DueTime;
      armed := true;
    }
  }

  /** The scheduler: the pending amounts and the registry of timers. */
  class StockUpdateScheduler {
    /** Product id to the latest amount awaiting its timer. */
    var stockUpdates: map<int, int>
    /** Product id to its timer; entries are added and never removed. */
    var timers: map<int, OneShotTimer>
    /** The UpdateStock calls the warehouse accepted, oldest first. */
    ghost var log: seq<Write>
    /** The timers the scheduler has created. */
    ghost var Repr: set<OneShotTimer>

    /** Every registered timer is one the scheduler created and flushes the
        product it is registered under, so no two products share a timer. */
    ghost predicate Valid()
      reads this, Repr
    {
      forall q :: q in timers ==> timers[q] in Repr && timers[q].productId == q
    }

    constructor ()
      ensures Valid() && fresh(Repr)
      ensures stockUpdates == map[] && timers == map[] && log == []
    {
      stockUpdates := map[];
      timers := map[];
      log := [];
      Repr := {};
    }

    /** Overwrite the product's pending amount, then schedule its flush. */
    method EnqueueStockUpdate(productId: int, newAmount: int, now: int)
      requires Valid()
      modifies this, Repr
      ensures Valid() && fresh(Repr - old(Repr))
      ensures stockUpdates == old(stockUpdates)[productId := newAmount]
      ensures timers.Keys == old(timers.Keys) + {productId}
      ensures productId in old(timers) ==> timers[productId] == old(timers[productId])
      ensures productId !in old(timers) ==> fresh(timers[productId])
      ensures timers[productId].due == now + DueTime && timers[productId].armed
      ensures forall q :: q in old(timers) && q != productId ==>
                timers[q] == old(timers[q]) && unchanged(timers[q])
      ensures log == old(log)
    {
      stockUpdates := stockUpdates[productId := newAmount];
      ScheduleStockUpdate(productId, now);
    }

    /** Reset the product's timer to fire DueTime from now, or register a new
        one if it has none. */
    method ScheduleStockUpdate(productId: int, now: int)
      requires Valid()
      modifies this, Repr
      ensures Valid() && fresh(Repr - old(Repr))
      ensures timers.Keys == old(timers.Keys) + {productId}
      ensures productId in old(timers) ==> timers[productId] == old(timers[productId])
      ensures productId !in old(timers) ==> fresh(timers[productId])
      ensures timers[productId].due == now + DueTime && timers[productId].armed
      ensures forall q :: q in old(timers) && q != productId ==>
                timers[q] == old(timers[q]) && unchanged(timers[q])
      ensures stockUpdates == old(stockUpdates) && log == old(log)
    {
      if productId in timers {
        var existingTimer := timers[productId];
        existingTimer.Change(now);
      } else {
        var newTimer := new OneShotTimer(productId, now);
        timers := timers[productId := newTimer];
        Repr := Repr + {newTimer};
      }
    }

    /** The product's timer fires at `now`: it is spent, and if an amount is
        pending it is sent; once the warehouse accepts it, the product is no
        longer pending. A refused update leaves the amount pending. */
    method Fire(productId: int, now: int, accepts: (int, int) -> bool)
      requires Valid()
      requires productId in timers && timers[productId].armed && now >= timers[productId].due
      modifies this, timers[productId]
      ensures Valid() && Repr == old(Repr)
      ensures timers == old(timers) && !timers[productId].armed
      ensures timers[productId].due == old(timers[productId].due)
      ensures forall q :: q in timers && q != productId ==> unchanged(timers[q])
      ensures productId in old(stockUpdates) && accepts(productId, old(stockUpdates)[productId]) ==>
                && log == old(log) + [Write(productId, old(stockUpdates)[productId])]
                && stockUpdates == old(stockUpdates) - {productId}
      ensures !(productId in old(stockUpdates) && accepts(productId, old(stockUpdates)[productId])) ==>
                log == old(log) && stockUpdates == old(stockUpdates)
    {
      var timer := timers[productId];
      timer.armed := false;
      var pid := timer.productId;
      if pid in stockUpdates {
        var stock := stockUpdates[pid];
        if accepts(pid, stock) {
          log := log + [Write(pid, stock)];
          stockUpdates := stockUpdates - {pid};
        }
      }
    }
  }

  /** A burst of enqueues for one product, each within the quiet period of the
      one before, followed by quiet: the timer is never due before the next
      enqueue, and the one firing after the last enqueue sends only the last
      amount, once. */
  method DebouncedBurst(s: StockUpdateScheduler, productId: int, amounts: seq<int>, times: seq<int>,
                        fireAt: int, accepts: (int, int) -> bool)
    requires s.Valid()
    requires |amounts| == |times| > 0
    requires forall i :: 0 < i < |times| ==> times[i - 1] <= times[i] < times[i - 1] + DueTime
    requires fireAt >= Last(times) + DueTime
    requires accepts(productId, Last(amounts))
    modifies s, s.Repr
    ensures s.Valid()
    ensures s.log == old(s.log) + [Write(productId, Last(amounts))]
    ensures productId !in s.stockUpdates
    ensures productId in s.timers && !s.timers[productId].armed
  {
    var i := 0;
    while i < |amounts|
      invariant 0 <= i <= |amounts|
      invariant s.Valid()
      invariant s.log == old(s.log)
      invariant forall q :: q in old(s.timers) ==> q in s.timers && s.timers[q] == old(s.timers[q])
      invariant fresh(s.Repr - old(s.Repr))
      invariant i > 0 ==> productId in s.stockUpdates && s.stockUpdates[productId] == amounts[i - 1]
      invariant i > 0 ==> productId in s.timers && s.timers[productId].armed
                          && s.timers[productId].due == times[i - 1] + DueTime
      invariant 0 < i < |times| ==> s.timers[productId].due > times[i]
    {
      s.EnqueueStockUpdate(productId, amounts[i], times[i]);
      i := i + 1;
    }
    s.Fire(productId, fireAt, accepts);
  }
}
