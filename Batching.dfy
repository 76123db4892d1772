/** The periodic coalescing flush: enqueueing keeps only the latest amount per
    product, and each pass of the background loop drains a snapshot of the
    pending products, one warehouse update per product. Each enqueue and each
    pass is one atomic step; the one-second loop, the semaphore and logging
    are not modelled. */
module Batching {
  import opened Warehouse
  import opened Sequences
  import opened Enumeration

  /** What a pass leaves pending and the updates the warehouse accepted. */
  datatype Pass = Pass(pending: map<int, int>, writes: seq<Write>)

  /** One pass over the snapshot `snapshot` of the pending products: each is
      removed, then sent to the warehouse; the first update the warehouse
      refuses ends the pass, its product already removed. */
  function Drain(pending: map<int, int>, snapshot: seq<int>, accepts: (int, int) -> bool): (r: Pass)
    ensures r.pending.Keys <= pending.Keys
    ensures forall k :: k in r.pending ==> r.pending[k] == pending[k]
    ensures forall i :: 0 <= i < |r.writes| ==>
              && r.writes[i].productId in pending
              && r.writes[i].productId !in r.pending
              && r.writes[i].amount == pending[r.writes[i].productId]
    decreases |snapshot|
  {
    if snapshot == [] then Pass(pending, [])
    else
      var k := snapshot[0];
      if k !in pending then Drain(pending, snapshot[1..], accepts)
      else
        var amount := pending[k];
        var rest := pending - {k};
        if accepts(k, amount) then
          var r := Drain(rest, snapshot[1..], accepts);
          Pass(r.pending, [Write(k, amount)] + r.writes)
        else
          Pass(rest, [])
  }

  /** When the warehouse accepts every update, a pass empties the pending map
      and sends exactly one update per product, in snapshot order, carrying
      the amount that was pending for it. */
  lemma {:induction false} DrainAllAccepted(pending: map<int, int>, snapshot: seq<int>, accepts: (int, int) -> bool)
    requires IsEnumeration(snapshot, pending.Keys)
    requires forall i :: 0 <= i < |snapshot| ==> accepts(snapshot[i], pending[snapshot[i]])
    ensures Drain(pending, snapshot, accepts).pending == map[]
    ensures |Drain(pending, snapshot, accepts).writes| == |snapshot|
    ensures forall i :: 0 <= i < |snapshot| ==>
              Drain(pending, snapshot, accepts).writes[i] == Write(snapshot[i], pending[snapshot[i]])
    decreases |snapshot|
  {
    if snapshot == [] {
      EnumerationEmpty(snapshot, pending.Keys);
      assert pending == map[];
    } else {
      var k := snapshot[0];
      var rest := pending - {k};
      EnumerationTail(snapshot, pending.Keys);
      assert rest.Keys == pending.Keys - {k};
      forall i | 0 <= i < |snapshot[1..]|
        ensures accepts(snapshot[1..][i], rest[snapshot[1..][i]])
      {
        assert snapshot[1..][i] == snapshot[i + 1];
      }
      DrainAllAccepted(rest, snapshot[1..], accepts);
    }
  }

  /** When the warehouse refuses the update at position `j` and accepted all
      before it, the pass sends the first `j` updates, drops the refused
      product without retrying it, and leaves exactly the products after it
      pending with their amounts. */
  lemma {:induction false} DrainStopsAtFailure(pending: map<int, int>, snapshot: seq<int>,
                                               accepts: (int, int) -> bool, j: nat)
    requires IsEnumeration(snapshot, pending.Keys)
    requires j < |snapshot|
    requires forall i :: 0 <= i < j ==> accepts(snapshot[i], pending[snapshot[i]])
    requires !accepts(snapshot[j], pending[snapshot[j]])
    ensures |Drain(pending, snapshot, accepts).writes| == j
    ensures forall i :: 0 <= i < j ==>
              Drain(pending, snapshot, accepts).writes[i] == Write(snapshot[i], pending[snapshot[i]])
    ensures forall k :: k in Drain(pending, snapshot, accepts).pending <==> k in snapshot[j + 1..]
    decreases |snapshot|
  {
    var k := snapshot[0];
    var rest := pending - {k};
    EnumerationTail(snapshot, pending.Keys);
    assert rest.Keys == pending.Keys - {k};
    if j == 0 {
      forall q
        ensures q in rest <==> q in snapshot[1..]
      {
        if q in rest {
          var i :| 0 <= i < |snapshot| && snapshot[i] == q;
          assert i != 0;
          assert snapshot[1..][i - 1] == q;
        }
      }
    } else {
      forall i | 0 <= i < j - 1
        ensures accepts(snapshot[1..][i], rest[snapshot[1..][i]])
      {
        assert snapshot[1..][i] == snapshot[i + 1];
      }
      assert snapshot[1..][j - 1] == snapshot[j];
      DrainStopsAtFailure(rest, snapshot[1..], accepts, j - 1);
      assert snapshot[1..][j..] == snapshot[j + 1..];
    }
  }

  /** The pending map after EnqueueStockUpdate(productId, a) for each `a` of
      `amounts` in turn. */
  function EnqueueAll(pending: map<int, int>, productId: int, amounts: seq<int>): map<int, int>
    decreases |amounts|
  {
    if amounts == [] then pending
    else EnqueueAll(pending[productId := amounts[0]], productId, amounts[1..])
  }

  /** Enqueueing is last-value-wins: after a burst of enqueues for one product
      only the last amount is pending for it, and nothing else changed. */
  lemma {:induction false} EnqueueAllKeepsLast(pending: map<int, int>, productId: int, amounts: seq<int>)
    requires amounts != []
    ensures EnqueueAll(pending, productId, amounts) == pending[productId := Last(amounts)]
    decreases |amounts|
  {
    if |amounts| > 1 {
      EnqueueAllKeepsLast(pending[productId := amounts[0]], productId, amounts[1..]);
      assert Last(amounts[1..]) == Last(amounts);
      assert pending[productId := amounts[0]][productId := Last(amounts)] == pending[productId := Last(amounts)];
    }
  }

  /** N enqueues for one product before a pass that the warehouse accepts in
      full produce exactly one update for that product, carrying the N-th
      amount. */
  lemma BurstFlushedOnce(pending: map<int, int>, productId: int, amounts: seq<int>,
                         snapshot: seq<int>, accepts: (int, int) -> bool)
    requires amounts != []
    requires IsEnumeration(snapshot, EnqueueAll(pending, productId, amounts).Keys)
    requires forall i :: 0 <= i < |snapshot| ==>
               accepts(snapshot[i], EnqueueAll(pending, productId, amounts)[snapshot[i]])
    ensures var writes := Drain(EnqueueAll(pending, productId, amounts), snapshot, accepts).writes;
            exists i :: 0 <= i < |writes| && writes[i] == Write(productId, Last(amounts))
                        && forall j :: 0 <= j < |writes| && writes[j].productId == productId ==> j == i
  {
    var queued := EnqueueAll(pending, productId, amounts);
    EnqueueAllKeepsLast(pending, productId, amounts);
    DrainAllAccepted(queued, snapshot, accepts);
    var writes := Drain(queued, snapshot, accepts).writes;
    assert productId in queued;
    var i :| 0 <= i < |snapshot| && snapshot[i] == productId;
    assert writes[i] == Write(productId, Last(amounts));
  }

  /** The background service's pending updates and the warehouse it writes to. */
  class BatchingProcessor {
    /** Product id to the latest amount awaiting a pass. */
    var stockUpdates: map<int, int>
    /** The UpdateStock calls the warehouse accepted, oldest first. */
    ghost var log: seq<Write>

    constructor ()
      ensures stockUpdates == map[] && log == []
    {
      stockUpdates := map[];
      log := [];
    }

    /** Add or replace the pending amount of a product. */
    method EnqueueStockUpdate(productId: int, newAmount: int)
      modifies this
      ensures stockUpdates == old(stockUpdates)[productId := newAmount]
      ensures log == old(log)
    {
      stockUpdates := stockUpdates[productId := newAmount];
    }

    /** One pass: nothing when nothing is pending; otherwise each product of
        the snapshot is removed and its amount sent, and a refused update
        ends the pass. */
    method ExecutePendingUpdates(snapshot: seq<int>, accepts: (int, int) -> bool)
      requires IsEnumeration(snapshot, stockUpdates.Keys)
      modifies this
      ensures stockUpdates == Drain(old(stockUpdates), snapshot, accepts).pending
      ensures log == old(log) + Drain(old(stockUpdates), snapshot, accepts).writes
      ensures old(stockUpdates) == map[] ==> stockUpdates == map[] && log == old(log)
    {
      if stockUpdates == map[] {
        EnumerationEmpty(snapshot, stockUpdates.Keys);
        return;
      }
      ghost var pass := Drain(stockUpdates, snapshot, accepts);
      ghost var log0 := log;
      var i := 0;
      while i < |snapshot|
        invariant 0 <= i <= |snapshot|
        invariant Drain(stockUpdates, snapshot[i..], accepts).pending == pass.pending
        invariant log + Drain(stockUpdates, snapshot[i..], accepts).writes == log0 + pass.writes
        decreases |snapshot| - i
      {
        var productId := snapshot[i];
        assert snapshot[i..][1..] == snapshot[i + 1..];
        if productId in stockUpdates {
          var amount := stockUpdates[productId];
          stockUpdates := stockUpdates - {productId};
          if !accepts(productId, amount) {
            return;
          }
          log := log + [Write(productId, amount)];
        }
        i := i + 1;
      }
      assert snapshot[i..] == [];
    }
  }
}
