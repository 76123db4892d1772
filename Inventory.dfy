/** The read-through cache with a pending queue: reads fill the cache on a
    miss; a saved amount goes into the cache at once and is added to the
    product's pending entry; a periodic pass sends every pending entry to the
    warehouse and writes the sent value back into the cache. Each call is one
    atomic step; the five-second timer, cache expiry and logging are not
    modelled. */
module Inventory {
  import opened Warehouse
  import opened Enumeration
  import opened Sequences
  import Batching

  /** ConcurrentDictionary.AddOrUpdate with the source's update function: a
      new product gets `amount`, a pending one gets its amount plus `amount`. */
  function AddOrUpdate(pending: map<int, int>, productId: int, amount: int): (r: map<int, int>)
    ensures r.Keys == pending.Keys + {productId}
    ensures productId in pending ==> r[productId] == pending[productId] + amount
    ensures productId !in pending ==> r[productId] == amount
    ensures forall k :: k in pending && k != productId ==> r[k] == pending[k]
  {
    if productId in pending then pending[productId := pending[productId] + amount]
    else pending[productId := amount]
  }

  /** What a pass leaves in the cache and the pending map, and the updates the
      warehouse accepted. */
  datatype Flushed = Flushed(cache: map<int, int>, pending: map<int, int>, writes: seq<Write>)

  /** One ProcessQueue pass over the pending products in the order `order`:
      each amount is sent, then written into the cache, then the product is
      removed; a refused update ends the pass and leaves that product
      pending and its cache entry untouched. */
  function Flush(cache: map<int, int>, pending: map<int, int>, order: seq<int>,
                 accepts: (int, int) -> bool): (r: Flushed)
    ensures |r.writes| <= |order|
    decreases |order|
  {
    if order == [] then Flushed(cache, pending, [])
    else
      var k := order[0];
      if k !in pending then Flush(cache, pending, order[1..], accepts)
      else
        var amount := pending[k];
        if accepts(k, amount) then
          var r := Flush(cache[k := amount], pending - {k}, order[1..], accepts);
          Flushed(r.cache, r.pending, [Write(k, amount)] + r.writes)
        else
          Flushed(cache, pending, [])
  }

  /** Whatever the warehouse answers, a pass only removes pending entries, and
      removes exactly those it sent: each removed product had its pending
      amount sent and written into the cache, each sent product is removed,
      and every other cache entry is as it was. */
  lemma {:induction false} FlushSendsWhatItRemoves(cache: map<int, int>, pending: map<int, int>, order: seq<int>,
                                                   accepts: (int, int) -> bool)
    ensures var r := Flush(cache, pending, order, accepts);
            && r.pending.Keys <= pending.Keys
            && (forall k :: k in r.pending ==> r.pending[k] == pending[k])
            && (forall k :: k in pending && k !in r.pending ==>
                  && k in r.cache && r.cache[k] == pending[k]
                  && Write(k, pending[k]) in r.writes)
            && (forall k :: k !in pending || k in r.pending ==>
                  (k in r.cache <==> k in cache) && (k in cache ==> r.cache[k] == cache[k]))
            && (forall i :: 0 <= i < |r.writes| ==>
                  && r.writes[i].productId in pending
                  && r.writes[i].productId !in r.pending
                  && r.writes[i].amount == pending[r.writes[i].productId])
    decreases |order|
  {
    if order != [] {
      var k := order[0];
      if k !in pending {
        FlushSendsWhatItRemoves(cache, pending, order[1..], accepts);
      } else if accepts(k, pending[k]) {
        FlushSendsWhatItRemoves(cache[k := pending[k]], pending - {k}, order[1..], accepts);
      }
    }
  }

  /** When the warehouse accepts every update, a pass empties the pending map,
      sends one update per product in order carrying its pending amount, and
      leaves the cache holding the sent amounts over the old entries. */
  lemma {:induction false} FlushAllAccepted(cache: map<int, int>, pending: map<int, int>, order: seq<int>,
                                            accepts: (int, int) -> bool)
    requires IsEnumeration(order, pending.Keys)
    requires forall i :: 0 <= i < |order| ==> accepts(order[i], pending[order[i]])
    ensures Flush(cache, pending, order, accepts).pending == map[]
    ensures Flush(cache, pending, order, accepts).cache == cache + pending
    ensures |Flush(cache, pending, order, accepts).writes| == |order|
    ensures forall i :: 0 <= i < |order| ==>
              Flush(cache, pending, order, accepts).writes[i] == Write(order[i], pending[order[i]])
    decreases |order|
  {
    if order == [] {
      EnumerationEmpty(order, pending.Keys);
      assert pending == map[];
      assert cache + pending == cache;
    } else {
      var k := order[0];
      var rest := pending - {k};
      EnumerationTail(order, pending.Keys);
      assert rest.Keys == pending.Keys - {k};
      forall i | 0 <= i < |order[1..]|
        ensures accepts(order[1..][i], rest[order[1..][i]])
      {
        assert order[1..][i] == order[i + 1];
      }
      FlushAllAccepted(cache[k := pending[k]], rest, order[1..], accepts);
      assert cache[k := pending[k]] + rest == cache + pending;
    }
  }

  /** When the warehouse refuses the update at position `j` and accepted all
      before it, the pass sends the first `j` updates, and exactly the refused
      product and those after it stay pending. */
  lemma {:induction false} FlushStopsAtFailure(cache: map<int, int>, pending: map<int, int>, order: seq<int>,
                                               accepts: (int, int) -> bool, j: nat)
    requires IsEnumeration(order, pending.Keys)
    requires j < |order|
    requires forall i :: 0 <= i < j ==> accepts(order[i], pending[order[i]])
    requires !accepts(order[j], pending[order[j]])
    ensures |Flush(cache, pending, order, accepts).writes| == j
    ensures forall i :: 0 <= i < j ==>
              Flush(cache, pending, order, accepts).writes[i] == Write(order[i], pending[order[i]])
    ensures forall k :: k in Flush(cache, pending, order, accepts).pending <==> k in order[j..]
    decreases |order|
  {
    EnumerationTail(order, pending.Keys);
    if j == 0 {
      forall q
        ensures q in pending <==> q in order
      {
      }
    } else {
      var k := order[0];
      var rest := pending - {k};
      assert rest.Keys == pending.Keys - {k};
      forall i | 0 <= i < j - 1
        ensures accepts(order[1..][i], rest[order[1..][i]])
      {
        assert order[1..][i] == order[i + 1];
      }
      assert order[1..][j - 1] == order[j];
      FlushStopsAtFailure(cache[k := pending[k]], rest, order[1..], accepts, j - 1);
      assert order[1..][j - 1..] == order[j..];
    }
  }

  /** The pending map after SaveStockUpdate(productId, a) for each `a` of
      `amounts` in turn. */
  function SaveAll(pending: map<int, int>, productId: int, amounts: seq<int>): map<int, int>
    decreases |amounts|
  {
    if amounts == [] then pending
    else SaveAll(AddOrUpdate(pending, productId, amounts[0]), productId, amounts[1..])
  }

  /** The sum of a sequence of amounts. */
  function Sum(amounts: seq<int>): int
    decreases |amounts|
  {
    if amounts == [] then 0 else amounts[0] + Sum(amounts[1..])
  }

  /** Saves accumulate: after a burst of saves for one product its pending
      amount is what was pending before (zero if nothing) plus the sum of all
      saved amounts, and nothing else changed. */
  lemma {:induction false} SaveAllSums(pending: map<int, int>, productId: int, amounts: seq<int>)
    requires amounts != []
    ensures SaveAll(pending, productId, amounts)
            == pending[productId := (if productId in pending then pending[productId] else 0) + Sum(amounts)]
    decreases |amounts|
  {
    var base := if productId in pending then pending[productId] else 0;
    var next := AddOrUpdate(pending, productId, amounts[0]);
    if |amounts| == 1 {
      assert amounts[1..] == [];
      assert next == pending[productId := base + amounts[0]];
    } else {
      SaveAllSums(next, productId, amounts[1..]);
      assert next[productId := base + amounts[0] + Sum(amounts[1..])]
             == pending[productId := base + Sum(amounts)];
    }
  }

  /** As written, two saves for a product with nothing pending, followed by a
      pass the warehouse accepts, send the SUM of the two saved amounts and
      leave that sum in the cache, not the amount saved last. */
  lemma SummedSavesFlushSum(cache: map<int, int>, pending: map<int, int>, productId: int,
                            first: int, second: int, order: seq<int>, accepts: (int, int) -> bool)
    requires productId !in pending
    requires IsEnumeration(order, SaveAll(pending, productId, [first, second]).Keys)
    requires forall i :: 0 <= i < |order| ==>
               accepts(order[i], SaveAll(pending, productId, [first, second])[order[i]])
    ensures var r := Flush(cache, SaveAll(pending, productId, [first, second]), order, accepts);
            && productId in r.cache && r.cache[productId] == first + second
            && Write(productId, first + second) in r.writes
            && (first != 0 ==> r.cache[productId] != second)
  {
    var queued := SaveAll(pending, productId, [first, second]);
    SaveAllSums(pending, productId, [first, second]);
    assert Sum([first, second]) == first + second by {
      assert [first, second][1..] == [second];
      assert [second][1..] == [];
      assert Sum([second]) == second;
    }
    FlushAllAccepted(cache, queued, order, accepts);
    assert productId in queued.Keys;
    assert productId in order;
    var i :| 0 <= i < |order| && order[i] == productId;
    assert Flush(cache, queued, order, accepts).writes[i] == Write(productId, first + second);
  }

  /** The concrete instance: with 3 in the cache, saving 7 and then 13 and
      flushing sends 20 to the warehouse and leaves 20 in the cache. */
  lemma SaveSevenThenThirteen(accepts: (int, int) -> bool)
    requires accepts(1, 20)
    ensures var r := Flush(map[1 := 3], SaveAll(map[], 1, [7, 13]), [1], accepts);
            r.cache == map[1 := 20] && r.writes == [Write(1, 20)] && r.pending == map[]
  {
    assert SaveAll(map[], 1, [7, 13]) == map[1 := 20] by {
      SaveAllSums(map[], 1, [7, 13]);
      assert [7, 13][1..] == [13];
      assert [13][1..] == [];
    }
    assert [1][1..] == [];
  }

  /** With the latest amount recorded, as the batching processor's enqueue
      does, a burst of saves followed by a pass the warehouse accepts sends
      exactly the last saved amount, once, and leaves the cache agreeing with
      the last save. */
  lemma {:induction false} LatestSavesFlushLast(cache: map<int, int>, pending: map<int, int>, productId: int,
                                                amounts: seq<int>, order: seq<int>, accepts: (int, int) -> bool)
    requires amounts != []
    requires IsEnumeration(order, Batching.EnqueueAll(pending, productId, amounts).Keys)
    requires forall i :: 0 <= i < |order| ==>
               accepts(order[i], Batching.EnqueueAll(pending, productId, amounts)[order[i]])
    ensures var r := Flush(cache, Batching.EnqueueAll(pending, productId, amounts), order, accepts);
            && productId in r.cache && r.cache[productId] == Last(amounts)
            && exists i :: 0 <= i < |r.writes| && r.writes[i] == Write(productId, Last(amounts))
                           && forall j :: 0 <= j < |r.writes| && r.writes[j].productId == productId ==> j == i
  {
    var queued := Batching.EnqueueAll(pending, productId, amounts);
    Batching.EnqueueAllKeepsLast(pending, productId, amounts);
    FlushAllAccepted(cache, queued, order, accepts);
    var writes := Flush(cache, queued, order, accepts).writes;
    assert productId in queued.Keys;
    assert productId in order;
    var i :| 0 <= i < |order| && order[i] == productId;
    assert writes[i] == Write(productId, Last(amounts));
  }

  /** The service: the in-memory cache, the pending updates, and the calls it
      made to the warehouse. */
  class InventoryService {
    /** Product id to the stock the service last saw or saved. */
    var cache: map<int, int>
    /** Product id to the amount awaiting the next pass. */
    var updateDictionary: map<int, int>
    /** The UpdateStock calls the warehouse accepted, oldest first. */
    ghost var log: seq<Write>
    /** The products whose stock was fetched from the warehouse, oldest first. */
    ghost var fetches: seq<int>

    constructor ()
      ensures cache == map[] && updateDictionary == map[] && log == [] && fetches == []
    {
      cache := map[];
      updateDictionary := map[];
      log := [];
      fetches := [];
    }

    /** A hit answers from the cache without asking the warehouse; a miss asks
        the warehouse once and caches its answer. A failed fetch leaves no
        entry behind. */
    method GetProductStock(productId: int, getStock: int -> Option<int>) returns (stock: Option<int>)
      modifies this
      ensures productId in old(cache) ==>
                stock == Some(old(cache)[productId]) && cache == old(cache) && fetches == old(fetches)
      ensures productId !in old(cache) ==>
                && stock == getStock(productId)
                && fetches == old(fetches) + [productId]
                && cache == (if stock.Some? then old(cache)[productId := stock.value] else old(cache))
      ensures updateDictionary == old(updateDictionary) && log == old(log)
    {
      if productId in cache {
        stock := Some(cache[productId]);
      } else {
        fetches := fetches + [productId];
        stock := getStock(productId);
        if stock.Some? {
          cache := cache[productId := stock.value];
        }
      }
    }

    /** The cache takes the new amount at once; the pending entry adds it to
        what is already pending. No other product changes. */
    method SaveStockUpdate(productId: int, newAmount: int)
      modifies this
      ensures cache == old(cache)[productId := newAmount]
      ensures updateDictionary == AddOrUpdate(old(updateDictionary), productId, newAmount)
      ensures log == old(log) && fetches == old(fetches)
    {
      cache := cache[productId := newAmount];
      updateDictionary := AddOrUpdate(updateDictionary, productId, newAmount);
    }

    /** Send one amount; only when the warehouse accepts it does the cache
        take it. */
    method UpdateProductStock(productId: int, newAmount: int, accepts: (int, int) -> bool) returns (ok: bool)
      modifies this
      ensures ok == accepts(productId, newAmount)
      ensures ok ==> log == old(log) + [Write(productId, newAmount)] && cache == old(cache)[productId := newAmount]
      ensures !ok ==> log == old(log) && cache == old(cache)
      ensures updateDictionary == old(updateDictionary) && fetches == old(fetches)
    {
      ok := accepts(productId, newAmount);
      if ok {
        log := log + [Write(productId, newAmount)];
        cache := cache[productId := newAmount];
      }
    }

    /** One pass over the pending products in dictionary order `order`. */
    method ProcessQueue(order: seq<int>, accepts: (int, int) -> bool)
      requires IsEnumeration(order, updateDictionary.Keys)
      modifies this
      ensures cache == Flush(old(cache), old(updateDictionary), order, accepts).cache
      ensures updateDictionary == Flush(old(cache), old(updateDictionary), order, accepts).pending
      ensures log == old(log) + Flush(old(cache), old(updateDictionary), order, accepts).writes
      ensures fetches == old(fetches)
    {
      ghost var pass := Flush(cache, updateDictionary, order, accepts);
      ghost var log0 := log;
      var i := 0;
      while i < |order|
        invariant 0 <= i <= |order|
        invariant Flush(cache, updateDictionary, order[i..], accepts).cache == pass.cache
        invariant Flush(cache, updateDictionary, order[i..], accepts).pending == pass.pending
        invariant log + Flush(cache, updateDictionary, order[i..], accepts).writes == log0 + pass.writes
        invariant fetches == old(fetches)
        decreases |order| - i
      {
        var productId := order[i];
        assert order[i..][1..] == order[i + 1..];
        if productId in updateDictionary {
          var newStock := updateDictionary[productId];
          var ok := UpdateProductStock(productId, newStock, accepts);
          if !ok {
            return;
          }
          updateDictionary := updateDictionary - {productId};
        }
        i := i + 1;
      }
      assert order[i..] == [];
    }
  }

  /** Two reads in a row: if the first one gets a value, the second answers the
      same from the cache, and the warehouse was asked at most once. */
  method ReadTwice(service: InventoryService, productId: int, getStock: int -> Option<int>)
    returns (first: Option<int>, second: Option<int>)
    modifies service
    ensures first.Some? ==> second == first
    ensures first.Some? ==> |service.fetches| <= |old(service.fetches)| + 1
    ensures productId in old(service.cache) ==> first == Some(old(service.cache)[productId])
  {
    first := service.GetProductStock(productId, getStock);
    second := service.GetProductStock(productId, getStock);
  }

  /** A save is visible to the next read, which does not ask the warehouse. */
  method SaveThenRead(service: InventoryService, productId: int, newAmount: int, getStock: int -> Option<int>)
    returns (stock: Option<int>)
    modifies service
    ensures stock == Some(newAmount)
    ensures service.fetches == old(service.fetches)
  {
    service.SaveStockUpdate(productId, newAmount);
    stock := service.GetProductStock(productId, getStock);
  }
}
