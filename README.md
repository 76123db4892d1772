# Cached inventory: a verified model

The cached-inventory service sits in front of a slow warehouse stock system. The repository holds four attempts at keeping stock figures in process and writing them back to the warehouse later. This project models each one and proves what it does:

- **Event-sourced stock** (`CachedInventoryApiBuilder.cs`, module `EventStock`). The stock of a product is never stored. It is recomputed by folding the product's restock and removal events, in recorded order, starting from an empty product. A removal that asks for more than is in stock is not applied; its request id is recorded as failed. The validate-retrieve and restock handlers decide from this folded stock, or from the warehouse's figure when the product has no events yet. `Default` and `Apply` are pure functions. `GetStockFromEvents` is a method whose loop is proved equal to the recursive fold.
- **Periodic coalescing flush** (`BatchingProcessor.cs`, module `Batching`). Enqueueing keeps only the latest amount per product. A pass takes a snapshot of the pending products. For each one it removes the entry and then sends it to the warehouse. A refused update ends the pass.
- **Read-through cache with a summing queue** (`InventoryService.cs`, module `Inventory`). A read fills the cache on a miss. A save writes the cache at once and *adds* its amount to the product's pending entry. A pass sends each pending entry, writes the sent value back into the cache, and removes the entry.
- **Per-product debounce** (`StockUpdateScheduler.cs`, module `Scheduler`). An enqueue overwrites the pending amount. It then resets the product's one-shot timer to fire 2500 ms later, or creates that timer if there is none. When the timer fires, the pending amount, if there is one, is sent and then removed. Timers stay registered forever.

The warehouse is abstract. Its `GetStock` is a function `int -> Option<int>` in `Inventory`, and the figure it returned, an `Option<int>`, in `EventStock`; `None` means the call threw. Whether it accepts `UpdateStock(k, v)` is a function `accepts: (int, int) -> bool`. Every writer keeps a ghost log of the `UpdateStock` calls the warehouse accepted (`Warehouse.Write`). The order in which a .NET dictionary yields its keys is unspecified, so a pass takes that order as a parameter. The parameter must list each key exactly once (`Enumeration.IsEnumeration`). Time in the scheduler is an abstract clock in milliseconds, passed to each step.

Files: `Warehouse.dfy`, `Sequences.dfy`, `Enumeration.dfy`, `EventStock.dfy`, `Batching.dfy`, `Inventory.dfy`, `Scheduler.dfy`.

## Model

| member | source | states |
|---|---|---|
| `EventStock.Default` | cached-inventory/CachedInventory/CachedInventory/CachedInventoryApiBuilder.cs:184 | the initial state carries the product id, zero stock and no failed request |
| `EventStock.Apply` | cached-inventory/CachedInventory/CachedInventory/CachedInventoryApiBuilder.cs:186-194 | the product id never changes; a restock adds its amount and keeps the failed requests; a removal with enough stock subtracts, leaves stock >= 0 and keeps the failed requests; a removal without enough stock keeps the stock and appends exactly its request id; any other event changes nothing |
| `EventStock.Fold` | cached-inventory/CachedInventory/CachedInventory/CachedInventoryApiBuilder.cs:155-170 | folding keeps the product id; failed requests are only ever appended (the old list is a prefix of the new one), at most one per event |
| `EventStock.FoldSnoc` | cached-inventory/CachedInventory/CachedInventory/CachedInventoryApiBuilder.cs:157-169 | events are applied in list order: folding one more event is applying it to the fold of the earlier ones |
| `EventStock.FoldStockNonNegative` | cached-inventory/CachedInventory/CachedInventory/CachedInventoryApiBuilder.cs:186-194 | from non-negative stock, with every restock amount >= 0, the folded stock is >= 0 |
| `EventStock.StockNonNegativeOnEveryPrefix` | cached-inventory/CachedInventory/CachedInventory/CachedInventoryApiBuilder.cs:155-170 | under the same conditions the stock is >= 0 after every prefix of the events |
| `EventStock.FailedRequestsAreRejections` | cached-inventory/CachedInventory/CachedInventory/CachedInventoryApiBuilder.cs:189-192 | the final failed requests are the starting ones followed by the ids of the removals refused along the way, found by replaying each prefix, in event order; so their number is the number of refused removals |
| `EventStock.ToEvent` | cached-inventory/CachedInventory/CachedInventory/CachedInventoryApiBuilder.cs:160-167 | a row becomes a restock exactly when `IsRestock` holds and a removal otherwise, with the same product and quantity; a removal carries the given request id |
| `EventStock.GetEvents` | cached-inventory/CachedInventory/CachedInventory/CachedInventoryApiBuilder.cs:173-176 | the history holds only rows of the product, all from the store, and every row of the product in the store |
| `EventStock.GetEventsCounts` | cached-inventory/CachedInventory/CachedInventory/CachedInventoryApiBuilder.cs:173-176 | the history holds each row of the product exactly as many times as the store does, and no row of another product |
| `EventStock.GetEventsAppend` | cached-inventory/CachedInventory/CachedInventory/CachedInventoryApiBuilder.cs:173-176 | appending rows to the store appends their rows to each product's history |
| `EventStock.HasPreviousEvents` | cached-inventory/CachedInventory/CachedInventory/CachedInventoryApiBuilder.cs:56 | the "any event for this product" query holds exactly when the product's history is non-empty |
| `EventStock.StockOfMatchesFold` | cached-inventory/CachedInventory/CachedInventory/CachedInventoryApiBuilder.cs:157-169 | the folded stock equals a replay of the stock alone, whatever request ids the fold draws |
| `EventStock.GetStockFromEvents` | cached-inventory/CachedInventory/CachedInventory/CachedInventoryApiBuilder.cs:151-171 | the loop computes the fold of the product's mapped history from `Default`; its stock is the stock-only replay |
| `EventStock.ValidateRetrieve` | cached-inventory/CachedInventory/CachedInventory/CachedInventoryApiBuilder.cs:53-75 | fails exactly when the product has no events and the warehouse read throws; refuses exactly when the current stock is below the amount; the current stock is the warehouse's figure when the product has no events and the folded stock otherwise |
| `EventStock.Seed` | cached-inventory/CachedInventory/CachedInventory/CachedInventoryApiBuilder.cs:119-131 | seeding has nothing to record exactly when the product has no history and the warehouse read throws; otherwise it keeps the store as a prefix, adds at most one row, and adds one exactly when the product had no history |
| `EventStock.SeedKeepsCurrentStock` | cached-inventory/CachedInventory/CachedInventory/CachedInventoryApiBuilder.cs:119-131 | when the current stock is known, seeding gives the product a history whose replay is that stock, and changes no other product's history |
| `EventStock.Restock` | cached-inventory/CachedInventory/CachedInventory/CachedInventoryApiBuilder.cs:115-144 | a restock never answers "not enough stock"; a failed one saves nothing; a successful one keeps the old store as a prefix and ends with the restock row |
| `EventStock.RestockAddsToCurrentStock` | cached-inventory/CachedInventory/CachedInventory/CachedInventoryApiBuilder.cs:115-144 | a restock fails exactly when the product has no history and the warehouse read throws, and then leaves the store unchanged; otherwise the product has history and its current stock is the old current stock plus the amount; other products' histories are unchanged either way |
| `EventStock.Retrieve` | cached-inventory/CachedInventory/CachedInventory/CachedInventoryApiBuilder.cs:80-112 | as written: fails exactly when validation's warehouse read throws; succeeds exactly when the current stock covers the amount, and then appends exactly one removal row; otherwise the store is unchanged |
| `EventStock.RetrieveWithHistory` | cached-inventory/CachedInventory/CachedInventory/CachedInventoryApiBuilder.cs:80-112 | for a product that already has history, the handler as written behaves exactly as the seeded one, so the seeded handler's guarantees hold for it |
| `EventStock.RetrieveWithoutHistoryFails` | cached-inventory/CachedInventory/CachedInventory/CachedInventoryApiBuilder.cs:95-106 | as written, for a product with no events and enough warehouse stock, a retrieve is accepted but its removal is refused on replay: stock 0 and one failed request |
| `EventStock.SeededRetrieveLowersStock` | cached-inventory/CachedInventory/CachedInventory/CachedInventoryApiBuilder.cs:95-106 | with the product seeded first, a retrieve fails exactly when the warehouse read it needs throws, is accepted exactly when stock suffices and then lowers the replayed stock by the amount; a retrieve that is not accepted leaves the store unchanged |
| `Batching.Drain` | cached-inventory/CachedInventory/CachedInventory/BatchingProcessor.cs:56-66 | a pass only removes pending entries and never changes a remaining amount; every update sent is of a product that was pending, with its pending amount, and that product is no longer pending |
| `Batching.DrainAllAccepted` | cached-inventory/CachedInventory/CachedInventory/BatchingProcessor.cs:56-66 | when every update is accepted, the pass leaves nothing pending and sends exactly one update per snapshot product, in snapshot order, with the amount removed for it |
| `Batching.DrainStopsAtFailure` | cached-inventory/CachedInventory/CachedInventory/BatchingProcessor.cs:56-71 | when the update at position j is refused, the pass has sent the first j updates; the refused product is dropped and not retried; exactly the products after it stay pending |
| `Batching.EnqueueAllKeepsLast` | cached-inventory/CachedInventory/CachedInventory/BatchingProcessor.cs:23 | a burst of enqueues for one product leaves only its last amount pending, and nothing else changed |
| `Batching.BurstFlushedOnce` | cached-inventory/CachedInventory/CachedInventory/BatchingProcessor.cs:20-66 | N enqueues for a product followed by a fully accepted pass produce exactly one update for it, carrying the N-th amount |
| `Batching.BatchingProcessor.constructor` | cached-inventory/CachedInventory/CachedInventory/BatchingProcessor.cs:12-17 | starts with nothing pending and no update sent |
| `Batching.BatchingProcessor.EnqueueStockUpdate` | cached-inventory/CachedInventory/CachedInventory/BatchingProcessor.cs:20-25 | the product's pending amount becomes the new amount whatever it was (last value wins); every other product and the log are unchanged |
| `Batching.BatchingProcessor.ExecutePendingUpdates` | cached-inventory/CachedInventory/CachedInventory/BatchingProcessor.cs:43-77 | the pending map and the log become those of `Drain` over the snapshot; with nothing pending nothing is sent and nothing changes |
| `Inventory.AddOrUpdate` | cached-inventory/CachedInventory/CachedInventory/InventoryService.cs:48 | the pending map gains the product; a product already pending has the new amount added to what was pending; a new one gets the amount; every other entry is unchanged |
| `Inventory.Flush` | cached-inventory/CachedInventory/CachedInventory/InventoryService.cs:52-73 | a pass sends at most one update per position of the enumeration order |
| `Inventory.FlushSendsWhatItRemoves` | cached-inventory/CachedInventory/CachedInventory/InventoryService.cs:52-73 | whatever the warehouse answers, a pass only removes pending entries and never changes a remaining amount; each removed product had its pending amount sent and written into the cache; each sent product was removed, with its pending amount; every other cache entry is as it was |
| `Inventory.FlushAllAccepted` | cached-inventory/CachedInventory/CachedInventory/InventoryService.cs:52-73 | when every update is accepted, nothing stays pending; one update per product is sent, in order, with its pending amount; the cache becomes the old cache overridden by the pending amounts |
| `Inventory.FlushStopsAtFailure` | cached-inventory/CachedInventory/CachedInventory/InventoryService.cs:52-73 | when the update at position j is refused, the first j updates were sent; the refused product and those after it stay pending |
| `Inventory.SaveAllSums` | cached-inventory/CachedInventory/CachedInventory/InventoryService.cs:48 | a burst of saves leaves the product's pending amount at what was pending (zero if nothing) plus the sum of the saved amounts, and nothing else changed |
| `Inventory.SummedSavesFlushSum` | cached-inventory/CachedInventory/CachedInventory/InventoryService.cs:43-73 | as written, two saves then an accepted pass send the sum of the two amounts and leave that sum in the cache, which differs from the last saved amount whenever the first is non-zero |
| `Inventory.SaveSevenThenThirteen` | cached-inventory/CachedInventory/CachedInventory/InventoryService.cs:43-73 | as written, with 3 cached, saving 7 then 13 and flushing sends 20 and leaves 20 in the cache |
| `Inventory.LatestSavesFlushLast` | cached-inventory/CachedInventory/CachedInventory/InventoryService.cs:48 | with the latest amount recorded instead, as the batching processor's enqueue does, a burst of saves and an accepted pass send exactly one update carrying the last amount, and the cache agrees with the last save |
| `Inventory.InventoryService.constructor` | cached-inventory/CachedInventory/CachedInventory/InventoryService.cs:16-24 | starts with an empty cache, nothing pending, and no warehouse call |
| `Inventory.InventoryService.GetProductStock` | cached-inventory/CachedInventory/CachedInventory/InventoryService.cs:26-41 | a hit returns the cached value with no fetch and no change; a miss fetches once, returns the warehouse's answer and caches it; a failed fetch leaves no entry |
| `Inventory.InventoryService.SaveStockUpdate` | cached-inventory/CachedInventory/CachedInventory/InventoryService.cs:43-50 | the cache takes the new amount; the pending entry becomes the new amount if absent, or the old amount plus the new amount if present; no other product changes |
| `Inventory.InventoryService.UpdateProductStock` | cached-inventory/CachedInventory/CachedInventory/InventoryService.cs:68-73 | only when the warehouse accepts the update is it logged and the cache set to the sent amount |
| `Inventory.InventoryService.ProcessQueue` | cached-inventory/CachedInventory/CachedInventory/InventoryService.cs:52-66 | cache, pending map and log become those of `Flush` over the enumeration order |
| `Inventory.ReadTwice` | cached-inventory/CachedInventory/CachedInventory/InventoryService.cs:26-41 | after a read that gets a value, a second read returns the same value, and the warehouse was asked at most once |
| `Inventory.SaveThenRead` | cached-inventory/CachedInventory/CachedInventory/InventoryService.cs:26-50 | a read right after a save returns the saved amount without asking the warehouse |
| `Scheduler.OneShotTimer.constructor` | cached-inventory/CachedInventory/CachedInventory/StockUpdateScheduler.cs:48-65 | a new timer is bound to its product and armed to fire 2500 ms from now |
| `Scheduler.OneShotTimer.Change` | cached-inventory/CachedInventory/CachedInventory/StockUpdateScheduler.cs:44 | changing a timer re-arms it to fire 2500 ms from now |
| `Scheduler.StockUpdateScheduler.constructor` | cached-inventory/CachedInventory/CachedInventory/StockUpdateScheduler.cs:12-18 | starts with nothing pending and no timer |
| `Scheduler.StockUpdateScheduler.EnqueueStockUpdate` | cached-inventory/CachedInventory/CachedInventory/StockUpdateScheduler.cs:20-26 | the pending amount becomes the new amount (last value wins); the product's timer, existing or new, is armed to fire 2500 ms from now; other products' amounts and timers are unchanged |
| `Scheduler.StockUpdateScheduler.ScheduleStockUpdate` | cached-inventory/CachedInventory/CachedInventory/StockUpdateScheduler.cs:40-68 | an existing timer is the same object, reset to now + 2500; with none, a fresh timer with that deadline is registered; the registry only grows, and each product has one timer bound to it |
| `Scheduler.StockUpdateScheduler.Fire` | cached-inventory/CachedInventory/CachedInventory/StockUpdateScheduler.cs:48-65 | a due timer fires once and is spent; if an amount is pending and accepted, exactly one update with that amount is logged and the product stops being pending; otherwise nothing is sent and the pending map is unchanged; timers of other products and the registry are unchanged |
| `Scheduler.DebouncedBurst` | cached-inventory/CachedInventory/CachedInventory/StockUpdateScheduler.cs:20-68 | N enqueues, each less than 2500 ms after the previous one, keep the timer from being due before the next enqueue; the firing after quiet sends exactly one update, carrying the N-th amount |

## Left out

- HTTP and hosting are not modelled: endpoint wiring, Swagger, logging and HTTPS redirection. The retrieve handler's self-call to `/stock/validate-retrieve` is also left out; the model validates the request's own product id. The source's validate-retrieve handler takes the product id as a separate parameter and not from the request body.
- `EventStock.Retrieve` and `EventStock.Restock` are functions on the event store value, not in-place updates of the database context. A handler answers one of success, not enough stock, or failure; the HTTP status codes and message texts are not modelled. Inserting into the database context, saving changes and the timestamp ordering of the query are not modelled. The store is a sequence that is already ordered.
- `EventStoreContext.cs` is not part of this model. It is only the database context and its row class.
- The warehouse client is not modelled as network calls. Its read is the `getStock` parameter in `Inventory` and the `warehouseStock` figure in `EventStock`, `None` when the call throws; its write outcome is the `accepts` parameter. The answer a call gets depends only on its arguments within one pass.
- Concurrency is not modelled: `ConcurrentDictionary` atomicity, the semaphore, thread-pool timer callbacks, `async void` and the background loops. Each enqueue, save, read, pass and firing is one atomic step. So the model does not show an enqueue that lands while a flush awaits the warehouse and is then removed by the `TryRemove` that follows.
- The timers that drive the passes are not modelled: the one-second loop of the batching service and the five-second timer of the inventory service. `StockUpdateScheduler.ExecuteAsync` only waits, and is left out too. `Scheduler.StockUpdateScheduler.Fire` is a step the environment may take once a timer is due. That a due timer eventually fires is not modelled.
- An exception escaping `ProcessQueue` or the scheduler's timer callback is not modelled beyond its local effect: the pass ends and the product stays pending. Both are `async void` code.
- Inventory.Flush: its own contract only bounds the number of updates a pass sends. Stating more there makes the proofs that use it too costly. What a pass removes, sends and caches is stated by `Inventory.FlushSendsWhatItRemoves`, `Inventory.FlushAllAccepted` and `Inventory.FlushStopsAtFailure`.
- The 10-minute cache expiry is not modelled. The cache is a map with no eviction.
- `Guid.NewGuid()` and `DateTime.UtcNow` are inputs: a sequence of request ids, and the clock value passed to each scheduler step.
- C# `int` overflow is not modelled in `Stock + Amount`, `Stock - Amount`, the summed pending amounts or `now + 2500`. Amounts are unbounded integers.
- The system's specification describes a different failure policy from the code, and the model follows the code. The specification says a failed warehouse write is re-recorded for retry. In the code, the batching pass drops the refused product. The inventory pass and the scheduler leave it pending, and the scheduler does not re-arm its timer. The specification also says a timer is discarded after its flush; the code never removes timers. The reserve and replenish operations that the specification describes, with their invalid-argument checks, are not in these source files.

## Findings

| source | as written | input that shows it | evidently intended | confidence | as-written member | corrected member |
|---|---|---|---|---|---|---|
| cached-inventory/CachedInventory/CachedInventory/InventoryService.cs:48 | `SaveStockUpdate` receives the product's new absolute stock and puts it in the cache. It then adds that amount to any amount already pending. The pass sends the sum and writes the sum back into the cache. | 3 cached for product 1; `SaveStockUpdate(1, 7)`, `SaveStockUpdate(1, 13)`, then a pass: the warehouse gets 20 and the cache reads 20 | The pending entry keeps the latest amount, as the other two writers do, so the pass sends 13 and the cache keeps 13. | medium; not executed | `Inventory.SummedSavesFlushSum` | `Inventory.LatestSavesFlushLast` |
| cached-inventory/CachedInventory/CachedInventory/CachedInventoryApiBuilder.cs:95-106 | A retrieve for a product with no events is validated against the warehouse's stock. It then records only a removal row. Replayed from zero stock, that removal is refused. The path is reached only if the self-call at line 87 validates. As written it likely cannot: the client from `CreateClient()` (line 85, registered at line 27) has no base address for the relative URI, and the validate handler reads its product id from a query parameter (line 53) that the call does not send. So the defect is latent behind that call, which this model abstracts. | warehouse stock 10 for product 1, no events; retrieve 3 is accepted; the folded stock then reads 0 with one failed request | The product is first seeded with the warehouse's stock, as the restock handler does at lines 119-131. The folded stock then reads 7. | low, latent behind the self-call; not executed | `EventStock.RetrieveWithoutHistoryFails` | `EventStock.SeededRetrieveLowersStock` |
