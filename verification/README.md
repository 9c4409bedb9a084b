# Verification of the shop's transactional core

A Dafny model of the parts of the shop where concurrent requests meet: checkout, wallet, payment, stock and cart
transactions on PostgreSQL; the cache-aside helper with its Redis lock; and the chunked batch jobs. Check it with
`dafny verify dfyconfig.toml`.

## How the model is built

Three descriptions of the same services are kept side by side and proved to agree.

* **Serial reference** (`Schema`, `Serial`). One committed transaction is an `Event` with the inputs it acted on;
  `Accepts` says when the service, run alone, commits, and `Perform` gives the tables afterwards. `Replay` runs a whole
  history. `RowByRow` spells the events out on the rows; `Ledger`, `Orders`, `Wallets` and `Evolution` prove what every
  history keeps.
* **Interleaved engine** (`Engine`). Any number of calls run at once. One step is one atomic action: a lock-free read, a
  blocking row lock, a conditional UPDATE, a private write, a commit, or a crash with rollback. PostgreSQL's READ
  COMMITTED level is assumed: a blocked lock or UPDATE sees the latest committed row, locks last until the transaction
  ends, uncommitted writes are invisible. `Serializable` proves that every run equals its committed history;
  `Guarantees`, `Commits`, `CartRuns`, `CartReads`, `Billing`, `Overlaps`, `Contention`, `Deadlock` and `Progress` carry
  the results over to runs, `Refusals` shows that engine and services decide alike, and `CheckoutRuns` holds explicit
  runs.
* **The services themselves** (`Services`, `WalletTask`, `Batch`). A class `Store` whose fields are the tables, with one
  method per service, loops and in-place updates as in the source. Each method is proved to do exactly its `Perform` or
  to leave the tables alone. Retry loops take an arbitrary schedule of what other transactions commit between their
  statements (`Interference`).

`CacheLock` is a timed state machine of the cache helper (clock, key expiry, crashes, invalidations, any number of
clients), with more results about its runs in `LockHolder` and `CacheWrites`; `CacheClient` is the helper as a method on
a Redis shared with all of them, and each of its commands is proved to be a step of that machine.

Money is an integer number of cents, times are in milliseconds, and database row ids that were committed are never
reused. The time of a cart edit (inserts and exact changes store it in `updated_at`, optimistic adds do not), the set of
orders in the reporting window, the id that a sequence hands out, whether a cache callback raises, when a task dies and
what others do meanwhile are parameters.

## Model

| member | source | states |
|---|---|---|
| `Serializable.RunsAreSerializable` | apps/orders/services.py:45-94 | in every reachable state of every run of any mix of services, the committed tables are what the committed transactions produce one after another in commit order |
| `Serializable.CommitIsAtomic` | apps/orders/services.py:181-252 | a commit changes the tables exactly as the requested service would, alone, on the tables of that moment; for a checkout, with the cart lines it read earlier |
| `CartReads.OrdersBillTheCart` | apps/orders/services.py:34-38 | every order of every run bills exactly the lines and quantities that were in its user's cart in the step in which its call read it; for a wallet order, while it held the user's row |
| `CartReads.DeletesOnlyWhatItReadExactly` | apps/orders/services.py:94 | the final DELETE takes only billed rows iff nobody inserted one of them since the cart was read, and takes them only as they were read iff nobody altered one either |
| `CartReads.RowUnalteredExactly` | apps/orders/services.py:252 | over any history, a row that is there was there, or there unchanged, iff no transaction inserted, or altered, it |
| `CheckoutRuns.AddedUnitVanishes` | apps/orders/services.py:181-252 | a run, by card and by wallet alike, in which a unit added to the cart during a checkout is deleted unbilled |
| `Guarantees.HistoryIsTheCommits` | apps/orders/services.py:17-94 | the history lists exactly the committed transactions, each once; refused, conflicting and crashed ones leave no trace |
| `Serializable.DeductionNeverFails` | apps/orders/services.py:59-61 | once the validation loop has passed under the locks, no deduction of that checkout can fail |
| `Serializable.EffectIsPerform` | apps/orders/services.py:59-94 | the rows a transaction writes from copies of its locked rows are the serial result |
| `Serializable.EffectLocal` | apps/orders/services.py:45-61 | acceptance and effect depend only on the rows the transaction has locked |
| `Guarantees.StockIsExplained` | apps/products/services.py:56-80 | no lost update and no oversell: stock is initial stock plus logged changes, version counts log entries, stock stays non-negative, under any mix of optimistic and locked writers |
| `Ledger.LedgerExplainsStock` | apps/products/services.py:126-140 | the same over every serial history |
| `Guarantees.UnitsAddUp` | apps/orders/services.py:59-83 | in every run, initial stock plus restocked units is current stock plus units in all order items (cancelled ones included) plus standalone deductions |
| `Ledger.UnitsConserved` | apps/products/services.py:191-206 | the same over every serial history |
| `Ledger.SaleExplained` | apps/orders/services.py:59-83 | what the deduction loop takes, logs and puts into order items is the same number of units |
| `Guarantees.SameVersionSameRow` | apps/cart/services.py:39-51 | no ABA at any two moments of a run: equal row id and version mean the same row and quantity, equal product version the same stock, deleted ids never return |
| `Evolution.NoAba` | apps/cart/models.py:39-43 | the same between the ends of every serial history |
| `Evolution.EvolvesStep` | apps/cart/models.py:39-43 | every transaction keeps one row per user and product and moves versions only forward |
| `CartRuns.AddsToTheCurrentQuantity` | apps/cart/services.py:39-92 | a committing add raises the user's row of the product from the quantity it has at its commit, or inserts the first such row; nothing else changes |
| `Commits.SetLeavesTheQuantity` | apps/cart/services.py:190-199 | when a quantity change commits, the user's row of the product holds exactly the requested quantity, whatever it held before, one version on; nothing else changes |
| `CartRuns.DeletesOnlyItsRows` | apps/cart/services.py:143-173 | removing, clearing, setting to zero and cleaning delete only the rows they are for |
| `Commits.CheckoutCommits` | apps/orders/services.py:49-94 | in every run, a committing checkout bills the servable lines it read: the CONFIRMED order, its pending card or completed wallet payment and the wallet's debit carry their total at the prices of that moment |
| `Commits.CheckoutEmpties` | apps/orders/services.py:94 | in the same commit only rows of its user leave the cart table, and no other row of it changes |
| `Commits.CheckoutSells` | apps/products/services.py:124-140 | in the same commit each product of the lines loses exactly its quantity and gains one version; others keep their rows |
| `Commits.OrderWritersCommit` | apps/orders/services.py:120-139 | in every run, a payment completes a pending payment of an uncancelled order the payer may pay, with the requested method; a cancellation cancels its owner's PENDING or CONFIRMED order; a status update sets the requested status |
| `Commits.StockWritersCommit` | apps/products/services.py:191-206 | in every run, a restock adds and an optimistic deduction takes exactly its units, with one version and one log entry |
| `RowByRow.PurchaseRows` | apps/orders/services.py:59-94 | a serial checkout, field by field: order, items, payment, wallet, cart rows and log entries |
| `RowByRow.RefusalReason` | apps/orders/services.py:49-57 | the validation loop stops at the first line that cannot be served, for that line's own reason |
| `Refusals.CheckoutDecides` | apps/orders/services.py:49-57 | with its rows locked, an interleaved checkout is refused exactly when, and for the reason for which, the service would refuse its lines on the tables of that moment |
| `Services.VerdictExactly` | apps/orders/services.py:208-217 | a cart passes iff the serial purchase is accepted; an empty cart, the first unservable line, and by wallet a balance below the total, are the only reasons, in this order |
| `Guarantees.OrdersAreWhole` | apps/orders/services.py:64-92 | in every run each order has items and exactly one payment, and total, items and payment agree on the amount |
| `Orders.OrderIntegrity` | apps/orders/services.py:208-250 | the same over every serial history |
| `Guarantees.PaymentsCompleteOnce` | apps/orders/services.py:122-139 | however calls race, a payment is COMPLETED iff exactly one of process_payment and wallet checkout completed it, never twice |
| `Orders.PaymentCompletesOnce` | apps/orders/services.py:127-136 | the same over every serial history, administrative status updates included |
| `Orders.CompletedStays` | apps/orders/services.py:130-136 | a COMPLETED payment keeps its status, amount and method whatever commits later |
| `Guarantees.CardOrdersAreNotPaidAndCancelled` | apps/orders/services.py:127-139 | without administrative status updates no card order is both CANCELLED and paid, in any interleaving |
| `Orders.CancelledAndPaid` | apps/orders/services.py:284-294 | exactly when an order is both CANCELLED and paid: it was bought by wallet and then cancelled |
| `Orders.WalletOrderCancelledThoughPaid` | apps/orders/services.py:242-250 | the concrete case, in which neither stock nor money comes back |
| `Guarantees.WalletsAddUp` | apps/orders/services.py:181-223 | in every run a wallet is its initial balance minus that user's wallet order totals, and never negative |
| `Wallets.BalanceExplained` | apps/orders/services.py:208-226 | the same over every serial history |
| `Billing.WalletBillsOnce` | apps/orders/tasks.py:122-156 | wallet checkouts queued, delivered and retried any number of times, with cart edits in between, never bill a cart row twice |
| `Overlaps.OneAtATimeBillsOnce` | apps/orders/services.py:34-94 | as long as no two checkouts of one user overlap, no cart row is billed twice, for any mix of card and wallet checkouts and whatever else happens to the carts |
| `Overlaps.BilledOnceExactly` | apps/orders/services.py:34-94 | where rows leave carts only by the checkouts that bill them, no row is billed twice iff no two checkouts of one user overlap, that is, each read its cart only after the user's earlier orders had committed |
| `Overlaps.BilledOnceByCarts` | apps/orders/services.py:34-38 | with any inserts, changes and removals: no row is billed twice iff overlapping checkouts of one user find carts without a common row when they read them |
| `Overlaps.OneCallAtATimeBillsOnce` | apps/orders/services.py:34-38 | in particular, a user who calls the next checkout only after the one before has committed is never billed twice for a row |
| `Billing.OwnRowsDeletedExactly` | apps/orders/services.py:94 | a guard for the service itself: where rows have left and leave carts only by the checkouts that bill them, no row is billed twice iff every checkout deletes all the rows it bills |
| `Billing.DeletedRowsBilledOnce` | apps/orders/services.py:94 | deleting all billed rows suffices even when other services remove rows too |
| `CheckoutRuns.CardBillsTwice` | apps/orders/services.py:34-38 | a run in which two card checkouts of one user read the same cart and both bill it |
| `Contention.ExactlyTheStockIsSold` | apps/core/management/commands/seed_ecommerce.py:178-182 | n one-unit card checkouts of a product with stock S: exactly min(S, n) succeed and S - min(S, n) units are left, in every interleaving |
| `Deadlock.AcquiresInOrder` | apps/orders/services.py:43-48 | all that a transaction holds precedes, in the global order, what it asks for next |
| `Deadlock.NoWaitCycle` | apps/orders/services.py:122-125 | the wait-for graph of every reachable state is acyclic |
| `Deadlock.BlockedMeansWaiting` | apps/orders/services.py:181-196 | an unfinished transaction that cannot step waits for another's key, so that the graph has all the edges there are |
| `Deadlock.NoDeadlock` | apps/orders/services.py:181-196 | while a transaction is unfinished, some transaction can step without crashing |
| `Progress.StepsAreBounded` | apps/orders/services.py:45-61 | without new calls a run goes on for at most as many steps as the open transactions had left, in whatever order they take them |
| `Progress.AllCanFinish` | apps/orders/services.py:17-94 | from every reachable state some continuation, without new calls and without crashes, brings every call to its end |
| `Progress.StuckMeansDone` | apps/orders/services.py:181-196 | a run that can only go on by new calls has finished all of them |
| `Services.Store.CreateOrderFromCart` | apps/orders/services.py:23-94 | refused with the right reason and untouched tables, or exactly one purchase of the listed cart |
| `Services.Store.CheckoutWithWallet` | apps/orders/services.py:169-252 | the same for the wallet, with the debit; LowBalance iff all lines can be served and the balance is below their total |
| `WalletTask.ProcessWalletPaymentAsync` | apps/orders/tasks.py:122-156 | at most four deliveries, with any commits of others in between, each rolled back, dead after its commit, or finished: each makes at most one purchase, of the cart of its moment; no cart row is billed by two; the task ends with a purchase, a refusal or its last retry |
| `Services.Store.ProcessPayment` | apps/orders/services.py:120-139 | each outcome has its exact condition: not found or not the payer's, cancelled, already paid, or paid with the requested method and PROCESSING |
| `Services.Store.CancelOrder` | apps/orders/services.py:284-294 | each outcome has its exact condition: not found or not the owner's, not PENDING or CONFIRMED, or CANCELLED and nothing else |
| `Services.Store.UpdateOrderStatus` | apps/orders/services.py:312-318 | sets the status of an existing order and nothing else |
| `Services.Store.CheckLines` | apps/orders/services.py:49-57 | the first cart line that cannot be served, or none |
| `Services.Store.LockProducts` | apps/orders/services.py:43-48 | exactly the existing products of the cart are read under lock |
| `Services.Store.DeductStockPessimistic` | apps/products/services.py:124-140 | deducts, bumps the version and logs iff the stock suffices |
| `Services.Store.DeductLines` | apps/orders/services.py:59-61 | the whole loop equals the serial sale and never stops half-way |
| `Serial.ValidatedNeverFails` | apps/orders/services.py:49-61 | after validation each line still meets its full stock when its turn comes, because a cart names a product once |
| `Services.Store.PlaceOrder` | apps/orders/services.py:70-94 | order, items and payment appear under a new id and the user's cart is emptied |
| `Services.Store.RestockProduct` | apps/products/services.py:191-206 | adds the units, whatever their sign, bumps the version and logs, or reports a missing product; a positive amount, which is all the view lets through, is the serial restock |
| `Services.Store.DeductStockOptimistic` | apps/products/services.py:38-81 | with any commits between snapshot and UPDATE: deducts once from the current row, raises iff the snapshot was short, and reports a conflict iff there was no active product or the version moved |
| `Services.Store.DeductStockWithRetry` | apps/products/services.py:92-116 | True is exactly one deduction by this call, an exception is none, under every schedule of others |
| `Services.LostToAWriter` | apps/products/services.py:65-72 | each attempt lost on an active product was lost to another committed stock write of that row during the attempt |
| `Interference.ConflictMeansProgress` | apps/products/services.py:56-63 | a moved version means that some transaction in between wrote that product's stock |
| `Services.Store.TryAddToCartOptimistic` | apps/cart/services.py:23-92 | one attempt adds once; raises not found iff the product is missing or inactive at its snapshot, out of stock iff its stock is below the quantity; or conflicts |
| `Services.SpoiledExactly` | apps/cart/services.py:45-68 | an attempt conflicts iff the row it found was changed or deleted, or a row appeared where it found none, or the quantity would be negative |
| `Services.AddMeans` | apps/cart/services.py:102-135 | what a whole add has done when its n-th attempt was the last: each exception's exact condition and no effect, or one row added to or inserted |
| `Services.Store.AddToCart` | apps/cart/services.py:102-135 | a normal return is exactly one increment or insert; every exception is no effect, and comes at once from a product that cannot be added or after the last retry |
| `Services.Store.RemoveFromCart` | apps/cart/services.py:143-166 | exactly the user's rows of other products and other users' rows stay, unchanged, and the result says whether there was one |
| `Services.Store.ClearCart` | apps/cart/services.py:169-173 | deletes exactly the user's rows and counts them |
| `Services.Store.UpdateCartItemQuantity` | apps/cart/services.py:185-207 | the row holds exactly the requested quantity, one version on, with the time of the change; removed at zero or less; a missing row is reported; no other row changes |
| `Batch.SlicesPartition` | apps/core/tasks.py:91-92 | for every positive chunk size the slices are non-empty, no longer than it, and join to the id list |
| `Batch.SlicesCount` | apps/core/tasks.py:106-111 | their number is the length divided by the chunk size, rounded up |
| `Batch.RunDailySalesNaive` | apps/core/tasks.py:155-178 | exactly the window's orders that are neither PENDING nor CANCELLED, each once, and the sum of their totals |
| `Batch.DailySalesExactly` | apps/core/tasks.py:66-77 | over every history without status updates these are exactly the window's orders that were bought and never cancelled, and their revenue is the money on their items |
| `Batch.RunDailySalesBatch` | apps/core/tasks.py:72-112 | the chunk aggregates add up to that sum although others commit before and between the chunks |
| `Batch.CompareWithNaive` | apps/core/tasks.py:130-178 | run on the same tables, both tasks report the same orders and the same revenue, namely the totals of exactly the orders that count as sales |
| `Batch.CleanupAbandonedCarts` | apps/cart/tasks.py:31-62 | all rows stale at the start are gone at the end whatever others commit; undisturbed, exactly those are removed and counted, in ceil(n/k) chunks |
| `Batch.CleanupSparesActiveExactly` | apps/cart/tasks.py:33-52 | the cleanup removes only rows that last changed before the cutoff iff no row whose last insert or exact quantity change is older than the cutoff was added to since |
| `Batch.StaleIsInactiveExactly` | apps/cart/services.py:45-51 | the same row by row: exactly when a row counts as stale, and exactly when it does so while active |
| `Batch.TouchedIsLastStored` | apps/cart/services.py:45-51 | a row's timestamp is that of its last insert or exact quantity change, over any history of adds |
| `Batch.CleanupRemovesActiveRow` | apps/core/tasks.py:232-243 | a history whose cleanup removes a row last changed after the cutoff |
| `Batch.AddThenCleanUp` | apps/core/tasks.py:232-243 | with the services themselves: an add after the cutoff to a row last set before it, then a cleanup, and the whole row is gone |
| `CacheLock.MutualExclusion` | apps/products/cache_utils.py:82-90 | two clients between acquire and release whose locks have not expired are the same client |
| `LockHolder.HolderExactly` | apps/products/cache_utils.py:82-90 | in every run, a client that took the lock and has not released it, crashed or not, holds it iff less than the lock's time to live has passed since |
| `LockHolder.ReleaseExactly` | apps/products/cache_utils.py:25-31 | a release removes the lock iff it comes within that time; a late one changes nothing, so a successor keeps its lock |
| `LockHolder.LateOwnerWrites` | apps/products/cache_utils.py:155-158 | a run in which an owner writes the cache while another client holds the lock |
| `LockHolder.InvalidationLastsExactly` | apps/products/cache_utils.py:187-202 | an invalidation keeps every older value out of the cache, however the run goes on, iff at that moment no client is between its callback's database read and its cache write |
| `LockHolder.InvalidatedCacheAgrees` | apps/products/cache_utils.py:187-202 | then cache and database agree for as long as the database does not change |
| `LockHolder.OlderValueComesBack` | apps/products/cache_utils.py:155-158 | a run in which an invalidation during a rebuild is overwritten by the older value |
| `CacheLock.StampedeBound` | apps/products/cache_utils.py:144-161 | owner rebuilds of any run are at most one, plus one per expired lock, per deleted or expired entry and per callback that raised |
| `CacheLock.OneRebuildServesAll` | apps/products/cache_utils.py:118-124 | one rebuild when nothing expires, is deleted or raises |
| `CacheLock.BoundedStaleness` | apps/products/cache_utils.py:137-158 | a value from the cache was the database's less than TTL plus its writer's rebuild time before it was read, whatever is invalidated or rebuilt meanwhile |
| `CacheWrites.OnlyOwnersWrite` | apps/products/cache_utils.py:144-158 | in every run, whatever is put into the cache is put there by a client that took the free lock in an earlier step of its own, and is what its callback read; a client that waits or falls back never writes |
| `CacheWrites.EntryLastsItsTime` | apps/products/cache_utils.py:157 | an entry leaves the cache only by an invalidation or when its time to live is over, and is never there any longer |
| `CacheWrites.ClientsLook` | apps/products/cache_utils.py:137-184 | whenever a client gets on, it has looked at cache, lock and clock as they are: it misses only without an entry, waits only when the lock is taken, falls back only after its deadline |
| `CacheLock.WaiterBound` | apps/products/cache_utils.py:163-170 | an n-th wait iteration satisfies d * n * (n - 1) / 2 < T in every run |
| `CacheClient.Redis.GetOrSetCacheWithDistributedLock` | apps/products/cache_utils.py:104-184 | its commands are a run of the protocol; the answer is recently true, no lock is kept, and it always returns; alone, it answers a hit from the cache, rebuilds and stores under a free lock, and otherwise waits out its budget, asks the database and leaves the cache alone |
| `CacheClient.MetadataExactly` | apps/products/cache_utils.py:121-151 | status by status, the metadata tells exactly how the answer came about |
| `CacheClient.Redis.AcquireDistributedLock` | apps/products/cache_utils.py:82-90 | succeeds iff no unexpired lock is there, and then the lock is this client's until its time is up |
| `CacheClient.Redis.ReleaseDistributedLock` | apps/products/cache_utils.py:93-101 | removes the lock iff it carries this client's token |
| `CacheClient.Redis.WaitForOwner` | apps/products/cache_utils.py:163-184 | terminates, a delay of zero included; falls back only after the whole budget; undisturbed it waits exactly d * (1 + ... + n) and leaves the cache entry as it was or expired |
| `CacheClient.DefaultWait` | apps/products/cache_utils.py:22-24 | with the defaults at most 9 iterations, and exactly 2250 ms of ideal sleeps before the fallback |

## Where the code differs from its documentation

* The cleanup task is documented to remove items that were not updated for some days (apps/cart/tasks.py:13-16). An
  optimistic add does not refresh `updated_at`, so active items are removed as well: `Batch.CleanupRemovesActiveRow`,
  `Batch.AddThenCleanUp`; the exact condition is `Batch.CleanupSparesActiveExactly`.
* "Create an order from the user's cart in a single ACID transaction" (apps/orders/services.py:25) does not prevent two
  card checkouts of one user from ordering the same cart, which is read before any lock is taken:
  `CheckoutRuns.CardBillsTwice`; the exact condition is that they overlap, `Overlaps.BilledOnceExactly` and, whatever
  else happens to the carts, `Overlaps.BilledOnceByCarts`.
* Nor does it cover what is added to the cart while the checkout runs, by card or by wallet: the final DELETE takes it
  unbilled: `CheckoutRuns.AddedUnitVanishes`; the exact condition is `CartReads.DeletesOnlyWhatItReadExactly`.
* A cancelled order gives back neither stock nor wallet money, and wallet orders can be cancelled although they are paid:
  `Orders.WalletOrderCancelledThoughPaid`; the exact condition is `Orders.CancelledAndPaid`.
* "Only the lock owner may rebuild and write the cache" (apps/products/cache_utils.py:118) holds of owners whose lock
  has not expired; one that is late still writes: `LockHolder.LateOwnerWrites`; the exact condition is
  `LockHolder.HolderExactly`. Hence the bound on rebuilds counts expiries: `CacheLock.StampedeBound`.
* An invalidation need not last: the write of a rebuild that had read the database before it puts the older value back:
  `LockHolder.OlderValueComesBack`; the exact condition is `LockHolder.InvalidationLastsExactly`. What holds without any
  condition is that answers are recent: `CacheLock.BoundedStaleness`.

## Left out

- Views, serializers, permissions, routing, settings, admin pages, logging, metrics, e-mail tasks, reviews, ratings and
  top-selling queries: they do not change the rows modelled here.
- The deliberately unsafe demonstrations (apps/orders/services_unsafe.py and the unsafe and race-demo endpoints): they
  break the invariants on purpose.
- The administrator's product PATCH: it saves the whole row without a version check. The engine's `Edit` is the
  single-purpose version that changes price and active flag under the row lock.
- update_order_status_task: it writes a status without a lock or a check; `UpdateOrderStatus` is the locked service.
- Product deletion and creation: the set of products is fixed during a run; a missing product is handled.
- Reservations (create_order_lock, release_expired_locks): they constrain neither stock nor checkout.
- Implicit foreign-key share locks and the order in which one multi-row DELETE takes its rows: deadlock freedom is about
  the explicit row locks, the conditional UPDATEs and the cart's unique slot, with a DELETE taking its rows in one step.
  With share locks on the user row, a card and a wallet checkout of one user could still wait for each other.
- Decimal digit limits, 32-bit columns, float formatting of reports, uuid generation, Redis and Celery internals: exact
  integers, unique tokens, atomic SET NX PX and atomic script evaluation are assumed.
- The generic exception branch of add_to_cart (apps/cart/services.py:127-129): a failing database connection is a crash in
  the engine, not an outcome of `AddToCart`.
- A clock that stands still: a retry delay of zero makes the source poll until its deadline, and the model lets each such
  poll take at least a millisecond.
- Cached values of None, which the source treats as a miss for ever: callbacks here return a value or raise, and a
  callback reads the database at one instant.
- A check of the active flag at the optimistic UPDATE: the source checks it only in its snapshot, and so does the model.
- Billing.DeletedRowsBilledOnce: one direction only; with other services removing rows as well, a checkout that deleted
  nothing may still have billed each row once. The iffs without that hypothesis are in `Overlaps`.
- The snapshot of a blocked DELETE: the final DELETE takes all rows the user has in the step in which it happens. Under
  READ COMMITTED a DELETE that waited for a row lock does not see rows inserted while it waited, so that some rows that
  the model deletes may stay in the cart.
- Batch.CleanupAbandonedCarts: with others committing between the chunks, the number of rows removed is only bounded by
  the number of stale rows, since an owner may have removed some first.
