# Orders, stock, outbox, webhooks, CSV and rate limits: a verified model

This project models the parts of the multi-tenant order service that carry its guarantees, and proves
those guarantees with Dafny 4.11: `dafny verify dfyconfig.toml` checks everything.

| file | models |
|---|---|
| `Inventory.dfy` | stock rows, orders' demand on them, stock adjustments |
| `Saga.dfy` | the order saga as a transition system: API calls under idempotency keys, message handlers behind deduplication keys, payments, adjustments, key expiry |
| `SagaOutcomes.dfy` | what each call and each message makes of orders, stock, outbox, keys and reply, and when it is refused |
| `SagaFigures.dfy` | the figures of sold orders, confirmations and charges |
| `SagaOnce.dfy` | how often an order is reserved, confirmed and charged, against the keys that expire |
| `SagaInvariant.dfy`, `SagaLeaks.dfy` | the meaning of `reservedQty`, and stock that leaks into it |
| `SagaRuns.dfy` | short runs that show what the saga does not guarantee |
| `SagaStock.dfy`, `SagaPaths.dfy` | conservation, availability, tenant isolation, the path of an order, how it falls back, idempotent calls |
| `SagaService.dfy`, `Import.dfy` | the services and the worker as a class that updates its store in place, shown to take exactly the saga's steps; the inventory import |
| `Outbox.dfy`, `OutboxSafety.dfy`, `OutboxFinality.dfy`, `OutboxSolo.dfy` | any number of dispatcher loops interleaved at the grain of time, read, claim, publish, write, with crashes; counters, holders and finality for many loops, and what one loop adds |
| `OutboxDispatcher.dfy` | the dispatcher's own loop over rows updated in place; its history is a run of the protocol |
| `Webhooks.dfy` | the webhook delivery queue (both copies) and how fast it drains |
| `TokenBucket.dfy` | the rate limiter's Redis script and its expiring key |
| `Csv.dfy` | the CSV printer and parser |
| `Outlier.dfy` | the three-sigma order filter |
| `Wrappers.dfy`, `Steps.dfy` | the option type; inductions over sequences of states |

Each API call and each message handler of the saga is one atomic step, including the status read made
before the transaction. A run is any sequence of steps: any outbox row may be received any number of
times and in any order, a handler may die after its deduplication key was set, payments arrive at will,
keys expire as explicit steps. `held`, `delta`, the counters of an outbox row and `posts` are history
variables: no step reads them. Prices are integer cents. Times in the outbox are milliseconds.

What the code does not guarantee is proved with the exact condition under which it fails, and where a
run is given, that run is an instance of it:

- an order is reserved or charged twice: `SagaOnce.ReservedTwiceIff`, `SagaOnce.ChargedTwiceIff`
  (runs: `SagaRuns.ReservedTwiceAfterExpiry`, `SagaRuns.ChargedTwiceAfterExpiry`);
- stock leaks into `reservedQty`: `SagaLeaks.LeakedIff` (runs: `SagaRuns.LeakedByCancel`,
  `SagaRuns.LeakedByRefusal`);
- `reservedQty` is not what orders hold, or not what RESERVED orders ask for:
  `SagaInvariant.ReservedQtyIsHeldIff`, `SagaLeaks.ReservedQtyIsExactIff` (the same runs);
- `availableQty` goes negative: `SagaStock.OversoldIff` (run: `SagaRuns.OversoldByRepeatedSku`);
- a cancelled order comes back, a sold one falls back: `SagaPaths.LeavesCancelledIff`,
  `SagaPaths.LeavesSoldIff`, `SagaPaths.SoldFallsBackIff` (run: `SagaRuns.ShippedThenCancelled`);
- imported orders are never reserved: `SagaPaths.ImportedOrdersAreNeverReserved`;
- a deduplication key set for another tenant's order: `SagaStock.ForeignKeysIff`
  (run: `SagaRuns.ForeignKeySet`);
- two loops hold one event: `OutboxSafety.DoubleHoldIff` (run: `OutboxSafety.LeaseRunsFromThePoll`);
- a SENT or a DEAD row is taken up again: `OutboxFinality.SentIsFinalIff`, `OutboxFinality.DeadIsFinalIff`
  (runs: `OutboxFinality.SentIsNotFinal`, `OutboxFinality.DeadIsNotFinal`);
- expiry of the rate limiter's key shows when Redis' clock runs ahead of the callers':
  `TokenBucket.ExpiryUnobservableIff` (run: `TokenBucket.SkewShows`);
- two callers share a rate limit: `TokenBucket.SharedIff` (an instance: `TokenBucket.ColonCollides`);
- a Retry-After that is too short: `TokenBucket.RetryAfterHonest`.

## Model

| member | source | states |
|---|---|---|
| Inventory.ShiftLevels | src/worker/main.ts:247-251 | a transaction over an order's items moves each stock row by the order's whole demand on it, and touches no row the order does not name |
| Inventory.ShiftSnoc | src/interfaces/orders/orders.service.ts:123-128 | updating row after row, item by item, adds up to that whole demand, also when a SKU is listed more than once |
| Inventory.DistinctDemand | src/worker/main.ts:228-231 | when every SKU is listed once, the quantity tested for an item is the order's whole demand on its row |
| Inventory.CoveredSuffices | src/worker/main.ts:227-251 | for orders that list each SKU once, passing the handler's item-by-item test means that every row covers the order's summed demand |
| Inventory.AdjustEffect | src/interfaces/inventory/inventory.service.ts:83-138 | an adjustment that is not refused changes the available quantity of one row by its delta, leaves reserved quantities and all other rows alone, and never makes a non-negative stock negative |
| Inventory.Adjusts | src/interfaces/inventory/inventory.service.ts:83-138 | from any stock, IN ends at the old available quantity plus qty, OUT at it less qty, ADJUSTMENT at qty, a missing row counting as zero, reserved and every other row as they were; refused is only OUT, with NotFound exactly when the row is missing and with Conflict exactly when it holds less than qty |
| SagaOutcomes.AdjustCall | src/interfaces/inventory/inventory.service.ts:67-157 | the same of the call, with its reply and the row of the log that it writes, and nothing else touched |
| SagaOutcomes.CancelledMessage | src/worker/main.ts:277-304 | the first order.cancelled of a RESERVED order whose rows exist ends CANCELLED, holding nothing, with every row's available up and reserved down by the order's whole demand; with a row missing only the key is set; from any other status it ends CANCELLED and no stock moves |
| SagaOutcomes.CreatedMessage | src/worker/main.ts:219-275 | the first order.created, whatever the status: with every item covered by itself the order is RESERVED, every row moves from available to reserved by the whole demand and stock.reserved is written; otherwise it is CANCELLED, no stock moves and order.cancelled is written |
| SagaOutcomes.ConfirmedMessage | src/worker/main.ts:306-344 | the first order.confirmed writes one charge if and only if the order is CONFIRMED, with the message's items, its customer unless empty and its total unless zero, and else the order's own |
| SagaOutcomes.SettledMessage | src/worker/main.ts:361-388 | the first payment.settled makes a CONFIRMED order of that tenant PAID and touches nothing else but its key |
| SagaOutcomes.MessageIgnored | src/worker/main.ts:507-526 | a message whose key is set changes nothing; one whose handler dies, that names no order of its tenant, or that nothing listens to sets its key and changes nothing else |
| SagaOutcomes.ConfirmCall | src/interfaces/orders/orders.service.ts:100-178 | confirmOrder is refused with NotFound, Conflict or Internal exactly for an unknown order, a status other than RESERVED, a missing row; otherwise the record, the outbox row and the reply carry the summed figures, every row's reserved falls by the whole demand, and available stays |
| SagaOutcomes.CreateCall | src/interfaces/orders/orders.service.ts:32-98 | createOrder is refused exactly for an order without items; otherwise one CREATED order with the next id, one order.created row and the reply that names them |
| SagaOutcomes.CancelCall | src/interfaces/orders/orders.service.ts:180-240 | cancelOrder is refused with NotFound or Conflict exactly for an unknown order or one that is not CREATED, RESERVED or CONFIRMED; otherwise only the status changes, to CANCELLED, with one order.cancelled row; no stock moves |
| SagaOutcomes.ShipCall | src/interfaces/orders/orders.service.ts:242-310 | the same of shipOrder, from PAID to SHIPPED |
| SagaOutcomes.DeliverCall | src/interfaces/orders/orders.service.ts:312-372 | the same of deliverOrder, from SHIPPED to DELIVERED |
| SagaOutcomes.CallKeys | src/infrastructure/redis/redis.service.ts:134-146 | create, confirm, ship and deliver insist on a key; a stored reply is returned and nothing changes; otherwise the reply is stored, under the tenant, operation, order and key of the call and nowhere else, if and only if there is a key and the call was not rejected |
| SagaOnce.StepAdds | src/worker/main.ts:219-348 | a stock.reserved row or a charge row is written exactly when the handler of order.created, or order.confirmed, does its work: key not set and stock covering the order, or the order CONFIRMED |
| SagaOnce.ReservedTwiceIff | src/worker/main.ts:219-270 | in every run, an order's stock is reserved a second time if and only if order.created is handled with covering stock, its key expires, and it is so handled again |
| SagaOnce.ChargedTwiceIff | src/worker/main.ts:306-344 | in every run, an order is charged a second time if and only if order.confirmed is handled while the order is CONFIRMED, its key expires, and it is so handled again |
| SagaOnce.BooksInEveryRun | src/interfaces/orders/orders.service.ts:117-155 | in every run, whatever expires, an order's confirmations and the stock it still holds together never outnumber its reservations, and a sold order was confirmed |
| SagaOnce.AtMostOnce | src/worker/main.ts:50-54 | while an order's order.created key lives it is reserved and confirmed at most once, holds stock only in between, and a sold order went through each exactly once; while its order.confirmed key lives it gets at most one payment.charge_requested row; other orders' keys do not matter |
| SagaInvariant.CreatedDrifts | src/worker/main.ts:219-275 | handling order.created, from any status, moves `reservedQty` by what the order's record then holds more, and by the whole demand on top when the order held stock already |
| SagaInvariant.CancelledDrifts | src/worker/main.ts:277-304 | handling order.cancelled, from any status, takes out of `reservedQty` exactly what the order's record ceases to hold, also when a release fails on a missing row |
| SagaInvariant.ConfirmDrifts | src/interfaces/orders/orders.service.ts:112-155 | so does confirming an order |
| SagaInvariant.ReservedQtyInEveryRun | src/worker/main.ts:247-260 | in every run, whatever expires, `reservedQty` of every row is the summed demand of the orders reserved and neither confirmed nor released, plus what was reserved again for orders that held stock already; so it is never negative |
| SagaInvariant.ReservedQtyIsHeldIff | src/worker/main.ts:247-260 | `reservedQty` of every row is what orders hold, in every state of a run, if and only if no step of the run reserves something for an order that holds stock already |
| SagaInvariant.ReservedIsHeld | src/worker/main.ts:507-552 | in a run in which no order.created key expires, `reservedQty` of every row is what orders hold, and every order that holds stock has its key set |
| SagaRuns.ReservedTwiceAfterExpiry | src/worker/main.ts:219-260 | a run of the kind ReservedTwiceIff describes: two stock.reserved rows for one order, and one order for one piece takes two |
| SagaRuns.ChargedTwiceAfterExpiry | src/worker/main.ts:306-344 | a run of the kind ChargedTwiceIff describes: one key expires, and one order has two charge rows |
| SagaLeaks.ReservedQtySplits | src/worker/main.ts:247-300 | in every run, `reservedQty` of every row is what RESERVED orders ask for, plus what has leaked, plus what was reserved again for orders that held stock already |
| SagaLeaks.StepLeak | src/worker/main.ts:231-243 | an order's stock leaks if and only if cancelOrder takes effect on it while RESERVED, or a repeated order.created is refused while it is; a leak ends only when the order is reserved anew |
| SagaLeaks.LeakedIff | src/interfaces/orders/orders.service.ts:193-201 | in every run, whatever expires, an order's stock is leaked if and only if such a step happened and the order was not reserved anew since |
| SagaLeaks.LeakedIffReservedCancelled | src/worker/main.ts:284-300 | in a run in which the order's own order.created key does not expire, its stock is leaked if and only if cancelOrder took effect on it while RESERVED, and then for good |
| SagaLeaks.ReservedQtyIsExactIff | src/worker/main.ts:284-300 | in every run, `reservedQty` of a row is what RESERVED orders ask for if and only if no step reserved the row for an order that held stock already and no order whose leak is outstanding asks for the row |
| SagaLeaks.ReservedQtyWhileKeysLive | src/interfaces/orders/orders.service.ts:193-201 | in a run in which no order.created key expires, it is so if and only if no order cancelled by the API while RESERVED asks for the row |
| SagaRuns.LeakedByCancel | src/interfaces/orders/orders.service.ts:193-201 | a run of the kind LeakedIff describes: one piece stays reserved for a cancelled order |
| SagaRuns.LeakedByRefusal | src/worker/main.ts:231-243 | another one, without cancelOrder: a redelivered order.created finds the RESERVED order without stock |
| SagaRuns.ForeignKeySet | src/worker/main.ts:538-539 | a run of the kind ForeignKeysIff describes |
| SagaRuns.OversoldByRepeatedSku | src/worker/main.ts:227-251 | a run of the kind OversoldIff describes: an order that lists a SKU twice passes the test and drives `availableQty` to -1 |
| SagaRuns.ShippedThenCancelled | src/worker/main.ts:277-300 | a run of the kind SoldFallsBackIff describes, in which no key expires: a shipped order ends CANCELLED |
| SagaStock.StockIsConserved | src/interfaces/inventory/inventory.service.ts:97-122 | in every run, for every tenant and SKU, available plus reserved is the sum of the adjustment deltas less the quantities of the committed confirmations |
| SagaStock.CreatedNonNegativeIff | src/worker/main.ts:226-251 | handling order.created keeps every `availableQty` at or above zero if and only if the order fails the item-by-item test or every row covers its summed demand |
| SagaStock.OversoldIff | src/worker/main.ts:226-260 | `availableQty` stays at or above zero throughout a run if and only if no step of it reserves an order whose summed demand some row does not cover |
| SagaStock.NeverOversold | src/worker/main.ts:226-260 | in every run whose orders list each SKU at most once, `availableQty` of every row stays at or above zero |
| SagaStock.CreatedIsAllOrNothing | src/worker/main.ts:226-270 | handling order.created reserves every item when each is covered, and otherwise leaves the stock as it was and cancels the order |
| SagaStock.TenantsAreIsolated | src/interfaces/orders/orders.service.ts:112-115 | no call, handler or expiry of one tenant changes another tenant's stock rows, orders or stored replies, and every outbox row, log entry and order it adds is its own |
| SagaStock.ForeignKeysIff | src/worker/main.ts:538-539 | deduplication keys, which carry no tenant, of another tenant's orders change if and only if a payment.settled message names the order under a wrong tenant |
| SagaPaths.PaidOnlyAfterConfirmed | src/worker/main.ts:372-377 | in every run an order that is PAID, SHIPPED or DELIVERED was CREATED at some earlier point, RESERVED later and CONFIRMED after that, before its present state |
| SagaPaths.DeliveredOnlyAfterShipped | src/interfaces/orders/orders.service.ts:312-372 | in every run a DELIVERED order was CREATED, RESERVED, CONFIRMED, PAID and SHIPPED at earlier points, in that order |
| SagaRuns.Delivered | src/interfaces/orders/orders.service.ts:312-372 | a run in which no key expires brings an order to DELIVERED and writes its order.delivered row |
| SagaPaths.LeavesCancelledIff | src/worker/main.ts:219-264 | a CANCELLED order leaves that status if and only if its order.created is handled, not yet deduplicated, and stock covers it |
| SagaPaths.LeavesSoldIff | src/worker/main.ts:277-299 | a CONFIRMED, PAID, SHIPPED or DELIVERED order falls back if and only if its order.created or its order.cancelled is handled, not yet deduplicated, or it is cancelled while CONFIRMED |
| SagaPaths.SoldFallsBackIff | src/worker/main.ts:296-300 | while its order.created key lives a sold order falls back only to CANCELLED, if and only if a late order.cancelled is handled or it is cancelled while CONFIRMED |
| SagaFigures.FiguresAgree | src/interfaces/orders/orders.service.ts:120-152 | in every run, from CONFIRMED on an order's total is the sum of price times quantity, and every confirmation and every charge carries its order's customer, items and that same sum |
| SagaFigures.ConfirmedBilled | src/worker/main.ts:318-341 | the charge, built from the message with fallbacks to the order, carries the order's own figures |
| SagaPaths.ImportedOrdersAreNeverReserved | src/interfaces/import/import.service.ts:275-307 | an imported order, for which no order.created row is written, is CREATED or CANCELLED in every later state of every run |
| SagaPaths.RejectedChangesNothing | src/interfaces/orders/orders.service.ts:112-118 | a call that is rejected changes nothing, not even the idempotency store |
| SagaPaths.Replay | src/interfaces/orders/orders.service.ts:107-110 | once a call succeeded under an idempotency key, every later call under it, while the key lives, returns the first reply and changes nothing: create, confirm, cancel, ship, deliver and adjustment |
| SagaPaths.OncePerKey | src/infrastructure/redis/redis.service.ts:134-146 | of any two calls under one live idempotency key at most one changes the state |
| SagaService.Store.CreateOrder | src/interfaces/orders/orders.service.ts:32-98 | state and reply after the call are those of the saga's create step |
| SagaService.Store.ConfirmOrder | src/interfaces/orders/orders.service.ts:100-178 | the loops over the items (total, and one `reservedQty` update each, rolled back on a missing row) make the saga's confirm step, whole state and reply |
| SagaService.Store.CancelOrder | src/interfaces/orders/orders.service.ts:180-240 | state and reply are those of the saga's cancel step, with and without a key |
| SagaService.Store.ShipOrder | src/interfaces/orders/orders.service.ts:242-310 | state and reply are those of the saga's ship step |
| SagaService.Store.DeliverOrder | src/interfaces/orders/orders.service.ts:312-372 | state and reply are those of the saga's deliver step |
| SagaService.Store.MoveItems | src/interfaces/orders/orders.service.ts:123-128 | the row updates succeed if and only if every row exists; then every row moved by the order's whole demand, and otherwise nothing changed |
| SagaService.Store.Total | src/interfaces/orders/orders.service.ts:120 | the accumulated total is the sum of price times quantity |
| SagaService.Store.CheckItems | src/worker/main.ts:227-245 | the loop stops early exactly when some item has no row or too little available |
| SagaService.Store.ApplyAdjustment | src/interfaces/inventory/inventory.service.ts:83-138 | IN adds, OUT takes away, ADJUSTMENT sets, a missing row counting as zero; NotFound and Conflict exactly for OUT without a row or with too little in it, and then no change; the log gains the entry |
| SagaService.Store.CreateAdjustment | src/interfaces/inventory/inventory.service.ts:67-157 | state and reply are those of the saga's adjustment step, which SagaOutcomes.AdjustCall spells out kind by kind |
| SagaService.Store.IsAlreadyProcessed | src/worker/main.ts:50-54 | tells whether the key was set before and leaves it set, and no other |
| SagaService.Store.OnCreated | src/worker/main.ts:219-275 | check, reserve or cancel: the whole new state is that of the saga's handler, with status, rows and outbox row stated outright |
| SagaService.Store.OnCancelled | src/worker/main.ts:277-304 | the saga's handler, with its outcome stated outright: a RESERVED order is CANCELLED and every row gets the whole demand back, or nothing changes when a row is missing; any other order is CANCELLED and moves no stock |
| SagaService.Store.OnConfirmed | src/worker/main.ts:306-348 | one charge, from CONFIRMED only: the saga's handler |
| SagaService.Store.OnOrderMessage | src/worker/main.ts:507-526 | key first, handler second, the key staying set when the handler dies: the saga's consumer |
| SagaService.Store.OnPaymentSettled | src/worker/main.ts:361-388 | PAID from CONFIRMED only, behind the key |
| SagaService.Store.ImportInventory | src/interfaces/import/import.service.ts:105-219 | when every valid row would be accepted, the import ends in the state of the same adjustments made one by one, and otherwise it leaves everything as it was and reports one transaction error with nothing imported; more than 1000 rows are refused |
| Import.TraceSucceeds | src/interfaces/import/import.service.ts:150-205 | a transaction that got through every row ends where the calls in turn end, each of them accepted |
| Import.TraceFails | src/interfaces/import/import.service.ts:164-188 | a transaction that stops at a row stops where createAdjustment would be refused |
| Import.ProblemsExactly | src/interfaces/import/import.service.ts:125-139 | each problem is reported exactly for its own cause and once; a quantity is valid if and only if it is a whole number from one up |
| Import.ValidRowsAreAll | src/interfaces/import/import.service.ts:141-145 | what is imported are all rows without a problem, each as often as it occurs, in the order of the input |
| Import.CallOfRow | src/interfaces/import/import.service.ts:188-196 | a valid row stands for the adjustment by its whole quantity, with "bulk import" for a missing reason |
| Import.RowsAreCounted | src/interfaces/import/import.service.ts:121-148 | imported rows plus reported rows are all the rows |
| Import.ReportIsExact | src/interfaces/import/import.service.ts:125-147 | a row error is in the report if and only if it names an invalid row by its number, with what is wrong with it |
| OutboxSafety.CountersInEveryRun | src/worker/main.ts:125-189 | for any interleaving of any number of loops, stale batches and crashes: PENDING has attempts at most 6, DEAD exactly 7 with at least as many recorded failures, and SENT was handed to the channel |
| OutboxSafety.HeldIsClaimedIff | src/worker/main.ts:136-140 | a held event is claimed by another loop if and only if that loop's snapshot carries the holder's stamp, which its poll found more than 60 seconds old |
| OutboxSafety.HeldIsNotClaimed | src/worker/main.ts:136-140 | while no holder of the event overstays the lease, the compare-and-set on the lock fails for every other loop |
| OutboxSafety.SoleWhileNobodyOverstays | src/worker/main.ts:119-140 | in every run in which no holder of an event overstays, that event has at most one holder and carries its stamp, whatever happens to other rows |
| OutboxSafety.DoubleHoldIff | src/worker/main.ts:122-140 | two loops come to hold one event in a run if and only if some step of the run claims it, while another loop holds it, from a snapshot with that holder's stamp |
| OutboxSafety.DoubleHoldNeedsOverstay | src/worker/main.ts:122-140 | two loops hold an event at once only if strictly before that a holder of that same event was past 60 seconds after its stamp |
| OutboxSafety.LeaseRunsFromThePoll | src/worker/main.ts:119-138 | a run of the kind DoubleHoldIff describes in which the second claim comes in the same instant as the first: the lease is counted from the stamp, the start of the poll |
| OutboxFinality.SentIsFinalIff | src/worker/main.ts:136-189 | for any number of loops, in every reachable state, a SENT row stays SENT in every continuation if and only if no loop holds it and no batch has a snapshot of it with the lock it has now |
| OutboxFinality.UntouchableForever | src/worker/main.ts:122-140 | with any number of loops, a SENT or DEAD row that no loop holds and no batch can still claim never changes again |
| OutboxFinality.SentIsNotFinal | src/worker/main.ts:136-189 | a run of the kind SentIsFinalIff describes, in which no time passes: a SENT row goes back to PENDING through a stale batch |
| OutboxFinality.DeadIsFinalIff | src/worker/main.ts:176-189 | for any number of loops, in every reachable state, a DEAD row stays DEAD in every continuation if and only if no loop holds it but to record a seventh failure, none has a snapshot of it with the lock it has now, and, if a seventh failure is about to be recorded, none has one that found it unlocked |
| OutboxFinality.DeadIsNotFinal | src/worker/main.ts:136-189 | a run of the kind DeadIsFinalIff describes: after seven failures a batch read before the first of them sends the row |
| OutboxSolo.SoloInvariant | src/worker/main.ts:115-195 | with one live loop at a time every snapshot still describes its row, and tries, failures, losses and the row's state balance |
| OutboxSolo.AttemptsAreExact | src/worker/main.ts:176-189 | with one live loop `attempts` is exactly the number of recorded failures and a row is tried at most 7 times, not counting tries whose outcome a crash lost |
| OutboxSolo.DeathTakes122Seconds | src/worker/main.ts:177-187 | with one live loop a row dies no earlier than 2+4+8+16+32+60 = 122 seconds after its first failure |
| OutboxSolo.SentAndDeadAreFinal | src/worker/main.ts:122-189 | with one live loop a SENT or DEAD row never changes again |
| Outbox.BatchIsFirstFifty | src/worker/main.ts:125-133 | a row is in the batch, at the place given by the number of eligible rows before it, if and only if it is PENDING, due, unlocked or locked more than 60 seconds ago, and fewer than fifty such rows are before it |
| Outbox.Backoffs | src/worker/main.ts:178 | the waits are 2, 4, 8, 16 and 32 seconds and then always 60 |
| OutboxDispatcher.TrialOutcome | src/worker/main.ts:155-191 | a try counts once; published and written it is SENT and unlocked; otherwise a failure is recorded, even when the channel took the message and only the write failed, with the attempts of the snapshot plus one, the wait of that attempt, unlocked, and DEAD from the seventh; when that write fails too the row stays locked as claimed |
| OutboxDispatcher.Dispatcher.ClaimRow | src/worker/main.ts:136-140 | the lock is taken if and only if it is as it was read, and the write is a step of the protocol |
| OutboxDispatcher.Dispatcher.Deliver | src/worker/main.ts:155-191 | publish and the write of the outcome, including an error while writing SENT and one in the error branch, leave the row as specified and are steps of the protocol |
| OutboxDispatcher.Dispatcher.RecordFailure | src/worker/main.ts:177-189 | attempts from the snapshot plus one, a wait of 2, 4, 8, 16, 32 or from then on 60 seconds, unlocked, DEAD exactly from the seventh attempt |
| OutboxDispatcher.Dispatcher.PollOnce | src/worker/main.ts:115-195 | one turn of the loop tries exactly the first fifty rows that are PENDING, due, and unlocked or locked more than 60 seconds ago, the k-th of them as the k-th try, at the right instant, and changes no other row; when an error in the error branch ends the loop, it tried the first of them up to that one |
| OutboxDispatcher.RowGuarantees | src/worker/main.ts:108-196 | at any time the rows of the dispatcher have exact attempts, at most 7 tries besides lost ones, and 122 seconds between first failure and death |
| Webhooks.AttemptOutcome | src/worker/webhook-dispatcher.ts:48-127 | a due delivery is DELIVERED if and only if the answer is an HTTP status from 200 to 299; any other status, or none, costs one attempt and one POST, with the status recorded, and is FAILED at the fifth; an inactive endpoint makes it CANCELLED without a POST or an attempt |
| Webhooks.Queue.ProcessOne | src/worker/webhook-dispatcher.ts:48-102 | the same of the delivery updated in place, all others untouched; it tells of a delivery exactly for a status from 200 to 299 |
| Webhooks.FailureCosts | src/worker/webhook-dispatcher.ts:109-127 | a status outside 200 to 299, or none, costs a due delivery one attempt and one POST; it is FAILED if and only if that was its fifth, and otherwise the next query finds it |
| Webhooks.Queue.ProcessDeliveries | src/interfaces/webhooks/webhooks.service.ts:86-163 | a poll tries exactly the PENDING deliveries with fewer than five attempts that have fewer than fifty such before them, each once, as AttemptOutcome says, and counts those delivered; stopped early it has done a prefix of them, and dying between a POST and its write it has besides POSTed the next one without a trace |
| Webhooks.AlwaysSound | src/worker/webhook-dispatcher.ts:41-103 | in every run attempts count the POSTs but for those whose outcome was lost in a crash or a failed write, are at most 5, are below 5 while PENDING (so the query strands no row), and a delivery is FAILED if and only if it used all 5 without being delivered |
| Webhooks.SettledForever | src/worker/webhook-dispatcher.ts:41-46 | a delivery that is not PENDING never changes again |
| Webhooks.FivePolls | src/worker/webhook-dispatcher.ts:41-103 | five complete polls settle the first fifty due deliveries, whatever the endpoints answer and however many incomplete polls come in between |
| Webhooks.Drained | src/worker/webhook-dispatcher.ts:41-103 | with n due deliveries and none added, none is PENDING once 5 times the ceiling of n/50 polls were complete, however many were cut short in between |
| Webhooks.DueIsPending | src/worker/webhook-dispatcher.ts:42-43 | the number of due deliveries is the number of PENDING ones |
| TokenBucket.RedisService.EvalTokenBucket | src/infrastructure/redis/redis.service.ts:12-41 | the script's answer and the stored hash are those of the lazily refilled bucket by the caller's clock, the key expires by Redis' clock, only its own key changes, and with a rate of zero it fails after the write |
| TokenBucket.RedisService.ConsumeRateLimit | src/infrastructure/redis/redis.service.ts:81-108 | for every limit: the decision follows the level of that caller's own bucket, `remaining` is its rest rounded down and never negative, a limit below one admits nothing, and a limit of zero is an error; what any other tenant, subject or group finds stays as it was, as long as no tenant id holds a colon |
| TokenBucket.SharedIff | src/infrastructure/redis/redis.service.ts:92 | two callers share a bucket if and only if their groups are equal and their tenants and subjects, each joined by a colon, are |
| TokenBucket.OwnBucket | src/infrastructure/redis/redis.service.ts:92 | as long as no tenant id holds a colon, every tenant, subject and group has its own |
| TokenBucket.TokensInRange | src/infrastructure/redis/redis.service.ts:26-36 | the tokens stored under the expiring key stay between 0 and the capacity, whatever the callers' clock and Redis' clock do |
| TokenBucket.ExpiryUnobservableIff | src/infrastructure/redis/redis.service.ts:19-40 | for any callers' clock and any clock of Redis, every call finds what it would find in the bucket that never expires if and only if every drop of the key comes at a call that would find that bucket full |
| TokenBucket.FullWhateverItHeldIff | src/infrastructure/redis/redis.service.ts:26-39 | whatever the bucket held, it is full after an interval if and only if the callers' clock moved by at least capacity/rate |
| TokenBucket.ExpiryUnobservable | src/infrastructure/redis/redis.service.ts:19-40 | while the key is dropped only after the callers' clock moved by that much (late drops), no call can tell that it expires |
| TokenBucket.OneClock | src/infrastructure/redis/redis.service.ts:38-39 | when both clocks are one, however it moves, drops are late |
| TokenBucket.SkewShows | src/infrastructure/redis/redis.service.ts:38-39 | with Redis' clock a time to live ahead, the second of two simultaneous calls finds the bucket full again |
| TokenBucket.FoundIsLeastLeft | src/infrastructure/redis/redis.service.ts:26-36 | while drops are late, what a call finds under the key is the least, over all windows of calls ending with it, of capacity plus earned less served |
| TokenBucket.ServedIffEveryWindowFits | src/infrastructure/redis/redis.service.ts:31-36 | while drops are late, a request on the expiring key is served if and only if every window of calls ending with it leaves a whole token of the capacity and what the window earned |
| TokenBucket.StretchBound | src/infrastructure/redis/redis.service.ts:26-36 | while drops are late, a stretch of calls on the expiring key is served at most the capacity plus the positive increments of the callers' clock times the rate |
| TokenBucket.AtMostLimitPerMinute | src/infrastructure/redis/redis.service.ts:86-91 | under a nondecreasing callers' clock and late drops, at most limit times (1 + elapsed/60) requests pass between two calls |
| TokenBucket.DeniedChangesNothing | src/infrastructure/redis/redis.service.ts:31-38 | while drops are late, with the denied request and without it, a denied request around which the callers' clock does not step back changes no later decision |
| TokenBucket.RetryAfterHonest | src/infrastructure/redis/redis.service.ts:107 | the constant Retry-After of one second is enough for every denied bucket if and only if the limit is at least 60 a minute |
| Csv.ParseCsv | src/interfaces/import/import.service.ts:416-476 | the index-driven loop with one character of lookahead reads what the character-by-character grammar reads |
| Csv.ToCsv | src/interfaces/export/export.service.ts:106-112 | the text is the escaped fields joined by commas and the records joined by line feeds |
| Csv.BareIff | src/interfaces/export/export.service.ts:99-104 | a field prints bare if and only if it has no quote, comma or line break, and otherwise in quotes with its own quotes doubled |
| Csv.PiecesAreRead | src/interfaces/import/import.service.ts:423-446 | a line of fields that are each bare, quoted, or partly both reads as one record: every field is its pieces one after the other, and two quoted pieces in a row have a quote between them |
| Csv.ParsePrinted | src/interfaces/export/export.service.ts:99-112 | parsing any printed table gives it back, up to records without fields and a last record that is one empty field |
| Csv.RoundTrip | src/interfaces/import/import.service.ts:416-476 | a table survives printing and parsing if and only if no record is empty and the last is not a single empty field |
| Csv.RoundTripTerminated | src/interfaces/import/import.service.ts:470-473 | with one trailing line break it survives if and only if no record is empty |
| Csv.LineEndingBlind | src/interfaces/import/import.service.ts:448-464 | LF, CRLF and CR give the same records |
| Csv.InsideIffOdd | src/interfaces/import/import.service.ts:426-443 | the parser is inside quotes if and only if it has seen an odd number of quote characters |
| Csv.BreakSplitsIffEven | src/interfaces/import/import.service.ts:423-475 | parsing splits at a line feed, for every continuation, if and only if an even number of quotes stands before it |
| Csv.QuoteFreeIsSplitting | src/interfaces/import/import.service.ts:440-475 | on text without quotes the loop equals splitting by lines, dropping a final empty line, and splitting by commas |
| Outlier.StdZero | src/interfaces/analytics/analytics.service.ts:211-212 | the deviation is zero if and only if all amounts are equal |
| Outlier.TenthOfAmounts | src/interfaces/analytics/analytics.service.ts:210-213 | at most a tenth of any amounts lies three deviations or more above their mean |
| Outlier.FlagsExactly | src/interfaces/analytics/analytics.service.ts:207-216 | from two positive amounts on, flagged are all orders from mean plus three deviations up, each as often as it occurs, in the order of the query; below two, none |
| Outlier.AtMostATenth | src/interfaces/analytics/analytics.service.ts:201-224 | the filter flags nothing below two positive amounts, all of them when they are equal, and otherwise at most one tenth; that bound holds if and only if they are not all equal |
| Outlier.NothingAmongNine | src/interfaces/analytics/analytics.service.ts:207-216 | among fewer than ten positive amounts that differ nothing is ever flagged |
| Outlier.TenthIsAttained | src/interfaces/analytics/analytics.service.ts:207-216 | ten orders exist of which one is flagged, so the bound cannot be lowered |

## Left out

- Interleavings inside a call or a handler: the status and the idempotency store are read before the transaction; calls and handlers are atomic here, so two concurrent calls under one key and a crash between the commit and the store of the reply are not modelled.
- Time in the saga: the 24-hour lives of deduplication and idempotency keys are explicit expiry steps that may happen at any moment.
- The spelling of Redis keys: idempotency keys are tuples of tenant, operation, order and key, which the strings are as long as order ids hold no colon.
- Correlation ids, tracking codes, currency, audit rows, metrics, events broadcast to browsers, cached lists, HTTP and input validation.
- `product.inStock`: written by the reserve and release handlers but not maintained by adjustments.
- The exchange a row is published to: payment rows go to another exchange, so the order consumer never receives them; that is the only trace of it.
- Database errors other than a missing row and, in the outbox and the webhooks, failed writes; PostgreSQL isolation levels.
- `lockedBy` of an outbox row, which nothing reads; rows created at the same instant (creation order is the index order); the poll's `now` and its lease horizon are read at the same instant.
- OutboxSafety.DoubleHoldNeedsOverstay: all loops read one monotone clock, so for several replicas it needs their clocks to agree.
- The circuit breaker: its open state only skips polls, and a rejected or timed-out publish is a failed try that the channel may or may not have taken.
- Two webhook pollers at once (the worker and the API service), and deliveries that vanish with their endpoint.
- TokenBucket.RedisService.ConsumeRateLimit: a limit in the environment that is not a number; numbers are reals, not Redis' decimal strings.
- Outlier.AtMostATenth: the square root is a parameter `std` with its defining property, and amounts are reals; floating-point rounding is not modelled.
- SagaService.Store.ImportInventory: takes rows whose quantity is already a number or not, and whose kind is one of the three or not; header mapping, trimming and upper-casing of the CSV cells are not modelled.
- The order import's own validation and CSV grouping, the product import, and the JSON forms of import and export; an imported order is the saga's `ImportOrder` step.
- Pagination, search, recommendations, the other analytics, authentication: no hard property.
