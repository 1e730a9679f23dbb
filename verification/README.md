# Verification of the order and market services

Dafny models of the protocols that the SQL statements, Lua scripts and Go loops of the two services
form together, and proofs of what these protocols keep.

Each protocol is written twice. The first form is a machine on values: a state, events, a total
function that applies an event (an event that is not possible in a state changes nothing) and the run
of a sequence of events. One event is one SQL statement, one Lua script, one commit, one message or the
passing of time; a command can have run, have run with its reply lost, or not have run, and a process
can crash between any two. The theorems are about every sequence of events, so about every interleaving
and every fault. The second form is the Go code as a class whose methods take exactly the machine's
steps, in the code's order and with its branches, while other processes run between the steps
(`Interference`); nondeterministic choices stand for what the environment answers. The methods'
contracts then draw on the theorems.

| files | model |
|---|---|
| CreateOrderProtocol, CreateOrderSafety, CreateOrderHistory, CreateOrderExact, CreateOrderProvisos, CreateOrderAlone, OrderService, RequestEncoding | idempotent order creation: Redis key, transaction, completion retries, recovery |
| CompensationProtocol, CompensationSafety, CompensationAlone, CompensationService | inbox, compensation, conservation of orders and outbox rows |
| OutboxProtocol, OutboxSafety, OutboxTiming, OutboxRetries, OutboxWorker | outbox rows, workers, retries, releases, deadlines |
| Markets, PollerProtocol, PollerSafety, PollerProvisos, PollerCursor, PollerCursorProvisos, MarketPoller | the market poller's keyset cursor |
| ConsumerErrors, ConsumerChain, ConsumerClaims, ConsumerProvisos, Dlq, Utf8, Totals | the Kafka consumer: middlewares, offsets, dead-letter messages |
| MarketBlock, Rounding, RateLimiter, RefreshTokens | the Redis registers |
| Query, Paging | ordered queries, pages and the cached head page |
| Decimal, Text, Sets, Wrappers | decimal texts and shared notions |

The files named Provisos hold, for each condition of a theorem, a run that breaks only that condition and
the theorem with it, or the proof that the condition is exact. Exact is meant event by event: after a run that
meets the condition, an event meets it if and only if no continuation that meets it ever fails the theorem. The
files named Alone say in full what one call does when nothing runs beside it, for every fault of its own.

## Assumptions

- There is one non-decreasing clock. Fresh UUIDs are distinct where the text says so (refresh ids, inbox
  deliveries); order ids need not be, since the primary key check is modelled.
- SHA-256 is treated as injective, so a key is the text it hashes. A price is its canonical decimal text and
  equal prices have equal texts; a UUID text has 36 characters.
- Redis drops a key only when its TTL ends, and a key is still there at the instant it ends.
- A command to Redis, once sent, may run late or again, since the client is made with the default retries of
  its library (orderService/internal/application/order/infra_providers.go:72-90). When a DEL of an idempotency key
  or a login script may not is a condition of the theorems, and proved to be exact.
- A statement or script is atomic and a commit applies all or nothing. Where a property needs that a commit
  error means nothing was committed, it says so.
- A market update commits in time: with a key behind the durable cursor and behind all that any poller has
  read or is publishing. The trigger takes `NOW()`, the start of the transaction, so a transaction that
  commits after the poller has passed its start is late. What happens then is proved too.
- A handler of the consumer that starts under a done context neither succeeds nor skips, it returns
  ErrStopConsumeClaim only once the context is done, and it never returns ErrMessageHandledByDLQ. There is a
  publisher of dead letters, and it fails only with context, broker or availability errors.
- Names are ordered character by character; any strict total order of names would do.

## Findings

- Five things can duplicate an order: a commit that places it but reports an error, a key that expires, or a
  DEL that runs again (the client repeats commands by default), while a call holds the key or its order exists,
  and an entry that is overwritten by garbage or by the empty text. Nothing else can (`BenignExactly`), and from
  wherever one of them happens some calls do place two orders.
- A market update that commits late is missed. The condition is exact (`InTimeExactly`), and the updated_at
  trigger does not ensure it for overlapping transactions.
- The durable cursor of one poller can move back after an update or a delete exactly if the page behind the
  cursor in memory no longer reaches it (`HarmlessExactly`), as after an unnoticed commit and a physical delete or a
  late update. Two pollers can always move it back.
- A committed inbox row is never `processing`, so the branch of `handleSkippedEvent` for it cannot be taken.
- The bound for exclusive ownership of an outbox row is exact. The shipped configuration (config.yaml:108-111:
  batch_size 100, batch_timeout 5s, processing_timeout 5m) does not meet it, since 201 * 5s = 1005s > 300s, and
  the validator (shared/config/validate.go:500-507) only asks for batch_timeout < processing_timeout.
- A block register obeys its law exactly while its greatest stamp has at most 14 significant digits, because
  Lua writes numbers with 14 digits. From 10^14 ms on (the year 5138) it also writes an exponent, and such a
  register is refused when read, and then deleted.
- In any interval of one window's length the rate limiter allows at most 2 * limit - 1 calls, one less than
  twice the limit, because the first call of a window opens it; that bound is met for every window and limit.
- The claim loop of the consumer reads on after a stop. A delivery is safe exactly when it meets the stated
  condition (`SafeExactly`), and each rule for handler and publisher is needed.
- A login script that runs again after its id was rotated revives the id, which can then be rotated twice; this is
  the only way (`LoginsUnusedExactly`).
- Two workers that share an outbox row can retry it more often than max_retries allows.

## Model

| member | source | states |
|---|---|---|
| `CreateOrderSafety.AtMostOneOrder` | orderService/internal/services/order/order_service.go:161-332 | in every interleaving of any number of calls, with Redis commands lost, late or repeated: if the key of a request expires, or a DEL of it runs late or again, only while no call holds it and no order of it exists, its entry is not overwritten by garbage or the empty text, and no commit that places its order reports an error, at most one order is placed for it and every successful reply (fresh, cached, recovered) names that order |
| `CreateOrderExact.BenignExactly` | orderService/internal/services/order/order_service.go:161-332 | these provisos are exact: after a run that keeps them, an event keeps them if and only if no continuation that keeps them ever places two orders for the request |
| `CreateOrderExact.SomeRunDuplicates` | orderService/internal/infrastructure/redis/idempotency/idempotency_store.go:93-192 | from any reachable world, and for every valid request, an event that breaks them is followed by some steps of calls that place two orders |
| `CreateOrderSafety.ReplyNamesRequestedOrder` | orderService/internal/services/order/order_service.go:274-332 | in every run whatever, a successful reply names a committed order of the caller with exactly the requested market, type, price and quantity |
| `CreateOrderSafety.RetryFindsPlacedOrder` | orderService/internal/services/order/order_service.go:295-332 | after any faults of the first call in such a run, a later undisturbed call for the same request returns the id of the order already placed if and only if the entry of the key has not become unreadable, with the status of the completed entry or else of the order itself: the `created_at >= started_at` filter never hides it |
| `CreateOrderProvisos.AmbiguousCommitDuplicates` | orderService/internal/services/order/order_service.go:523-577 | each kind of break can come first, for every valid request: a run in which only this event breaks the provisos and two orders are placed, here a commit that succeeds but reports an error |
| `CreateOrderProvisos.ExpiryDuplicates` | orderService/internal/infrastructure/redis/idempotency/idempotency_store.go:42-71 | a key that expires while its call is still saving |
| `CreateOrderProvisos.LateDeleteDuplicates` | orderService/internal/infrastructure/redis/idempotency/idempotency_store.go:182-192 | a cleanup DEL that runs again after the next call took the key |
| `CreateOrderProvisos.GarbageDuplicates` | orderService/internal/infrastructure/redis/idempotency/idempotency_store.go:124-136 | an entry that is overwritten by something that is not JSON, and is then deleted |
| `CreateOrderProvisos.BlankDuplicates` | orderService/internal/infrastructure/redis/idempotency/idempotency_store.go:115-122 | an entry that is overwritten by the empty text, and is then taken for none |
| `CreateOrderSafety.SingleAlways` | orderService/internal/infrastructure/redis/idempotency/idempotency_store.go:93-139 | the invariant of every run that keeps the provisos: a key has at most one owner between its acquisition and its commit or cleanup, an owner excludes an order, and a placed order keeps its key completed or processing since before it was created |
| `CreateOrderSafety.ContentAlways` | orderService/internal/services/order/idempotency_service.go:50-64 | the invariant of every run: every completed key, and every call that completes, restores or replies, points to an order with the content of that key |
| `CreateOrderHistory.ReplyStatusWasShown` | orderService/internal/services/order/order_service.go:274-332 | in every run a successful reply carries a status that its order, or the completed entry of its key, had at some moment since the call began |
| `CreateOrderHistory.EntryWasNamed` | orderService/internal/infrastructure/redis/idempotency/idempotency_store.go:142-179 | in every run a completed entry carries the order and status that some call of the key completed it with |
| `CreateOrderHistory.StartedAtWasNow` | orderService/internal/infrastructure/redis/idempotency/idempotency_store.go:93-139 | in every run the started_at of an entry is the time at which a call of the key tried to acquire it |
| `CreateOrderHistory.OrderWasSaved` | orderService/internal/services/order/order_service.go:523-577 | in every run an order has the content of the call that saved it and the time at which that call began to save |
| `CreateOrderAlone.AloneCreates` | orderService/internal/services/order/order_service.go:161-221 | an undisturbed call for a free key places its order with the present time, completes the key with it and answers with it, and nothing else changes |
| `CreateOrderAlone.AsksForFreeKey` | orderService/internal/infrastructure/redis/idempotency/idempotency_store.go:93-139 | for every outcome of the script: a free key is taken with the present time if it ran, and held if its reply arrived |
| `CreateOrderAlone.AsksForTakenKey` | orderService/internal/services/order/order_service.go:274-303 | a key that is taken stays as it is, and its entry decides: cached answer, recovery, cleanup of what is not JSON, failure |
| `CreateOrderAlone.AsksOnceMore` | orderService/internal/infrastructure/redis/idempotency/idempotency_store.go:118-136 | what is not JSON is deleted and the key asked for once more, with the time it is then |
| `CreateOrderAlone.Places` | orderService/internal/services/order/order_service.go:523-577 | for every outcome of the commit: the order is there with the content of the call and the present time if and only if the commit ran, the id was free and the row valid |
| `CreateOrderAlone.Recovers` | orderService/internal/services/order/order_service.go:295-332 | a recovered order is completed and answered with its present status |
| `CreateOrderAlone.FirstMatchIsEarliest` | orderService/internal/infrastructure/postgres/order/order_store.go:222-229 | the recovered order is the earliest with the content since started_at, of several the one with the least id |
| `CreateOrderAlone.Restores` | orderService/internal/infrastructure/redis/idempotency/idempotency_store.go:165-179 | a key that was gone is written again, for every outcome of both commands |
| `CreateOrderAlone.GivesUpAtLast` | orderService/internal/services/order/idempotency_service.go:95-156 | after as many failed completions as are configured, and not before, the order is returned all the same |
| `RequestEncoding.EncodeInjective` | orderService/internal/services/order/idempotency_service.go:50-64 | two requests with the same hashed text are the same request, when the order type is a valid one |
| `RequestEncoding.EncodeValidTypes` | orderService/internal/domain/models/shared/order.go:59-72 | the hashed texts of the four valid types |
| `RequestEncoding.EncodeCollapsesInvalidTypes` | orderService/internal/domain/models/shared/order.go:59-72 | the condition is needed: all invalid order types are written alike |
| `OrderService.OrderService.Acquire` | orderService/internal/infrastructure/redis/idempotency/idempotency_store.go:93-139 | `acquire` with its one cleanup retry: the key is taken, or what it holds is returned, or the call has failed; it takes steps of the protocol only |
| `OrderService.OrderService.SaveOrder` | orderService/internal/services/order/order_service.go:523-577 | the transaction and its `committed` flag: a reported success has placed the order as requested, created, with a time of this call, and is one step from completion; any failure leads to the cleanup |
| `OrderService.OrderService.Complete` | orderService/internal/infrastructure/redis/idempotency/idempotency_store.go:142-179 | one completion attempt: on success the key holds the completed order, otherwise the next attempt follows |
| `OrderService.OrderService.CompleteIdempotencyChecking` | orderService/internal/services/order/idempotency_service.go:95-156 | the bounded retry loop ends, and whatever it met the caller gets the order |
| `OrderService.OrderService.FindOrderForRecovery` | orderService/internal/infrastructure/postgres/order/order_store.go:194-252 | the recovery query: a found id is the first order with the requested content created since `started_at`, and not found means there is none |
| `OrderService.OrderService.TryRecover` | orderService/internal/services/order/order_service.go:295-332 | recovery of a processing key ends with an error, or with the order that the query found at some moment of the call and the status it had then |
| `OrderService.OrderService.CreateOrder` | orderService/internal/services/order/order_service.go:161-221 | a successful reply names a placed order with the requested content, with a status that it or its completed entry had at some moment of the call; it is the only one if the run kept the provisos, with any calls running in between |
| `CompensationSafety.CompensatedAtMostOnce` | orderService/internal/services/order/compensation_service.go:69-225 | over any deliveries, retries, rollbacks, crashes and failed or ambiguous commits: the compensation of an (event, consumer group) commits at most once, its inbox row is processed exactly when it did, and no committed row is processing |
| `CompensationSafety.OrdersMatchOutbox` | orderService/internal/infrastructure/postgres/order/order_store.go:139-192 | in every reachable committed state each order has exactly one order.created row, each cancelled order exactly one order.status.updated row, and no other order has one |
| `CompensationSafety.FinalStatesStay` | orderService/internal/infrastructure/postgres/inbox/inbox_store.go:133-173 | processed is never left, a cancelled order never becomes active again, no order disappears or changes its market |
| `CompensationSafety.CancelledByItsMarket` | orderService/internal/services/order/compensation_service.go:179-201 | in every run an order is cancelled only by a committed compensation of an event that says its market is disabled or deleted |
| `CompensationSafety.OpenMarketsCancelNothing` | orderService/internal/services/order/compensation_service.go:185-187 | so the orders of a market that no delivered event disables or deletes are never cancelled |
| `CompensationAlone.AloneCompensates` | orderService/internal/services/order/compensation_service.go:69-152 | a delivery with no other transaction open, for every outcome of its commit: the row is processed and the active orders of a closed market are cancelled with one event each, or nothing changes at all |
| `CompensationAlone.AloneSkips` | orderService/internal/services/order/compensation_service.go:154-177 | a delivery whose row was processed before changes nothing |
| `CompensationAlone.AloneFails` | orderService/internal/infrastructure/postgres/inbox/inbox_store.go:133-173 | after a failing statement only the failure is recorded, unless the row was processed |
| `CompensationAlone.AloneSaves` | orderService/internal/services/order/order_service.go:523-577 | saveOrder with no other transaction open: order and event are there if and only if both statements and the commit ran |
| `CompensationAlone.WritersExclude` | orderService/internal/infrastructure/postgres/inbox/inbox_store.go:34-103 | a statement waits for rows that another open transaction has written |
| `CompensationService.CompensationService.ProcessMarketStateChanged` | orderService/internal/services/order/compensation_service.go:69-152 | success means the inbox key is processed and its compensation committed exactly once; if it was applied for a disabled or deleted market, no order of that market known before is active any more |
| `CompensationService.CompensationService.ApplyCompensation` | orderService/internal/services/order/compensation_service.go:179-201 | the cancelling UPDATE takes exactly those orders of its snapshot that are still active, one event per taken order is buffered, and every order of the market known before is taken or inactive; an open market cancels nothing |
| `CompensationService.CompensationService.ListActive` | orderService/internal/infrastructure/postgres/order/order_store.go:139-192 | the returned ids are exactly the rows of the snapshot that still match, each once |
| `CompensationService.CompensationService.PublishCancelledOrderEvents` | orderService/internal/services/order/compensation_service.go:246-270 | the loop buffers exactly one event per cancelled order, in their order, or fails as a whole |
| `CompensationService.CompensationService.CommitSkippedEvent` | orderService/internal/services/order/compensation_service.go:154-177 | an event is skipped only if its compensation has already committed exactly once |
| `CompensationService.CompensationService.TryBegin` | orderService/internal/infrastructure/postgres/inbox/inbox_store.go:34-103 | begin either fails, or takes the free or failed row, or reports a row whose compensation is committed |
| `CompensationService.CompensationService.FailProcessing` | orderService/internal/services/order/compensation_service.go:203-225 | after the rollback the failure is written outside the transaction, and the delivery ends as failed |
| `CompensationService.CompensationService.SaveOrder` | orderService/internal/services/order/order_service.go:523-577 | a successful save leaves the order with its market, created, with exactly one order.created row |
| `OutboxSafety.ClaimsAreCounted` | orderService/internal/infrastructure/postgres/outbox/outbox_store.go:77-289 | for any number of workers and any interleaving: claims of a row = retry_count + its releases + (1 if it is processing or published), and its sends never exceed its claims |
| `OutboxSafety.PublishedWasAcknowledged` | orderService/internal/infrastructure/kafka/outbox_worker.go:185-249 | a published row was acknowledged by Kafka under the key of its aggregate: an order.created row under the created topic, an order.status.updated row under the updated topic, and a row of another type is never published; locked_at is set exactly while the row is processing |
| `OutboxSafety.AckedIsARow` | orderService/internal/infrastructure/kafka/outbox_worker.go:203-225 | nothing is sent but the messages of committed rows, each under the topic of its type |
| `OutboxSafety.SentIfItHasATopic` | orderService/internal/infrastructure/kafka/outbox_worker.go:307-317 | a claimed row is sent if and only if its type has a configured topic; any other is recorded as a failure |
| `OutboxSafety.FinalRowsStay` | orderService/internal/infrastructure/postgres/outbox/outbox_store.go:129-251 | published and failed rows never change again, no row disappears or changes its content |
| `OutboxSafety.SharedOnlyAfterLateRelease` | orderService/internal/infrastructure/postgres/outbox/outbox_store.go:255-289 | two tickets of one row are held at once only if a release took the claim of the earlier ticket, or one before it, more than processing_timeout after it was made and while it was still held |
| `OutboxSafety.SharedIsHandedOver` | orderService/internal/infrastructure/postgres/outbox/outbox_store.go:77-127 | of two tickets held for one row one is always of an earlier claim |
| `OutboxTiming.NeverShared` | orderService/internal/infrastructure/kafka/outbox_worker.go:112-305 | if (2 * batch_size + 1) * batch_timeout <= processing_timeout and every call returns by its deadline, no row is ever held by two workers |
| `OutboxTiming.SharedBeyondBound` | orderService/internal/infrastructure/kafka/outbox_worker.go:112-183 | if the bound fails, a run in which every call returns by its deadline puts the last row of a full batch in two hands |
| `OutboxTiming.BoundIsExact` | orderService/internal/infrastructure/postgres/outbox/outbox_store.go:266-273 | so the bound holds if and only if no timely run ever shares a row |
| `OutboxRetries.UnsharedRetries` | orderService/internal/infrastructure/kafka/outbox_worker.go:251-305 | with any number of workers, while no row is ever in two hands: retry_count is at most max_retries while a row waits, is sent or published, and exactly max_retries + 1 when it failed |
| `OutboxRetries.TimelyRetries` | orderService/internal/infrastructure/kafka/outbox_worker.go:112-305 | so within the timing bound, when every call returns by its deadline |
| `OutboxRetries.OneWorkerRetries` | orderService/internal/infrastructure/kafka/outbox_worker.go:251-305 | and always with one worker |
| `OutboxRetries.SharedBreaksRetries` | orderService/internal/infrastructure/postgres/outbox/outbox_store.go:167-203 | beyond the bound, a run in which every call returns by its deadline and two workers that share a row leave it waiting for one retry too many |
| `OutboxWorker.Worker.SelectCandidates` | orderService/internal/infrastructure/postgres/outbox/outbox_store.go:77-127 | the claim takes due pending rows, each once, at most the limit |
| `OutboxWorker.Worker.MarkPublished` | orderService/internal/infrastructure/postgres/outbox/outbox_store.go:129-165 | success means the row is published and its message was acknowledged |
| `OutboxWorker.Worker.HandleSendError` | orderService/internal/infrastructure/kafka/outbox_worker.go:251-305 | a recorded failure leaves the row failed once the retries are used up, else pending and due (retry_count + 1) poll intervals after the handling began |
| `OutboxWorker.Worker.ProcessEvent` | orderService/internal/infrastructure/kafka/outbox_worker.go:185-249 | published means acknowledged by the broker and marked; the event leaves the queue either way |
| `OutboxWorker.Worker.ProcessBatch` | orderService/internal/infrastructure/kafka/outbox_worker.go:112-154 | every claimed event is handled unless the context was cancelled, and what the batch published stays published |
| `OutboxWorker.Worker.ReleaseStuck` | orderService/internal/infrastructure/kafka/outbox_worker.go:156-183 | after a successful release no row is still processing that was claimed before the cutoff |
| `PollerSafety.NoChangeMissed` | spotService/internal/services/spot/market_poller.go:147-256 | whatever is updated, inserted, deleted, lost or restarted, and with any number of pollers: if every update commits with a key behind the durable cursor and behind all that any poller has read or is publishing, every market at or below the durable cursor has an outbox event with exactly its present enabled, deleted_at and updated_at |
| `PollerProvisos.InTimeExactly` | spotService/internal/services/spot/market_poller.go:215-256 | that condition is exact: a new version of a market is never missed by any timely continuation if and only if it commits in time |
| `PollerProvisos.LateUpdateMissed` | spotService/internal/infrastructure/postgres/spot/market_store.go:215-221 | a version that commits late is missed: at once, by the page in flight, or by the next page |
| `PollerCursor.CursorNeverMovesBack` | spotService/internal/services/producer/market_producer.go:47-107 | with one poller, unnoticed commits included, the durable cursor never moves back if every update and delete leaves the next page reaching it: no row lies before it behind the cursor in memory, or less than a page of rows and then one more, and the same for the end of a page in flight |
| `PollerCursor.HarmlessExactly` | spotService/internal/services/spot/market_poller.go:215-256 | that condition is exact: an update or delete meets it if and only if no continuation by this poller and such changes moves the cursor back |
| `PollerCursor.HarmfulMovesBack` | spotService/internal/services/spot/market_poller.go:215-256 | a change that does not meet it is followed by at most three reads and publications of the poller that move the cursor back |
| `PollerCursor.TimelyCursorNeverMovesBack` | spotService/internal/infrastructure/postgres/spot/market_store.go:215-221 | updates in time meet it, so without physical deletes and with updates in time the durable cursor of one poller never moves back |
| `PollerCursorProvisos.DeleteMovesCursorBack` | spotService/internal/services/spot/market_poller.go:215-256 | such changes happen: a run in which an unnoticed commit followed by a physical delete moves the cursor back |
| `PollerCursorProvisos.LateUpdateMovesCursorBack` | spotService/internal/services/spot/market_poller.go:283-291 | and a run in which a late update does so |
| `PollerCursorProvisos.SecondPollerMovesCursorBack` | spotService/internal/infrastructure/postgres/cursor/cursor_store.go:43-62 | one poller is needed: after every run two pollers can move the cursor back with updates in time and without deletes, since the cursor is overwritten unconditionally |
| `Markets.SliceIsPage` | spotService/internal/infrastructure/postgres/spot/market_store.go:215-221 | the rows of `WHERE ... > ... ORDER BY ... LIMIT` are a keyset page: the first rows behind the cursor and nothing left out between them |
| `Markets.RestAfter` | spotService/internal/services/spot/market_poller.go:283-291 | behind the last row of a page lies exactly what the page left |
| `MarketPoller.MarketPoller.LoadCursor` | spotService/internal/services/spot/market_poller.go:93-107 | the cursor in memory is the durable one, or the zero position |
| `MarketPoller.MarketPoller.ListUpdatedSince` | spotService/internal/infrastructure/postgres/spot/market_store.go:194-235 | the query returns the first batch_size rows behind the cursor in (updated_at, id) order |
| `MarketPoller.MarketPoller.BuildEvents` | spotService/internal/services/spot/market_poller.go:258-281 | one event per market, with its enabled, deleted_at and updated_at, in order |
| `MarketPoller.MarketPoller.PublishMarketStateChanged` | spotService/internal/services/producer/market_producer.go:47-107 | success means all events of the page were appended together and the durable cursor stands on its last row |
| `MarketPoller.MarketPoller.ProcessNextBatch` | spotService/internal/services/spot/market_poller.go:215-256 | a failed batch leaves the cursor in memory alone; a successful one moves it with the durable cursor and has an event for every id it reports; there is more exactly after a full page |
| `MarketPoller.MarketPoller.Poll` | spotService/internal/services/spot/market_poller.go:147-189 | on an unchanged store with n rows behind the cursor and batch size b > 0 it ends after exactly floor(n / b) + 1 reads, has appended one event per row in key order, reports the same ids, and leaves both cursors on the greatest key; on a changing store every reported id has its event |
| `ConsumerClaims.MarkedNeverPassesAMessage` | shared/infrastructure/kafka/consumer/group_handler.go:44-198 | over any sessions of safe deliveries the marked offset never passes a message that was neither processed, nor accepted by the DLQ, nor skipped by the handler; a delivery is safe if it marks only a message dealt with by a handler that started before the context was done, and leaves one in a claim that goes on only when the context is done |
| `ConsumerClaims.RulesKeepOffsetsSafe` | shared/infrastructure/kafka/consumer/group_handler.go:44-198 | deliveries are safe with the DLQ middleware, a publisher that refuses only with errors that end the claim, and a handler that does not succeed or skip under a done context, returns ErrStopConsumeClaim only once the context is done, and never returns ErrMessageHandledByDLQ |
| `ConsumerProvisos.SafeExactly` | shared/infrastructure/kafka/consumer/group_handler.go:123-198 | safety is exact: a delivery is safe if and only if no session of it and safe deliveries loses a message |
| `ConsumerProvisos.UnsafeDeliveryLosesAMessage` | shared/infrastructure/kafka/consumer/group_handler.go:123-198 | an unsafe delivery loses a message, alone or beside one safe delivery |
| `ConsumerProvisos.LateSuccessLosesAMessage` | shared/infrastructure/kafka/consumer/group_handler.go:131-134 | each rule is needed, the others kept: a success under the done context marks past a stopped message |
| `ConsumerProvisos.LiveStopLosesAMessage` | shared/infrastructure/kafka/consumer/group_handler.go:168-169 | a stop under the live context is left and marked past |
| `ConsumerProvisos.FalseHandledLosesAMessage` | shared/infrastructure/kafka/consumer/group_handler.go:136-139 | ErrMessageHandledByDLQ returned by the handler loses its message |
| `ConsumerProvisos.FinalRefusalLosesAMessage` | shared/infrastructure/kafka/consumer/group_handler.go:171-183 | a publisher that refuses with a non-retryable error loses the message |
| `ConsumerProvisos.NoPublisherLosesAMessage` | shared/infrastructure/kafka/consumer/consumer.go:119-126 | without a publisher a non-retryable error loses the message |
| `ConsumerChain.MarkedExactly` | shared/infrastructure/kafka/consumer/group_handler.go:123-198 | with a handler that never returns ErrMessageHandledByDLQ an offset is marked if and only if its message was processed, accepted or skipped, or the DLQ step itself ended, under a live context, with an error that counts as non-retryable |
| `ConsumerChain.LastCall` | shared/infrastructure/kafka/consumer/middlewares.go:57-101 | the result of the retries is that of their last call: a success, a panic, a non-retryable error as it is, the last error as exhausted, or a stop |
| `ConsumerChain.DlqCountsAttempts` | shared/infrastructure/kafka/consumer/middlewares.go:135-146 | the attempt count sent to the DLQ after exhausted retries is the number of handler calls, and the error is the last one |
| `ConsumerChain.DlqCountsNoAttempts` | shared/infrastructure/kafka/consumer/middlewares.go:135-146 | an error that was not retried goes to the DLQ as it is, with a count of 0 |
| `ConsumerChain.PanicFails` | shared/infrastructure/kafka/consumer/middlewares.go:16-38 | a panic of the handler ends the claim, so its message is read again |
| `ConsumerChain.RetryMiddleware` | shared/infrastructure/kafka/consumer/middlewares.go:41-102 | at most max_retries + 1 calls, all but the last failed with errors that do not end the retries; a NonRetryableError at the first call is returned after that call as it is |
| `ConsumerErrors.ExhaustedInside` | shared/infrastructure/kafka/consumer/errors.go:19-63 | what errors.As digs out of an error carries no control flow the error does not have |
| `ConsumerErrors.NonRetryableExactly` | shared/infrastructure/kafka/consumer/errors.go:49-63 | an error ends the retries if and only if it wraps one that is too large, non-retryable or control flow |
| `ConsumerErrors.IsFindsWrapped` | shared/infrastructure/kafka/consumer/errors.go:49-54 | errors.Is finds a sentinel if and only if it is wrapped somewhere |
| `ConsumerErrors.AsFindsFirst` | shared/infrastructure/kafka/consumer/errors.go:19-30 | errors.As finds the outermost exhausted error, and none if and only if none is wrapped |
| `ConsumerClaims.Consumer.Dlq` | shared/infrastructure/kafka/consumer/consumer.go:107-145 | the middleware and sendToDLQ: the message counts as accepted only when the publisher took it, and carries the unwrapped error and the count of attempts |
| `ConsumerClaims.OnlyFailuresEnd` | shared/infrastructure/kafka/consumer/group_handler.go:44-65 | a claim ends early if and only if a message failed |
| `ConsumerClaims.MarkedGrows` | shared/infrastructure/kafka/consumer/group_handler.go:123-198 | the marked offset never moves back and moves behind every message marked |
| `ConsumerClaims.Consumer.HandleMessageResult` | shared/infrastructure/kafka/consumer/group_handler.go:123-198 | which errors mark the offset, which leave it and which end the claim |
| `ConsumerClaims.Consumer.HandleMessage` | shared/infrastructure/kafka/consumer/group_handler.go:67-85 | one message through panic recovery, DLQ and retry middleware to its verdict |
| `ConsumerClaims.Consumer.ConsumeClaim` | shared/infrastructure/kafka/consumer/group_handler.go:44-65 | the loop handles message after message and is ended early only by a failure |
| `ConsumerClaims.Consumer.Consume` | shared/infrastructure/kafka/consumer/consumer.go:69-97 | session after session, and with safe deliveries the marked offset has passed no message that was not dealt with |
| `Dlq.PayloadAndProvenanceKept` | shared/infrastructure/kafka/consumer/consumer.go:147-220 | key, payload and position never change, and topic, partition, offset, attempts and trace parent survive every trimming |
| `Dlq.FitsExactly` | shared/infrastructure/kafka/consumer/consumer.go:147-185 | the result is within the byte budget if and only if the message with all headers is, or the one with the essential headers without dlq-error is |
| `Dlq.AllOrTrimmed` | shared/infrastructure/kafka/consumer/consumer.go:147-185 | a message that fits keeps every original header; otherwise only essential names are left, with the size of the original message and of its payload in bytes |
| `Dlq.EssentialKept` | shared/infrastructure/kafka/consumer/consumer.go:226-236 | trimming keeps a header if and only if its name is one of the ten essential ones, with its value |
| `Dlq.SizeByHeaders` | shared/infrastructure/kafka/consumer/consumer.go:255-263 | the size is the bytes of key and payload, and for each header those of its name and its value |
| `Dlq.TraceableByName` | shared/infrastructure/kafka/consumer/consumer.go:187-208 | the provenance headers under the names they are sent with |
| `Dlq.ErrorDroppedOnlyIfNeeded` | shared/infrastructure/kafka/consumer/consumer.go:168-174 | dlq-error is dropped only when even its short form does not fit |
| `Dlq.ErrorHeaderIsValidPrefix` | shared/infrastructure/kafka/consumer/consumer.go:203-203 | a dlq-error made from valid UTF-8 is a valid prefix of it, at most 3 bytes below its cut |
| `Dlq.MessageSize` | shared/infrastructure/kafka/consumer/consumer.go:255-263 | the loop over the header map in any order gives the size of the message |
| `Dlq.BuildDlqHeaders` | shared/infrastructure/kafka/consumer/consumer.go:187-208 | the original headers with the provenance over them |
| `Dlq.TrimToEssential` | shared/infrastructure/kafka/consumer/consumer.go:226-236 | exactly the essential headers are left |
| `Dlq.BuildDlqMessage` | shared/infrastructure/kafka/consumer/consumer.go:147-185 | the result is the first of four candidates that fits: all headers, the essential ones, those with a short error, those without |
| `Utf8.CutIsValidPrefix` | shared/infrastructure/kafka/consumer/consumer.go:238-253 | a cut of valid text is a valid prefix within the limit and at most 3 bytes below it |
| `Utf8.CutMayLoseThree` | shared/infrastructure/kafka/consumer/consumer.go:247-250 | the 3 bytes can be lost |
| `Utf8.ValidIsEncoded` | shared/infrastructure/kafka/consumer/consumer.go:247-250 | text that the cut takes for valid is the encoding of Unicode scalar values (sections 3 and 4 of RFC 3629) |
| `Utf8.EncodedIsValid` | shared/infrastructure/kafka/consumer/consumer.go:247-250 | and every such encoding is taken for valid |
| `Utf8.TruncateUtf8Bytes` | shared/infrastructure/kafka/consumer/consumer.go:238-253 | the loop finds the longest valid prefix within the limit |
| `MarketBlock.LastWriterWinsExactly` | orderService/internal/infrastructure/redis/market/market_block_store.go:26-54 | since the key was created the register holds the greatest stamp seen and the state of the last call with it if and only if that stamp has at most 14 significant digits, whatever the other stamps are |
| `MarketBlock.LawOverStamps` | orderService/internal/infrastructure/redis/market/market_block_store.go:26-54 | so over a set of stamps every sequence of calls obeys that law if and only if all of them have at most 14 significant digits |
| `MarketBlock.HoldsNewestRounded` | orderService/internal/infrastructure/redis/market/market_block_store.go:43-53 | in every case the stored number is the greatest stamp seen rounded to 14 digits, with the state of a call of that rounded stamp |
| `MarketBlock.AppliedExactly` | orderService/internal/infrastructure/redis/market/market_block_store.go:43-53 | a further call is applied if and only if its stamp is not below the greatest stamp seen, rounded |
| `MarketBlock.OnlyRegistersAreRead` | orderService/internal/infrastructure/redis/market/market_block_store.go:181-203 | only a number, a colon and a 0 or 1 are read, as just that; any other value of the key is refused |
| `Rounding.KeptExactly` | orderService/internal/infrastructure/redis/market/market_block_store.go:52-52 | the numbers that writing and reading leave alone are exactly those of at most 14 significant digits |
| `Rounding.RoundsToNearest` | orderService/internal/infrastructure/redis/market/market_block_store.go:52-52 | a number is written as the nearest multiple of its unit, of two the even one |
| `Rounding.UnitLeavesFourteenDigits` | orderService/internal/infrastructure/redis/market/market_block_store.go:52-52 | the unit is 1 below 10^14, and above it the power of ten that leaves 14 digits |
| `MarketBlock.OrdersConvergeExactly` | orderService/internal/infrastructure/redis/market/market_block_store.go:26-54 | all delivery orders and multiplicities of a set of calls converge if and only if the calls the register may show agree on the state |
| `MarketBlock.OrdersConverge` | orderService/internal/infrastructure/redis/market/market_block_store.go:26-54 | so versions with one state per stamp converge to the newest if its stamp has at most 14 significant digits |
| `MarketBlock.ReadBackExactly` | orderService/internal/infrastructure/redis/market/market_block_store.go:181-203 | a stored value is read back as it was written if and only if its stamp is below 10^14 ms; above, the script writes an exponent and the parser refuses it |
| `MarketBlock.RoundedStampHidesNewerState` | orderService/internal/infrastructure/redis/market/market_block_store.go:26-54 | two concrete stamps of 15 digits, of which the newer one is refused |
| `MarketBlock.MarketBlockStore.SynchronizeState` | orderService/internal/infrastructure/redis/market/market_block_store.go:70-123 | the script replaces the value unless the stored stamp is newer, and the caller is told whether it did |
| `MarketBlock.MarketBlockStore.IsBlocked` | orderService/internal/infrastructure/redis/market/market_block_store.go:125-164 | no key means not blocked, a readable key its state, and an unreadable one is deleted and reported |
| `RateLimiter.FirstCallsAllowed` | orderService/internal/infrastructure/redis/order/order_rate_limiter.go:15-70 | within one window exactly the first limit calls are allowed |
| `RateLimiter.LessThanTwiceTheLimit` | orderService/internal/infrastructure/redis/order/order_rate_limiter.go:15-70 | in any interval as long as a window at most 2 * limit - 1 calls are allowed, for every trace of call times |
| `RateLimiter.BoundIsMet` | orderService/internal/infrastructure/redis/order/order_rate_limiter.go:15-21 | that bound is met for every positive window and limit |
| `RateLimiter.OrderRateLimiter.Allow` | orderService/internal/infrastructure/redis/order/order_rate_limiter.go:44-70 | a window that is not positive is an error; otherwise the call is counted and answered |
| `RefreshTokens.OneLiveKey` | orderService/internal/infrastructure/redis/auth/refresh_token_store.go:22-68 | over any interleaving of rotations and logins, with scripts that run late or again: a user has at most one live refresh key; it is the last one issued and the tracked one, and tracking key and session expire with it |
| `RefreshTokens.LiveIdsSession` | orderService/internal/infrastructure/redis/auth/refresh_token_store.go:22-68 | in every run, while an id is live, the session is the one given with the command that issued it |
| `RefreshTokens.DeadAfterTtl` | orderService/internal/infrastructure/redis/auth/refresh_token_store.go:44-65 | an id that is not issued again is dead once more than the TTL has passed |
| `RefreshTokens.NeverRotatedTwice` | orderService/internal/infrastructure/redis/auth/refresh_token_store.go:22-49 | if no login script runs once its id was rotated, no refresh id is ever rotated successfully twice |
| `RefreshTokens.LoginsUnusedExactly` | orderService/internal/infrastructure/redis/auth/refresh_token_store.go:22-68 | that condition is exact: an event meets it if and only if no continuation that meets it rotates an id twice |
| `RefreshTokens.LoginAgainRotatesTwice` | orderService/internal/infrastructure/redis/auth/refresh_token_store.go:51-68 | it can be broken from the start: a run in which a login script runs again and its id is rotated twice |
| `RefreshTokens.SuccessorEndsPredecessor` | orderService/internal/infrastructure/redis/auth/refresh_token_store.go:44-65 | if no login script runs once its id has a successor, an id is never live again once another was issued after it |
| `RefreshTokens.LoginsCurrentExactly` | orderService/internal/infrastructure/redis/auth/refresh_token_store.go:51-68 | this condition is exact too: an event meets it if and only if no continuation that meets it brings an id back that had a successor |
| `RefreshTokens.RefreshTokenStore.RotateScript` | orderService/internal/infrastructure/redis/auth/refresh_token_store.go:22-49 | it returns 1 if and only if session, presented key and tracked key pass the checks, and then the new key, the new session and the pointer live for one TTL and the presented key is gone; otherwise nothing changes |
| `RefreshTokens.RefreshTokenStore.ReplaceScript` | orderService/internal/infrastructure/redis/auth/refresh_token_store.go:51-68 | the tracked key is gone, and the new key, session and pointer live for one TTL |
| `RefreshTokens.RefreshTokenStore.Refresh` | orderService/internal/services/auth/auth_service.go:55-129 | in every run an issued token is the current live one, the presented one is dead, the session stays, and the issued token passes the checks of the next refresh |
| `Paging.PagingVisitsEveryVisibleMarketOnce` | spotService/internal/services/spot/market_viewer.go:510-525 | over an unchanged store, following next_offset from 0 with any positive limit ends and yields exactly the markets the role may see, in (name, id) order, each once |
| `Paging.ZeroLimitStays` | spotService/internal/services/spot/market_viewer.go:560-568 | a limit of zero never gets anywhere, which is why the configured default must be positive |
| `Paging.PageOfDirect` | spotService/internal/services/spot/market_viewer.go:510-525 | cutting any longer read to the limit gives the page of the direct query |
| `Paging.TextLessExactly` | spotService/internal/infrastructure/postgres/spot/market_store.go:92-98 | names are ordered by the first character in which they differ |
| `Paging.GetMarketsPage` | spotService/internal/infrastructure/postgres/spot/market_store.go:39-131 | the slice of the ordered visible rows with one row more than the limit, and an error for an empty store |
| `Paging.EffectiveUserRole` | spotService/internal/services/spot/market_viewer.go:541-558 | the loop returns the most privileged known role |
| `Paging.MarketViewer.TryLoadHeadPage` | spotService/internal/services/spot/market_viewer.go:144-183 | from a fresh cache or the store, the head page is that of the direct query and the cache stays fresh |
| `Paging.MarketViewer.ViewMarkets` | spotService/internal/services/spot/market_viewer.go:89-142 | while the cache is fresh, and always beyond the head page, the answer is that of the direct query, which shows deleted markets to admins only and disabled ones to admins and viewers only; at most the default, given or maximal number of rows are returned, exactly that many if there are more |
| `Paging.MarketViewer.RefreshAll` | spotService/internal/services/spot/market_viewer.go:410-471 | whatever was cached before, a completed refresh leaves the cache fresh; an empty store empties it |
| `Query.Select` | spotService/internal/infrastructure/postgres/spot/market_store.go:92-98 | `ORDER BY ... LIMIT ... OFFSET` returns a slice of the listing |
| `Query.ListsUnique` | spotService/internal/infrastructure/postgres/spot/market_store.go:215-221 | there is only one way to list rows in a strict total order |
| `Decimal.FitsIsArithmetic` | orderService/internal/domain/models/shared/order.go:97-127 | on any decimal text with any leading and trailing zeros the digit counts accept exactly when the value times 10^scale is whole and the value is below 10^(precision - scale) |
| `Decimal.AcceptedIsStoredExactly` | orderService/internal/domain/models/shared/order.go:97-113 | a price is accepted if and only if NUMERIC(precision, scale) can hold it without loss |
| `Decimal.DigitsBound` | orderService/internal/domain/models/shared/order.go:115-122 | the counted integer digits are at most k exactly below 10^k |
| `Decimal.WholeWhenScaled` | orderService/internal/domain/models/shared/order.go:124-127 | the counted fractional digits are at most the scale exactly when the scaled value is whole |

## Left out

- RequestEncoding.EncodeInjective: for valid order types only, because all others are written alike; such an order is refused by the table's check.
- Paging.MarketViewer.ViewMarkets: requires limits that leave room for the two rows read on top of them in an int; the configuration check allows limits up to that int, and the wrap is not modelled.
- Rounding.Rounded: rounds the stamp itself to 14 digits, while Lua first turns it into a double; above 2^53 the last digit of a rounded stamp may differ. Which stamps are kept is not affected.
- I/O errors of plain reads and deletes (block register, caches): the caller gets the error and nothing changes; GetMarketsPage's second query for an empty page sees the same table as the first.
- Values of a block register written by another program, and the script's error replies for them.
- A rate limiter script that runs again: it counts as one more call.
- The order in which a claim picks rows and the rows other workers have locked: any set of due pending rows within the limit may be claimed.
- Publication order per aggregate, exactly one Kafka message per outbox row, no active order on a disabled market: the code does not claim them.
- The outbox of the spot service: the same state machine as that of the order service.
- The market block queue and its workers, the by-id market cache and its single flight: caches without a freshness claim.
- Checks before saving (rate limit, market state) inside CreateOrder: one nondeterministic outcome; the limiter has its own model.
- The retry delays' jitter, tickers, backoff, logging, tracing, metrics, gRPC, configuration loading and mappers.
- JSON and protobuf encoding of events and cached pages: the encoded values are kept as they are.
- Termination of the worker, poller and consumer main loops, which end only with their context.
