# Verified model of the commerce workflow

This project models the at-least-once order workflow of the repository in Dafny and proves what
it promises: the transactional outbox with competing relays, the inventory reservation with its
two stores, the message consumer and the confirmed publisher, dead-letter replay, idempotent order
submission with its forward-only status and its timeline, and the composition of all five services.

`dafny verify dfyconfig.toml` checks everything.

## How the model is built

- Code that changes things step by step is a class or a method with the source's loop
  (`PostgresOutboxStore`, `RelayCycle`, `OutboxRelayLoop`, `DraftTransaction`,
  `InMemoryInventoryStore`, `RecentEventIds`, `QueueConsumer`, `Publications`, `Broker`,
  `PostgresOrderStore`, `OrderStoreInMemory`, `NotificationStore`, `Pool`), proved against a
  function of the old state.
- Concurrency is a state machine over those functions, cut at every `await` or SQL statement:
  `OutboxProtocol` (any number of relays), `RelayLoop` (notify, abort and timers),
  `InventoryLocking` (advisory and row locks), `ConsumerProtocol` (interleaved deliveries).
  `RelayRuns` and `ConsumerProtocol.LoopIsRun` tie the cycle and the retry loop to these runs.
- `Workflow` composes them: the order tables of `OrderStore`, the inventory of `InventoryService`,
  one full `OutboxProtocol` system behind each, the five queues, the caches and the notifications.
  A step is one transaction, one relay step, one handler run (also a late one, whose message went
  elsewhere in the meantime) or one move of a message.
  `WorkflowInvariant` and `WorkflowSteps` hold the invariant, `WorkflowTheorems`, `WorkflowStock`,
  `WorkflowQuiescence` and `WorkflowProgress` the results.
- What the surroundings decide (clock readings, generated ids, whether a statement takes effect or
  only its reply is lost, what a publication comes to, when a process dies) is a parameter and
  therefore arbitrary.
- Ids are a free algebra: generated ids are opaque numbers and derived ids (RFC 9562, section 5.5)
  keep their namespace and source, which is the collision freedom that the SHA-1 based derivation
  is trusted for. Request fingerprints are equal exactly for equal requests.

## Two results that are not what one might expect

- The status of an order is not confluent for every event sequence: a failed reservation recorded
  before a delivery wins, and recorded after it loses. `OrderStatus.ConfluentIff` gives the exact
  condition, and the workflow results show that no reachable history violates it.
- PostgreSQL and the in-memory inventory differ on some orders that are not short: zero of an
  unknown product, whose row the UPDATE misses, and hugely negative quantities of a known one,
  which overflow the cast or the column. The in-memory store reserves them.
  `InventoryRuns.DecrementFailsIff` gives the exact condition and `InventoryRuns.DecrementCanFail`
  an example of each kind. The event contract only admits positive quantities
  (shared/contracts/src/schemas.ts:38-46), so neither kind comes in as a message; only direct
  callers of the store could meet them, and `InventoryLocking.DecrementNeverFails` and
  `WorkflowStock.NoDecrementThrows` show that no run of messages does.

The reliability notes of the repository still describe retried submissions as a limitation; the
code has idempotency keys, and the model follows the code.

## Model

| member | source | states |
|---|---|---|
| `WorkflowTheorems.NoOrderIsLost` | services/payment-service/src/orderCreatedHandler.ts:62-69 | In every reachable state of the five services, both outboxes with all their relays, and the broker, under crashes, lost replies, late handlers, duplicates, reordering, dead-lettering and replay, each stored order is where its own progress says: until decided, an unpublished row while unconfirmed, then a payment message until Payment handled it, then an inventory message; after the decision an unpublished result row, then a message of the result's next step until the customer is told (stale copies of earlier steps do not count) |
| `WorkflowTheorems.OutcomeAgreement` | services/notification-service/src/notificationService.ts:102-123 | Over every run and for every order: at most one notice of each type and never both types; a delivery notice or a delivered status implies the reservation record is Reserved, a failure notice or failed status that it is Rejected; a reservation is for exactly the items ordered |
| `WorkflowTheorems.EmissionsAreEqual` | services/payment-service/src/paymentService.ts:41-68 | Any two messages of one order that tell the same step (created, authorized, result of the reservation, booked) are equal, in whatever queues, at whatever two times of a run and whether or not the earlier copy was handled and acknowledged in between: a re-emission carries the ids and data of the first, and an order never has a reservation and a rejection |
| `WorkflowTheorems.MessagesTellTheOrder` | services/delivery-service/src/deliveryService.ts:37-67 | Every message in any queue and the event behind every notice is about a stored order and carries its correlation id; authorizations carry its time, amount and items, reservations its items, and a booking the time of its reservation and an estimate three days from then |
| `WorkflowTheorems.StatusIgnoresArrivalOrder` | services/order-service/src/orderStatus.ts:31-50 | In every reachable state an order's status is the furthest of its recorded steps, and no other arrival order of those steps could have given another status |
| `WorkflowStock.NothingIsOversold` | services/inventory-service/src/inventoryService.ts:86-181 | Over every run of the whole workflow from a stock within its column: stock stays within its column, hence never negative, with the same products; with what Reserved records keep it adds up to the initial stock, so no product is reserved beyond it |
| `WorkflowStock.NoDecrementThrows` | services/inventory-service/src/postgresInventoryStore.ts:214-255 | In no reachable state can a handler run that decides an order meet a decrement that throws (row missing, cast or difference overflowing): what comes through the order API and the queues is positive |
| `WorkflowStock.StepKeepsStockInv` | services/order-service/src/orderRequestValidator.ts:36-46 | Every step keeps all stored orders positive in every item and stock within its column; only the submission, whose request is validated, adds an order |
| `WorkflowStock.RunConservesStock` | services/inventory-service/src/inventoryService.ts:86-181 | Between any two states of a run, stock on the shelf plus what Reserved records keep is the same per product |
| `WorkflowStock.ResultCarriesDraw` | services/inventory-service/src/inventoryService.ts:120-181 | In the workflow a deciding run adds one result event with the id, time and reservation id drawn for that run and the payment's correlation id |
| `WorkflowQuiescence.NothingPendingMeansFinished` | shared/contracts/src/routing.ts:42-84 | A stored order with no unpublished row and no message in any queue or dead-letter queue is finished everywhere: reservation decided, customer told that decision, status and outcome to match, and its history holds exactly the steps of its way (authorized, reserved and booked, or authorized and failed) |
| `WorkflowProgress.NoOrderIsStuck` | shared/persistence/src/outbox/outboxRelay.ts:261-354 | From every reachable state and for every batch size some continuation of the run, in which every claim is of exactly that size however many older rows wait (built step by step: relay cycles, deliveries, replays, handler runs), decides a stored order, tells its customer that decision and records the matching final status |
| `WorkflowProgress.CanHandle` | shared/messaging/src/rabbitMqClient.ts:1013-1034 | A message anywhere in a queue, also a dead-lettered one, can still be delivered and handled for good |
| `RelayRuns.CanPublish` | shared/persistence/src/outbox/outboxRelay.ts:261-354 | Whatever the relays were doing and however many older rows are due, a new relay whose claims all have one fixed size gets an unpublished row confirmed |
| `RelayRuns.Drains` | shared/persistence/src/outbox/outboxRelay.ts:186-240 | One relay, cycle after cycle with a fixed batch size of at least one, works through all older due rows and publishes the given row |
| `RelayRuns.CycleIsRun` | shared/persistence/src/outbox/outboxRelay.ts:261-354 | The uninterrupted cycle, however its statements and publications end, is a run of the protocol (claim, a result per claimed row, settle, mark, a release per failed row), and that run leaves the table that the cycle method is proved to leave |
| `WorkflowSteps.StepKeepsInv` | services/payment-service/src/orderCreatedHandler.ts:62-69 | Every step (submission, relay step, delivery, handler run in time or late, settlement, redelivery, replay, restart) keeps the workflow invariant and undoes nothing that was decided, kept, handled or secured before it |
| `WorkflowSteps.RecentIsDone` | shared/messaging/src/rabbitMqClient.ts:980-1007 | A delivery acknowledged because of the recent-id cache was handled before: its event's effect is in place or secured downstream |
| `WorkflowInvariant.SameId` | shared/contracts/src/identifiers.ts:14-59 | In one queue an event id stands for one event, for generated and derived ids alike |
| `WorkflowSteps.SecuredForGood` | shared/persistence/src/outbox/outboxRelay.ts:322-327 | Along every run from a sound world: an event that is in its queues or done there stays so, and what a consumer has done with an event stays done |
| `OutboxProtocol.StepKeepsInv` | shared/persistence/src/outbox/postgresOutboxStore.ts:76-83 | Every step of any number of relays keeps: claimed_by names the owner of the newest unsettled claim, attempts counts the claims, a marked row was confirmed, every row is available again by its last touch plus max(lease, retry cap) |
| `OutboxProtocol.EachTokenIsIssuedOnce` | shared/persistence/src/outbox/postgresOutboxStore.ts:76-83 | Along every run a row's attempts never decrease, and of each row exactly the (row, attempts) tokens between the old and the new number are issued, each by exactly one claim of the run |
| `OutboxProtocol.TokensAreIssuedOnce` | shared/persistence/src/outbox/postgresOutboxStore.ts:76-83 | In every reachable state attempts equals the number of claims, and two relays never hold the same token |
| `OutboxProtocol.ReleaseIsFenced` | shared/persistence/src/outbox/postgresOutboxStore.ts:138-172 | A release changes its row if and only if it carries the newest token of an unpublished row not yet given back; every other release changes nothing |
| `OutboxProtocol.BackoffIsServed` | shared/persistence/src/outbox/postgresOutboxStore.ts:138-172 | After a release that takes effect, whichever relays run on, no claim takes the row before its delay has passed, which is at least half the exponential delay of its attempt |
| `OutboxProtocol.PublishedRowsAreFinal` | shared/persistence/src/outbox/postgresOutboxStore.ts:109-136 | A published row is never claimed, released or re-stamped by any later step |
| `OutboxProtocol.MarkedOnlyAfterConfirm` | shared/persistence/src/outbox/outboxRelay.ts:322-327 | A row is marked published only in runs in which some publication of it was confirmed |
| `OutboxProtocol.UnpublishedRowsComeDue` | shared/persistence/src/outbox/postgresOutboxStore.ts:66-83 | After any run an unpublished row is due no later than max(lease, retry cap) after it was last inserted, claimed or released |
| `OutboxProtocol.UnpublishedRowsAreClaimedAgain` | shared/persistence/src/outbox/postgresOutboxStore.ts:66-83 | After any run and that wait, a claim by a free relay gets the row if and only if fewer older rows than its limit are due |
| `OutboxProtocol.LeaseExcludesOthers` | services/inventory-service/src/config.ts:52-59 | If every cycle settles within its lease, no two relays ever have the same row in hand, and a holder's claim is never stale |
| `OutboxProtocol.NothingIsPublishedTwice` | services/inventory-service/src/config.ts:52-59 | With timely cycles and no failures the broker accepts each row at most once, and exactly once by the time it is marked, for any number of relays and batch sizes |
| `OutboxStore.FirstIdsTakesOldest` | shared/persistence/src/outbox/postgresOutboxStore.ts:66-75 | The claim takes min(limit, due) distinct due rows in ascending order and never skips an older one for a newer |
| `OutboxStore.TakenIff` | shared/persistence/src/outbox/postgresOutboxStore.ts:66-75 | A due row is taken if and only if fewer older due rows than the limit stand before it |
| `OutboxStore.ClaimedIff` | shared/persistence/src/outbox/postgresOutboxStore.ts:66-75 | A claim takes a row if and only if it is unpublished, available and not locked, and fewer such rows than the limit are older |
| `OutboxStore.ClaimedRowIsHeld` | shared/persistence/src/outbox/postgresOutboxStore.ts:76-83 | A claimed row is due again exactly when the lease is over, belongs to the claimant and counts one attempt more; nothing else about it changes |
| `OutboxStore.ReleasedRowWaits` | shared/persistence/src/outbox/postgresOutboxStore.ts:138-172 | A released row is due exactly once its delay has passed, belongs to nobody and keeps the first two thousand characters of the error; nothing else about it and no other row changes |
| `OutboxStore.MarkedRowIsDone` | shared/persistence/src/outbox/postgresOutboxStore.ts:109-136 | A marked row carries the time of its first mark, no claimant and no error, and is never due again; all others stay |
| `OutboxStore.PostgresOutboxStore.ClaimBatch` | shared/persistence/src/outbox/postgresOutboxStore.ts:58-107 | Exactly the oldest due unlocked rows up to the limit get lease, claimant and attempts + 1; the returned messages carry the new tokens in order; all other rows are unchanged |
| `OutboxStore.PostgresOutboxStore.MarkPublished` | shared/persistence/src/outbox/postgresOutboxStore.ts:109-136 | Stamps exactly the given rows that are not published yet, whoever claimed them |
| `OutboxStore.PostgresOutboxStore.ReleaseForRetry` | shared/persistence/src/outbox/postgresOutboxStore.ts:138-173 | Returns true exactly when claimant, attempts and publication state still match; then this row alone becomes available after the delay, with the error stored and the claim given up; otherwise nothing changes |
| `OutboxRelay.RelayCycle.ProcessBatch` | shared/persistence/src/outbox/outboxRelay.ts:261-354 | One cycle: every claimed row ends published at the time of the mark, or free again and due between half the exponential delay of its attempt and all of it after its release, or held until the lease runs out if its release had no effect; no other row changes; when the claim or the mark reports an error nothing is rescheduled, and the table is the old one, the claimed one or the claimed and marked one, by what took effect |
| `OutboxRelay.CycleLeavesOne` | shared/persistence/src/outbox/outboxRelay.ts:261-354 | The clock readings, random numbers, lost statements and publication results of a cycle determine the table it leaves: no two tables satisfy what the cycle method promises |
| `OutboxRelay.MembersOfSplit` | shared/persistence/src/outbox/outboxRelay.ts:293-320 | The published and failed parts of a batch are exactly its confirmed and its other messages, in claim order, and together hold every claimed message exactly once |
| `OutboxRelay.RelayCycle.ScheduleRetries` | shared/persistence/src/outbox/outboxRelay.ts:346-351 | Each failed message's row becomes due between half the exponential delay of its attempt and all of it after its release, with its error, unless the release had no effect; no other row changes |
| `Backoff.RetryDelayWithinJitter` | shared/persistence/src/outbox/outboxRelay.ts:432-450 | For every random number in [0, 1) the delay lies between half of min(base * 2^(attempt-1), cap) and all of it |
| `Backoff.RetryDelayIsRandomShare` | shared/persistence/src/outbox/outboxRelay.ts:432-450 | The delay is (1 + random) / 2 of the exponential delay, rounded half up |
| `Backoff.DelayDoubles` | shared/persistence/src/outbox/outboxRelay.ts:432-450 | The exponential delay is the base on the first attempt and doubles with each further one until it meets the cap |
| `Backoff.BackoffGrowsToCap` | shared/persistence/src/outbox/outboxRelay.ts:432-450 | The exponential part never shrinks with further attempts and reaches the cap |
| `RelayLoop.NoLostWakeUp` | shared/persistence/src/outbox/outboxRelay.ts:452-506 | In every interleaving of notify, abort, timer and batch completion: never in the poll wait with a notification since the last claim began, woken exactly while in it, never asleep once aborted, and stopped only with no batch open |
| `RelayLoop.NotificationBeginsBatch` | shared/persistence/src/outbox/outboxRelay.ts:142-147 | A poll wait after a notification means a batch was begun after that notification |
| `RelayLoop.WaitsFollowBatches` | shared/persistence/src/outbox/outboxRelay.ts:186-240 | In every interleaving the loop polls only after a batch that was not full, backs off only after one that threw, stops only when aborted, and counts the batches that threw since the last one that did not |
| `RelayLoop.BatchDecidesWay` | shared/persistence/src/outbox/outboxRelay.ts:186-240 | After every reachable batch: a full one is followed by the next batch without a wait, one that was not full by the poll wait unless a notification is pending, one that threw by the backoff wait, notified or not; an abort ends the loop instead |
| `RelayLoop.WaitEndsIff` | shared/persistence/src/outbox/outboxRelay.ts:452-506 | A poll wait ends by timer, abort or notification, a backoff wait only by timer or abort; after either the loop claims again or stops |
| `RelayLoop.OutboxRelayLoop.Notify` | shared/persistence/src/outbox/outboxRelay.ts:142-147 | Sets notified and ends a poll wait, nothing else |
| `RelayLoop.OutboxRelayLoop.Continue` | shared/persistence/src/outbox/outboxRelay.ts:192-240 | After a batch that threw: one failure more and the backoff wait; after a full one: the counter is reset and the next batch begins; after any other: the counter is reset and the poll wait, unless notified; aborted, the loop goes to its end |
| `RelayLoop.OutboxRelayLoop.BeginCycle` | shared/persistence/src/outbox/outboxRelay.ts:186-194 | The loop head: stops when aborted, otherwise forgets notifications and begins a batch |
| `RelayLoop.OutboxRelayLoop.Wait` | shared/persistence/src/outbox/outboxRelay.ts:452-506 | Returns at once when aborted or already notified; otherwise waits, with wakeUp set only if a notification may end the wait |
| `InventoryService.ReserveForPayment` | services/inventory-service/src/inventoryService.ts:78-184 | On a draft: an existing record makes it a duplicate that changes nothing; otherwise record, event and stock become those of the decision; it never throws |
| `InventoryService.AggregateQuantities` | services/inventory-service/src/inventoryService.ts:244-263 | The totals per product, keys in order of first appearance |
| `InventoryService.TotalsAdd` | services/inventory-service/src/inventoryService.ts:244-263 | A product's total is the sum of the quantities its items ask for |
| `InventoryService.ProductsComeInOrder` | services/inventory-service/src/inventoryService.ts:244-263 | The keys come in the order of the products' first items |
| `InventoryService.FindUnavailableItems` | services/inventory-service/src/inventoryService.ts:265-298 | Exactly the requested products that are short, in request order, with requested and available quantities |
| `InventoryService.UnavailableListsTheShort` | services/inventory-service/src/inventoryService.ts:265-298 | A product is listed if and only if it is requested and short, once, with its true figures |
| `InventoryService.DecrementEach` | services/inventory-service/src/inMemoryInventoryStore.ts:144-170 | Succeeds if and only if no product is short, and then has subtracted each total once |
| `InventoryService.LockedStockDecides` | services/inventory-service/src/postgresInventoryStore.ts:182-212 | Deciding on the locked rows alone gives the decision on the whole stock |
| `InventoryService.InMemoryInventoryStore.InTransaction` | services/inventory-service/src/inMemoryInventoryStore.ts:48-81 | Copy and swap: the state becomes that of the serial decision, or stays untouched when the work throws |
| `InventoryRuns.StockIsConserved` | services/inventory-service/src/inventoryService.ts:101-181 | Over every sequence of attempts (committed, reply lost, rolled back): initial stock equals current stock plus the quantities of Reserved records, per product |
| `InventoryRuns.StockStaysNonNegative` | services/inventory-service/src/inMemoryInventoryStore.ts:144-170 | No sequence of orders, whatever their quantities, takes a non-negative stock below zero |
| `InventoryRuns.OrderIsDecidedOnce` | services/inventory-service/src/inventoryService.ts:86-99 | Of all attempts of an order, under whatever event ids, at most one changes anything: exactly one if it has a record in the end |
| `InventoryRuns.OnlyDecisionsChangeState` | services/inventory-service/src/inventoryService.ts:86-99 | An attempt changes the state if and only if it commits for an order without a record |
| `InventoryRuns.OutcomeStands` | services/inventory-service/src/inventoryService.ts:86-99 | An order's record never changes once it exists |
| `InventoryRuns.RecordsMatchEvents` | services/inventory-service/src/inventoryService.ts:120-181 | After any run each record has exactly one outbox event and each event one record, with matching id, type and content |
| `InventoryRuns.RecordTellsDecision` | services/inventory-service/src/inventoryService.ts:101-181 | A record was made by the first committed attempt of its order, names that attempt's payment event, items and drawn ids, and is Reserved if and only if every requested total was in stock then |
| `InventoryRuns.ResultTellsRequest` | services/inventory-service/src/inventoryService.ts:120-181 | The decision adds one event, with the id, time, correlation id and reservation id of the request it answers |
| `InventoryRuns.EventIdsAreUnique` | services/inventory-service/src/migrations.ts:61-62 | When generated event ids are new, no two result events share an id |
| `InventoryRuns.RejectionListsTheShort` | services/inventory-service/src/inventoryService.ts:107-140 | An order is reserved if and only if no requested total exceeds the stock, and rejected otherwise; the rejection lists exactly the exceeding products with both figures and leaves the stock untouched |
| `InventoryRuns.DecrementFailsIff` | services/inventory-service/src/postgresInventoryStore.ts:214-255 | When nothing is short, the UPDATE throws (a row is missing, the cast or the difference overflows) if and only if an unknown product is requested with a total that is not positive, or a known one with a total below the 32-bit range or below its stock minus the largest integer |
| `InventoryRuns.DecrementCanFail` | services/inventory-service/src/postgresInventoryStore.ts:214-255 | Two concrete such orders: zero of an unknown product, and minus three thousand million of a known one |
| `InventoryRuns.ValidOrdersDecrementCleanly` | shared/contracts/src/schemas.ts:38-46 | For contract-valid quantities and a stock within its column, no check of the decrement fails and the new stock is within the column again |
| `InventoryRuns.StockStaysWithinBounds` | shared/contracts/src/schemas.ts:38-46 | Over every run of contract-valid orders from a stock within its column, stock stays within it |
| `InventoryLocking.StepKeepsInv` | services/inventory-service/src/postgresInventoryStore.ts:146-212 | Every lock, read, write, commit and abort step of any number of transactions keeps two-phase locking sound: what a transaction has read is locked by it and unchanged |
| `InventoryLocking.CommitIsSerial` | services/inventory-service/src/postgresInventoryStore.ts:42-90 | A commit writes exactly what the serial decision on the tables at that moment would |
| `InventoryLocking.DecrementNeverFails` | services/inventory-service/src/postgresInventoryStore.ts:214-255 | Over every interleaving of contract-valid requests from a stock within its column, the failing branch of the decrement is never enabled |
| `InventoryLocking.InterleavingsAreSerial` | services/inventory-service/src/postgresInventoryStore.ts:42-255 | For every interleaving, stock, reservations and the set of outbox events equal those of the copy-and-swap store after the requests of the run's own commits, in commit order |
| `InventoryLocking.ConcurrentStockIsConserved` | services/inventory-service/src/postgresInventoryStore.ts:214-255 | Conservation and non-negative stock hold for concurrent transactions too |
| `InventoryLocking.PrimaryKeyNeverViolated` | services/inventory-service/src/postgresInventoryStore.ts:149-152 | When a transaction inserts its record the order has none and no rival is past its lock, so the primary-key backstop is never hit |
| `InventoryLocking.OnlyRequestedRowsAreLocked` | services/inventory-service/src/postgresInventoryStore.ts:182-204 | Row locks are held only by running transactions that ask for the product, and one that goes on to write has all of its known products locked |
| `InventoryLocking.SomeTransactionCanStep` | services/inventory-service/src/postgresInventoryStore.ts:182-204 | Deadlock freedom: whenever transactions are unfinished, one of them has a step of its own to take |
| `InventoryLocking.StepsAreFinite` | services/inventory-service/src/postgresInventoryStore.ts:146-255 | Each step brings its own transaction closer to its end and moves no other back |
| `Consumer.CacheHoldsNewest` | shared/messaging/src/rabbitMqClient.ts:1355-1404 | After any adds the cache holds exactly the newest capacity-many insertions, distinct, in first-insertion order |
| `Consumer.RecentEventIds.Add` | shared/messaging/src/rabbitMqClient.ts:1372-1403 | Adds a new id, evicting the oldest beyond capacity; a known id or a capacity of zero changes nothing |
| `Consumer.AttemptsAreBounded` | shared/messaging/src/rabbitMqClient.ts:1013-1115 | The handler runs between once and max(1, maxAttempts) times; the last run decides the ending: handled if and only if it resolves, given up if and only if it fails for good or on the last attempt, abandoned if and only if the delay after any other failure is cut short; no earlier run could have ended the attempts |
| `Consumer.AttemptsFoldRuns` | shared/messaging/src/rabbitMqClient.ts:1013-1115 | The attempts leave what their handler runs leave, one after the other, each with its own draw |
| `Consumer.QueueConsumer.HandleDelivery` | shared/messaging/src/rabbitMqClient.ts:921-1116 | Malformed: dead-lettered unhandled; recently handled: acknowledged unhandled; otherwise acknowledged if and only if the last run resolved, dead-lettered if and only if it failed for good or was the last allowed one, and left unsettled only when abandoned; only handled ids enter the cache |
| `Consumer.Channel.Settle` | shared/messaging/src/rabbitMqClient.ts:1118-1155 | One settlement on an open channel, none on a closed one |
| `ConsumerProtocol.LoopIsRun` | shared/messaging/src/rabbitMqClient.ts:1013-1115 | The retry loop of one delivery is a run of the interleaved attempts of the protocol |
| `ConsumerProtocol.AcknowledgedIsDone` | shared/messaging/src/rabbitMqClient.ts:1019-1034 | With an idempotent handler every acknowledged or cached event has had its effect, in every interleaving of deliveries, crashes and redeliveries |
| `ConsumerProtocol.CacheChangesNothing` | shared/messaging/src/rabbitMqClient.ts:980-1007 | For any deliveries in any interleaving the consumer with the cache and the one without reach the same service state |
| `EffectivelyOnce.StockMovesOnce` | services/inventory-service/src/inventoryService.ts:86-99 | Through the at-least-once queue, counted over the steps of the run itself: exactly one step changes the inventory for an order that has a record in the end, none for any other; an acknowledged payment has its reservation; stock is conserved |
| `EffectivelyOnce.StepMovesIff` | services/inventory-service/src/inventoryService.ts:86-99 | A step of the consumer changes the inventory if and only if it ends a handler run that took effect for an undecided order |
| `EffectivelyOnce.DeliveriesAreAttempts` | shared/messaging/src/rabbitMqClient.ts:1013-1115 | The consumer leaves the inventory where exactly the run's own reservation attempts, in the order in which they end, leave it |
| `EffectivelyOnce.InventoryIgnoresCache` | shared/messaging/src/rabbitMqClient.ts:980-1007 | The recent-id cache never changes the inventory |
| `EffectivelyOnce.NotificationsIgnoreCache` | shared/messaging/src/rabbitMqClient.ts:980-1007 | Nor the notifications |
| `EffectivelyOnce.CustomersAreToldOnce` | services/notification-service/src/notificationService.ts:97-123 | Over every run each order is told each outcome at most once, every acknowledged outcome was told, and notices are only added |
| `PaymentService.PaymentIdsIdentify` | services/payment-service/src/paymentService.ts:41-80 | Two authorizations share an event id if and only if their sources do, and a payment id if and only if they are for one order |
| `DeliveryService.DeliveryIdsIdentify` | services/delivery-service/src/deliveryService.ts:37-79 | Bookings share an event id if and only if their sources do, and a delivery id if and only if they are for one order; neither ever meets an id of Payment, nor the event id a generated one |
| `DeliveryService.DeliveryTakesThreeDays` | services/delivery-service/src/deliveryService.ts:37-79 | The estimated day begins more than two and at most three days after the reservation |
| `NotificationService.CreateKeeps` | services/notification-service/src/notificationService.ts:97-123 | Creating a notice leaves its outcome notified, at most one notice per order and type, and all earlier notices in place |
| `NotificationService.NotificationStore.FindNotification` | services/notification-service/src/notificationService.ts:78-95 | Finds a notice of that order and type if and only if there is one |
| `NotificationService.NotificationStore.CreateNotification` | services/notification-service/src/notificationService.ts:102-123 | Appends one notice with the event, id and time given, or returns the existing one of its outcome |
| `ConfirmedPublisher.PublicationsSettleAsTold` | shared/messaging/src/confirmedPublisher.ts:114-205 | Over every trace in which a return precedes its own ack: settled exactly when acked, nacked or thrown; resolved exactly when acked and never returned |
| `ConfirmedPublisher.UnroutableTellsItsReturn` | shared/messaging/src/confirmedPublisher.ts:81-104 | An unroutable publication is reported with the fields of the last return about it |
| `ConfirmedPublisher.SettledOnce` | shared/messaging/src/confirmedPublisher.ts:133-175 | A settled publication never settles again or differently |
| `ConfirmedPublisher.PublicationsAreIndependent` | shared/messaging/src/confirmedPublisher.ts:81-104 | A publication's fate is a function of the actions about it alone |
| `ConfirmedPublisher.PendingCountsUnsettled` | shared/messaging/src/confirmedPublisher.ts:105-108 | pendingCount is the number of publications sent and not settled |
| `ConfirmedPublisher.Publications.PendingCount` | shared/messaging/src/confirmedPublisher.ts:105-108 | The size of the map in place is that number |
| `ConfirmedPublisher.LateReturnIsMissed` | shared/messaging/src/confirmedPublisher.ts:81-104 | A concrete trace showing that the promised order of return and ack is needed |
| `ConfirmedPublisher.Publications.Publish` | shared/messaging/src/confirmedPublisher.ts:114-205 | Publishing registers the id, or on a synchronous throw removes it and rejects; the fields follow the trace |
| `ConfirmedPublisher.Publications.OnReturn` | shared/messaging/src/confirmedPublisher.ts:81-104 | A return stores its fields at exactly the pending publication its header names |
| `ConfirmedPublisher.Publications.Settle` | shared/messaging/src/confirmedPublisher.ts:133-175 | A confirm removes that entry alone and rejects when failed, reports unroutable with the stored fields when returned, and resolves otherwise |
| `DeadLetters.CopyCountsReplay` | tools/cli/src/deadLetters.ts:373-399 | A copy keeps body and properties, counts one replay more (one if there was no count, not a number if the count was none), drops x-death and the headers starting with x-first-death- or x-last-death-, and keeps every other header |
| `DeadLetters.ReplayHeaders` | tools/cli/src/deadLetters.ts:373-399 | The loop computes exactly those headers |
| `DeadLetters.Republish` | tools/cli/src/deadLetters.ts:291-349 | The dead letter is acknowledged only after its copy was confirmed and routed; otherwise it is back at the head of its queue |
| `DeadLetters.ReplayDeadLetters` | tools/cli/src/deadLetters.ts:252-366 | Terminates whatever consumers add; moves a prefix of the messages present at the start, never more than the limit, and exactly as many as limit and queue allow when it completes, each once; at every exit the rest of them and everything that arrived is still queued, in order |
| `OrderStatus.StatusMovesForward` | services/order-service/src/orderStatus.ts:31-67 | The stage never decreases, a finished order stays finished, and the status is always one of the events |
| `OrderStatus.UnmixedEndsHighest` | services/order-service/src/orderStatus.ts:31-50 | Without a failed reservation next to its opposites the final status is one of the events that no other is further than, in whatever order with whatever repeats |
| `OrderStatus.ConfluentIff` | services/order-service/src/orderStatus.ts:31-50 | The final status is the same for all orders of the events if and only if they do not mix a failed reservation with a reserved or delivered event |
| `OrderStatus.FirstDecides` | services/order-service/src/orderStatus.ts:31-50 | Of a failed reservation and its opposites whichever is recorded first is kept |
| `OrderStore.SubmitWork` | services/order-service/src/postgresOrderStore.ts:96-211 | The statements on uncommitted tables: create order, Accepted entry and outbox row, or add a replay entry, or find the key reused; a violated constraint throws |
| `OrderStore.PostgresOrderStore.SubmitOrder` | services/order-service/src/postgresOrderStore.ts:96-211 | That work in one transaction: it takes effect as a whole or not at all; a reply with a body tells id, amount and correlation id of the order that is then stored under the key for the same request, with 201 if the key was new and 200 otherwise; an uncertain commit is answered with an error |
| `OrderStore.RecordWork` | services/order-service/src/postgresOrderStore.ts:218-324 | Records a new event once and moves the status forward, counts a repeated one, and changes nothing for an unknown order |
| `OrderStore.PostgresOrderStore.RecordWorkflowEvent` | services/order-service/src/postgresOrderStore.ts:218-324 | That work in one transaction |
| `OrderRuns.OneOrderPerKey` | services/order-service/src/postgresOrderStore.ts:99-161 | For every sequence of submissions (committed, reply lost, aborted): one order per key, with exactly one OrderCreated row and one Accepted entry |
| `OrderRuns.RepliesAgree` | services/order-service/src/app.ts:529-544 | All successful replies for a key carry the same body, however far the workflow has come in between |
| `OrderHistory.ReplyTellsFirst` | services/order-service/src/app.ts:529-544 | Over every run: a successful reply tells the order id, amount and correlation id of the first effective submission with its key, which made the same request, and says 201 if and only if it answers that very submission |
| `OrderHistory.OtherReplies` | services/order-service/src/postgresOrderStore.ts:186-190 | A conflict means an earlier effective submission with the same key and a different request; with new generated ids a submission is answered as unavailable if and only if its commit was not seen |
| `OrderHistory.OrderHasCreator` | services/order-service/src/postgresOrderStore.ts:96-161 | Every stored order is what the first effective submission with its key asked for, created at its time |
| `OrderHistory.EntriesTellTheRun` | services/order-service/src/postgresOrderStore.ts:218-324 | Every history row was written by one step of the run and tells its data and times: the first submission, a repetition, or the first delivery of an event |
| `OrderHistory.ReplaysAreCounted` | services/order-service/src/postgresOrderStore.ts:164-211 | An order has exactly one replay row per effective repetition of its request |
| `OrderHistory.RowsCountDeliveries` | services/order-service/src/postgresOrderStore.ts:227-322 | An event's row counts its committed deliveries |
| `OrderHistory.StatusTimesAreTold` | services/order-service/src/postgresOrderStore.ts:282-322 | updatedAt is when the event of the current status was recorded, or the creation |
| `OrderHistory.OutcomeTellsTheTables` | services/order-service/src/postgresOrderStore.ts:218-324 | The outcome reported for an event is what the tables hold then: its status and first delivery, its number of deliveries with no order changed, or no such order |
| `OrderRuns.DifferentRequestChangesNothing` | services/order-service/src/postgresOrderStore.ts:186-190 | A key with a different fingerprint is a conflict that changes no table |
| `OrderRuns.TimelineTellsTheRun` | services/order-service/src/postgresOrderStore.ts:227-322 | Each event id has one row counting its committed deliveries, and the status is the fold of the recorded events |
| `InMemoryOrderStore.OrderStoreInMemory.SubmitOrder` | services/order-service/src/inMemoryOrderStore.ts:43-147 | The two maps become those of the submission |
| `InMemoryOrderStore.OrderStoreInMemory.RecordWorkflowEvent` | services/order-service/src/inMemoryOrderStore.ts:149-219 | The order's entry becomes that of the recorded event, with the matching outcome |
| `InMemoryOrderStore.StoresAgree` | services/order-service/src/inMemoryOrderStore.ts:43-219 | On committed runs with new ids both stores hold the same orders, keys, statuses, histories and unsent publications |
| `InMemoryOrderStore.MemoryUpdatesOnEveryEvent` | services/order-service/src/inMemoryOrderStore.ts:149-219 | In memory updatedAt is when the last event was first recorded, whether it changed the status or not |
| `InMemoryOrderStore.SameRecordOutcome` | services/order-service/src/inMemoryOrderStore.ts:149-219 | And both report the same outcome for an event |
| `InMemoryOrderStore.SameOutcome` | services/order-service/src/inMemoryOrderStore.ts:43-147 | Both give the same answer about the same stored order, and the same reply to the caller |
| `OrderTimeline.OrderCausally` | services/order-service/src/orderTimeline.ts:337-376 | The sort, filter and shift loop computes the specified weaving |
| `OrderTimeline.TimelineIsOrdered` | services/order-service/src/orderTimeline.ts:337-376 | The output is a permutation; its workflow steps are the sorted steps (stage, then time), its retries the retries sorted by time |
| `OrderTimeline.RetriesPrecedeTheirStep` | services/order-service/src/orderTimeline.ts:361-375 | The retries just before step i are exactly those whose slot is i; those with no later step end the timeline |
| `OrderTimeline.SlotMeaning` | services/order-service/src/orderTimeline.ts:361-371 | A retry's slot is i if and only if step i is the first step other than step 0 observed strictly after it, or i is the end and there is none |
| `OrderTimeline.StepsFollowTheWorkflow` | services/order-service/src/orderTimeline.ts:306-331 | Steps are shown as the status moves: accepted, published, then the stages of the status machine, within a stage by time |
| `OrderTimeline.SortSorts` | services/order-service/src/orderTimeline.ts:340-359 | The sort is ordered, a permutation, and stable |
| `OrderTimeline.AcceptedComesFirst` | services/order-service/src/orderTimeline.ts:313-331 | An accepted order's timeline starts with its acceptance |
| `OrderTimeline.BuildOrderTimeline` | services/order-service/src/orderTimeline.ts:69-129 | Every stored row and the publication is shown and nothing else: submissions at their time, events when they were recorded and with their deliveries, the publication when it was published or as waiting since it was written; causally ordered |
| `Transaction.Pool.WithTransaction` | shared/persistence/src/transaction.ts:11-77 | Success means committed; after a failure nothing is committed unless the commit's reply was lost; a client returns to the pool exactly when its connection is known to be sound |
| `Transaction.Pool.Finish` | shared/persistence/src/transaction.ts:46-76 | Commit or rollback and the release of the client, as the order store uses them around its work |

## Left out

- RelayCycle.ProcessBatch: stated for a cycle no other relay interferes with between its awaits; the interleavings are the subject of `OutboxProtocol`, of which `RelayRuns.CycleIsRun` shows this cycle to be a run.
- ProcessBatch: logging and the alert after many attempts, which change no state.
- ClaimBatch: each SQL statement reads the clock once and is atomic; `attempts` is an unbounded number although its column is a 32-bit integer.
- OutboxProtocol: a statement finds rows locked only if another statement has them at that very moment, so `locked` is an arbitrary set; statistics queries are not modelled.
- HandleDelivery: the delays between attempts are not modelled (they are the same capped exponential without jitter), and prefetch limits and consumer cancellation are left out.
- ReplayHeaders: a replay count header is a number or not a number; numeric strings, which JavaScript would convert, are not modelled.
- StoresAgree: the publication is compared until the relay marks it, which the in-memory store only imitates; `updatedAt` is left out, because the stores differ there: `MemoryUpdatesOnEveryEvent` and `OrderHistory.StatusTimesAreTold` say how; event ids that stand for two orders are left out, because only PostgreSQL rejects them globally.
- SameOutcome: a replayed order may differ in `updatedAt`, which no reply shows.
- InterleavingsAreSerial: compares the outboxes as sets, because sequence values are drawn before the commit.
- DecrementEach: quantities are unbounded integers; where PostgreSQL casts to 32 bits is the subject of `InventoryRuns.ValidOrdersDecrementCleanly`.
- PublicationsSettleAsTold: takes the broker's promise that a return comes before the confirm of the same message; `LateReturnIsMissed` shows why it is needed.
- NoOrderIsLost: assumes that Notification is not restarted, since its list is only in memory, and that queues and bindings exist, so a mandatory message that is confirmed was routed to all of its queues.
- SubmitOrder: `withTransaction` takes the work as a closure; here the store calls `Pool.Begin` and `Pool.Finish` around it, and `Pool.WithTransaction` is the same pair around a function.
- NoOrderIsStuck: says that completion stays possible, not that it happens; fairness and timing are not modelled. It needs some relay and each consumer to run again.
- RelayLoop: the lengths of the two waits are not modelled; a timer may fire at any time.
- Workflow: submissions are those that the order API lets through, of which only the positive quantities matter here. A message that does not decode is not part of the composition; `QueueConsumer.HandleDelivery` covers it. Attempt counts are not bounded there, which only allows more behaviours.
- BookDelivery: the delivery date is a number of days, without the JavaScript calendar; amounts are opaque and only copied.
- Connection handling, the supervisor, service start-up and shutdown, schema migrations, HTTP routing and validation, the browser page, the command line demos and logging: plumbing with no hard property.
