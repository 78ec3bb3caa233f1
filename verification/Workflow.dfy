/**
 * The whole workflow: the order and inventory databases with their outboxes and relays, the
 * broker's queues and the five consumers. Every component is the one of its own module; a
 * step of the workflow is one transaction, one relay step, one handler run or one move of a
 * message. Handlers run in any order and any number of times, also late: a run may still take
 * effect after its message was redelivered and acknowledged elsewhere.
 */
module Workflow {
  import opened Contracts
  import OrderStatus
  import OrderStore
  import InventoryService
  import InventoryRuns
  import NotificationService
  import PaymentService
  import DeliveryService
  import Outbox = OutboxProtocol
  import OutboxStore
  import Consumer

  /** Where the copies of messages routed to a queue are. */
  datatype QueueState = QueueState(
    ready: multiset<Event>,
    unacked: multiset<Event>,           // delivered, not handled yet
    settling: multiset<Event>,          // handled, the acknowledgement not yet at the broker
    dead: multiset<Event>,
    recent: seq<Id>,                    // the consumer's cache
    // History:
    delivered: set<Event>,              // handed to a consumer at some time
    handled: map<Id, Event>)            // the event handled under an id

  datatype Queues = Queues(
    payment: QueueState, inventory: QueueState, delivery: QueueState, notification: QueueState, timeline: QueueState)
  {
    function Of(queue: Queue): QueueState {
      match queue
      case PaymentQueue => payment
      case InventoryQueue => inventory
      case DeliveryQueue => delivery
      case NotificationQueue => notification
      case TimelineQueue => timeline
    }

    function With(queue: Queue, state: QueueState): (queues: Queues)
      ensures forall other :: queues.Of(other) == if other == queue then state else Of(other)
    {
      match queue
      case PaymentQueue => this.(payment := state)
      case InventoryQueue => this.(inventory := state)
      case DeliveryQueue => this.(delivery := state)
      case NotificationQueue => this.(notification := state)
      case TimelineQueue => this.(timeline := state)
    }

    /** The broker routes an accepted message to every bound queue. */
    function Publish(event: Event): Queues {
      Queues(Routed(payment, PaymentQueue, event), Routed(inventory, InventoryQueue, event),
             Routed(delivery, DeliveryQueue, event), Routed(notification, NotificationQueue, event),
             Routed(timeline, TimelineQueue, event))
    }
  }

  lemma PublishedOf(queues: Queues, event: Event, queue: Queue)
    ensures queues.Publish(event).Of(queue) == Routed(queues.Of(queue), queue, event)
  {
  }

  function Routed(state: QueueState, queue: Queue, event: Event): QueueState {
    if queue in BoundQueues(event) then state.(ready := state.ready + multiset{event}) else state
  }

  datatype World = World(
    orders: OrderStore.Database,
    orderOutbox: Outbox.System,
    inventory: InventoryService.InventoryState,
    inventoryOutbox: Outbox.System,
    notifications: seq<NotificationService.Notification>,
    queues: Queues,
    cacheSize: int,
    // History: the outbox row an order's OrderCreated event and its result event got.
    orderRow: map<Id, OutboxStore.SequenceId>,
    resultRow: map<Id, OutboxStore.SequenceId>)

  /** What the id generators, the clock and the sequence give a handler run. */
  datatype Draw = Draw(eventId: Id, otherId: Id, now: Time, row: OutboxStore.SequenceId)

  datatype Action =
    | Submit(order: OrderStore.NewOrder, row: OutboxStore.SequenceId, now: Time, fate: OrderStore.Fate)
    | RelayOrders(step: Outbox.Action)
    | RelayResults(step: Outbox.Action)
    | Deliver(queue: Queue, event: Event)
    | Handle(queue: Queue, event: Event, run: Consumer.HandlerRun, draw: Draw, late: bool)
    | Acknowledge(queue: Queue, event: Event)
    | SkipDuplicate(queue: Queue, event: Event)
    | DeadLetter(queue: Queue, event: Event)
    | Redeliver(queue: Queue, event: Event, handled: bool)
    | Restart(queue: Queue)
    | Replay(queue: Queue, event: Event, interrupted: bool)

  // ---------------------------------------------------------------------------------------
  // Transactions that write an outbox row
  // ---------------------------------------------------------------------------------------

  predicate Accepts(db: OrderStore.Database, order: OrderStore.NewOrder) {
    order.key !in db.byKey && !OrderStore.Collides(db, order)
  }

  function Enqueued(outbox: Outbox.System, row: OutboxStore.SequenceId, event: Event): Outbox.System {
    outbox.(rows := outbox.rows[row := OutboxStore.NewRow(event, outbox.clock)],
    touchedAt := outbox.touchedAt[row := outbox.clock],
    claimants := outbox.claimants[row := []])
  }

  lemma EnqueuedIsInsert(outbox: Outbox.System, row: OutboxStore.SequenceId, event: Event)
    requires row !in outbox.rows
    ensures Outbox.Enabled(outbox, Outbox.Insert(row, event))
    ensures Enqueued(outbox, row, event) == Outbox.Apply(outbox, Outbox.Insert(row, event))
  {
  }

  function AfterSubmit(w: World, order: OrderStore.NewOrder, row: OutboxStore.SequenceId, now: Time): World {
    var next := w.(orders := OrderStore.Submit(w.orders, order, now));
    if !Accepts(w.orders, order) then next
    else next.(orderOutbox := Enqueued(w.orderOutbox, row, order.event), orderRow := w.orderRow[order.event.orderId := row])
  }

  function RequestOf(event: PaymentAuthorizedEvent, draw: Draw): InventoryService.Request {
    InventoryService.Request(event, draw.eventId, draw.otherId, draw.now)
  }

  function AfterReserve(w: World, event: PaymentAuthorizedEvent, draw: Draw): World {
    if event.orderId in w.inventory.reservations then w
    else
      w.(inventory := InventoryService.Reserve(w.inventory, RequestOf(event, draw)),
      inventoryOutbox := Enqueued(w.inventoryOutbox, draw.row,
                                  InventoryService.ResultEvent(w.inventory.stock, RequestOf(event, draw))),
      resultRow := w.resultRow[event.orderId := draw.row])
  }

  /** Sequence values and generated event ids are new; the tables' constraints reject any other. */
  predicate DrawIsNew(w: World, draw: Draw) {
    && draw.row !in w.inventoryOutbox.rows
    && draw.eventId.Random?
    && !OrderStore.HasEventId(w.inventory.outbox, draw.eventId)
  }

  // ---------------------------------------------------------------------------------------
  // Handlers
  // ---------------------------------------------------------------------------------------

  function StatusOf(event: Event): OrderStatus.EventType
    requires !event.OrderCreated?
  {
    match event
    case PaymentAuthorized(_, _, _, _, _, _, _) => OrderStatus.PaymentAuthorized
    case InventoryReserved(_, _, _, _, _, _) => OrderStatus.InventoryReserved
    case InventoryReservationFailed(_, _, _, _, _) => OrderStatus.InventoryReservationFailed
    case DeliveryBooked(_, _, _, _, _, _) => OrderStatus.DeliveryBooked
  }

  function WorkflowEventOf(event: Event): OrderStore.WorkflowEvent
    requires !event.OrderCreated?
  {
    OrderStore.WorkflowEvent(event.eventId, StatusOf(event), event.orderId, event.occurredAt)
  }

  /** What a handler run leaves behind when its work takes effect; the contract only lets bound types through. */
  function Handled(w: World, queue: Queue, event: Event, draw: Draw): World {
    if queue !in BoundQueues(event) then w else
    match queue
    case PaymentQueue => w.(queues := w.queues.Publish(PaymentService.AuthorizePayment(event)))
    case InventoryQueue => AfterReserve(w, event, draw)
    case DeliveryQueue => w.(queues := w.queues.Publish(DeliveryService.BookDelivery(event)))
    case NotificationQueue =>
      w.(notifications := NotificationService.Create(w.notifications, event, draw.otherId, draw.now))
    case TimelineQueue => w.(orders := OrderStore.Record(w.orders, WorkflowEventOf(event), draw.now))
  }

  /** The work takes effect when the run resolves, and possibly when it rejects. */
  function Worked(w: World, queue: Queue, event: Event, run: Consumer.HandlerRun, draw: Draw): World {
    if run.Resolved? || run.committed then Handled(w, queue, event, draw) else w
  }

  /** A late run enters its event in the cache, but has no message of its own to acknowledge any more. */
  function MarkHandled(state: QueueState, event: Event, cacheSize: int, late: bool): QueueState {
    var known := state.(
      recent := Consumer.CacheAdd(state.recent, cacheSize, event.eventId),
      handled := state.handled[event.eventId := event]);
    if late then known
    else known.(unacked := state.unacked - multiset{event}, settling := state.settling + multiset{event})
  }

  // ---------------------------------------------------------------------------------------
  // Steps
  // ---------------------------------------------------------------------------------------

  ghost predicate Enabled(w: World, action: Action) {
    match action
    // The order API only lets positive quantities through.
    case Submit(order, row, _, _) => row !in w.orderOutbox.rows && InventoryRuns.Positive(order.event.items)
    case RelayOrders(step) => !step.Insert? && Outbox.Enabled(w.orderOutbox, step)
    case RelayResults(step) => !step.Insert? && Outbox.Enabled(w.inventoryOutbox, step)
    case Deliver(queue, event) => event in w.queues.Of(queue).ready
    case Handle(queue, event, _, draw, late) =>
      && (if late then event in w.queues.Of(queue).delivered else event in w.queues.Of(queue).unacked)
      && DrawIsNew(w, draw)
    case Acknowledge(queue, event) => event in w.queues.Of(queue).settling
    case SkipDuplicate(queue, event) =>
      event in w.queues.Of(queue).unacked && event.eventId in w.queues.Of(queue).recent
    case DeadLetter(queue, event) => event in w.queues.Of(queue).unacked
    case Redeliver(queue, event, handled) =>
      event in if handled then w.queues.Of(queue).settling else w.queues.Of(queue).unacked
    case Restart(_) => true
    case Replay(queue, event, _) => event in w.queues.Of(queue).dead
  }

  /** The message a relay step gets accepted by the broker, if any. */
  ghost function Accepted(outbox: Outbox.System, step: Outbox.Action): Option<Event> {
    if (step.Confirm? || step.LateAccept?) && step.id in outbox.rows then Some(outbox.rows[step.id].event) else None
  }

  function Sent(queues: Queues, event: Option<Event>): Queues {
    if event.Some? then queues.Publish(event.value) else queues
  }

  /** Moves of a message that is not handled by them. */
  function Moved(state: QueueState, action: Action): QueueState
    requires action.Deliver? || action.DeadLetter? || action.Redeliver? || action.Restart? || action.Replay?
  {
    match action
    case Deliver(_, event) =>
      state.(ready := state.ready - multiset{event}, unacked := state.unacked + multiset{event},
      delivered := state.delivered + {event})
    case DeadLetter(_, event) => state.(unacked := state.unacked - multiset{event}, dead := state.dead + multiset{event})
    case Redeliver(_, event, handled) =>
      if handled then state.(settling := state.settling - multiset{event}, ready := state.ready + multiset{event})
      else state.(unacked := state.unacked - multiset{event}, ready := state.ready + multiset{event})
    case Restart(_) => state.(recent := [])
    case Replay(_, event, interrupted) =>
      state.(ready := state.ready + multiset{event},
      dead := if interrupted then state.dead else state.dead - multiset{event})
  }

  function Dropped(state: QueueState, action: Action): QueueState
    requires action.Acknowledge? || action.SkipDuplicate?
  {
    if action.Acknowledge? then state.(settling := state.settling - multiset{action.event})
    else state.(unacked := state.unacked - multiset{action.event})
  }

  ghost function Apply(w: World, action: Action): World
    requires Enabled(w, action)
  {
    match action
    case Submit(order, row, now, fate) => if fate.Aborted? then w else AfterSubmit(w, order, row, now)
    case RelayOrders(step) =>
      w.(orderOutbox := Outbox.Apply(w.orderOutbox, step), queues := Sent(w.queues, Accepted(w.orderOutbox, step)))
    case RelayResults(step) =>
      w.(inventoryOutbox := Outbox.Apply(w.inventoryOutbox, step),
      queues := Sent(w.queues, Accepted(w.inventoryOutbox, step)))
    case Handle(queue, event, run, draw, late) =>
      var next := Worked(w, queue, event, run, draw);
      if run.Resolved?
      then next.(queues := next.queues.With(queue, MarkHandled(next.queues.Of(queue), event, w.cacheSize, late))) else next
    case Acknowledge(queue, _) => w.(queues := w.queues.With(queue, Dropped(w.queues.Of(queue), action)))
    case SkipDuplicate(queue, _) => w.(queues := w.queues.With(queue, Dropped(w.queues.Of(queue), action)))
    case _ => w.(queues := w.queues.With(action.queue, Moved(w.queues.Of(action.queue), action)))
  }

  ghost predicate ValidRun(w: World, run: seq<Action>)
    decreases |run|
  {
    run == [] || (Enabled(w, run[0]) && ValidRun(Apply(w, run[0]), run[1..]))
  }

  ghost function After(w: World, run: seq<Action>): World
    requires ValidRun(w, run)
    decreases |run|
  {
    if run == [] then w else After(Apply(w, run[0]), run[1..])
  }

  function Initial(stock: map<ProductId, int>, outbox: Outbox.Config, cacheSize: int): World {
    var empty := QueueState(multiset{}, multiset{}, multiset{}, multiset{}, [], {}, map[]);
    World(OrderStore.Empty(), Outbox.Initial(outbox),
          InventoryService.InventoryState(stock, map[], []), Outbox.Initial(outbox),
          [], Queues(empty, empty, empty, empty, empty), cacheSize, map[], map[])
  }
}
