/** Every step of the workflow keeps the invariant. */
module WorkflowSteps {
  import opened Contracts
  import OrderStore
  import OrderRuns
  import InventoryService
  import InventoryRuns
  import NotificationService
  import PaymentService
  import DeliveryService
  import Outbox = OutboxProtocol
  import OutboxStore
  import opened Workflow
  import opened WorkflowInvariant

  /** The event is handled for good, in a world that is still sound. */
  ghost predicate Settled(w: World, queue: Queue, event: Event) {
    Inv(w) && Done(w, queue, event)
  }

  lemma KeptIsSettled(w: World, queue: Queue, event: Event)
    requires Inv(w) && Kept(w, queue, event)
    ensures Settled(w, queue, event)
  {
  }

  // ---------------------------------------------------------------------------------------
  // Parts of the invariant that a step leaves alone
  // ---------------------------------------------------------------------------------------

  /** A row is confirmed when it was before or when its event has just been sent. */
  predicate WasConfirmed(from: Outbox.System, to: Outbox.System, sent: Option<Event>, row: OutboxStore.SequenceId)
    requires row in to.rows
  {
    || (row in from.confirmed && row in from.rows && to.rows[row].event == from.rows[row].event)
    || sent == Some(to.rows[row].event)
  }

  lemma ConfirmedGrows(before: World, after: World, from: Outbox.System, to: Outbox.System, sent: Option<Event>)
    requires Grows(before, after) && ConfirmedInv(before, from)
    requires forall row :: row in to.confirmed && row in to.rows ==> WasConfirmed(from, to, sent, row)
    requires sent.Some? ==> Secured(after, sent.value) && Arrived(after, sent.value)
    ensures ConfirmedInv(after, to)
  {
    forall row | row in to.confirmed && row in to.rows
      ensures Secured(after, to.rows[row].event) && Arrived(after, to.rows[row].event)
    {
      assert WasConfirmed(from, to, sent, row);
      if sent != Some(to.rows[row].event) {
        SecuredGrows(before, after, to.rows[row].event);
        ArrivedGrows(before, after, to.rows[row].event);
      }
    }
  }

  lemma OrdersInvGrows(before: World, after: World)
    requires OrdersInv(before) && Grows(before, after)
    requires after.orders == before.orders && after.orderOutbox == before.orderOutbox && after.orderRow == before.orderRow
    ensures OrdersInv(after)
  {
    ConfirmedGrows(before, after, before.orderOutbox, after.orderOutbox, None);
  }

  lemma ReservationsGrow(before: World, after: World)
    requires ReservationsFit(before) && Grows(before, after) && after.inventory == before.inventory
    ensures ReservationsFit(after)
  {
    forall order | order in after.inventory.reservations
      ensures ResultFits(after, order)
    {
      assert ResultFits(before, order) && OriginOf(after, order) == OriginOf(before, order);
    }
  }

  lemma ResultsInvGrows(before: World, after: World)
    requires ResultsInv(before) && Grows(before, after)
    requires after.inventory == before.inventory && after.inventoryOutbox == before.inventoryOutbox
    requires after.resultRow == before.resultRow
    ensures ResultsInv(after)
  {
    ReservationsGrow(before, after);
    ConfirmedGrows(before, after, before.inventoryOutbox, after.inventoryOutbox, None);
  }

  lemma NotificationsInvGrows(before: World, after: World)
    requires NotificationsInv(before) && Grows(before, after) && after.notifications == before.notifications
    ensures NotificationsInv(after)
  {
    forall i | 0 <= i < |after.notifications|
      ensures NotificationFits(after, after.notifications[i])
    {
      assert NotificationFits(before, before.notifications[i]);
    }
  }

  lemma EntryFitsGrows(before: World, after: World, was: OrderStore.Entry, entry: OrderStore.Entry)
    requires EntryFits(before, was) && Grows(before, after)
    requires entry.kind == was.kind && entry.orderId == was.orderId && entry.occurredAt == was.occurredAt
    ensures EntryFits(after, entry)
  {
  }

  lemma TimelineInvGrows(before: World, after: World)
    requires TimelineInv(before) && Grows(before, after) && after.orders.timeline == before.orders.timeline
    ensures TimelineInv(after)
  {
    forall i | 0 <= i < |after.orders.timeline|
      ensures EntryFits(after, after.orders.timeline[i])
    {
      EntryFitsGrows(before, after, before.orders.timeline[i], after.orders.timeline[i]);
    }
  }

  /** A queue whose new contents are all accounted for. */
  lemma QueueInvGrows(before: World, after: World, queue: Queue)
    requires QueueInv(before, queue) && Grows(before, after)
    requires var was, state := before.queues.Of(queue), after.queues.Of(queue);
             && (forall event :: Copied(state, event) ==> Copied(was, event) || Genuine(after, queue, event))
             && (forall event :: event in state.settling ==> event in was.settling)
             && (forall event :: event in state.delivered ==> event in was.delivered || Copied(was, event))
             && state.handled == was.handled
             && (forall id :: id in state.recent ==> id in was.recent)
    ensures QueueInv(after, queue)
  {
    var was, state := before.queues.Of(queue), after.queues.Of(queue);
    forall event | Copied(state, event)
      ensures Genuine(after, queue, event)
    {
      if Copied(was, event) {
        assert Genuine(before, queue, event);
        KnownGrows(before, after, event);
      }
    }
    forall event | event in state.delivered
      ensures Genuine(after, queue, event)
    {
      assert Genuine(before, queue, event);
      KnownGrows(before, after, event);
    }
    forall event | event in state.settling
      ensures Done(after, queue, event)
    {
      DoneGrows(before, after, queue, event);
    }
    forall id | id in state.handled
      ensures Genuine(after, queue, state.handled[id]) && Done(after, queue, state.handled[id])
    {
      KnownGrows(before, after, was.handled[id]);
      DoneGrows(before, after, queue, was.handled[id]);
    }
  }

  lemma QueuesGrow(before: World, after: World)
    requires Grows(before, after) && after.queues == before.queues
    requires forall queue :: QueueInv(before, queue)
    ensures forall queue :: QueueInv(after, queue)
  {
    forall queue ensures QueueInv(after, queue) { QueueInvGrows(before, after, queue); }
  }

  predicate SameStores(before: World, after: World) {
    && after.orders == before.orders
    && after.inventory == before.inventory
    && after.notifications == before.notifications
  }

  predicate SameOutboxes(before: World, after: World) {
    && after.orderOutbox == before.orderOutbox && after.orderRow == before.orderRow
    && after.inventoryOutbox == before.inventoryOutbox && after.resultRow == before.resultRow
  }

  /** A step that only touches the queues. */
  lemma QueuesOnly(before: World, after: World)
    requires Inv(before) && Grows(before, after)
    requires SameStores(before, after) && SameOutboxes(before, after)
    requires forall queue :: QueueInv(after, queue)
    ensures Inv(after)
  {
    OrdersInvGrows(before, after);
    ResultsInvGrows(before, after);
    NotificationsInvGrows(before, after);
    TimelineInvGrows(before, after);
  }

  // ---------------------------------------------------------------------------------------
  // Publishing
  // ---------------------------------------------------------------------------------------

  lemma RoutedCopies(state: QueueState, queue: Queue, event: Event)
    ensures var routed := Routed(state, queue, event);
            && (forall other :: Copied(state, other) ==> Copied(routed, other))
            && (forall other :: Copied(routed, other) && other != event ==> Copied(state, other))
            && (queue in BoundQueues(event) ==> Copied(routed, event))
            && (queue !in BoundQueues(event) ==> routed == state)
            && routed.settling == state.settling && routed.handled == state.handled && routed.recent == state.recent
            && routed.delivered == state.delivered
  {
  }

  lemma PublishKeepsCopy(before: World, after: World, event: Event, queue: Queue, other: Event)
    requires after.queues == before.queues.Publish(event)
    ensures Present(before, queue, other) ==> Present(after, queue, other)
    ensures IsHandled(before, queue, other) ==> IsHandled(after, queue, other)
    ensures queue in BoundQueues(event) ==> Present(after, queue, event)
  {
    PublishedOf(before.queues, event, queue);
    RoutedCopies(before.queues.Of(queue), queue, event);
  }

  /** With the same stores, a world is further when the queues only gained. */
  lemma QueuesGained(before: World, after: World)
    requires SameStores(before, after)
    requires forall queue, event :: Present(before, queue, event) ==> Present(after, queue, event)
    requires forall queue, event :: IsHandled(before, queue, event) ==> IsHandled(after, queue, event)
    ensures Grows(before, after)
  {
  }

  lemma PublishGrows(before: World, after: World, event: Event)
    requires SameStores(before, after) && after.queues == before.queues.Publish(event)
    ensures Grows(before, after)
    ensures forall queue :: queue in BoundQueues(event) ==> Present(after, queue, event)
  {
    forall queue, other
      ensures Present(before, queue, other) ==> Present(after, queue, other)
      ensures IsHandled(before, queue, other) ==> IsHandled(after, queue, other)
    {
      PublishKeepsCopy(before, after, event, queue, other);
    }
    QueuesGained(before, after);
    forall queue | queue in BoundQueues(event) ensures Present(after, queue, event) {
      PublishKeepsCopy(before, after, event, queue, event);
    }
  }

  lemma PublishKeepsQueue(before: World, after: World, event: Event, queue: Queue)
    requires Grows(before, after) && after.queues == before.queues.Publish(event)
    requires Known(before, event) && QueueInv(before, queue)
    ensures QueueInv(after, queue)
  {
    PublishedOf(before.queues, event, queue);
    RoutedCopies(before.queues.Of(queue), queue, event);
    KnownGrows(before, after, event);
    QueueInvGrows(before, after, queue);
  }

  lemma PublishKeepsQueues(before: World, after: World, event: Event)
    requires SameStores(before, after) && after.queues == before.queues.Publish(event)
    requires Known(before, event) && forall queue :: QueueInv(before, queue)
    ensures forall queue :: QueueInv(after, queue)
  {
    PublishGrows(before, after, event);
    forall queue ensures QueueInv(after, queue) { PublishKeepsQueue(before, after, event, queue); }
  }

  /** A stateless service's handler: its publication secures the next stage. */
  lemma ForwardKeepsInv(w: World, event: Event)
    requires Inv(w) && Known(w, event)
    ensures var next := w.(queues := w.queues.Publish(event)); Inv(next) && Relayed(next, event)
  {
    var next := w.(queues := w.queues.Publish(event));
    PublishGrows(w, next, event);
    PublishKeepsQueues(w, next, event);
    QueuesOnly(w, next);
  }

  // ---------------------------------------------------------------------------------------
  // Relay steps
  // ---------------------------------------------------------------------------------------

  lemma RelayKeepsEvents(outbox: Outbox.System, step: Outbox.Action)
    requires Outbox.Enabled(outbox, step) && !step.Insert?
    ensures Outbox.Apply(outbox, step).rows.Keys == outbox.rows.Keys
    ensures forall row :: row in outbox.rows ==> Outbox.Apply(outbox, step).rows[row].event == outbox.rows[row].event
  {
  }

  /** A relay step changes no event, and confirms at most the row it publishes. */
  lemma RelayStep(outbox: Outbox.System, step: Outbox.Action)
    requires Outbox.Inv(outbox) && Outbox.Enabled(outbox, step) && !step.Insert?
    ensures Outbox.Inv(Outbox.Apply(outbox, step))
    ensures Outbox.Apply(outbox, step).rows.Keys == outbox.rows.Keys
    ensures forall row :: row in outbox.rows ==> Outbox.Apply(outbox, step).rows[row].event == outbox.rows[row].event
    ensures forall row :: row in Outbox.Apply(outbox, step).confirmed ==>
                            row in outbox.confirmed || (row in outbox.rows && Accepted(outbox, step) == Some(outbox.rows[row].event))
  {
    Outbox.StepKeepsInv(outbox, step);
    RelayKeepsEvents(outbox, step);
    assert Outbox.Apply(outbox, step).confirmed <= outbox.confirmed + if step.Confirm? then {step.id} else {};
    assert step.Confirm? ==> step.id in Outbox.Apply(outbox, step).confirmed;
  }

  lemma SentGrows(before: World, after: World, event: Option<Event>)
    requires SameStores(before, after) && after.queues == Sent(before.queues, event)
    ensures Grows(before, after)
    ensures event.Some? ==> Secured(after, event.value) && Arrived(after, event.value)
  {
    if event.Some? {
      PublishGrows(before, after, event.value);
    }
  }

  lemma SentKeepsQueues(before: World, after: World, event: Option<Event>)
    requires SameStores(before, after) && after.queues == Sent(before.queues, event)
    requires event.Some? ==> Known(before, event.value)
    requires forall queue :: QueueInv(before, queue)
    ensures forall queue :: QueueInv(after, queue)
  {
    if event.Some? {
      PublishKeepsQueues(before, after, event.value);
    } else {
      SentGrows(before, after, event);
      forall queue ensures QueueInv(after, queue) { QueueInvGrows(before, after, queue); }
    }
  }

  lemma RelayOrdersKeepsInv(w: World, step: Outbox.Action)
    requires Inv(w) && Enabled(w, RelayOrders(step))
    ensures Inv(Apply(w, RelayOrders(step))) && Grows(w, Apply(w, RelayOrders(step)))
  {
    var next, event := Apply(w, RelayOrders(step)), Accepted(w.orderOutbox, step);
    RelayStep(w.orderOutbox, step);
    SentGrows(w, next, event);
    SentKeepsQueues(w, next, event);
    RelayedOrders(w, next, step);
    ResultsInvGrows(w, next);
    NotificationsInvGrows(w, next);
    TimelineInvGrows(w, next);
  }

  lemma RelayedOrders(w: World, next: World, step: Outbox.Action)
    requires OrdersInv(w) && Enabled(w, RelayOrders(step)) && next == Apply(w, RelayOrders(step))
    requires Grows(w, next)
    requires Accepted(w.orderOutbox, step).Some? ==>
               Secured(next, Accepted(w.orderOutbox, step).value) && Arrived(next, Accepted(w.orderOutbox, step).value)
    ensures OrdersInv(next)
  {
    RelayStep(w.orderOutbox, step);
    ConfirmedGrows(w, next, w.orderOutbox, next.orderOutbox, Accepted(w.orderOutbox, step));
    forall order | order in next.orders.orders
      ensures RowHolds(next.orderOutbox, next.orderRow, order, next.orders.orders[order].event)
    {
      assert RowHolds(w.orderOutbox, w.orderRow, order, w.orders.orders[order].event);
    }
    forall row | row in next.orderOutbox.rows
      ensures RowBelongs(next.orderOutbox, next.orderRow, row) && Known(next, next.orderOutbox.rows[row].event)
    {
      assert RowBelongs(w.orderOutbox, w.orderRow, row);
      KnownGrows(w, next, w.orderOutbox.rows[row].event);
    }
  }

  lemma AcceptedResultIsKnown(w: World, step: Outbox.Action)
    requires InventoryRuns.Matched(w.inventory) && ResultRowsInv(w) && Accepted(w.inventoryOutbox, step).Some?
    ensures Known(w, Accepted(w.inventoryOutbox, step).value)
  {
    var event := Accepted(w.inventoryOutbox, step).value;
    var i :| 0 <= i < |w.inventory.outbox| && w.inventory.outbox[i] == event;
    ResultOfMember(w, i);
    assert InventoryRuns.Accounted(w.inventory.reservations, w.inventory.outbox[i]);
  }

  lemma RelayResultsKeepsInv(w: World, step: Outbox.Action)
    requires Inv(w) && Enabled(w, RelayResults(step))
    ensures Inv(Apply(w, RelayResults(step))) && Grows(w, Apply(w, RelayResults(step)))
  {
    var next, event := Apply(w, RelayResults(step)), Accepted(w.inventoryOutbox, step);
    RelayStep(w.inventoryOutbox, step);
    if event.Some? {
      AcceptedResultIsKnown(w, step);
    }
    SentGrows(w, next, event);
    SentKeepsQueues(w, next, event);
    RelayedResults(w, next, step);
    OrdersInvGrows(w, next);
    NotificationsInvGrows(w, next);
    TimelineInvGrows(w, next);
  }

  lemma RelayedResults(w: World, next: World, step: Outbox.Action)
    requires ResultsInv(w) && Enabled(w, RelayResults(step)) && next == Apply(w, RelayResults(step))
    requires Grows(w, next)
    requires Accepted(w.inventoryOutbox, step).Some? ==>
               && Secured(next, Accepted(w.inventoryOutbox, step).value)
               && Arrived(next, Accepted(w.inventoryOutbox, step).value)
    ensures ResultsInv(next)
  {
    RelayStep(w.inventoryOutbox, step);
    ConfirmedGrows(w, next, w.inventoryOutbox, next.inventoryOutbox, Accepted(w.inventoryOutbox, step));
    ReservationsGrow(w, next);
    forall i | 0 <= i < |next.inventory.outbox|
      ensures RowHolds(next.inventoryOutbox, next.resultRow, next.inventory.outbox[i].orderId, next.inventory.outbox[i])
    {
      assert RowHolds(w.inventoryOutbox, w.resultRow, w.inventory.outbox[i].orderId, w.inventory.outbox[i]);
    }
    forall row | row in next.inventoryOutbox.rows
      ensures RowBelongs(next.inventoryOutbox, next.resultRow, row)
    {
      assert RowBelongs(w.inventoryOutbox, w.resultRow, row);
    }
  }

  // ---------------------------------------------------------------------------------------
  // Moves of messages
  // ---------------------------------------------------------------------------------------

  /** Whether a message is done does not depend on its own queue. */
  lemma DoneElsewhere(w: World, next: World, queue: Queue, state: QueueState, event: Event)
    requires next == w.(queues := w.queues.With(queue, state)) && Done(w, queue, event)
    ensures Done(next, queue, event)
  {
    assert forall other: Queue, e :: other != queue && Present(w, other, e) ==> Present(next, other, e);
  }

  /** One queue's state changes; only handled and done messages leave it. */
  lemma OneQueue(w: World, next: World, queue: Queue, state: QueueState)
    requires next == w.(queues := w.queues.With(queue, state))
    requires w.queues.Of(queue).handled.Keys <= state.handled.Keys
    requires forall event :: Copied(w.queues.Of(queue), event) ==>
               Copied(state, event) || (Done(w, queue, event) && event.eventId in state.handled)
    ensures Grows(w, next)
    ensures forall event :: Done(w, queue, event) ==> Done(next, queue, event)
  {
    forall event | Done(w, queue, event)
      ensures Done(next, queue, event)
    {
      DoneElsewhere(w, next, queue, state, event);
    }
    forall other
      ensures next.queues.Of(other) == if other == queue then state else w.queues.Of(other)
    {
    }
  }

  lemma OneQueueKeepsInv(w: World, next: World, queue: Queue, state: QueueState)
    requires Inv(w) && next == w.(queues := w.queues.With(queue, state))
    requires Grows(w, next) && QueueInv(next, queue)
    ensures Inv(next)
  {
    forall other ensures QueueInv(next, other) {
      if other != queue {
        assert next.queues.Of(other) == w.queues.Of(other);
        QueueInvGrows(w, next, other);
      }
    }
    QueuesOnly(w, next);
  }

  predicate IsMove(action: Action) {
    action.Deliver? || action.DeadLetter? || action.Redeliver? || action.Restart? || action.Replay?
  }

  /** The copy that moves is where it is moved from. */
  predicate HasCopy(state: QueueState, action: Action)
    requires IsMove(action)
  {
    match action
    case Deliver(_, event) => event in state.ready
    case DeadLetter(_, event) => event in state.unacked
    case Redeliver(_, event, handled) => event in if handled then state.settling else state.unacked
    case Replay(_, event, _) => event in state.dead
    case Restart(_) => true
  }

  lemma MoveKeepsEach(state: QueueState, action: Action, event: Event)
    requires IsMove(action) && HasCopy(state, action)
    ensures Copied(Moved(state, action), event) <==> Copied(state, event)
    ensures event in Moved(state, action).settling ==> event in state.settling
  {
  }

  /** A move keeps every copy, and nothing new counts as handled. */
  lemma MoveKeepsCopies(state: QueueState, action: Action)
    requires IsMove(action) && HasCopy(state, action)
    ensures var moved := Moved(state, action);
            && (forall event :: Copied(moved, event) <==> Copied(state, event))
            && (forall event :: event in moved.settling ==> event in state.settling)
            && (forall event :: event in moved.delivered ==> event in state.delivered || Copied(state, event))
            && moved.handled == state.handled
            && (forall id :: id in moved.recent ==> id in state.recent)
  {
    forall event
      ensures Copied(Moved(state, action), event) <==> Copied(state, event)
      ensures event in Moved(state, action).settling ==> event in state.settling
    {
      MoveKeepsEach(state, action, event);
    }
  }

  lemma MoveKeepsInv(w: World, action: Action)
    requires Inv(w) && Enabled(w, action)
    requires IsMove(action)
    ensures Inv(Apply(w, action)) && Grows(w, Apply(w, action))
  {
    var queue := action.queue;
    var state := Moved(w.queues.Of(queue), action);
    var next := Apply(w, action);
    MoveKeepsCopies(w.queues.Of(queue), action);
    OneQueue(w, next, queue, state);
    QueueInvGrows(w, next, queue);
    OneQueueKeepsInv(w, next, queue, state);
  }

  /** A message in hand whose id was handled recently is done itself. */
  lemma RecentIsDone(w: World, queue: Queue, event: Event)
    requires Inv(w) && Present(w, queue, event) && event.eventId in w.queues.Of(queue).recent
    ensures Done(w, queue, event)
  {
    var state := w.queues.Of(queue);
    assert QueueInv(w, queue);
    SameId(w, queue, event, state.handled[event.eventId]);
  }

  lemma DropKeepsInv(w: World, action: Action)
    requires Inv(w) && Enabled(w, action) && (action.Acknowledge? || action.SkipDuplicate?)
    ensures Inv(Apply(w, action)) && Grows(w, Apply(w, action))
  {
    var queue, event := action.queue, action.event;
    var state, next := Dropped(w.queues.Of(queue), action), Apply(w, action);
    assert QueueInv(w, queue);
    if action.SkipDuplicate? {
      RecentIsDone(w, queue, event);
    }
    OneQueue(w, next, queue, state);
    QueueInvGrows(w, next, queue);
    OneQueueKeepsInv(w, next, queue, state);
  }

  lemma MarkHandledKeepsInv(w: World, queue: Queue, event: Event, late: bool)
    requires Inv(w) && Genuine(w, queue, event) && Done(w, queue, event)
    requires late || event in w.queues.Of(queue).unacked
    ensures var next := w.(queues := w.queues.With(queue, MarkHandled(w.queues.Of(queue), event, w.cacheSize, late)));
            Inv(next) && Grows(w, next)
  {
    var was := w.queues.Of(queue);
    var state := MarkHandled(was, event, w.cacheSize, late);
    var next := w.(queues := w.queues.With(queue, state));
    MarkedState(was, event, w.cacheSize, late);
    OneQueue(w, next, queue, state);
    MarkedQueueInv(w, next, queue, event, late);
    OneQueueKeepsInv(w, next, queue, state);
  }

  /** The event's message and its cache entry, accounted for one by one. */
  lemma MarkedState(was: QueueState, event: Event, cacheSize: int, late: bool)
    requires late || event in was.unacked
    ensures var state := MarkHandled(was, event, cacheSize, late);
            && (forall other :: Copied(state, other) <==> Copied(was, other))
            && (forall other :: other in state.settling ==> other in was.settling || other == event)
            && state.delivered == was.delivered
            && (forall id :: id in state.handled ==>
                               if id == event.eventId then state.handled[id] == event
                               else id in was.handled && state.handled[id] == was.handled[id])
            && (forall id :: id in state.recent ==> id in was.recent || id == event.eventId)
            && (forall id :: id in was.handled || id == event.eventId ==> id in state.handled)
  {
  }

  /** The messages of the marked queue are as genuine as they were. */
  lemma MarkedGenuine(w: World, next: World, queue: Queue, event: Event, late: bool)
    requires QueueInv(w, queue) && (late || event in w.queues.Of(queue).unacked) && Grows(w, next)
    requires next == w.(queues := w.queues.With(queue, MarkHandled(w.queues.Of(queue), event, w.cacheSize, late)))
    ensures var state := next.queues.Of(queue);
            && (forall other :: Copied(state, other) ==> Genuine(next, queue, other))
            && (forall other :: other in state.delivered ==> Genuine(next, queue, other))
  {
    var state := next.queues.Of(queue);
    MarkedState(w.queues.Of(queue), event, w.cacheSize, late);
    forall other | Copied(state, other) || other in state.delivered ensures Genuine(next, queue, other) {
      KnownGrows(w, next, other);
    }
  }

  lemma MarkedSettling(w: World, next: World, queue: Queue, event: Event, late: bool)
    requires QueueInv(w, queue) && (late || event in w.queues.Of(queue).unacked)
    requires next == w.(queues := w.queues.With(queue, MarkHandled(w.queues.Of(queue), event, w.cacheSize, late)))
    requires Grows(w, next) && Done(next, queue, event)
    ensures forall other :: other in next.queues.Of(queue).settling ==>
                              Done(next, queue, other) && IsHandled(next, queue, other)
  {
    MarkedState(w.queues.Of(queue), event, w.cacheSize, late);
    forall other | other in next.queues.Of(queue).settling
      ensures Done(next, queue, other) && IsHandled(next, queue, other)
    {
      if other != event { DoneGrows(w, next, queue, other); }
    }
  }

  lemma MarkedDone(w: World, next: World, queue: Queue, event: Event, late: bool)
    requires QueueInv(w, queue) && Genuine(w, queue, event) && (late || event in w.queues.Of(queue).unacked)
    requires next == w.(queues := w.queues.With(queue, MarkHandled(w.queues.Of(queue), event, w.cacheSize, late)))
    requires Grows(w, next) && Done(next, queue, event)
    ensures var handled := next.queues.Of(queue).handled;
            forall id :: id in handled ==>
                           handled[id].eventId == id && Genuine(next, queue, handled[id]) && Done(next, queue, handled[id])
  {
    var was, handled := w.queues.Of(queue).handled, next.queues.Of(queue).handled;
    MarkedState(w.queues.Of(queue), event, w.cacheSize, late);
    KnownGrows(w, next, event);
    forall id | id in handled
      ensures handled[id].eventId == id && Genuine(next, queue, handled[id]) && Done(next, queue, handled[id])
    {
      if id != event.eventId {
        KnownGrows(w, next, was[id]);
        DoneGrows(w, next, queue, was[id]);
      }
    }
  }

  lemma MarkedQueueInv(w: World, next: World, queue: Queue, event: Event, late: bool)
    requires QueueInv(w, queue) && Genuine(w, queue, event) && (late || event in w.queues.Of(queue).unacked)
    requires next == w.(queues := w.queues.With(queue, MarkHandled(w.queues.Of(queue), event, w.cacheSize, late)))
    requires Grows(w, next) && Done(next, queue, event)
    ensures QueueInv(next, queue)
  {
    MarkedState(w.queues.Of(queue), event, w.cacheSize, late);
    MarkedGenuine(w, next, queue, event, late);
    MarkedSettling(w, next, queue, event, late);
    MarkedDone(w, next, queue, event, late);
  }

  // ---------------------------------------------------------------------------------------
  // Transactions of the order service
  // ---------------------------------------------------------------------------------------

  lemma TimelineOneMore(timeline: seq<OrderStore.Entry>, entry: OrderStore.Entry, eventId: Id)
    requires OrderStore.FindEvent(timeline, eventId).Some?
    ensures OrderStore.FindEvent(timeline + [entry], eventId).Some?
  {
    assert (timeline + [entry])[..|timeline|] == timeline;
  }

  /** A transaction on the order tables: orders and history only grow. */
  lemma OrdersGrow(w: World, next: World)
    requires next.inventory == w.inventory && next.notifications == w.notifications && next.queues == w.queues
    requires forall order :: order in w.orders.orders ==>
               order in next.orders.orders && next.orders.orders[order].event == w.orders.orders[order].event
    requires forall eventId :: OrderStore.FindEvent(w.orders.timeline, eventId).Some? ==>
               OrderStore.FindEvent(next.orders.timeline, eventId).Some?
    ensures Grows(w, next)
  {
  }

  lemma SubmitGrows(w: World, order: OrderStore.NewOrder, row: OutboxStore.SequenceId, now: Time)
    ensures Grows(w, AfterSubmit(w, order, row, now))
  {
    var next := AfterSubmit(w, order, row, now);
    forall eventId | OrderStore.FindEvent(w.orders.timeline, eventId).Some?
      ensures OrderStore.FindEvent(next.orders.timeline, eventId).Some?
    {
      if next.orders.timeline != w.orders.timeline {
        TimelineOneMore(w.orders.timeline, next.orders.timeline[|w.orders.timeline|], eventId);
        assert next.orders.timeline == w.orders.timeline + [next.orders.timeline[|w.orders.timeline|]];
      }
    }
    OrdersGrow(w, next);
  }

  /** A new order: its event, its row and the link between them. */
  lemma AcceptKeepsOrdersInv(w: World, order: OrderStore.NewOrder, row: OutboxStore.SequenceId, now: Time)
    requires OrdersInv(w) && Accepts(w.orders, order) && row !in w.orderOutbox.rows
    ensures OrdersInv(AfterSubmit(w, order, row, now))
  {
    var next := AfterSubmit(w, order, row, now);
    OrderRuns.StepKeepsInv(w.orders, OrderRuns.Submission(order, now, OrderStore.Committed));
    EnqueueKeepsInv(w.orderOutbox, row, order.event);
    SubmitGrows(w, order, row, now);
    AcceptKeepsRows(w, order, row, now);
    ConfirmedGrows(w, next, w.orderOutbox, next.orderOutbox, None);
  }

  lemma EnqueueKeepsInv(outbox: Outbox.System, row: OutboxStore.SequenceId, event: Event)
    requires Outbox.Inv(outbox) && row !in outbox.rows
    ensures Outbox.Inv(Enqueued(outbox, row, event))
    ensures row !in Enqueued(outbox, row, event).confirmed
  {
    EnqueuedIsInsert(outbox, row, event);
    Outbox.StepKeepsInv(outbox, Outbox.Insert(row, event));
  }

  lemma AcceptKeepsRows(w: World, order: OrderStore.NewOrder, row: OutboxStore.SequenceId, now: Time)
    requires OrderRowsInv(w) && Accepts(w.orders, order) && row !in w.orderOutbox.rows
    ensures OrderRowsInv(AfterSubmit(w, order, row, now))
  {
    var next := AfterSubmit(w, order, row, now);
    forall id | id in next.orders.orders
      ensures RowHolds(next.orderOutbox, next.orderRow, id, next.orders.orders[id].event)
    {
      if id != order.event.orderId {
        assert RowHolds(w.orderOutbox, w.orderRow, id, w.orders.orders[id].event);
      }
    }
    forall other | other in next.orderOutbox.rows
      ensures RowBelongs(next.orderOutbox, next.orderRow, other)
      ensures next.orderOutbox.rows[other].event.OrderCreated? && Known(next, next.orderOutbox.rows[other].event)
    {
      if other != row {
        assert RowBelongs(w.orderOutbox, w.orderRow, other) && Known(w, w.orderOutbox.rows[other].event);
      }
    }
  }

  /** A submission that makes no order: at most one more entry in the history. */
  lemma RepeatKeepsOrdersInv(w: World, order: OrderStore.NewOrder, row: OutboxStore.SequenceId, now: Time)
    requires OrdersInv(w) && !Accepts(w.orders, order)
    ensures OrdersInv(AfterSubmit(w, order, row, now))
  {
    var next := AfterSubmit(w, order, row, now);
    OrderRuns.StepKeepsInv(w.orders, OrderRuns.Submission(order, now, OrderStore.Committed));
    SubmitGrows(w, order, row, now);
    RepeatKeepsOrders(w.orders, order, now);
    OrderRowsGrow(w, next);
    ConfirmedGrows(w, next, w.orderOutbox, next.orderOutbox, None);
  }

  lemma RepeatKeepsOrders(db: OrderStore.Database, order: OrderStore.NewOrder, now: Time)
    requires !Accepts(db, order)
    ensures OrderStore.Submit(db, order, now).orders == db.orders || order.key in db.byKey
    ensures OrderRuns.KeysInv(db) ==> OrderStore.Submit(db, order, now).orders == db.orders
  {
  }

  /** The rows stay linked as long as the orders keep their events. */
  lemma OrderRowsGrow(w: World, next: World)
    requires OrderRowsInv(w) && Grows(w, next)
    requires next.orderOutbox == w.orderOutbox && next.orderRow == w.orderRow
    requires next.orders.orders.Keys == w.orders.orders.Keys
    ensures OrderRowsInv(next)
  {
    forall order | order in next.orders.orders
      ensures RowHolds(next.orderOutbox, next.orderRow, order, next.orders.orders[order].event)
    {
      assert OriginOf(next, order) == OriginOf(w, order);
    }
    forall row | row in next.orderOutbox.rows
      ensures Known(next, next.orderOutbox.rows[row].event)
    {
      KnownGrows(w, next, w.orderOutbox.rows[row].event);
    }
  }

  lemma SubmitKeepsIds(w: World, order: OrderStore.NewOrder, row: OutboxStore.SequenceId, now: Time)
    requires OrderRuns.KeysInv(w.orders) && IdsInv(w)
    ensures IdsInv(AfterSubmit(w, order, row, now))
  {
    forall id | id in w.orders.orders
      ensures OrderStore.HasEventId(w.orders.outbox, w.orders.orders[id].event.eventId)
    {
      var i :| 0 <= i < |w.orders.outbox| && w.orders.outbox[i] == w.orders.orders[id].event;
    }
  }

  lemma SubmitKeepsTimeline(w: World, order: OrderStore.NewOrder, row: OutboxStore.SequenceId, now: Time)
    requires TimelineInv(w)
    ensures TimelineInv(AfterSubmit(w, order, row, now))
  {
    var next := AfterSubmit(w, order, row, now);
    SubmitGrows(w, order, row, now);
    forall i | 0 <= i < |next.orders.timeline|
      ensures EntryFits(next, next.orders.timeline[i])
    {
      if i < |w.orders.timeline| {
        EntryFitsGrows(w, next, w.orders.timeline[i], next.orders.timeline[i]);
      }
    }
  }

  lemma SubmitKeepsInv(w: World, order: OrderStore.NewOrder, row: OutboxStore.SequenceId, now: Time)
    requires Inv(w) && row !in w.orderOutbox.rows
    ensures Inv(AfterSubmit(w, order, row, now))
  {
    var next := AfterSubmit(w, order, row, now);
    SubmitGrows(w, order, row, now);
    if Accepts(w.orders, order) {
      AcceptKeepsOrdersInv(w, order, row, now);
    } else {
      RepeatKeepsOrdersInv(w, order, row, now);
    }
    SubmitKeepsIds(w, order, row, now);
    SubmitKeepsTimeline(w, order, row, now);
    ResultsInvGrows(w, next);
    NotificationsInvGrows(w, next);
    QueuesGrow(w, next);
  }

  /** Recording an event keeps the orders' own events and all that was recorded. */
  lemma RecordGrows(w: World, event: OrderStore.WorkflowEvent, now: Time)
    ensures Grows(w, w.(orders := OrderStore.Record(w.orders, event, now)))
    ensures event.orderId in w.orders.orders ==>
              OrderStore.FindEvent(OrderStore.Record(w.orders, event, now).timeline, event.eventId).Some?
  {
    var next := w.(orders := OrderStore.Record(w.orders, event, now));
    var before, after := w.orders.timeline, next.orders.timeline;
    OrderStore.FindEventFinds(before, event.eventId);
    OrderStore.FindEventFinds(after, event.eventId);
    forall eventId | OrderStore.FindEvent(before, eventId).Some?
      ensures OrderStore.FindEvent(after, eventId).Some?
    {
      OrderStore.FindEventFinds(before, eventId);
      OrderStore.FindEventFinds(after, eventId);
      var i := OrderStore.FindEvent(before, eventId).value;
      assert OrderStore.IsEvent(after[i], eventId);
    }
    OrdersGrow(w, next);
  }

  lemma KnownStep(w: World, event: Event)
    requires InventoryRuns.Matched(w.inventory) && Known(w, event) && !event.OrderCreated?
    ensures StepEvent(w, event.orderId, StatusOf(event)) == Some(event)
  {
  }

  lemma RecordKeepsTimeline(w: World, event: Event, now: Time)
    requires InventoryRuns.Matched(w.inventory) && TimelineInv(w) && Genuine(w, TimelineQueue, event)
    ensures TimelineInv(w.(orders := OrderStore.Record(w.orders, WorkflowEventOf(event), now)))
  {
    var next := w.(orders := OrderStore.Record(w.orders, WorkflowEventOf(event), now));
    RecordGrows(w, WorkflowEventOf(event), now);
    OrderStore.FindEventFinds(w.orders.timeline, event.eventId);
    forall i | 0 <= i < |next.orders.timeline|
      ensures EntryFits(next, next.orders.timeline[i])
    {
      if i < |w.orders.timeline| {
        EntryFitsGrows(w, next, w.orders.timeline[i], next.orders.timeline[i]);
      } else {
        KnownStep(w, event);
        KnownGrows(w, next, event);
        KnownStep(next, event);
      }
    }
  }

  lemma RecordKeepsInv(w: World, event: Event, now: Time)
    requires Inv(w) && Genuine(w, TimelineQueue, event)
    ensures var next := w.(orders := OrderStore.Record(w.orders, WorkflowEventOf(event), now));
            Settled(next, TimelineQueue, event)
  {
    var next := w.(orders := OrderStore.Record(w.orders, WorkflowEventOf(event), now));
    KnownOrder(w, event);
    RecordGrows(w, WorkflowEventOf(event), now);
    RecordKeepsTimeline(w, event, now);
    RecordKeepsOrders(w, WorkflowEventOf(event), now);
    RecordKeepsIds(w, WorkflowEventOf(event), now);
    StoresGrow(w, next);
    KeptIsSettled(next, TimelineQueue, event);
  }

  lemma StoresGrow(w: World, next: World)
    requires ResultsInv(w) && NotificationsInv(w) && Grows(w, next) && forall queue :: QueueInv(w, queue)
    requires next == w.(orders := next.orders)
    ensures ResultsInv(next) && NotificationsInv(next) && forall queue :: QueueInv(next, queue)
  {
    ResultsInvGrows(w, next);
    NotificationsInvGrows(w, next);
    QueuesGrow(w, next);
  }

  lemma RecordKeepsTables(db: OrderStore.Database, event: OrderStore.WorkflowEvent, now: Time)
    requires OrderRuns.Inv(db)
    ensures OrderRuns.Inv(OrderStore.Record(db, event, now))
    ensures OrderStore.Record(db, event, now).orders.Keys == db.orders.Keys
  {
    OrderRuns.StepKeepsInv(db, OrderRuns.Delivery(event, now, OrderStore.Committed));
  }

  lemma RecordKeepsOrders(w: World, event: OrderStore.WorkflowEvent, now: Time)
    requires OrdersInv(w)
    ensures OrdersInv(w.(orders := OrderStore.Record(w.orders, event, now)))
  {
    var next := w.(orders := OrderStore.Record(w.orders, event, now));
    RecordGrows(w, event, now);
    RecordKeepsTables(w.orders, event, now);
    OrderRowsGrow(w, next);
    ConfirmedGrows(w, next, w.orderOutbox, next.orderOutbox, None);
  }

  lemma RecordKeepsIds(w: World, event: OrderStore.WorkflowEvent, now: Time)
    requires IdsInv(w)
    ensures IdsInv(w.(orders := OrderStore.Record(w.orders, event, now)))
  {
  }

  /** Events are about stored orders. */
  lemma KnownOrder(w: World, event: Event)
    requires ResultsInv(w) && Known(w, event)
    ensures event.orderId in w.orders.orders
  {
    if !event.OrderCreated? && !event.PaymentAuthorized? {
      ResultIsDecided(w, event.orderId);
      assert ResultFits(w, event.orderId);
    }
  }

  // ---------------------------------------------------------------------------------------
  // The reservation transaction
  // ---------------------------------------------------------------------------------------

  lemma ResultInOneMore(outbox: seq<Event>, event: Event, order: Id)
    ensures ResultIn(outbox + [event], order) == if event.orderId == order then Some(event) else ResultIn(outbox, order)
  {
    assert (outbox + [event])[..|outbox|] == outbox;
  }

  /** What a new reservation adds. */
  lemma NewResult(w: World, event: PaymentAuthorizedEvent, draw: Draw)
    requires event.orderId !in w.inventory.reservations
    ensures var next := AfterReserve(w, event, draw);
            var result := InventoryService.ResultEvent(w.inventory.stock, RequestOf(event, draw));
            && next.inventory.outbox == w.inventory.outbox + [result]
            && result.orderId == event.orderId && result.eventId == draw.eventId
            && (forall order :: ResultOf(next, order) == if order == event.orderId then Some(result) else ResultOf(w, order))
  {
    var next := AfterReserve(w, event, draw);
    var result := InventoryService.ResultEvent(w.inventory.stock, RequestOf(event, draw));
    forall order
      ensures ResultOf(next, order) == if order == event.orderId then Some(result) else ResultOf(w, order)
    {
      ResultInOneMore(w.inventory.outbox, result, order);
    }
  }

  lemma ReserveGrows(w: World, event: PaymentAuthorizedEvent, draw: Draw)
    requires InventoryRuns.Matched(w.inventory)
    ensures Grows(w, AfterReserve(w, event, draw))
    ensures ResultOf(AfterReserve(w, event, draw), event.orderId).Some?
  {
    ResultIsDecided(w, event.orderId);
    if event.orderId !in w.inventory.reservations {
      NewResult(w, event, draw);
    }
  }

  lemma ReserveKeepsFits(w: World, event: PaymentAuthorizedEvent, draw: Draw)
    requires ReservationsFit(w) && Known(w, event) && event.orderId !in w.inventory.reservations
    ensures ReservationsFit(AfterReserve(w, event, draw))
  {
    var next := AfterReserve(w, event, draw);
    NewResult(w, event, draw);
    forall order | order in next.inventory.reservations
      ensures ResultFits(next, order)
    {
      if order != event.orderId {
        assert ResultFits(w, order);
      }
    }
  }

  lemma ReserveKeepsRow(w: World, event: PaymentAuthorizedEvent, draw: Draw, i: nat)
    requires InventoryRuns.Matched(w.inventory) && ResultRowsInv(w)
    requires event.orderId !in w.inventory.reservations && DrawIsNew(w, draw) && i < |w.inventory.outbox|
    ensures var next := AfterReserve(w, event, draw);
            && i < |next.inventory.outbox|
            && next.inventory.outbox[i].eventId.Random?
            && RowHolds(next.inventoryOutbox, next.resultRow, next.inventory.outbox[i].orderId, next.inventory.outbox[i])
  {
    assert InventoryRuns.Accounted(w.inventory.reservations, w.inventory.outbox[i]);
    assert RowHolds(w.inventoryOutbox, w.resultRow, w.inventory.outbox[i].orderId, w.inventory.outbox[i]);
  }

  lemma ReserveKeepsLink(w: World, event: PaymentAuthorizedEvent, draw: Draw, row: OutboxStore.SequenceId)
    requires InventoryRuns.Matched(w.inventory) && ResultRowsInv(w)
    requires event.orderId !in w.inventory.reservations && DrawIsNew(w, draw) && row in w.inventoryOutbox.rows
    ensures var next := AfterReserve(w, event, draw);
            && row in next.inventoryOutbox.rows
            && RowBelongs(next.inventoryOutbox, next.resultRow, row)
            && next.inventoryOutbox.rows[row].event in next.inventory.outbox
  {
    var next := AfterReserve(w, event, draw);
    assert RowBelongs(w.inventoryOutbox, w.resultRow, row);
    var i :| 0 <= i < |w.inventory.outbox| && w.inventory.outbox[i] == w.inventoryOutbox.rows[row].event;
    assert InventoryRuns.Accounted(w.inventory.reservations, w.inventory.outbox[i]);
    assert next.inventory.outbox[i] == w.inventoryOutbox.rows[row].event;
  }

  lemma ReserveKeepsRows(w: World, event: PaymentAuthorizedEvent, draw: Draw)
    requires InventoryRuns.Matched(w.inventory) && ResultRowsInv(w)
    requires event.orderId !in w.inventory.reservations && DrawIsNew(w, draw)
    ensures ResultRowsInv(AfterReserve(w, event, draw))
  {
    var next := AfterReserve(w, event, draw);
    NewResult(w, event, draw);
    forall i | 0 <= i < |next.inventory.outbox|
      ensures next.inventory.outbox[i].eventId.Random?
      ensures RowHolds(next.inventoryOutbox, next.resultRow, next.inventory.outbox[i].orderId, next.inventory.outbox[i])
    {
      if i < |w.inventory.outbox| {
        ReserveKeepsRow(w, event, draw, i);
      }
    }
    forall row | row in next.inventoryOutbox.rows
      ensures RowBelongs(next.inventoryOutbox, next.resultRow, row)
      ensures next.inventoryOutbox.rows[row].event in next.inventory.outbox
    {
      if row != draw.row {
        ReserveKeepsLink(w, event, draw, row);
      } else {
        assert next.inventory.outbox[|w.inventory.outbox|] == next.inventoryOutbox.rows[row].event;
      }
    }
  }

  lemma ReserveKeepsResultsInv(w: World, event: PaymentAuthorizedEvent, draw: Draw)
    requires ResultsInv(w) && Known(w, event) && event.orderId !in w.inventory.reservations && DrawIsNew(w, draw)
    ensures ResultsInv(AfterReserve(w, event, draw))
  {
    var next := AfterReserve(w, event, draw);
    InventoryRuns.ReserveKeepsMatched(w.inventory, RequestOf(event, draw));
    ReserveKeepsFits(w, event, draw);
    ReserveKeepsRows(w, event, draw);
    ReserveGrows(w, event, draw);
    EnqueueKeepsInv(w.inventoryOutbox, draw.row, InventoryService.ResultEvent(w.inventory.stock, RequestOf(event, draw)));
    ConfirmedGrows(w, next, w.inventoryOutbox, next.inventoryOutbox, None);
  }

  lemma ReserveKeepsIds(w: World, event: PaymentAuthorizedEvent, draw: Draw)
    requires IdsInv(w) && event.orderId !in w.inventory.reservations && DrawIsNew(w, draw)
    ensures IdsInv(AfterReserve(w, event, draw))
  {
    NewResult(w, event, draw);
  }

  lemma ReserveKeepsInv(w: World, event: PaymentAuthorizedEvent, draw: Draw)
    requires Inv(w) && Known(w, event) && DrawIsNew(w, draw)
    ensures Settled(AfterReserve(w, event, draw), InventoryQueue, event)
  {
    var next := AfterReserve(w, event, draw);
    ReserveGrows(w, event, draw);
    if event.orderId !in w.inventory.reservations {
      ReserveKeepsResultsInv(w, event, draw);
      ReserveKeepsIds(w, event, draw);
      RestGrows(w, next);
    }
    KeptIsSettled(next, InventoryQueue, event);
  }

  lemma RestGrows(w: World, next: World)
    requires Inv(w) && Grows(w, next)
    requires next == w.(inventory := next.inventory, inventoryOutbox := next.inventoryOutbox, resultRow := next.resultRow)
    ensures OrdersInv(next) && NotificationsInv(next) && TimelineInv(next)
    ensures forall queue :: QueueInv(next, queue)
  {
    OrdersInvGrows(w, next);
    NotificationsInvGrows(w, next);
    TimelineInvGrows(w, next);
    QueuesGrow(w, next);
  }

  // ---------------------------------------------------------------------------------------
  // Notifying
  // ---------------------------------------------------------------------------------------

  lemma NotifyGrows(w: World, event: NotificationService.NotificationEvent, id: Id, now: Time)
    ensures Grows(w, w.(notifications := NotificationService.Create(w.notifications, event, id, now)))
  {
    var created := NotificationService.Create(w.notifications, event, id, now);
    forall order, kind | NotificationService.Notified(w.notifications, order, kind)
      ensures NotificationService.Notified(created, order, kind)
    {
      var i :| 0 <= i < |w.notifications| && w.notifications[i].orderId == order && w.notifications[i].kind == kind;
      assert created[i] == w.notifications[i];
    }
  }

  lemma NotifyKeepsFits(w: World, event: NotificationService.NotificationEvent, id: Id, now: Time)
    requires NotificationsInv(w) && Known(w, event)
    ensures NotificationsInv(w.(notifications := NotificationService.Create(w.notifications, event, id, now)))
  {
    var next := w.(notifications := NotificationService.Create(w.notifications, event, id, now));
    NotificationService.CreateKeeps(w.notifications, event, id, now);
    forall i | 0 <= i < |next.notifications| ensures NotificationFits(next, next.notifications[i]) {
      if i < |w.notifications| { assert NotificationFits(w, w.notifications[i]); }
    }
  }

  lemma NotifyKeepsInv(w: World, event: NotificationService.NotificationEvent, id: Id, now: Time)
    requires Inv(w) && Known(w, event)
    ensures var next := w.(notifications := NotificationService.Create(w.notifications, event, id, now));
            Settled(next, NotificationQueue, event)
  {
    var next := w.(notifications := NotificationService.Create(w.notifications, event, id, now));
    NotifyGrows(w, event, id, now);
    NotifyKeepsFits(w, event, id, now);
    NotificationService.CreateKeeps(w.notifications, event, id, now);
    DecisionsGrow(w, next);
    KeptIsSettled(next, NotificationQueue, event);
  }

  lemma DecisionsGrow(w: World, next: World)
    requires Inv(w) && Grows(w, next) && next == w.(notifications := next.notifications)
    ensures OrdersInv(next) && ResultsInv(next) && TimelineInv(next) && IdsInv(next)
    ensures forall queue :: QueueInv(next, queue)
  {
    OrdersInvGrows(w, next);
    ResultsInvGrows(w, next);
    TimelineInvGrows(w, next);
    QueuesGrow(w, next);
  }

  // ---------------------------------------------------------------------------------------
  // Every step
  // ---------------------------------------------------------------------------------------

  lemma PaymentIsKnown(w: World, event: Event)
    requires Genuine(w, PaymentQueue, event)
    ensures event.OrderCreated? && Known(w, PaymentService.AuthorizePayment(event))
  {
  }

  lemma BookingIsKnown(w: World, event: Event)
    requires Genuine(w, DeliveryQueue, event)
    ensures event.InventoryReserved? && Known(w, DeliveryService.BookDelivery(event))
  {
  }

  lemma PaymentIsHandled(w: World, event: Event, draw: Draw)
    requires PaymentQueue in BoundQueues(event)
    ensures event.OrderCreated?
    ensures Handled(w, PaymentQueue, event, draw)
            == w.(queues := w.queues.Publish(PaymentService.AuthorizePayment(event)))
  {
  }

  lemma BookingIsHandled(w: World, event: Event, draw: Draw)
    requires DeliveryQueue in BoundQueues(event)
    ensures event.InventoryReserved?
    ensures Handled(w, DeliveryQueue, event, draw) == w.(queues := w.queues.Publish(DeliveryService.BookDelivery(event)))
  {
  }

  lemma ReservationIsHandled(w: World, event: Event, draw: Draw)
    requires InventoryQueue in BoundQueues(event)
    ensures event.PaymentAuthorized? && Handled(w, InventoryQueue, event, draw) == AfterReserve(w, event, draw)
  {
  }

  lemma NoticeIsHandled(w: World, event: Event, draw: Draw)
    requires NotificationQueue in BoundQueues(event)
    ensures event.DeliveryBooked? || event.InventoryReservationFailed?
    ensures Handled(w, NotificationQueue, event, draw)
            == w.(notifications := NotificationService.Create(w.notifications, event, draw.otherId, draw.now))
  {
  }

  lemma HistoryIsHandled(w: World, event: Event, draw: Draw)
    requires TimelineQueue in BoundQueues(event)
    ensures !event.OrderCreated?
    ensures Handled(w, TimelineQueue, event, draw)
            == w.(orders := OrderStore.Record(w.orders, WorkflowEventOf(event), draw.now))
  {
  }

  lemma PaymentHandled(w: World, event: Event, draw: Draw)
    requires Inv(w) && Genuine(w, PaymentQueue, event)
    ensures Settled(Handled(w, PaymentQueue, event, draw), PaymentQueue, event)
  {
    PaymentIsKnown(w, event);
    PaymentIsHandled(w, event, draw);
    ForwardKeepsInv(w, PaymentService.AuthorizePayment(event));
  }

  lemma ReservationHandled(w: World, event: Event, draw: Draw)
    requires Inv(w) && Genuine(w, InventoryQueue, event) && DrawIsNew(w, draw)
    ensures Settled(Handled(w, InventoryQueue, event, draw), InventoryQueue, event)
  {
    ReservationIsHandled(w, event, draw);
    ReserveKeepsInv(w, event, draw);
  }

  lemma BookingHandled(w: World, event: Event, draw: Draw)
    requires Inv(w) && Genuine(w, DeliveryQueue, event)
    ensures Settled(Handled(w, DeliveryQueue, event, draw), DeliveryQueue, event)
  {
    BookingIsKnown(w, event);
    BookingIsHandled(w, event, draw);
    ForwardKeepsInv(w, DeliveryService.BookDelivery(event));
  }

  lemma NotificationHandled(w: World, event: Event, draw: Draw)
    requires Inv(w) && Genuine(w, NotificationQueue, event)
    ensures Settled(Handled(w, NotificationQueue, event, draw), NotificationQueue, event)
  {
    NoticeIsHandled(w, event, draw);
    NotifyKeepsInv(w, event, draw.otherId, draw.now);
  }

  lemma HistoryHandled(w: World, event: Event, draw: Draw)
    requires Inv(w) && Genuine(w, TimelineQueue, event)
    ensures Settled(Handled(w, TimelineQueue, event, draw), TimelineQueue, event)
  {
    HistoryIsHandled(w, event, draw);
    RecordKeepsInv(w, event, draw.now);
  }

  /** A handler's work, whether or not its message is acknowledged afterwards. */
  lemma HandledKeepsInv(w: World, queue: Queue, event: Event, draw: Draw)
    requires Inv(w) && Genuine(w, queue, event) && DrawIsNew(w, draw)
    ensures Settled(Handled(w, queue, event, draw), queue, event)
  {
    match queue
    case PaymentQueue => PaymentHandled(w, event, draw);
    case InventoryQueue => ReservationHandled(w, event, draw);
    case DeliveryQueue => BookingHandled(w, event, draw);
    case NotificationQueue => NotificationHandled(w, event, draw);
    case TimelineQueue => HistoryHandled(w, event, draw);
  }

  /** A handler's work is only ever a step further. */
  lemma HandledGrows(w: World, queue: Queue, event: Event, draw: Draw)
    requires InventoryRuns.Matched(w.inventory)
    ensures Grows(w, Handled(w, queue, event, draw))
  {
    if queue in BoundQueues(event) {
      match queue
      case PaymentQueue =>
        PublishGrows(w, Handled(w, queue, event, draw), PaymentService.AuthorizePayment(event));
      case InventoryQueue => ReserveGrows(w, event, draw);
      case DeliveryQueue =>
        PublishGrows(w, Handled(w, queue, event, draw), DeliveryService.BookDelivery(event));
      case NotificationQueue => NotifyGrows(w, event, draw.otherId, draw.now);
      case TimelineQueue => RecordGrows(w, WorkflowEventOf(event), draw.now);
    }
  }

  /** A handler adds messages but takes none away. */
  lemma HandledKeepsUnacked(w: World, queue: Queue, event: Event, draw: Draw)
    ensures Handled(w, queue, event, draw).queues.Of(queue).unacked == w.queues.Of(queue).unacked
    ensures Handled(w, queue, event, draw).cacheSize == w.cacheSize
  {
    if queue in BoundQueues(event) {
      if queue.PaymentQueue? {
        PublishedOf(w.queues, PaymentService.AuthorizePayment(event), queue);
      } else if queue.DeliveryQueue? {
        PublishedOf(w.queues, DeliveryService.BookDelivery(event), queue);
      }
    }
  }

  lemma HandledMessageIsGenuine(w: World, action: Action)
    requires action.Handle? && QueueInv(w, action.queue) && Enabled(w, action)
    ensures Genuine(w, action.queue, action.event)
  {
  }

  lemma HandleKeepsInv(w: World, action: Action)
    requires Inv(w) && Enabled(w, action) && action.Handle?
    ensures Inv(Apply(w, action)) && Grows(w, Apply(w, action))
  {
    var Handle(queue, event, run, draw, late) := action;
    var worked := Worked(w, queue, event, run, draw);
    assert QueueInv(w, queue);
    HandledMessageIsGenuine(w, action);
    if run.Resolved? || run.committed {
      HandledKeepsInv(w, queue, event, draw);
      HandledGrows(w, queue, event, draw);
    } else {
      Reflexive(w);
    }
    if run.Resolved? {
      HandledKeepsUnacked(w, queue, event, draw);
      KnownGrows(w, worked, event);
      MarkHandledKeepsInv(worked, queue, event, late);
      GrowsFurther(w, worked, Apply(w, action));
    }
  }

  lemma Reflexive(w: World)
    ensures Grows(w, w)
  {
  }

  /** Every step keeps the invariant and is a step further: it undoes nothing that was decided, kept or secured. */
  lemma StepKeepsInv(w: World, action: Action)
    requires Inv(w) && Enabled(w, action)
    ensures Inv(Apply(w, action)) && Grows(w, Apply(w, action))
  {
    if action.Submit? {
      if action.fate.Aborted? {
        Reflexive(w);
      } else {
        SubmitGrows(w, action.order, action.row, action.now);
        SubmitKeepsInv(w, action.order, action.row, action.now);
      }
    } else if action.RelayOrders? {
      RelayOrdersKeepsInv(w, action.step);
    } else if action.RelayResults? {
      RelayResultsKeepsInv(w, action.step);
    } else if action.Handle? {
      HandleKeepsInv(w, action);
    } else if action.Acknowledge? || action.SkipDuplicate? {
      DropKeepsInv(w, action);
    } else {
      MoveKeepsInv(w, action);
    }
  }

  lemma {:induction false} RunKeepsInv(w: World, run: seq<Action>)
    requires Inv(w) && ValidRun(w, run)
    ensures Inv(After(w, run)) && Grows(w, After(w, run))
    decreases |run|
  {
    if run == [] {
      Reflexive(w);
    } else {
      StepKeepsInv(w, run[0]);
      RunKeepsInv(Apply(w, run[0]), run[1..]);
      GrowsFurther(w, Apply(w, run[0]), After(w, run));
    }
  }

  /** Once an event is in its queues or done there, and once it was handled, no later step undoes that. */
  lemma {:induction false} SecuredForGood(w: World, run: seq<Action>, event: Event)
    requires Inv(w) && ValidRun(w, run)
    ensures Secured(w, event) ==> Secured(After(w, run), event)
    ensures Arrived(w, event) ==> Arrived(After(w, run), event)
    ensures forall queue :: Done(w, queue, event) ==> Done(After(w, run), queue, event)
  {
    RunKeepsInv(w, run);
    if Secured(w, event) { SecuredGrows(w, After(w, run), event); }
    if Arrived(w, event) { ArrivedGrows(w, After(w, run), event); }
    forall queue | Done(w, queue, event) ensures Done(After(w, run), queue, event) {
      DoneGrows(w, After(w, run), queue, event);
    }
  }
}
