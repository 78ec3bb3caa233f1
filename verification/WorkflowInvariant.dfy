/** What every step of the workflow keeps. */
module WorkflowInvariant {
  import opened Contracts
  import OrderStatus
  import OrderStore
  import OrderRuns
  import InventoryRuns
  import NotificationService
  import PaymentService
  import DeliveryService
  import Outbox = OutboxProtocol
  import OutboxStore
  import opened Workflow

  // ---------------------------------------------------------------------------------------
  // The two events that are decided: an order's creation and its result
  // ---------------------------------------------------------------------------------------

  function OriginOf(w: World, order: Id): Option<Event> {
    if order in w.orders.orders then Some(w.orders.orders[order].event) else None
  }

  function ResultIn(outbox: seq<Event>, order: Id): Option<Event> {
    if outbox == [] then None
    else if outbox[|outbox| - 1].orderId == order then Some(outbox[|outbox| - 1])
    else ResultIn(outbox[..|outbox| - 1], order)
  }

  function ResultOf(w: World, order: Id): Option<Event> {
    ResultIn(w.inventory.outbox, order)
  }

  lemma {:induction false} ResultIsIn(outbox: seq<Event>, order: Id)
    ensures ResultIn(outbox, order).Some? ==>
              ResultIn(outbox, order).value in outbox && ResultIn(outbox, order).value.orderId == order
    ensures ResultIn(outbox, order).None? <==> !InventoryRuns.HasEvent(outbox, order)
  {
    if outbox != [] {
      ResultIsIn(outbox[..|outbox| - 1], order);
      var last := outbox[|outbox| - 1];
      if InventoryRuns.HasEvent(outbox, order) && last.orderId != order {
        var i :| 0 <= i < |outbox| && outbox[i].orderId == order;
        assert outbox[..|outbox| - 1][i].orderId == order;
      }
      if InventoryRuns.HasEvent(outbox[..|outbox| - 1], order) {
        var i :| 0 <= i < |outbox| - 1 && outbox[..|outbox| - 1][i].orderId == order;
        assert outbox[i].orderId == order;
      }
    }
  }

  /** The event is what its order's decisions make it: no other event is ever sent. */
  predicate Known(w: World, event: Event) {
    var origin, result := OriginOf(w, event.orderId), ResultOf(w, event.orderId);
    match event
    case OrderCreated(_, _, _, _, _, _, _) => origin == Some(event)
    case PaymentAuthorized(_, _, _, _, _, _, _) =>
      origin.Some? && origin.value.OrderCreated? && event == PaymentService.AuthorizePayment(origin.value)
    case InventoryReserved(_, _, _, _, _, _) => result == Some(event)
    case InventoryReservationFailed(_, _, _, _, _) => result == Some(event)
    case DeliveryBooked(_, _, _, _, _, _) =>
      result.Some? && result.value.InventoryReserved? && event == DeliveryService.BookDelivery(result.value)
  }

  predicate Genuine(w: World, queue: Queue, event: Event) {
    queue in BoundQueues(event) && Known(w, event)
  }

  // ---------------------------------------------------------------------------------------
  // Nothing falls between two stages
  // ---------------------------------------------------------------------------------------

  predicate Copied(state: QueueState, event: Event) {
    event in state.ready || event in state.unacked || event in state.settling || event in state.dead
  }

  predicate Present(w: World, queue: Queue, event: Event) {
    Copied(w.queues.Of(queue), event)
  }

  predicate InTimeline(w: World, event: Event) {
    OrderStore.FindEvent(w.orders.timeline, event.eventId).Some?
  }

  /** Handled by a service that keeps what it did. */
  predicate Kept(w: World, queue: Queue, event: Event) {
    match queue
    case PaymentQueue => false
    case InventoryQueue => ResultOf(w, event.orderId).Some?
    case DeliveryQueue => false
    case NotificationQueue =>
      && (event.DeliveryBooked? || event.InventoryReservationFailed?)
      && NotificationService.Notified(w.notifications, event.orderId, NotificationService.KindOf(event))
    case TimelineQueue => InTimeline(w, event)
  }

  /** In each of its queues the event is still there or was kept. */
  predicate Relayed(w: World, event: Event) {
    forall queue :: queue in BoundQueues(event) ==> Present(w, queue, event) || Kept(w, queue, event)
  }

  /** Handled, for good: the stateless services have passed their result on. */
  predicate Done(w: World, queue: Queue, event: Event) {
    || Kept(w, queue, event)
    || (queue.PaymentQueue? && event.OrderCreated? && Relayed(w, PaymentService.AuthorizePayment(event)))
    || (queue.DeliveryQueue? && event.InventoryReserved? && Relayed(w, DeliveryService.BookDelivery(event)))
  }

  predicate Secured(w: World, event: Event) {
    forall queue :: queue in BoundQueues(event) ==> Present(w, queue, event) || Done(w, queue, event)
  }

  /** A handler run of the queue's consumer finished with the event. */
  predicate IsHandled(w: World, queue: Queue, event: Event) {
    event.eventId in w.queues.Of(queue).handled
  }

  /** In each of its queues the event is still there or was handled. */
  predicate Arrived(w: World, event: Event) {
    forall queue :: queue in BoundQueues(event) ==> Present(w, queue, event) || IsHandled(w, queue, event)
  }

  /** One world is further than another: nothing decided or kept is lost, and messages only go once handled and done. */
  ghost predicate Grows(before: World, after: World) {
    && (forall order :: OriginOf(before, order).Some? ==> OriginOf(after, order) == OriginOf(before, order))
    && (forall order :: ResultOf(before, order).Some? ==> ResultOf(after, order) == ResultOf(before, order))
    && (forall order, kind :: NotificationService.Notified(before.notifications, order, kind) ==>
                                NotificationService.Notified(after.notifications, order, kind))
    && (forall event :: InTimeline(before, event) ==> InTimeline(after, event))
    && (forall queue, event :: IsHandled(before, queue, event) ==> IsHandled(after, queue, event))
    && (forall queue, event :: Present(before, queue, event) ==>
                                 || Present(after, queue, event)
                                 || (Done(after, queue, event) && IsHandled(after, queue, event)))
  }

  lemma KnownGrows(before: World, after: World, event: Event)
    requires Grows(before, after) && Known(before, event)
    ensures Known(after, event)
  {
  }

  lemma RelayedGrows(before: World, after: World, event: Event)
    requires Grows(before, after) && Relayed(before, event)
    requires event.PaymentAuthorized? || event.DeliveryBooked?
    ensures Relayed(after, event)
  {
    forall queue | queue in BoundQueues(event)
      ensures Present(after, queue, event) || Kept(after, queue, event)
    {
      if Present(before, queue, event) {
        assert Present(after, queue, event) || Done(after, queue, event);
      }
    }
  }

  lemma DoneGrows(before: World, after: World, queue: Queue, event: Event)
    requires Grows(before, after) && Done(before, queue, event)
    ensures Done(after, queue, event)
  {
    if !Kept(before, queue, event) {
      if queue.PaymentQueue? {
        RelayedGrows(before, after, PaymentService.AuthorizePayment(event));
      } else {
        RelayedGrows(before, after, DeliveryService.BookDelivery(event));
      }
    }
  }

  lemma SecuredGrows(before: World, after: World, event: Event)
    requires Grows(before, after) && Secured(before, event)
    ensures Secured(after, event)
  {
    forall queue | queue in BoundQueues(event)
      ensures Present(after, queue, event) || Done(after, queue, event)
    {
      if Done(before, queue, event) {
        DoneGrows(before, after, queue, event);
      }
    }
  }

  lemma ArrivedGrows(before: World, after: World, event: Event)
    requires Grows(before, after) && Arrived(before, event)
    ensures Arrived(after, event)
  {
  }

  /** Further is transitive. */
  lemma GrowsFurther(before: World, middle: World, after: World)
    requires Grows(before, middle) && Grows(middle, after)
    ensures Grows(before, after)
  {
    forall queue, event | Present(before, queue, event)
      ensures Present(after, queue, event) || (Done(after, queue, event) && IsHandled(after, queue, event))
    {
      if !Present(middle, queue, event) {
        DoneGrows(middle, after, queue, event);
      }
    }
  }

  // ---------------------------------------------------------------------------------------
  // The invariant
  // ---------------------------------------------------------------------------------------

  /** Every message is genuine, and what left a queue as handled is done. */
  ghost predicate QueueInv(w: World, queue: Queue) {
    var state := w.queues.Of(queue);
    && (forall event :: Copied(state, event) ==> Genuine(w, queue, event))
    && (forall event :: event in state.delivered ==> Genuine(w, queue, event))
    && (forall event :: event in state.settling ==> Done(w, queue, event) && IsHandled(w, queue, event))
    && (forall id :: id in state.handled ==>
                       && state.handled[id].eventId == id
                       && Genuine(w, queue, state.handled[id])
                       && Done(w, queue, state.handled[id]))
    && (forall id :: id in state.recent ==> id in state.handled)
  }

  /** The row of an order's event, and back. */
  predicate RowHolds(outbox: Outbox.System, rowOf: map<Id, OutboxStore.SequenceId>, order: Id, event: Event) {
    order in rowOf && rowOf[order] in outbox.rows && outbox.rows[rowOf[order]].event == event
  }

  predicate RowBelongs(outbox: Outbox.System, rowOf: map<Id, OutboxStore.SequenceId>, row: OutboxStore.SequenceId)
    requires row in outbox.rows
  {
    var order := outbox.rows[row].event.orderId;
    order in rowOf && rowOf[order] == row
  }

  /** What was confirmed is in its queues or was handled there, for good. */
  ghost predicate ConfirmedInv(w: World, outbox: Outbox.System) {
    forall row :: row in outbox.confirmed && row in outbox.rows ==>
                    Secured(w, outbox.rows[row].event) && Arrived(w, outbox.rows[row].event)
  }

  ghost predicate OrderRowsInv(w: World) {
    && (forall order :: order in w.orders.orders ==>
                          RowHolds(w.orderOutbox, w.orderRow, order, w.orders.orders[order].event))
    && (forall row :: row in w.orderOutbox.rows ==>
                        && RowBelongs(w.orderOutbox, w.orderRow, row)
                        && w.orderOutbox.rows[row].event.OrderCreated?
                        && Known(w, w.orderOutbox.rows[row].event))
  }

  /** Orders and their outbox. */
  ghost predicate OrdersInv(w: World) {
    OrderRuns.Inv(w.orders) && Outbox.Inv(w.orderOutbox) && OrderRowsInv(w) && ConfirmedInv(w, w.orderOutbox)
  }

  /** The result is about the stored order: its items, its correlation id, its authorization. */
  predicate ResultFits(w: World, order: Id) {
    && order in w.orders.orders
    && order in w.inventory.reservations
    && ResultOf(w, order).Some?
    && var created, record, result := w.orders.orders[order].event, w.inventory.reservations[order], ResultOf(w, order).value;
       && record.items == created.items
       && record.sourceEventId == PaymentService.AuthorizePayment(created).eventId
       && result.correlationId == created.correlationId
       && (result.InventoryReserved? ==> result.items == created.items)
  }

  ghost predicate ReservationsFit(w: World) {
    forall order :: order in w.inventory.reservations ==> ResultFits(w, order)
  }

  ghost predicate ResultRowsInv(w: World) {
    && (forall i :: 0 <= i < |w.inventory.outbox| ==>
                      && w.inventory.outbox[i].eventId.Random?
                      && RowHolds(w.inventoryOutbox, w.resultRow, w.inventory.outbox[i].orderId, w.inventory.outbox[i]))
    && (forall row :: row in w.inventoryOutbox.rows ==>
                        && RowBelongs(w.inventoryOutbox, w.resultRow, row)
                        && w.inventoryOutbox.rows[row].event in w.inventory.outbox)
  }

  /** Results and their outbox. */
  ghost predicate ResultsInv(w: World) {
    && InventoryRuns.Matched(w.inventory)
    && Outbox.Inv(w.inventoryOutbox)
    && ReservationsFit(w)
    && ResultRowsInv(w)
    && ConfirmedInv(w, w.inventoryOutbox)
  }

  /** Event ids name one order's event or one result. */
  ghost predicate IdsInv(w: World) {
    && (forall first, second :: first in w.orders.orders && second in w.orders.orders
                                && w.orders.orders[first].event.eventId == w.orders.orders[second].event.eventId ==>
                                  first == second)
    && (forall i, j :: 0 <= i < j < |w.inventory.outbox| ==> w.inventory.outbox[i].eventId != w.inventory.outbox[j].eventId)
  }

  predicate NotificationFits(w: World, notification: NotificationService.Notification) {
    && Known(w, notification.event)
    && notification.event.orderId == notification.orderId
    && NotificationService.KindOf(notification.event) == notification.kind
  }

  ghost predicate NotificationsInv(w: World) {
    && NotificationService.OnePerOutcome(w.notifications)
    && forall i :: 0 <= i < |w.notifications| ==> NotificationFits(w, w.notifications[i])
  }

  /** The one event that can bring an order to this step, once it is decided. */
  function StepEvent(w: World, order: Id, eventType: OrderStatus.EventType): Option<Event> {
    var origin, result := OriginOf(w, order), ResultOf(w, order);
    match eventType
    case PaymentAuthorized =>
      if origin.Some? && origin.value.OrderCreated? then Some(PaymentService.AuthorizePayment(origin.value)) else None
    case InventoryReserved => if result.Some? && result.value.InventoryReserved? then result else None
    case InventoryReservationFailed =>
      if result.Some? && result.value.InventoryReservationFailed? then result else None
    case DeliveryBooked =>
      if result.Some? && result.value.InventoryReserved? then Some(DeliveryService.BookDelivery(result.value)) else None
  }

  /** A recorded step is the order's own event of that type. */
  predicate EntryFits(w: World, entry: OrderStore.Entry) {
    entry.kind.Recorded? ==>
      var event := StepEvent(w, entry.orderId, entry.kind.eventType);
      event.Some? && event.value.eventId == entry.kind.eventId && event.value.occurredAt == entry.occurredAt
  }

  ghost predicate TimelineInv(w: World) {
    forall i :: 0 <= i < |w.orders.timeline| ==> EntryFits(w, w.orders.timeline[i])
  }

  ghost predicate Inv(w: World) {
    && OrdersInv(w)
    && ResultsInv(w)
    && IdsInv(w)
    && NotificationsInv(w)
    && TimelineInv(w)
    && forall queue :: QueueInv(w, queue)
  }

  lemma InitialInv(stock: map<ProductId, int>, outbox: Outbox.Config, cacheSize: int)
    ensures Inv(Initial(stock, outbox, cacheSize))
  {
    OrderRuns.RunKeepsInv([]);
    Outbox.InitialInv(outbox);
  }

  /** An order's result is its one event in the outbox. */
  lemma ResultOfMember(w: World, i: nat)
    requires InventoryRuns.Matched(w.inventory) && i < |w.inventory.outbox|
    ensures ResultOf(w, w.inventory.outbox[i].orderId) == Some(w.inventory.outbox[i])
  {
    ResultIsIn(w.inventory.outbox, w.inventory.outbox[i].orderId);
  }

  lemma ResultIsDecided(w: World, order: Id)
    requires InventoryRuns.Matched(w.inventory)
    ensures ResultOf(w, order).Some? <==> order in w.inventory.reservations
    ensures ResultOf(w, order).Some? ==>
              && ResultOf(w, order).value in w.inventory.outbox
              && ResultOf(w, order).value.orderId == order
              && InventoryRuns.Accounted(w.inventory.reservations, ResultOf(w, order).value)
  {
    ResultIsIn(w.inventory.outbox, order);
    if InventoryRuns.HasEvent(w.inventory.outbox, order) {
      var i :| 0 <= i < |w.inventory.outbox| && w.inventory.outbox[i].orderId == order;
      assert InventoryRuns.Accounted(w.inventory.reservations, w.inventory.outbox[i]);
    }
  }

  /** Two orders' events with one id are one order's. */
  lemma SameOrigin(w: World, first: Id, second: Id)
    requires OrderRuns.KeysInv(w.orders) && IdsInv(w)
    requires OriginOf(w, first).Some? && OriginOf(w, second).Some?
    requires OriginOf(w, first).value.eventId == OriginOf(w, second).value.eventId
    ensures first == second
  {
  }

  lemma SameResult(w: World, first: Id, second: Id)
    requires InventoryRuns.Matched(w.inventory) && IdsInv(w)
    requires ResultOf(w, first).Some? && ResultOf(w, second).Some?
    requires ResultOf(w, first).value.eventId == ResultOf(w, second).value.eventId
    ensures first == second
  {
    ResultIsIn(w.inventory.outbox, first);
    ResultIsIn(w.inventory.outbox, second);
  }

  predicate IsResult(event: Event) {
    event.InventoryReserved? || event.InventoryReservationFailed?
  }

  /** An event's id shows which service made it. */
  predicate IdTells(event: Event) {
    && (IsResult(event) ==> event.eventId.Random?)
    && (event.PaymentAuthorized? ==> event.eventId.Derived? && event.eventId.namespace != "" && event.eventId.namespace[0] == 'p')
    && (event.DeliveryBooked? ==> event.eventId.Derived? && event.eventId.namespace != "" && event.eventId.namespace[0] == 'd')
  }

  lemma KnownIdTells(w: World, event: Event)
    requires ResultRowsInv(w) && Known(w, event)
    ensures IdTells(event)
  {
    if event.PaymentAuthorized? {
      assert event.eventId.namespace == "payment-service.payment-authorized-event";
    } else if event.DeliveryBooked? {
      assert event.eventId.namespace == "delivery-service.delivery-booked-event";
    } else if IsResult(event) {
      ResultIsIn(w.inventory.outbox, event.orderId);
    }
  }

  /** Different kinds of events never share an id. */
  lemma SameKind(queue: Queue, first: Event, second: Event)
    requires IdTells(first) && IdTells(second) && queue in BoundQueues(first) && queue in BoundQueues(second)
    requires first.eventId == second.eventId
    ensures first.OrderCreated? == second.OrderCreated? && first.PaymentAuthorized? == second.PaymentAuthorized?
    ensures IsResult(first) == IsResult(second)
  {
  }

  /** In one queue an id names one event. */
  lemma SameId(w: World, queue: Queue, first: Event, second: Event)
    requires OrderRuns.KeysInv(w.orders) && InventoryRuns.Matched(w.inventory) && ResultRowsInv(w) && IdsInv(w)
    requires Genuine(w, queue, first) && Genuine(w, queue, second) && first.eventId == second.eventId
    ensures first == second
  {
    KnownIdTells(w, first);
    KnownIdTells(w, second);
    SameKind(queue, first, second);
    if first.OrderCreated? || first.PaymentAuthorized? {
      SameOrigin(w, first.orderId, second.orderId);
    } else {
      SameResult(w, first.orderId, second.orderId);
    }
  }
}
