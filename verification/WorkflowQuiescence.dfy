/** Once nothing of an order is left to publish or to handle, the order is finished everywhere. */
module WorkflowQuiescence {
  import opened Contracts
  import OrderStatus
  import OrderStore
  import OrderRuns
  import InventoryRuns
  import NotificationService
  import PaymentService
  import DeliveryService
  import Outbox = OutboxProtocol
  import opened Workflow
  import opened WorkflowInvariant
  import opened WorkflowTheorems

  predicate AllPublished(outbox: Outbox.System, order: Id) {
    forall row :: row in outbox.rows && outbox.rows[row].event.orderId == order ==> outbox.rows[row].publishedAt.Some?
  }

  /** No row of the order waits for a relay and no queue or dead-letter queue holds a message about it. */
  ghost predicate NothingPending(w: World, order: Id) {
    && AllPublished(w.orderOutbox, order)
    && AllPublished(w.inventoryOutbox, order)
    && forall queue, event :: Present(w, queue, event) ==> event.orderId != order
  }

  /** Decided, told and shown as finished, all in agreement. */
  predicate Finished(w: World, order: Id)
    requires order in w.orders.orders
  {
    var status := w.orders.orders[order].status;
    var outcome := OrderStatus.GetOrderOutcome(status);
    || (&& IsReserved(w, order) && Told(w, order, NotificationService.DeliveryNotice)
        && status.DeliveryBooked? && outcome.Completed?)
    || (&& IsRejected(w, order) && Told(w, order, NotificationService.FailureNotice)
        && status.InventoryReservationFailed? && outcome.Failed?)
  }

  /** The order's history shows all steps of its way and no other step. */
  predicate HistoryIsComplete(w: World, order: Id) {
    var steps := set step | step in OrderRuns.Types(w.orders.timeline, order);
    || (IsReserved(w, order)
        && steps == {OrderStatus.PaymentAuthorized, OrderStatus.InventoryReserved, OrderStatus.DeliveryBooked})
    || (IsRejected(w, order) && steps == {OrderStatus.PaymentAuthorized, OrderStatus.InventoryReservationFailed})
  }

  // ---------------------------------------------------------------------------------------
  // What the history of an order holds
  // ---------------------------------------------------------------------------------------

  lemma {:induction false} RecordedTypes(timeline: seq<OrderStore.Entry>, i: nat)
    requires i < |timeline| && timeline[i].kind.Recorded?
    ensures timeline[i].kind.eventType in OrderRuns.Types(timeline, timeline[i].orderId)
  {
    if i < |timeline| - 1 {
      RecordedTypes(timeline[..|timeline| - 1], i);
    }
  }

  lemma StepEventIsKnown(w: World, order: Id, eventType: OrderStatus.EventType)
    requires OrderRuns.KeysInv(w.orders) && InventoryRuns.Matched(w.inventory)
    requires StepEvent(w, order, eventType).Some?
    ensures var event := StepEvent(w, order, eventType).value;
            && event.orderId == order && Genuine(w, TimelineQueue, event)
            && !event.OrderCreated? && StatusOf(event) == eventType
  {
    ResultIsDecided(w, order);
  }

  /** An event in the history is there as a step of its own order. */
  lemma RecordedAsItself(w: World, event: Event)
    requires OrderRuns.KeysInv(w.orders) && InventoryRuns.Matched(w.inventory) && ResultRowsInv(w)
    requires IdsInv(w) && TimelineInv(w)
    requires Genuine(w, TimelineQueue, event) && InTimeline(w, event) && !event.OrderCreated?
    ensures StatusOf(event) in OrderRuns.Types(w.orders.timeline, event.orderId)
  {
    var timeline := w.orders.timeline;
    OrderStore.FindEventFinds(timeline, event.eventId);
    var i := OrderStore.FindEvent(timeline, event.eventId).value;
    assert EntryFits(w, timeline[i]);
    var order, eventType := timeline[i].orderId, timeline[i].kind.eventType;
    StepEventIsKnown(w, order, eventType);
    SameId(w, TimelineQueue, event, StepEvent(w, order, eventType).value);
    RecordedTypes(timeline, i);
  }

  // ---------------------------------------------------------------------------------------
  // Stage by stage
  // ---------------------------------------------------------------------------------------

  lemma QuietIsDone(w: World, event: Event, queue: Queue)
    requires NothingPending(w, event.orderId) && Secured(w, event) && queue in BoundQueues(event)
    ensures Done(w, queue, event)
  {
    assert !Present(w, queue, event);
  }

  lemma QuietIsKept(w: World, event: Event, queue: Queue)
    requires NothingPending(w, event.orderId) && Relayed(w, event) && queue in BoundQueues(event)
    ensures Kept(w, queue, event)
  {
    assert !Present(w, queue, event);
  }

  lemma CreationIsDone(w: World, order: Id)
    requires OrdersInv(w) && order in w.orders.orders && NothingPending(w, order)
    ensures ResultOf(w, order).Some?
  {
    var created := w.orders.orders[order].event;
    assert created.orderId == order by { assert OrderRuns.KeysInv(w.orders); }
    CreationIsSecured(w, order);
    QuietIsDone(w, created, PaymentQueue);
    QuietIsKept(w, PaymentService.AuthorizePayment(created), InventoryQueue);
  }

  lemma BookingIsRelayed(w: World, result: Event)
    requires result.InventoryReserved? && Done(w, DeliveryQueue, result)
    ensures Relayed(w, DeliveryService.BookDelivery(result))
  {
  }

  lemma ReservationIsDone(w: World, result: Event)
    requires NothingPending(w, result.orderId) && Secured(w, result) && result.InventoryReserved?
    ensures Told(w, result.orderId, NotificationService.DeliveryNotice)
    ensures InTimeline(w, DeliveryService.BookDelivery(result))
  {
    var booking := DeliveryService.BookDelivery(result);
    QuietIsDone(w, result, DeliveryQueue);
    BookingIsRelayed(w, result);
    QuietIsKept(w, booking, NotificationQueue);
    QuietIsKept(w, booking, TimelineQueue);
  }

  lemma RejectionIsDone(w: World, result: Event)
    requires NothingPending(w, result.orderId) && Secured(w, result) && result.InventoryReservationFailed?
    ensures Told(w, result.orderId, NotificationService.FailureNotice)
    ensures InTimeline(w, result)
  {
    QuietIsDone(w, result, NotificationQueue);
    QuietIsDone(w, result, TimelineQueue);
  }

  /** The recorded last step decides the status. */
  lemma LastStepShows(w: World, event: Event)
    requires OrderRuns.Inv(w.orders) && InventoryRuns.Matched(w.inventory) && ResultRowsInv(w)
    requires IdsInv(w) && TimelineInv(w)
    requires Genuine(w, TimelineQueue, event) && InTimeline(w, event) && event.orderId in w.orders.orders
    requires event.DeliveryBooked? || event.InventoryReservationFailed?
    ensures w.orders.orders[event.orderId].status == StatusOf(event)
  {
    RecordedAsItself(w, event);
    StatusIsFurthest(w, event.orderId);
  }

  /** An event that left the timeline queue as done is recorded as a step of its order. */
  lemma StepIsShown(w: World, event: Event)
    requires Inv(w) && Known(w, event) && !event.OrderCreated? && InTimeline(w, event)
    ensures StatusOf(event) in OrderRuns.Types(w.orders.timeline, event.orderId)
  {
    RecordedAsItself(w, event);
  }

  lemma PaymentIsShown(w: World, order: Id)
    requires Inv(w) && order in w.orders.orders && NothingPending(w, order)
    ensures OrderStatus.PaymentAuthorized in OrderRuns.Types(w.orders.timeline, order)
  {
    CreationIsGenuine(w, order);
    var created := w.orders.orders[order].event;
    var payment := PaymentService.AuthorizePayment(created);
    CreationIsSecured(w, order);
    QuietIsDone(w, created, PaymentQueue);
    QuietIsKept(w, payment, TimelineQueue);
    StepIsShown(w, payment);
  }

  lemma ResultIsShown(w: World, order: Id)
    requires Inv(w) && NothingPending(w, order) && ResultOf(w, order).Some?
    ensures var result := ResultOf(w, order).value;
            IsResult(result) && StatusOf(result) in OrderRuns.Types(w.orders.timeline, order)
  {
    ResultIsGenuine(w, order);
    ResultIsSecured(w, order);
    var result := ResultOf(w, order).value;
    QuietIsDone(w, result, TimelineQueue);
    StepIsShown(w, result);
  }

  lemma BookingIsShown(w: World, order: Id)
    requires Inv(w) && NothingPending(w, order) && ResultOf(w, order).Some?
    requires ResultOf(w, order).value.InventoryReserved?
    ensures OrderStatus.DeliveryBooked in OrderRuns.Types(w.orders.timeline, order)
  {
    ResultIsGenuine(w, order);
    ResultIsSecured(w, order);
    ReservationIsDone(w, ResultOf(w, order).value);
    StepIsShown(w, DeliveryService.BookDelivery(ResultOf(w, order).value));
  }

  lemma {:induction false} StepsAre(types: seq<OrderStatus.EventType>)
    requires OrderStatus.PaymentAuthorized in types
    ensures OrderStatus.InventoryReserved in types && OrderStatus.DeliveryBooked in types
            && OrderStatus.InventoryReservationFailed !in types ==>
              (set step | step in types)
              == {OrderStatus.PaymentAuthorized, OrderStatus.InventoryReserved, OrderStatus.DeliveryBooked}
    ensures OrderStatus.InventoryReserved !in types && OrderStatus.DeliveryBooked !in types
            && OrderStatus.InventoryReservationFailed in types ==>
              (set step | step in types) == {OrderStatus.PaymentAuthorized, OrderStatus.InventoryReservationFailed}
  {
  }

  lemma QuietHistoryIsComplete(w: World, order: Id)
    requires Inv(w) && order in w.orders.orders && NothingPending(w, order)
    ensures HistoryIsComplete(w, order)
  {
    CreationIsDone(w, order);
    ResultTellsDecision(w, order);
    PaymentIsShown(w, order);
    ResultIsShown(w, order);
    if ResultOf(w, order).value.InventoryReserved? {
      BookingIsShown(w, order);
    }
    TypesTellDecision(w, order);
    StepsAre(OrderRuns.Types(w.orders.timeline, order));
  }

  lemma ReservedIsFinished(w: World, order: Id)
    requires Inv(w) && order in w.orders.orders && IsReserved(w, order)
    requires Told(w, order, NotificationService.DeliveryNotice)
    requires ResultOf(w, order).Some? && ResultOf(w, order).value.InventoryReserved? && ResultOf(w, order).value.orderId == order
    requires InTimeline(w, DeliveryService.BookDelivery(ResultOf(w, order).value))
    ensures Finished(w, order)
  {
    LastStepShows(w, DeliveryService.BookDelivery(ResultOf(w, order).value));
  }

  lemma RejectedIsFinished(w: World, order: Id)
    requires Inv(w) && order in w.orders.orders && IsRejected(w, order)
    requires Told(w, order, NotificationService.FailureNotice)
    requires ResultOf(w, order).Some? && ResultOf(w, order).value.InventoryReservationFailed?
    requires ResultOf(w, order).value.orderId == order && InTimeline(w, ResultOf(w, order).value)
    ensures Finished(w, order)
  {
    LastStepShows(w, ResultOf(w, order).value);
  }

  lemma QuietOrderIsFinished(w: World, order: Id)
    requires Inv(w) && order in w.orders.orders && NothingPending(w, order)
    ensures Finished(w, order)
  {
    CreationIsDone(w, order);
    ResultIsDecided(w, order);
    ResultTellsDecision(w, order);
    ResultIsSecured(w, order);
    var result := ResultOf(w, order).value;
    if result.InventoryReserved? {
      ReservationIsDone(w, result);
      ReservedIsFinished(w, order);
    } else {
      RejectionIsDone(w, result);
      RejectedIsFinished(w, order);
    }
  }

  /**
   * In every reachable world: a stored order of which nothing is pending has its reservation
   * decided, its customer told that decision, the matching final status, and a history with
   * every step that led there and no other.
   */
  lemma NothingPendingMeansFinished(
    stock: map<ProductId, int>, outbox: Outbox.Config, cacheSize: int, run: seq<Action>, order: Id)
    requires ValidRun(Initial(stock, outbox, cacheSize), run)
    ensures var w := After(Initial(stock, outbox, cacheSize), run);
            order in w.orders.orders && NothingPending(w, order) ==> Finished(w, order) && HistoryIsComplete(w, order)
  {
    ReachableInv(stock, outbox, cacheSize, run);
    var w := After(Initial(stock, outbox, cacheSize), run);
    if order in w.orders.orders && NothingPending(w, order) {
      QuietOrderIsFinished(w, order);
      QuietHistoryIsComplete(w, order);
    }
  }
}
