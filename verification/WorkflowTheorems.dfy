/** What the workflow as a whole promises, over every run. */
module WorkflowTheorems {
  import opened Contracts
  import OrderStatus
  import OrderRuns
  import InventoryRuns
  import NotificationService
  import PaymentService
  import DeliveryService
  import Outbox = OutboxProtocol
  import opened Workflow
  import opened WorkflowInvariant
  import opened WorkflowSteps

  lemma ReachableInv(stock: map<ProductId, int>, outbox: Outbox.Config, cacheSize: int, run: seq<Action>)
    requires ValidRun(Initial(stock, outbox, cacheSize), run)
    ensures Inv(After(Initial(stock, outbox, cacheSize), run))
  {
    InitialInv(stock, outbox, cacheSize);
    RunKeepsInv(Initial(stock, outbox, cacheSize), run);
  }

  // ---------------------------------------------------------------------------------------
  // No order is lost
  // ---------------------------------------------------------------------------------------

  /** Still to be published: a relay will claim it again. */
  ghost predicate Unpublished(outbox: Outbox.System, event: Event) {
    exists row :: row in outbox.rows && outbox.rows[row].event == event && outbox.rows[row].publishedAt.None?
  }

  predicate Told(w: World, order: Id, kind: NotificationService.NotificationType) {
    NotificationService.Notified(w.notifications, order, kind)
  }

  /** A publication of the event was confirmed. */
  ghost predicate IsSent(outbox: Outbox.System, event: Event) {
    exists row :: row in outbox.rows && outbox.rows[row].event == event && row in outbox.confirmed
  }

  /** Where the result of an order is on its way to the customer, stage by stage. */
  ghost predicate ResultRepresented(w: World, result: Event) {
    if !IsSent(w.inventoryOutbox, result) then Unpublished(w.inventoryOutbox, result)
    else if result.InventoryReserved? then
      if !IsHandled(w, DeliveryQueue, result) then Present(w, DeliveryQueue, result)
      else
        || Told(w, result.orderId, NotificationService.DeliveryNotice)
        || Present(w, NotificationQueue, DeliveryService.BookDelivery(result))
    else
      || Told(w, result.orderId, NotificationService.FailureNotice)
      || Present(w, NotificationQueue, result)
  }

  /** Where an order is: at the first stage that has not finished with it. */
  ghost predicate Represented(w: World, order: Id)
    requires order in w.orders.orders
  {
    var created := w.orders.orders[order].event;
    if ResultOf(w, order).Some? then ResultRepresented(w, ResultOf(w, order).value)
    else if !IsSent(w.orderOutbox, created) then Unpublished(w.orderOutbox, created)
    else if !IsHandled(w, PaymentQueue, created) then Present(w, PaymentQueue, created)
    else Present(w, InventoryQueue, PaymentService.AuthorizePayment(created))
  }

  /** A row that is not confirmed is unpublished; a confirmed one's event reached its queues. */
  lemma CreationIsSent(w: World, order: Id)
    requires OrdersInv(w) && order in w.orders.orders
    ensures var created := w.orders.orders[order].event;
            if IsSent(w.orderOutbox, created) then Secured(w, created) && Arrived(w, created)
            else Unpublished(w.orderOutbox, created)
  {
    var created := w.orders.orders[order].event;
    assert RowHolds(w.orderOutbox, w.orderRow, order, created);
    var row := w.orderRow[order];
    assert Outbox.RowInv(w.orderOutbox, row);
    if IsSent(w.orderOutbox, created) {
      var sent :| sent in w.orderOutbox.rows && w.orderOutbox.rows[sent].event == created && sent in w.orderOutbox.confirmed;
      assert Secured(w, w.orderOutbox.rows[sent].event);
    }
  }

  lemma CreationIsSecured(w: World, order: Id)
    requires OrdersInv(w) && order in w.orders.orders
    ensures Unpublished(w.orderOutbox, w.orders.orders[order].event) || Secured(w, w.orders.orders[order].event)
  {
    CreationIsSent(w, order);
  }

  lemma ResultIsSent(w: World, order: Id)
    requires ResultsInv(w) && ResultOf(w, order).Some?
    ensures var result := ResultOf(w, order).value;
            && result.orderId == order
            && if IsSent(w.inventoryOutbox, result) then Secured(w, result) && Arrived(w, result)
               else Unpublished(w.inventoryOutbox, result)
  {
    ResultIsDecided(w, order);
    var result := ResultOf(w, order).value;
    var i :| 0 <= i < |w.inventory.outbox| && w.inventory.outbox[i] == result;
    assert RowHolds(w.inventoryOutbox, w.resultRow, order, result);
    assert Outbox.RowInv(w.inventoryOutbox, w.resultRow[order]);
    if IsSent(w.inventoryOutbox, result) {
      var sent :| sent in w.inventoryOutbox.rows && w.inventoryOutbox.rows[sent].event == result
                  && sent in w.inventoryOutbox.confirmed;
      assert Secured(w, w.inventoryOutbox.rows[sent].event);
    }
  }

  lemma ResultIsSecured(w: World, order: Id)
    requires ResultsInv(w) && ResultOf(w, order).Some?
    ensures Unpublished(w.inventoryOutbox, ResultOf(w, order).value) || Secured(w, ResultOf(w, order).value)
  {
    ResultIsSent(w, order);
  }

  /** What a consumer handled is done. */
  lemma HandledIsDone(w: World, queue: Queue, event: Event)
    requires OrderRuns.KeysInv(w.orders) && InventoryRuns.Matched(w.inventory) && ResultRowsInv(w) && IdsInv(w)
    requires QueueInv(w, queue) && Genuine(w, queue, event) && IsHandled(w, queue, event)
    ensures Done(w, queue, event)
  {
    SameId(w, queue, event, w.queues.Of(queue).handled[event.eventId]);
  }

  lemma HandledPaymentIsForwarded(w: World, created: Event)
    requires created.OrderCreated? && Done(w, PaymentQueue, created)
    ensures Present(w, InventoryQueue, PaymentService.AuthorizePayment(created)) || ResultOf(w, created.orderId).Some?
  {
    assert InventoryQueue in BoundQueues(PaymentService.AuthorizePayment(created));
  }

  lemma HandledReservationIsForwarded(w: World, result: Event)
    requires result.InventoryReserved? && Done(w, DeliveryQueue, result)
    ensures || Present(w, NotificationQueue, DeliveryService.BookDelivery(result))
            || Told(w, result.orderId, NotificationService.DeliveryNotice)
  {
    var booking := DeliveryService.BookDelivery(result);
    assert NotificationQueue in BoundQueues(booking);
    assert Kept(w, NotificationQueue, booking) == Told(w, result.orderId, NotificationService.DeliveryNotice);
  }

  lemma SecuredFailure(w: World, result: Event)
    requires Secured(w, result) && result.InventoryReservationFailed?
    ensures Present(w, NotificationQueue, result) || Told(w, result.orderId, NotificationService.FailureNotice)
  {
    assert NotificationQueue in BoundQueues(result);
    assert Kept(w, NotificationQueue, result) == Told(w, result.orderId, NotificationService.FailureNotice);
  }

  lemma ResultIsGenuine(w: World, order: Id)
    requires InventoryRuns.Matched(w.inventory) && ResultOf(w, order).Some?
    ensures var result := ResultOf(w, order).value;
            && result.orderId == order && IsResult(result)
            && (result.InventoryReserved? ==> Genuine(w, DeliveryQueue, result))
  {
    ResultIsDecided(w, order);
  }

  lemma ResultIsRepresented(w: World, order: Id)
    requires Inv(w) && ResultOf(w, order).Some?
    ensures ResultRepresented(w, ResultOf(w, order).value)
  {
    var result := ResultOf(w, order).value;
    ResultIsGenuine(w, order);
    ResultIsSent(w, order);
    if IsSent(w.inventoryOutbox, result) {
      if result.InventoryReservationFailed? {
        SecuredFailure(w, result);
      } else if IsHandled(w, DeliveryQueue, result) {
        HandledIsDone(w, DeliveryQueue, result);
        HandledReservationIsForwarded(w, result);
      } else {
        assert DeliveryQueue in BoundQueues(result);
      }
    }
  }

  lemma CreationIsGenuine(w: World, order: Id)
    requires OrderRuns.KeysInv(w.orders) && order in w.orders.orders
    ensures var created := w.orders.orders[order].event;
            created.orderId == order && Genuine(w, PaymentQueue, created)
  {
  }

  lemma CreationIsRepresented(w: World, order: Id)
    requires Inv(w) && order in w.orders.orders && ResultOf(w, order).None?
    ensures Represented(w, order)
  {
    var created := w.orders.orders[order].event;
    CreationIsGenuine(w, order);
    CreationIsSent(w, order);
    if IsSent(w.orderOutbox, created) {
      if IsHandled(w, PaymentQueue, created) {
        HandledIsDone(w, PaymentQueue, created);
        HandledPaymentIsForwarded(w, created);
      } else {
        assert PaymentQueue in BoundQueues(created);
      }
    }
  }

  /**
   * Whatever crashes, is lost, repeated, reordered, dead-lettered or replayed, each stored
   * order is where its progress says. Until it is decided: an unpublished row while no
   * publication was confirmed, then a payment message until Payment handled it, then an
   * inventory message. After the decision: an unpublished result row, then a message of the
   * result's next step, until the customer is told. Copies of steps that are over do not count.
   */
  lemma NoOrderIsLost(stock: map<ProductId, int>, outbox: Outbox.Config, cacheSize: int, run: seq<Action>, order: Id)
    requires ValidRun(Initial(stock, outbox, cacheSize), run)
    ensures var w := After(Initial(stock, outbox, cacheSize), run);
            order in w.orders.orders ==> Represented(w, order)
  {
    ReachableInv(stock, outbox, cacheSize, run);
    var w := After(Initial(stock, outbox, cacheSize), run);
    if order in w.orders.orders {
      if ResultOf(w, order).Some? {
        ResultIsRepresented(w, order);
      } else {
        CreationIsRepresented(w, order);
      }
    }
  }

  // ---------------------------------------------------------------------------------------
  // The services agree on the outcome
  // ---------------------------------------------------------------------------------------

  predicate IsReserved(w: World, order: Id) {
    order in w.inventory.reservations && w.inventory.reservations[order].status.Reserved?
  }

  predicate IsRejected(w: World, order: Id) {
    order in w.inventory.reservations && w.inventory.reservations[order].status.Rejected?
  }

  /** The result event's type is the recorded decision. */
  lemma ResultTellsDecision(w: World, order: Id)
    requires InventoryRuns.Matched(w.inventory)
    ensures ResultOf(w, order).Some? && ResultOf(w, order).value.InventoryReserved? <==> IsReserved(w, order)
    ensures ResultOf(w, order).Some? && ResultOf(w, order).value.InventoryReservationFailed? <==> IsRejected(w, order)
  {
    ResultIsDecided(w, order);
  }

  /** A notice was caused by the matching decision. */
  lemma NoticeTellsDecision(w: World, order: Id)
    requires NotificationsInv(w) && InventoryRuns.Matched(w.inventory)
    ensures Told(w, order, NotificationService.DeliveryNotice) ==> IsReserved(w, order)
    ensures Told(w, order, NotificationService.FailureNotice) ==> IsRejected(w, order)
  {
    ResultTellsDecision(w, order);
    if Told(w, order, NotificationService.DeliveryNotice) {
      var i :| 0 <= i < |w.notifications| && w.notifications[i].orderId == order && w.notifications[i].kind.DeliveryNotice?;
      assert NotificationFits(w, w.notifications[i]);
    }
    if Told(w, order, NotificationService.FailureNotice) {
      var i :| 0 <= i < |w.notifications| && w.notifications[i].orderId == order && w.notifications[i].kind.FailureNotice?;
      assert NotificationFits(w, w.notifications[i]);
    }
  }

  lemma {:induction false} TypesFit(w: World, count: nat, order: Id, eventType: OrderStatus.EventType)
    requires TimelineInv(w) && count <= |w.orders.timeline|
    requires eventType in OrderRuns.Types(w.orders.timeline[..count], order)
    ensures StepEvent(w, order, eventType).Some?
  {
    var timeline := w.orders.timeline[..count];
    var last := timeline[count - 1];
    assert timeline[..count - 1] == w.orders.timeline[..count - 1];
    if eventType in OrderRuns.Types(w.orders.timeline[..count - 1], order) {
      TypesFit(w, count - 1, order, eventType);
    } else {
      assert last.kind.Recorded? && last.orderId == order && last.kind.eventType == eventType;
      assert EntryFits(w, w.orders.timeline[count - 1]);
    }
  }

  /** Recorded steps past the payment tell the decision. */
  lemma TypesTellDecision(w: World, order: Id)
    requires TimelineInv(w) && InventoryRuns.Matched(w.inventory)
    ensures var types := OrderRuns.Types(w.orders.timeline, order);
            && (OrderStatus.InventoryReserved in types ==> IsReserved(w, order))
            && (OrderStatus.DeliveryBooked in types ==> IsReserved(w, order))
            && (OrderStatus.InventoryReservationFailed in types ==> IsRejected(w, order))
  {
    var timeline := w.orders.timeline;
    assert timeline[..|timeline|] == timeline;
    ResultTellsDecision(w, order);
    forall eventType | eventType in OrderRuns.Types(timeline, order)
      ensures StepEvent(w, order, eventType).Some?
    {
      TypesFit(w, |timeline|, order, eventType);
    }
  }

  /**
   * The steps recorded for an order are those of one outcome, so its status is the furthest of
   * them in whatever order they arrived.
   */
  lemma StatusIsFurthest(w: World, order: Id)
    requires OrderRuns.Inv(w.orders) && TimelineInv(w) && InventoryRuns.Matched(w.inventory)
    requires order in w.orders.orders
    ensures var types := OrderRuns.Types(w.orders.timeline, order);
            && !OrderStatus.Mixed(types)
            && w.orders.orders[order].status == OrderStatus.Highest(types)
  {
    TypesTellDecision(w, order);
    assert OrderRuns.OrderInv(w.orders, order);
    OrderStatus.UnmixedEndsHighest(OrderRuns.Types(w.orders.timeline, order));
  }

  /** Notices, status and reservation tell one story, about the items that were ordered. */
  predicate Agrees(w: World, order: Id) {
    && (Told(w, order, NotificationService.DeliveryNotice) ==> IsReserved(w, order))
    && (Told(w, order, NotificationService.FailureNotice) ==> IsRejected(w, order))
    && (order in w.orders.orders ==>
          var status := w.orders.orders[order].status;
          && (status.InventoryReserved? || status.DeliveryBooked? ==> IsReserved(w, order))
          && (status.InventoryReservationFailed? ==> IsRejected(w, order)))
    && (order in w.inventory.reservations ==>
          && order in w.orders.orders
          && w.inventory.reservations[order].items == w.orders.orders[order].event.items)
  }

  lemma StatusTellsDecision(w: World, order: Id)
    requires OrderRuns.Inv(w.orders) && TimelineInv(w) && InventoryRuns.Matched(w.inventory)
    requires order in w.orders.orders
    ensures var status := w.orders.orders[order].status;
            && (status.InventoryReserved? || status.DeliveryBooked? ==> IsReserved(w, order))
            && (status.InventoryReservationFailed? ==> IsRejected(w, order))
  {
    StatusIsFurthest(w, order);
    TypesTellDecision(w, order);
  }

  lemma ReservationIsOfTheOrder(w: World, order: Id)
    requires ReservationsFit(w) && order in w.inventory.reservations
    ensures order in w.orders.orders && w.inventory.reservations[order].items == w.orders.orders[order].event.items
  {
    assert ResultFits(w, order);
  }

  lemma ServicesAgree(w: World, order: Id)
    requires OrderRuns.Inv(w.orders) && ReservationsFit(w) && InventoryRuns.Matched(w.inventory)
    requires TimelineInv(w) && NotificationsInv(w)
    ensures Agrees(w, order)
  {
    NoticeTellsDecision(w, order);
    if order in w.orders.orders {
      StatusTellsDecision(w, order);
    }
    if order in w.inventory.reservations {
      ReservationIsOfTheOrder(w, order);
    }
  }

  /** In some queue, or handed to its consumer at some time. */
  predicate Seen(w: World, queue: Queue, event: Event) {
    Present(w, queue, event) || event in w.queues.Of(queue).delivered
  }

  /** The events tell the same step of one order; a reservation and its rejection exclude each other. */
  predicate SameStep(one: Event, other: Event) {
    && one.orderId == other.orderId
    && (one.OrderCreated? <==> other.OrderCreated?)
    && (one.PaymentAuthorized? <==> other.PaymentAuthorized?)
    && (one.DeliveryBooked? <==> other.DeliveryBooked?)
  }

  lemma SeenIsKnown(w: World, queue: Queue, event: Event)
    requires Inv(w) && Seen(w, queue, event)
    ensures Known(w, event)
  {
    assert QueueInv(w, queue);
    assert Genuine(w, queue, event);
  }

  lemma KnownIsUnique(w: World, one: Event, other: Event)
    requires Known(w, one) && Known(w, other) && SameStep(one, other)
    ensures one == other
  {
  }

  /**
   * In every reachable world and for every order: at most one notice of each kind and never
   * both kinds go out, whichever services and queues lag behind.
   */
  lemma OutcomeAgreement(
    stock: map<ProductId, int>, outbox: Outbox.Config, cacheSize: int, run: seq<Action>, order: Id)
    requires ValidRun(Initial(stock, outbox, cacheSize), run)
    ensures var w := After(Initial(stock, outbox, cacheSize), run);
            && Agrees(w, order)
            && NotificationService.OnePerOutcome(w.notifications)
            && !(Told(w, order, NotificationService.DeliveryNotice) && Told(w, order, NotificationService.FailureNotice))
  {
    ReachableInv(stock, outbox, cacheSize, run);
    ServicesAgree(After(Initial(stock, outbox, cacheSize), run), order);
  }

  /**
   * Each step of an order has one message: whatever is emitted again later, even after the first
   * copy was handled and acknowledged, is equal to it.
   */
  lemma EmissionsAreEqual(
    stock: map<ProductId, int>, outbox: Outbox.Config, cacheSize: int, run: seq<Action>, more: seq<Action>,
    first: Queue, second: Queue, one: Event, other: Event)
    requires ValidRun(Initial(stock, outbox, cacheSize), run)
    requires ValidRun(After(Initial(stock, outbox, cacheSize), run), more)
    requires SameStep(one, other)
    ensures var w := After(Initial(stock, outbox, cacheSize), run);
            Seen(w, first, one) && Seen(After(w, more), second, other) ==> one == other
  {
    ReachableInv(stock, outbox, cacheSize, run);
    var w := After(Initial(stock, outbox, cacheSize), run);
    RunKeepsInv(w, more);
    if Seen(w, first, one) && Seen(After(w, more), second, other) {
      SeenIsKnown(w, first, one);
      KnownGrows(w, After(w, more), one);
      SeenIsKnown(After(w, more), second, other);
      KnownIsUnique(After(w, more), one, other);
    }
  }

  /** The message is about a stored order, and carries its correlation id, its amount and its items. */
  predicate TellsTheOrder(w: World, event: Event) {
    && event.orderId in w.orders.orders
    && var created := w.orders.orders[event.orderId].event;
       && event.correlationId == created.correlationId
       && (event.OrderCreated? ==> event == created)
       && (event.PaymentAuthorized? ==>
             event.amount == created.totalAmount && event.items == created.items && event.occurredAt == created.occurredAt)
       && (event.InventoryReserved? ==> event.items == created.items)
       && (event.DeliveryBooked? ==> exists result :: result in w.inventory.outbox && IsBookedFor(event, result))
  }

  /** The booking is for that reservation, made at its time, and estimates three days from then. */
  predicate IsBookedFor(booking: Event, result: Event)
    requires booking.DeliveryBooked?
  {
    && result.InventoryReserved? && result.orderId == booking.orderId && booking.occurredAt == result.occurredAt
    && var begin := booking.estimatedDeliveryDay * DeliveryService.MILLISECONDS_PER_DAY;
       result.occurredAt + 2 * 86_400_000 < begin <= result.occurredAt + 3 * 86_400_000
  }

  lemma KnownTellsTheOrder(w: World, event: Event)
    requires OrderRuns.KeysInv(w.orders) && ResultsInv(w) && Known(w, event)
    ensures TellsTheOrder(w, event)
  {
    KnownOrder(w, event);
    if !event.OrderCreated? && !event.PaymentAuthorized? {
      ResultIsDecided(w, event.orderId);
      assert ResultFits(w, event.orderId);
      if event.DeliveryBooked? {
        DeliveryService.DeliveryTakesThreeDays(ResultOf(w, event.orderId).value);
        assert IsBookedFor(event, ResultOf(w, event.orderId).value);
      }
    }
  }

  /** Every message in any queue and the event behind every notice tell the order they came from. */
  lemma MessagesTellTheOrder(
    stock: map<ProductId, int>, outbox: Outbox.Config, cacheSize: int, run: seq<Action>, queue: Queue, event: Event)
    requires ValidRun(Initial(stock, outbox, cacheSize), run)
    ensures var w := After(Initial(stock, outbox, cacheSize), run);
            && (Present(w, queue, event) ==> TellsTheOrder(w, event))
            && (forall i :: 0 <= i < |w.notifications| ==> TellsTheOrder(w, w.notifications[i].event))
  {
    ReachableInv(stock, outbox, cacheSize, run);
    var w := After(Initial(stock, outbox, cacheSize), run);
    if Present(w, queue, event) {
      assert QueueInv(w, queue);
      KnownTellsTheOrder(w, event);
    }
    forall i | 0 <= i < |w.notifications|
      ensures TellsTheOrder(w, w.notifications[i].event)
    {
      assert NotificationFits(w, w.notifications[i]);
      KnownTellsTheOrder(w, w.notifications[i].event);
    }
  }

  /** The status of a stored order does not depend on the order in which its events came in. */
  lemma StatusIgnoresArrivalOrder(
    stock: map<ProductId, int>, outbox: Outbox.Config, cacheSize: int, run: seq<Action>, order: Id)
    requires ValidRun(Initial(stock, outbox, cacheSize), run)
    ensures var w := After(Initial(stock, outbox, cacheSize), run);
            var types := OrderRuns.Types(w.orders.timeline, order);
            order in w.orders.orders ==>
              w.orders.orders[order].status == OrderStatus.Highest(types) && OrderStatus.Confluent(types)
  {
    ReachableInv(stock, outbox, cacheSize, run);
    var w := After(Initial(stock, outbox, cacheSize), run);
    if order in w.orders.orders {
      StatusIsFurthest(w, order);
      OrderStatus.ConfluentIff(OrderRuns.Types(w.orders.timeline, order));
    }
  }
}
