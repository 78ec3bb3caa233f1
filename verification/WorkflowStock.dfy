/** The stock under the whole workflow: conserved, never oversold, and always storable. */
module WorkflowStock {
  import opened Contracts
  import OrderStore
  import OrderRuns
  import InventoryService
  import InventoryRuns
  import Outbox = OutboxProtocol
  import opened Workflow
  import opened WorkflowInvariant
  import opened WorkflowSteps
  import opened WorkflowTheorems

  // ---------------------------------------------------------------------------------------
  // Reservations
  // ---------------------------------------------------------------------------------------

  /** A run of the inventory handler that comes to the decision of an order. */
  predicate Decides(w: World, action: Action) {
    && action.Handle? && action.queue.InventoryQueue? && action.event.PaymentAuthorized?
    && action.event.orderId !in w.inventory.reservations
  }

  predicate Reserves(w: World, action: Action) {
    Decides(w, action) && (action.run.Resolved? || action.run.committed)
  }

  /** Only submissions and handlers change the tables. */
  lemma MovesKeepStores(w: World, action: Action)
    requires Enabled(w, action) && !action.Submit? && !action.Handle?
    ensures Apply(w, action).orders == w.orders && Apply(w, action).inventory == w.inventory
  {
  }

  lemma SubmitStores(w: World, action: Action)
    requires Enabled(w, action) && action.Submit?
    ensures Apply(w, action).inventory == w.inventory
    ensures Apply(w, action).orders
            == if action.fate.Aborted? then w.orders else OrderStore.Submit(w.orders, action.order, action.now)
  {
  }

  lemma HandlerStores(w: World, action: Action)
    requires Enabled(w, action) && action.Handle?
    ensures var worked := Worked(w, action.queue, action.event, action.run, action.draw);
            Apply(w, action).orders == worked.orders && Apply(w, action).inventory == worked.inventory
  {
  }

  /** Only the inventory's handler touches the inventory. */
  lemma HandledInventory(w: World, queue: Queue, event: Event, draw: Draw)
    ensures Handled(w, queue, event, draw).inventory
            == if queue.InventoryQueue? && event.PaymentAuthorized? then AfterReserve(w, event, draw).inventory
               else w.inventory
  {
    if queue in BoundQueues(event) {
      match queue
      case PaymentQueue => PaymentIsHandled(w, event, draw);
      case InventoryQueue => ReservationIsHandled(w, event, draw);
      case DeliveryQueue => BookingIsHandled(w, event, draw);
      case NotificationQueue => NoticeIsHandled(w, event, draw);
      case TimelineQueue => HistoryIsHandled(w, event, draw);
    }
  }

  /** And only when it commits a decision. */
  lemma OnlyReservationsChangeInventory(w: World, action: Action)
    requires Enabled(w, action)
    ensures Apply(w, action).inventory
            == if Reserves(w, action) then InventoryService.Reserve(w.inventory, RequestOf(action.event, action.draw))
               else w.inventory
  {
    if action.Submit? {
      SubmitStores(w, action);
    } else if action.Handle? {
      HandlerStores(w, action);
      HandledInventory(w, action.queue, action.event, action.draw);
    } else {
      MovesKeepStores(w, action);
    }
  }

  /** A reservation's result event carries what was drawn for this run, and the payment's correlation. */
  lemma ResultCarriesDraw(w: World, action: Action)
    requires Enabled(w, action) && Reserves(w, action)
    ensures var outbox := Apply(w, action).inventory.outbox;
            |outbox| == |w.inventory.outbox| + 1
            && var result := outbox[|outbox| - 1];
            && result.eventId == action.draw.eventId && result.occurredAt == action.draw.now
            && (result.InventoryReserved? ==> result.reservationId == action.draw.otherId)
            && result.correlationId == action.event.correlationId && result.orderId == action.event.orderId
  {
    OnlyReservationsChangeInventory(w, action);
    InventoryRuns.ResultTellsRequest(w.inventory, RequestOf(action.event, action.draw));
  }

  lemma StepConservesStock(w: World, action: Action, p: ProductId)
    requires Enabled(w, action)
    ensures var next := Apply(w, action);
            InventoryService.Get(next.inventory.stock, p) + InventoryRuns.KeptByAll(next.inventory.reservations, p)
            == InventoryService.Get(w.inventory.stock, p) + InventoryRuns.KeptByAll(w.inventory.reservations, p)
  {
    OnlyReservationsChangeInventory(w, action);
    if Reserves(w, action) {
      InventoryRuns.ReserveConserves(w.inventory, RequestOf(action.event, action.draw), p);
    }
  }

  lemma {:induction false} RunConservesStock(w: World, run: seq<Action>, p: ProductId)
    requires ValidRun(w, run)
    ensures var next := After(w, run);
            InventoryService.Get(next.inventory.stock, p) + InventoryRuns.KeptByAll(next.inventory.reservations, p)
            == InventoryService.Get(w.inventory.stock, p) + InventoryRuns.KeptByAll(w.inventory.reservations, p)
    decreases |run|
  {
    if run != [] {
      StepConservesStock(w, run[0], p);
      RunConservesStock(Apply(w, run[0]), run[1..], p);
    }
  }

  // ---------------------------------------------------------------------------------------
  // Quantities
  // ---------------------------------------------------------------------------------------

  predicate OrderIsPositive(w: World, order: Id) {
    order in w.orders.orders ==> InventoryRuns.Positive(w.orders.orders[order].event.items)
  }

  /** Stored orders ask for something, and stock is within its column. */
  ghost predicate StockInv(w: World) {
    && (forall order :: OrderIsPositive(w, order))
    && InventoryRuns.WithinBounds(w.inventory.stock)
  }

  lemma SubmitAddsOne(db: OrderStore.Database, order: OrderStore.NewOrder, now: Time, id: Id)
    requires id in OrderStore.Submit(db, order, now).orders
    ensures id in db.orders || OrderStore.Submit(db, order, now).orders[id].event == order.event
  {
  }

  /** Recording an event adds no order. */
  lemma HandlersAddNoOrder(w: World, queue: Queue, event: Event, draw: Draw)
    requires OrderRuns.Inv(w.orders)
    ensures Handled(w, queue, event, draw).orders.orders.Keys == w.orders.orders.Keys
  {
    if queue in BoundQueues(event) {
      match queue
      case PaymentQueue => PaymentIsHandled(w, event, draw);
      case InventoryQueue => ReservationIsHandled(w, event, draw);
      case DeliveryQueue => BookingIsHandled(w, event, draw);
      case NotificationQueue => NoticeIsHandled(w, event, draw);
      case TimelineQueue =>
        HistoryIsHandled(w, event, draw);
        RecordKeepsTables(w.orders, WorkflowEventOf(event), draw.now);
    }
  }

  lemma OnlySubmissionsAddOrders(w: World, action: Action)
    requires OrderRuns.Inv(w.orders) && Enabled(w, action) && !action.Submit?
    ensures Apply(w, action).orders.orders.Keys == w.orders.orders.Keys
  {
    if action.Handle? {
      HandlerStores(w, action);
      HandlersAddNoOrder(w, action.queue, action.event, action.draw);
    } else {
      MovesKeepStores(w, action);
    }
  }

  /** A new order is the one that was submitted, with its positive quantities. */
  lemma NewOrderIsPositive(w: World, action: Action, order: Id)
    requires OrderRuns.Inv(w.orders) && Enabled(w, action) && order !in w.orders.orders
    ensures OrderIsPositive(Apply(w, action), order)
  {
    if !action.Submit? {
      OnlySubmissionsAddOrders(w, action);
    } else {
      SubmitStores(w, action);
      if order in Apply(w, action).orders.orders {
        SubmitAddsOne(w.orders, action.order, action.now, order);
      }
    }
  }

  /** Nothing changes the items of a stored order. */
  lemma StepKeepsPositive(w: World, action: Action, order: Id)
    requires Inv(w) && Enabled(w, action) && OrderIsPositive(w, order)
    ensures OrderIsPositive(Apply(w, action), order)
  {
    if order in w.orders.orders {
      StepKeepsInv(w, action);
      assert OriginOf(Apply(w, action), order) == OriginOf(w, order);
    } else {
      NewOrderIsPositive(w, action, order);
    }
  }

  /** The inventory decides on the items of a stored order. */
  lemma DecidedItemsArePositive(w: World, action: Action)
    requires Inv(w) && Enabled(w, action) && Decides(w, action)
    requires forall order :: OrderIsPositive(w, order)
    ensures InventoryRuns.Positive(action.event.items)
  {
    assert QueueInv(w, action.queue);
    HandledMessageIsGenuine(w, action);
    assert OrderIsPositive(w, action.event.orderId);
  }

  /** The UPDATE of a decision that goes through would throw. */
  predicate DecrementThrows(w: World, action: Action)
    requires Decides(w, action)
  {
    var stock, items := w.inventory.stock, action.event.items;
    !InventoryService.Insufficient(stock, items) && InventoryRuns.DecrementFails(stock, items)
  }

  lemma DecrementIsClean(w: World, action: Action)
    requires Inv(w) && StockInv(w) && Enabled(w, action) && Decides(w, action)
    ensures !DecrementThrows(w, action)
  {
    DecidedItemsArePositive(w, action);
    if !InventoryService.Insufficient(w.inventory.stock, action.event.items) {
      InventoryRuns.ValidOrdersDecrementCleanly(w.inventory.stock, action.event.items);
    }
  }

  lemma StepKeepsBounds(w: World, action: Action)
    requires Inv(w) && StockInv(w) && Enabled(w, action)
    ensures InventoryRuns.WithinBounds(Apply(w, action).inventory.stock)
    ensures Apply(w, action).inventory.stock.Keys == w.inventory.stock.Keys
  {
    OnlyReservationsChangeInventory(w, action);
    if Reserves(w, action) {
      DecidedItemsArePositive(w, action);
      if !InventoryService.Insufficient(w.inventory.stock, action.event.items) {
        InventoryRuns.ValidOrdersDecrementCleanly(w.inventory.stock, action.event.items);
      }
    }
  }

  lemma StepKeepsStockInv(w: World, action: Action)
    requires Inv(w) && StockInv(w) && Enabled(w, action)
    ensures StockInv(Apply(w, action))
  {
    StepKeepsBounds(w, action);
    forall order
      ensures OrderIsPositive(Apply(w, action), order)
    {
      StepKeepsPositive(w, action, order);
    }
  }

  lemma {:induction false} RunKeepsStockInv(w: World, run: seq<Action>)
    requires Inv(w) && StockInv(w) && ValidRun(w, run)
    ensures Inv(After(w, run)) && StockInv(After(w, run))
    ensures After(w, run).inventory.stock.Keys == w.inventory.stock.Keys
    decreases |run|
  {
    if run != [] {
      StepKeepsInv(w, run[0]);
      StepKeepsStockInv(w, run[0]);
      StepKeepsBounds(w, run[0]);
      RunKeepsStockInv(Apply(w, run[0]), run[1..]);
    }
  }

  lemma ReachableStockInv(stock: map<ProductId, int>, outbox: Outbox.Config, cacheSize: int, run: seq<Action>)
    requires ValidRun(Initial(stock, outbox, cacheSize), run) && InventoryRuns.WithinBounds(stock)
    ensures Inv(After(Initial(stock, outbox, cacheSize), run)) && StockInv(After(Initial(stock, outbox, cacheSize), run))
    ensures After(Initial(stock, outbox, cacheSize), run).inventory.stock.Keys == stock.Keys
  {
    InitialInv(stock, outbox, cacheSize);
    RunKeepsStockInv(Initial(stock, outbox, cacheSize), run);
  }

  // ---------------------------------------------------------------------------------------
  // Over every run
  // ---------------------------------------------------------------------------------------

  /**
   * Nothing is oversold: whatever happens to services, relays and messages, the stock of a
   * product stays a value of its column, and with what Reserved records keep it makes up the
   * stock of the start.
   */
  lemma NothingIsOversold(
    stock: map<ProductId, int>, outbox: Outbox.Config, cacheSize: int, run: seq<Action>, p: ProductId)
    requires ValidRun(Initial(stock, outbox, cacheSize), run) && InventoryRuns.WithinBounds(stock)
    ensures var inventory := After(Initial(stock, outbox, cacheSize), run).inventory;
            && inventory.stock.Keys == stock.Keys
            && InventoryRuns.WithinBounds(inventory.stock)
            && InventoryService.Get(inventory.stock, p) + InventoryRuns.KeptByAll(inventory.reservations, p)
               == InventoryService.Get(stock, p)
            && InventoryRuns.KeptByAll(inventory.reservations, p) <= InventoryService.Get(stock, p)
  {
    ReachableStockInv(stock, outbox, cacheSize, run);
    RunConservesStock(Initial(stock, outbox, cacheSize), run, p);
  }

  /** In no reachable state does a decision meet an UPDATE that throws. */
  lemma NoDecrementThrows(
    stock: map<ProductId, int>, outbox: Outbox.Config, cacheSize: int, run: seq<Action>, action: Action)
    requires ValidRun(Initial(stock, outbox, cacheSize), run) && InventoryRuns.WithinBounds(stock)
    ensures var w := After(Initial(stock, outbox, cacheSize), run);
            Enabled(w, action) && Decides(w, action) ==> !DecrementThrows(w, action)
  {
    ReachableStockInv(stock, outbox, cacheSize, run);
    var w := After(Initial(stock, outbox, cacheSize), run);
    if Enabled(w, action) && Decides(w, action) {
      DecrementIsClean(w, action);
    }
  }
}
