/** No order is ever stuck: from every reachable state it can still be finished everywhere. */
module WorkflowProgress {
  import opened Contracts
  import PaymentService
  import DeliveryService
  import Outbox = OutboxProtocol
  import opened Ordering
  import RelayRuns
  import Consumer
  import opened Workflow
  import opened WorkflowInvariant
  import opened WorkflowSteps
  import opened WorkflowTheorems
  import opened WorkflowQuiescence

  // ---------------------------------------------------------------------------------------
  // Composing runs
  // ---------------------------------------------------------------------------------------

  /** The run leads from one world to the other. */
  ghost predicate Leads(w: World, run: seq<Action>, end: World)
    decreases |run|
  {
    if run == [] then w == end else Enabled(w, run[0]) && Leads(Apply(w, run[0]), run[1..], end)
  }

  lemma {:induction false} RunLeads(w: World, run: seq<Action>, end: World)
    ensures Leads(w, run, end) <==> ValidRun(w, run) && After(w, run) == end
    decreases |run|
  {
    if run != [] && Enabled(w, run[0]) {
      RunLeads(Apply(w, run[0]), run[1..], end);
    }
  }

  lemma {:induction false} LeadsFurther(w: World, first: seq<Action>, middle: World, second: seq<Action>, end: World)
    requires Leads(w, first, middle) && Leads(middle, second, end)
    ensures Leads(w, first + second, end)
    decreases |first|
  {
    if first == [] {
      assert first + second == second;
    } else {
      LeadsFurther(Apply(w, first[0]), first[1..], middle, second, end);
      assert (first + second)[0] == first[0] && (first + second)[1..] == first[1..] + second;
    }
  }

  lemma RunsCompose(w: World, first: seq<Action>, second: seq<Action>)
    requires ValidRun(w, first) && ValidRun(After(w, first), second)
    ensures ValidRun(w, first + second) && After(w, first + second) == After(After(w, first), second)
  {
    var middle, end := After(w, first), After(After(w, first), second);
    RunLeads(w, first, middle);
    RunLeads(middle, second, end);
    LeadsFurther(w, first, middle, second, end);
    RunLeads(w, first + second, end);
  }

  lemma OneStep(w: World, action: Action)
    requires Enabled(w, action)
    ensures ValidRun(w, [action]) && After(w, [action]) == Apply(w, action)
  {
    var rest := [action][1..];
    assert rest == [] && ValidRun(Apply(w, action), rest);
  }

  /** All claims of the run, by either service's relays, are of the configured batch size. */
  predicate Batched(run: seq<Action>, batch: nat) {
    forall i :: 0 <= i < |run| && (run[i].RelayOrders? || run[i].RelayResults?) && run[i].step.Claim? ==>
                  run[i].step.limit == batch
  }

  /** No relay takes a step in the run. */
  predicate NoRelay(run: seq<Action>) {
    forall i :: 0 <= i < |run| ==> !run[i].RelayOrders? && !run[i].RelayResults?
  }

  /** The run is possible with that batch size and leads further, in sound worlds. */
  ghost predicate Ahead(w: World, run: seq<Action>, batch: nat) {
    ValidRun(w, run) && Inv(After(w, run)) && Grows(w, After(w, run)) && Batched(run, batch)
  }

  lemma AheadFurther(w: World, first: seq<Action>, second: seq<Action>, batch: nat)
    requires Ahead(w, first, batch) && Ahead(After(w, first), second, batch)
    ensures Ahead(w, first + second, batch) && After(w, first + second) == After(After(w, first), second)
  {
    RunsCompose(w, first, second);
    GrowsFurther(w, After(w, first), After(After(w, first), second));
  }

  // ---------------------------------------------------------------------------------------
  // New ids
  // ---------------------------------------------------------------------------------------

  function Serial(id: Id): nat {
    if id.Random? then id.serial else 0
  }

  lemma NewDraw(w: World) returns (draw: Draw)
    ensures DrawIsNew(w, draw)
  {
    var row := NewNumber(w.inventoryOutbox.rows.Keys);
    var serials := set i | 0 <= i < |w.inventory.outbox| :: Serial(w.inventory.outbox[i].eventId);
    var serial := NewNumber(serials);
    draw := Draw(Random(serial), Random(serial), 0, row);
    assert forall i :: 0 <= i < |w.inventory.outbox| ==> Serial(w.inventory.outbox[i].eventId) in serials;
  }

  // ---------------------------------------------------------------------------------------
  // One message can be handled
  // ---------------------------------------------------------------------------------------

  lemma CanTake(w: World, queue: Queue, event: Event)
    requires event in w.queues.Of(queue).ready
    ensures var deliver := Deliver(queue, event);
            Enabled(w, deliver) && event in Apply(w, deliver).queues.Of(queue).unacked
  {
  }

  lemma CanReplay(w: World, queue: Queue, event: Event)
    requires event in w.queues.Of(queue).dead
    ensures var replay := Replay(queue, event, false);
            Enabled(w, replay) && event in Apply(w, replay).queues.Of(queue).ready
  {
  }

  /** A ready message can be delivered. */
  lemma CanDeliver(w: World, queue: Queue, event: Event) returns (run: seq<Action>)
    requires event in w.queues.Of(queue).ready
    ensures ValidRun(w, run) && NoRelay(run) && event in After(w, run).queues.Of(queue).unacked
  {
    CanTake(w, queue, event);
    run := [Deliver(queue, event)];
    OneStep(w, run[0]);
  }

  /** A dead-lettered one can be replayed before. */
  lemma CanRevive(w: World, queue: Queue, event: Event) returns (run: seq<Action>)
    requires event in w.queues.Of(queue).dead
    ensures ValidRun(w, run) && NoRelay(run) && event in After(w, run).queues.Of(queue).unacked
  {
    CanReplay(w, queue, event);
    var replay := Replay(queue, event, false);
    OneStep(w, replay);
    var delivered := CanDeliver(Apply(w, replay), queue, event);
    RunsCompose(w, [replay], delivered);
    run := [replay] + delivered;
  }

  /** With new ids the handler of a delivered message can run to its end. */
  lemma CanRun(w: World, queue: Queue, event: Event) returns (run: seq<Action>)
    requires Inv(w) && event in w.queues.Of(queue).unacked
    ensures ValidRun(w, run) && NoRelay(run) && Done(After(w, run), queue, event)
  {
    var draw := NewDraw(w);
    var handle := Handle(queue, event, Consumer.Resolved, draw, false);
    HandleFinishes(w, handle);
    OneStep(w, handle);
    run := [handle];
  }

  lemma CanTakeUp(w: World, queue: Queue, event: Event) returns (run: seq<Action>)
    requires Present(w, queue, event) && event !in w.queues.Of(queue).settling
    ensures ValidRun(w, run) && NoRelay(run) && event in After(w, run).queues.Of(queue).unacked
  {
    if event in w.queues.Of(queue).unacked {
      run := [];
    } else if event in w.queues.Of(queue).ready {
      run := CanDeliver(w, queue, event);
    } else {
      run := CanRevive(w, queue, event);
    }
  }

  lemma CanTakeUpAndRun(w: World, queue: Queue, event: Event) returns (run: seq<Action>)
    requires Inv(w) && Present(w, queue, event) && event !in w.queues.Of(queue).settling
    ensures ValidRun(w, run) && NoRelay(run) && Done(After(w, run), queue, event)
  {
    var taken := CanTakeUp(w, queue, event);
    RunKeepsInv(w, taken);
    var handled := CanRun(After(w, taken), queue, event);
    RunsCompose(w, taken, handled);
    run := taken + handled;
  }

  /** A message that is still around can get handled. */
  lemma CanHandle(w: World, queue: Queue, event: Event, batch: nat) returns (run: seq<Action>)
    requires Inv(w) && Present(w, queue, event)
    ensures Ahead(w, run, batch) && Done(After(w, run), queue, event)
  {
    run := [];
    if event in w.queues.Of(queue).settling {
      assert QueueInv(w, queue);
    } else {
      run := CanTakeUpAndRun(w, queue, event);
    }
    RunKeepsInv(w, run);
  }

  lemma HandleFinishes(w: World, action: Action)
    requires Inv(w) && Enabled(w, action) && action.Handle? && action.run.Resolved? && !action.late
    ensures Done(Apply(w, action), action.queue, action.event)
  {
    StepKeepsInv(w, action);
    var next := Apply(w, action);
    assert action.event in next.queues.Of(action.queue).settling;
    assert QueueInv(next, action.queue);
  }

  // ---------------------------------------------------------------------------------------
  // An unpublished row can be published
  // ---------------------------------------------------------------------------------------

  /** Steps of the order service's relay are steps of the workflow. */
  lemma {:induction false} OrderRelayRuns(w: World, steps: seq<Outbox.Action>, batch: nat) returns (run: seq<Action>)
    requires Outbox.ValidRun(w.orderOutbox, steps) && RelayRuns.FixedBatch(steps, batch)
    ensures ValidRun(w, run) && Batched(run, batch)
    ensures var next := After(w, run);
            && next == w.(orderOutbox := Outbox.After(w.orderOutbox, steps), queues := next.queues)
            && forall row :: row in w.orderOutbox.rows ==>
                 row in next.orderOutbox.rows && next.orderOutbox.rows[row].event == w.orderOutbox.rows[row].event
    decreases |steps|
  {
    if steps == [] {
      run := [];
    } else {
      var first := RelayOrders(steps[0]);
      RelayKeepsEvents(w.orderOutbox, steps[0]);
      var rest := OrderRelayRuns(Apply(w, first), steps[1..], batch);
      OneStep(w, first);
      RunsCompose(w, [first], rest);
      run := [first] + rest;
    }
  }

  lemma {:induction false} ResultRelayRuns(w: World, steps: seq<Outbox.Action>, batch: nat) returns (run: seq<Action>)
    requires Outbox.ValidRun(w.inventoryOutbox, steps) && RelayRuns.FixedBatch(steps, batch)
    ensures ValidRun(w, run) && Batched(run, batch)
    ensures var next := After(w, run);
            && next == w.(inventoryOutbox := Outbox.After(w.inventoryOutbox, steps), queues := next.queues)
            && forall row :: row in w.inventoryOutbox.rows ==>
                 row in next.inventoryOutbox.rows && next.inventoryOutbox.rows[row].event == w.inventoryOutbox.rows[row].event
    decreases |steps|
  {
    if steps == [] {
      run := [];
    } else {
      var first := RelayResults(steps[0]);
      RelayKeepsEvents(w.inventoryOutbox, steps[0]);
      var rest := ResultRelayRuns(Apply(w, first), steps[1..], batch);
      OneStep(w, first);
      RunsCompose(w, [first], rest);
      run := [first] + rest;
    }
  }

  // ---------------------------------------------------------------------------------------
  // Stage by stage
  // ---------------------------------------------------------------------------------------

  lemma CanSendOrder(w: World, order: Id, batch: nat) returns (run: seq<Action>)
    requires batch >= 1 && Inv(w) && order in w.orders.orders
    ensures Ahead(w, run, batch) && Secured(After(w, run), w.orders.orders[order].event)
  {
    var created := w.orders.orders[order].event;
    CreationIsSecured(w, order);
    run := [];
    if Unpublished(w.orderOutbox, created) {
      var row :| row in w.orderOutbox.rows && w.orderOutbox.rows[row].event == created
                 && w.orderOutbox.rows[row].publishedAt.None?;
      var steps := RelayRuns.CanPublish(w.orderOutbox, row, batch);
      run := OrderRelayRuns(w, steps, batch);
    }
    RunKeepsInv(w, run);
  }

  lemma CanSendResult(w: World, order: Id, batch: nat) returns (run: seq<Action>)
    requires batch >= 1 && Inv(w) && ResultOf(w, order).Some?
    ensures Ahead(w, run, batch) && Secured(After(w, run), ResultOf(w, order).value)
  {
    var result := ResultOf(w, order).value;
    ResultIsSecured(w, order);
    run := [];
    if Unpublished(w.inventoryOutbox, result) {
      var row :| row in w.inventoryOutbox.rows && w.inventoryOutbox.rows[row].event == result
                 && w.inventoryOutbox.rows[row].publishedAt.None?;
      var steps := RelayRuns.CanPublish(w.inventoryOutbox, row, batch);
      run := ResultRelayRuns(w, steps, batch);
    }
    RunKeepsInv(w, run);
  }

  /** A secured event can get handled in each of its queues. */
  lemma CanFinish(w: World, queue: Queue, event: Event, batch: nat) returns (run: seq<Action>)
    requires Inv(w) && Secured(w, event) && queue in BoundQueues(event)
    ensures Ahead(w, run, batch) && Done(After(w, run), queue, event)
  {
    if Done(w, queue, event) {
      run := [];
      Reflexive(w);
    } else {
      run := CanHandle(w, queue, event, batch);
    }
  }

  lemma RelayedIsSecured(w: World, event: Event)
    requires Relayed(w, event)
    ensures Secured(w, event)
  {
  }

  /** A handled OrderCreated event has its authorization on the way. */
  lemma AuthorizationIsSecured(w: World, created: Event)
    requires created.OrderCreated? && Done(w, PaymentQueue, created)
    ensures Secured(w, PaymentService.AuthorizePayment(created))
  {
    RelayedIsSecured(w, PaymentService.AuthorizePayment(created));
  }

  lemma CanAuthorize(w: World, order: Id, batch: nat) returns (run: seq<Action>)
    requires batch >= 1 && Inv(w) && order in w.orders.orders
    ensures Ahead(w, run, batch) && Secured(After(w, run), PaymentService.AuthorizePayment(w.orders.orders[order].event))
  {
    var created := w.orders.orders[order].event;
    var sent := CanSendOrder(w, order, batch);
    var authorized := CanFinish(After(w, sent), PaymentQueue, created, batch);
    AheadFurther(w, sent, authorized, batch);
    run := sent + authorized;
    AuthorizationIsSecured(After(w, run), created);
  }

  /** A stored order can get its reservation decided. */
  lemma CanDecide(w: World, order: Id, batch: nat) returns (run: seq<Action>)
    requires batch >= 1 && Inv(w) && order in w.orders.orders
    ensures Ahead(w, run, batch) && ResultOf(After(w, run), order).Some?
  {
    var payment := PaymentService.AuthorizePayment(w.orders.orders[order].event);
    CreationIsGenuine(w, order);
    var authorized := CanAuthorize(w, order, batch);
    var decided := CanFinish(After(w, authorized), InventoryQueue, payment, batch);
    AheadFurther(w, authorized, decided, batch);
    run := authorized + decided;
    assert Kept(After(w, run), InventoryQueue, payment);
  }

  /** An outcome event that is secured can get told and recorded. */
  lemma CanTell(w: World, event: Event, batch: nat) returns (run: seq<Action>)
    requires Inv(w) && Secured(w, event) && (event.DeliveryBooked? || event.InventoryReservationFailed?)
    ensures Ahead(w, run, batch)
    ensures Kept(After(w, run), NotificationQueue, event) && Kept(After(w, run), TimelineQueue, event)
  {
    var told := CanFinish(w, NotificationQueue, event, batch);
    SecuredGrows(w, After(w, told), event);
    var recorded := CanFinish(After(w, told), TimelineQueue, event, batch);
    AheadFurther(w, told, recorded, batch);
    run := told + recorded;
    DoneGrows(After(w, told), After(w, run), NotificationQueue, event);
  }

  /** A result that is secured can be brought to its outcome event. */
  lemma CanConclude(w: World, result: Event, batch: nat) returns (run: seq<Action>)
    requires Inv(w) && Secured(w, result) && IsResult(result)
    ensures Ahead(w, run, batch)
    ensures Secured(After(w, run), OutcomeEvent(result))
  {
    if result.InventoryReserved? {
      run := CanFinish(w, DeliveryQueue, result, batch);
      BookingIsRelayed(After(w, run), result);
      RelayedIsSecured(After(w, run), OutcomeEvent(result));
    } else {
      run := [];
      Reflexive(w);
    }
  }

  /** The event that tells the customer about a result. */
  function OutcomeEvent(result: Event): Event
    requires IsResult(result)
  {
    if result.InventoryReserved? then DeliveryService.BookDelivery(result) else result
  }

  /** A told and recorded outcome finishes its order. */
  lemma OutcomeFinishes(w: World, order: Id)
    requires Inv(w) && order in w.orders.orders && ResultOf(w, order).Some? && IsResult(ResultOf(w, order).value)
    requires Kept(w, NotificationQueue, OutcomeEvent(ResultOf(w, order).value))
    requires Kept(w, TimelineQueue, OutcomeEvent(ResultOf(w, order).value))
    ensures Finished(w, order)
  {
    ResultIsGenuine(w, order);
    ResultTellsDecision(w, order);
    if ResultOf(w, order).value.InventoryReserved? {
      ReservedIsFinished(w, order);
    } else {
      RejectedIsFinished(w, order);
    }
  }

  /** A decided order can be finished. */
  lemma CanShow(w: World, order: Id, batch: nat) returns (run: seq<Action>)
    requires batch >= 1 && Inv(w) && order in w.orders.orders && ResultOf(w, order).Some?
    ensures Ahead(w, run, batch)
    ensures order in After(w, run).orders.orders && Finished(After(w, run), order)
  {
    var result := ResultOf(w, order).value;
    ResultIsGenuine(w, order);
    var sent := CanSendResult(w, order, batch);
    var concluded := CanConclude(After(w, sent), result, batch);
    AheadFurther(w, sent, concluded, batch);
    var told := CanTell(After(w, sent + concluded), OutcomeEvent(result), batch);
    AheadFurther(w, sent + concluded, told, batch);
    run := sent + concluded + told;
    assert OriginOf(After(w, run), order) == OriginOf(w, order) && ResultOf(After(w, run), order) == Some(result);
    OutcomeFinishes(After(w, run), order);
  }

  lemma CanComplete(w: World, order: Id, batch: nat) returns (run: seq<Action>)
    requires batch >= 1 && Inv(w) && order in w.orders.orders
    ensures Ahead(w, run, batch)
    ensures order in After(w, run).orders.orders && Finished(After(w, run), order)
  {
    var decided := CanDecide(w, order, batch);
    assert OriginOf(After(w, decided), order) == OriginOf(w, order);
    var shown := CanShow(After(w, decided), order, batch);
    AheadFurther(w, decided, shown, batch);
    run := decided + shown;
  }

  /**
   * Whatever has happened so far, a stored order can still be brought to its end: some
   * continuation, in which every relay claims batches of the configured size, decides it,
   * tells the customer that decision and shows the final status.
   */
  lemma NoOrderIsStuck(
    stock: map<ProductId, int>, outbox: Outbox.Config, cacheSize: int, batch: nat, run: seq<Action>, order: Id)
    returns (rest: seq<Action>)
    requires ValidRun(Initial(stock, outbox, cacheSize), run) && batch >= 1
    requires order in After(Initial(stock, outbox, cacheSize), run).orders.orders
    ensures ValidRun(Initial(stock, outbox, cacheSize), run + rest) && Batched(rest, batch)
    ensures var w := After(Initial(stock, outbox, cacheSize), run + rest);
            order in w.orders.orders && Finished(w, order)
  {
    ReachableInv(stock, outbox, cacheSize, run);
    rest := CanComplete(After(Initial(stock, outbox, cacheSize), run), order, batch);
    RunsCompose(Initial(stock, outbox, cacheSize), run, rest);
  }
}
