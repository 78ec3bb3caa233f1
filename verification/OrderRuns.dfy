/** What holds of the order tables and of the replies over every sequence of requests and events. */
module OrderRuns {
  import opened Contracts
  import OrderStatus
  import opened OrderStore

  datatype Action =
    | Submission(order: NewOrder, now: Time, fate: Fate)
    | Delivery(event: WorkflowEvent, now: Time, fate: Fate)

  function Step(db: Database, action: Action): Database {
    if action.fate.Aborted? then db else
    match action
    case Submission(order, now, _) => Submit(db, order, now)
    case Delivery(event, now, _) => Record(db, event, now)
  }

  function After(db: Database, run: seq<Action>): Database {
    if run == [] then db else Step(After(db, run[..|run| - 1]), run[|run| - 1])
  }

  /** The reply to a submission made on these tables. */
  function ReplyOn(db: Database, action: Action): Reply
    requires action.Submission?
  {
    ReplyTo(SubmitOutcomeOf(db, action.order, action.now), action.fate)
  }

  // Counting ------------------------------------------------------------------------------

  function OutboxCount(outbox: seq<Event>, order: Id): nat {
    if outbox == [] then 0
    else OutboxCount(outbox[..|outbox| - 1], order) + if outbox[|outbox| - 1].orderId == order then 1 else 0
  }

  function AcceptedCount(timeline: seq<Entry>, order: Id): nat {
    if timeline == [] then 0 else
    var last := timeline[|timeline| - 1];
    AcceptedCount(timeline[..|timeline| - 1], order) + if last.kind.Accepted? && last.orderId == order then 1 else 0
  }

  /** The event types recorded for an order, in recording order. */
  function Types(timeline: seq<Entry>, order: Id): seq<OrderStatus.EventType> {
    if timeline == [] then [] else
    var last := timeline[|timeline| - 1];
    Types(timeline[..|timeline| - 1], order) +
    if last.kind.Recorded? && last.orderId == order then [last.kind.eventType] else []
  }

  lemma {:induction false} RedeliveryIsInvisible(timeline: seq<Entry>, i: nat, order: Id)
    requires i < |timeline|
    ensures var changed := timeline[i := Redelivered(timeline[i])];
            AcceptedCount(changed, order) == AcceptedCount(timeline, order) && Types(changed, order) == Types(timeline, order)
  {
    var changed := timeline[i := Redelivered(timeline[i])];
    if i == |timeline| - 1 {
      assert changed[..|changed| - 1] == timeline[..|timeline| - 1];
    } else {
      RedeliveryIsInvisible(timeline[..|timeline| - 1], i, order);
      assert changed[..|changed| - 1] == timeline[..|timeline| - 1][i := Redelivered(timeline[i])];
    }
  }

  // The invariant -------------------------------------------------------------------------

  predicate KeysInv(db: Database) {
    && (forall key :: key in db.byKey ==> db.byKey[key] in db.orders && db.orders[db.byKey[key]].key == key)
    && (forall id :: id in db.orders ==>
                       && db.orders[id].event.orderId == id
                       && db.orders[id].key in db.byKey && db.byKey[db.orders[id].key] == id
                       && db.orders[id].event in db.outbox)
  }

  predicate OrderInv(db: Database, id: Id) {
    && OutboxCount(db.outbox, id) == (if id in db.orders then 1 else 0)
    && AcceptedCount(db.timeline, id) == (if id in db.orders then 1 else 0)
    && (if id in db.orders then db.orders[id].status == OrderStatus.After(OrderStatus.Created, Types(db.timeline, id))
        else Types(db.timeline, id) == [])
  }

  predicate EventsInv(db: Database) {
    forall i, j :: 0 <= i < j < |db.timeline| && db.timeline[i].kind.Recorded? && db.timeline[j].kind.Recorded? ==>
                     db.timeline[i].kind.eventId != db.timeline[j].kind.eventId
  }

  ghost predicate Inv(db: Database) {
    KeysInv(db) && EventsInv(db) && forall id: Id :: OrderInv(db, id)
  }

  lemma OneMoreEntry(timeline: seq<Entry>, entry: Entry, order: Id)
    ensures Types(timeline + [entry], order)
            == Types(timeline, order) + if entry.kind.Recorded? && entry.orderId == order then [entry.kind.eventType] else []
    ensures AcceptedCount(timeline + [entry], order)
            == AcceptedCount(timeline, order) + if entry.kind.Accepted? && entry.orderId == order then 1 else 0
  {
    assert (timeline + [entry])[..|timeline|] == timeline;
  }

  lemma OneMoreEvent(outbox: seq<Event>, event: Event, order: Id)
    ensures OutboxCount(outbox + [event], order) == OutboxCount(outbox, order) + if event.orderId == order then 1 else 0
  {
    assert (outbox + [event])[..|outbox|] == outbox;
  }

  lemma OneMoreType(types: seq<OrderStatus.EventType>, eventType: OrderStatus.EventType)
    ensures OrderStatus.After(OrderStatus.Created, types + [eventType])
            == OrderStatus.ApplyWorkflowEvent(OrderStatus.After(OrderStatus.Created, types), eventType)
  {
    assert (types + [eventType])[..|types|] == types;
  }

  lemma RetryKeepsOrderInv(db: Database, existing: Id, now: Time, id: Id)
    requires OrderInv(db, id)
    ensures OrderInv(db.(timeline := db.timeline + [Entry(existing, Replayed, now, now, 1)]), id)
  {
    OneMoreEntry(db.timeline, Entry(existing, Replayed, now, now, 1), id);
    assert Types(db.timeline, id) + [] == Types(db.timeline, id);
  }

  lemma NewOrderKeepsOrderInv(db: Database, order: NewOrder, now: Time, id: Id)
    requires OrderInv(db, id) && order.key !in db.byKey && !Collides(db, order)
    ensures OrderInv(Submit(db, order, now), id)
  {
    OneMoreEntry(db.timeline, Entry(order.event.orderId, Accepted, now, now, 1), id);
    OneMoreEvent(db.outbox, order.event, id);
    assert Types(db.timeline, id) + [] == Types(db.timeline, id);
  }

  lemma SubmitKeepsOrderInv(db: Database, order: NewOrder, now: Time, id: Id)
    requires KeysInv(db) && OrderInv(db, id)
    ensures OrderInv(Submit(db, order, now), id)
  {
    if order.key in db.byKey {
      RetryKeepsOrderInv(db, db.byKey[order.key], now, id);
    } else if !Collides(db, order) {
      NewOrderKeepsOrderInv(db, order, now, id);
    }
  }

  lemma SubmitKeepsKeysInv(db: Database, order: NewOrder, now: Time)
    requires KeysInv(db)
    ensures KeysInv(Submit(db, order, now))
  {
    var next := Submit(db, order, now);
    if |next.outbox| == |db.outbox| + 1 {
      assert next.outbox[|db.outbox|] == order.event;
    }
  }

  /** A first recording: one more entry, one more step of the status. */
  lemma NewEventKeepsOrderInv(db: Database, event: WorkflowEvent, now: Time, id: Id)
    requires OrderInv(db, id) && event.orderId in db.orders && FindEvent(db.timeline, event.eventId).None?
    ensures OrderInv(Record(db, event, now), id)
  {
    var entry := Entry(event.orderId, Recorded(event.eventId, event.eventType), event.occurredAt, now, 1);
    var types := Types(db.timeline, id);
    OneMoreEntry(db.timeline, entry, id);
    OneMoreType(types, event.eventType);
    if id != event.orderId {
      assert types + [] == types;
    }
  }

  /** A repeated one: only a counter changes. */
  lemma RepeatKeepsOrderInv(db: Database, event: WorkflowEvent, now: Time, id: Id)
    requires OrderInv(db, id) && event.orderId in db.orders && FindEvent(db.timeline, event.eventId).Some?
    ensures OrderInv(Record(db, event, now), id)
  {
    FindEventFinds(db.timeline, event.eventId);
    RedeliveryIsInvisible(db.timeline, FindEvent(db.timeline, event.eventId).value, id);
  }

  lemma RecordKeepsOrderInv(db: Database, event: WorkflowEvent, now: Time, id: Id)
    requires OrderInv(db, id)
    ensures OrderInv(Record(db, event, now), id)
  {
    if event.orderId in db.orders {
      if FindEvent(db.timeline, event.eventId).None? {
        NewEventKeepsOrderInv(db, event, now, id);
      } else {
        RepeatKeepsOrderInv(db, event, now, id);
      }
    }
  }

  lemma RecordKeepsEventsInv(db: Database, event: WorkflowEvent, now: Time)
    requires EventsInv(db)
    ensures EventsInv(Record(db, event, now))
  {
    FindEventFinds(db.timeline, event.eventId);
  }

  lemma StepKeepsInv(db: Database, action: Action)
    requires Inv(db)
    ensures Inv(Step(db, action))
  {
    if !action.fate.Aborted? {
      match action
      case Submission(order, now, _) =>
        SubmitKeepsKeysInv(db, order, now);
        forall id: Id ensures OrderInv(Submit(db, order, now), id) { SubmitKeepsOrderInv(db, order, now, id); }
      case Delivery(event, now, _) =>
        RecordKeepsEventsInv(db, event, now);
        forall id: Id ensures OrderInv(Record(db, event, now), id) { RecordKeepsOrderInv(db, event, now, id); }
    }
  }

  lemma {:induction false} RunKeepsInv(run: seq<Action>)
    ensures Inv(After(Empty(), run))
  {
    if run != [] {
      RunKeepsInv(run[..|run| - 1]);
      StepKeepsInv(After(Empty(), run[..|run| - 1]), run[|run| - 1]);
    }
  }

  // Idempotent submission -----------------------------------------------------------------

  /**
   * However submissions commit, lose their reply or abort: a key has at most one order, and an
   * order has exactly one OrderCreated event and one Accepted entry.
   */
  lemma OneOrderPerKey(run: seq<Action>, first: Id, second: Id)
    ensures var db := After(Empty(), run);
            && (first in db.orders && second in db.orders && db.orders[first].key == db.orders[second].key ==> first == second)
            && (first in db.orders ==>
                  && OutboxCount(db.outbox, first) == 1 && db.orders[first].event in db.outbox
                  && AcceptedCount(db.timeline, first) == 1)
            && (first !in db.orders ==> OutboxCount(db.outbox, first) == 0 && AcceptedCount(db.timeline, first) == 0)
  {
    RunKeepsInv(run);
    assert OrderInv(After(Empty(), run), first);
  }

  /** The body every successful reply for a stored key carries. */
  predicate KeyAnswers(db: Database, key: Key, reply: Reply) {
    && key in db.byKey && db.byKey[key] in db.orders
    && var event := db.orders[db.byKey[key]].event;
       && reply.Body? && reply.orderId == event.orderId
       && reply.totalAmount == event.totalAmount && reply.correlationId == event.correlationId
  }

  lemma AnswersStay(db: Database, action: Action, key: Key, reply: Reply)
    requires KeysInv(db) && KeyAnswers(db, key, reply)
    ensures KeyAnswers(Step(db, action), key, reply)
  {
  }

  lemma {:induction false} AnswersStayForever(before: seq<Action>, later: seq<Action>, key: Key, reply: Reply)
    requires KeyAnswers(After(Empty(), before), key, reply)
    ensures KeyAnswers(After(Empty(), before + later), key, reply)
  {
    if later == [] {
      assert before + later == before;
    } else {
      var init := before + later[..|later| - 1];
      assert (before + later)[..|before + later| - 1] == init;
      AnswersStayForever(before, later[..|later| - 1], key, reply);
      RunKeepsInv(init);
      AnswersStay(After(Empty(), init), later[|later| - 1], key, reply);
    }
  }

  /** A successful reply tells what is stored under the key. */
  lemma ReplyIsStored(db: Database, action: Action)
    requires action.Submission? && KeysInv(db) && ReplyOn(db, action).Body?
    ensures KeyAnswers(Step(db, action), action.order.key, ReplyOn(db, action))
    ensures forall reply :: KeyAnswers(db, action.order.key, reply) ==>
                              reply.(code := 200) == ReplyOn(db, action).(code := 200)
  {
  }

  /**
   * All successful replies for a key carry the same order id, amount and correlation id, no
   * matter which attempt's commit they report and how far the workflow has come in between.
   */
  lemma RepliesAgree(before: seq<Action>, first: Action, between: seq<Action>, second: Action)
    requires first.Submission? && second.Submission? && first.order.key == second.order.key
    requires ReplyOn(After(Empty(), before), first).Body?
    requires ReplyOn(After(Empty(), before + [first] + between), second).Body?
    ensures ReplyOn(After(Empty(), before), first).(code := 200)
            == ReplyOn(After(Empty(), before + [first] + between), second).(code := 200)
  {
    var reply := ReplyOn(After(Empty(), before), first);
    RunKeepsInv(before);
    ReplyIsStored(After(Empty(), before), first);
    assert (before + [first])[..|before|] == before;
    AnswersStayForever(before + [first], between, first.order.key, reply);
    RunKeepsInv(before + [first] + between);
    ReplyIsStored(After(Empty(), before + [first] + between), second);
  }

  /** A key that comes with a different request changes nothing and is told so. */
  lemma DifferentRequestChangesNothing(run: seq<Action>, action: Action)
    requires action.Submission?
    requires var db := After(Empty(), run);
             && action.order.key in db.byKey && db.byKey[action.order.key] in db.orders
             && db.orders[db.byKey[action.order.key]].fingerprint != action.order.fingerprint
    ensures Step(After(Empty(), run), action) == After(Empty(), run)
    ensures ReplyOn(After(Empty(), run), action) == if action.fate.Committed? then Conflict else Unavailable
  {
    RunKeepsInv(run);
  }

  // The timeline of a workflow ------------------------------------------------------------

  /** How often the recorder committed a delivery of the event for a known order. */
  function Handled(run: seq<Action>, eventId: Id): nat {
    if run == [] then 0 else
    var earlier, last := run[..|run| - 1], run[|run| - 1];
    Handled(earlier, eventId) +
    if last.Delivery? && !last.fate.Aborted? && last.event.eventId == eventId
       && last.event.orderId in After(Empty(), earlier).orders then 1 else 0
  }

  function DeliveriesOf(timeline: seq<Entry>, eventId: Id): nat {
    var found := FindEvent(timeline, eventId);
    FindEventFinds(timeline, eventId);
    if found.Some? then timeline[found.value].deliveries else 0
  }

  lemma {:induction false} FindEventAfterUpdate(timeline: seq<Entry>, i: nat, eventId: Id)
    requires i < |timeline|
    ensures FindEvent(timeline[i := Redelivered(timeline[i])], eventId) == FindEvent(timeline, eventId)
  {
    var changed := timeline[i := Redelivered(timeline[i])];
    if i == |timeline| - 1 {
      assert changed[..|changed| - 1] == timeline[..|timeline| - 1];
    } else {
      FindEventAfterUpdate(timeline[..|timeline| - 1], i, eventId);
      assert changed[..|changed| - 1] == timeline[..|timeline| - 1][i := Redelivered(timeline[i])];
    }
  }

  lemma StepCountsDelivery(db: Database, action: Action, eventId: Id)
    ensures DeliveriesOf(Step(db, action).timeline, eventId) ==
            DeliveriesOf(db.timeline, eventId) +
            if action.Delivery? && !action.fate.Aborted? && action.event.eventId == eventId
               && action.event.orderId in db.orders then 1 else 0
  {
    var next := Step(db, action);
    FindEventFinds(db.timeline, eventId);
    if |next.timeline| == |db.timeline| + 1 {
      assert next.timeline[..|db.timeline|] == db.timeline;
    } else if action.Delivery? && next.timeline != db.timeline {
      FindEventFinds(db.timeline, action.event.eventId);
      var i := FindEvent(db.timeline, action.event.eventId).value;
      FindEventAfterUpdate(db.timeline, i, eventId);
    }
    if action.Delivery? && !action.fate.Aborted? && action.event.orderId in db.orders {
      FindEventFinds(db.timeline, action.event.eventId);
      if FindEvent(db.timeline, action.event.eventId).Some? {
        FindEventAfterUpdate(db.timeline, FindEvent(db.timeline, action.event.eventId).value, eventId);
      }
    }
  }

  /** Each event id has one row, counting its deliveries, and the status is the fold of the rows. */
  lemma {:induction false} TimelineTellsTheRun(run: seq<Action>, eventId: Id, order: Id)
    ensures var db := After(Empty(), run);
            && DeliveriesOf(db.timeline, eventId) == Handled(run, eventId)
            && EventsInv(db)
            && (order in db.orders ==>
                  && db.orders[order].status == OrderStatus.After(OrderStatus.Created, Types(db.timeline, order))
                  && (!OrderStatus.Mixed(Types(db.timeline, order)) ==>
                        db.orders[order].status == OrderStatus.Highest(Types(db.timeline, order))))
  {
    RunKeepsInv(run);
    assert OrderInv(After(Empty(), run), order);
    if !OrderStatus.Mixed(Types(After(Empty(), run).timeline, order)) {
      OrderStatus.UnmixedEndsHighest(Types(After(Empty(), run).timeline, order));
    }
    if run != [] {
      TimelineTellsTheRun(run[..|run| - 1], eventId, order);
      StepCountsDelivery(After(Empty(), run[..|run| - 1]), run[|run| - 1], eventId);
    }
  }
}
