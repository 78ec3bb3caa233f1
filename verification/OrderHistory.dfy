/** What replies, stored orders and history rows tell of the requests and events that made them. */
module OrderHistory {
  import opened Contracts
  import OrderStatus
  import opened OrderStore
  import opened OrderRuns

  // ---------------------------------------------------------------------------------------
  // Orders
  // ---------------------------------------------------------------------------------------

  /** Step `k` is the first submission with this key that took effect. */
  predicate FirstOfKey(run: seq<Action>, k: int, key: Key) {
    && 0 <= k < |run|
    && run[k].Submission? && !run[k].fate.Aborted? && run[k].order.key == key
    && key !in After(Empty(), run[..k]).byKey && !Collides(After(Empty(), run[..k]), run[k].order)
  }

  /** The order is what that submission asked for. */
  predicate Creates(run: seq<Action>, k: int, order: StoredOrder) {
    && FirstOfKey(run, k, order.key)
    && order.event == run[k].order.event
    && order.fingerprint == run[k].order.fingerprint
    && order.createdAt == run[k].now
  }

  lemma StepKeepsOrder(db: Database, action: Action, id: Id)
    requires KeysInv(db) && id in Step(db, action).orders
    ensures var order := Step(db, action).orders[id];
            if id in db.orders then order == db.orders[id].(status := order.status, updatedAt := order.updatedAt)
            else && action.Submission? && !action.fate.Aborted?
                 && action.order.key !in db.byKey && !Collides(db, action.order) && order.key == action.order.key
                 && order.event == action.order.event && order.fingerprint == action.order.fingerprint
                 && order.createdAt == action.now
  {
  }

  lemma {:induction false} Shorter(run: seq<Action>, k: nat)
    requires k < |run| - 1
    ensures run[..|run| - 1][..k] == run[..k] && run[..|run| - 1][k] == run[k]
  {
  }

  /** Every stored order is what the first effective submission with its key asked for. */
  lemma {:induction false} OrderHasCreator(run: seq<Action>, id: Id) returns (k: nat)
    requires id in After(Empty(), run).orders
    ensures Creates(run, k, After(Empty(), run).orders[id])
  {
    var init := run[..|run| - 1];
    RunKeepsInv(init);
    StepKeepsOrder(After(Empty(), init), run[|run| - 1], id);
    if id in After(Empty(), init).orders {
      k := OrderHasCreator(init, id);
      Shorter(run, k);
    } else {
      k := |run| - 1;
    }
  }

  lemma KeyStays(db: Database, action: Action, key: Key)
    requires key in db.byKey
    ensures key in Step(db, action).byKey
  {
  }

  /** Once a submission took effect its key stays in use. */
  lemma {:induction false} FirstIsBefore(run: seq<Action>, k: nat, key: Key)
    requires FirstOfKey(run, k, key)
    ensures key in After(Empty(), run).byKey
    decreases |run|
  {
    if k == |run| - 1 {
      assert run[..k] == run[..|run| - 1];
    } else {
      Shorter(run, k);
      FirstIsBefore(run[..|run| - 1], k, key);
      KeyStays(After(Empty(), run[..|run| - 1]), run[|run| - 1], key);
    }
  }

  // ---------------------------------------------------------------------------------------
  // Replies
  // ---------------------------------------------------------------------------------------

  /** The order id, the amount and the correlation id of the submission's own order. */
  predicate TellsOf(reply: Reply, submission: Action)
    requires submission.Submission?
  {
    && reply.Body?
    && reply.orderId == submission.order.event.orderId
    && reply.totalAmount == submission.order.event.totalAmount
    && reply.correlationId == submission.order.event.correlationId
  }

  /** A reply with a body is about an order that is stored under the key once the submission is through. */
  lemma BodyTellsStored(db: Database, action: Action)
    requires KeysInv(db) && action.Submission? && ReplyOn(db, action).Body?
    ensures var reply, next := ReplyOn(db, action), Step(db, action);
            && reply.orderId in next.orders
            && var stored := next.orders[reply.orderId];
            && stored.key == action.order.key && stored.fingerprint == action.order.fingerprint
            && reply.totalAmount == stored.event.totalAmount && reply.correlationId == stored.event.correlationId
            && stored.event.orderId == reply.orderId
            && reply.code == (if action.order.key in db.byKey then 200 else 201)
            && action.fate.Committed?
  {
  }

  /**
   * A successful reply is about the first effective submission with its key, which made the same
   * request: it tells that order's id, amount and correlation id, and says Created exactly when
   * that submission is the one being answered.
   */
  lemma {:induction false} ReplyTellsFirst(before: seq<Action>, action: Action) returns (k: nat)
    requires action.Submission? && ReplyOn(After(Empty(), before), action).Body?
    ensures var run, reply := before + [action], ReplyOn(After(Empty(), before), action);
            && FirstOfKey(run, k, action.order.key)
            && run[k].order.fingerprint == action.order.fingerprint
            && TellsOf(reply, run[k])
            && reply.code == if k == |before| then 201 else 200
  {
    var run := before + [action];
    assert run[..|run| - 1] == before;
    RunKeepsInv(before);
    BodyTellsStored(After(Empty(), before), action);
    k := OrderHasCreator(run, ReplyOn(After(Empty(), before), action).orderId);
    if k < |before| {
      Shorter(run, k);
      FirstIsBefore(before, k, action.order.key);
    } else {
      assert run[..k] == before;
    }
  }

  /**
   * Every other reply: a conflict is about an earlier effective submission with the same key and a
   * different request; and when the generated ids are new, a submission is turned away as
   * unavailable exactly when its transaction did not visibly commit.
   */
  lemma {:induction false} OtherReplies(before: seq<Action>, action: Action) returns (k: nat)
    requires action.Submission?
    ensures var db, reply := After(Empty(), before), ReplyOn(After(Empty(), before), action);
            && (reply.Conflict? ==>
                  && action.fate.Committed? && FirstOfKey(before, k, action.order.key)
                  && before[k].order.fingerprint != action.order.fingerprint)
            && (!Collides(db, action.order) ==> (reply.Unavailable? <==> !action.fate.Committed?))
  {
    var db := After(Empty(), before);
    RunKeepsInv(before);
    k := 0;
    if ReplyOn(db, action).Conflict? {
      k := OrderHasCreator(before, db.byKey[action.order.key]);
    }
  }

  // ---------------------------------------------------------------------------------------
  // History rows
  // ---------------------------------------------------------------------------------------

  /** Step `k` is the first delivery of the event that took effect. */
  predicate FirstDelivery(run: seq<Action>, k: int, eventId: Id) {
    && 0 <= k < |run|
    && run[k].Delivery? && !run[k].fate.Aborted? && run[k].event.eventId == eventId
    && FindEvent(After(Empty(), run[..k]).timeline, eventId).None?
  }

  /** Step `k` is the one that the row was written for, with its data and its times. */
  predicate Writes(run: seq<Action>, k: int, entry: Entry) {
    && 0 <= k < |run| && !run[k].fate.Aborted? && entry.recordedAt == run[k].now
    && match entry.kind
       case Accepted =>
         && run[k].Submission? && FirstOfKey(run, k, run[k].order.key)
         && entry.orderId == run[k].order.event.orderId && entry.occurredAt == run[k].now && entry.deliveries == 1
       case Replayed =>
         && run[k].Submission? && !FirstOfKey(run, k, run[k].order.key)
         && run[k].order.key in After(Empty(), run[..k]).byKey
         && entry.orderId == After(Empty(), run[..k]).byKey[run[k].order.key]
         && entry.occurredAt == run[k].now && entry.deliveries == 1
       case Recorded(eventId, eventType) =>
         && FirstDelivery(run, k, eventId)
         && entry.orderId == run[k].event.orderId && eventType == run[k].event.eventType
         && entry.occurredAt == run[k].event.occurredAt
  }

  /** A step appends at most one row; it writes a new one or counts a delivery of an old one. */
  lemma StepKeepsEntry(db: Database, action: Action, i: nat)
    requires i < |db.timeline|
    ensures var next := Step(db, action).timeline;
            && |db.timeline| <= |next| <= |db.timeline| + 1
            && next[i] == db.timeline[i].(deliveries := next[i].deliveries)
            && (!db.timeline[i].kind.Recorded? ==> next[i] == db.timeline[i])
  {
    if action.Delivery? {
      FindEventFinds(db.timeline, action.event.eventId);
    }
  }

  /** The row that a step adds, if any. */
  lemma StepWrites(db: Database, action: Action)
    requires KeysInv(db) && |Step(db, action).timeline| > |db.timeline|
    ensures var next := Step(db, action).timeline;
            var entry := next[|db.timeline|];
            && next == db.timeline + [entry] && !action.fate.Aborted?
            && entry.recordedAt == action.now && entry.deliveries == 1
            && (action.Submission? ==>
                  && entry.occurredAt == action.now
                  && if action.order.key in db.byKey
                     then entry.kind.Replayed? && entry.orderId == db.byKey[action.order.key]
                     else entry.kind.Accepted? && entry.orderId == action.order.event.orderId && !Collides(db, action.order))
            && (action.Delivery? ==>
                  && entry.kind == Recorded(action.event.eventId, action.event.eventType)
                  && entry.orderId == action.event.orderId && entry.occurredAt == action.event.occurredAt
                  && FindEvent(db.timeline, action.event.eventId).None?)
  {
    if action.Delivery? {
      FindEventFinds(db.timeline, action.event.eventId);
    }
  }

  lemma {:induction false} NewEntry(run: seq<Action>)
    requires run != []
    requires |After(Empty(), run).timeline| > |After(Empty(), run[..|run| - 1]).timeline|
    ensures |After(Empty(), run).timeline| == |After(Empty(), run[..|run| - 1]).timeline| + 1
    ensures Writes(run, |run| - 1, After(Empty(), run).timeline[|After(Empty(), run).timeline| - 1])
  {
    RunKeepsInv(run[..|run| - 1]);
    StepWrites(After(Empty(), run[..|run| - 1]), run[|run| - 1]);
  }

  lemma {:induction false} ShorterWrites(run: seq<Action>, k: nat, entry: Entry, later: Entry)
    requires k < |run| - 1 && Writes(run[..|run| - 1], k, entry)
    requires later == entry.(deliveries := later.deliveries)
    requires !entry.kind.Recorded? ==> later == entry
    ensures Writes(run, k, later)
  {
    Shorter(run, k);
  }

  /** Every row of the history was written for one step of the run and tells that step. */
  lemma {:induction false} EntriesTellTheRun(run: seq<Action>, i: nat) returns (k: nat)
    requires i < |After(Empty(), run).timeline|
    ensures Writes(run, k, After(Empty(), run).timeline[i])
  {
    var init := run[..|run| - 1];
    var earlier, now := After(Empty(), init).timeline, After(Empty(), run).timeline;
    if i < |earlier| {
      StepKeepsEntry(After(Empty(), init), run[|run| - 1], i);
      k := EntriesTellTheRun(init, i);
      ShorterWrites(run, k, earlier[i], now[i]);
    } else {
      NewEntry(run);
      k := |run| - 1;
    }
  }

  // ---------------------------------------------------------------------------------------
  // Counts and times
  // ---------------------------------------------------------------------------------------

  function ReplayedCount(timeline: seq<Entry>, order: Id): nat {
    if timeline == [] then 0 else
    var last := timeline[|timeline| - 1];
    ReplayedCount(timeline[..|timeline| - 1], order) + if last.kind.Replayed? && last.orderId == order then 1 else 0
  }

  /** How many submissions took effect as a repetition of the order's own request. */
  function Repetitions(run: seq<Action>, order: Id): nat {
    if run == [] then 0 else
    var earlier, last := run[..|run| - 1], run[|run| - 1];
    var db := After(Empty(), earlier);
    Repetitions(earlier, order) +
    if && last.Submission? && !last.fate.Aborted?
       && order in db.orders && db.orders[order].key == last.order.key && db.orders[order].fingerprint == last.order.fingerprint
    then 1 else 0
  }

  lemma {:induction false} RecountIsInvisible(timeline: seq<Entry>, i: nat, order: Id)
    requires i < |timeline|
    ensures ReplayedCount(timeline[i := Redelivered(timeline[i])], order) == ReplayedCount(timeline, order)
  {
    var changed := timeline[i := Redelivered(timeline[i])];
    assert if i == |timeline| - 1 then changed[..|changed| - 1] == timeline[..|timeline| - 1]
           else changed[..|changed| - 1] == timeline[..|timeline| - 1][i := Redelivered(timeline[i])];
    if i < |timeline| - 1 {
      RecountIsInvisible(timeline[..|timeline| - 1], i, order);
    }
  }

  lemma StepCountsReplay(db: Database, action: Action, order: Id)
    requires KeysInv(db)
    ensures ReplayedCount(Step(db, action).timeline, order) == ReplayedCount(db.timeline, order) +
            if && action.Submission? && !action.fate.Aborted?
               && order in db.orders && db.orders[order].key == action.order.key
               && db.orders[order].fingerprint == action.order.fingerprint
            then 1 else 0
  {
    var next := Step(db, action);
    if |next.timeline| > |db.timeline| {
      StepWrites(db, action);
      assert next.timeline[..|next.timeline| - 1] == db.timeline;
    } else if action.Delivery? && next.timeline != db.timeline {
      FindEventFinds(db.timeline, action.event.eventId);
      RecountIsInvisible(db.timeline, FindEvent(db.timeline, action.event.eventId).value, order);
    }
  }

  /** The history shows exactly one replay row per repetition of the order's request. */
  lemma {:induction false} ReplaysAreCounted(run: seq<Action>, order: Id)
    ensures ReplayedCount(After(Empty(), run).timeline, order) == Repetitions(run, order)
  {
    if run != [] {
      ReplaysAreCounted(run[..|run| - 1], order);
      RunKeepsInv(run[..|run| - 1]);
      StepCountsReplay(After(Empty(), run[..|run| - 1]), run[|run| - 1], order);
    }
  }

  /** The row of an event counts the deliveries of it that took effect. */
  lemma RowsCountDeliveries(run: seq<Action>, i: nat)
    requires i < |After(Empty(), run).timeline| && After(Empty(), run).timeline[i].kind.Recorded?
    ensures var row := After(Empty(), run).timeline[i];
            row.deliveries == Handled(run, row.kind.eventId)
  {
    var timeline := After(Empty(), run).timeline;
    var eventId := timeline[i].kind.eventId;
    TimelineTellsTheRun(run, eventId, timeline[i].orderId);
    FindEventFinds(timeline, eventId);
    assert IsEvent(timeline[i], eventId) && FindEvent(timeline, eventId) == Some(i);
  }

  /** `updatedAt` is when the current status was recorded; before any event it is the creation. */
  predicate UpdatedWithStatus(db: Database, order: StoredOrder) {
    if order.status.Created? then order.updatedAt == order.createdAt
    else exists i :: 0 <= i < |db.timeline| && SetsStatus(db.timeline[i], order)
  }

  predicate SetsStatus(entry: Entry, order: StoredOrder) {
    && entry.orderId == order.event.orderId && entry.recordedAt == order.updatedAt
    && entry.kind.Recorded? && entry.kind.eventType == order.status
  }

  lemma StepKeepsUpdated(db: Database, action: Action, id: Id)
    requires KeysInv(db) && id in Step(db, action).orders
    requires id in db.orders ==> UpdatedWithStatus(db, db.orders[id])
    ensures UpdatedWithStatus(Step(db, action), Step(db, action).orders[id])
  {
    var next := Step(db, action);
    if id in db.orders && next.orders[id] == db.orders[id] {
      if !db.orders[id].status.Created? {
        var i :| 0 <= i < |db.timeline| && SetsStatus(db.timeline[i], db.orders[id]);
        StepKeepsEntry(db, action, i);
        assert SetsStatus(next.timeline[i], next.orders[id]);
      }
    } else if id in db.orders {
      assert SetsStatus(next.timeline[|db.timeline|], next.orders[id]);
    }
  }

  lemma {:induction false} StatusTimesAreTold(run: seq<Action>, id: Id)
    requires id in After(Empty(), run).orders
    ensures UpdatedWithStatus(After(Empty(), run), After(Empty(), run).orders[id])
  {
    var init := run[..|run| - 1];
    RunKeepsInv(init);
    if id in After(Empty(), init).orders {
      StatusTimesAreTold(init, id);
    }
    StepKeepsUpdated(After(Empty(), init), run[|run| - 1], id);
  }

  /** The outcome of a recording tells the tables it leaves. */
  lemma OutcomeTellsTheTables(db: Database, event: WorkflowEvent, now: Time)
    ensures var next := Record(db, event, now);
            match RecordOutcomeOf(db, event)
            case UnknownOrder => event.orderId !in db.orders && next == db
            case RecordedNow(status) =>
              && event.orderId in db.orders && event.orderId in next.orders && next.orders[event.orderId].status == status
              && DeliveriesOf(db.timeline, event.eventId) == 0 && DeliveriesOf(next.timeline, event.eventId) == 1
            case Duplicate(deliveries) =>
              && event.orderId in db.orders && next.orders == db.orders
              && DeliveriesOf(next.timeline, event.eventId) == deliveries == DeliveriesOf(db.timeline, event.eventId) + 1
            case RecordError => false
  {
    FindEventFinds(db.timeline, event.eventId);
    StepCountsDelivery(db, Delivery(event, now, Committed), event.eventId);
  }
}
