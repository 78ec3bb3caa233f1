/** The Order Service's durable state: orders by idempotency key, their history and their outbox. */
module OrderStore {
  import opened Contracts
  import opened OrderStatus
  import opened Transaction

  type Key = nat             // an accepted Idempotency-Key
  type Fingerprint = nat     // equal exactly for equal requests

  type OrderCreatedEvent = event: Event | event.OrderCreated?
    witness OrderCreated(Random(0), 0, Random(0), Random(0), Random(0), [], 0)

  datatype NewOrder = NewOrder(key: Key, fingerprint: Fingerprint, event: OrderCreatedEvent)

  datatype StoredOrder = StoredOrder(
    key: Key,
    fingerprint: Fingerprint,
    event: OrderCreatedEvent,          // the order's ids, items, amount and correlation id
    status: Status,
    createdAt: Time,
    updatedAt: Time)

  datatype EntryKind = Accepted | Replayed | Recorded(eventId: Id, eventType: EventType)

  /** One row of an order's history. */
  datatype Entry = Entry(orderId: Id, kind: EntryKind, occurredAt: Time, recordedAt: Time, deliveries: nat)

  /** How far the relay is with an order's OrderCreated event. */
  datatype Publication = Publication(eventId: Id, createdAt: Time, publishedAt: Option<Time>, attempts: nat)

  /** The tables; `byKey` is the unique index on the idempotency key. */
  datatype Database = Database(
    orders: map<Id, StoredOrder>,
    byKey: map<Key, Id>,
    timeline: seq<Entry>,
    outbox: seq<Event>)

  datatype SubmitOutcome =
    | CreatedOrder(order: StoredOrder)
    | ReplayedOrder(order: StoredOrder)
    | KeyReused
    | StoreError

  /** An event about an order, as the timeline consumer receives it. */
  datatype WorkflowEvent = WorkflowEvent(eventId: Id, eventType: EventType, orderId: Id, occurredAt: Time)

  datatype RecordOutcome = RecordedNow(status: Status) | Duplicate(deliveries: nat) | UnknownOrder | RecordError

  /** What the HTTP API answers; Unavailable is the 503 that invites a retry with the same key. */
  datatype Reply = Body(code: nat, orderId: Id, totalAmount: Amount, correlationId: Id) | Conflict | Unavailable

  /** How a transaction ends. */
  datatype Fate = Committed | CommittedReplyLost | Aborted

  function Empty(): Database {
    Database(map[], map[], [], [])
  }

  // ---------------------------------------------------------------------------------------
  // The transactions as functions of the tables
  // ---------------------------------------------------------------------------------------

  predicate HasEventId(outbox: seq<Event>, eventId: Id) {
    exists i :: 0 <= i < |outbox| && outbox[i].eventId == eventId
  }

  /** A generated id that is already in use violates a primary key or a unique constraint. */
  predicate Collides(db: Database, order: NewOrder) {
    order.event.orderId in db.orders || HasEventId(db.outbox, order.event.eventId)
  }

  function Submit(db: Database, order: NewOrder, now: Time): Database {
    if order.key in db.byKey && db.byKey[order.key] in db.orders then
      var existing := db.byKey[order.key];
      if db.orders[existing].fingerprint != order.fingerprint then db
      else db.(timeline := db.timeline + [Entry(existing, Replayed, now, now, 1)])
    else if order.key in db.byKey || Collides(db, order) then db
    else
      var id := order.event.orderId;
      Database(
        db.orders[id := StoredOrder(order.key, order.fingerprint, order.event, Created, now, now)],
        db.byKey[order.key := id],
        db.timeline + [Entry(id, Accepted, now, now, 1)],
        db.outbox + [order.event])
  }

  function SubmitOutcomeOf(db: Database, order: NewOrder, now: Time): SubmitOutcome {
    if order.key in db.byKey && db.byKey[order.key] in db.orders then
      var stored := db.orders[db.byKey[order.key]];
      if stored.fingerprint != order.fingerprint then KeyReused else ReplayedOrder(stored)
    else if order.key in db.byKey || Collides(db, order) then StoreError
    else CreatedOrder(StoredOrder(order.key, order.fingerprint, order.event, Created, now, now))
  }

  predicate IsEvent(entry: Entry, eventId: Id) {
    entry.kind.Recorded? && entry.kind.eventId == eventId
  }

  /** The position of the event's row, if there is one: event ids are unique in the table. */
  function FindEvent(timeline: seq<Entry>, eventId: Id): Option<nat> {
    if timeline == [] then None
    else if IsEvent(timeline[|timeline| - 1], eventId) then Some(|timeline| - 1)
    else FindEvent(timeline[..|timeline| - 1], eventId)
  }

  lemma {:induction false} FindEventFinds(timeline: seq<Entry>, eventId: Id)
    ensures FindEvent(timeline, eventId).Some? ==>
              && FindEvent(timeline, eventId).value < |timeline|
              && IsEvent(timeline[FindEvent(timeline, eventId).value], eventId)
    ensures FindEvent(timeline, eventId).None? <==> forall i :: 0 <= i < |timeline| ==> !IsEvent(timeline[i], eventId)
  {
    if timeline != [] {
      FindEventFinds(timeline[..|timeline| - 1], eventId);
    }
  }

  function Redelivered(entry: Entry): Entry {
    entry.(deliveries := entry.deliveries + 1)
  }

  function Record(db: Database, event: WorkflowEvent, now: Time): Database {
    if event.orderId !in db.orders then db else
    var found := FindEvent(db.timeline, event.eventId);
    FindEventFinds(db.timeline, event.eventId);
    if found.Some? then db.(timeline := db.timeline[found.value := Redelivered(db.timeline[found.value])])
    else
      var order := db.orders[event.orderId];
      var status := ApplyWorkflowEvent(order.status, event.eventType);
      db.(timeline := db.timeline + [Entry(event.orderId, Recorded(event.eventId, event.eventType), event.occurredAt, now, 1)],
      orders := if status == order.status then db.orders
                else db.orders[event.orderId := order.(status := status, updatedAt := now)])
  }

  function RecordOutcomeOf(db: Database, event: WorkflowEvent): RecordOutcome {
    if event.orderId !in db.orders then UnknownOrder else
    var found := FindEvent(db.timeline, event.eventId);
    FindEventFinds(db.timeline, event.eventId);
    if found.Some? then Duplicate(db.timeline[found.value].deliveries + 1)
    else RecordedNow(ApplyWorkflowEvent(db.orders[event.orderId].status, event.eventType))
  }

  /** toCreatedResponse: the creation result, whatever the order's status is by now. */
  function BodyOf(code: nat, order: StoredOrder): Reply {
    Body(code, order.event.orderId, order.event.totalAmount, order.event.correlationId)
  }

  function ReplyTo(outcome: SubmitOutcome, fate: Fate): Reply {
    if !fate.Committed? then Unavailable else
    match outcome
    case CreatedOrder(order) => BodyOf(201, order)
    case ReplayedOrder(order) => BodyOf(200, order)
    case KeyReused => Conflict
    case StoreError => Unavailable
  }

  /** The reply tells the order that is stored under the key for this very request, and whether it is new. */
  predicate AnswersRequest(before: Database, after: Database, order: NewOrder, reply: Reply) {
    && order.key in after.byKey && after.byKey[order.key] in after.orders
    && var stored := after.orders[after.byKey[order.key]];
       && stored.fingerprint == order.fingerprint
       && reply == Body(if order.key in before.byKey then 200 else 201,
                        stored.event.orderId, stored.event.totalAmount, stored.event.correlationId)
  }

  // ---------------------------------------------------------------------------------------
  // The store
  // ---------------------------------------------------------------------------------------

  /** The unique index on event ids. */
  method LookUp(timeline: seq<Entry>, eventId: Id) returns (found: Option<nat>)
    ensures found == FindEvent(timeline, eventId)
  {
    found := None;
    for i := 0 to |timeline|
      invariant found == FindEvent(timeline[..i], eventId)
    {
      assert timeline[..i + 1][..i] == timeline[..i];
      if IsEvent(timeline[i], eventId) {
        found := Some(i);
      }
    }
    assert timeline[..|timeline|] == timeline;
  }

  /** How a transaction's end looks to its caller. */
  function FateOf(env: Surroundings): Fate {
    if !env.beginSucceeds || env.commit.CommitRefused? then Aborted
    else if env.commit.CommitApplied? then Committed else CommittedReplyLost
  }

  /** The work of a submission on its uncommitted versions of the tables; a violated constraint throws. */
  method SubmitWork(db: Database, order: NewOrder, now: Time) returns (done: WorkResult<Database, SubmitOutcome>)
    ensures done == if SubmitOutcomeOf(db, order, now).StoreError? then Threw
                    else Finished(Submit(db, order, now), SubmitOutcomeOf(db, order, now))
  {
    var draft := db;
    if order.key !in draft.byKey {
      var id := order.event.orderId;
      if id in draft.orders {
        return Threw;
      }
      var created := StoredOrder(order.key, order.fingerprint, order.event, Created, now, now);
      draft := draft.(orders := draft.orders[id := created], byKey := draft.byKey[order.key := id]);
      if HasEventId(draft.outbox, order.event.eventId) {
        return Threw;
      }
      draft := draft.(outbox := draft.outbox + [order.event]);
      draft := draft.(timeline := draft.timeline + [Entry(id, Accepted, now, now, 1)]);
      return Finished(draft, CreatedOrder(created));
    }
    if draft.byKey[order.key] !in draft.orders {
      return Threw;
    }
    var stored := draft.orders[draft.byKey[order.key]];
    if stored.fingerprint != order.fingerprint {
      return Finished(draft, KeyReused);
    }
    draft := draft.(timeline := draft.timeline + [Entry(draft.byKey[order.key], Replayed, now, now, 1)]);
    done := Finished(draft, ReplayedOrder(stored));
  }

  /** The work of recording an event. */
  method RecordWork(db: Database, event: WorkflowEvent, now: Time) returns (done: WorkResult<Database, RecordOutcome>)
    ensures done == Finished(Record(db, event, now), RecordOutcomeOf(db, event))
  {
    var draft := db;
    if event.orderId !in draft.orders {
      return Finished(draft, UnknownOrder);
    }
    var current := draft.orders[event.orderId].status;
    var found := LookUp(draft.timeline, event.eventId);
    FindEventFinds(draft.timeline, event.eventId);
    if found.Some? {
      var row := Redelivered(draft.timeline[found.value]);
      draft := draft.(timeline := draft.timeline[found.value := row]);
      return Finished(draft, Duplicate(row.deliveries));
    }
    draft := draft.(timeline := draft.timeline +
      [Entry(event.orderId, Recorded(event.eventId, event.eventType), event.occurredAt, now, 1)]);
    var status := ApplyWorkflowEvent(current, event.eventType);
    if status != current {
      draft := draft.(orders :=
        draft.orders[event.orderId := draft.orders[event.orderId].(status := status, updatedAt := now)]);
    }
    done := Finished(draft, RecordedNow(status));
  }

  /** Each operation is one transaction on a client of the pool. */
  class PostgresOrderStore {
    const pool: Pool<Database>

    constructor (pool: Pool<Database>)
      ensures this.pool == pool
    {
      this.pool := pool;
    }

    method SubmitOrder(order: NewOrder, now: Time, client: Client, env: Surroundings) returns (reply: Reply)
      requires client in pool.idle
      modifies pool
      ensures pool.state == if FateOf(env).Aborted? then old(pool.state) else Submit(old(pool.state), order, now)
      ensures reply == ReplyTo(SubmitOutcomeOf(old(pool.state), order, now), FateOf(env))
      ensures reply.Body? ==> AnswersRequest(old(pool.state), pool.state, order, reply)
      ensures pool.idle <= old(pool.idle) <= pool.idle + {client}
    {
      var done := Threw;
      var draft := pool.Begin(client, env);
      if draft.Some? {
        done := SubmitWork(draft.value, order, now);
      }
      var result := pool.Finish(client, done, env);
      reply := if result.Success? then ReplyTo(result.value, Committed) else Unavailable;
    }

    method RecordWorkflowEvent(event: WorkflowEvent, now: Time, client: Client, env: Surroundings)
      returns (outcome: RecordOutcome)
      requires client in pool.idle
      modifies pool
      ensures pool.state == if FateOf(env).Aborted? then old(pool.state) else Record(old(pool.state), event, now)
      ensures outcome == if FateOf(env).Committed? then RecordOutcomeOf(old(pool.state), event) else RecordError
      ensures pool.idle <= old(pool.idle) <= pool.idle + {client}
    {
      var done := Threw;
      var draft := pool.Begin(client, env);
      if draft.Some? {
        done := RecordWork(draft.value, event, now);
      }
      var result := pool.Finish(client, done, env);
      outcome := if result.Success? then result.value else RecordError;
    }
  }
}
