/** The in-memory order store, and how far it agrees with the tables. */
module InMemoryOrderStore {
  import opened Contracts
  import OrderStatus
  import opened OrderStore
  import opened OrderRuns

  datatype OrderEntry = OrderEntry(order: StoredOrder, timeline: seq<Entry>, publication: Publication)

  datatype Memory = Memory(orders: map<Id, OrderEntry>, orderIdByKey: map<Key, Id>)

  function SubmitTo(memory: Memory, order: NewOrder, now: Time): Memory {
    if order.key in memory.orderIdByKey then
      var id := memory.orderIdByKey[order.key];
      if id !in memory.orders || memory.orders[id].order.fingerprint != order.fingerprint then memory
      else
        var entry := memory.orders[id];
        memory.(orders := memory.orders[id := entry.(timeline := entry.timeline + [Entry(id, Replayed, now, now, 1)])])
    else
      var id := order.event.orderId;
      var stored := StoredOrder(order.key, order.fingerprint, order.event, OrderStatus.Created, now, now);
      Memory(
        memory.orders[id := OrderEntry(stored, [Entry(id, Accepted, now, now, 1)],
                                       Publication(order.event.eventId, now, None, 0))],
        memory.orderIdByKey[order.key := id])
  }

  function OutcomeFrom(memory: Memory, order: NewOrder, now: Time): SubmitOutcome {
    if order.key in memory.orderIdByKey then
      var id := memory.orderIdByKey[order.key];
      if id !in memory.orders then StoreError
      else if memory.orders[id].order.fingerprint != order.fingerprint then KeyReused
      else ReplayedOrder(memory.orders[id].order)
    else CreatedOrder(StoredOrder(order.key, order.fingerprint, order.event, OrderStatus.Created, now, now))
  }

  /** The order's own history decides about duplicates, and updatedAt always moves. */
  function RecordIn(memory: Memory, event: WorkflowEvent, now: Time): Memory {
    if event.orderId !in memory.orders then memory else
    var entry := memory.orders[event.orderId];
    var found := FindEvent(entry.timeline, event.eventId);
    FindEventFinds(entry.timeline, event.eventId);
    var changed := if found.Some?
                   then entry.(timeline := entry.timeline[found.value := Redelivered(entry.timeline[found.value])])
                   else entry.(timeline := entry.timeline +
                     [Entry(event.orderId, Recorded(event.eventId, event.eventType), event.occurredAt, now, 1)],
                   order := entry.order.(status := OrderStatus.ApplyWorkflowEvent(entry.order.status, event.eventType),
                   updatedAt := now));
    memory.(orders := memory.orders[event.orderId := changed])
  }

  function RecordOutcomeIn(memory: Memory, event: WorkflowEvent): RecordOutcome {
    if event.orderId !in memory.orders then UnknownOrder else
    var entry := memory.orders[event.orderId];
    var found := FindEvent(entry.timeline, event.eventId);
    FindEventFinds(entry.timeline, event.eventId);
    if found.Some? then Duplicate(entry.timeline[found.value].deliveries + 1)
    else RecordedNow(OrderStatus.ApplyWorkflowEvent(entry.order.status, event.eventType))
  }

  class OrderStoreInMemory {
    var orders: map<Id, OrderEntry>
    var orderIdByKey: map<Key, Id>

    function View(): Memory
      reads this
    {
      Memory(orders, orderIdByKey)
    }

    constructor ()
      ensures View() == Memory(map[], map[])
    {
      orders, orderIdByKey := map[], map[];
    }

    method SubmitOrder(order: NewOrder, now: Time) returns (outcome: SubmitOutcome)
      modifies this
      ensures View() == SubmitTo(old(View()), order, now)
      ensures outcome == OutcomeFrom(old(View()), order, now)
    {
      if order.key in orderIdByKey {
        var existingId := orderIdByKey[order.key];
        if existingId !in orders {
          return StoreError;
        }
        var existing := orders[existingId];
        if existing.order.fingerprint != order.fingerprint {
          return KeyReused;
        }
        orders := orders[existingId := existing.(timeline := existing.timeline + [Entry(existingId, Replayed, now, now, 1)])];
        return ReplayedOrder(existing.order);
      }
      var stored := StoredOrder(order.key, order.fingerprint, order.event, OrderStatus.Created, now, now);
      var id := order.event.orderId;
      orders := orders[id := OrderEntry(stored, [Entry(id, Accepted, now, now, 1)],
                                        Publication(order.event.eventId, now, None, 0))];
      orderIdByKey := orderIdByKey[order.key := id];
      outcome := CreatedOrder(stored);
    }

    method RecordWorkflowEvent(event: WorkflowEvent, now: Time) returns (outcome: RecordOutcome)
      modifies this
      ensures View() == RecordIn(old(View()), event, now)
      ensures outcome == RecordOutcomeIn(old(View()), event)
    {
      if event.orderId !in orders {
        return UnknownOrder;
      }
      var entry := orders[event.orderId];
      var recorded := LookUp(entry.timeline, event.eventId);
      FindEventFinds(entry.timeline, event.eventId);
      if recorded.Some? {
        var row := Redelivered(entry.timeline[recorded.value]);
        orders := orders[event.orderId := entry.(timeline := entry.timeline[recorded.value := row])];
        return Duplicate(row.deliveries);
      }
      var timeline := entry.timeline +
        [Entry(event.orderId, Recorded(event.eventId, event.eventType), event.occurredAt, now, 1)];
      var order := entry.order.(
        status := OrderStatus.ApplyWorkflowEvent(entry.order.status, event.eventType), updatedAt := now);
      orders := orders[event.orderId := entry.(timeline := timeline, order := order)];
      outcome := RecordedNow(order.status);
    }
  }

  // Agreement with the tables -------------------------------------------------------------

  /** The rows of one order, in their order. */
  function EntriesOf(timeline: seq<Entry>, order: Id): seq<Entry> {
    if timeline == [] then [] else
    var last := timeline[|timeline| - 1];
    EntriesOf(timeline[..|timeline| - 1], order) + if last.orderId == order then [last] else []
  }

  predicate OrderAgrees(db: Database, memory: Memory, id: Id)
    requires id in db.orders && id in memory.orders
  {
    && memory.orders[id].order == db.orders[id].(updatedAt := memory.orders[id].order.updatedAt)
    && memory.orders[id].timeline == EntriesOf(db.timeline, id)
    && memory.orders[id].publication == Publication(db.orders[id].event.eventId, db.orders[id].createdAt, None, 0)
  }

  ghost predicate Agrees(db: Database, memory: Memory) {
    && memory.orderIdByKey == db.byKey
    && memory.orders.Keys == db.orders.Keys
    && (forall id :: id in db.orders ==> OrderAgrees(db, memory, id))
    && (forall i :: 0 <= i < |db.timeline| ==> db.timeline[i].orderId in db.orders)
  }

  lemma {:induction false} EntriesOfOthers(timeline: seq<Entry>, order: Id)
    requires forall i :: 0 <= i < |timeline| ==> timeline[i].orderId != order
    ensures EntriesOf(timeline, order) == []
  {
    if timeline != [] {
      EntriesOfOthers(timeline[..|timeline| - 1], order);
    }
  }

  /** The same answer about the same stored order; only the replayed order's updatedAt may differ. */
  predicate SameAnswer(table: SubmitOutcome, memory: SubmitOutcome) {
    match table
    case CreatedOrder(order) => memory == table
    case ReplayedOrder(order) => memory.ReplayedOrder? && memory.order.(updatedAt := order.updatedAt) == order
    case KeyReused => memory == table
    case StoreError => memory == table
  }

  lemma SameOutcome(db: Database, memory: Memory, order: NewOrder, now: Time)
    requires Agrees(db, memory) && KeysInv(db)
    requires order.key in db.byKey || !Collides(db, order)
    ensures SameAnswer(SubmitOutcomeOf(db, order, now), OutcomeFrom(memory, order, now))
    ensures ReplyTo(SubmitOutcomeOf(db, order, now), Committed) == ReplyTo(OutcomeFrom(memory, order, now), Committed)
  {
    if order.key in db.byKey {
      assert OrderAgrees(db, memory, db.byKey[order.key]);
    }
  }

  lemma OneMoreEntry(timeline: seq<Entry>, entry: Entry, order: Id)
    ensures EntriesOf(timeline + [entry], order)
            == if entry.orderId == order then EntriesOf(timeline, order) + [entry] else EntriesOf(timeline, order)
  {
    assert (timeline + [entry])[..|timeline|] == timeline;
  }

  lemma RetryKeepsAgreement(db: Database, memory: Memory, order: NewOrder, now: Time)
    requires Agrees(db, memory) && KeysInv(db) && order.key in db.byKey
    ensures Agrees(Submit(db, order, now), SubmitTo(memory, order, now))
  {
    var next, nextMemory := Submit(db, order, now), SubmitTo(memory, order, now);
    var existing := db.byKey[order.key];
    assert OrderAgrees(db, memory, existing);
    if db.orders[existing].fingerprint == order.fingerprint {
      forall id | id in next.orders
        ensures OrderAgrees(next, nextMemory, id)
      {
        assert OrderAgrees(db, memory, id);
        OneMoreEntry(db.timeline, Entry(existing, Replayed, now, now, 1), id);
      }
    }
  }

  lemma NewOrderKeepsAgreement(db: Database, memory: Memory, order: NewOrder, now: Time)
    requires Agrees(db, memory) && KeysInv(db) && order.key !in db.byKey && !Collides(db, order)
    ensures Agrees(Submit(db, order, now), SubmitTo(memory, order, now))
  {
    var next, nextMemory := Submit(db, order, now), SubmitTo(memory, order, now);
    forall id | id in next.orders
      ensures OrderAgrees(next, nextMemory, id)
    {
      OneMoreEntry(db.timeline, Entry(order.event.orderId, Accepted, now, now, 1), id);
      if id in db.orders {
        assert OrderAgrees(db, memory, id);
      } else {
        EntriesOfOthers(db.timeline, id);
      }
    }
  }

  /** Where row `i` of the table stands among the rows of its order. */
  function Position(timeline: seq<Entry>, i: nat, order: Id): nat
    requires i <= |timeline|
  {
    |EntriesOf(timeline[..i], order)|
  }

  lemma {:induction false} UpdateWithinOrder(timeline: seq<Entry>, i: nat, order: Id)
    requires i < |timeline| && timeline[i].orderId == order
    ensures var k := Position(timeline, i, order);
            && k < |EntriesOf(timeline, order)|
            && EntriesOf(timeline, order)[k] == timeline[i]
            && EntriesOf(timeline[i := Redelivered(timeline[i])], order)
               == EntriesOf(timeline, order)[k := Redelivered(timeline[i])]
  {
    var init := timeline[..|timeline| - 1];
    var changed := timeline[i := Redelivered(timeline[i])];
    if i == |timeline| - 1 {
      assert timeline[..i] == init && changed[..|changed| - 1] == init;
    } else {
      UpdateWithinOrder(init, i, order);
      assert init[..i] == timeline[..i];
      assert changed[..|changed| - 1] == init[i := Redelivered(init[i])];
    }
  }

  /** The event's row, looked up in its order's history, is the same row. */
  lemma {:induction false} FindWithinOrder(timeline: seq<Entry>, order: Id, eventId: Id)
    requires forall i :: 0 <= i < |timeline| && IsEvent(timeline[i], eventId) ==> timeline[i].orderId == order
    ensures FindEvent(timeline, eventId).None? ==> FindEvent(EntriesOf(timeline, order), eventId).None?
    ensures FindEvent(timeline, eventId).Some? ==>
              && FindEvent(timeline, eventId).value < |timeline|
              && FindEvent(EntriesOf(timeline, order), eventId)
                 == Some(Position(timeline, FindEvent(timeline, eventId).value, order))
  {
    if timeline != [] {
      var init, last := timeline[..|timeline| - 1], timeline[|timeline| - 1];
      FindWithinOrder(init, order, eventId);
      assert timeline == init + [last] && (IsEvent(timeline[|init|], eventId) ==> last.orderId == order);
      OneMoreEntry(init, last, order);
      FindInOneMore(EntriesOf(init, order), last, eventId);
      if FindEvent(timeline, eventId).Some? {
        var i := FindEvent(timeline, eventId).value;
        assert timeline[..i] == init[..i];
      }
    }
  }

  lemma FindInOneMore(entries: seq<Entry>, last: Entry, eventId: Id)
    ensures FindEvent(entries + [last], eventId)
            == if IsEvent(last, eventId) then Some(|entries|) else FindEvent(entries, eventId)
  {
    assert (entries + [last])[..|entries|] == entries;
  }

  lemma {:induction false} UpdateElsewhere(timeline: seq<Entry>, i: nat, order: Id)
    requires i < |timeline| && timeline[i].orderId != order
    ensures EntriesOf(timeline[i := Redelivered(timeline[i])], order) == EntriesOf(timeline, order)
  {
    var changed := timeline[i := Redelivered(timeline[i])];
    if i == |timeline| - 1 {
      assert changed[..|changed| - 1] == timeline[..|timeline| - 1];
    } else {
      UpdateElsewhere(timeline[..|timeline| - 1], i, order);
      assert changed[..|changed| - 1] == timeline[..|timeline| - 1][i := Redelivered(timeline[i])];
    }
  }

  /** The event ids of the tables name one order each, as far as this event goes. */
  predicate NamesOneOrder(db: Database, event: WorkflowEvent) {
    forall i :: 0 <= i < |db.timeline| && IsEvent(db.timeline[i], event.eventId) ==>
                  db.timeline[i].orderId == event.orderId
  }

  function NewEntry(event: WorkflowEvent, now: Time): Entry {
    Entry(event.orderId, Recorded(event.eventId, event.eventType), event.occurredAt, now, 1)
  }

  lemma NewEventInTables(db: Database, event: WorkflowEvent, now: Time)
    requires event.orderId in db.orders && FindEvent(db.timeline, event.eventId).None?
    ensures var next, stored := Record(db, event, now), db.orders[event.orderId];
            && next.timeline == db.timeline + [NewEntry(event, now)]
            && next.orders.Keys == db.orders.Keys
            && (forall id :: id in db.orders && id != event.orderId ==> next.orders[id] == db.orders[id])
            && next.orders[event.orderId] == stored.(
                 status := OrderStatus.ApplyWorkflowEvent(stored.status, event.eventType),
                 updatedAt := next.orders[event.orderId].updatedAt)
  {
  }

  lemma NewEventInMemory(memory: Memory, event: WorkflowEvent, now: Time)
    requires event.orderId in memory.orders
    requires FindEvent(memory.orders[event.orderId].timeline, event.eventId).None?
    ensures var next, entry := RecordIn(memory, event, now), memory.orders[event.orderId];
            && next.orders.Keys == memory.orders.Keys
            && (forall id :: id in memory.orders && id != event.orderId ==> next.orders[id] == memory.orders[id])
            && next.orders[event.orderId] == entry.(
                 timeline := entry.timeline + [NewEntry(event, now)],
                 order := entry.order.(
                   status := OrderStatus.ApplyWorkflowEvent(entry.order.status, event.eventType), updatedAt := now))
  {
  }

  lemma NewEventKeepsAgreement(db: Database, memory: Memory, event: WorkflowEvent, now: Time, id: Id)
    requires Agrees(db, memory) && NamesOneOrder(db, event) && event.orderId in db.orders && id in db.orders
    requires FindEvent(db.timeline, event.eventId).None?
    ensures id in Record(db, event, now).orders && id in RecordIn(memory, event, now).orders
    ensures OrderAgrees(Record(db, event, now), RecordIn(memory, event, now), id)
  {
    assert OrderAgrees(db, memory, event.orderId) && OrderAgrees(db, memory, id);
    FindWithinOrder(db.timeline, event.orderId, event.eventId);
    NewEventInTables(db, event, now);
    NewEventInMemory(memory, event, now);
    OneMoreEntry(db.timeline, NewEntry(event, now), id);
  }

  lemma RepeatKeepsAgreement(db: Database, memory: Memory, event: WorkflowEvent, now: Time, id: Id)
    requires Agrees(db, memory) && NamesOneOrder(db, event) && event.orderId in db.orders && id in db.orders
    requires FindEvent(db.timeline, event.eventId).Some?
    ensures id in RecordIn(memory, event, now).orders
    ensures OrderAgrees(Record(db, event, now), RecordIn(memory, event, now), id)
  {
    assert OrderAgrees(db, memory, event.orderId) && OrderAgrees(db, memory, id);
    FindEventFinds(db.timeline, event.eventId);
    FindWithinOrder(db.timeline, event.orderId, event.eventId);
    var i := FindEvent(db.timeline, event.eventId).value;
    if id == event.orderId {
      UpdateWithinOrder(db.timeline, i, id);
    } else {
      UpdateElsewhere(db.timeline, i, id);
    }
  }

  lemma RecordKeepsOrders(db: Database, event: WorkflowEvent, now: Time)
    requires forall i :: 0 <= i < |db.timeline| ==> db.timeline[i].orderId in db.orders
    ensures var next := Record(db, event, now);
            && next.orders.Keys == db.orders.Keys && next.byKey == db.byKey
            && forall i :: 0 <= i < |next.timeline| ==> next.timeline[i].orderId in next.orders
  {
    FindEventFinds(db.timeline, event.eventId);
  }

  /** An event id that stands for one order only is recorded alike in both stores. */
  lemma RecordKeepsAgreement(db: Database, memory: Memory, event: WorkflowEvent, now: Time)
    requires Agrees(db, memory) && NamesOneOrder(db, event)
    ensures Agrees(Record(db, event, now), RecordIn(memory, event, now))
  {
    if event.orderId in db.orders {
      RecordKeepsOrders(db, event, now);
      forall id | id in db.orders
        ensures id in RecordIn(memory, event, now).orders
        ensures OrderAgrees(Record(db, event, now), RecordIn(memory, event, now), id)
      {
        if FindEvent(db.timeline, event.eventId).None? {
          NewEventKeepsAgreement(db, memory, event, now, id);
        } else {
          RepeatKeepsAgreement(db, memory, event, now, id);
        }
      }
    }
  }

  /** And the handler is told the same. */
  lemma SameRecordOutcome(db: Database, memory: Memory, event: WorkflowEvent)
    requires Agrees(db, memory) && NamesOneOrder(db, event)
    ensures RecordOutcomeOf(db, event) == RecordOutcomeIn(memory, event)
  {
    if event.orderId in db.orders {
      assert OrderAgrees(db, memory, event.orderId);
      FindEventFinds(db.timeline, event.eventId);
      FindWithinOrder(db.timeline, event.orderId, event.eventId);
      var found := FindEvent(db.timeline, event.eventId);
      if found.Some? {
        UpdateWithinOrder(db.timeline, found.value, event.orderId);
      }
    }
  }

  /** Where the stores are meant to coincide: generated ids are new and event ids name one order. */
  predicate Compatible(db: Database, action: Action) {
    && action.fate.Committed?
    && (match action
        case Submission(order, _, _) => order.key in db.byKey || !Collides(db, order)
        case Delivery(event, _, _) => NamesOneOrder(db, event))
  }

  function StepInMemory(memory: Memory, action: Action): Memory {
    match action
    case Submission(order, now, _) => SubmitTo(memory, order, now)
    case Delivery(event, now, _) => RecordIn(memory, event, now)
  }

  function AfterInMemory(run: seq<Action>): Memory {
    if run == [] then Memory(map[], map[]) else StepInMemory(AfterInMemory(run[..|run| - 1]), run[|run| - 1])
  }

  predicate CompatibleRun(run: seq<Action>) {
    run == [] || (CompatibleRun(run[..|run| - 1]) && Compatible(After(Empty(), run[..|run| - 1]), run[|run| - 1]))
  }

  /** On committed runs both stores hold the same orders, keys, statuses and histories. */
  lemma {:induction false} StoresAgree(run: seq<Action>)
    requires CompatibleRun(run)
    ensures Agrees(After(Empty(), run), AfterInMemory(run))
  {
    if run != [] {
      var earlier, last := run[..|run| - 1], run[|run| - 1];
      StoresAgree(earlier);
      RunKeepsInv(earlier);
      match last
      case Submission(order, now, _) =>
        if order.key in After(Empty(), earlier).byKey {
          RetryKeepsAgreement(After(Empty(), earlier), AfterInMemory(earlier), order, now);
        } else {
          NewOrderKeepsAgreement(After(Empty(), earlier), AfterInMemory(earlier), order, now);
        }
      case Delivery(event, now, _) => RecordKeepsAgreement(After(Empty(), earlier), AfterInMemory(earlier), event, now);
    }
  }

  // The one difference --------------------------------------------------------------------

  /** When the last event was recorded; before any event, the creation. */
  function LastRecordedAt(timeline: seq<Entry>, createdAt: Time): Time {
    if timeline == [] then createdAt else
    var last := timeline[|timeline| - 1];
    if last.kind.Recorded? then last.recordedAt else LastRecordedAt(timeline[..|timeline| - 1], createdAt)
  }

  lemma {:induction false} RedeliveryKeepsLastRecorded(timeline: seq<Entry>, i: nat, createdAt: Time)
    requires i < |timeline|
    ensures LastRecordedAt(timeline[i := Redelivered(timeline[i])], createdAt) == LastRecordedAt(timeline, createdAt)
  {
    var changed := timeline[i := Redelivered(timeline[i])];
    if i == |timeline| - 1 {
      assert changed[..|changed| - 1] == timeline[..|timeline| - 1];
    } else {
      RedeliveryKeepsLastRecorded(timeline[..|timeline| - 1], i, createdAt);
      assert changed[..|changed| - 1] == timeline[..|timeline| - 1][i := Redelivered(timeline[i])];
    }
  }

  lemma OneMoreRow(timeline: seq<Entry>, entry: Entry, createdAt: Time)
    ensures LastRecordedAt(timeline + [entry], createdAt)
            == if entry.kind.Recorded? then entry.recordedAt else LastRecordedAt(timeline, createdAt)
  {
    assert (timeline + [entry])[..|timeline|] == timeline;
  }

  predicate UpdatedWithLastEvent(entry: OrderEntry) {
    entry.order.updatedAt == LastRecordedAt(entry.timeline, entry.order.createdAt)
  }

  lemma StepKeepsUpdateTime(memory: Memory, action: Action, id: Id)
    requires id in StepInMemory(memory, action).orders
    requires id in memory.orders ==> UpdatedWithLastEvent(memory.orders[id])
    ensures UpdatedWithLastEvent(StepInMemory(memory, action).orders[id])
  {
    var next := StepInMemory(memory, action).orders[id];
    if action.Submission? {
      if id in memory.orders && |next.timeline| == |memory.orders[id].timeline| + 1 {
        OneMoreRow(memory.orders[id].timeline, next.timeline[|memory.orders[id].timeline|], next.order.createdAt);
      }
      var first := Entry(id, Accepted, action.now, action.now, 1);
      OneMoreRow([], first, action.now);
      assert [] + [first] == [first];
    } else if action.event.orderId == id {
      var timeline := memory.orders[id].timeline;
      FindEventFinds(timeline, action.event.eventId);
      var found := FindEvent(timeline, action.event.eventId);
      if found.Some? {
        RedeliveryKeepsLastRecorded(timeline, found.value, next.order.createdAt);
      } else {
        OneMoreRow(timeline, next.timeline[|timeline|], next.order.createdAt);
      }
    }
  }

  /** In memory `updatedAt` is when the last event was first recorded, whether it changed the status or not. */
  lemma {:induction false} MemoryUpdatesOnEveryEvent(run: seq<Action>, id: Id)
    requires id in AfterInMemory(run).orders
    ensures UpdatedWithLastEvent(AfterInMemory(run).orders[id])
  {
    var init := run[..|run| - 1];
    if id in AfterInMemory(init).orders {
      MemoryUpdatesOnEveryEvent(init, id);
    }
    StepKeepsUpdateTime(AfterInMemory(init), run[|run| - 1], id);
  }
}
