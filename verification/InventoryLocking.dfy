/**
 * Reservation transactions running concurrently on PostgreSQL: each takes the advisory lock
 * of its order, reads, locks its stock rows in ascending product order, writes into its own
 * uncommitted versions and commits or rolls back. Locks are held until the end.
 */
module InventoryLocking {
  import opened Contracts
  import opened InventoryService
  import InventoryRuns
  import Ordering

  type TransactionId = nat

  /** How far a transaction is; `seen` holds the rows it locked, with the quantities it read. */
  datatype Phase =
    | Waiting                                                            // for the order's lock
    | OrderLocked
    | Found(existing: ReservationRecord)                                 // a duplicate
    | LockingRows(toLock: set<ProductId>, seen: map<ProductId, int>)
    | Decremented(seen: map<ProductId, int>, stock: map<ProductId, int>)
    | Recorded(seen: map<ProductId, int>, stock: map<ProductId, int>, record: ReservationRecord)
    | Enqueued(seen: map<ProductId, int>, stock: map<ProductId, int>, record: ReservationRecord, event: Event)

  datatype Transaction = Transaction(request: Request, phase: Phase)

  /** The committed tables; sequence ids are drawn before commit, so the outbox has no order. */
  datatype Database = Database(
    stock: map<ProductId, int>,
    reservations: map<Id, ReservationRecord>,
    outbox: set<Event>)

  datatype System = System(
    lockKey: Id -> int,                              // any hash of the order id; collisions may happen
    db: Database,
    orderLocks: map<int, TransactionId>,
    rowLocks: map<ProductId, TransactionId>,
    running: map<TransactionId, Transaction>,
    committed: seq<InventoryRuns.Attempt>)           // history: the commits in their order

  datatype Action =
    | Begin(t: TransactionId, request: Request)
    | LockOrder(t: TransactionId)
    | ReadReservation(t: TransactionId)
    | LockRow(t: TransactionId, p: ProductId)
    | Decrement(t: TransactionId)
    | RecordReservation(t: TransactionId)
    | Enqueue(t: TransactionId)
    | Commit(t: TransactionId)
    | Fail(t: TransactionId)                         // the decrement statement is in error
    | Abort(t: TransactionId)                        // a crash or a lost connection, at any time

  function Seen(phase: Phase): map<ProductId, int> {
    if phase.LockingRows? || phase.Decremented? || phase.Recorded? || phase.Enqueued? then phase.seen else map[]
  }

  function Needed(stock: map<ProductId, int>, items: seq<OrderItem>): set<ProductId> {
    set p | p in stock && p in Products(items)
  }

  function NewStock(seen: map<ProductId, int>, items: seq<OrderItem>): map<ProductId, int> {
    map p | p in seen && p in Products(items) :: seen[p] - Total(items, p)
  }

  ghost predicate Enabled(sys: System, action: Action) {
    match action
    case Begin(t, request) => t !in sys.running
    case LockOrder(t) =>
      t in sys.running && sys.running[t].phase.Waiting? &&
      sys.lockKey(sys.running[t].request.source.orderId) !in sys.orderLocks
    case ReadReservation(t) => t in sys.running && sys.running[t].phase.OrderLocked?
    case LockRow(t, p) =>
      t in sys.running && sys.running[t].phase.LockingRows? &&
      Ordering.IsLeast(p, sys.running[t].phase.toLock) && p !in sys.rowLocks && p in sys.db.stock
    case Decrement(t) => CanWrite(sys, t) && !TxInsufficient(sys, t) && !TxDecrementFails(sys, t)
    case Fail(t) => CanWrite(sys, t) && !TxInsufficient(sys, t) && TxDecrementFails(sys, t)
    case RecordReservation(t) =>
      (CanWrite(sys, t) && TxInsufficient(sys, t)) || (t in sys.running && sys.running[t].phase.Decremented?)
    case Enqueue(t) => t in sys.running && sys.running[t].phase.Recorded?
    case Commit(t) => t in sys.running && (sys.running[t].phase.Found? || sys.running[t].phase.Enqueued?)
    case Abort(t) => t in sys.running
  }

  predicate CanWrite(sys: System, t: TransactionId) {
    t in sys.running && sys.running[t].phase.LockingRows? && sys.running[t].phase.toLock == {}
  }

  predicate TxInsufficient(sys: System, t: TransactionId)
    requires CanWrite(sys, t)
  {
    Insufficient(sys.running[t].phase.seen, sys.running[t].request.source.items)
  }

  predicate TxDecrementFails(sys: System, t: TransactionId)
    requires CanWrite(sys, t)
  {
    InventoryRuns.DecrementFails(sys.running[t].phase.seen, sys.running[t].request.source.items)
  }

  function WithPhase(sys: System, t: TransactionId, phase: Phase): System
    requires t in sys.running
  {
    sys.(running := sys.running[t := sys.running[t].(phase := phase)])
  }

  /** Ends the transaction and with it all its locks. */
  function Release(sys: System, t: TransactionId): System {
    sys.(orderLocks := map key | key in sys.orderLocks && sys.orderLocks[key] != t :: sys.orderLocks[key],
    rowLocks := map p | p in sys.rowLocks && sys.rowLocks[p] != t :: sys.rowLocks[p],
    running := map u | u in sys.running && u != t :: sys.running[u])
  }

  function ApplyCommit(sys: System, t: TransactionId): System
    requires t in sys.running
    requires sys.running[t].phase.Found? || sys.running[t].phase.Enqueued?
  {
    var Transaction(request, phase) := sys.running[t];
    var db := if phase.Found? then sys.db else
              Database(sys.db.stock + phase.stock,
                       sys.db.reservations[request.source.orderId := phase.record],
                       sys.db.outbox + {phase.event});
    Release(sys, t).(db := db, committed := sys.committed + [InventoryRuns.Attempt(request, InventoryRuns.Committed)])
  }

  ghost function Apply(sys: System, action: Action): System
    requires Enabled(sys, action)
  {
    match action
    case Begin(t, request) => sys.(running := sys.running[t := Transaction(request, Waiting)])
    case LockOrder(t) =>
      WithPhase(sys, t, OrderLocked)
      .(orderLocks := sys.orderLocks[sys.lockKey(sys.running[t].request.source.orderId) := t])
    case ReadReservation(t) =>
      var source := sys.running[t].request.source;
      WithPhase(sys, t, if source.orderId in sys.db.reservations then Found(sys.db.reservations[source.orderId])
                        else LockingRows(Needed(sys.db.stock, source.items), map[]))
    case LockRow(t, p) =>
      var phase := sys.running[t].phase;
      WithPhase(sys, t, LockingRows(phase.toLock - {p}, phase.seen[p := sys.db.stock[p]]))
      .(rowLocks := sys.rowLocks[p := t])
    case Decrement(t) =>
      var Transaction(request, phase) := sys.running[t];
      WithPhase(sys, t, Decremented(phase.seen, NewStock(phase.seen, request.source.items)))
    case RecordReservation(t) =>
      var Transaction(request, phase) := sys.running[t];
      WithPhase(sys, t, Recorded(phase.seen, if phase.Decremented? then phase.stock else map[],
                                 Record(phase.seen, request)))
    case Enqueue(t) =>
      var Transaction(request, phase) := sys.running[t];
      WithPhase(sys, t, Enqueued(phase.seen, phase.stock, phase.record, ResultEvent(phase.seen, request)))
    case Commit(t) => ApplyCommit(sys, t)
    case Fail(t) => Release(sys, t)
    case Abort(t) => Release(sys, t)
  }

  // ---------------------------------------------------------------------------------------
  // The invariant
  // ---------------------------------------------------------------------------------------

  predicate HoldsOrder(sys: System, t: TransactionId)
    requires t in sys.running
  {
    var key := sys.lockKey(sys.running[t].request.source.orderId);
    key in sys.orderLocks && sys.orderLocks[key] == t
  }

  /** What the transaction locked is its own and still reads as it did. */
  predicate SeenInv(sys: System, t: TransactionId, seen: map<ProductId, int>) {
    forall p :: p in seen ==>
                  && p in sys.rowLocks && sys.rowLocks[p] == t
                  && p in sys.db.stock && sys.db.stock[p] == seen[p]
  }

  predicate WritesInv(phase: Phase, request: Request)
  {
    var items := request.source.items;
    match phase
    case Decremented(seen, stock) =>
      !Insufficient(seen, items) && !InventoryRuns.DecrementFails(seen, items) && stock == NewStock(seen, items)
    case Recorded(seen, stock, record) =>
      && record == Record(seen, request)
      && (if Insufficient(seen, items) then stock == map[]
          else !InventoryRuns.DecrementFails(seen, items) && stock == NewStock(seen, items))
    case Enqueued(seen, stock, record, event) =>
      && record == Record(seen, request)
      && event == ResultEvent(seen, request)
      && (if Insufficient(seen, items) then stock == map[]
          else !InventoryRuns.DecrementFails(seen, items) && stock == NewStock(seen, items))
    case _ => true
  }

  predicate TransactionInv(sys: System, t: TransactionId)
    requires t in sys.running
  {
    var Transaction(request, phase) := sys.running[t];
    && (!phase.Waiting? ==> HoldsOrder(sys, t))
    && SeenInv(sys, t, Seen(phase))
    && (phase.Found? ==> request.source.orderId in sys.db.reservations)
    && (!phase.Waiting? && !phase.OrderLocked? && !phase.Found? ==>
          && request.source.orderId !in sys.db.reservations
          && Seen(phase).Keys + (if phase.LockingRows? then phase.toLock else {})
             == Needed(sys.db.stock, request.source.items)
          && WritesInv(phase, request))
    && (phase.LockingRows? ==> forall p, q :: p in phase.seen && q in phase.toLock ==> p < q)
  }

  ghost predicate LocksInv(sys: System) {
    && (forall key :: key in sys.orderLocks ==>
                        && sys.orderLocks[key] in sys.running
                        && !sys.running[sys.orderLocks[key]].phase.Waiting?
                        && sys.lockKey(sys.running[sys.orderLocks[key]].request.source.orderId) == key)
    && (forall p :: p in sys.rowLocks ==>
                      && sys.rowLocks[p] in sys.running
                      && p in Seen(sys.running[sys.rowLocks[p]].phase))
  }

  /** The tables are what the copy-and-swap store would hold after the committed requests. */
  ghost predicate SerialInv(sys: System, initialStock: map<ProductId, int>) {
    var serial := InventoryRuns.After(InventoryState(initialStock, map[], []), sys.committed);
    && sys.db.stock == serial.stock
    && sys.db.reservations == serial.reservations
    && sys.db.outbox == set i | 0 <= i < |serial.outbox| :: serial.outbox[i]
  }

  ghost predicate Inv(sys: System, initialStock: map<ProductId, int>) {
    && (forall t :: t in sys.running ==> TransactionInv(sys, t))
    && LocksInv(sys)
    && SerialInv(sys, initialStock)
  }

  function Initial(lockKey: Id -> int, initialStock: map<ProductId, int>): System {
    System(lockKey, Database(initialStock, map[], {}), map[], map[], map[], [])
  }

  lemma OnlyOneHoldsOrder(sys: System, t: TransactionId, u: TransactionId)
    requires t in sys.running && u in sys.running && HoldsOrder(sys, t) && HoldsOrder(sys, u)
    requires sys.running[t].request.source.orderId == sys.running[u].request.source.orderId
    ensures t == u
  {
  }

  lemma InsufficientBySeen(seen: map<ProductId, int>, stock: map<ProductId, int>, items: seq<OrderItem>)
    requires seen.Keys == Needed(stock, items)
    requires forall p :: p in seen ==> stock[p] == seen[p]
    ensures seen == map p | p in stock && p in Products(items) :: stock[p]
    ensures Insufficient(seen, items) <==> Insufficient(stock, items)
    ensures Unavailable(items, seen, Products(items)) == Unavailable(items, stock, Products(items))
  {
    LockedStockDecides(items, stock, seen);
    NothingShort(items, seen, Products(items));
  }

  /** The uncommitted stock rows, once visible, are the decremented stock. */
  lemma WrittenStock(seen: map<ProductId, int>, stock: map<ProductId, int>, items: seq<OrderItem>)
    requires seen.Keys == Needed(stock, items)
    requires forall p :: p in seen ==> stock[p] == seen[p]
    requires !InventoryRuns.DecrementFails(seen, items)
    ensures stock + NewStock(seen, items) == InventoryService.Decremented(stock, items)
    ensures NewStock(seen, items).Keys <= stock.Keys
  {
    assert forall p :: p in Products(items) ==> p in seen;
  }

  /** A committed reservation is the serial reservation on the tables as they are at that moment. */
  lemma CommitIsSerial(sys: System, t: TransactionId, serial: InventoryState)
    requires t in sys.running && TransactionInv(sys, t) && sys.running[t].phase.Enqueued?
    requires sys.db.stock == serial.stock && sys.db.reservations == serial.reservations
    ensures var phase := sys.running[t].phase;
            var request := sys.running[t].request;
            Reserve(serial, request) == InventoryState(
              serial.stock + phase.stock,
              serial.reservations[request.source.orderId := phase.record],
              serial.outbox + [phase.event])
    ensures (sys.db.stock + sys.running[t].phase.stock).Keys == sys.db.stock.Keys
  {
    var Transaction(request, phase) := sys.running[t];
    var items := request.source.items;
    InsufficientBySeen(phase.seen, serial.stock, items);
    if Insufficient(phase.seen, items) {
      assert serial.stock + phase.stock == serial.stock;
    } else {
      WrittenStock(phase.seen, serial.stock, items);
    }
  }

  lemma CommitKeepsSerialInv(sys: System, t: TransactionId, initialStock: map<ProductId, int>)
    requires Inv(sys, initialStock) && Enabled(sys, Commit(t))
    ensures SerialInv(ApplyCommit(sys, t), initialStock)
    ensures ApplyCommit(sys, t).db.stock.Keys == sys.db.stock.Keys
  {
    var Transaction(request, phase) := sys.running[t];
    var next := ApplyCommit(sys, t);
    var start := InventoryState(initialStock, map[], []);
    var serial := InventoryRuns.After(start, sys.committed);
    assert TransactionInv(sys, t);
    assert next.committed[..|next.committed| - 1] == sys.committed;
    assert InventoryRuns.After(start, next.committed) == Reserve(serial, request);
    if phase.Enqueued? {
      CommitIsSerial(sys, t, serial);
      var outbox := serial.outbox + [phase.event];
      assert forall i :: 0 <= i < |serial.outbox| ==> outbox[i] == serial.outbox[i];
      assert outbox[|serial.outbox|] == phase.event;
      assert next.db.outbox == set i | 0 <= i < |outbox| :: outbox[i];
    }
  }

  /** The tables changed, but not where transaction `u` looks. */
  lemma TablesChanged(sys: System, next: System, u: TransactionId)
    requires u in sys.running && u in next.running && next.running[u] == sys.running[u]
    requires TransactionInv(sys, u) && next.lockKey == sys.lockKey
    requires HoldsOrder(sys, u) ==> HoldsOrder(next, u)
    requires SeenInv(next, u, Seen(sys.running[u].phase))
    requires next.db.stock.Keys == sys.db.stock.Keys
    requires var order := sys.running[u].request.source.orderId;
             && (order in sys.db.reservations ==> order in next.db.reservations)
             && (HoldsOrder(sys, u) ==> (order in sys.db.reservations <==> order in next.db.reservations))
    ensures TransactionInv(next, u)
  {
  }

  lemma CommitKeepsSeen(sys: System, t: TransactionId, u: TransactionId)
    requires Enabled(sys, Commit(t)) && u in sys.running && u != t
    requires TransactionInv(sys, t) && TransactionInv(sys, u)
    ensures SeenInv(ApplyCommit(sys, t), u, Seen(sys.running[u].phase))
  {
    var phase := sys.running[t].phase;
    if phase.Enqueued? {
      assert forall p :: p in phase.stock ==> p in phase.seen && sys.rowLocks[p] == t;
      assert forall p :: p in Seen(sys.running[u].phase) ==> p !in phase.stock;
    }
  }

  /** Other transactions see nothing of a commit: their rows and their order are locked. */
  lemma CommitKeepsOthers(sys: System, t: TransactionId, initialStock: map<ProductId, int>, u: TransactionId)
    requires Inv(sys, initialStock) && Enabled(sys, Commit(t))
    requires u in sys.running && u != t
    ensures u in ApplyCommit(sys, t).running && TransactionInv(ApplyCommit(sys, t), u)
  {
    var next := ApplyCommit(sys, t);
    assert TransactionInv(sys, t) && TransactionInv(sys, u);
    CommitKeepsSerialInv(sys, t, initialStock);
    CommitKeepsSeen(sys, t, u);
    if HoldsOrder(sys, u) && sys.running[u].request.source.orderId == sys.running[t].request.source.orderId {
      OnlyOneHoldsOrder(sys, t, u);
    }
    TablesChanged(sys, next, u);
  }

  lemma EndKeepsLocks(sys: System, t: TransactionId)
    requires LocksInv(sys)
    ensures LocksInv(Release(sys, t))
  {
  }

  lemma EndKeepsOthers(sys: System, t: TransactionId, u: TransactionId)
    requires u in sys.running && u != t && TransactionInv(sys, u)
    ensures u in Release(sys, t).running && TransactionInv(Release(sys, t), u)
  {
  }

  /** A step of `t` that changes no table leaves every other transaction as it was. */
  lemma OthersKept(sys: System, next: System, t: TransactionId, u: TransactionId)
    requires u in sys.running && u in next.running && u != t
    requires TransactionInv(sys, u) && next.running[u] == sys.running[u]
    requires next.db == sys.db && next.lockKey == sys.lockKey
    requires forall key :: key in sys.orderLocks ==> key in next.orderLocks && next.orderLocks[key] == sys.orderLocks[key]
    requires forall p :: p in sys.rowLocks ==> p in next.rowLocks && next.rowLocks[p] == sys.rowLocks[p]
    ensures TransactionInv(next, u)
  {
  }

  /** The reading and writing steps between the first lock and the end. */
  lemma OwnStepKeepsInv(sys: System, action: Action)
    requires Enabled(sys, action)
    requires action.ReadReservation? || action.Decrement? || action.RecordReservation? || action.Enqueue?
    requires action.t in sys.running && TransactionInv(sys, action.t)
    ensures action.t in Apply(sys, action).running && TransactionInv(Apply(sys, action), action.t)
  {
  }

  lemma LockStepKeepsInv(sys: System, action: Action)
    requires Enabled(sys, action)
    requires action.LockOrder? || action.LockRow?
    requires action.t in sys.running && TransactionInv(sys, action.t)
    ensures action.t in Apply(sys, action).running && TransactionInv(Apply(sys, action), action.t)
  {
  }

  lemma LockStepKeepsLocks(sys: System, action: Action)
    requires Enabled(sys, action)
    requires action.LockOrder? || action.LockRow?
    requires LocksInv(sys) && action.t in sys.running && TransactionInv(sys, action.t)
    ensures LocksInv(Apply(sys, action))
  {
  }

  lemma OwnStepKeepsLocks(sys: System, action: Action)
    requires Enabled(sys, action)
    requires action.Begin? || action.ReadReservation? || action.Decrement? || action.RecordReservation? || action.Enqueue?
    requires LocksInv(sys) && (action.t in sys.running ==> TransactionInv(sys, action.t))
    ensures LocksInv(Apply(sys, action))
  {
    if !action.Begin? {
      SeenOnlyGrows(sys, action);
    }
  }

  lemma SeenOnlyGrows(sys: System, action: Action)
    requires Enabled(sys, action)
    requires action.ReadReservation? || action.Decrement? || action.RecordReservation? || action.Enqueue?
    ensures action.t in Apply(sys, action).running
    ensures Seen(sys.running[action.t].phase).Keys <= Seen(Apply(sys, action).running[action.t].phase).Keys
    ensures Apply(sys, action).orderLocks == sys.orderLocks && Apply(sys, action).rowLocks == sys.rowLocks
    ensures !Apply(sys, action).running[action.t].phase.Waiting?
    ensures Apply(sys, action).running[action.t].request == sys.running[action.t].request
  {
  }

  lemma CommitKeepsInv(sys: System, t: TransactionId, initialStock: map<ProductId, int>)
    requires Inv(sys, initialStock) && Enabled(sys, Commit(t))
    ensures Inv(Apply(sys, Commit(t)), initialStock)
  {
    var next := ApplyCommit(sys, t);
    CommitKeepsSerialInv(sys, t, initialStock);
    EndKeepsLocks(sys, t);
    assert LocksInv(next);
    forall u | u in next.running
      ensures TransactionInv(next, u)
    {
      CommitKeepsOthers(sys, t, initialStock, u);
    }
  }

  lemma EndKeepsInv(sys: System, t: TransactionId, initialStock: map<ProductId, int>)
    requires Inv(sys, initialStock) && t in sys.running
    ensures Inv(Release(sys, t), initialStock)
  {
    EndKeepsLocks(sys, t);
    forall u | u in Release(sys, t).running
      ensures TransactionInv(Release(sys, t), u)
    {
      EndKeepsOthers(sys, t, u);
    }
  }

  /** Until its end a transaction only changes its own phase and takes locks. */
  lemma StepIsLocal(sys: System, action: Action)
    requires Enabled(sys, action) && !action.Commit? && !action.Fail? && !action.Abort?
    ensures var next := Apply(sys, action);
            && next.db == sys.db && next.committed == sys.committed && next.lockKey == sys.lockKey
            && (forall u :: u in next.running && u != action.t ==> u in sys.running && next.running[u] == sys.running[u])
            && (forall key :: key in sys.orderLocks ==> key in next.orderLocks && next.orderLocks[key] == sys.orderLocks[key])
            && (forall p :: p in sys.rowLocks ==> p in next.rowLocks && next.rowLocks[p] == sys.rowLocks[p])
  {
  }

  lemma LocalStepKeepsInv(sys: System, action: Action, initialStock: map<ProductId, int>)
    requires Inv(sys, initialStock) && Enabled(sys, action) && !action.Commit? && !action.Fail? && !action.Abort?
    ensures Inv(Apply(sys, action), initialStock)
  {
    var t, next := action.t, Apply(sys, action);
    StepIsLocal(sys, action);
    if action.LockOrder? || action.LockRow? {
      LockStepKeepsLocks(sys, action);
      LockStepKeepsInv(sys, action);
    } else {
      OwnStepKeepsLocks(sys, action);
      if !action.Begin? {
        OwnStepKeepsInv(sys, action);
      }
    }
    forall u | u in next.running && u != t
      ensures TransactionInv(next, u)
    {
      OthersKept(sys, next, t, u);
    }
  }

  lemma StepKeepsInv(sys: System, action: Action, initialStock: map<ProductId, int>)
    requires Inv(sys, initialStock) && Enabled(sys, action)
    ensures Inv(Apply(sys, action), initialStock)
  {
    if action.Commit? {
      CommitKeepsInv(sys, action.t, initialStock);
    } else if action.Fail? || action.Abort? {
      EndKeepsInv(sys, action.t, initialStock);
    } else {
      LocalStepKeepsInv(sys, action, initialStock);
    }
  }

  // ---------------------------------------------------------------------------------------
  // Serialisability
  // ---------------------------------------------------------------------------------------

  ghost predicate ValidRun(sys: System, run: seq<Action>)
    decreases |run|
  {
    run == [] || (Enabled(sys, run[0]) && ValidRun(Apply(sys, run[0]), run[1..]))
  }

  ghost function After(sys: System, run: seq<Action>): System
    requires ValidRun(sys, run)
    decreases |run|
  {
    if run == [] then sys else After(Apply(sys, run[0]), run[1..])
  }

  lemma {:induction false} RunKeepsInv(sys: System, run: seq<Action>, initialStock: map<ProductId, int>)
    requires Inv(sys, initialStock) && ValidRun(sys, run)
    ensures Inv(After(sys, run), initialStock)
    decreases |run|
  {
    if run != [] {
      StepKeepsInv(sys, run[0], initialStock);
      RunKeepsInv(Apply(sys, run[0]), run[1..], initialStock);
    }
  }

  lemma ReachableInv(lockKey: Id -> int, initialStock: map<ProductId, int>, run: seq<Action>)
    requires ValidRun(Initial(lockKey, initialStock), run)
    ensures Inv(After(Initial(lockKey, initialStock), run), initialStock)
  {
    RunKeepsInv(Initial(lockKey, initialStock), run, initialStock);
  }

  predicate AsksFor(sys: System, t: TransactionId, p: ProductId)
    requires t in sys.running
  {
    var items := sys.running[t].request.source.items;
    exists i :: 0 <= i < |items| && items[i].productId == p
  }

  lemma HolderAsks(sys: System, p: ProductId, initialStock: map<ProductId, int>)
    requires Inv(sys, initialStock) && p in sys.rowLocks
    ensures sys.rowLocks[p] in sys.running && AsksFor(sys, sys.rowLocks[p], p)
  {
    var t := sys.rowLocks[p];
    assert TransactionInv(sys, t) && p in Seen(sys.running[t].phase);
    ProductsAreThoseOfItems(sys.running[t].request.source.items, p);
  }

  lemma WriterHasItsRows(sys: System, t: TransactionId, p: ProductId, initialStock: map<ProductId, int>)
    requires Inv(sys, initialStock) && CanWrite(sys, t) && p in sys.db.stock && AsksFor(sys, t, p)
    ensures p in sys.rowLocks && sys.rowLocks[p] == t
  {
    assert TransactionInv(sys, t);
    ProductsAreThoseOfItems(sys.running[t].request.source.items, p);
    assert p in Seen(sys.running[t].phase);
  }

  /**
   * A row lock is held by a running transaction that asks for the product, and who is past its
   * row locks has every known product it asks for: no order waits for another one's products.
   */
  lemma OnlyRequestedRowsAreLocked(
    lockKey: Id -> int, initialStock: map<ProductId, int>, run: seq<Action>, p: ProductId)
    requires ValidRun(Initial(lockKey, initialStock), run)
    ensures var sys := After(Initial(lockKey, initialStock), run);
            && (p in sys.rowLocks ==>
                  sys.rowLocks[p] in sys.running && AsksFor(sys, sys.rowLocks[p], p))
            && (forall t :: CanWrite(sys, t) && p in sys.db.stock && AsksFor(sys, t, p) ==>
                              p in sys.rowLocks && sys.rowLocks[p] == t)
  {
    ReachableInv(lockKey, initialStock, run);
    var sys := After(Initial(lockKey, initialStock), run);
    if p in sys.rowLocks {
      HolderAsks(sys, p, initialStock);
    }
    forall t | CanWrite(sys, t) && p in sys.db.stock && AsksFor(sys, t, p)
      ensures p in sys.rowLocks && sys.rowLocks[p] == t
    {
      WriterHasItsRows(sys, t, p, initialStock);
    }
  }

  /** The requests of a run's commits, in commit order. */
  ghost function CommitsOf(sys: System, run: seq<Action>): seq<InventoryRuns.Attempt>
    requires ValidRun(sys, run)
    decreases |run|
  {
    if run == [] then [] else
    (if run[0].Commit? then [InventoryRuns.Attempt(sys.running[run[0].t].request, InventoryRuns.Committed)] else [])
    + CommitsOf(Apply(sys, run[0]), run[1..])
  }

  lemma {:induction false} CommittedWereCommits(sys: System, run: seq<Action>)
    requires ValidRun(sys, run)
    ensures After(sys, run).committed == sys.committed + CommitsOf(sys, run)
    decreases |run|
  {
    if run != [] {
      CommittedWereCommits(Apply(sys, run[0]), run[1..]);
    }
  }

  /**
   * However the transactions interleave, and whichever of them abort, the tables hold what
   * the copy-and-swap store holds after the run's committed requests in commit order.
   */
  lemma InterleavingsAreSerial(lockKey: Id -> int, initialStock: map<ProductId, int>, run: seq<Action>)
    requires ValidRun(Initial(lockKey, initialStock), run)
    ensures var start := Initial(lockKey, initialStock);
            var sys := After(start, run);
            var serial := InventoryRuns.After(InventoryState(initialStock, map[], []), CommitsOf(start, run));
            && sys.committed == CommitsOf(start, run)
            && sys.db.stock == serial.stock
            && sys.db.reservations == serial.reservations
            && sys.db.outbox == set i | 0 <= i < |serial.outbox| :: serial.outbox[i]
  {
    ReachableInv(lockKey, initialStock, run);
    CommittedWereCommits(Initial(lockKey, initialStock), run);
  }

  /** So conservation and one decision per order carry over to concurrent transactions. */
  lemma ConcurrentStockIsConserved(
    lockKey: Id -> int, initialStock: map<ProductId, int>, run: seq<Action>, p: ProductId)
    requires ValidRun(Initial(lockKey, initialStock), run)
    requires InventoryRuns.NonNegative(initialStock)
    ensures var sys := After(Initial(lockKey, initialStock), run);
            && Get(initialStock, p) == Get(sys.db.stock, p) + InventoryRuns.KeptByAll(sys.db.reservations, p)
            && Get(sys.db.stock, p) >= 0
  {
    InterleavingsAreSerial(lockKey, initialStock, run);
    var sys := After(Initial(lockKey, initialStock), run);
    InventoryRuns.StockIsConserved(initialStock, sys.committed, p);
    InventoryRuns.StockStaysNonNegative(InventoryState(initialStock, map[], []), sys.committed);
  }

  /** The primary key is a backstop that the order lock never lets anyone hit. */
  lemma PrimaryKeyNeverViolated(
    lockKey: Id -> int, initialStock: map<ProductId, int>, run: seq<Action>, t: TransactionId)
    requires ValidRun(Initial(lockKey, initialStock), run)
    requires Enabled(After(Initial(lockKey, initialStock), run), RecordReservation(t))
    ensures var sys := After(Initial(lockKey, initialStock), run);
            var order := sys.running[t].request.source.orderId;
            && order !in sys.db.reservations
            && forall u :: u in sys.running && u != t && sys.running[u].request.source.orderId == order ==>
                             sys.running[u].phase.Waiting?
  {
    ReachableInv(lockKey, initialStock, run);
    var sys := After(Initial(lockKey, initialStock), run);
    assert TransactionInv(sys, t);
    forall u | u in sys.running && u != t && sys.running[u].request.source.orderId == sys.running[t].request.source.orderId
      ensures sys.running[u].phase.Waiting?
    {
      assert TransactionInv(sys, u);
    }
  }

  // ---------------------------------------------------------------------------------------
  // The decrement never fails
  // ---------------------------------------------------------------------------------------

  /** The requests the message contract lets through. */
  predicate ValidRequests(run: seq<Action>) {
    forall i :: 0 <= i < |run| && run[i].Begin? ==> InventoryRuns.Positive(run[i].request.source.items)
  }

  ghost predicate BoundsInv(sys: System) {
    && InventoryRuns.WithinBounds(sys.db.stock)
    && (forall t :: t in sys.running ==> InventoryRuns.Positive(sys.running[t].request.source.items))
  }

  lemma NewStockWithinBounds(seen: map<ProductId, int>, items: seq<OrderItem>)
    requires InventoryRuns.Positive(items) && InventoryRuns.WithinBounds(seen) && !Insufficient(seen, items)
    ensures InventoryRuns.WithinBounds(NewStock(seen, items))
  {
    InventoryRuns.ValidOrdersDecrementCleanly(seen, items);
  }

  /** What the transaction is about to commit stays within the column. */
  lemma WritesWithinBounds(sys: System, t: TransactionId)
    requires t in sys.running && TransactionInv(sys, t) && BoundsInv(sys) && sys.running[t].phase.Enqueued?
    ensures InventoryRuns.WithinBounds(sys.running[t].phase.stock)
  {
    var Transaction(request, phase) := sys.running[t];
    assert WritesInv(phase, request) && SeenInv(sys, t, phase.seen);
    if !Insufficient(phase.seen, request.source.items) {
      NewStockWithinBounds(phase.seen, request.source.items);
    }
  }

  lemma CommitKeepsBounds(sys: System, t: TransactionId)
    requires BoundsInv(sys) && Enabled(sys, Commit(t)) && TransactionInv(sys, t)
    ensures InventoryRuns.WithinBounds(ApplyCommit(sys, t).db.stock)
  {
    if sys.running[t].phase.Enqueued? {
      WritesWithinBounds(sys, t);
    }
  }

  lemma StepKeepsBounds(sys: System, action: Action, initialStock: map<ProductId, int>)
    requires Inv(sys, initialStock) && BoundsInv(sys) && Enabled(sys, action)
    requires action.Begin? ==> InventoryRuns.Positive(action.request.source.items)
    ensures BoundsInv(Apply(sys, action))
  {
    if action.Commit? {
      CommitKeepsBounds(sys, action.t);
    }
  }

  lemma {:induction false} RunKeepsBounds(sys: System, run: seq<Action>, initialStock: map<ProductId, int>)
    requires Inv(sys, initialStock) && BoundsInv(sys) && ValidRun(sys, run) && ValidRequests(run)
    ensures BoundsInv(After(sys, run))
    decreases |run|
  {
    if run != [] {
      StepKeepsInv(sys, run[0], initialStock);
      StepKeepsBounds(sys, run[0], initialStock);
      assert ValidRequests(run[1..]);
      RunKeepsBounds(Apply(sys, run[0]), run[1..], initialStock);
    }
  }

  /**
   * Over every run of contract-valid requests from a stock that the column can hold, no
   * decrement statement ever misses a row or overflows, however the transactions interleave.
   */
  lemma DecrementNeverFails(
    lockKey: Id -> int, initialStock: map<ProductId, int>, run: seq<Action>, t: TransactionId)
    requires ValidRun(Initial(lockKey, initialStock), run)
    requires InventoryRuns.WithinBounds(initialStock) && ValidRequests(run)
    ensures var sys := After(Initial(lockKey, initialStock), run);
            && !Enabled(sys, Fail(t))
            && InventoryRuns.WithinBounds(sys.db.stock)
  {
    var start := Initial(lockKey, initialStock);
    ReachableInv(lockKey, initialStock, run);
    RunKeepsBounds(start, run, initialStock);
    var sys := After(start, run);
    if CanWrite(sys, t) && !TxInsufficient(sys, t) {
      assert TransactionInv(sys, t);
      InventoryRuns.ValidOrdersDecrementCleanly(sys.running[t].phase.seen, sys.running[t].request.source.items);
    }
  }

  // ---------------------------------------------------------------------------------------
  // Deadlock freedom
  // ---------------------------------------------------------------------------------------

  /** Waiting for a lock that someone holds. */
  ghost predicate Blocked(sys: System, t: TransactionId)
    requires t in sys.running
  {
    BlockedOnOrder(sys, t) || exists p :: BlockedOnRow(sys, t, p)
  }

  predicate BlockedOnOrder(sys: System, t: TransactionId)
    requires t in sys.running
  {
    sys.running[t].phase.Waiting? && sys.lockKey(sys.running[t].request.source.orderId) in sys.orderLocks
  }

  ghost predicate BlockedOnRow(sys: System, t: TransactionId, p: ProductId)
    requires t in sys.running
  {
    sys.running[t].phase.LockingRows? && Ordering.IsLeast(p, sys.running[t].phase.toLock) && p in sys.rowLocks
  }

  /** A step of the transaction itself, not an abort from outside. */
  ghost predicate CanStep(sys: System, t: TransactionId) {
    exists action :: Enabled(sys, action) && action.t == t && !action.Begin? && !action.Abort?
  }

  lemma UnblockedCanStep(sys: System, t: TransactionId)
    requires t in sys.running && TransactionInv(sys, t) && !Blocked(sys, t)
    ensures CanStep(sys, t)
  {
    var phase := sys.running[t].phase;
    match phase
    case Waiting => assert Enabled(sys, LockOrder(t));
    case OrderLocked => assert Enabled(sys, ReadReservation(t));
    case Found(_) => assert Enabled(sys, Commit(t));
    case LockingRows(toLock, _) =>
      if toLock == {} {
        assert Enabled(sys, Decrement(t)) || Enabled(sys, Fail(t)) || Enabled(sys, RecordReservation(t));
      } else {
        var p := Ordering.Least(toLock);
        assert !BlockedOnRow(sys, t, p);
        assert Enabled(sys, LockRow(t, p));
      }
    case Decremented(_, _) => assert Enabled(sys, RecordReservation(t));
    case Recorded(_, _, _) => assert Enabled(sys, Enqueue(t));
    case Enqueued(_, _, _, _) => assert Enabled(sys, Commit(t));
  }

  lemma LockHolders(sys: System)
    requires LocksInv(sys)
    ensures forall key :: key in sys.orderLocks ==>
                            sys.orderLocks[key] in sys.running && !BlockedOnOrder(sys, sys.orderLocks[key])
    ensures forall p :: p in sys.rowLocks ==>
                          sys.rowLocks[p] in sys.running && !BlockedOnOrder(sys, sys.rowLocks[p])
  {
  }

  /** Whoever holds the row that is waited for waits, if at all, for a later row. */
  lemma HolderWaitsHigher(sys: System, p: ProductId, q: ProductId)
    requires LocksInv(sys) && p in sys.rowLocks && sys.rowLocks[p] in sys.running
    requires TransactionInv(sys, sys.rowLocks[p]) && BlockedOnRow(sys, sys.rowLocks[p], q)
    ensures q > p
  {
    assert p in Seen(sys.running[sys.rowLocks[p]].phase);
  }

  function LockedAbove(sys: System, p: ProductId): set<ProductId> {
    set q | q in sys.rowLocks && q > p
  }

  lemma FewerAbove(sys: System, p: ProductId, q: ProductId)
    requires p < q && q in sys.rowLocks
    ensures |LockedAbove(sys, q)| < |LockedAbove(sys, p)|
  {
    SmallerSubset(LockedAbove(sys, q), LockedAbove(sys, p), q);
  }

  ghost predicate Running(sys: System, t: TransactionId) {
    t in sys.running && !Blocked(sys, t)
  }

  /** Follows the chain of waits upwards, through ever later rows, to a transaction that runs. */
  lemma {:induction false} FollowWaits(sys: System, p: ProductId) returns (u: TransactionId)
    requires LocksInv(sys) && forall t :: t in sys.running ==> TransactionInv(sys, t)
    requires p in sys.rowLocks
    ensures Running(sys, u)
    decreases |LockedAbove(sys, p)|
  {
    LockHolders(sys);
    u := sys.rowLocks[p];
    if Blocked(sys, u) {
      var q :| BlockedOnRow(sys, u, q);
      HolderWaitsHigher(sys, p, q);
      FewerAbove(sys, p, q);
      u := FollowWaits(sys, q);
    }
  }

  lemma SmallerSubset(small: set<ProductId>, large: set<ProductId>, extra: ProductId)
    requires extra in large && small <= large - {extra}
    ensures |small| < |large|
  {
    var rest := large - {extra} - small;
    assert large == small + rest + {extra};
    assert |large| == |small| + |rest| + 1;
  }

  /**
   * No deadlock: as long as a transaction is unfinished, some transaction is not blocked and
   * has a step of its own to take.
   */
  lemma SomeTransactionCanStep(lockKey: Id -> int, initialStock: map<ProductId, int>, run: seq<Action>)
    requires ValidRun(Initial(lockKey, initialStock), run)
    requires After(Initial(lockKey, initialStock), run).running != map[]
    ensures var sys := After(Initial(lockKey, initialStock), run);
            exists t :: t in sys.running && CanStep(sys, t)
  {
    ReachableInv(lockKey, initialStock, run);
    var sys := After(Initial(lockKey, initialStock), run);
    var t := SomeoneIsUnblocked(sys, initialStock);
    assert TransactionInv(sys, t);
    UnblockedCanStep(sys, t);
  }

  lemma SomeoneIsUnblocked(sys: System, initialStock: map<ProductId, int>) returns (u: TransactionId)
    requires Inv(sys, initialStock) && sys.running != map[]
    ensures Running(sys, u)
  {
    u :| u in sys.running;
    LockHolders(sys);
    if BlockedOnOrder(sys, u) {
      var key := sys.lockKey(sys.running[u].request.source.orderId);
      assert key in sys.orderLocks;
      u := sys.orderLocks[key];
    }
    assert u in sys.running && !BlockedOnOrder(sys, u);
    if p :| BlockedOnRow(sys, u, p) {
      u := FollowWaits(sys, p);
    }
  }

  /** The steps a transaction can still take before it is over. */
  function StepsLeft(transaction: Transaction): nat {
    match transaction.phase
    case Waiting => |Products(transaction.request.source.items)| + 6
    case OrderLocked => |Products(transaction.request.source.items)| + 5
    case LockingRows(toLock, _) => |toLock| + 4
    case Decremented(_, _) => 3
    case Recorded(_, _, _) => 2
    case Enqueued(_, _, _, _) => 1
    case Found(_) => 1
  }

  lemma {:induction false} FewDistinct(products: seq<ProductId>, some: set<ProductId>)
    requires forall p :: p in some ==> p in products
    ensures |some| <= |products|
  {
    if products == [] {
      assert some == {};
    } else {
      var last := products[|products| - 1];
      assert products == products[..|products| - 1] + [last];
      FewDistinct(products[..|products| - 1], some - {last});
    }
  }

  /** Every step brings its own transaction closer to its end and no other further from it. */
  lemma StepsAreFinite(sys: System, action: Action, u: TransactionId)
    requires Enabled(sys, action) && !action.Begin? && u in sys.running
    ensures u in Apply(sys, action).running ==>
              if u == action.t then StepsLeft(Apply(sys, action).running[u]) < StepsLeft(sys.running[u])
              else Apply(sys, action).running[u] == sys.running[u]
  {
    if action.ReadReservation? {
      var items := sys.running[action.t].request.source.items;
      FewDistinct(Products(items), Needed(sys.db.stock, items));
    }
  }
}
