/** What holds of the inventory over every sequence of handling attempts. */
module InventoryRuns {
  import opened Contracts
  import opened InventoryService

  /** An attempt's transaction commits, commits with its reply lost, or leaves nothing behind. */
  datatype Fate = Committed | CommittedReplyLost | RolledBack

  datatype Attempt = Attempt(request: Request, fate: Fate)

  function Handle(state: InventoryState, attempt: Attempt): InventoryState
  {
    if attempt.fate.RolledBack? then state else Reserve(state, attempt.request)
  }

  function After(state: InventoryState, attempts: seq<Attempt>): InventoryState
  {
    if attempts == [] then state
    else Handle(After(state, attempts[..|attempts| - 1]), attempts[|attempts| - 1])
  }

  lemma {:induction false} AttemptsCompose(state: InventoryState, first: seq<Attempt>, second: seq<Attempt>)
    ensures After(state, first + second) == After(After(state, first), second)
  {
    if second == [] {
      assert first + second == first;
    } else {
      assert (first + second)[..|first + second| - 1] == first + second[..|second| - 1];
      AttemptsCompose(state, first, second[..|second| - 1]);
    }
  }

  // Conservation --------------------------------------------------------------------------

  /** What one record keeps of a product. */
  function Kept(record: ReservationRecord, p: ProductId): int {
    if record.status.Reserved? then Total(record.items, p) else 0
  }

  ghost function KeptByAll(records: map<Id, ReservationRecord>, p: ProductId): int
    decreases |records|
  {
    if records == map[] then 0 else
    var order :| order in records;
    Kept(records[order], p) + KeptByAll(records - {order}, p)
  }

  lemma {:induction false} KeptByOneLess(records: map<Id, ReservationRecord>, p: ProductId, order: Id)
    requires order in records
    ensures KeptByAll(records, p) == Kept(records[order], p) + KeptByAll(records - {order}, p)
    decreases |records|
  {
    var chosen :| chosen in records && KeptByAll(records, p) == Kept(records[chosen], p) + KeptByAll(records - {chosen}, p);
    if chosen != order {
      KeptByOneLess(records - {chosen}, p, order);
      KeptByOneLess(records - {order}, p, chosen);
      assert records - {chosen} - {order} == records - {order} - {chosen};
    }
  }

  lemma KeptByOneMore(records: map<Id, ReservationRecord>, p: ProductId, record: ReservationRecord, order: Id)
    requires order !in records
    ensures KeptByAll(records[order := record], p) == KeptByAll(records, p) + Kept(record, p)
  {
    KeptByOneLess(records[order := record], p, order);
    assert records[order := record] - {order} == records;
  }

  lemma ReserveConserves(state: InventoryState, request: Request, p: ProductId)
    ensures Get(Reserve(state, request).stock, p) + KeptByAll(Reserve(state, request).reservations, p)
            == Get(state.stock, p) + KeptByAll(state.reservations, p)
  {
    var order, items := request.source.orderId, request.source.items;
    if order !in state.reservations {
      KeptByOneMore(state.reservations, p, Record(state.stock, request), order);
      ProductsAreThoseOfItems(items, p);
    }
  }

  /** Stock is never created or lost: what is gone from the shelf is kept by reserved orders. */
  lemma {:induction false} StockIsConserved(initialStock: map<ProductId, int>, attempts: seq<Attempt>, p: ProductId)
    ensures var final := After(InventoryState(initialStock, map[], []), attempts);
            Get(initialStock, p) == Get(final.stock, p) + KeptByAll(final.reservations, p)
  {
    var start := InventoryState(initialStock, map[], []);
    if attempts != [] {
      var earlier := attempts[..|attempts| - 1];
      StockIsConserved(initialStock, earlier, p);
      ReserveConserves(After(start, earlier), attempts[|attempts| - 1].request, p);
    }
  }

  predicate NonNegative(stock: map<ProductId, int>) {
    forall p :: p in stock ==> stock[p] >= 0
  }

  /** No order can take stock below zero, whatever its quantities are. */
  lemma {:induction false} StockStaysNonNegative(state: InventoryState, attempts: seq<Attempt>)
    requires NonNegative(state.stock)
    ensures NonNegative(After(state, attempts).stock)
  {
    if attempts != [] {
      StockStaysNonNegative(state, attempts[..|attempts| - 1]);
    }
  }

  // Exactly once per order ----------------------------------------------------------------

  predicate Decides(state: InventoryState, attempt: Attempt) {
    !attempt.fate.RolledBack? && attempt.request.source.orderId !in state.reservations
  }

  /** How many of the attempts changed anything for the order. */
  function Decisions(state: InventoryState, attempts: seq<Attempt>, order: Id): nat
  {
    if attempts == [] then 0 else
    var earlier, last := attempts[..|attempts| - 1], attempts[|attempts| - 1];
    Decisions(state, earlier, order)
    + if last.request.source.orderId == order && Decides(After(state, earlier), last) then 1 else 0
  }

  /**
   * However often an order's event is delivered, under whatever event ids, and however its
   * transactions end: at most one of them changes anything, and the others change nothing.
   */
  lemma {:induction false} OrderIsDecidedOnce(state: InventoryState, attempts: seq<Attempt>, order: Id)
    ensures Decisions(state, attempts, order) ==
            if order in After(state, attempts).reservations && order !in state.reservations then 1 else 0
    ensures order in state.reservations ==> order in After(state, attempts).reservations
  {
    if attempts != [] {
      OrderIsDecidedOnce(state, attempts[..|attempts| - 1], order);
    }
  }

  lemma OnlyDecisionsChangeState(state: InventoryState, attempt: Attempt)
    ensures Handle(state, attempt) != state <==> Decides(state, attempt)
  {
    if Decides(state, attempt) {
      assert attempt.request.source.orderId in Handle(state, attempt).reservations;
    }
  }

  /** The first committed attempt of an order settles its outcome for good. */
  lemma {:induction false} OutcomeStands(state: InventoryState, attempts: seq<Attempt>, order: Id)
    requires order in state.reservations
    ensures order in After(state, attempts).reservations
    ensures After(state, attempts).reservations[order] == state.reservations[order]
  {
    if attempts != [] {
      OutcomeStands(state, attempts[..|attempts| - 1], order);
    }
  }

  // Records and events --------------------------------------------------------------------

  /** The event tells the record's story. */
  predicate EventOf(record: ReservationRecord, event: Event) {
    && event.eventId == record.resultEventId
    && (match record.status
        case Reserved =>
          && event.InventoryReserved?
          && record.reservationId == Some(event.reservationId)
          && event.items == record.items
        case Rejected =>
          && event.InventoryReservationFailed?
          && record.reservationId == None
          && event.unavailableItems != [])
  }

  predicate HasEvent(outbox: seq<Event>, order: Id) {
    exists i :: 0 <= i < |outbox| && outbox[i].orderId == order
  }

  predicate Accounted(reservations: map<Id, ReservationRecord>, event: Event) {
    && (event.InventoryReserved? || event.InventoryReservationFailed?)
    && event.orderId in reservations
    && EventOf(reservations[event.orderId], event)
  }

  ghost predicate Matched(state: InventoryState) {
    && (forall order :: order in state.reservations ==>
                          state.reservations[order].orderId == order && HasEvent(state.outbox, order))
    && (forall i :: 0 <= i < |state.outbox| ==> Accounted(state.reservations, state.outbox[i]))
    && (forall i, j :: 0 <= i < j < |state.outbox| ==> state.outbox[i].orderId != state.outbox[j].orderId)
  }

  lemma NewRecordMatches(stock: map<ProductId, int>, request: Request)
    ensures EventOf(Record(stock, request), ResultEvent(stock, request))
    ensures ResultEvent(stock, request).orderId == request.source.orderId
  {
    NothingShort(request.source.items, stock, Products(request.source.items));
  }

  lemma ReserveKeepsMatched(state: InventoryState, request: Request)
    requires Matched(state)
    ensures Matched(Reserve(state, request))
  {
    var next := Reserve(state, request);
    var order := request.source.orderId;
    if order !in state.reservations {
      NewRecordMatches(state.stock, request);
      forall other | other in next.reservations
        ensures next.reservations[other].orderId == other && HasEvent(next.outbox, other)
      {
        if other == order {
          assert next.outbox[|state.outbox|].orderId == order;
        } else {
          var i :| 0 <= i < |state.outbox| && state.outbox[i].orderId == other;
          assert next.outbox[i].orderId == other;
        }
      }
      forall i | 0 <= i < |next.outbox|
        ensures Accounted(next.reservations, next.outbox[i])
        ensures i < |state.outbox| ==> next.outbox[i].orderId != order
      {
        if i < |state.outbox| {
          assert Accounted(state.reservations, state.outbox[i]);
        }
      }
    }
  }

  /** Each record has one event in the outbox and each event one record, of matching kind and content. */
  lemma {:induction false} RecordsMatchEvents(initialStock: map<ProductId, int>, attempts: seq<Attempt>)
    ensures Matched(After(InventoryState(initialStock, map[], []), attempts))
  {
    if attempts != [] {
      RecordsMatchEvents(initialStock, attempts[..|attempts| - 1]);
      ReserveKeepsMatched(After(InventoryState(initialStock, map[], []), attempts[..|attempts| - 1]),
                          attempts[|attempts| - 1].request);
    }
  }

  lemma {:induction false} OutboxIdsWereGenerated(state: InventoryState, attempts: seq<Attempt>, i: nat)
    requires state.outbox == [] && i < |After(state, attempts).outbox|
    ensures exists k :: 0 <= k < |attempts| && attempts[k].request.eventId == After(state, attempts).outbox[i].eventId
  {
    var earlier := attempts[..|attempts| - 1];
    if i < |After(state, earlier).outbox| {
      OutboxIdsWereGenerated(state, earlier, i);
      var k :| 0 <= k < |earlier| && earlier[k].request.eventId == After(state, earlier).outbox[i].eventId;
      assert attempts[k] == earlier[k];
    } else {
      assert attempts[|attempts| - 1].request.eventId == After(state, attempts).outbox[i].eventId;
    }
  }

  /** When every generated event id is new, event ids pair records and events one to one. */
  lemma {:induction false} EventIdsAreUnique(state: InventoryState, attempts: seq<Attempt>)
    requires state.outbox == []
    requires forall i, j :: 0 <= i < j < |attempts| ==> attempts[i].request.eventId != attempts[j].request.eventId
    ensures var outbox := After(state, attempts).outbox;
            forall i, j :: 0 <= i < j < |outbox| ==> outbox[i].eventId != outbox[j].eventId
  {
    if attempts != [] {
      var earlier := attempts[..|attempts| - 1];
      EventIdsAreUnique(state, earlier);
      var before, after := After(state, earlier).outbox, After(state, attempts).outbox;
      assert after == before || after == before + [ResultEvent(After(state, earlier).stock, attempts[|attempts| - 1].request)];
      forall i | 0 <= i < |before|
        ensures before[i].eventId != attempts[|attempts| - 1].request.eventId
      {
        OutboxIdsWereGenerated(state, earlier, i);
      }
    }
  }

  /** Attempt `k` is the first committed one of its order and made this record. */
  predicate Decided(state: InventoryState, attempts: seq<Attempt>, k: int, record: ReservationRecord) {
    && 0 <= k < |attempts|
    && Decides(After(state, attempts[..k]), attempts[k])
    && TellsRequest(record, attempts[k].request)
    && (record.status.Reserved? <==>
        var items := attempts[k].request.source.items;
        forall p :: p in Products(items) ==> Total(items, p) <= Get(After(state, attempts[..k]).stock, p))
  }

  /** The record names the payment it is for, what was asked, and the ids that were drawn for it. */
  predicate TellsRequest(record: ReservationRecord, request: Request) {
    && record.orderId == request.source.orderId && record.items == request.source.items
    && record.sourceEventId == request.source.eventId && record.resultEventId == request.eventId
    && record.reservationId == if record.status.Reserved? then Some(request.reservationId) else None
  }

  lemma {:induction false} StillDecided(
    state: InventoryState, attempts: seq<Attempt>, k: nat, record: ReservationRecord)
    requires attempts != [] && Decided(state, attempts[..|attempts| - 1], k, record)
    ensures Decided(state, attempts, k, record)
  {
    assert attempts[..|attempts| - 1][..k] == attempts[..k] && attempts[..|attempts| - 1][k] == attempts[k];
  }

  /** A record tells the first committed attempt of its order, and reserves exactly when everything was there. */
  lemma {:induction false} RecordTellsDecision(state: InventoryState, attempts: seq<Attempt>, order: Id) returns (k: nat)
    requires order in After(state, attempts).reservations && order !in state.reservations
    ensures Decided(state, attempts, k, After(state, attempts).reservations[order])
  {
    var earlier := attempts[..|attempts| - 1];
    if order in After(state, earlier).reservations {
      k := RecordTellsDecision(state, earlier, order);
      StillDecided(state, attempts, k, After(state, earlier).reservations[order]);
    } else {
      k := |attempts| - 1;
    }
  }

  /** The result event carries the ids, the time and the correlation of the request it answers. */
  lemma ResultTellsRequest(state: InventoryState, request: Request)
    requires request.source.orderId !in state.reservations
    ensures var next := Reserve(state, request);
            |next.outbox| == |state.outbox| + 1
            && var event := next.outbox[|state.outbox|];
            && next.outbox == state.outbox + [event]
            && event.eventId == request.eventId && event.occurredAt == request.now
            && event.correlationId == request.source.correlationId && event.orderId == request.source.orderId
            && (event.InventoryReserved? ==>
                  event.reservationId == request.reservationId && event.items == request.source.items)
            && ReserveOutcome(state, request) == Processed(event)
  {
  }

  /** A rejection event lists exactly the products that were short when the order was decided. */
  lemma RejectionListsTheShort(state: InventoryState, request: Request)
    requires request.source.orderId !in state.reservations
    ensures var event := ResultEvent(state.stock, request);
            var items := request.source.items;
            && (event.InventoryReserved? <==> forall p :: p in Products(items) ==> Total(items, p) <= Get(state.stock, p))
            && (event.InventoryReservationFailed? <==> exists p :: p in Products(items) && Get(state.stock, p) < Total(items, p))
            && (event.InventoryReservationFailed? ==>
                  forall p :: p in Products(items) && Get(state.stock, p) < Total(items, p) <==>
                              UnavailableItem(p, Total(items, p), Get(state.stock, p)) in event.unavailableItems)
            && (event.InventoryReservationFailed? ==> Reserve(state, request).stock == state.stock)
  {
    ProductsAreDistinct(request.source.items);
    UnavailableListsTheShort(request.source.items, state.stock, Products(request.source.items));
  }

  // The decrement on PostgreSQL -----------------------------------------------------------

  const MAX_INTEGER := 2_147_483_647

  predicate FitsInteger(n: int) {
    -MAX_INTEGER - 1 <= n <= MAX_INTEGER
  }

  /** The column's values: what its type and its check constraint admit. */
  predicate WithinBounds(stock: map<ProductId, int>) {
    forall p :: p in stock ==> 0 <= stock[p] <= MAX_INTEGER
  }

  /** The statement throws for the product: its row is missing, or the cast or the difference overflows. */
  predicate DecrementFailsFor(stock: map<ProductId, int>, items: seq<OrderItem>, p: ProductId) {
    p !in stock || !FitsInteger(Total(items, p)) || !FitsInteger(stock[p] - Total(items, p))
  }

  predicate DecrementFails(stock: map<ProductId, int>, items: seq<OrderItem>) {
    exists p :: p in Products(items) && DecrementFailsFor(stock, items, p)
  }

  /** An unknown product in no positive quantity, or a known one in a hugely negative quantity. */
  predicate Unstorable(stock: map<ProductId, int>, items: seq<OrderItem>, p: ProductId) {
    if p !in stock then Total(items, p) <= 0
    else Total(items, p) < -MAX_INTEGER - 1 || Total(items, p) < stock[p] - MAX_INTEGER
  }

  /**
   * Once nothing is short, PostgreSQL throws exactly when some product is unstorable; the
   * in-memory store, which has neither rows to miss nor columns to overflow, accepts such an order.
   */
  lemma DecrementFailsIff(stock: map<ProductId, int>, items: seq<OrderItem>)
    requires !Insufficient(stock, items) && WithinBounds(stock)
    ensures DecrementFails(stock, items) <==> exists p :: p in Products(items) && Unstorable(stock, items, p)
  {
    forall p | p in Products(items)
      ensures DecrementFailsFor(stock, items, p) <==> Unstorable(stock, items, p)
    {
      assert !Short(items, stock, p);
    }
  }

  lemma OneItem(item: OrderItem)
    ensures Products([item]) == [item.productId] && Total([item], item.productId) == item.quantity
    ensures item.productId in Products([item])
  {
    assert [item][..0] == [];
  }

  /** Zero of an unknown product misses its row; minus three thousand million of a known one overflows the cast. */
  lemma DecrementCanFail(p: ProductId)
    ensures var none, huge := [OrderItem(p, 0, 1)], [OrderItem(p, -3_000_000_000, 1)];
            && !Insufficient(map[], none) && DecrementFails(map[], none)
            && !Insufficient(map[p := 10], huge) && DecrementFails(map[p := 10], huge)
  {
    OneItem(OrderItem(p, 0, 1));
    OneItem(OrderItem(p, -3_000_000_000, 1));
    assert DecrementFailsFor(map[], [OrderItem(p, 0, 1)], p);
    assert DecrementFailsFor(map[p := 10], [OrderItem(p, -3_000_000_000, 1)], p);
  }

  predicate Positive(items: seq<OrderItem>) {
    forall i :: 0 <= i < |items| ==> items[i].quantity > 0
  }

  /** For contract-valid orders no check of the decrement fails: all rows exist and all numbers fit. */
  lemma ValidOrdersDecrementCleanly(stock: map<ProductId, int>, items: seq<OrderItem>)
    requires Positive(items) && WithinBounds(stock) && !Insufficient(stock, items)
    ensures !DecrementFails(stock, items)
    ensures forall p :: p in Products(items) ==> 1 <= Total(items, p) <= MAX_INTEGER
    ensures Decremented(stock, items).Keys == stock.Keys
    ensures forall p :: p in stock ==> 0 <= Decremented(stock, items)[p] <= stock[p]
  {
    forall p | p in Products(items)
      ensures p in stock && 1 <= Total(items, p) <= stock[p]
    {
      TotalsArePositive(items, p);
      assert !Short(items, stock, p);
    }
  }

  /** So stock stays within its column over every run of contract-valid orders. */
  lemma {:induction false} StockStaysWithinBounds(state: InventoryState, attempts: seq<Attempt>)
    requires WithinBounds(state.stock)
    requires forall i :: 0 <= i < |attempts| ==> Positive(attempts[i].request.source.items)
    ensures WithinBounds(After(state, attempts).stock) && After(state, attempts).stock.Keys == state.stock.Keys
  {
    if attempts != [] {
      var earlier, last := attempts[..|attempts| - 1], attempts[|attempts| - 1];
      StockStaysWithinBounds(state, earlier);
      var stock, items := After(state, earlier).stock, last.request.source.items;
      if !Insufficient(stock, items) {
        ValidOrdersDecrementCleanly(stock, items);
      }
    }
  }
}
