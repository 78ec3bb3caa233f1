/** The reservation decision and the in-memory store that runs it one transaction at a time. */
module InventoryService {
  import opened Contracts

  datatype ReservationStatus = Reserved | Rejected

  datatype ReservationRecord = ReservationRecord(
    orderId: Id,
    status: ReservationStatus,
    reservationId: Option<Id>,
    sourceEventId: Id,
    resultEventId: Id,
    items: seq<OrderItem>)

  /** What is durable: stock per product, one record per order, the outbox in insertion order. */
  datatype InventoryState = InventoryState(
    stock: map<ProductId, int>,
    reservations: map<Id, ReservationRecord>,
    outbox: seq<Event>)

  /** The PaymentAuthorized event to handle, and what the id generator and the clock will return. */
  datatype Request = Request(source: PaymentAuthorizedEvent, eventId: Id, reservationId: Id, now: Time)

  datatype Outcome =
    | Processed(event: Event)
    | Duplicate(existing: ReservationRecord)
    | Threw(error: StoreResult)

  /** How a draft operation ends; anything but Done is thrown. */
  datatype StoreResult =
    | Done
    | StockWouldBecomeNegative(productId: ProductId)
    | ReservationExists(orderId: Id)

  // ---------------------------------------------------------------------------------------
  // Quantities
  // ---------------------------------------------------------------------------------------

  /** A JavaScript Map from products to quantities: its keys keep their first-insertion order. */
  datatype Quantities = Quantities(keys: seq<ProductId>, values: map<ProductId, int>)

  /** How much of the product the items ask for. */
  function Total(items: seq<OrderItem>, productId: ProductId): int {
    if items == [] then 0 else
    var last := items[|items| - 1];
    Total(items[..|items| - 1], productId) + if last.productId == productId then last.quantity else 0
  }

  /** The products of the items, in order of first appearance. */
  function Products(items: seq<OrderItem>): seq<ProductId> {
    if items == [] then [] else
    var earlier := Products(items[..|items| - 1]);
    var last := items[|items| - 1].productId;
    if last in earlier then earlier else earlier + [last]
  }

  ghost predicate AreTotals(quantities: Quantities, items: seq<OrderItem>) {
    && quantities.keys == Products(items)
    && quantities.values.Keys == (set p | p in Products(items))
    && forall p :: p in quantities.values ==> quantities.values[p] == Total(items, p)
  }

  predicate Distinct(products: seq<ProductId>) {
    forall i, j :: 0 <= i < j < |products| ==> products[i] != products[j]
  }

  lemma {:induction false} ProductsAreDistinct(items: seq<OrderItem>)
    ensures Distinct(Products(items))
  {
    if items != [] {
      ProductsAreDistinct(items[..|items| - 1]);
    }
  }

  lemma {:induction false} ProductsAreThoseOfItems(items: seq<OrderItem>, p: ProductId)
    ensures p in Products(items) <==> exists i :: 0 <= i < |items| && items[i].productId == p
    ensures p !in Products(items) ==> Total(items, p) == 0
  {
    if items != [] {
      var init := items[..|items| - 1];
      ProductsAreThoseOfItems(init, p);
      if i :| 0 <= i < |items| && items[i].productId == p {
        if i < |items| - 1 { assert init[i].productId == p; }
      }
      if p in Products(init) {
        var i :| 0 <= i < |init| && init[i].productId == p;
        assert items[i].productId == p;
      }
      assert items[|items| - 1].productId in Products(items);
    }
  }

  /** Totals are sums: what several lists ask for together is what each asks for, added up. */
  lemma {:induction false} TotalsAdd(items: seq<OrderItem>, more: seq<OrderItem>, p: ProductId)
    ensures Total(items + more, p) == Total(items, p) + Total(more, p)
    ensures |items| == 1 ==> Total(items, p) == if items[0].productId == p then items[0].quantity else 0
  {
    if more == [] {
      assert items + more == items;
    } else {
      assert (items + more)[..|items + more| - 1] == items + more[..|more| - 1];
      TotalsAdd(items, more[..|more| - 1], p);
    }
    if |items| == 1 {
      assert items[..0] == [];
    }
  }

  /** The first item that asks for the product. */
  predicate FirstItem(items: seq<OrderItem>, k: int, p: ProductId) {
    0 <= k < |items| && items[k].productId == p && forall l :: 0 <= l < k ==> items[l].productId != p
  }

  /** Products come in the order of their first items. */
  lemma {:induction false} ProductsComeInOrder(items: seq<OrderItem>, i: nat, j: nat) returns (k: nat, l: nat)
    requires i < j < |Products(items)|
    ensures FirstItem(items, k, Products(items)[i]) && FirstItem(items, l, Products(items)[j]) && k < l
  {
    var init := items[..|items| - 1];
    if j < |Products(init)| {
      k, l := ProductsComeInOrder(init, i, j);
    } else {
      ProductsAreThoseOfItems(init, Products(items)[i]);
      ProductsAreThoseOfItems(init, Products(items)[j]);
      k := FirstAsking(init, Products(items)[i]);
      l := |items| - 1;
    }
  }

  lemma {:induction false} FirstAsking(items: seq<OrderItem>, p: ProductId) returns (k: nat)
    requires exists i :: 0 <= i < |items| && items[i].productId == p
    ensures FirstItem(items, k, p)
  {
    k := 0;
    while items[k].productId != p
      invariant k < |items| && forall l :: 0 <= l < k ==> items[l].productId != p
      decreases |items| - k
    {
      k := k + 1;
    }
  }

  /** Contract-valid items have positive quantities, so every requested total is positive. */
  lemma {:induction false} TotalsArePositive(items: seq<OrderItem>, p: ProductId)
    requires forall i :: 0 <= i < |items| ==> items[i].quantity > 0
    ensures Total(items, p) >= 0
    ensures p in Products(items) ==> Total(items, p) > 0
  {
    if items != [] {
      TotalsArePositive(items[..|items| - 1], p);
    }
  }

  method AggregateQuantities(items: seq<OrderItem>) returns (quantities: Quantities)
    ensures AreTotals(quantities, items)
  {
    var keys: seq<ProductId>, values: map<ProductId, int> := [], map[];
    for i := 0 to |items|
      invariant AreTotals(Quantities(keys, values), items[..i])
    {
      assert items[..i + 1][..i] == items[..i];
      var product := items[i].productId;
      ProductsAreThoseOfItems(items[..i], product);
      if product !in values {
        keys := keys + [product];
      }
      values := values[product := (if product in values then values[product] else 0) + items[i].quantity];
    }
    assert items[..|items|] == items;
    quantities := Quantities(keys, values);
  }

  function Get(stock: map<ProductId, int>, p: ProductId): int {
    if p in stock then stock[p] else 0
  }

  predicate Short(items: seq<OrderItem>, stock: map<ProductId, int>, p: ProductId) {
    Get(stock, p) < Total(items, p)
  }

  /** The short products among `products`, in that order, with what was asked and what there is. */
  function Unavailable(items: seq<OrderItem>, stock: map<ProductId, int>, products: seq<ProductId>): seq<UnavailableItem> {
    if products == [] then [] else
    var last := products[|products| - 1];
    var earlier := Unavailable(items, stock, products[..|products| - 1]);
    if Short(items, stock, last) then earlier + [UnavailableItem(last, Total(items, last), Get(stock, last))]
    else earlier
  }

  /** A rejection lists exactly the short products, each once and with its true figures. */
  lemma {:induction false} UnavailableListsTheShort(items: seq<OrderItem>, stock: map<ProductId, int>, products: seq<ProductId>)
    requires Distinct(products)
    ensures forall u :: u in Unavailable(items, stock, products) <==>
                        && u.productId in products
                        && Short(items, stock, u.productId)
                        && u == UnavailableItem(u.productId, Total(items, u.productId), Get(stock, u.productId))
    ensures forall i, j :: 0 <= i < j < |Unavailable(items, stock, products)| ==>
                             Unavailable(items, stock, products)[i].productId != Unavailable(items, stock, products)[j].productId
  {
    if products != [] {
      UnavailableListsTheShort(items, stock, products[..|products| - 1]);
      assert products == products[..|products| - 1] + [products[|products| - 1]];
    }
  }

  lemma {:induction false} NothingShort(items: seq<OrderItem>, stock: map<ProductId, int>, products: seq<ProductId>)
    ensures Unavailable(items, stock, products) == [] <==> forall p :: p in products ==> !Short(items, stock, p)
  {
    if products != [] {
      NothingShort(items, stock, products[..|products| - 1]);
      assert products == products[..|products| - 1] + [products[|products| - 1]];
    }
  }

  method FindUnavailableItems(requested: Quantities, available: map<ProductId, int>, ghost items: seq<OrderItem>)
    returns (unavailable: seq<UnavailableItem>)
    requires AreTotals(requested, items)
    ensures unavailable == Unavailable(items, available, Products(items))
  {
    unavailable := [];
    for i := 0 to |requested.keys|
      invariant unavailable == Unavailable(items, available, requested.keys[..i])
    {
      assert requested.keys[..i + 1][..i] == requested.keys[..i];
      var product := requested.keys[i];
      assert product in requested.values;
      var availableQuantity := if product in available then available[product] else 0;
      if availableQuantity < requested.values[product] {
        unavailable := unavailable + [UnavailableItem(product, requested.values[product], availableQuantity)];
      }
    }
    assert requested.keys[..|requested.keys|] == requested.keys;
  }

  // ---------------------------------------------------------------------------------------
  // The decision as a function of the durable state
  // ---------------------------------------------------------------------------------------

  function Decremented(stock: map<ProductId, int>, items: seq<OrderItem>): map<ProductId, int> {
    map p | p in stock.Keys + (set q | q in Products(items)) ::
      if p in Products(items) then Get(stock, p) - Total(items, p) else stock[p]
  }

  /** The same, one product after the other. */
  function DecrementedStepwise(stock: map<ProductId, int>, items: seq<OrderItem>, products: seq<ProductId>): map<ProductId, int> {
    if products == [] then stock else
    var last := products[|products| - 1];
    var earlier := DecrementedStepwise(stock, items, products[..|products| - 1]);
    earlier[last := Get(earlier, last) - Total(items, last)]
  }

  lemma {:induction false} StepwiseDecrement(stock: map<ProductId, int>, items: seq<OrderItem>, products: seq<ProductId>)
    requires Distinct(products)
    ensures var result := DecrementedStepwise(stock, items, products);
            && (forall p :: p in result <==> p in stock || p in products)
            && (forall p :: p in products ==> result[p] == Get(stock, p) - Total(items, p))
            && (forall p :: p in stock && p !in products ==> result[p] == stock[p])
  {
    if products != [] {
      var init := products[..|products| - 1];
      StepwiseDecrement(stock, items, init);
      assert products == init + [products[|products| - 1]];
    }
  }

  lemma NextOfStepwise(stock: map<ProductId, int>, items: seq<OrderItem>, i: nat)
    requires i < |Products(items)|
    ensures Get(DecrementedStepwise(stock, items, Products(items)[..i]), Products(items)[i]) == Get(stock, Products(items)[i])
  {
    ProductsAreDistinct(items);
    StepwiseDecrement(stock, items, Products(items)[..i]);
  }

  lemma StepwiseIsDecremented(stock: map<ProductId, int>, items: seq<OrderItem>)
    ensures DecrementedStepwise(stock, items, Products(items)) == Decremented(stock, items)
  {
    ProductsAreDistinct(items);
    StepwiseDecrement(stock, items, Products(items));
    var stepwise, decremented := DecrementedStepwise(stock, items, Products(items)), Decremented(stock, items);
    assert stepwise.Keys == decremented.Keys;
    assert forall p :: p in stepwise ==> stepwise[p] == decremented[p];
  }

  function ReservedEvent(request: Request): Event
  {
    InventoryReserved(request.eventId, request.now, request.source.correlationId, request.source.orderId,
                      request.reservationId, request.source.items)
  }

  function FailedEvent(request: Request, unavailable: seq<UnavailableItem>): Event {
    InventoryReservationFailed(request.eventId, request.now, request.source.correlationId, request.source.orderId,
                               unavailable)
  }

  predicate Insufficient(stock: map<ProductId, int>, items: seq<OrderItem>) {
    exists p :: p in Products(items) && Short(items, stock, p)
  }

  function ResultEvent(stock: map<ProductId, int>, request: Request): Event
  {
    var items := request.source.items;
    if Insufficient(stock, items) then FailedEvent(request, Unavailable(items, stock, Products(items)))
    else ReservedEvent(request)
  }

  function Record(stock: map<ProductId, int>, request: Request): ReservationRecord
  {
    var items := request.source.items;
    var rejected := Insufficient(stock, items);
    ReservationRecord(request.source.orderId, if rejected then Rejected else Reserved,
                      if rejected then None else Some(request.reservationId),
                      request.source.eventId, request.eventId, items)
  }

  /** The state after the request has been handled and committed. */
  function Reserve(state: InventoryState, request: Request): InventoryState
  {
    var order, items := request.source.orderId, request.source.items;
    if order in state.reservations then state
    else InventoryState(
      if Insufficient(state.stock, items) then state.stock else Decremented(state.stock, items),
      state.reservations[order := Record(state.stock, request)],
      state.outbox + [ResultEvent(state.stock, request)])
  }

  function ReserveOutcome(state: InventoryState, request: Request): Outcome
  {
    if request.source.orderId in state.reservations then Duplicate(state.reservations[request.source.orderId])
    else Processed(ResultEvent(state.stock, request))
  }

  // ---------------------------------------------------------------------------------------
  // The in-memory store
  // ---------------------------------------------------------------------------------------

  /** Product after product; stops at the first one that is short. */
  method DecrementEach(initial: map<ProductId, int>, requested: Quantities, ghost items: seq<OrderItem>)
    returns (result: StoreResult, stock: map<ProductId, int>)
    requires requested.keys == Products(items)
    requires forall i :: 0 <= i < |requested.keys| ==>
                           && requested.keys[i] in requested.values
                           && requested.values[requested.keys[i]] == Total(items, requested.keys[i])
    ensures result.Done? ==> stock == DecrementedStepwise(initial, items, Products(items))
    ensures result.Done? <==> forall i :: 0 <= i < |Products(items)| ==> !Short(items, initial, Products(items)[i])
  {
    stock := initial;
    for i := 0 to |requested.keys|
      invariant stock == DecrementedStepwise(initial, items, requested.keys[..i])
      invariant forall k :: 0 <= k < i ==> !Short(items, initial, requested.keys[k])
    {
      var product := requested.keys[i];
      NextOfStepwise(initial, items, i);
      var current := if product in stock then stock[product] else 0;
      if current < requested.values[product] {
        assert Short(items, initial, requested.keys[i]);
        return StockWouldBecomeNegative(product), stock;
      }
      stock := stock[product := current - requested.values[product]];
      assert requested.keys[..i + 1][..i] == requested.keys[..i];
    }
    assert requested.keys[..|requested.keys|] == requested.keys;
    result := Done;
  }

  /** A transaction over a private copy of the state. */
  class DraftTransaction {
    var state: InventoryState

    constructor (state: InventoryState)
      ensures this.state == state
    {
      this.state := state;
    }

    method LockOrder(orderId: Id) returns (existing: Option<ReservationRecord>)
      ensures existing == if orderId in state.reservations then Some(state.reservations[orderId]) else None
    {
      existing := if orderId in state.reservations then Some(state.reservations[orderId]) else None;
    }

    /** The quantities of the known products among those asked for. */
    method LockStock(products: seq<ProductId>) returns (quantities: map<ProductId, int>)
      ensures quantities == map p | p in state.stock && p in products :: state.stock[p]
    {
      quantities := map[];
      for i := 0 to |products|
        invariant quantities == map p | p in state.stock && p in products[..i] :: state.stock[p]
      {
        assert products[..i + 1] == products[..i] + [products[i]];
        if products[i] in state.stock {
          quantities := quantities[products[i] := state.stock[products[i]]];
        }
      }
      assert products[..|products|] == products;
    }

    /** Throws at the first short product; the caller then abandons the draft. */
    method DecrementStock(requested: Quantities, ghost items: seq<OrderItem>) returns (result: StoreResult)
      requires AreTotals(requested, items)
      modifies this
      ensures result.Done? <==> !Insufficient(old(state).stock, items)
      ensures result.Done? ==> state == old(state).(stock := Decremented(old(state).stock, items))
    {
      var stock;
      result, stock := DecrementEach(state.stock, requested, items);
      StepwiseIsDecremented(state.stock, items);
      state := state.(stock := stock);
    }

    method RecordReservation(record: ReservationRecord) returns (result: StoreResult)
      modifies this
      ensures result.Done? <==> record.orderId !in old(state).reservations
      ensures state == if record.orderId in old(state).reservations then old(state)
                       else old(state).(reservations := old(state).reservations[record.orderId := record])
    {
      if record.orderId in state.reservations {
        return ReservationExists(record.orderId);
      }
      state := state.(reservations := state.reservations[record.orderId := record]);
      result := Done;
    }

    method EnqueueEvent(event: Event)
      modifies this
      ensures state == old(state).(outbox := old(state).outbox + [event])
    {
      state := state.(outbox := state.outbox + [event]);
    }
  }

  /** The work of one reservation: decide once per order, change stock only when all of it is there. */
  method ReserveForPayment(transaction: DraftTransaction, request: Request) returns (outcome: Outcome)
    modifies transaction
    ensures outcome == ReserveOutcome(old(transaction.state), request)
    ensures transaction.state == Reserve(old(transaction.state), request)
  {
    ghost var before := transaction.state;
    var source := request.source;
    var existing := transaction.LockOrder(source.orderId);
    if existing.Some? {
      return Duplicate(existing.value);
    }
    var requested := AggregateQuantities(source.items);
    var available := transaction.LockStock(requested.keys);
    var unavailable := FindUnavailableItems(requested, available, source.items);
    LockedStockDecides(source.items, before.stock, available);
    if |unavailable| > 0 {
      var event := FailedEvent(request, unavailable);
      var recorded := transaction.RecordReservation(
        ReservationRecord(source.orderId, Rejected, None, source.eventId, event.eventId, source.items));
      if !recorded.Done? {
        return Threw(recorded);
      }
      transaction.EnqueueEvent(event);
      return Processed(event);
    }
    var decremented := transaction.DecrementStock(requested, source.items);
    if !decremented.Done? {
      return Threw(decremented);
    }
    var event := ReservedEvent(request);
    var recorded := transaction.RecordReservation(
      ReservationRecord(source.orderId, Reserved, Some(event.reservationId), source.eventId, event.eventId, source.items));
    if !recorded.Done? {
      return Threw(recorded);
    }
    transaction.EnqueueEvent(event);
    outcome := Processed(event);
  }

  /** The locked rows carry everything the decision needs. */
  lemma LockedStockDecides(items: seq<OrderItem>, stock: map<ProductId, int>, locked: map<ProductId, int>)
    requires locked == map p | p in stock && p in Products(items) :: stock[p]
    ensures Unavailable(items, locked, Products(items)) == Unavailable(items, stock, Products(items))
    ensures Unavailable(items, stock, Products(items)) != [] <==> Insufficient(stock, items)
  {
    SameUnavailable(items, stock, locked, Products(items));
    NothingShort(items, stock, Products(items));
  }

  lemma {:induction false} SameUnavailable(
    items: seq<OrderItem>, stock: map<ProductId, int>, other: map<ProductId, int>, products: seq<ProductId>)
    requires forall p :: p in products ==> Get(stock, p) == Get(other, p)
    ensures Unavailable(items, other, products) == Unavailable(items, stock, products)
  {
    if products != [] {
      SameUnavailable(items, stock, other, products[..|products| - 1]);
    }
  }

  /** Transactions run one after the other; a copy is swapped in only when the work completes. */
  class InMemoryInventoryStore {
    var state: InventoryState

    constructor (initialStock: map<ProductId, int>)
      ensures state == InventoryState(initialStock, map[], [])
    {
      state := InventoryState(initialStock, map[], []);
    }

    method InTransaction(request: Request) returns (outcome: Outcome)
      modifies this
      ensures outcome == ReserveOutcome(old(state), request)
      ensures state == Reserve(old(state), request)
    {
      var draft := new DraftTransaction(state);
      outcome := ReserveForPayment(draft, request);
      if !outcome.Threw? {
        state := draft.state;
      }
    }
  }
}
