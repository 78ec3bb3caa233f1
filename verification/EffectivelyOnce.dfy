/** Inventory and Notification behind their at-least-once queues. */
module EffectivelyOnce {
  import opened Contracts
  import opened Consumer
  import opened ConsumerProtocol
  import InventoryService
  import InventoryRuns
  import NotificationService

  type InventoryState = InventoryService.InventoryState
  type Notifications = seq<NotificationService.Notification>

  // Inventory -----------------------------------------------------------------------------

  /** What the service generates in one handler run. */
  function RequestFor(event: PaymentAuthorizedEvent, seed: nat): InventoryService.Request {
    InventoryService.Request(event, Random(2 * seed), Random(2 * seed + 1), seed)
  }

  /** The contract lets only PaymentAuthorized events through to the handler. */
  function ReserveOn(state: InventoryState, event: Event, seed: nat): InventoryState {
    if event.PaymentAuthorized? then InventoryService.Reserve(state, RequestFor(event, seed)) else state
  }

  function InventoryHandler(): Handler<InventoryState> {
    Handler((state, event, seed) => ReserveOn(state, event, seed))
  }

  function InventoryDone(): (InventoryState, Event) -> bool {
    (state: InventoryState, event: Event) => event.PaymentAuthorized? ==> event.orderId in state.reservations
  }

  lemma InventoryIsIdempotent()
    ensures Idempotent(InventoryHandler(), InventoryDone())
  {
  }

  /** The payment whose handler run the action ends, if any. */
  function PaymentOf(sys: System<InventoryState>, action: Action): Option<PaymentAuthorizedEvent> {
    if action.EndAttempt? && action.tag in sys.inFlight && sys.inFlight[action.tag].event.PaymentAuthorized?
    then Some(sys.inFlight[action.tag].event) else None
  }

  function FateOf(run: HandlerRun): InventoryRuns.Fate {
    match run
    case Resolved => InventoryRuns.Committed
    case Rejected(committed, _) => if committed then InventoryRuns.CommittedReplyLost else InventoryRuns.RolledBack
  }

  /** The reservation attempt that the action ends, as a sequence of one or none. */
  function AttemptOf(sys: System<InventoryState>, action: Action): seq<InventoryRuns.Attempt> {
    var payment := PaymentOf(sys, action);
    if payment.None? then []
    else [InventoryRuns.Attempt(RequestFor(payment.value, action.seed), FateOf(action.run))]
  }

  /** The reservation attempts of a run, in the order in which they end. */
  function AttemptsOf(config: Config<InventoryState>, sys: System<InventoryState>, run: seq<Action>): seq<InventoryRuns.Attempt>
    decreases |run|
  {
    if run == [] then []
    else AttemptOf(sys, run[0]) + AttemptsOf(config, Step(config, sys, run[0]), run[1..])
  }

  lemma StepIsAttempt(config: Config<InventoryState>, sys: System<InventoryState>, action: Action)
    requires config.handler == InventoryHandler()
    ensures Step(config, sys, action).state == InventoryRuns.After(sys.state, AttemptOf(sys, action))
  {
    var attempts := AttemptOf(sys, action);
    if attempts != [] {
      assert attempts[..0] == [];
      assert InventoryRuns.After(sys.state, attempts) == InventoryRuns.Handle(sys.state, attempts[0]);
    }
  }

  /** The consumer leaves the inventory where exactly the run's own attempts leave it. */
  lemma {:induction false} DeliveriesAreAttempts(
    config: Config<InventoryState>, sys: System<InventoryState>, run: seq<Action>)
    requires config.handler == InventoryHandler()
    ensures After(config, sys, run).state == InventoryRuns.After(sys.state, AttemptsOf(config, sys, run))
    decreases |run|
  {
    if run != [] {
      var next := Step(config, sys, run[0]);
      StepIsAttempt(config, sys, run[0]);
      DeliveriesAreAttempts(config, next, run[1..]);
      InventoryRuns.AttemptsCompose(sys.state, AttemptOf(sys, run[0]), AttemptsOf(config, next, run[1..]));
    }
  }

  /** The action changes the inventory on behalf of the order. */
  predicate Moves(config: Config<InventoryState>, sys: System<InventoryState>, action: Action, order: Id) {
    && Step(config, sys, action).state != sys.state
    && PaymentOf(sys, action).Some? && PaymentOf(sys, action).value.orderId == order
  }

  /** How many steps of the run change the inventory on behalf of the order. */
  function MoveCount(config: Config<InventoryState>, sys: System<InventoryState>, run: seq<Action>, order: Id): nat
    decreases |run|
  {
    if run == [] then 0
    else (if Moves(config, sys, run[0], order) then 1 else 0) + MoveCount(config, Step(config, sys, run[0]), run[1..], order)
  }

  /**
   * A step changes the inventory exactly when a handler run for an undecided order takes
   * effect; it then records that order and no other.
   */
  lemma StepMovesIff(config: Config<InventoryState>, sys: System<InventoryState>, action: Action, order: Id)
    requires config.handler == InventoryHandler()
    ensures Step(config, sys, action).state != sys.state <==>
            && PaymentOf(sys, action).Some?
            && (action.run.Resolved? || action.run.committed)
            && PaymentOf(sys, action).value.orderId !in sys.state.reservations
    ensures Moves(config, sys, action, order) <==>
            order !in sys.state.reservations && order in Step(config, sys, action).state.reservations
    ensures order in sys.state.reservations ==> order in Step(config, sys, action).state.reservations
  {
    var payment := PaymentOf(sys, action);
    if payment.Some? && (action.run.Resolved? || action.run.committed) && payment.value.orderId !in sys.state.reservations {
      assert payment.value.orderId in Step(config, sys, action).state.reservations;
    }
  }

  /** The run's steps move an order's stock exactly once if it gains its record, and otherwise never. */
  lemma {:induction false} MovesAreCounted(
    config: Config<InventoryState>, sys: System<InventoryState>, run: seq<Action>, order: Id)
    requires config.handler == InventoryHandler()
    ensures var final := After(config, sys, run).state;
            && MoveCount(config, sys, run, order)
               == (if order in final.reservations && order !in sys.state.reservations then 1 else 0)
            && (order in sys.state.reservations ==> order in final.reservations)
    decreases |run|
  {
    if run != [] {
      StepMovesIff(config, sys, run[0], order);
      MovesAreCounted(config, Step(config, sys, run[0]), run[1..], order);
    }
  }

  /**
   * Effectively once: in any interleaving of deliveries, redeliveries, replays, crashes and
   * lost replies at most one step of the run moves the order's stock, an acknowledged payment
   * has its reservation, and no stock appears or disappears.
   */
  lemma {:induction false} StockMovesOnce(
    config: Config<InventoryState>, stock: map<ProductId, int>, run: seq<Action>, body: Id -> Event, order: Id, p: ProductId)
    requires config.handler == InventoryHandler() && Faithful(run, body)
    ensures var start := Initial(InventoryService.InventoryState(stock, map[], []));
            var sys := After(config, start, run);
            && MoveCount(config, start, run, order) == (if order in sys.state.reservations then 1 else 0)
            && (forall event :: event in sys.acknowledged && event.PaymentAuthorized? ==>
                                  event.orderId in sys.state.reservations)
            && InventoryService.Get(stock, p)
               == InventoryService.Get(sys.state.stock, p) + InventoryRuns.KeptByAll(sys.state.reservations, p)
  {
    var start := InventoryService.InventoryState(stock, map[], []);
    MovesAreCounted(config, Initial(start), run, order);
    DeliveriesAreAttempts(config, Initial(start), run);
    InventoryRuns.StockIsConserved(stock, AttemptsOf(config, Initial(start), run), p);
    InventoryIsIdempotent();
    AcknowledgedIsDone(config, start, run, InventoryDone(), body);
  }

  /** The recent-id cache never changes the inventory. */
  lemma InventoryIgnoresCache(
    config: Config<InventoryState>, state: InventoryState, run: seq<Action>, body: Id -> Event)
    requires config.handler == InventoryHandler() && Faithful(run, body)
    ensures After(config, Initial(state), run).state == After(config.(capacity := 0), Initial(state), run).state
  {
    InventoryIsIdempotent();
    CacheChangesNothing(config, state, run, InventoryDone(), body);
  }

  // Notification --------------------------------------------------------------------------

  function NotifyOn(notifications: Notifications, event: Event, seed: nat): Notifications {
    if event.DeliveryBooked? || event.InventoryReservationFailed?
    then NotificationService.Create(notifications, event, Random(seed), seed) else notifications
  }

  function NotificationHandler(): Handler<Notifications> {
    Handler((notifications, event, seed) => NotifyOn(notifications, event, seed))
  }

  function NotificationDone(): (Notifications, Event) -> bool {
    (notifications: Notifications, event: Event) =>
      event.DeliveryBooked? || event.InventoryReservationFailed? ==>
        NotificationService.Notified(notifications, event.orderId, NotificationService.KindOf(event))
  }

  lemma NotifiedStays(notifications: Notifications, event: Event, seed: nat, orderId: Id, kind: NotificationService.NotificationType)
    requires NotificationService.Notified(notifications, orderId, kind)
    ensures NotificationService.Notified(NotifyOn(notifications, event, seed), orderId, kind)
  {
    var i :| 0 <= i < |notifications| && notifications[i].orderId == orderId && notifications[i].kind == kind;
    assert NotifyOn(notifications, event, seed)[i] == notifications[i];
  }

  lemma NotifyNotifies(notifications: Notifications, event: Event, seed: nat)
    ensures NotificationDone()(NotifyOn(notifications, event, seed), event)
  {
    var after := NotifyOn(notifications, event, seed);
    if |after| > |notifications| {
      assert after[|notifications|].orderId == event.orderId;
    }
  }

  lemma NotificationIsIdempotent()
    ensures Idempotent(NotificationHandler(), NotificationDone())
  {
    forall notifications: Notifications, event: Event, seed: nat
      ensures NotificationDone()(NotificationHandler().apply(notifications, event, seed), event)
    {
      NotifyNotifies(notifications, event, seed);
    }
    forall notifications: Notifications, event: Event, other: Event, seed: nat | NotificationDone()(notifications, event)
      ensures NotificationDone()(NotificationHandler().apply(notifications, other, seed), event)
    {
      if event.DeliveryBooked? || event.InventoryReservationFailed? {
        NotifiedStays(notifications, other, seed, event.orderId, NotificationService.KindOf(event));
      }
    }
  }

  /** Nor does it change the notifications. */
  lemma NotificationsIgnoreCache(
    config: Config<Notifications>, notifications: Notifications, run: seq<Action>, body: Id -> Event)
    requires config.handler == NotificationHandler() && Faithful(run, body)
    ensures After(config, Initial(notifications), run).state
            == After(config.(capacity := 0), Initial(notifications), run).state
  {
    NotificationIsIdempotent();
    CacheChangesNothing(config, notifications, run, NotificationDone(), body);
  }

  lemma {:induction false} NoticesAreKept(
    config: Config<Notifications>, sys: System<Notifications>, run: seq<Action>)
    requires config.handler == NotificationHandler()
    requires NotificationService.OnePerOutcome(sys.state)
    ensures NotificationService.OnePerOutcome(After(config, sys, run).state)
    ensures sys.state <= After(config, sys, run).state
    decreases |run|
  {
    if run != [] {
      var next := Step(config, sys, run[0]);
      if run[0].EndAttempt? && run[0].tag in sys.inFlight {
        var event := sys.inFlight[run[0].tag].event;
        if event.DeliveryBooked? || event.InventoryReservationFailed? {
          NotificationService.CreateKeeps(sys.state, event, Random(run[0].seed), run[0].seed);
        }
      }
      NoticesAreKept(config, next, run[1..]);
    }
  }

  /** Each order is told each outcome at most once, and every acknowledged outcome was told. */
  lemma CustomersAreToldOnce(
    config: Config<Notifications>, notifications: Notifications, run: seq<Action>, body: Id -> Event)
    requires config.handler == NotificationHandler() && Faithful(run, body)
    requires NotificationService.OnePerOutcome(notifications)
    ensures var sys := After(config, Initial(notifications), run);
            && NotificationService.OnePerOutcome(sys.state)
            && notifications <= sys.state
            && forall event :: event in sys.acknowledged && (event.DeliveryBooked? || event.InventoryReservationFailed?) ==>
                 NotificationService.Notified(sys.state, event.orderId, NotificationService.KindOf(event))
  {
    NoticesAreKept(config, Initial(notifications), run);
    NotificationIsIdempotent();
    AcknowledgedIsDone(config, notifications, run, NotificationDone(), body);
    var sys := After(config, Initial(notifications), run);
    forall event | event in sys.acknowledged && (event.DeliveryBooked? || event.InventoryReservationFailed?)
      ensures NotificationService.Notified(sys.state, event.orderId, NotificationService.KindOf(event))
    {
      assert NotificationDone()(sys.state, event);
    }
  }
}
