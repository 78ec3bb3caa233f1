/**
 * One queue's deliveries, handled concurrently: their attempts interleave at every await.
 * Redelivery, a new delivery of the same event and a replayed dead letter are all arrivals.
 */
module ConsumerProtocol {
  import opened Contracts
  import opened Consumer

  datatype Flight = Flight(event: Event, attempt: nat)

  datatype System<S> = System(
    state: S,
    cache: seq<Id>,
    inFlight: map<nat, Flight>,         // by delivery tag
    acknowledged: set<Event>)           // history

  datatype Config<!S> = Config(handler: Handler<S>, maxAttempts: int, capacity: int)

  datatype Action =
    | Arrive(tag: nat, event: Event)                      // on a new channel a tag starts over
    | EndAttempt(tag: nat, run: HandlerRun, seed: nat)
    | Abandon(tag: nat)
    | Restart                                             // of the process: the cache is lost

  function Land<S>(sys: System<S>, tag: nat): System<S> {
    sys.(inFlight := sys.inFlight - {tag})
  }

  /** An action on a tag that is not in flight changes nothing. */
  function Step<S>(config: Config<S>, sys: System<S>, action: Action): System<S> {
    match action
    case Arrive(tag, event) =>
      if event.eventId in sys.cache then Land(sys, tag).(acknowledged := sys.acknowledged + {event})
      else sys.(inFlight := sys.inFlight[tag := Flight(event, 1)])
    case EndAttempt(tag, run, seed) =>
      if tag !in sys.inFlight then sys else
      var Flight(event, attempt) := sys.inFlight[tag];
      var next := sys.(state := AfterRun(config.handler, sys.state, event, run, seed));
      if run.Resolved? then
        Land(next, tag).(cache := CacheAdd(sys.cache, config.capacity, event.eventId),
        acknowledged := sys.acknowledged + {event})
      else if run.permanent || attempt >= config.maxAttempts then Land(next, tag)
      else next.(inFlight := sys.inFlight[tag := Flight(event, attempt + 1)])
    case Abandon(tag) => Land(sys, tag)
    case Restart => sys.(cache := [], inFlight := map[])
  }

  function After<S>(config: Config<S>, sys: System<S>, run: seq<Action>): System<S>
    decreases |run|
  {
    if run == [] then sys else After(config, Step(config, sys, run[0]), run[1..])
  }

  function Initial<S>(state: S): System<S> {
    System(state, [], map[], {})
  }

  // ---------------------------------------------------------------------------------------
  // The retry loop is a run of this system
  // ---------------------------------------------------------------------------------------

  /** The attempts that the retry loop makes in its surroundings. */
  function AttemptRun<S>(
    config: Config<S>, state: S, tag: nat, event: Event, env: Surroundings, attempt: nat
  ): seq<Action>
    decreases config.maxAttempts - attempt
  {
    var run := env.run(attempt);
    var next := AfterRun(config.handler, state, event, run, env.seed(attempt));
    [EndAttempt(tag, run, env.seed(attempt))] +
    if run.Resolved? || run.permanent || attempt >= config.maxAttempts then []
    else if env.abandoned(attempt) then [Abandon(tag)]
    else AttemptRun(config, next, tag, event, env, attempt + 1)
  }

  lemma {:induction false} LoopIsRun<S>(
    config: Config<S>, sys: System<S>, tag: nat, env: Surroundings)
    requires tag in sys.inFlight
    ensures var Flight(event, attempt) := sys.inFlight[tag];
            var loop := RunAttempts(config.handler, sys.state, event, env, attempt, config.maxAttempts);
            var after := After(config, sys, AttemptRun(config, sys.state, tag, event, env, attempt));
            && after.state == loop.state
            && after.inFlight == sys.inFlight - {tag}
            && after.cache == (if loop.ending.Handled? then CacheAdd(sys.cache, config.capacity, event.eventId) else sys.cache)
    decreases config.maxAttempts - sys.inFlight[tag].attempt
  {
    var Flight(event, attempt) := sys.inFlight[tag];
    var run := env.run(attempt);
    var first := EndAttempt(tag, run, env.seed(attempt));
    var actions := AttemptRun(config, sys.state, tag, event, env, attempt);
    var next := Step(config, sys, first);
    assert actions[0] == first;
    if run.Resolved? || run.permanent || attempt >= config.maxAttempts {
      assert actions[1..] == [];
    } else if env.abandoned(attempt) {
      assert actions[1..] == [Abandon(tag)];
      assert actions[1..][1..] == [];
      assert After(config, next, [Abandon(tag)]) == Step(config, next, Abandon(tag));
    } else {
      LoopIsRun(config, next, tag, env);
      assert actions[1..] == AttemptRun(config, next.state, tag, event, env, attempt + 1);
      assert next.inFlight - {tag} == sys.inFlight - {tag};
    }
  }

  // ---------------------------------------------------------------------------------------
  // The cache changes nothing
  // ---------------------------------------------------------------------------------------

  /** Handling is idempotent: it gets its event done, for good, and a done event changes nothing. */
  ghost predicate Idempotent<S(!new)>(handler: Handler<S>, done: (S, Event) -> bool) {
    && (forall s, e, n :: done(handler.apply(s, e, n), e))
    && (forall s, e, f, n :: done(s, e) ==> done(handler.apply(s, f, n), e))
    && (forall s, e, n :: done(s, e) ==> handler.apply(s, e, n) == s)
  }

  /** Equal ids mean equal events, as the producers promise. */
  predicate Faithful(run: seq<Action>, body: Id -> Event) {
    forall i :: 0 <= i < |run| && run[i].Arrive? ==> run[i].event == body(run[i].event.eventId)
  }

  ghost predicate Inv<S(!new)>(config: Config<S>, sys: System<S>, done: (S, Event) -> bool, body: Id -> Event) {
    && (forall id :: id in sys.cache ==> done(sys.state, body(id)))
    && (forall event :: event in sys.acknowledged ==> done(sys.state, event))
    && (forall tag :: tag in sys.inFlight ==>
                        && sys.inFlight[tag].event == body(sys.inFlight[tag].event.eventId)
                        && 1 <= sys.inFlight[tag].attempt
                        && (sys.inFlight[tag].attempt > 1 ==> sys.inFlight[tag].attempt <= config.maxAttempts))
  }

  lemma StepKeepsInv<S(!new)>(
    config: Config<S>, sys: System<S>, action: Action, done: (S, Event) -> bool, body: Id -> Event)
    requires Idempotent(config.handler, done) && Faithful([action], body) && Inv(config, sys, done, body)
    ensures Inv(config, Step(config, sys, action), done, body)
    ensures forall event :: done(sys.state, event) ==> done(Step(config, sys, action).state, event)
  {
    assert action.Arrive? ==> [action][0].event == body(action.event.eventId);
  }

  lemma {:induction false} RunKeepsInv<S(!new)>(
    config: Config<S>, sys: System<S>, run: seq<Action>, done: (S, Event) -> bool, body: Id -> Event)
    requires Idempotent(config.handler, done) && Faithful(run, body) && Inv(config, sys, done, body)
    ensures Inv(config, After(config, sys, run), done, body)
    decreases |run|
  {
    if run != [] {
      assert Faithful([run[0]], body) by { assert [run[0]][0] == run[0]; }
      StepKeepsInv(config, sys, run[0], done, body);
      assert Faithful(run[1..], body);
      RunKeepsInv(config, Step(config, sys, run[0]), run[1..], done, body);
    }
  }

  /**
   * However deliveries arrive and their attempts interleave: an acknowledged event is done,
   * a cached one was handled, and no delivery gets more than max(1, maxAttempts) attempts.
   */
  lemma AcknowledgedIsDone<S(!new)>(
    config: Config<S>, state: S, run: seq<Action>, done: (S, Event) -> bool, body: Id -> Event)
    requires Idempotent(config.handler, done) && Faithful(run, body)
    ensures var sys := After(config, Initial(state), run);
            && (forall event :: event in sys.acknowledged ==> done(sys.state, event))
            && (forall id :: id in sys.cache ==> done(sys.state, body(id)))
            && (forall tag :: tag in sys.inFlight ==>
                                1 <= sys.inFlight[tag].attempt <= if config.maxAttempts > 1 then config.maxAttempts else 1)
  {
    RunKeepsInv(config, Initial(state), run, done, body);
  }

  /** The consumer without a cache is where the cached one is, plus deliveries that change nothing. */
  ghost predicate Simulates<S(!new)>(cached: System<S>, plain: System<S>, done: (S, Event) -> bool) {
    && plain.state == cached.state
    && plain.cache == []
    && (forall tag :: tag in cached.inFlight ==> tag in plain.inFlight && plain.inFlight[tag] == cached.inFlight[tag])
    && (forall tag :: tag in plain.inFlight && tag !in cached.inFlight ==>
                        done(plain.state, plain.inFlight[tag].event))
  }

  lemma StepKeepsSimulation<S(!new)>(
    config: Config<S>, cached: System<S>, plain: System<S>, action: Action,
    done: (S, Event) -> bool, body: Id -> Event)
    requires Idempotent(config.handler, done) && Faithful([action], body)
    requires Inv(config, cached, done, body) && Simulates(cached, plain, done)
    ensures Simulates(Step(config, cached, action), Step(config.(capacity := 0), plain, action), done)
  {
    assert action.Arrive? ==> [action][0].event == body(action.event.eventId);
  }

  lemma {:induction false} RunKeepsSimulation<S(!new)>(
    config: Config<S>, cached: System<S>, plain: System<S>, run: seq<Action>,
    done: (S, Event) -> bool, body: Id -> Event)
    requires Idempotent(config.handler, done) && Faithful(run, body)
    requires Inv(config, cached, done, body) && Simulates(cached, plain, done)
    ensures Simulates(After(config, cached, run), After(config.(capacity := 0), plain, run), done)
    decreases |run|
  {
    if run != [] {
      assert Faithful([run[0]], body) by { assert [run[0]][0] == run[0]; }
      StepKeepsInv(config, cached, run[0], done, body);
      StepKeepsSimulation(config, cached, plain, run[0], done, body);
      assert Faithful(run[1..], body);
      RunKeepsSimulation(config, Step(config, cached, run[0]), Step(config.(capacity := 0), plain, run[0]), run[1..], done, body);
    }
  }

  /** For any deliveries in any interleaving the cache leaves the service in the same state. */
  lemma CacheChangesNothing<S(!new)>(
    config: Config<S>, state: S, run: seq<Action>, done: (S, Event) -> bool, body: Id -> Event)
    requires Idempotent(config.handler, done) && Faithful(run, body)
    ensures After(config, Initial(state), run).state == After(config.(capacity := 0), Initial(state), run).state
  {
    RunKeepsSimulation(config, Initial(state), Initial(state), run, done, body);
  }
}
