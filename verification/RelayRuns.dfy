/**
 * The relay's cycle as a run of the protocol: uninterrupted, it leaves the table that
 * `OutboxRelay` computes, and repeated with a fixed batch size it drains the outbox.
 */
module RelayRuns {
  import opened Contracts
  import opened Ordering
  import opened OutboxStore
  import opened Backoff
  import opened OutboxRelay
  import opened Protocol = OutboxProtocol

  // ---------------------------------------------------------------------------------------
  // Runs and where they lead
  // ---------------------------------------------------------------------------------------

  /** The run leads from one state to the other. */
  ghost predicate Leads(sys: System, run: seq<Action>, end: System)
    decreases |run|
  {
    if run == [] then sys == end else Enabled(sys, run[0]) && Leads(Apply(sys, run[0]), run[1..], end)
  }

  lemma {:induction false} LeadsIsRun(sys: System, run: seq<Action>, end: System)
    requires Leads(sys, run, end)
    ensures ValidRun(sys, run) && After(sys, run) == end
    decreases |run|
  {
    if run != [] {
      LeadsIsRun(Apply(sys, run[0]), run[1..], end);
    }
  }

  lemma {:induction false} LeadsFurther(sys: System, first: seq<Action>, middle: System, second: seq<Action>, end: System)
    requires Leads(sys, first, middle) && Leads(middle, second, end)
    ensures Leads(sys, first + second, end)
    decreases |first|
  {
    if first == [] {
      assert first + second == second;
    } else {
      LeadsFurther(Apply(sys, first[0]), first[1..], middle, second, end);
      assert (first + second)[0] == first[0] && (first + second)[1..] == first[1..] + second;
    }
  }

  lemma StepLeads(sys: System, action: Action)
    requires Enabled(sys, action)
    ensures Leads(sys, [action], Apply(sys, action))
  {
    var rest := [action][1..];
    assert rest == [] && Leads(Apply(sys, action), rest, Apply(sys, action));
  }

  /** A run is extended by one step. */
  lemma LeadsOneMore(sys: System, run: seq<Action>, middle: System, action: Action)
    requires Leads(sys, run, middle) && Enabled(middle, action)
    ensures Leads(sys, run + [action], Apply(middle, action))
  {
    StepLeads(middle, action);
    LeadsFurther(sys, run, middle, [action], Apply(middle, action));
  }

  lemma TwoStepsLead(sys: System, first: Action, middle: System, second: Action, end: System)
    requires Enabled(sys, first) && Apply(sys, first) == middle
    requires Enabled(middle, second) && Apply(middle, second) == end
    ensures Leads(sys, [first, second], end)
  {
    StepLeads(sys, first);
    LeadsOneMore(sys, [first], middle, second);
    assert [first] + [second] == [first, second];
  }

  lemma LeadsKeepsInv(sys: System, run: seq<Action>, end: System)
    requires Inv(sys) && Leads(sys, run, end)
    ensures Inv(end)
  {
    LeadsIsRun(sys, run, end);
    RunKeepsInv(sys, run);
  }

  // ---------------------------------------------------------------------------------------
  // The steps of a cycle
  // ---------------------------------------------------------------------------------------

  function ResultStep(relay: ClaimantId, id: SequenceId, env: Surroundings): Action {
    if env.publish(id).Confirmed? then Confirm(relay, id) else Fail(relay, id)
  }

  function ResultSteps(relay: ClaimantId, ids: seq<SequenceId>, env: Surroundings): seq<Action> {
    if ids == [] then [] else [ResultStep(relay, ids[0], env)] + ResultSteps(relay, ids[1..], env)
  }

  /** The claimed rows whose publication failed, in claim order. */
  function FailedIds(ids: seq<SequenceId>, env: Surroundings): seq<SequenceId> {
    if ids == [] then []
    else (if env.publish(ids[0]).Failed? then [ids[0]] else []) + FailedIds(ids[1..], env)
  }

  /** The delay that a release of the row asks for; the failed rows are released one after the other. */
  function ReleaseStep(config: Config, relay: ClaimantId, id: SequenceId, attempts: nat, env: Surroundings): Action
    requires 0.0 <= env.random(id) < 1.0
  {
    RetryDelayWithinJitter(config.retryBase, config.retryCap, attempts, env.random(id));
    Release(relay, id, RetryDelay(config.retryBase, config.retryCap, attempts, env.random(id)),
            if env.publish(id).Failed? then env.publish(id).error else "", env.releaseFate(id))
  }

  ghost function FirstRelease(
    config: Config, relay: ClaimantId, id: SequenceId, attempts: map<SequenceId, nat>, env: Surroundings, clock: Time
  ): seq<Action>
    requires env.Valid() && clock <= env.releaseAt(id) && id in attempts
  {
    [Tick(env.releaseAt(id) - clock), ReleaseStep(config, relay, id, attempts[id], env)]
  }

  ghost function ReleaseSteps(
    config: Config, relay: ClaimantId, ids: seq<SequenceId>, attempts: map<SequenceId, nat>, env: Surroundings, clock: Time
  ): seq<Action>
    requires env.Valid() && InTime(ids, env, clock) && forall id :: id in ids ==> id in attempts
  {
    if ids == [] then []
    else
      FirstRelease(config, relay, ids[0], attempts, env, clock)
      + ReleaseSteps(config, relay, ids[1..], attempts, env, env.releaseAt(ids[0]))
  }

  /** The clock does not go backwards from one release to the next. */
  predicate InTime(ids: seq<SequenceId>, env: Surroundings, clock: Time) {
    ids == [] || (clock <= env.releaseAt(ids[0]) && InTime(ids[1..], env, env.releaseAt(ids[0])))
  }

  predicate Distinct(ids: seq<SequenceId>) {
    forall i, j :: 0 <= i < j < |ids| ==> ids[i] != ids[j]
  }

  // ---------------------------------------------------------------------------------------
  // Where they lead
  // ---------------------------------------------------------------------------------------

  /** The results of some publications of the batch come in. */
  ghost predicate ResultsIn(
    sys: System, end: System, relay: ClaimantId, ids: seq<SequenceId>, env: Surroundings)
  {
    && relay in sys.relays && sys.relays[relay].Publishing?
    && relay in end.relays && end.relays[relay].Publishing?
    && end.rows == sys.rows && end.clock == sys.clock && end.config == sys.config
    && end.relays[relay].claimedAt == sys.relays[relay].claimedAt
    && end.relays[relay].batch == sys.relays[relay].batch
    && end.relays[relay].results.Keys == sys.relays[relay].results.Keys + (set id | id in ids)
    && (forall id :: id in sys.relays[relay].results && id !in ids ==>
                       end.relays[relay].results[id] == sys.relays[relay].results[id])
    && (forall id :: id in ids ==> end.relays[relay].results[id] == env.publish(id).Confirmed?)
  }

  lemma OneResult(sys: System, relay: ClaimantId, id: SequenceId, env: Surroundings)
    requires AwaitsResult(sys, relay, id)
    ensures Enabled(sys, ResultStep(relay, id, env))
    ensures var next := Apply(sys, ResultStep(relay, id, env));
            && next.rows == sys.rows && next.clock == sys.clock && next.config == sys.config
            && next.relays == sys.relays[relay := sys.relays[relay].(
                 results := sys.relays[relay].results[id := env.publish(id).Confirmed?])]
  {
  }

  lemma ResultsInFurther(
    sys: System, next: System, end: System, relay: ClaimantId, id: SequenceId, ids: seq<SequenceId>, env: Surroundings)
    requires relay in sys.relays && sys.relays[relay].Publishing? && id !in ids
    requires next.rows == sys.rows && next.clock == sys.clock && next.config == sys.config
    requires next.relays == sys.relays[relay := sys.relays[relay].(
               results := sys.relays[relay].results[id := env.publish(id).Confirmed?])]
    requires ResultsIn(next, end, relay, ids, env)
    ensures ResultsIn(sys, end, relay, [id] + ids, env)
  {
    var all := [id] + ids;
    assert (set other | other in all) == {id} + (set other | other in ids);
  }

  lemma {:induction false} ResultsLead(sys: System, relay: ClaimantId, ids: seq<SequenceId>, env: Surroundings)
    returns (end: System)
    requires relay in sys.relays && sys.relays[relay].Publishing? && Distinct(ids)
    requires forall id :: id in ids ==> id in sys.relays[relay].batch && id !in sys.relays[relay].results
    ensures Leads(sys, ResultSteps(relay, ids, env), end) && ResultsIn(sys, end, relay, ids, env)
    decreases |ids|
  {
    if ids == [] {
      end := sys;
    } else {
      var step := ResultStep(relay, ids[0], env);
      OneResult(sys, relay, ids[0], env);
      var next := Apply(sys, step);
      end := ResultsLead(next, relay, ids[1..], env);
      StepLeads(sys, step);
      LeadsFurther(sys, [step], next, ResultSteps(relay, ids[1..], env), end);
      ResultsInFurther(sys, next, end, relay, ids[0], ids[1..], env);
      assert ids == [ids[0]] + ids[1..];
    }
  }

  /** The relay still has exactly these failed rows to release, under these attempts. */
  predicate MustRelease(sys: System, relay: ClaimantId, ids: seq<SequenceId>, attempts: map<SequenceId, nat>) {
    && relay in sys.relays
    && (if ids == [] then sys.relays[relay].Idle?
        else
          && sys.relays[relay].Releasing?
          && sys.relays[relay].failed.Keys == (set id | id in ids)
          && forall id :: id in ids ==> id in attempts && sys.relays[relay].failed[id] == attempts[id])
  }

  /** And it still holds its claim of each. */
  predicate Claimed(sys: System, relay: ClaimantId, ids: seq<SequenceId>, attempts: map<SequenceId, nat>) {
    forall id :: id in ids ==>
      && id in sys.rows && id in attempts
      && HoldsClaim(sys.rows, ToMessage(sys, id, attempts[id]), relay)
  }

  /** The failed rows are rescheduled, the others are as they were. */
  predicate Retried(
    sys: System, end: System, ids: seq<SequenceId>, options: Options, env: Surroundings)
  {
    && end.rows.Keys == sys.rows.Keys
    && (forall id :: id in sys.rows && id !in ids ==> end.rows[id] == sys.rows[id])
    && forall id :: id in ids && id in sys.rows ==> RescheduledRow(sys.rows[id], end.rows[id], id, options, env)
  }

  predicate OptionsOf(options: Options, config: Config) {
    options.lease == config.lease && options.retryBase == config.retryBase && options.retryCap == config.retryCap
  }

  /** One release, at its time: its row is rescheduled. */
  lemma OneRelease(
    sys: System, relay: ClaimantId, ids: seq<SequenceId>, attempts: map<SequenceId, nat>, options: Options,
    env: Surroundings)
    requires env.Valid() && OptionsOf(options, sys.config)
    requires ids != [] && sys.clock == env.releaseAt(ids[0])
    requires MustRelease(sys, relay, ids, attempts) && Claimed(sys, relay, ids, attempts)
    requires env.publish(ids[0]).Failed?
    ensures var step := ReleaseStep(sys.config, relay, ids[0], attempts[ids[0]], env);
            && Enabled(sys, step)
            && var next := Apply(sys, step);
            && next.config == sys.config && next.clock == sys.clock
            && next.relays == sys.relays[relay := Protocol.AfterMark(sys.relays[relay].claimedAt, Without(sys.relays[relay].failed, ids[0]))]
            && OneRescheduled(sys.rows, next.rows, ids[0], options, env)
  {
    RetryDelayWithinJitter(options.retryBase, options.retryCap, attempts[ids[0]], env.random(ids[0]));
    assert Enabled(sys, ReleaseStep(sys.config, relay, ids[0], attempts[ids[0]], env));
  }

  /** And it is off the list. */
  lemma OneLessToRelease(
    sys: System, next: System, relay: ClaimantId, ids: seq<SequenceId>, attempts: map<SequenceId, nat>)
    requires ids != [] && Distinct(ids) && MustRelease(sys, relay, ids, attempts)
    requires next.relays == sys.relays[relay := Protocol.AfterMark(sys.relays[relay].claimedAt, Without(sys.relays[relay].failed, ids[0]))]
    ensures MustRelease(next, relay, ids[1..], attempts)
  {
    var left := Without(sys.relays[relay].failed, ids[0]);
    RestOfIds(ids);
    assert left.Keys == set id | id in ids[1..];
    if |ids| > 1 {
      assert ids[1] in ids[1..] && ids[1] in left;
    } else {
      assert ids[1..] == [] && left == map[];
    }
  }

  lemma ClaimedStays(
    sys: System, next: System, relay: ClaimantId, ids: seq<SequenceId>, attempts: map<SequenceId, nat>, options: Options,
    env: Surroundings)
    requires ids != [] && Distinct(ids) && Claimed(sys, relay, ids, attempts)
    requires OneRescheduled(sys.rows, next.rows, ids[0], options, env)
    ensures Claimed(next, relay, ids[1..], attempts)
  {
    RestOfIds(ids);
  }

  /** Everything that the releases of these rows need, in time and in the relay's hands. */
  ghost predicate CanRelease(
    sys: System, relay: ClaimantId, ids: seq<SequenceId>, attempts: map<SequenceId, nat>, options: Options,
    env: Surroundings)
  {
    && env.Valid() && OptionsOf(options, sys.config)
    && Distinct(ids) && InTime(ids, env, sys.clock)
    && (forall id :: id in ids ==> env.publish(id).Failed? && id in attempts)
    && MustRelease(sys, relay, ids, attempts) && Claimed(sys, relay, ids, attempts)
  }

  /** Waiting for the first release changes nothing. */
  lemma WaitedForRelease(
    sys: System, relay: ClaimantId, ids: seq<SequenceId>, attempts: map<SequenceId, nat>, options: Options,
    env: Surroundings)
    requires ids != [] && CanRelease(sys, relay, ids, attempts, options, env)
    ensures var due := Apply(sys, Tick(env.releaseAt(ids[0]) - sys.clock));
            && due == sys.(clock := env.releaseAt(ids[0]))
            && CanRelease(due, relay, ids, attempts, options, env)
  {
  }

  /** Once the first row is released, the others can be. */
  lemma OthersCanBeReleased(
    sys: System, next: System, relay: ClaimantId, ids: seq<SequenceId>, attempts: map<SequenceId, nat>,
    options: Options, env: Surroundings)
    requires ids != [] && CanRelease(sys, relay, ids, attempts, options, env) && sys.clock == env.releaseAt(ids[0])
    requires next.config == sys.config && next.clock == sys.clock
    requires next.relays == sys.relays[relay := Protocol.AfterMark(sys.relays[relay].claimedAt, Without(sys.relays[relay].failed, ids[0]))]
    requires OneRescheduled(sys.rows, next.rows, ids[0], options, env)
    ensures CanRelease(next, relay, ids[1..], attempts, options, env)
  {
    OneLessToRelease(sys, next, relay, ids, attempts);
    ClaimedStays(sys, next, relay, ids, attempts, options, env);
    RestOfIds(ids);
  }

  lemma ReleaseWorks(
    sys: System, relay: ClaimantId, ids: seq<SequenceId>, attempts: map<SequenceId, nat>, options: Options,
    env: Surroundings)
    returns (next: System)
    requires ids != [] && CanRelease(sys, relay, ids, attempts, options, env) && sys.clock == env.releaseAt(ids[0])
    ensures var step := ReleaseStep(sys.config, relay, ids[0], attempts[ids[0]], env);
            Enabled(sys, step) && next == Apply(sys, step)
    ensures next.config == sys.config && next.clock == sys.clock
    ensures CanRelease(next, relay, ids[1..], attempts, options, env)
    ensures OneRescheduled(sys.rows, next.rows, ids[0], options, env)
  {
    OneRelease(sys, relay, ids, attempts, options, env);
    next := Apply(sys, ReleaseStep(sys.config, relay, ids[0], attempts[ids[0]], env));
    OthersCanBeReleased(sys, next, relay, ids, attempts, options, env);
  }

  /** The two steps that release the first failed row. */
  lemma RetryLeads(
    sys: System, relay: ClaimantId, ids: seq<SequenceId>, attempts: map<SequenceId, nat>, options: Options,
    env: Surroundings)
    returns (next: System)
    requires ids != [] && CanRelease(sys, relay, ids, attempts, options, env)
    ensures Leads(sys, FirstRelease(sys.config, relay, ids[0], attempts, env, sys.clock), next)
    ensures next.config == sys.config && next.clock == env.releaseAt(ids[0])
    ensures CanRelease(next, relay, ids[1..], attempts, options, env)
    ensures OneRescheduled(sys.rows, next.rows, ids[0], options, env)
  {
    WaitedForRelease(sys, relay, ids, attempts, options, env);
    var tick := Tick(env.releaseAt(ids[0]) - sys.clock);
    var due := Apply(sys, tick);
    next := ReleaseWorks(due, relay, ids, attempts, options, env);
    TwoStepsLead(sys, tick, due, ReleaseStep(sys.config, relay, ids[0], attempts[ids[0]], env), next);
  }

  lemma RestOfIds(ids: seq<SequenceId>)
    requires ids != [] && Distinct(ids)
    ensures (set id | id in ids[1..]) == (set id | id in ids) - {ids[0]}
    ensures forall id :: id in ids <==> id == ids[0] || id in ids[1..]
    ensures ids[0] !in ids[1..] && Distinct(ids[1..])
  {
    assert ids == [ids[0]] + ids[1..];
  }

  lemma RetriedFurther(
    sys: System, next: System, end: System, ids: seq<SequenceId>, options: Options, env: Surroundings)
    requires ids != [] && Distinct(ids) && ids[0] in sys.rows
    requires OneRescheduled(sys.rows, next.rows, ids[0], options, env)
    requires Retried(next, end, ids[1..], options, env)
    ensures Retried(sys, end, ids, options, env)
  {
    RestOfIds(ids);
  }

  lemma {:induction false} RetriesLead(
    sys: System, relay: ClaimantId, ids: seq<SequenceId>, attempts: map<SequenceId, nat>, options: Options,
    env: Surroundings)
    returns (end: System)
    requires CanRelease(sys, relay, ids, attempts, options, env)
    ensures Leads(sys, ReleaseSteps(sys.config, relay, ids, attempts, env, sys.clock), end)
    ensures Retried(sys, end, ids, options, env) && relay in end.relays && end.relays[relay].Idle?
    ensures ids == [] ==> end == sys
    decreases |ids|
  {
    if ids == [] {
      end := sys;
    } else {
      var next := RetryLeads(sys, relay, ids, attempts, options, env);
      end := RetriesLead(next, relay, ids[1..], attempts, options, env);
      LeadsFurther(sys, FirstRelease(sys.config, relay, ids[0], attempts, env, sys.clock), next,
                   ReleaseSteps(sys.config, relay, ids[1..], attempts, env, next.clock), end);
      assert ids[0] in sys.rows;
      RetriedFurther(sys, next, end, ids, options, env);
    }
  }

  // ---------------------------------------------------------------------------------------
  // The whole cycle
  // ---------------------------------------------------------------------------------------

  function OptionsFor(config: Config, batch: nat): Options {
    Options(batch, config.lease, config.retryBase, config.retryCap)
  }

  /** The batch with the tokens of its claim. */
  function Tokens(sys: System, ids: seq<SequenceId>): Held {
    map id | id in sys.rows && id in ids :: sys.rows[id].attempts + 1
  }

  /** When the releases begin: right away, or once the confirmed rows are marked. */
  function SettledAt(ids: seq<SequenceId>, env: Surroundings): Time {
    if ConfirmedIds(ids, env) == {} then env.claimAt else env.markAt
  }

  /** The statements of the cycle read clocks that do not go backwards. */
  predicate Timed(ids: seq<SequenceId>, env: Surroundings, clock: Time) {
    env.claimAt == clock && clock <= env.markAt && InTime(FailedIds(ids, env), env, SettledAt(ids, env))
  }

  /** The mark of a cycle with confirmed rows, at its time. */
  function MarkSteps(relay: ClaimantId, ids: seq<SequenceId>, env: Surroundings): seq<Action>
    requires env.claimAt <= env.markAt
  {
    if ConfirmedIds(ids, env) == {} then [] else [Tick(env.markAt - env.claimAt), Mark(relay, env.markFate)]
  }

  /**
   * A cycle without interruption: the claim, a result for every claimed row, then the mark and
   * the releases. A relay whose claim's reply is lost knows of no row, as if it had started anew.
   */
  ghost function CycleSteps(sys: System, relay: ClaimantId, batch: nat, env: Surroundings): seq<Action>
    requires env.Valid() && Timed(ClaimIds(sys, batch, env.locked), env, sys.clock)
  {
    var claim, ids := Claim(relay, batch, env.locked), ClaimIds(sys, batch, env.locked);
    FirstIdsTakesOldest(DueIds(sys.rows, sys.clock, env.locked), batch);
    FailedIdsAre(ids, env);
    if env.claimFate.NotApplied? then []
    else if env.claimFate.AppliedReplyLost? then [claim, Crash(relay), Start(relay)]
    else if ids == [] then [claim]
    else
      [claim] + ResultSteps(relay, ids, env) + [Settle(relay)] + MarkSteps(relay, ids, env)
      + if ReportsError(sys.rows, OptionsFor(sys.config, batch), env) then []
        else ReleaseSteps(sys.config, relay, FailedIds(ids, env), Tokens(sys, ids), env, SettledAt(ids, env))
  }

  lemma {:induction false} FailedIdsAre(ids: seq<SequenceId>, env: Surroundings)
    ensures forall id :: id in FailedIds(ids, env) <==> id in ids && env.publish(id).Failed?
    ensures Distinct(ids) ==> Distinct(FailedIds(ids, env))
  {
    if ids != [] {
      FailedIdsAre(ids[1..], env);
      assert ids == [ids[0]] + ids[1..];
    }
  }

  /** The claim hands the relay its batch. */
  lemma ClaimLeads(sys: System, relay: ClaimantId, batch: nat, env: Surroundings) returns (claimed: System)
    requires relay in sys.relays && sys.relays[relay].Idle?
    ensures var ids := ClaimIds(sys, batch, env.locked);
            && Leads(sys, [Claim(relay, batch, env.locked)], claimed)
            && claimed.rows == ClaimRows(sys.rows, ids, relay, sys.config.lease, sys.clock)
            && claimed.config == sys.config && claimed.clock == sys.clock
            && (forall id :: id in ids ==> id in sys.rows && IsDue(sys.rows[id], sys.clock)) && Distinct(ids)
            && claimed.relays == if ids == [] then sys.relays
                                 else sys.relays[relay := Publishing(sys.clock, Tokens(sys, ids), map[])]
  {
    var ids := ClaimIds(sys, batch, env.locked);
    FirstIdsTakesOldest(DueIds(sys.rows, sys.clock, env.locked), batch);
    var claim := Claim(relay, batch, env.locked);
    StepLeads(sys, claim);
    claimed := Apply(sys, claim);
    if ids != [] {
      assert ids[0] in Tokens(sys, ids);
    } else {
      assert Tokens(sys, ids) == map[];
    }
  }

  /** The parts that a settled batch is split into. */
  predicate BatchSplit(cycle: Cycle, ids: seq<SequenceId>, tokens: Held, env: Surroundings, claimedAt: Time) {
    var published := map id | id in tokens && env.publish(id).Confirmed? :: tokens[id];
    var failed := map id | id in tokens && env.publish(id).Failed? :: tokens[id];
    cycle == if published == map[] then Releasing(claimedAt, failed) else Marking(claimedAt, published, failed)
  }

  lemma ResultsSettle(sys: System, end: System, relay: ClaimantId, ids: seq<SequenceId>, tokens: Held, env: Surroundings)
    requires relay in sys.relays && sys.relays[relay] == Publishing(sys.clock, tokens, map[])
    requires tokens.Keys == (set id | id in ids) && ResultsIn(sys, end, relay, ids, env)
    ensures Enabled(end, Settle(relay))
    ensures var settled := Apply(end, Settle(relay));
            && settled.rows == sys.rows && settled.clock == sys.clock && settled.config == sys.config
            && relay in settled.relays && BatchSplit(settled.relays[relay], ids, tokens, env, sys.clock)
  {
    var cycle := end.relays[relay];
    assert WithResult(cycle, true) == map id | id in tokens && env.publish(id).Confirmed? :: tokens[id];
    assert WithResult(cycle, false) == map id | id in tokens && env.publish(id).Failed? :: tokens[id];
  }

  /** Claim, results and settlement together. */
  lemma BatchLeads(sys: System, relay: ClaimantId, batch: nat, env: Surroundings) returns (settled: System)
    requires relay in sys.relays && sys.relays[relay].Idle? && ClaimIds(sys, batch, env.locked) != []
    ensures var ids := ClaimIds(sys, batch, env.locked);
            && Leads(sys, [Claim(relay, batch, env.locked)] + ResultSteps(relay, ids, env) + [Settle(relay)], settled)
            && settled.rows == ClaimRows(sys.rows, ids, relay, sys.config.lease, sys.clock)
            && settled.config == sys.config && settled.clock == sys.clock
            && (forall id :: id in ids ==> id in sys.rows && IsDue(sys.rows[id], sys.clock)) && Distinct(ids)
            && relay in settled.relays && BatchSplit(settled.relays[relay], ids, Tokens(sys, ids), env, sys.clock)
  {
    var ids, claim := ClaimIds(sys, batch, env.locked), Claim(relay, batch, env.locked);
    var claimed := ClaimLeads(sys, relay, batch, env);
    var tokens := Tokens(sys, ids);
    assert tokens.Keys == set id | id in ids;
    var end := ResultsLead(claimed, relay, ids, env);
    LeadsFurther(sys, [claim], claimed, ResultSteps(relay, ids, env), end);
    ResultsSettle(claimed, end, relay, ids, tokens, env);
    settled := Apply(end, Settle(relay));
    LeadsOneMore(sys, [claim] + ResultSteps(relay, ids, env), end, Settle(relay));
  }

  /** What is on the release list after the mark, or instead of it. */
  lemma FailedIsList(ids: seq<SequenceId>, tokens: Held, env: Surroundings, failed: Held)
    requires tokens.Keys == (set id | id in ids)
    requires failed == map id | id in tokens && env.publish(id).Failed? :: tokens[id]
    ensures failed.Keys == set id | id in FailedIds(ids, env)
    ensures forall id :: id in FailedIds(ids, env) ==> id in tokens && failed[id] == tokens[id]
    ensures FailedIds(ids, env) == [] <==> failed == map[]
  {
    FailedIdsAre(ids, env);
    if FailedIds(ids, env) != [] {
      assert FailedIds(ids, env)[0] in failed;
    }
  }

  lemma PublishedAre(ids: seq<SequenceId>, tokens: Held, env: Surroundings, published: Held)
    requires tokens.Keys == (set id | id in ids)
    requires published == map id | id in tokens && env.publish(id).Confirmed? :: tokens[id]
    ensures published.Keys == ConfirmedIds(ids, env)
    ensures published == map[] <==> ConfirmedIds(ids, env) == {}
  {
  }

  /** Without a confirmed row the relay goes on to its releases at once. */
  lemma NothingToMark(sys: System, relay: ClaimantId, ids: seq<SequenceId>, tokens: Held, env: Surroundings)
    requires relay in sys.relays && BatchSplit(sys.relays[relay], ids, tokens, env, sys.clock)
    requires ids != [] && tokens.Keys == (set id | id in ids) && ConfirmedIds(ids, env) == {}
    ensures MustRelease(sys, relay, FailedIds(ids, env), tokens)
  {
    var published := map id | id in tokens && env.publish(id).Confirmed? :: tokens[id];
    var failed := map id | id in tokens && env.publish(id).Failed? :: tokens[id];
    PublishedAre(ids, tokens, env, published);
    FailedIsList(ids, tokens, env, failed);
    FailedIdsAre(ids, env);
    assert ids[0] in ids && ids[0] !in ConfirmedIds(ids, env);
    assert ids[0] in FailedIds(ids, env);
  }

  lemma MarkStep(sys: System, relay: ClaimantId, ids: seq<SequenceId>, tokens: Held, env: Surroundings)
    requires relay in sys.relays && BatchSplit(sys.relays[relay], ids, tokens, env, env.claimAt)
    requires tokens.Keys == (set id | id in ids) && ConfirmedIds(ids, env) != {} && sys.clock == env.markAt
    ensures Enabled(sys, Mark(relay, env.markFate))
    ensures var marked := Apply(sys, Mark(relay, env.markFate));
            && marked.config == sys.config && marked.clock == sys.clock && relay in marked.relays
            && marked.rows == (if env.markFate.NotApplied? then sys.rows
                               else MarkRows(sys.rows, ConfirmedIds(ids, env), env.markAt))
            && if env.markFate.Applied? then MustRelease(marked, relay, FailedIds(ids, env), tokens)
               else marked.relays[relay].Idle?
  {
    var published := map id | id in tokens && env.publish(id).Confirmed? :: tokens[id];
    var failed := map id | id in tokens && env.publish(id).Failed? :: tokens[id];
    PublishedAre(ids, tokens, env, published);
    FailedIsList(ids, tokens, env, failed);
  }

  /** The mark, at its time. */
  lemma ConfirmedAreMarked(sys: System, relay: ClaimantId, ids: seq<SequenceId>, tokens: Held, env: Surroundings)
    returns (marked: System)
    requires relay in sys.relays && BatchSplit(sys.relays[relay], ids, tokens, env, sys.clock)
    requires tokens.Keys == (set id | id in ids) && ConfirmedIds(ids, env) != {}
    requires env.claimAt == sys.clock <= env.markAt
    ensures Leads(sys, [Tick(env.markAt - env.claimAt), Mark(relay, env.markFate)], marked)
    ensures marked.config == sys.config && marked.clock == env.markAt && relay in marked.relays
    ensures marked.rows == if env.markFate.NotApplied? then sys.rows
                           else MarkRows(sys.rows, ConfirmedIds(ids, env), env.markAt)
    ensures if env.markFate.Applied? then MustRelease(marked, relay, FailedIds(ids, env), tokens)
            else marked.relays[relay].Idle?
  {
    var tick, mark := Tick(env.markAt - env.claimAt), Mark(relay, env.markFate);
    var later := Apply(sys, tick);
    MarkStep(later, relay, ids, tokens, env);
    marked := Apply(later, mark);
    TwoStepsLead(sys, tick, later, mark, marked);
  }

  /** The confirmed rows are marked, if there are any; then the failed ones are to be released. */
  lemma MarkLeads(sys: System, relay: ClaimantId, ids: seq<SequenceId>, tokens: Held, env: Surroundings)
    returns (marked: System)
    requires relay in sys.relays && BatchSplit(sys.relays[relay], ids, tokens, env, sys.clock)
    requires ids != [] && tokens.Keys == (set id | id in ids)
    requires env.claimAt == sys.clock <= env.markAt
    ensures Leads(sys, MarkSteps(relay, ids, env), marked)
    ensures marked.config == sys.config && marked.clock == SettledAt(ids, env)
    ensures marked.rows == if ConfirmedIds(ids, env) == {} || env.markFate.NotApplied? then sys.rows
                           else MarkRows(sys.rows, ConfirmedIds(ids, env), env.markAt)
    ensures if ConfirmedIds(ids, env) == {} || env.markFate.Applied? then MustRelease(marked, relay, FailedIds(ids, env), tokens)
            else relay in marked.relays && marked.relays[relay].Idle?
  {
    if ConfirmedIds(ids, env) == {} {
      NothingToMark(sys, relay, ids, tokens, env);
      marked := sys;
    } else {
      marked := ConfirmedAreMarked(sys, relay, ids, tokens, env);
    }
  }

  /** The batch's rows after the mark: claimed, and marked where confirmed. */
  lemma BatchAfterMark(
    sys: System, marked: System, relay: ClaimantId, ids: seq<SequenceId>, env: Surroundings)
    requires forall id :: id in ids ==> id in sys.rows && sys.rows[id].publishedAt.None?
    requires var claimed := ClaimRows(sys.rows, ids, relay, sys.config.lease, sys.clock);
             marked.rows == if ConfirmedIds(ids, env) == {} then claimed
                            else MarkRows(claimed, ConfirmedIds(ids, env), env.markAt)
    ensures marked.rows.Keys == sys.rows.Keys
    ensures forall id :: id in sys.rows && id !in ids ==> marked.rows[id] == sys.rows[id]
    ensures forall id :: id in ids ==>
                           var row := ClaimRow(sys.rows[id], relay, sys.config.lease, sys.clock);
                           marked.rows[id] == if env.publish(id).Confirmed? then MarkRow(row, env.markAt) else row
  {
    assert forall id :: id in ids ==> (env.publish(id).Confirmed? <==> id in ConfirmedIds(ids, env));
  }

  /** After the mark the relay's claims of the failed rows are as fresh as they were made. */
  lemma FailedStayClaimed(
    sys: System, marked: System, relay: ClaimantId, ids: seq<SequenceId>, env: Surroundings)
    requires forall id :: id in ids ==> id in sys.rows && sys.rows[id].publishedAt.None?
    requires marked.rows.Keys == sys.rows.Keys
    requires forall id :: id in ids && env.publish(id).Failed? ==>
                            marked.rows[id] == ClaimRow(sys.rows[id], relay, sys.config.lease, sys.clock)
    ensures Claimed(marked, relay, FailedIds(ids, env), Tokens(sys, ids))
  {
    FailedIdsAre(ids, env);
  }

  lemma RetriedIsSettled(
    sys: System, marked: System, end: System, relay: ClaimantId, ids: seq<SequenceId>, options: Options, env: Surroundings)
    requires OptionsOf(options, sys.config) && env.claimAt == sys.clock
    requires forall id :: id in ids ==> id in sys.rows
    requires marked.rows.Keys == sys.rows.Keys
    requires forall id :: id in sys.rows && id !in ids ==> marked.rows[id] == sys.rows[id]
    requires forall id :: id in ids ==>
                            var row := ClaimRow(sys.rows[id], relay, sys.config.lease, sys.clock);
                            marked.rows[id] == if env.publish(id).Confirmed? then MarkRow(row, env.markAt) else row
    requires Retried(marked, end, FailedIds(ids, env), options, env)
    ensures BatchSettled(sys.rows, ids, end.rows, relay, options, env)
  {
    FailedIdsAre(ids, env);
    forall id | id in ids
      ensures SettledRow(sys.rows[id], end.rows[id], id, options, env, relay)
    {
      assert env.publish(id).Failed? <==> id in FailedIds(ids, env);
    }
  }

  /** The steps of a cycle that claims rows and hears of it. */
  ghost function BusySteps(sys: System, relay: ClaimantId, batch: nat, env: Surroundings): seq<Action>
    requires env.claimAt <= env.markAt
  {
    var ids := ClaimIds(sys, batch, env.locked);
    [Claim(relay, batch, env.locked)] + ResultSteps(relay, ids, env) + [Settle(relay)] + MarkSteps(relay, ids, env)
  }

  /** Such a cycle up to and including its mark. */
  lemma BusyCycleLeads(sys: System, relay: ClaimantId, batch: nat, env: Surroundings) returns (marked: System)
    requires relay in sys.relays && sys.relays[relay].Idle?
    requires env.claimAt == sys.clock <= env.markAt && ClaimIds(sys, batch, env.locked) != []
    ensures var ids := ClaimIds(sys, batch, env.locked);
            && Leads(sys, BusySteps(sys, relay, batch, env), marked)
            && marked.config == sys.config && marked.clock == SettledAt(ids, env)
            && (forall id :: id in ids ==> id in sys.rows && IsDue(sys.rows[id], sys.clock)) && Distinct(ids)
            && marked.rows == (if ConfirmedIds(ids, env) == {} || env.markFate.NotApplied?
                               then ClaimRows(sys.rows, ids, relay, sys.config.lease, sys.clock)
                               else MarkRows(ClaimRows(sys.rows, ids, relay, sys.config.lease, sys.clock),
                                             ConfirmedIds(ids, env), env.markAt))
            && if ConfirmedIds(ids, env) == {} || env.markFate.Applied?
               then MustRelease(marked, relay, FailedIds(ids, env), Tokens(sys, ids))
               else relay in marked.relays && marked.relays[relay].Idle?
  {
    var ids := ClaimIds(sys, batch, env.locked);
    var settled := BatchLeads(sys, relay, batch, env);
    assert Tokens(sys, ids).Keys == set id | id in ids;
    marked := MarkLeads(settled, relay, ids, Tokens(sys, ids), env);
    LeadsFurther(sys, [Claim(relay, batch, env.locked)] + ResultSteps(relay, ids, env) + [Settle(relay)], settled,
                 MarkSteps(relay, ids, env), marked);
  }

  /** The releases of a cycle whose confirmed rows are marked. */
  lemma ReleasesLead(
    sys: System, marked: System, relay: ClaimantId, batch: nat, env: Surroundings, ids: seq<SequenceId>)
    returns (end: System)
    requires env.Valid() && env.claimAt == sys.clock && marked.config == sys.config && Distinct(ids)
    requires forall id :: id in ids ==> id in sys.rows && sys.rows[id].publishedAt.None?
    requires marked.clock == SettledAt(ids, env) && InTime(FailedIds(ids, env), env, marked.clock)
    requires var claimed := ClaimRows(sys.rows, ids, relay, sys.config.lease, sys.clock);
             marked.rows == if ConfirmedIds(ids, env) == {} then claimed
                            else MarkRows(claimed, ConfirmedIds(ids, env), env.markAt)
    requires MustRelease(marked, relay, FailedIds(ids, env), Tokens(sys, ids))
    ensures forall id :: id in FailedIds(ids, env) ==> id in Tokens(sys, ids)
    ensures Leads(marked, ReleaseSteps(sys.config, relay, FailedIds(ids, env), Tokens(sys, ids), env, marked.clock), end)
    ensures BatchSettled(sys.rows, ids, end.rows, relay, OptionsFor(sys.config, batch), env)
    ensures relay in end.relays && end.relays[relay].Idle?
    ensures FailedIds(ids, env) == [] ==> end == marked
  {
    BatchAfterMark(sys, marked, relay, ids, env);
    FailedStayClaimed(sys, marked, relay, ids, env);
    FailedIdsAre(ids, env);
    end := RetriesLead(marked, relay, FailedIds(ids, env), Tokens(sys, ids), OptionsFor(sys.config, batch), env);
    RetriedIsSettled(sys, marked, end, relay, ids, OptionsFor(sys.config, batch), env);
  }

  /** The idle relay after the cycle, and the table that the cycle leaves. */
  ghost predicate CycleEnds(sys: System, end: System, relay: ClaimantId, batch: nat, env: Surroundings) {
    && relay in end.relays && end.relays[relay].Idle?
    && CycleLeaves(sys.rows, end.rows, OptionsFor(sys.config, batch), env, relay)
  }

  lemma QuietCycleIsRun(sys: System, relay: ClaimantId, batch: nat, env: Surroundings) returns (end: System)
    requires relay in sys.relays && sys.relays[relay].Idle? && env.Valid()
    requires Timed(ClaimIds(sys, batch, env.locked), env, sys.clock)
    requires !env.claimFate.Applied? || ClaimIds(sys, batch, env.locked) == []
    ensures Leads(sys, CycleSteps(sys, relay, batch, env), end) && CycleEnds(sys, end, relay, batch, env)
  {
    var ids, claim := ClaimIds(sys, batch, env.locked), Claim(relay, batch, env.locked);
    if env.claimFate.NotApplied? {
      end := sys;
    } else {
      var claimed := ClaimLeads(sys, relay, batch, env);
      if env.claimFate.AppliedReplyLost? {
        var crashed := Apply(claimed, Crash(relay));
        LeadsOneMore(sys, [claim], claimed, Crash(relay));
        LeadsOneMore(sys, [claim] + [Crash(relay)], crashed, Start(relay));
        end := Apply(crashed, Start(relay));
        assert [claim] + [Crash(relay)] + [Start(relay)] == [claim, Crash(relay), Start(relay)];
      } else {
        NothingClaimed(sys.rows, ids, OptionsFor(sys.config, batch), env, relay);
        end := claimed;
      }
    }
  }

  lemma FailedMarkIsRun(sys: System, relay: ClaimantId, batch: nat, env: Surroundings) returns (end: System)
    requires relay in sys.relays && sys.relays[relay].Idle? && env.Valid()
    requires Timed(ClaimIds(sys, batch, env.locked), env, sys.clock)
    requires env.claimFate.Applied? && ClaimIds(sys, batch, env.locked) != []
    requires ReportsError(sys.rows, OptionsFor(sys.config, batch), env)
    ensures Leads(sys, CycleSteps(sys, relay, batch, env), end) && CycleEnds(sys, end, relay, batch, env)
  {
    end := BusyCycleLeads(sys, relay, batch, env);
    assert BusySteps(sys, relay, batch, env) + [] == BusySteps(sys, relay, batch, env);
  }

  lemma SettledCycleIsRun(sys: System, relay: ClaimantId, batch: nat, env: Surroundings) returns (end: System)
    requires relay in sys.relays && sys.relays[relay].Idle? && env.Valid()
    requires Timed(ClaimIds(sys, batch, env.locked), env, sys.clock)
    requires env.claimFate.Applied? && ClaimIds(sys, batch, env.locked) != []
    requires !ReportsError(sys.rows, OptionsFor(sys.config, batch), env)
    ensures Leads(sys, CycleSteps(sys, relay, batch, env), end) && CycleEnds(sys, end, relay, batch, env)
    ensures var ids := ClaimIds(sys, batch, env.locked); FailedIds(ids, env) == [] ==> end.clock == SettledAt(ids, env)
  {
    var ids := ClaimIds(sys, batch, env.locked);
    var marked := BusyCycleLeads(sys, relay, batch, env);
    end := ReleasesLead(sys, marked, relay, batch, env, ids);
    LeadsFurther(sys, BusySteps(sys, relay, batch, env), marked,
                 ReleaseSteps(sys.config, relay, FailedIds(ids, env), Tokens(sys, ids), env, marked.clock), end);
  }

  /**
   * An uninterrupted cycle, however its statements and publications end, is a run of the
   * protocol that leaves exactly the table the cycle's own code leaves.
   */
  lemma CycleIsRun(sys: System, relay: ClaimantId, batch: nat, env: Surroundings)
    requires relay in sys.relays && sys.relays[relay].Idle? && env.Valid()
    requires Timed(ClaimIds(sys, batch, env.locked), env, sys.clock)
    ensures ValidRun(sys, CycleSteps(sys, relay, batch, env))
    ensures CycleEnds(sys, After(sys, CycleSteps(sys, relay, batch, env)), relay, batch, env)
  {
    var end: System;
    if !env.claimFate.Applied? || ClaimIds(sys, batch, env.locked) == [] {
      end := QuietCycleIsRun(sys, relay, batch, env);
    } else if ReportsError(sys.rows, OptionsFor(sys.config, batch), env) {
      end := FailedMarkIsRun(sys, relay, batch, env);
    } else {
      end := SettledCycleIsRun(sys, relay, batch, env);
    }
    LeadsIsRun(sys, CycleSteps(sys, relay, batch, env), end);
  }

  // ---------------------------------------------------------------------------------------
  // Draining with a fixed batch size
  // ---------------------------------------------------------------------------------------

  /** Steps of relays only, and all claims are of one size. */
  predicate FixedBatch(steps: seq<Action>, batch: nat) {
    forall i :: 0 <= i < |steps| ==> !steps[i].Insert? && (steps[i].Claim? ==> steps[i].limit == batch)
  }

  /** Everything works, at one moment. */
  function Smoothly(now: Time): Surroundings {
    Surroundings(now, Fate.Applied, {}, id => PublishResult.Confirmed, now, Fate.Applied, id => now, id => Fate.Applied, id => 0.0)
  }

  lemma {:induction false} ResultStepsAreBatched(relay: ClaimantId, ids: seq<SequenceId>, env: Surroundings, batch: nat)
    ensures FixedBatch(ResultSteps(relay, ids, env), batch)
  {
    if ids != [] {
      ResultStepsAreBatched(relay, ids[1..], env, batch);
    }
  }

  lemma {:induction false} NoneFails(ids: seq<SequenceId>, now: Time)
    ensures FailedIds(ids, Smoothly(now)) == []
    ensures ConfirmedIds(ids, Smoothly(now)) == set id | id in ids
  {
    if ids != [] {
      NoneFails(ids[1..], now);
    }
  }

  lemma BusyStepsAreBatched(sys: System, relay: ClaimantId, batch: nat, env: Surroundings)
    requires env.claimAt <= env.markAt
    ensures FixedBatch(BusySteps(sys, relay, batch, env), batch)
  {
    ResultStepsAreBatched(relay, ClaimIds(sys, batch, env.locked), env, batch);
  }

  /** A cycle in which everything works publishes its whole batch at once. */
  lemma SmoothCycle(sys: System, relay: ClaimantId, batch: nat) returns (steps: seq<Action>, end: System)
    requires relay in sys.relays && sys.relays[relay].Idle? && ClaimIds(sys, batch, {}) != []
    ensures var ids := ClaimIds(sys, batch, {});
            && Leads(sys, steps, end) && FixedBatch(steps, batch)
            && end.clock == sys.clock && end.config == sys.config && end.rows.Keys == sys.rows.Keys
            && (forall id :: id in sys.rows && id !in ids ==> end.rows[id] == sys.rows[id])
            && (forall id :: id in ids ==> id in sys.rows && end.rows[id].publishedAt.Some?)
            && relay in end.relays && end.relays[relay].Idle?
  {
    var ids, env := ClaimIds(sys, batch, {}), Smoothly(sys.clock);
    NoneFails(ids, sys.clock);
    assert ConfirmedIds(ids, env) != {} by {
      assert ids[0] in ConfirmedIds(ids, env);
    }
    steps := BusySteps(sys, relay, batch, env);
    end := BusyCycleLeads(sys, relay, batch, env);
    BatchAfterMark(sys, end, relay, ids, env);
    BusyStepsAreBatched(sys, relay, batch, env);
  }

  /** After the cycle fewer older rows are due. */
  lemma CycleHelps(sys: System, end: System, row: SequenceId, batch: nat)
    requires batch >= 1 && row in sys.rows && IsDue(sys.rows[row], sys.clock)
    requires var ids := ClaimIds(sys, batch, {});
             && end.clock == sys.clock && end.rows.Keys == sys.rows.Keys && row !in ids
             && (forall id :: id in sys.rows && id !in ids ==> end.rows[id] == sys.rows[id])
             && (forall id :: id in ids ==> id in sys.rows && end.rows[id].publishedAt.Some?)
    ensures |OlderDue(end, row)| < |OlderDue(sys, row)|
  {
    var due, ids := DueIds(sys.rows, sys.clock, {}), ClaimIds(sys, batch, {});
    FirstIdsTakesOldest(due, batch);
    assert row in due;
    var oldest := ids[0];
    assert oldest in ids && oldest < row && oldest in OlderDue(sys, row);
    SubsetSize(OlderDue(end, row), OlderDue(sys, row) - {oldest});
  }

  /** One relay, cycle after cycle of the same size, works through the older rows and publishes the row. */
  lemma {:induction false} Drains(sys: System, relay: ClaimantId, row: SequenceId, batch: nat)
    returns (steps: seq<Action>, end: System)
    requires batch >= 1 && relay in sys.relays && sys.relays[relay].Idle?
    requires row in sys.rows && IsDue(sys.rows[row], sys.clock)
    ensures Leads(sys, steps, end) && FixedBatch(steps, batch)
    ensures row in end.rows && end.rows[row].publishedAt.Some?
    decreases |OlderDue(sys, row)|
  {
    var due := DueIds(sys.rows, sys.clock, {});
    FirstIdsTakesOldest(due, batch);
    assert row in due;
    var next: System;
    steps, next := SmoothCycle(sys, relay, batch);
    if row in ClaimIds(sys, batch, {}) {
      end := next;
    } else {
      CycleHelps(sys, next, row, batch);
      var rest;
      rest, end := Drains(next, relay, row, batch);
      LeadsFurther(sys, steps, next, rest, end);
      steps := steps + rest;
    }
  }

  /**
   * Whatever the relays were doing and however many older rows wait, a new relay with any
   * fixed batch size gets an unpublished row confirmed.
   */
  lemma CanPublish(sys: System, row: SequenceId, batch: nat) returns (steps: seq<Action>)
    requires Inv(sys) && row in sys.rows && sys.rows[row].publishedAt.None? && batch >= 1
    ensures ValidRun(sys, steps) && FixedBatch(steps, batch)
    ensures row in After(sys, steps).confirmed
  {
    var relay := NewNumber(sys.relays.Keys);
    var start, tick := Start(relay), Tick(sys.rows[row].availableAt);
    var started := Apply(sys, start);
    var later := Apply(started, tick);
    StepLeads(sys, start);
    LeadsOneMore(sys, [start], started, tick);
    var rest, end := Drains(later, relay, row, batch);
    LeadsFurther(sys, [start] + [tick], later, rest, end);
    steps := [start] + [tick] + rest;
    LeadsIsRun(sys, steps, end);
    LeadsKeepsInv(sys, steps, end);
    assert RowInv(end, row);
  }
}
