/**
 * Any number of relays working on one outbox table at once.
 *
 * A relay's cycle is cut at each await: the claim, every publication, the mark and every
 * release are separate steps, and the steps of all relays interleave freely with the passing
 * of time, with new rows, with crashes and with statements whose effect or reply is lost.
 * The table changes are those of `OutboxStore`.
 */
module OutboxProtocol {
  import opened Contracts
  import opened OutboxStore
  import opened Backoff

  datatype Config = Config(lease: nat, retryBase: nat, retryCap: nat)

  /** A claim of a row: issued once, carried by the follow-up statements. */
  datatype Token = Token(id: SequenceId, attempt: nat)

  /** The rows a relay still has to deal with, each with the attempt it was claimed under. */
  type Held = map<SequenceId, nat>

  datatype Cycle =
    | Idle
    | Publishing(claimedAt: Time, batch: Held, results: map<SequenceId, bool>)
    | Marking(claimedAt: Time, published: Held, failed: Held)
    | Releasing(claimedAt: Time, failed: Held)

  datatype System = System(
    config: Config,
    clock: Time,
    rows: Table,
    relays: map<ClaimantId, Cycle>,
    // History, read by no relay:
    confirmed: set<SequenceId>,           // rows some publication of which was confirmed
    copies: map<SequenceId, nat>,         // messages the broker accepted for the row
    claimants: map<SequenceId, seq<ClaimantId>>,   // who made the first, second, ... claim of the row
    released: set<Token>,                 // the claims given back by a release
    touchedAt: map<SequenceId, Time>)     // last insert, claim or release of the row

  datatype Action =
    | Tick(duration: nat)
    | Insert(id: SequenceId, event: Event)
    | Start(relay: ClaimantId)
    | Claim(relay: ClaimantId, limit: nat, locked: set<SequenceId>)
    | Confirm(relay: ClaimantId, id: SequenceId)
    | Fail(relay: ClaimantId, id: SequenceId)
    | LateAccept(id: SequenceId)
    | Settle(relay: ClaimantId)
    | Mark(relay: ClaimantId, fate: Fate)
    | Release(relay: ClaimantId, id: SequenceId, delay: nat, error: string, fate: Fate)
    | Crash(relay: ClaimantId)

  function InHand(cycle: Cycle): Held {
    match cycle
    case Idle => map[]
    case Publishing(_, batch, _) => batch
    case Marking(_, published, failed) => published + failed
    case Releasing(_, failed) => failed
  }

  /** The relay still has to deal with the row. */
  predicate Holds(sys: System, relay: ClaimantId, id: SequenceId) {
    relay in sys.relays && id in InHand(sys.relays[relay])
  }

  function Without(held: Held, id: SequenceId): Held {
    map other | other in held && other != id :: held[other]
  }

  function WithResult(cycle: Cycle, confirmed: bool): Held
    requires cycle.Publishing? && cycle.batch.Keys == cycle.results.Keys
  {
    map id | id in cycle.batch && cycle.results[id] == confirmed :: cycle.batch[id]
  }

  function Count(copies: map<SequenceId, nat>, id: SequenceId): nat {
    if id in copies then copies[id] else 0
  }

  ghost function ClaimIds(sys: System, limit: nat, locked: set<SequenceId>): seq<SequenceId> {
    FirstIds(DueIds(sys.rows, sys.clock, locked), limit)
  }

  ghost predicate Enabled(sys: System, action: Action) {
    match action
    case Tick(_) => true
    case Insert(id, _) => id !in sys.rows
    case Start(relay) => relay !in sys.relays
    case Claim(relay, _, _) => relay in sys.relays && sys.relays[relay].Idle?
    case Confirm(relay, id) => AwaitsResult(sys, relay, id)
    case Fail(relay, id) => AwaitsResult(sys, relay, id)
    case LateAccept(id) => id in sys.rows && sys.rows[id].attempts > 0
    case Settle(relay) =>
      && relay in sys.relays
      && sys.relays[relay].Publishing?
      && sys.relays[relay].batch.Keys == sys.relays[relay].results.Keys
    case Mark(relay, _) => relay in sys.relays && sys.relays[relay].Marking?
    case Release(relay, id, delay, _, _) =>
      && relay in sys.relays
      && sys.relays[relay].Releasing?
      && id in sys.relays[relay].failed
      && WithinJitter(sys.config.retryBase, sys.config.retryCap, sys.relays[relay].failed[id], delay)
    case Crash(relay) => relay in sys.relays
  }

  predicate AwaitsResult(sys: System, relay: ClaimantId, id: SequenceId) {
    && relay in sys.relays
    && sys.relays[relay].Publishing?
    && id in sys.relays[relay].batch
    && id !in sys.relays[relay].results
  }

  ghost function Apply(sys: System, action: Action): System
    requires Enabled(sys, action)
  {
    match action
    case Tick(duration) => sys.(clock := sys.clock + duration)
    case Insert(id, event) =>
      sys.(rows := sys.rows[id := NewRow(event, sys.clock)], touchedAt := sys.touchedAt[id := sys.clock],
      claimants := sys.claimants[id := []])
    case Start(relay) => sys.(relays := sys.relays[relay := Idle])
    case Claim(relay, limit, locked) => ApplyClaim(sys, relay, ClaimIds(sys, limit, locked))
    case Confirm(relay, id) =>
      var cycle := sys.relays[relay];
      sys.(relays := sys.relays[relay := cycle.(results := cycle.results[id := true])],
      confirmed := sys.confirmed + {id},
      copies := sys.copies[id := Count(sys.copies, id) + 1])
    case Fail(relay, id) =>
      var cycle := sys.relays[relay];
      sys.(relays := sys.relays[relay := cycle.(results := cycle.results[id := false])])
    case LateAccept(id) => sys.(copies := sys.copies[id := Count(sys.copies, id) + 1])
    case Settle(relay) =>
      var cycle := sys.relays[relay];
      var published, failed := WithResult(cycle, true), WithResult(cycle, false);
      sys.(relays := sys.relays[relay := if published == map[] then Releasing(cycle.claimedAt, failed)
                                         else Marking(cycle.claimedAt, published, failed)])
    case Mark(relay, fate) => ApplyMark(sys, relay, fate)
    case Release(relay, id, delay, error, fate) => ApplyRelease(sys, relay, id, delay, error, fate)
    case Crash(relay) => sys.(relays := map other | other in sys.relays && other != relay :: sys.relays[other])
  }

  /** A claim of no rows ends the cycle at once. */
  function ApplyClaim(sys: System, relay: ClaimantId, ids: seq<SequenceId>): System {
    var batch := map id | id in sys.rows && id in ids :: sys.rows[id].attempts + 1;
    sys.(rows := ClaimRows(sys.rows, ids, relay, sys.config.lease, sys.clock),
    relays := if batch == map[] then sys.relays else sys.relays[relay := Publishing(sys.clock, batch, map[])],
    claimants := map id | id in sys.claimants ::
      if id in ids then sys.claimants[id] + [relay] else sys.claimants[id],
    touchedAt := map id | id in sys.touchedAt :: if id in ids then sys.clock else sys.touchedAt[id])
  }

  /** A mark that reports an error ends the cycle: nothing is released. */
  function ApplyMark(sys: System, relay: ClaimantId, fate: Fate): System
    requires relay in sys.relays && sys.relays[relay].Marking?
  {
    var cycle := sys.relays[relay];
    sys.(rows := if fate.NotApplied? then sys.rows else MarkRows(sys.rows, cycle.published.Keys, sys.clock),
    relays := sys.relays[relay := if fate.Applied? then AfterMark(cycle.claimedAt, cycle.failed) else Idle])
  }

  function AfterMark(claimedAt: Time, failed: Held): Cycle {
    if failed == map[] then Idle else Releasing(claimedAt, failed)
  }

  function ToMessage(sys: System, id: SequenceId, attempt: nat): Message
    requires id in sys.rows
  {
    Message(id, sys.rows[id].event, attempt)
  }

  function ApplyRelease(
    sys: System, relay: ClaimantId, id: SequenceId, delay: nat, error: string, fate: Fate
  ): System
    requires relay in sys.relays && sys.relays[relay].Releasing? && id in sys.relays[relay].failed
  {
    var cycle := sys.relays[relay];
    var attempt := cycle.failed[id];
    var next := sys.(relays := sys.relays[relay := AfterMark(cycle.claimedAt, Without(cycle.failed, id))]);
    if fate.NotApplied? || id !in sys.rows || !HoldsClaim(sys.rows, ToMessage(sys, id, attempt), relay) then next
    else
      next.(rows := ReleaseRows(sys.rows, ToMessage(sys, id, attempt), relay, delay, error, sys.clock),
      released := sys.released + {Token(id, attempt)},
      touchedAt := sys.touchedAt[id := sys.clock])
  }

  // ---------------------------------------------------------------------------------------
  // The invariant
  // ---------------------------------------------------------------------------------------

  function Max(left: nat, right: nat): nat {
    if left >= right then left else right
  }

  /** The relay made claim number `attempt` of the row. */
  predicate OwnsToken(sys: System, relay: ClaimantId, id: SequenceId, attempt: nat) {
    id in sys.claimants && 1 <= attempt <= |sys.claimants[id]| && sys.claimants[id][attempt - 1] == relay
  }

  /** claimed_by names the owner of the newest claim while that claim is neither settled nor given back. */
  predicate ClaimantInv(sys: System, id: SequenceId)
    requires id in sys.rows
  {
    var row := sys.rows[id];
    if row.publishedAt.Some? || row.attempts == 0 || Token(id, row.attempts) in sys.released
    then row.claimedBy.None?
    else row.claimedBy.Some? && OwnsToken(sys, row.claimedBy.value, id, row.attempts)
  }

  predicate RowInv(sys: System, id: SequenceId)
    requires id in sys.rows
  {
    var row := sys.rows[id];
    && (row.publishedAt.Some? ==> id in sys.confirmed)
    && id in sys.claimants
    && |sys.claimants[id]| == row.attempts
    && ClaimantInv(sys, id)
    && id in sys.touchedAt
    && sys.touchedAt[id] <= sys.clock
    && row.availableAt <= sys.touchedAt[id] + Max(sys.config.lease, sys.config.retryCap)
  }

  /** Only claims that were made are ever given back. */
  ghost predicate ReleasedInv(sys: System) {
    forall token :: token in sys.released ==>
      token.id in sys.rows && 1 <= token.attempt <= sys.rows[token.id].attempts
  }

  predicate HeldInv(sys: System, relay: ClaimantId, held: Held) {
    forall id :: id in held ==> OwnsToken(sys, relay, id, held[id])
  }

  predicate CycleInv(sys: System, relay: ClaimantId)
    requires relay in sys.relays
  {
    match sys.relays[relay]
    case Idle => true
    case Publishing(_, batch, results) =>
      && HeldInv(sys, relay, batch)
      && results.Keys <= batch.Keys
      && forall id :: id in results && results[id] ==> id in sys.confirmed
    case Marking(_, published, failed) =>
      && HeldInv(sys, relay, published)
      && HeldInv(sys, relay, failed)
      && published.Keys <= sys.confirmed
      && published.Keys !! failed.Keys
    case Releasing(_, failed) => HeldInv(sys, relay, failed)
  }

  ghost predicate Inv(sys: System) {
    && sys.claimants.Keys == sys.rows.Keys
    && ReleasedInv(sys)
    && sys.confirmed <= sys.rows.Keys
    && (forall id :: id in sys.rows ==> RowInv(sys, id))
    && (forall relay :: relay in sys.relays ==> CycleInv(sys, relay))
  }

  function Initial(config: Config): System {
    System(config, 0, map[], map[], {}, map[], map[], {}, map[])
  }

  lemma InitialInv(config: Config)
    ensures Inv(Initial(config))
  {
  }

  /** Claims are only added, and the old ones keep their owner. */
  ghost predicate ClaimsGrow(before: System, after: System) {
    forall id :: id in before.claimants ==> id in after.claimants && before.claimants[id] <= after.claimants[id]
  }

  lemma HeldInvMonotone(before: System, after: System, relay: ClaimantId, held: Held, kept: Held)
    requires HeldInv(before, relay, held) && ClaimsGrow(before, after)
    requires forall id :: id in kept ==> id in held && held[id] == kept[id]
    ensures HeldInv(after, relay, kept)
  {
    forall id | id in kept
      ensures OwnsToken(after, relay, id, kept[id])
    {
      assert OwnsToken(before, relay, id, held[id]);
    }
  }

  lemma CycleInvMonotone(before: System, after: System, relay: ClaimantId)
    requires relay in before.relays && relay in after.relays
    requires after.relays[relay] == before.relays[relay]
    requires CycleInv(before, relay)
    requires before.confirmed <= after.confirmed && ClaimsGrow(before, after)
    ensures CycleInv(after, relay)
  {
    match before.relays[relay]
    case Idle =>
    case Publishing(_, batch, _) => HeldInvMonotone(before, after, relay, batch, batch);
    case Marking(_, published, failed) =>
      HeldInvMonotone(before, after, relay, published, published);
      HeldInvMonotone(before, after, relay, failed, failed);
    case Releasing(_, failed) => HeldInvMonotone(before, after, relay, failed, failed);
  }

  lemma ClaimKeepsRowInv(sys: System, relay: ClaimantId, ids: seq<SequenceId>, id: SequenceId)
    requires ReleasedInv(sys) && id in sys.rows && RowInv(sys, id)
    requires id in ids ==> IsDue(sys.rows[id], sys.clock)
    ensures RowInv(ApplyClaim(sys, relay, ids), id)
  {
    var next := ApplyClaim(sys, relay, ids);
    if id in ids {
      assert Token(id, next.rows[id].attempts) !in sys.released;
      assert OwnsToken(next, relay, id, next.rows[id].attempts);
    } else {
      assert next.rows[id] == sys.rows[id];
    }
  }

  lemma ClaimKeepsCycles(sys: System, relay: ClaimantId, ids: seq<SequenceId>, other: ClaimantId)
    requires Inv(sys) && relay in sys.relays && sys.relays[relay].Idle? && other in sys.relays
    ensures other in ApplyClaim(sys, relay, ids).relays && CycleInv(ApplyClaim(sys, relay, ids), other)
  {
    var next := ApplyClaim(sys, relay, ids);
    if other != relay || next.relays == sys.relays {
      CycleInvMonotone(sys, next, other);
    } else {
      var batch := next.relays[relay].batch;
      forall id | id in batch
        ensures OwnsToken(next, relay, id, batch[id])
      {
        assert RowInv(sys, id);
      }
    }
  }

  lemma ClaimKeepsReleased(sys: System, relay: ClaimantId, ids: seq<SequenceId>)
    requires ReleasedInv(sys) && sys.claimants.Keys == sys.rows.Keys && sys.confirmed <= sys.rows.Keys
    ensures var next := ApplyClaim(sys, relay, ids);
            && ReleasedInv(next) && next.rows.Keys == sys.rows.Keys && next.claimants.Keys == next.rows.Keys
            && next.confirmed == sys.confirmed
  {
  }

  lemma ClaimKeepsInv(sys: System, relay: ClaimantId, ids: seq<SequenceId>)
    requires Inv(sys)
    requires relay in sys.relays && sys.relays[relay].Idle?
    requires forall id :: id in ids ==> id in sys.rows && IsDue(sys.rows[id], sys.clock)
    ensures Inv(ApplyClaim(sys, relay, ids))
  {
    var next := ApplyClaim(sys, relay, ids);
    ClaimKeepsReleased(sys, relay, ids);
    assert next.relays.Keys == sys.relays.Keys;
    forall id | id in next.rows
      ensures RowInv(next, id)
    {
      ClaimKeepsRowInv(sys, relay, ids, id);
    }
    forall other | other in next.relays
      ensures CycleInv(next, other)
    {
      ClaimKeepsCycles(sys, relay, ids, other);
    }
  }

  lemma MarkKeepsInv(sys: System, relay: ClaimantId, fate: Fate)
    requires Inv(sys)
    requires relay in sys.relays && sys.relays[relay].Marking?
    ensures Inv(ApplyMark(sys, relay, fate))
  {
    var next := ApplyMark(sys, relay, fate);
    assert CycleInv(sys, relay);
    forall id | id in next.rows
      ensures RowInv(next, id)
    {
      assert RowInv(sys, id);
    }
    forall other | other in next.relays
      ensures CycleInv(next, other)
    {
      if other != relay {
        CycleInvMonotone(sys, next, other);
      }
    }
  }

  lemma ReleaseKeepsRowInv(
    sys: System, relay: ClaimantId, id: SequenceId, delay: nat, error: string, fate: Fate, row: SequenceId)
    requires Enabled(sys, Release(relay, id, delay, error, fate))
    requires row in sys.rows && RowInv(sys, row)
    ensures RowInv(ApplyRelease(sys, relay, id, delay, error, fate), row)
  {
    var next := ApplyRelease(sys, relay, id, delay, error, fate);
    assert delay <= sys.config.retryCap;
    if row != id {
      assert next.rows[row] == sys.rows[row];
      assert Token(row, sys.rows[row].attempts) in next.released ==> Token(row, sys.rows[row].attempts) in sys.released;
    }
  }

  lemma ReleaseKeepsReleasedInv(
    sys: System, relay: ClaimantId, id: SequenceId, delay: nat, error: string, fate: Fate)
    requires Enabled(sys, Release(relay, id, delay, error, fate))
    requires ReleasedInv(sys) && CycleInv(sys, relay) && id in sys.rows && RowInv(sys, id)
    ensures ReleasedInv(ApplyRelease(sys, relay, id, delay, error, fate))
  {
    assert OwnsToken(sys, relay, id, sys.relays[relay].failed[id]);
  }

  lemma ReleaseKeepsCycles(
    sys: System, relay: ClaimantId, id: SequenceId, delay: nat, error: string, fate: Fate, other: ClaimantId)
    requires Enabled(sys, Release(relay, id, delay, error, fate))
    requires other in sys.relays && CycleInv(sys, other) && CycleInv(sys, relay)
    ensures other in ApplyRelease(sys, relay, id, delay, error, fate).relays
    ensures CycleInv(ApplyRelease(sys, relay, id, delay, error, fate), other)
  {
    var next := ApplyRelease(sys, relay, id, delay, error, fate);
    if other == relay {
      var failed := sys.relays[relay].failed;
      HeldInvMonotone(sys, next, relay, failed, Without(failed, id));
    } else {
      CycleInvMonotone(sys, next, other);
    }
  }

  lemma ReleaseKeepsInv(
    sys: System, relay: ClaimantId, id: SequenceId, delay: nat, error: string, fate: Fate)
    requires Inv(sys)
    requires Enabled(sys, Release(relay, id, delay, error, fate))
    ensures Inv(ApplyRelease(sys, relay, id, delay, error, fate))
  {
    var next := ApplyRelease(sys, relay, id, delay, error, fate);
    assert CycleInv(sys, relay) && OwnsToken(sys, relay, id, sys.relays[relay].failed[id]);
    assert next.rows.Keys == sys.rows.Keys && next.claimants == sys.claimants;
    ReleaseKeepsReleasedInv(sys, relay, id, delay, error, fate);
    forall row | row in next.rows
      ensures RowInv(next, row)
    {
      ReleaseKeepsRowInv(sys, relay, id, delay, error, fate, row);
    }
    forall other | other in next.relays
      ensures CycleInv(next, other)
    {
      ReleaseKeepsCycles(sys, relay, id, delay, error, fate, other);
    }
  }

  lemma SettleKeepsInv(sys: System, relay: ClaimantId)
    requires Inv(sys) && Enabled(sys, Settle(relay))
    ensures Inv(Apply(sys, Settle(relay)))
  {
    var next := Apply(sys, Settle(relay));
    var cycle := sys.relays[relay];
    assert CycleInv(sys, relay);
    var published, failed := WithResult(cycle, true), WithResult(cycle, false);
    HeldInvMonotone(sys, next, relay, cycle.batch, published);
    HeldInvMonotone(sys, next, relay, cycle.batch, failed);
    forall id | id in next.rows ensures RowInv(next, id) { assert RowInv(sys, id); }
    forall other | other in next.relays
      ensures CycleInv(next, other)
    {
      if other != relay {
        CycleInvMonotone(sys, next, other);
      }
    }
  }

  lemma InsertKeepsInv(sys: System, id: SequenceId, event: Event)
    requires Inv(sys) && Enabled(sys, Insert(id, event))
    ensures Inv(Apply(sys, Insert(id, event)))
  {
    var next := Apply(sys, Insert(id, event));
    forall row | row in next.rows
      ensures RowInv(next, row)
    {
      if row != id {
        assert RowInv(sys, row);
      }
    }
    forall relay | relay in next.relays
      ensures CycleInv(next, relay)
    {
      CycleInvMonotone(sys, next, relay);
    }
  }

  lemma ResultKeepsCycleInv(sys: System, action: Action)
    requires Inv(sys) && Enabled(sys, action) && (action.Confirm? || action.Fail?)
    ensures CycleInv(Apply(sys, action), action.relay)
    ensures action.id in sys.rows
  {
    assert CycleInv(sys, action.relay);
    var batch := sys.relays[action.relay].batch;
    assert OwnsToken(sys, action.relay, action.id, batch[action.id]);
    HeldInvMonotone(sys, Apply(sys, action), action.relay, batch, batch);
  }

  /** Steps that change no row and no claim. */
  predicate IsQuiet(action: Action) {
    action.Tick? || action.Start? || action.Confirm? || action.Fail? || action.LateAccept? || action.Crash?
  }

  lemma QuietStepKeepsRows(sys: System, action: Action)
    requires Enabled(sys, action) && IsQuiet(action)
    ensures var next := Apply(sys, action);
            && next.rows == sys.rows && next.claimants == sys.claimants && next.released == sys.released
            && next.touchedAt == sys.touchedAt && next.config == sys.config && next.clock >= sys.clock
            && sys.confirmed <= next.confirmed
            && (forall relay :: relay in next.relays && !(action.Confirm? && relay == action.relay)
                                && !(action.Fail? && relay == action.relay) ==>
                                  if action.Start? && relay == action.relay then next.relays[relay].Idle?
                                  else relay in sys.relays && next.relays[relay] == sys.relays[relay])
  {
  }

  lemma QuietStepKeepsInv(sys: System, action: Action)
    requires Inv(sys) && Enabled(sys, action) && IsQuiet(action)
    ensures Inv(Apply(sys, action))
  {
    var next := Apply(sys, action);
    QuietStepKeepsRows(sys, action);
    if action.Confirm? || action.Fail? {
      ResultKeepsCycleInv(sys, action);
    }
    forall id | id in next.rows
      ensures RowInv(next, id)
    {
      assert RowInv(sys, id);
    }
    forall relay | relay in next.relays
      ensures CycleInv(next, relay)
    {
      if relay in sys.relays && next.relays[relay] == sys.relays[relay] {
        CycleInvMonotone(sys, next, relay);
      }
    }
  }

  lemma StepKeepsInv(sys: System, action: Action)
    requires Inv(sys) && Enabled(sys, action)
    ensures Inv(Apply(sys, action))
  {
    match action
    case Claim(relay, limit, locked) =>
      FirstIdsTakesOldest(DueIds(sys.rows, sys.clock, locked), limit);
      ClaimKeepsInv(sys, relay, ClaimIds(sys, limit, locked));
    case Settle(relay) => SettleKeepsInv(sys, relay);
    case Mark(relay, fate) => MarkKeepsInv(sys, relay, fate);
    case Release(relay, id, delay, error, fate) => ReleaseKeepsInv(sys, relay, id, delay, error, fate);
    case Insert(id, event) => InsertKeepsInv(sys, id, event);
    case _ => QuietStepKeepsInv(sys, action);
  }

  // ---------------------------------------------------------------------------------------
  // Runs
  // ---------------------------------------------------------------------------------------

  ghost predicate ValidRun(sys: System, run: seq<Action>)
    decreases |run|
  {
    run == [] || (Enabled(sys, run[0]) && ValidRun(Apply(sys, run[0]), run[1..]))
  }

  ghost function After(sys: System, run: seq<Action>): System
    requires ValidRun(sys, run)
    decreases |run|
  {
    if run == [] then sys else After(Apply(sys, run[0]), run[1..])
  }

  lemma {:induction false} RunKeepsInv(sys: System, run: seq<Action>)
    requires Inv(sys) && ValidRun(sys, run)
    ensures Inv(After(sys, run))
    decreases |run|
  {
    if run != [] {
      StepKeepsInv(sys, run[0]);
      RunKeepsInv(Apply(sys, run[0]), run[1..]);
    }
  }

  lemma ReachableInv(config: Config, run: seq<Action>)
    requires ValidRun(Initial(config), run)
    ensures Inv(After(Initial(config), run))
  {
    InitialInv(config);
    RunKeepsInv(Initial(config), run);
  }

  // Fencing -------------------------------------------------------------------------------

  /** A claim takes the next attempt number of each row, and no two relays ever hold the same token. */
  lemma TokensAreIssuedOnce(config: Config, run: seq<Action>, first: ClaimantId, second: ClaimantId, id: SequenceId)
    requires ValidRun(Initial(config), run)
    ensures var sys := After(Initial(config), run);
            && (id in sys.rows ==> id in sys.claimants && sys.rows[id].attempts == |sys.claimants[id]|)
            && (Holds(sys, first, id) && Holds(sys, second, id)
                && InHand(sys.relays[first])[id] == InHand(sys.relays[second])[id]
                ==> first == second)
  {
    ReachableInv(config, run);
    var sys := After(Initial(config), run);
    if id in sys.rows {
      assert RowInv(sys, id);
    }
    if Holds(sys, first, id) {
      HeldIsOwned(sys, first, id);
    }
    if Holds(sys, second, id) {
      HeldIsOwned(sys, second, id);
    }
  }

  lemma HeldIsOwned(sys: System, relay: ClaimantId, id: SequenceId)
    requires Inv(sys) && Holds(sys, relay, id)
    ensures OwnsToken(sys, relay, id, InHand(sys.relays[relay])[id])
    ensures id in sys.rows && InHand(sys.relays[relay])[id] <= sys.rows[id].attempts
  {
    assert CycleInv(sys, relay);
    assert OwnsToken(sys, relay, id, InHand(sys.relays[relay])[id]);
    assert RowInv(sys, id);
  }

  /** How many claims the row has had. */
  function AttemptsAt(sys: System, id: SequenceId): nat {
    if id in sys.rows then sys.rows[id].attempts else 0
  }

  /** The step claims the row and issues the token for it. */
  ghost predicate Issues(sys: System, action: Action, token: Token) {
    && action.Claim?
    && token.id in ClaimIds(sys, action.limit, action.locked)
    && token.id in sys.rows
    && token.attempt == sys.rows[token.id].attempts + 1
  }

  /** How often the run issues the token. */
  ghost function IssueCount(sys: System, run: seq<Action>, token: Token): nat
    requires ValidRun(sys, run)
    decreases |run|
  {
    if run == [] then 0
    else (if Issues(sys, run[0], token) then 1 else 0) + IssueCount(Apply(sys, run[0]), run[1..], token)
  }

  lemma StepCountsAttempts(sys: System, action: Action, id: SequenceId)
    requires Enabled(sys, action)
    ensures var next := Apply(sys, action);
            && (id in sys.rows ==> id in next.rows)
            && AttemptsAt(next, id)
               == AttemptsAt(sys, id) + if Issues(sys, action, Token(id, AttemptsAt(sys, id) + 1)) then 1 else 0
  {
  }

  /**
   * Along every run a row's attempts never decrease, and of each row exactly the tokens from
   * the old number of attempts up to the new one are issued, each by exactly one claim.
   */
  lemma {:induction false} EachTokenIsIssuedOnce(sys: System, run: seq<Action>, token: Token)
    requires ValidRun(sys, run)
    ensures var next := After(sys, run);
            && AttemptsAt(sys, token.id) <= AttemptsAt(next, token.id)
            && IssueCount(sys, run, token)
               == if AttemptsAt(sys, token.id) < token.attempt <= AttemptsAt(next, token.id) then 1 else 0
    decreases |run|
  {
    if run != [] {
      StepCountsAttempts(sys, run[0], token.id);
      EachTokenIsIssuedOnce(Apply(sys, run[0]), run[1..], token);
    }
  }

  /**
   * A release changes its row exactly when it carries the newest token of an unpublished row
   * that was not given back already; any other release changes nothing and reports false.
   */
  lemma ReleaseIsFenced(
    config: Config, run: seq<Action>, relay: ClaimantId, id: SequenceId, delay: nat, error: string)
    requires ValidRun(Initial(config), run)
    requires Enabled(After(Initial(config), run), Release(relay, id, delay, error, Applied))
    ensures var sys := After(Initial(config), run);
            var attempt := sys.relays[relay].failed[id];
            && id in sys.rows
            && (HoldsClaim(sys.rows, ToMessage(sys, id, attempt), relay) <==>
                && attempt == sys.rows[id].attempts
                && sys.rows[id].publishedAt.None?
                && Token(id, attempt) !in sys.released)
            && (Apply(sys, Release(relay, id, delay, error, Applied)).rows != sys.rows <==>
                HoldsClaim(sys.rows, ToMessage(sys, id, attempt), relay))
  {
    ReachableInv(config, run);
    var sys := After(Initial(config), run);
    var attempt := sys.relays[relay].failed[id];
    HeldIsOwned(sys, relay, id);
    assert RowInv(sys, id);
    if HoldsClaim(sys.rows, ToMessage(sys, id, attempt), relay) {
      assert Apply(sys, Release(relay, id, delay, error, Applied)).rows[id].claimedBy.None?;
    }
  }

  /** A row that nobody holds stays as it is until it is due and claimed. */
  lemma FreeRowIsKept(sys: System, action: Action, id: SequenceId)
    requires Enabled(sys, action) && id in sys.rows && sys.rows[id].claimedBy.None?
    ensures var next := Apply(sys, action);
            && id in next.rows
            && (if next.rows[id].attempts > sys.rows[id].attempts
                then action.Claim? && sys.rows[id].availableAt <= sys.clock
                else && next.rows[id].attempts == sys.rows[id].attempts
                     && next.rows[id].claimedBy.None? && next.rows[id].availableAt == sys.rows[id].availableAt)
  {
    if action.Claim? {
      FirstIdsTakesOldest(DueIds(sys.rows, sys.clock, action.locked), action.limit);
    }
  }

  /** Nobody claims a free row before it is due. */
  lemma {:induction false} FreeRowWaits(sys: System, run: seq<Action>, id: SequenceId)
    requires ValidRun(sys, run) && id in sys.rows && sys.rows[id].claimedBy.None?
    ensures var after := After(sys, run);
            id in after.rows && (after.rows[id].attempts > sys.rows[id].attempts ==> sys.rows[id].availableAt <= after.clock)
    decreases |run|
  {
    if run != [] {
      var next := Apply(sys, run[0]);
      FreeRowIsKept(sys, run[0], id);
      RowsAndClockStay(next, run[1..], id);
      if next.rows[id].attempts == sys.rows[id].attempts {
        FreeRowWaits(next, run[1..], id);
      }
    }
  }

  /** Rows are never deleted and the clock does not go back. */
  lemma {:induction false} RowsAndClockStay(sys: System, run: seq<Action>, id: SequenceId)
    requires ValidRun(sys, run) && id in sys.rows
    ensures id in After(sys, run).rows && sys.clock <= After(sys, run).clock
    decreases |run|
  {
    if run != [] {
      StepCountsAttempts(sys, run[0], id);
      RowsAndClockStay(Apply(sys, run[0]), run[1..], id);
    }
  }

  /**
   * The backoff is served in full: whichever relays run on, no claim takes a released row again
   * before at least half the exponential delay of its attempt has passed since the release.
   */
  lemma BackoffIsServed(
    config: Config, run: seq<Action>, relay: ClaimantId, id: SequenceId, delay: nat, error: string, fate: Fate,
    more: seq<Action>)
    requires ValidRun(Initial(config), run)
    requires Enabled(After(Initial(config), run), Release(relay, id, delay, error, fate)) && !fate.NotApplied?
    requires ValidRun(Apply(After(Initial(config), run), Release(relay, id, delay, error, fate)), more)
    ensures var sys := After(Initial(config), run);
            var released := Apply(sys, Release(relay, id, delay, error, fate));
            var later := After(released, more);
            id in sys.rows && id in released.rows && id in later.rows
            && (released.rows != sys.rows ==>
                  && (released.rows[id].publishedAt.None? && released.rows[id].attempts == sys.rows[id].attempts)
                  && (later.rows[id].attempts > sys.rows[id].attempts ==>
                        && later.clock >= sys.clock + delay
                        && 2 * (later.clock - sys.clock)
                           >= ExponentialDelay(config.retryBase, config.retryCap, sys.rows[id].attempts)))
  {
    ReachableInv(config, run);
    ConfigIsFixed(Initial(config), run);
    var sys := After(Initial(config), run);
    var release := Release(relay, id, delay, error, fate);
    HeldIsOwned(sys, relay, id);
    var released := Apply(sys, release);
    RowsAndClockStay(released, more, id);
    if released.rows != sys.rows {
      FreeRowWaits(released, more, id);
    }
  }

  /** A published row is never claimed, released or stamped again, whatever happens. */
  lemma {:induction false} PublishedRowsAreFinal(sys: System, run: seq<Action>, id: SequenceId)
    requires ValidRun(sys, run)
    requires id in sys.rows && sys.rows[id].publishedAt.Some?
    ensures id in After(sys, run).rows && After(sys, run).rows[id] == sys.rows[id]
    decreases |run|
  {
    if run != [] {
      PublishedRowIsKept(sys, run[0], id);
      PublishedRowsAreFinal(Apply(sys, run[0]), run[1..], id);
    }
  }

  lemma PublishedRowIsKept(sys: System, action: Action, id: SequenceId)
    requires Enabled(sys, action)
    requires id in sys.rows && sys.rows[id].publishedAt.Some?
    ensures id in Apply(sys, action).rows && Apply(sys, action).rows[id] == sys.rows[id]
  {
    if action.Claim? {
      FirstIdsTakesOldest(DueIds(sys.rows, sys.clock, action.locked), action.limit);
      assert id !in DueIds(sys.rows, sys.clock, action.locked);
    }
  }

  // At least once -------------------------------------------------------------------------

  lemma {:induction false} ConfirmedWasConfirmed(sys: System, run: seq<Action>, id: SequenceId)
    requires ValidRun(sys, run) && id !in sys.confirmed && id in After(sys, run).confirmed
    ensures exists i :: 0 <= i < |run| && run[i].Confirm? && run[i].id == id
    decreases |run|
  {
    var next := Apply(sys, run[0]);
    if id in next.confirmed {
      assert run[0].Confirm? && run[0].id == id;
    } else {
      ConfirmedWasConfirmed(next, run[1..], id);
      var i :| 0 <= i < |run[1..]| && run[1..][i].Confirm? && run[1..][i].id == id;
      assert run[i + 1] == run[1..][i];
    }
  }

  /** A row is marked as published only after some publication of it was confirmed to a relay. */
  lemma MarkedOnlyAfterConfirm(config: Config, run: seq<Action>, id: SequenceId)
    requires ValidRun(Initial(config), run)
    requires id in After(Initial(config), run).rows && After(Initial(config), run).rows[id].publishedAt.Some?
    ensures exists i :: 0 <= i < |run| && run[i].Confirm? && run[i].id == id
  {
    ReachableInv(config, run);
    assert RowInv(After(Initial(config), run), id);
    ConfirmedWasConfirmed(Initial(config), run, id);
  }

  /** An unpublished row is due again once the longer of the lease and the retry cap has passed since it was touched. */
  lemma UnpublishedRowsComeDue(config: Config, run: seq<Action>, id: SequenceId, now: Time)
    requires ValidRun(Initial(config), run)
    requires var sys := After(Initial(config), run);
             id in sys.rows && sys.rows[id].publishedAt.None?
    ensures var sys := After(Initial(config), run);
            && id in sys.touchedAt && sys.touchedAt[id] <= sys.clock
            && (now >= sys.touchedAt[id] + Max(config.lease, config.retryCap) ==> IsDue(sys.rows[id], now))
  {
    ReachableInv(config, run);
    ConfigIsFixed(Initial(config), run);
    assert RowInv(After(Initial(config), run), id);
  }

  /** The due rows that a claim prefers to the row. */
  function OlderDue(sys: System, id: SequenceId): set<SequenceId> {
    set other | other in DueIds(sys.rows, sys.clock, {}) && other < id
  }

  /** A claim of a due row by a free relay: it gets it exactly when fewer older rows than its limit are due. */
  lemma ClaimTakesIff(sys: System, relay: ClaimantId, id: SequenceId, limit: nat)
    requires relay in sys.relays && sys.relays[relay].Idle?
    requires id in sys.rows && IsDue(sys.rows[id], sys.clock)
    ensures Holds(Apply(sys, Claim(relay, limit, {})), relay, id) <==> |OlderDue(sys, id)| < limit
  {
    var due := DueIds(sys.rows, sys.clock, {});
    TakenIff(due, limit, id);
    var claimed := Apply(sys, Claim(relay, limit, {}));
    if id in FirstIds(due, limit) {
      assert Holds(claimed, relay, id);
    }
  }

  /**
   * Whatever went wrong so far, once the longer of the lease and the retry cap has passed, a
   * free relay whose batch is not filled by older due rows gets every unpublished row again.
   */
  lemma UnpublishedRowsAreClaimedAgain(config: Config, run: seq<Action>, relay: ClaimantId, id: SequenceId, limit: nat)
    requires ValidRun(Initial(config), run)
    requires var sys := After(Initial(config), run);
             && id in sys.rows && sys.rows[id].publishedAt.None?
             && relay in sys.relays && sys.relays[relay].Idle?
    ensures var sys := After(Initial(config), run);
            var wait := Tick(Max(config.lease, config.retryCap));
            var later := Apply(sys, wait);
            && IsDue(later.rows[id], later.clock)
            && (Holds(Apply(later, Claim(relay, limit, {})), relay, id) <==> |OlderDue(later, id)| < limit)
  {
    ReachableInv(config, run);
    ConfigIsFixed(Initial(config), run);
    var sys := After(Initial(config), run);
    assert RowInv(sys, id);
    ClaimTakesIff(Apply(sys, Tick(Max(config.lease, config.retryCap))), relay, id, limit);
  }

  lemma {:induction false} SubsetSize(small: set<SequenceId>, large: set<SequenceId>)
    requires small <= large
    ensures |small| <= |large|
  {
    if small != {} {
      var id :| id in small;
      SubsetSize(small - {id}, large - {id});
    }
  }

  lemma {:induction false} ConfigIsFixed(sys: System, run: seq<Action>)
    requires ValidRun(sys, run)
    ensures After(sys, run).config == sys.config
    decreases |run|
  {
    if run != [] {
      ConfigIsFixed(Apply(sys, run[0]), run[1..]);
    }
  }

  // Lease exclusion -----------------------------------------------------------------------

  /** Every cycle in progress is still within its lease. */
  predicate Timely(sys: System) {
    forall relay :: relay in sys.relays && !sys.relays[relay].Idle? ==>
                      sys.clock < sys.relays[relay].claimedAt + sys.config.lease
  }

  /** The row is still exactly as the relay's claim left it. */
  predicate Untouched(sys: System, relay: ClaimantId, id: SequenceId)
    requires Holds(sys, relay, id)
  {
    && id in sys.rows
    && sys.rows[id].publishedAt.None?
    && sys.rows[id].claimedBy == Some(relay)
    && sys.rows[id].attempts == InHand(sys.relays[relay])[id]
    && sys.rows[id].availableAt == sys.relays[relay].claimedAt + sys.config.lease
  }

  ghost predicate Exclusive(sys: System) {
    forall relay, id :: Holds(sys, relay, id) ==> Untouched(sys, relay, id)
  }

  lemma ExclusiveHolder(sys: System, first: ClaimantId, second: ClaimantId, id: SequenceId)
    requires Exclusive(sys) && Holds(sys, first, id) && Holds(sys, second, id)
    ensures first == second
  {
    assert Untouched(sys, first, id) && Untouched(sys, second, id);
  }

  /** A due row is in nobody's hands. */
  lemma DueIsUnheld(sys: System, relay: ClaimantId, id: SequenceId)
    requires Timely(sys) && Exclusive(sys)
    requires id in sys.rows && IsDue(sys.rows[id], sys.clock)
    ensures !Holds(sys, relay, id)
  {
    assert Holds(sys, relay, id) ==> Untouched(sys, relay, id);
  }

  lemma ClaimKeepsExclusive(sys: System, action: Action)
    requires Timely(sys) && Exclusive(sys) && action.Claim? && Enabled(sys, action)
    ensures Exclusive(Apply(sys, action))
  {
    var next := Apply(sys, action);
    var ids := ClaimIds(sys, action.limit, action.locked);
    FirstIdsTakesOldest(DueIds(sys.rows, sys.clock, action.locked), action.limit);
    forall relay, id | Holds(next, relay, id)
      ensures Untouched(next, relay, id)
    {
      if Holds(sys, relay, id) {
        assert Untouched(sys, relay, id);
        assert id !in ids;
      }
    }
  }

  lemma MarkKeepsExclusive(sys: System, action: Action)
    requires Inv(sys) && Exclusive(sys) && action.Mark? && Enabled(sys, action)
    ensures Exclusive(Apply(sys, action))
  {
    var next := Apply(sys, action);
    var published := sys.relays[action.relay].published;
    assert CycleInv(sys, action.relay);
    forall relay, id | Holds(next, relay, id)
      ensures Untouched(next, relay, id)
    {
      assert Holds(sys, relay, id) && Untouched(sys, relay, id);
      if id in published {
        assert Holds(sys, action.relay, id);
        ExclusiveHolder(sys, relay, action.relay, id);
      }
    }
  }

  lemma ReleaseKeepsExclusive(sys: System, action: Action)
    requires Inv(sys) && Exclusive(sys) && action.Release? && Enabled(sys, action)
    ensures Exclusive(Apply(sys, action))
  {
    var next := Apply(sys, action);
    forall relay, id | Holds(next, relay, id)
      ensures Untouched(next, relay, id)
    {
      assert Holds(sys, relay, id) && Untouched(sys, relay, id);
      if id == action.id {
        assert Holds(sys, action.relay, id);
        ExclusiveHolder(sys, relay, action.relay, id);
      }
    }
  }

  lemma QuietStepKeepsExclusive(sys: System, action: Action)
    requires Exclusive(sys) && Enabled(sys, action)
    requires !action.Claim? && !action.Mark? && !action.Release?
    ensures Exclusive(Apply(sys, action))
  {
    var next := Apply(sys, action);
    forall relay, id | Holds(next, relay, id)
      ensures Untouched(next, relay, id)
    {
      assert Holds(sys, relay, id) && Untouched(sys, relay, id);
    }
  }

  lemma StepKeepsExclusive(sys: System, action: Action)
    requires Inv(sys) && Timely(sys) && Exclusive(sys) && Enabled(sys, action)
    ensures Exclusive(Apply(sys, action))
  {
    if action.Claim? {
      ClaimKeepsExclusive(sys, action);
    } else if action.Mark? {
      MarkKeepsExclusive(sys, action);
    } else if action.Release? {
      ReleaseKeepsExclusive(sys, action);
    } else {
      QuietStepKeepsExclusive(sys, action);
    }
  }

  /** A run in which every cycle settles within its lease. */
  ghost predicate TimelyRun(sys: System, run: seq<Action>)
    requires ValidRun(sys, run)
    decreases |run|
  {
    Timely(sys) && (run == [] || TimelyRun(Apply(sys, run[0]), run[1..]))
  }

  lemma {:induction false} TimelyRunKeepsExclusive(sys: System, run: seq<Action>)
    requires Inv(sys) && Exclusive(sys) && ValidRun(sys, run) && TimelyRun(sys, run)
    ensures Exclusive(After(sys, run))
    decreases |run|
  {
    if run != [] {
      StepKeepsInv(sys, run[0]);
      StepKeepsExclusive(sys, run[0]);
      TimelyRunKeepsExclusive(Apply(sys, run[0]), run[1..]);
    }
  }

  /**
   * As long as cycles settle within their lease no two relays ever have the same row in hand,
   * so no claim is ever stale: every release then finds its row as it left it.
   */
  lemma LeaseExcludesOthers(config: Config, run: seq<Action>, first: ClaimantId, second: ClaimantId, id: SequenceId)
    requires ValidRun(Initial(config), run) && TimelyRun(Initial(config), run)
    ensures var sys := After(Initial(config), run);
            && (Holds(sys, first, id) && Holds(sys, second, id) ==> first == second)
            && (Holds(sys, first, id) ==>
                  id in sys.rows &&
                  HoldsClaim(sys.rows, Message(id, sys.rows[id].event, InHand(sys.relays[first])[id]), first))
  {
    ReachableInv(config, run);
    TimelyRunKeepsExclusive(Initial(config), run);
    var sys := After(Initial(config), run);
    if Holds(sys, first, id) {
      assert Untouched(sys, first, id);
      if Holds(sys, second, id) {
        ExclusiveHolder(sys, first, second, id);
      }
    }
  }

  // Exactly once when nothing fails ---------------------------------------------------------

  /** No crash, no failed publication and no failed statement. */
  predicate Smooth(action: Action) {
    action.Tick? || action.Insert? || action.Start? || action.Claim? || action.Confirm? || action.Settle?
    || (action.Mark? && action.fate.Applied?)
  }

  /** How many confirmed publications of the row a relay's cycle stands for. */
  predicate CycleCounted(sys: System, relay: ClaimantId)
    requires relay in sys.relays
  {
    match sys.relays[relay]
    case Idle => true
    case Publishing(_, batch, results) =>
      && batch != map[]
      && results.Keys <= batch.Keys
      && (forall id :: id in results ==> results[id])
      && forall id :: id in batch ==> Count(sys.copies, id) == if id in results then 1 else 0
    case Marking(_, published, failed) =>
      && failed == map[]
      && forall id :: id in published ==> Count(sys.copies, id) == 1
    case Releasing(_, _) => false
  }

  ghost predicate Unheld(sys: System, id: SequenceId) {
    forall relay :: !Holds(sys, relay, id)
  }

  ghost predicate Counted(sys: System) {
    && (forall relay :: relay in sys.relays ==> CycleCounted(sys, relay))
    && (forall id :: id in sys.rows && sys.rows[id].publishedAt.Some? ==> Count(sys.copies, id) == 1)
    && (forall id :: id in sys.rows && sys.rows[id].publishedAt.None? && Unheld(sys, id) ==>
                       Count(sys.copies, id) == 0)
    && sys.copies.Keys <= sys.rows.Keys
  }

  lemma DueIsUncounted(sys: System, id: SequenceId)
    requires Timely(sys) && Exclusive(sys) && Counted(sys)
    requires id in sys.rows && IsDue(sys.rows[id], sys.clock)
    ensures Count(sys.copies, id) == 0
  {
    forall relay ensures !Holds(sys, relay, id) { DueIsUnheld(sys, relay, id); }
    assert Unheld(sys, id);
  }

  lemma ClaimKeepsCounted(sys: System, action: Action)
    requires Timely(sys) && Exclusive(sys) && Counted(sys) && action.Claim? && Enabled(sys, action)
    ensures Counted(Apply(sys, action))
  {
    var ids := ClaimIds(sys, action.limit, action.locked);
    FirstIdsTakesOldest(DueIds(sys.rows, sys.clock, action.locked), action.limit);
    forall id | id in ids
      ensures id in sys.rows && Count(sys.copies, id) == 0
    {
      DueIsUncounted(sys, id);
    }
    CountedAfterClaim(sys, action.relay, ids);
  }

  lemma CountedAfterClaim(sys: System, relay: ClaimantId, ids: seq<SequenceId>)
    requires Counted(sys) && relay in sys.relays && sys.relays[relay].Idle?
    requires forall id :: id in ids ==> id in sys.rows && Count(sys.copies, id) == 0
    ensures Counted(ApplyClaim(sys, relay, ids))
  {
    var next := ApplyClaim(sys, relay, ids);
    forall other | other in next.relays
      ensures CycleCounted(next, other)
    {
      assert CycleCounted(sys, other);
    }
    forall id | id in next.rows && next.rows[id].publishedAt.None? && Unheld(next, id)
      ensures Count(next.copies, id) == 0
    {
      if id !in ids {
        forall other ensures !Holds(sys, other, id) { assert !Holds(next, other, id); }
        assert Unheld(sys, id);
      }
    }
  }

  lemma ConfirmKeepsCycleCounted(sys: System, action: Action, relay: ClaimantId)
    requires Exclusive(sys) && action.Confirm? && Enabled(sys, action)
    requires relay in sys.relays && CycleCounted(sys, relay) && CycleCounted(sys, action.relay)
    ensures relay in Apply(sys, action).relays && CycleCounted(Apply(sys, action), relay)
  {
    assert Holds(sys, action.relay, action.id);
    if relay != action.relay && Holds(sys, relay, action.id) {
      ExclusiveHolder(sys, relay, action.relay, action.id);
    }
  }

  lemma ConfirmKeepsCounted(sys: System, action: Action)
    requires Exclusive(sys) && Counted(sys) && action.Confirm? && Enabled(sys, action)
    ensures Counted(Apply(sys, action))
  {
    var next := Apply(sys, action);
    assert Holds(sys, action.relay, action.id) && Untouched(sys, action.relay, action.id);
    forall relay | relay in next.relays
      ensures CycleCounted(next, relay)
    {
      ConfirmKeepsCycleCounted(sys, action, relay);
    }
    assert Holds(next, action.relay, action.id);
    forall other | other in next.rows && next.rows[other].publishedAt.None? && Unheld(next, other)
      ensures Count(next.copies, other) == 0
    {
      forall relay ensures !Holds(sys, relay, other) { assert !Holds(next, relay, other); }
      assert Unheld(sys, other);
    }
  }

  lemma MarkKeepsCounted(sys: System, action: Action)
    requires Exclusive(sys) && Counted(sys) && action.Mark? && action.fate.Applied? && Enabled(sys, action)
    ensures Counted(Apply(sys, action))
  {
    var next := Apply(sys, action);
    var published := sys.relays[action.relay].published;
    assert CycleCounted(sys, action.relay);
    forall relay | relay in next.relays
      ensures CycleCounted(next, relay)
    {
      assert CycleCounted(sys, relay);
    }
    forall id | id in next.rows && next.rows[id].publishedAt.None? && Unheld(next, id)
      ensures Count(next.copies, id) == 0
    {
      forall relay ensures !Holds(sys, relay, id) {
        if relay != action.relay { assert !Holds(next, relay, id); }
      }
      assert Unheld(sys, id);
    }
  }

  lemma SettleKeepsCounted(sys: System, action: Action)
    requires Counted(sys) && action.Settle? && Enabled(sys, action)
    ensures Counted(Apply(sys, action))
  {
    var next := Apply(sys, action);
    var cycle := sys.relays[action.relay];
    assert CycleCounted(sys, action.relay);
    assert WithResult(cycle, true) == cycle.batch && WithResult(cycle, false) == map[];
    forall relay | relay in next.relays
      ensures CycleCounted(next, relay)
    {
      assert CycleCounted(sys, relay);
    }
    forall id | id in next.rows && next.rows[id].publishedAt.None? && Unheld(next, id)
      ensures Count(next.copies, id) == 0
    {
      forall relay ensures !Holds(sys, relay, id) {
        assert !Holds(next, relay, id);
      }
      assert Unheld(sys, id);
    }
  }

  lemma QuietStepKeepsCounted(sys: System, action: Action)
    requires Counted(sys) && Enabled(sys, action)
    requires action.Tick? || action.Insert? || action.Start?
    ensures Counted(Apply(sys, action))
  {
    var next := Apply(sys, action);
    forall relay | relay in next.relays
      ensures CycleCounted(next, relay)
    {
      if relay in sys.relays { assert CycleCounted(sys, relay); }
    }
    forall id | id in next.rows && next.rows[id].publishedAt.None? && Unheld(next, id)
      ensures Count(next.copies, id) == 0
    {
      forall relay ensures !Holds(sys, relay, id) { assert !Holds(next, relay, id); }
      assert Unheld(sys, id);
    }
  }

  lemma SmoothStepKeepsCounted(sys: System, action: Action)
    requires Timely(sys) && Exclusive(sys) && Counted(sys) && Smooth(action) && Enabled(sys, action)
    ensures Counted(Apply(sys, action))
  {
    if action.Claim? {
      ClaimKeepsCounted(sys, action);
    } else if action.Confirm? {
      ConfirmKeepsCounted(sys, action);
    } else if action.Mark? {
      MarkKeepsCounted(sys, action);
    } else if action.Settle? {
      SettleKeepsCounted(sys, action);
    } else {
      QuietStepKeepsCounted(sys, action);
    }
  }

  lemma {:induction false} SmoothRunKeepsCounted(sys: System, run: seq<Action>)
    requires Inv(sys) && Exclusive(sys) && Counted(sys)
    requires ValidRun(sys, run) && TimelyRun(sys, run) && forall i :: 0 <= i < |run| ==> Smooth(run[i])
    ensures Counted(After(sys, run))
    decreases |run|
  {
    if run != [] {
      StepKeepsInv(sys, run[0]);
      StepKeepsExclusive(sys, run[0]);
      SmoothStepKeepsCounted(sys, run[0]);
      SmoothRunKeepsCounted(Apply(sys, run[0]), run[1..]);
    }
  }

  /**
   * With timely cycles and no failures the broker accepts every row at most once, and exactly
   * once by the time it is marked, whatever the number of relays and the batch sizes.
   */
  lemma NothingIsPublishedTwice(config: Config, run: seq<Action>, id: SequenceId)
    requires ValidRun(Initial(config), run) && TimelyRun(Initial(config), run)
    requires forall i :: 0 <= i < |run| ==> Smooth(run[i])
    ensures var sys := After(Initial(config), run);
            && Count(sys.copies, id) <= 1
            && (id in sys.rows && sys.rows[id].publishedAt.Some? ==> Count(sys.copies, id) == 1)
  {
    InitialInv(config);
    SmoothRunKeepsCounted(Initial(config), run);
    var sys := After(Initial(config), run);
    if id in sys.rows && sys.rows[id].publishedAt.None? && !Unheld(sys, id) {
      var relay :| Holds(sys, relay, id);
      assert CycleCounted(sys, relay);
    }
  }
}
