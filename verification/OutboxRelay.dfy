/** One cycle of an outbox relay: it claims a batch, publishes it and settles it. */
module OutboxRelay {
  import opened Contracts
  import opened OutboxStore
  import opened Backoff

  datatype PublishResult = Confirmed | Failed(error: string)

  /** What the database, the broker and the clock do during one cycle. */
  datatype Surroundings = Surroundings(
    claimAt: Time,
    claimFate: Fate,
    locked: set<SequenceId>,
    publish: SequenceId -> PublishResult,
    markAt: Time,
    markFate: Fate,
    releaseAt: SequenceId -> Time,
    releaseFate: SequenceId -> Fate,
    random: SequenceId -> real)
  {
    ghost predicate Valid() {
      forall id: SequenceId :: 0.0 <= random(id) < 1.0
    }
  }

  datatype CycleResult = Completed(claimedCount: nat) | StoreFailed

  datatype Options = Options(batchSize: nat, lease: nat, retryBase: nat, retryCap: nat)

  /** The claimed row as its release leaves it, after a delay within the jitter bounds. */
  predicate ReleasedRow(claimed: Row, after: Row, id: SequenceId, options: Options, env: Surroundings) {
    var delay := RetryDelay(options.retryBase, options.retryCap, claimed.attempts, env.random(id));
    && WithinJitter(options.retryBase, options.retryCap, claimed.attempts, delay)
    && env.publish(id).Failed?
    && after == ReleaseRow(claimed, delay, env.publish(id).error, env.releaseAt(id))
  }

  /** A claimed row after its retry was scheduled, with the statement's effect or without it. */
  predicate RescheduledRow(claimed: Row, after: Row, id: SequenceId, options: Options, env: Surroundings) {
    if env.releaseFate(id).NotApplied? then after == claimed else ReleasedRow(claimed, after, id, options, env)
  }

  /** One row's retry was scheduled and no other row changed. */
  predicate OneRescheduled(before: Table, after: Table, id: SequenceId, options: Options, env: Surroundings) {
    && after.Keys == before.Keys
    && (forall other :: other in before && other != id ==> after[other] == before[other])
    && (id in before ==> RescheduledRow(before[id], after[id], id, options, env))
  }

  /** A row after a cycle that claimed it and went on to settle its batch. */
  predicate SettledRow(
    before: Row, after: Row, id: SequenceId, options: Options, env: Surroundings, claimant: ClaimantId)
  {
    var claimed := ClaimRow(before, claimant, options.lease, env.claimAt);
    if env.publish(id).Confirmed? then after == MarkRow(claimed, env.markAt)
    else RescheduledRow(claimed, after, id, options, env)
  }

  /** Whoever was meant to retry the row may do so after between half the exponential delay and all of it. */
  predicate WaitsForRetry(after: Row, id: SequenceId, options: Options, env: Surroundings) {
    && after.publishedAt.None? && after.claimedBy.None?
    && env.publish(id).Failed? && StoresError(after, env.publish(id).error)
    && var full := ExponentialDelay(options.retryBase, options.retryCap, after.attempts);
       full <= 2 * (after.availableAt - env.releaseAt(id)) <= 2 * full
  }

  /**
   * What that means for the row: a confirmed one is published; a failed one is free again and due
   * after between half the exponential delay of its attempt and all of it, or, when its release
   * had no effect, still held until the lease runs out.
   */
  predicate TellsSettlement(
    before: Row, after: Row, id: SequenceId, options: Options, env: Surroundings, claimant: ClaimantId)
  {
    && after.event == before.event && after.attempts == before.attempts + 1
    && (after.publishedAt == if env.publish(id).Confirmed? then Some(env.markAt) else None)
    && (env.publish(id).Confirmed? ==> after.claimedBy.None? && after.lastError.None?)
    && (env.publish(id).Failed? && env.releaseFate(id).NotApplied? ==>
          after.claimedBy == Some(claimant) && after.availableAt == env.claimAt + options.lease)
    && (env.publish(id).Failed? && !env.releaseFate(id).NotApplied? ==> WaitsForRetry(after, id, options, env))
  }

  lemma SettledTells(
    before: Row, after: Row, id: SequenceId, options: Options, env: Surroundings, claimant: ClaimantId)
    requires before.publishedAt.None? && SettledRow(before, after, id, options, env, claimant)
    ensures TellsSettlement(before, after, id, options, env, claimant)
  {
  }

  /** Every row of a cycle that settles its batch tells its settlement. */
  lemma BatchTells(before: Table, after: Table, options: Options, env: Surroundings, claimant: ClaimantId)
    requires var ids := ClaimedBy(before, options, env); BatchSettled(before, ids, after, claimant, options, env)
    ensures forall id :: id in ClaimedBy(before, options, env) ==>
                           && id in before && id in after
                           && TellsSettlement(before[id], after[id], id, options, env, claimant)
  {
    FirstIdsTakesOldest(DueIds(before, env.claimAt, env.locked), options.batchSize);
    forall id | id in ClaimedBy(before, options, env)
      ensures id in before && id in after && TellsSettlement(before[id], after[id], id, options, env, claimant)
    {
      SettledTells(before[id], after[id], id, options, env, claimant);
    }
  }

  /** The claimed rows whose publication was confirmed. */
  function ConfirmedIds(ids: seq<SequenceId>, env: Surroundings): set<SequenceId> {
    set id | id in ids && env.publish(id).Confirmed?
  }

  /** What a cycle that reports an error leaves behind: nothing, its claims, or its claims and its mark. */
  function AfterStoreFailure(
    before: Table, ids: seq<SequenceId>, options: Options, env: Surroundings, claimant: ClaimantId
  ): Table
  {
    if env.claimFate.NotApplied? then before else
    var claimed := ClaimRows(before, ids, claimant, options.lease, env.claimAt);
    if env.claimFate.AppliedReplyLost? || env.markFate.NotApplied? then claimed
    else MarkRows(claimed, ConfirmedIds(ids, env), env.markAt)
  }

  lemma MarkFailureLeaves(
    before: Table, ids: seq<SequenceId>, options: Options, env: Surroundings, claimant: ClaimantId,
    published: seq<Message>, after: Table)
    requires env.claimFate.Applied? && !env.markFate.Applied? && SequenceIds(published) == ConfirmedIds(ids, env)
    requires var claimed := ClaimRows(before, ids, claimant, options.lease, env.claimAt);
             after == if env.markFate.NotApplied? then claimed else MarkRows(claimed, SequenceIds(published), env.markAt)
    ensures after == AfterStoreFailure(before, ids, options, env, claimant)
  {
  }

  lemma FailureKeepsOthers(
    before: Table, ids: seq<SequenceId>, options: Options, env: Surroundings, claimant: ClaimantId)
    ensures var after := AfterStoreFailure(before, ids, options, env, claimant);
            after.Keys == before.Keys && forall id :: id in after && id !in ids ==> after[id] == before[id]
  {
  }

  /** Every claimed row is settled, and no other row changed. */
  ghost predicate BatchSettled(
    before: Table, ids: seq<SequenceId>, after: Table, claimant: ClaimantId, options: Options, env: Surroundings)
  {
    && after.Keys == before.Keys
    && (forall id :: id in after && id !in ids ==> after[id] == before[id])
    && forall id :: id in ids ==> id in before && SettledRow(before[id], after[id], id, options, env, claimant)
  }

  /** The rows that a cycle claims. */
  ghost function ClaimedBy(before: Table, options: Options, env: Surroundings): seq<SequenceId> {
    FirstIds(DueIds(before, env.claimAt, env.locked), options.batchSize)
  }

  /** The claim or the mark reports an error. */
  ghost predicate ReportsError(before: Table, options: Options, env: Surroundings) {
    !env.claimFate.Applied? || (!env.markFate.Applied? && ConfirmedIds(ClaimedBy(before, options, env), env) != {})
  }

  /** The table is the one that the cycle leaves, however its statements and publications end. */
  ghost predicate CycleLeaves(before: Table, after: Table, options: Options, env: Surroundings, claimant: ClaimantId) {
    var ids := ClaimedBy(before, options, env);
    if ReportsError(before, options, env) then after == AfterStoreFailure(before, ids, options, env, claimant)
    else BatchSettled(before, ids, after, claimant, options, env)
  }

  lemma SettledAlike(
    before: Row, first: Row, second: Row, id: SequenceId, options: Options, env: Surroundings, claimant: ClaimantId)
    requires SettledRow(before, first, id, options, env, claimant)
    requires SettledRow(before, second, id, options, env, claimant)
    ensures first == second
  {
  }

  /** There is only one such table. */
  lemma CycleLeavesOne(
    before: Table, first: Table, second: Table, options: Options, env: Surroundings, claimant: ClaimantId)
    requires CycleLeaves(before, first, options, env, claimant)
    requires CycleLeaves(before, second, options, env, claimant)
    ensures first == second
  {
    var ids := ClaimedBy(before, options, env);
    if !ReportsError(before, options, env) {
      assert first.Keys == second.Keys;
      forall id | id in first
        ensures first[id] == second[id]
      {
        if id in ids {
          SettledAlike(before[id], first[id], second[id], id, options, env, claimant);
        }
      }
    }
  }

  /** Each failed message's row was rescheduled, and no other row changed. */
  ghost predicate RetriesScheduled(before: Table, after: Table, failed: seq<Message>, options: Options, env: Surroundings) {
    && after.Keys == before.Keys
    && (forall id :: id in after && id !in SequenceIds(failed) ==> after[id] == before[id])
    && forall i :: 0 <= i < |failed| ==>
                     && failed[i].sequenceId in before
                     && RescheduledRow(before[failed[i].sequenceId], after[failed[i].sequenceId],
                                       failed[i].sequenceId, options, env)
  }

  /** Each failed row waits for its retry, unless its release had no effect. */
  predicate RetriesTell(before: Table, after: Table, failed: seq<Message>, options: Options, env: Surroundings) {
    forall i :: 0 <= i < |failed| ==>
                  var id := failed[i].sequenceId;
                  && id in before && id in after
                  && if env.releaseFate(id).NotApplied? then after[id] == before[id]
                     else WaitsForRetry(after[id], id, options, env) && SameRowButHold(before[id], after[id])
  }

  lemma RetriesWait(
    before: Table, after: Table, failed: seq<Message>, options: Options, env: Surroundings, claimant: ClaimantId)
    requires RetriesScheduled(before, after, failed, options, env)
    requires AllHeld(before, failed, claimant, env)
    ensures RetriesTell(before, after, failed, options, env)
  {
    forall i | 0 <= i < |failed|
      ensures var id := failed[i].sequenceId;
              && id in before && id in after
              && if env.releaseFate(id).NotApplied? then after[id] == before[id]
                 else WaitsForRetry(after[id], id, options, env) && SameRowButHold(before[id], after[id])
    {
      var id := failed[i].sequenceId;
      assert RescheduledRow(before[id], after[id], id, options, env);
    }
  }

  /** The messages failed and their rows are still held under them. */
  predicate AllHeld(rows: Table, failed: seq<Message>, claimant: ClaimantId, env: Surroundings) {
    forall i :: 0 <= i < |failed| ==>
                  env.publish(failed[i].sequenceId).Failed? && HoldsClaim(rows, failed[i], claimant)
  }

  /** A message that is still to come keeps its claim. */
  lemma StillHeld(
    before: Table, middle: Table, failed: seq<Message>, i: nat, claimant: ClaimantId, options: Options, env: Surroundings)
    requires i < |failed| && Ascending(failed) && AllHeld(before, failed, claimant, env)
    requires RetriesScheduled(before, middle, failed[..i], options, env)
    ensures failed[i].sequenceId in before && failed[i].sequenceId !in SequenceIds(failed[..i])
    ensures HoldsClaim(middle, failed[i], claimant) && env.publish(failed[i].sequenceId).Failed?
  {
  }

  lemma OneMoreRetry(
    before: Table, middle: Table, after: Table, failed: seq<Message>, message: Message, options: Options, env: Surroundings)
    requires RetriesScheduled(before, middle, failed, options, env)
    requires message.sequenceId in before && message.sequenceId !in SequenceIds(failed)
    requires OneRescheduled(middle, after, message.sequenceId, options, env)
    ensures RetriesScheduled(before, after, failed + [message], options, env)
  {
    var all := failed + [message];
    assert forall i :: 0 <= i < |all| ==> all[i].sequenceId in SequenceIds(all);
    assert forall i :: 0 <= i < |failed| ==> all[i] == failed[i];
    assert all[|failed|] == message;
    forall i | 0 <= i < |failed|
      ensures failed[i].sequenceId != message.sequenceId
    {
      assert failed[i].sequenceId in SequenceIds(failed);
    }
  }

  /** The batch is split, its confirmed rows are marked and its failed messages still hold their claims. */
  ghost predicate BatchMarked(
    before: Table, ids: seq<SequenceId>, published: seq<Message>, failed: seq<Message>, marked: Table,
    claimant: ClaimantId, options: Options, env: Surroundings)
  {
    && (forall id :: id in ids <==> id in SequenceIds(published) + SequenceIds(failed))
    && (forall id :: id in SequenceIds(published) ==> env.publish(id).Confirmed?)
    && marked.Keys == before.Keys
    && (forall id :: id in marked && id !in ids ==> marked[id] == before[id])
    && (forall id :: id in ids ==>
                       id in before &&
                       var row := ClaimRow(before[id], claimant, options.lease, env.claimAt);
                       marked[id] == if env.publish(id).Confirmed? then MarkRow(row, env.markAt) else row)
    && forall i :: 0 <= i < |failed| ==>
                     env.publish(failed[i].sequenceId).Failed? && HoldsClaim(marked, failed[i], claimant)
  }

  lemma SomeAreConfirmed(ids: seq<SequenceId>, env: Surroundings)
    ensures ConfirmedIds(ids, env) != {} <==> exists id :: id in ids && env.publish(id).Confirmed?
  {
    if id :| id in ids && env.publish(id).Confirmed? {
      assert id in ConfirmedIds(ids, env);
    }
  }

  lemma NothingClaimed(
    before: Table, ids: seq<SequenceId>, options: Options, env: Surroundings, claimant: ClaimantId)
    requires ids == []
    ensures ClaimRows(before, ids, claimant, options.lease, env.claimAt) == before
    ensures BatchSettled(before, ids, before, claimant, options, env)
    ensures ConfirmedIds(ids, env) == {}
  {
  }

  class RelayCycle {
    const claimantId: ClaimantId
    const options: Options
    const store: PostgresOutboxStore

    constructor (claimantId: ClaimantId, options: Options, store: PostgresOutboxStore)
      ensures this.claimantId == claimantId && this.options == options && this.store == store
    {
      this.claimantId, this.options, this.store := claimantId, options, store;
    }

    /**
     * Claims a batch and splits it: confirmed events become published rows, all others are
     * rescheduled, and no other row changes. If the claim or the mark reports an error
     * nothing is rescheduled: what took effect of them stays, and the claims simply run out.
     */
    method ProcessBatch(env: Surroundings) returns (result: CycleResult)
      requires env.Valid()
      modifies store
      ensures var due := DueIds(old(store.rows), env.claimAt, env.locked);
              var ids := FirstIds(due, options.batchSize);
              && store.rows.Keys == old(store.rows).Keys
              && (forall id :: id in store.rows && id !in ids ==> store.rows[id] == old(store.rows)[id])
              && (result.Completed? ==>
                    && result.claimedCount == Min(options.batchSize, |due|)
                    && forall id :: id in ids ==>
                                      id in old(store.rows) &&
                                      TellsSettlement(old(store.rows)[id], store.rows[id], id, options, env, claimantId))
              && (result.StoreFailed? ==>
                    store.rows == AfterStoreFailure(old(store.rows), ids, options, env, claimantId))
              && (result.StoreFailed? <==>
                  !env.claimFate.Applied? ||
                  (!env.markFate.Applied? && exists id :: id in ids && env.publish(id).Confirmed?))
      ensures CycleLeaves(old(store.rows), store.rows, options, env, claimantId)
    {
      ghost var before := store.rows;
      ghost var ids := FirstIds(DueIds(before, env.claimAt, env.locked), options.batchSize);
      FirstIdsTakesOldest(DueIds(before, env.claimAt, env.locked), options.batchSize);
      if env.claimFate.NotApplied? {
        return StoreFailed;
      }
      var claimed := store.ClaimBatch(claimantId, options.batchSize, options.lease, env.claimAt, env.locked);
      ghost var afterClaim := store.rows;
      if env.claimFate.AppliedReplyLost? {
        return StoreFailed;
      }
      if |claimed| == 0 {
        NothingClaimed(before, ids, options, env, claimantId);
        return Completed(0);
      }

      result := SettleBatch(before, ids, claimed, env);
      if result.Completed? {
        BatchTells(before, store.rows, options, env, claimantId);
      }
      FailureKeepsOthers(before, ids, options, env, claimantId);
      SomeAreConfirmed(ids, env);
    }

    /** Marks the confirmed messages, then reschedules the others one by one. */
    method SettleBatch(ghost before: Table, ghost ids: seq<SequenceId>, claimed: seq<Message>, env: Surroundings)
      returns (result: CycleResult)
      requires env.Valid()
      requires forall id :: id in ids ==> id in before && before[id].publishedAt.None?
      requires forall i, j :: 0 <= i < j < |ids| ==> ids[i] < ids[j]
      requires store.rows == ClaimRows(before, ids, claimantId, options.lease, env.claimAt)
      requires claimed == ToMessages(store.rows, ids)
      requires env.claimFate.Applied?
      modifies store
      ensures result.Completed? ==>
                && result.claimedCount == |ids|
                && BatchSettled(before, ids, store.rows, claimantId, options, env)
      ensures result.StoreFailed? ==> store.rows == AfterStoreFailure(before, ids, options, env, claimantId)
      ensures result.StoreFailed? <==>
              !env.markFate.Applied? && exists id :: id in ids && env.publish(id).Confirmed?
    {
      var published, failed := Split(claimed, env);
      SplitBatch(before, ids, claimed, published, failed, store.rows, claimantId, options, env);
      var marked := MarkBatch(published, env);
      if !marked {
        MarkFailureLeaves(before, ids, options, env, claimantId, published, store.rows);
        return StoreFailed;
      }
      SettleFailed(before, ids, published, failed, env);
      result := Completed(|claimed|);
    }

    /** Records the confirmed messages, if there are any; false when the statement reported an error. */
    method MarkBatch(published: seq<Message>, env: Surroundings) returns (marked: bool)
      modifies store
      ensures marked <==> published == [] || env.markFate.Applied?
      ensures store.rows == if published == [] || env.markFate.NotApplied? then old(store.rows)
                            else MarkRows(old(store.rows), SequenceIds(published), env.markAt)
    {
      if |published| == 0 {
        return true;
      }
      if !env.markFate.NotApplied? {
        store.MarkPublished(published, env.markAt);
      }
      marked := env.markFate.Applied?;
    }

    /** The last step of a cycle whose confirmed rows are marked. */
    method SettleFailed(
      ghost before: Table, ghost ids: seq<SequenceId>, ghost published: seq<Message>, failed: seq<Message>,
      env: Surroundings)
      requires env.Valid() && Ascending(failed)
      requires BatchMarked(before, ids, published, failed, store.rows, claimantId, options, env)
      modifies store
      ensures BatchSettled(before, ids, store.rows, claimantId, options, env)
    {
      ghost var marked := store.rows;
      ScheduleRetries(failed, env);
      BatchIsSettled(before, ids, published, failed, marked, store.rows, claimantId, options, env);
    }

    /** Separates the confirmed messages from the others, each in claim order. */
    method Split(claimed: seq<Message>, env: Surroundings) returns (published: seq<Message>, failed: seq<Message>)
      ensures published == Outcome(claimed, env, true) && failed == Outcome(claimed, env, false)
    {
      published, failed := [], [];
      for i := 0 to |claimed|
        invariant published == Outcome(claimed[..i], env, true) && failed == Outcome(claimed[..i], env, false)
      {
        assert claimed[..i + 1][..i] == claimed[..i];
        if env.publish(claimed[i].sequenceId).Confirmed? {
          published := published + [claimed[i]];
        } else {
          failed := failed + [claimed[i]];
        }
      }
      assert claimed[..|claimed|] == claimed;
    }

    method ScheduleRetries(failed: seq<Message>, env: Surroundings)
      requires env.Valid()
      requires Ascending(failed) && AllHeld(store.rows, failed, claimantId, env)
      modifies store
      ensures RetriesScheduled(old(store.rows), store.rows, failed, options, env)
      ensures RetriesTell(old(store.rows), store.rows, failed, options, env)
    {
      ghost var before := store.rows;
      for i := 0 to |failed|
        invariant RetriesScheduled(before, store.rows, failed[..i], options, env)
      {
        ghost var middle := store.rows;
        StillHeld(before, middle, failed, i, claimantId, options, env);
        ScheduleRetry(failed[i], env);
        OneMoreRetry(before, middle, store.rows, failed[..i], failed[i], options, env);
        assert failed[..i + 1] == failed[..i] + [failed[i]];
      }
      assert failed[..|failed|] == failed;
      RetriesWait(before, store.rows, failed, options, env, claimantId);
    }

    /** Errors of the release are swallowed: the lease still runs out. */
    method ScheduleRetry(message: Message, env: Surroundings)
      requires env.Valid() && env.publish(message.sequenceId).Failed?
      requires HoldsClaim(store.rows, message, claimantId)
      modifies store
      ensures OneRescheduled(old(store.rows), store.rows, message.sequenceId, options, env)
    {
      var id := message.sequenceId;
      var random := env.random(id);
      RetryDelayWithinJitter(options.retryBase, options.retryCap, message.attempts, random);
      var delay: nat := RetryDelay(options.retryBase, options.retryCap, message.attempts, random);
      if !env.releaseFate(id).NotApplied? {
        var released := store.ReleaseForRetry(message, claimantId, delay, env.publish(id).error, env.releaseAt(id));
      }
    }
  }

  lemma SomeConfirmed(ids: seq<SequenceId>, published: seq<Message>, failed: seq<Message>, env: Surroundings)
    requires forall id :: id in ids <==> id in SequenceIds(published) + SequenceIds(failed)
    requires forall id :: id in SequenceIds(published) ==> env.publish(id).Confirmed?
    requires forall id :: id in SequenceIds(failed) ==> env.publish(id).Failed?
    ensures |published| > 0 <==> exists id :: id in ids && env.publish(id).Confirmed?
    ensures SequenceIds(published) == ConfirmedIds(ids, env)
  {
    if |published| > 0 {
      assert published[0].sequenceId in SequenceIds(published);
    }
  }

  lemma ClaimedIds(ids: seq<SequenceId>, claimed: seq<Message>, rows: Table)
    requires forall id :: id in ids ==> id in rows
    requires forall i, j :: 0 <= i < j < |ids| ==> ids[i] < ids[j]
    requires claimed == ToMessages(rows, ids)
    ensures forall id :: id in ids <==> id in SequenceIds(claimed)
    ensures Ascending(claimed)
    ensures forall m :: m in claimed ==> m.sequenceId in rows && m.attempts == rows[m.sequenceId].attempts
  {
    forall id | id in ids
      ensures id in SequenceIds(claimed)
    {
      var i :| 0 <= i < |ids| && ids[i] == id;
      assert claimed[i].sequenceId == id;
    }
  }

  /** The mark touches exactly the confirmed rows of the batch. */
  lemma AfterMark(
    before: Table, ids: seq<SequenceId>, claimant: ClaimantId, options: Options, env: Surroundings,
    claimed: Table, published: seq<Message>, marked: Table)
    requires forall id :: id in ids ==> id in before && before[id].publishedAt.None?
    requires claimed == ClaimRows(before, ids, claimant, options.lease, env.claimAt)
    requires marked == MarkRows(claimed, SequenceIds(published), env.markAt)
    requires SequenceIds(published) == ConfirmedIds(ids, env)
    ensures marked.Keys == before.Keys
    ensures forall id :: id in marked && id !in ids ==> marked[id] == before[id]
    ensures forall id :: id in ids ==>
                           var row := ClaimRow(before[id], claimant, options.lease, env.claimAt);
                           marked[id] == if env.publish(id).Confirmed? then MarkRow(row, env.markAt) else row
  {
  }

  lemma FailedStillHeld(
    ids: seq<SequenceId>, claimed: seq<Message>, failed: seq<Message>, rows: Table, marked: Table,
    claimant: ClaimantId, env: Surroundings)
    requires forall id :: id in ids <==> id in SequenceIds(claimed)
    requires forall m :: m in claimed ==> m.sequenceId in rows && m.attempts == rows[m.sequenceId].attempts
    requires forall m :: m in failed ==> m in claimed
    requires forall id :: id in SequenceIds(failed) ==> env.publish(id).Failed?
    requires forall id :: id in ids ==> id in rows && rows[id].claimedBy == Some(claimant) && rows[id].publishedAt.None?
    requires forall id :: id in ids && env.publish(id).Failed? ==> id in marked && marked[id] == rows[id]
    ensures forall i :: 0 <= i < |failed| ==>
                          env.publish(failed[i].sequenceId).Failed? && HoldsClaim(marked, failed[i], claimant)
  {
    forall i | 0 <= i < |failed|
      ensures env.publish(failed[i].sequenceId).Failed? && HoldsClaim(marked, failed[i], claimant)
    {
      assert failed[i] in claimed && failed[i].sequenceId in SequenceIds(failed);
      assert failed[i].sequenceId in SequenceIds(claimed);
    }
  }

  lemma BatchIsSettled(
    before: Table, ids: seq<SequenceId>, published: seq<Message>, failed: seq<Message>,
    marked: Table, settled: Table, claimant: ClaimantId, options: Options, env: Surroundings)
    requires forall id :: id in ids <==> id in SequenceIds(published) + SequenceIds(failed)
    requires forall id :: id in SequenceIds(published) ==> env.publish(id).Confirmed?
    requires forall id :: id in SequenceIds(failed) ==> env.publish(id).Failed?
    requires forall id :: id in ids ==>
                            && id in before && id in marked && id in settled
                            && var row := ClaimRow(before[id], claimant, options.lease, env.claimAt);
                            marked[id] == if env.publish(id).Confirmed? then MarkRow(row, env.markAt) else row
    requires forall id :: id in settled && id !in SequenceIds(failed) ==> id in marked && settled[id] == marked[id]
    requires forall i :: 0 <= i < |failed| ==>
                           && failed[i].sequenceId in marked && failed[i].sequenceId in settled
                           && RescheduledRow(marked[failed[i].sequenceId], settled[failed[i].sequenceId],
                                             failed[i].sequenceId, options, env)
    ensures forall id :: id in ids ==> SettledRow(before[id], settled[id], id, options, env, claimant)
  {
    forall id | id in ids
      ensures SettledRow(before[id], settled[id], id, options, env, claimant)
    {
      if env.publish(id).Failed? {
        var i :| 0 <= i < |failed| && failed[i].sequenceId == id;
      }
    }
  }

  /** What splitting and marking a batch leave for the reschedule step. */
  lemma SplitBatch(
    before: Table, ids: seq<SequenceId>, claimed: seq<Message>, published: seq<Message>, failed: seq<Message>,
    rows: Table, claimant: ClaimantId, options: Options, env: Surroundings)
    requires forall id :: id in ids ==> id in before && before[id].publishedAt.None?
    requires forall i, j :: 0 <= i < j < |ids| ==> ids[i] < ids[j]
    requires rows == ClaimRows(before, ids, claimant, options.lease, env.claimAt)
    requires claimed == ToMessages(rows, ids)
    requires published == Outcome(claimed, env, true) && failed == Outcome(claimed, env, false)
    ensures |published| > 0 <==> exists id :: id in ids && env.publish(id).Confirmed?
    ensures SequenceIds(published) == ConfirmedIds(ids, env)
    ensures Ascending(failed)
    ensures var marked := MarkRows(rows, SequenceIds(published), env.markAt);
            && (published == [] ==> marked == rows)
            && BatchMarked(before, ids, published, failed, marked, claimant, options, env)
  {
    var marked := MarkRows(rows, SequenceIds(published), env.markAt);
    ClaimedIds(ids, claimed, rows);
    IdsOfSplit(claimed, published, failed, env);
    SomeConfirmed(ids, published, failed, env);
    AfterMark(before, ids, claimant, options, env, rows, published, marked);
    FailedStillHeld(ids, claimed, failed, rows, marked, claimant, env);
    BatchIsMarked(before, ids, published, failed, marked, claimant, options, env);
    NothingMarked(rows, published, env);
  }

  lemma NothingMarked(rows: Table, published: seq<Message>, env: Surroundings)
    ensures published == [] ==> MarkRows(rows, SequenceIds(published), env.markAt) == rows
  {
  }

  lemma BatchIsMarked(
    before: Table, ids: seq<SequenceId>, published: seq<Message>, failed: seq<Message>, marked: Table,
    claimant: ClaimantId, options: Options, env: Surroundings)
    requires forall id :: id in ids <==> id in SequenceIds(published) + SequenceIds(failed)
    requires forall id :: id in SequenceIds(published) ==> env.publish(id).Confirmed?
    requires marked.Keys == before.Keys
    requires forall id :: id in marked && id !in ids ==> marked[id] == before[id]
    requires forall id :: id in ids ==>
                            id in before &&
                            var row := ClaimRow(before[id], claimant, options.lease, env.claimAt);
                            marked[id] == if env.publish(id).Confirmed? then MarkRow(row, env.markAt) else row
    requires forall i :: 0 <= i < |failed| ==>
                           env.publish(failed[i].sequenceId).Failed? && HoldsClaim(marked, failed[i], claimant)
    ensures BatchMarked(before, ids, published, failed, marked, claimant, options, env)
  {
  }

  function Outcome(messages: seq<Message>, env: Surroundings, confirmed: bool): seq<Message> {
    if messages == [] then [] else
    var last := messages[|messages| - 1];
    var init := Outcome(messages[..|messages| - 1], env, confirmed);
    if env.publish(last.sequenceId).Confirmed? == confirmed then init + [last] else init
  }

  lemma {:induction false} OutcomeMembers(messages: seq<Message>, env: Surroundings, confirmed: bool)
    ensures forall m :: m in Outcome(messages, env, confirmed) <==>
                        m in messages && env.publish(m.sequenceId).Confirmed? == confirmed
  {
    if messages != [] {
      var init := messages[..|messages| - 1];
      OutcomeMembers(init, env, confirmed);
      assert messages == init + [messages[|messages| - 1]];
    }
  }

  predicate Ascending(messages: seq<Message>) {
    forall i, j :: 0 <= i < j < |messages| ==> messages[i].sequenceId < messages[j].sequenceId
  }

  /** Splitting keeps the claim order. */
  lemma {:induction false} OutcomeAscends(messages: seq<Message>, env: Surroundings, confirmed: bool)
    requires Ascending(messages)
    ensures Ascending(Outcome(messages, env, confirmed))
  {
    if messages != [] {
      var init := messages[..|messages| - 1];
      OutcomeAscends(init, env, confirmed);
      OutcomeMembers(init, env, confirmed);
      assert forall m :: m in init ==> m.sequenceId < messages[|messages| - 1].sequenceId;
    }
  }

  /** The two parts hold every claimed message exactly once, each in claim order. */
  lemma MembersOfSplit(claimed: seq<Message>, published: seq<Message>, failed: seq<Message>, env: Surroundings)
    requires Ascending(claimed)
    requires published == Outcome(claimed, env, true) && failed == Outcome(claimed, env, false)
    ensures forall m :: m in published <==> m in claimed && env.publish(m.sequenceId).Confirmed?
    ensures forall m :: m in failed <==> m in claimed && env.publish(m.sequenceId).Failed?
    ensures Ascending(published) && Ascending(failed)
    ensures multiset(published) + multiset(failed) == multiset(claimed)
  {
    OutcomeMembers(claimed, env, true);
    OutcomeMembers(claimed, env, false);
    OutcomeAscends(claimed, env, true);
    OutcomeAscends(claimed, env, false);
    OutcomesMakeAll(claimed, env);
  }

  lemma IdsOfMembers(messages: seq<Message>, id: SequenceId)
    ensures id in SequenceIds(messages) <==> exists m :: m in messages && m.sequenceId == id
  {
    if id in SequenceIds(messages) {
      var i :| 0 <= i < |messages| && messages[i].sequenceId == id;
      assert messages[i] in messages;
    }
  }

  lemma IdsOfSplit(claimed: seq<Message>, published: seq<Message>, failed: seq<Message>, env: Surroundings)
    requires Ascending(claimed)
    requires published == Outcome(claimed, env, true) && failed == Outcome(claimed, env, false)
    ensures SequenceIds(published) + SequenceIds(failed) == SequenceIds(claimed)
    ensures forall id :: id in SequenceIds(published) ==> env.publish(id).Confirmed?
    ensures forall id :: id in SequenceIds(failed) ==> env.publish(id).Failed?
    ensures forall m :: m in failed ==> m in claimed
    ensures Ascending(failed)
  {
    OutcomeMembers(claimed, env, true);
    OutcomeMembers(claimed, env, false);
    OutcomeAscends(claimed, env, false);
    forall id
      ensures id in SequenceIds(claimed) <==> id in SequenceIds(published) + SequenceIds(failed)
      ensures id in SequenceIds(published) ==> env.publish(id).Confirmed?
      ensures id in SequenceIds(failed) ==> env.publish(id).Failed?
    {
      IdsOfMembers(claimed, id);
      IdsOfMembers(published, id);
      IdsOfMembers(failed, id);
    }
  }

  lemma OutcomeOneMore(init: seq<Message>, last: Message, env: Surroundings, confirmed: bool)
    ensures multiset(Outcome(init + [last], env, confirmed))
            == multiset(Outcome(init, env, confirmed))
               + if env.publish(last.sequenceId).Confirmed? == confirmed then multiset{last} else multiset{}
  {
    assert (init + [last])[..|init|] == init;
  }

  lemma {:induction false} OutcomesMakeAll(messages: seq<Message>, env: Surroundings)
    ensures multiset(Outcome(messages, env, true)) + multiset(Outcome(messages, env, false)) == multiset(messages)
  {
    if messages != [] {
      var init, last := messages[..|messages| - 1], messages[|messages| - 1];
      OutcomesMakeAll(init, env);
      assert messages == init + [last];
      OutcomeOneMore(init, last, env, true);
      OutcomeOneMore(init, last, env, false);
    }
  }
}
