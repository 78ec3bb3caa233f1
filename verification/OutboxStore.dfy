/**
 * The transactional outbox table of one service. Each operation is one SQL statement and is
 * therefore one atomic change of the table; the clock reading of the statement is a parameter.
 */
module OutboxStore {
  import opened Contracts
  import opened Ordering

  type SequenceId = nat
  type ClaimantId = nat

  datatype Row = Row(
    event: Event,
    attempts: nat,
    availableAt: Time,
    claimedBy: Option<ClaimantId>,
    publishedAt: Option<Time>,
    lastError: Option<string>)

  type Table = map<SequenceId, Row>

  /** What a claim hands to the relay; `attempts` is the fencing token. */
  datatype Message = Message(sequenceId: SequenceId, event: Event, attempts: nat)

  /** What becomes of a statement: it may take no effect, or only its reply may get lost. */
  datatype Fate = Applied | AppliedReplyLost | NotApplied

  const MAX_STORED_ERROR_LENGTH := 2_000

  function NewRow(event: Event, now: Time): Row {
    Row(event, 0, now, None, None, None)
  }

  predicate IsDue(row: Row, now: Time) {
    row.publishedAt.None? && row.availableAt <= now
  }

  /** The due rows no other statement currently locks (SKIP LOCKED). */
  function DueIds(table: Table, now: Time, locked: set<SequenceId>): set<SequenceId> {
    set id | id in table && id !in locked && IsDue(table[id], now)
  }

  function Min(left: nat, right: nat): nat {
    if left <= right then left else right
  }

  /** ORDER BY sequence_id LIMIT limit. */
  ghost function FirstIds(ids: set<SequenceId>, limit: nat): seq<SequenceId>
    decreases limit
  {
    if limit == 0 || ids == {} then []
    else [Least(ids)] + FirstIds(ids - {Least(ids)}, limit - 1)
  }

  predicate Ascends(ids: seq<SequenceId>) {
    forall i, j :: 0 <= i < j < |ids| ==> ids[i] < ids[j]
  }

  /** Members only, and none of those left out is older than one of those taken. */
  predicate AreOldest(taken: seq<SequenceId>, ids: set<SequenceId>) {
    && (forall id :: id in taken ==> id in ids)
    && (forall id, left :: id in taken && left in ids && left !in taken ==> id < left)
  }

  lemma LeastThenOldest(ids: set<SequenceId>, least: SequenceId, tail: seq<SequenceId>)
    requires IsLeast(least, ids) && Ascends(tail) && AreOldest(tail, ids - {least})
    ensures Ascends([least] + tail) && AreOldest([least] + tail, ids)
  {
    forall k | 0 <= k < |tail| ensures least < tail[k] {
      assert tail[k] in tail && tail[k] in ids - {least};
    }
    forall left | left in ids && left !in [least] + tail ensures left in ids - {least} && left !in tail {
      assert least in [least] + tail;
    }
  }

  /**
   * The claim takes as many due rows as the limit allows, without repetition, in ascending
   * order, and never passes over a row older than one it takes.
   */
  lemma {:induction false} FirstIdsTakesOldest(ids: set<SequenceId>, limit: nat)
    ensures |FirstIds(ids, limit)| == Min(limit, |ids|)
    ensures Ascends(FirstIds(ids, limit)) && AreOldest(FirstIds(ids, limit), ids)
    decreases limit
  {
    if limit == 0 || ids == {} {
    } else {
      var least := Least(ids);
      FirstIdsTakesOldest(ids - {least}, limit - 1);
      LeastThenOldest(ids, least, FirstIds(ids - {least}, limit - 1));
    }
  }

  /** A due row is claimed exactly when fewer older rows than the limit are due with it. */
  lemma {:induction false} TakenIff(ids: set<SequenceId>, limit: nat, id: SequenceId)
    requires id in ids
    ensures id in FirstIds(ids, limit) <==> |set other | other in ids && other < id| < limit
    decreases limit
  {
    var older := set other | other in ids && other < id;
    if limit > 0 {
      var least := Least(ids);
      var rest := ids - {least};
      assert FirstIds(ids, limit) == [least] + FirstIds(rest, limit - 1);
      if id == least {
        assert older == {};
      } else {
        TakenIff(rest, limit - 1, id);
        assert older == (set other | other in rest && other < id) + {least};
      }
    }
  }

  // ---------------------------------------------------------------------------------------
  // The statements as functions of the table
  // ---------------------------------------------------------------------------------------

  function ClaimRow(row: Row, claimant: ClaimantId, lease: nat, now: Time): Row {
    row.(availableAt := now + lease, claimedBy := Some(claimant), attempts := row.attempts + 1)
  }

  function ClaimRows(table: Table, ids: seq<SequenceId>, claimant: ClaimantId, lease: nat, now: Time): Table {
    map id | id in table :: if id in ids then ClaimRow(table[id], claimant, lease, now) else table[id]
  }

  /** The rows RETURNING hands back, in the order of `ids`. */
  function ToMessages(table: Table, ids: seq<SequenceId>): (messages: seq<Message>)
    requires forall id :: id in ids ==> id in table
    ensures |messages| == |ids|
    ensures forall i :: 0 <= i < |ids| ==>
                          messages[i] == Message(ids[i], table[ids[i]].event, table[ids[i]].attempts)
  {
    if ids == [] then []
    else [Message(ids[0], table[ids[0]].event, table[ids[0]].attempts)] + ToMessages(table, ids[1..])
  }

  function MarkRow(row: Row, now: Time): Row {
    row.(publishedAt := Some(now), claimedBy := None, lastError := None)
  }

  function MarkRows(table: Table, ids: set<SequenceId>, now: Time): Table {
    map id | id in table ::
      if id in ids && table[id].publishedAt.None? then MarkRow(table[id], now) else table[id]
  }

  /** The WHERE clause of a release: the claimant's own, newest, unpublished claim. */
  predicate HoldsClaim(table: Table, message: Message, claimant: ClaimantId) {
    && message.sequenceId in table
    && table[message.sequenceId].claimedBy == Some(claimant)
    && table[message.sequenceId].attempts == message.attempts
    && table[message.sequenceId].publishedAt.None?
  }

  function ReleaseRow(row: Row, delay: nat, error: string, now: Time): Row {
    row.(availableAt := now + delay,
    claimedBy := None,
    lastError := Some(error[..Min(MAX_STORED_ERROR_LENGTH, |error|)]))
  }

  function ReleaseRows(
    table: Table, message: Message, claimant: ClaimantId, delay: nat, error: string, now: Time
  ): Table
  {
    if HoldsClaim(table, message, claimant)
    then table[message.sequenceId := ReleaseRow(table[message.sequenceId], delay, error, now)]
    else table
  }

  /** The row of a release that takes effect is nobody's, tells why, and is not due before its delay has passed. */
  lemma ReleasedRowWaits(
    table: Table, message: Message, claimant: ClaimantId, delay: nat, error: string, now: Time, later: Time)
    requires HoldsClaim(table, message, claimant)
    ensures var after := ReleaseRows(table, message, claimant, delay, error, now);
            && (message.sequenceId in DueIds(after, later, {}) <==> now + delay <= later)
            && SameRowButHold(table[message.sequenceId], after[message.sequenceId])
            && after[message.sequenceId].claimedBy.None?
            && StoresError(after[message.sequenceId], error)
            && (forall id :: id in table && id != message.sequenceId ==> after[id] == table[id])
  {
  }

  /** Only the hold on the row changed: its availability, its claimant and its last error. */
  predicate SameRowButHold(before: Row, after: Row) {
    after.event == before.event && after.attempts == before.attempts && after.publishedAt == before.publishedAt
  }

  /** The column keeps as much of the error as fits into two thousand characters. */
  predicate StoresError(row: Row, error: string) {
    && row.lastError.Some?
    && row.lastError.value <= error
    && |row.lastError.value| == if |error| <= 2_000 then |error| else 2_000
  }

  /** The batch is exactly the due and unlocked rows that fewer than `limit` older such rows precede. */
  lemma ClaimedIff(table: Table, now: Time, locked: set<SequenceId>, limit: nat, id: SequenceId)
    ensures id in FirstIds(DueIds(table, now, locked), limit) <==>
            && id in table && id !in locked && table[id].publishedAt.None? && table[id].availableAt <= now
            && |set other | other in table && other < id && other !in locked
                            && table[other].publishedAt.None? && table[other].availableAt <= now| < limit
  {
    var due := DueIds(table, now, locked);
    FirstIdsTakesOldest(due, limit);
    if id in due {
      TakenIff(due, limit, id);
      assert (set other | other in due && other < id)
             == set other | other in table && other < id && other !in locked
                            && table[other].publishedAt.None? && table[other].availableAt <= now;
    }
  }

  /** A claim holds each row for the lease and counts; everything else about the row stays. */
  lemma ClaimedRowIsHeld(table: Table, ids: seq<SequenceId>, claimant: ClaimantId, lease: nat, now: Time, id: SequenceId, later: Time)
    requires id in table && id in ids && table[id].publishedAt.None?
    ensures var after := ClaimRows(table, ids, claimant, lease, now);
            && (id in DueIds(after, later, {}) <==> now + lease <= later)
            && after[id].claimedBy == Some(claimant) && after[id].attempts == table[id].attempts + 1
            && after[id].event == table[id].event && after[id].publishedAt.None?
            && after[id].lastError == table[id].lastError
  {
  }

  /** A mark stamps the unpublished rows among `ids`, for good: they are never due again. */
  lemma MarkedRowIsDone(table: Table, ids: set<SequenceId>, now: Time, id: SequenceId, later: Time)
    requires id in table
    ensures var after := MarkRows(table, ids, now);
            && id in after && after[id].event == table[id].event && after[id].attempts == table[id].attempts
            && (if id in ids && table[id].publishedAt.None? then
                  && after[id].publishedAt == Some(now)
                  && after[id].claimedBy.None? && after[id].lastError.None? && id !in DueIds(after, later, {})
                else after[id] == table[id])
  {
  }

  /** A new row is due at once and was never claimed. */
  lemma NewRowIsDue(event: Event, now: Time, later: Time)
    ensures var row := NewRow(event, now);
            && (IsDue(row, later) <==> now <= later)
            && row.event == event && row.attempts == 0 && row.claimedBy.None? && row.lastError.None?
  {
  }

  function SequenceIds(messages: seq<Message>): set<SequenceId> {
    set i | 0 <= i < |messages| :: messages[i].sequenceId
  }

  /** The store: the statements applied to the table in place. */
  class PostgresOutboxStore {
    var rows: Table

    constructor ()
      ensures rows == map[]
    {
      rows := map[];
    }

    method ClaimBatch(claimant: ClaimantId, limit: nat, lease: nat, now: Time, locked: set<SequenceId>)
      returns (batch: seq<Message>)
      modifies this
      ensures var ids := FirstIds(DueIds(old(rows), now, locked), limit);
              && |batch| == |ids| <= limit
              && (forall id :: id in ids ==> id in rows)
              && rows == ClaimRows(old(rows), ids, claimant, lease, now)
              && batch == ToMessages(rows, ids)
    {
      var before := rows;
      var due := set id | id in before && id !in locked && IsDue(before[id], now);
      ghost var all := due;
      var taken: seq<SequenceId> := [];
      while due != {} && |taken| < limit
        invariant rows == before
        invariant due <= all
        invariant |taken| <= limit
        invariant taken + FirstIds(due, limit - |taken|) == FirstIds(all, limit)
        invariant forall id :: id in taken ==> id in before
        decreases due
      {
        LeastExists(due);
        var least :| least in due && forall id :: id in due ==> least <= id;
        assert IsLeast(least, due) && least == Least(due);
        taken, due := taken + [least], due - {least};
      }
      assert FirstIds(due, limit - |taken|) == [];
      assert taken == FirstIds(all, limit);
      rows := ClaimRows(before, taken, claimant, lease, now);
      batch := ToMessages(rows, taken);
    }

    /** Not fenced: whoever recorded the confirmed publication first wins. */
    method MarkPublished(messages: seq<Message>, now: Time)
      modifies this
      ensures rows == MarkRows(old(rows), SequenceIds(messages), now)
    {
      if |messages| == 0 {
        assert rows == MarkRows(rows, {}, now);
        return;
      }
      rows := MarkRows(rows, SequenceIds(messages), now);
    }

    /** True exactly when the row was still held under this message's token. */
    method ReleaseForRetry(message: Message, claimant: ClaimantId, delay: nat, error: string, now: Time)
      returns (released: bool)
      modifies this
      ensures rows == ReleaseRows(old(rows), message, claimant, delay, error, now)
      ensures released <==> HoldsClaim(old(rows), message, claimant)
      ensures released ==>
                && rows == old(rows)[message.sequenceId := rows[message.sequenceId]]
                && rows[message.sequenceId].availableAt == now + delay && rows[message.sequenceId].claimedBy.None?
                && StoresError(rows[message.sequenceId], error)
                && SameRowButHold(old(rows)[message.sequenceId], rows[message.sequenceId])
      ensures !released ==> rows == old(rows)
    {
      released := false;
      if message.sequenceId in rows {
        var row := rows[message.sequenceId];
        if row.claimedBy == Some(claimant) && row.attempts == message.attempts && row.publishedAt.None? {
          rows := rows[message.sequenceId := ReleaseRow(row, delay, error, now)];
          released := true;
        }
      }
    }
  }
}
