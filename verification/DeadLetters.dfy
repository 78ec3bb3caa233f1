/** Replaying a dead-letter queue into the consumer queue it belongs to. */
module DeadLetters {
  import opened Contracts

  /** A header value; anything that is not a number counts as NaN where a number is expected. */
  datatype HeaderValue = Number(value: int) | NotANumber | Text(text: string)

  type Headers = map<string, HeaderValue>

  datatype Properties = Properties(
    contentType: Option<string>, messageId: Option<string>, correlationId: Option<string>, eventType: Option<string>)

  datatype Message = Message(content: string, properties: Properties, headers: Headers)

  const REPLAYED_FROM_HEADER := "x-commerce-flow-replayed-from"
  const REPLAY_COUNT_HEADER := "x-commerce-flow-replay-count"

  predicate IsDeathHeader(key: string) {
    key == "x-death" || "x-first-death-" <= key || "x-last-death-" <= key
  }

  /** Number(headers[...] ?? 0); None stands for NaN. */
  function ReplayCount(headers: Headers): Option<int> {
    if REPLAY_COUNT_HEADER !in headers then Some(0)
    else if headers[REPLAY_COUNT_HEADER].Number? then Some(headers[REPLAY_COUNT_HEADER].value)
    else None
  }

  function NextCount(count: Option<int>): HeaderValue {
    match count case Some(n) => Number(n + 1) case None => NotANumber
  }

  function KeptHeaders(headers: Headers): Headers {
    map key | key in headers && !IsDeathHeader(key) :: headers[key]
  }

  /** The message as it is published again. */
  function Copy(message: Message, deadLetterQueue: string): Message {
    message.(headers := KeptHeaders(message.headers)
      [REPLAYED_FROM_HEADER := Text(deadLetterQueue)]
      [REPLAY_COUNT_HEADER := NextCount(ReplayCount(message.headers))])
  }

  /**
   * A copy has the same body and properties and a replay count of one more, the first being one; the broker's death
   * bookkeeping is gone and every other header is as it was.
   */
  lemma CopyCountsReplay(message: Message, queue: string, key: string)
    ensures var copy := Copy(message, queue);
            && copy.content == message.content && copy.properties == message.properties
            && copy.headers[REPLAYED_FROM_HEADER] == Text(queue)
            && (REPLAY_COUNT_HEADER !in message.headers ==> copy.headers[REPLAY_COUNT_HEADER] == Number(1))
            && (REPLAY_COUNT_HEADER in message.headers ==>
                  var count := message.headers[REPLAY_COUNT_HEADER];
                  copy.headers[REPLAY_COUNT_HEADER] == if count.Number? then Number(count.value + 1) else NotANumber)
            && var isDeath := key == "x-death" || "x-first-death-" <= key || "x-last-death-" <= key;
            && (isDeath ==> key !in copy.headers)
            && (!isDeath && key != REPLAYED_FROM_HEADER && key != REPLAY_COUNT_HEADER ==>
                  (key in copy.headers <==> key in message.headers)
                  && (key in message.headers ==> copy.headers[key] == message.headers[key]))
  {
    OwnHeadersAreNoDeathHeaders();
  }

  lemma OwnHeadersAreNoDeathHeaders()
    ensures !IsDeathHeader(REPLAYED_FROM_HEADER) && !IsDeathHeader(REPLAY_COUNT_HEADER)
    ensures REPLAYED_FROM_HEADER != REPLAY_COUNT_HEADER
  {
    assert REPLAYED_FROM_HEADER[2] == 'c' && REPLAY_COUNT_HEADER[2] == 'c';
    assert |REPLAYED_FROM_HEADER| != |REPLAY_COUNT_HEADER|;
    assert "x-death"[2] == 'd' && "x-first-death-"[2] == 'f' && "x-last-death-"[2] == 'l';
  }

  method ReplayHeaders(headers: Headers, deadLetterQueue: string, previousReplayCount: Option<int>) returns (result: Headers)
    ensures result == KeptHeaders(headers)
                      [REPLAYED_FROM_HEADER := Text(deadLetterQueue)]
                      [REPLAY_COUNT_HEADER := NextCount(previousReplayCount)]
  {
    result := map[];
    var rest := headers.Keys;
    while rest != {}
      invariant rest <= headers.Keys
      invariant result == map key | key in headers && key !in rest && !IsDeathHeader(key) :: headers[key]
      decreases rest
    {
      var key :| key in rest;
      rest := rest - {key};
      if !IsDeathHeader(key) {
        result := result[key := headers[key]];
      }
    }
    result := result[REPLAYED_FROM_HEADER := Text(deadLetterQueue)];
    result := result[REPLAY_COUNT_HEADER := NextCount(previousReplayCount)];
  }

  // ---------------------------------------------------------------------------------------
  // The broker
  // ---------------------------------------------------------------------------------------

  /** A first-in first-out dead-letter queue with one reader, and what reached the consumer queue. */
  class Broker {
    var ready: seq<Message>
    var unacknowledged: Option<Message>
    var copies: seq<Message>

    constructor (ready: seq<Message>)
      ensures this.ready == ready && unacknowledged == None && copies == []
    {
      this.ready, unacknowledged, copies := ready, None, [];
    }

    method Get() returns (message: Option<Message>)
      requires unacknowledged.None?
      modifies this
      ensures copies == old(copies) && unacknowledged == message
      ensures old(ready) == [] ==> message.None? && ready == []
      ensures old(ready) != [] ==> message == Some(old(ready)[0]) && ready == old(ready)[1..]
    {
      if ready == [] {
        message := None;
      } else {
        message, ready := Some(ready[0]), ready[1..];
      }
      unacknowledged := message;
    }

    /** Consumers that keep failing add to the end of the queue at any time. */
    method DeadLetter(failed: seq<Message>)
      modifies this
      ensures ready == old(ready) + failed && unacknowledged == old(unacknowledged) && copies == old(copies)
    {
      ready := ready + failed;
    }

    method Accept(message: Message)
      modifies this
      ensures ready == old(ready) && unacknowledged == old(unacknowledged) && copies == old(copies) + [message]
    {
      copies := copies + [message];
    }

    method Acknowledge()
      modifies this
      ensures ready == old(ready) && unacknowledged == None && copies == old(copies)
    {
      unacknowledged := None;
    }

    /** A negative acknowledgement, or the end of the channel, puts the message back in its place. */
    method Requeue()
      modifies this
      ensures copies == old(copies) && unacknowledged == None
      ensures ready == (if old(unacknowledged).Some? then [old(unacknowledged).value] else []) + old(ready)
    {
      if unacknowledged.Some? {
        ready := [unacknowledged.value] + ready;
      }
      unacknowledged := None;
    }
  }

  /** What becomes of one round of the replay loop. */
  datatype Round =
    | Replays              // confirmed and acknowledged
    | Returned             // the broker cannot route the copy
    | Nacked               // the broker refuses the copy
    | LostBeforeGet        // the tool or its connection dies ...
    | LostAfterGet
    | LostAfterAccept      // ... with the copy accepted but the dead letter not acknowledged

  datatype Surroundings = Surroundings(
    queueExists: bool,
    arrivals: nat -> seq<Message>,     // dead-lettered before each round
    round: nat -> Round)

  /** Failed: an error was thrown or the tool died. */
  datatype ReplayResult = Completed(replayed: nat, remaining: nat) | Failed(replayed: nat)

  function Copies(messages: seq<Message>, deadLetterQueue: string): (copies: seq<Message>)
    ensures |copies| == |messages|
    ensures forall i :: 0 <= i < |messages| ==> copies[i] == Copy(messages[i], deadLetterQueue)
  {
    if messages == [] then []
    else Copies(messages[..|messages| - 1], deadLetterQueue) + [Copy(messages[|messages| - 1], deadLetterQueue)]
  }

  function Maximum(limit: Option<int>, messageCount: nat): int {
    if limit.Some? && limit.value < messageCount then limit.value else messageCount
  }

  /** The accepted copies and the queue: a prefix was moved, in order and each once. */
  ghost predicate Moved(originals: seq<Message>, count: nat, accepted: nat, ready: seq<Message>, copies: seq<Message>,
                        copiesBefore: seq<Message>, deadLetterQueue: string)
  {
    && count <= accepted <= |originals|
    && originals[count..] <= ready
    && copies == copiesBefore + Copies(originals[..accepted], deadLetterQueue)
  }

  /** Every original is still queued or has a copy. */
  predicate NoneLost(originals: seq<Message>, ready: seq<Message>, copies: seq<Message>, deadLetterQueue: string) {
    forall i :: 0 <= i < |originals| ==>
                  originals[i] in ready || Copy(originals[i], deadLetterQueue) in copies
  }

  /** Publishes the fetched message again and acknowledges it only after the confirm. */
  method Republish(broker: Broker, message: Message, deadLetterQueue: string, round: Round) returns (moved: bool)
    requires broker.unacknowledged == Some(message) && !round.LostBeforeGet?
    modifies broker
    ensures broker.unacknowledged.None?
    ensures moved <==> round.Replays?
    ensures broker.ready == (if moved then [] else [message]) + old(broker.ready)
    ensures broker.copies == old(broker.copies) +
                             if round.Replays? || round.LostAfterAccept? then [Copy(message, deadLetterQueue)] else []
  {
    if round.LostAfterGet? || round.Returned? || round.Nacked? {
      broker.Requeue();
      return false;
    }
    var headers := ReplayHeaders(message.headers, deadLetterQueue, ReplayCount(message.headers));
    broker.Accept(message.(headers := headers));
    if round.LostAfterAccept? {
      broker.Requeue();
      return false;
    }
    broker.Acknowledge();
    moved := true;
  }

  datatype RoundEnd = MovedOne | Emptied | Stopped

  /** One round: consumers may add to the queue first, then its head is moved. */
  method ReplayNext(broker: Broker, deadLetterQueue: string, arrivals: seq<Message>, round: Round) returns (end: RoundEnd)
    requires broker.unacknowledged.None?
    modifies broker
    ensures broker.unacknowledged.None?
    ensures old(broker.ready) != [] ==>
              && (end.MovedOne? <==> round.Replays?) && !end.Emptied?
              && broker.ready == (if end.MovedOne? then old(broker.ready)[1..] else old(broker.ready)) + arrivals
              && broker.copies == old(broker.copies) +
                                  if round.Replays? || round.LostAfterAccept?
                                  then [Copy(old(broker.ready)[0], deadLetterQueue)] else []
  {
    ghost var before := broker.ready;
    broker.DeadLetter(arrivals);
    if round.LostBeforeGet? {
      return Stopped;
    }
    var message := broker.Get();
    if message.None? {
      return Emptied;
    }
    var moved := Republish(broker, message.value, deadLetterQueue, round);
    if before != [] {
      assert [before[0]] + (before + arrivals)[1..] == before + arrivals;
      assert (before + arrivals)[1..] == before[1..] + arrivals;
    }
    end := if moved then MovedOne else Stopped;
  }

  /** What a replay leaves behind. */
  ghost predicate ReplayEnds(
    originals: seq<Message>, copiesBefore: seq<Message>, ready: seq<Message>, copies: seq<Message>,
    deadLetterQueue: string, limit: Option<int>, env: Surroundings, result: ReplayResult)
  {
    var maximum := Maximum(limit, |originals|);
    var bound := if maximum < 0 then 0 else maximum;
    && NoneLost(originals, ready, copies, deadLetterQueue)
    && WithinLimit(|originals|, limit, result)
    && ready == originals[result.replayed..] + Arrived(env, Rounds(env, result))
    && (|| Moved(originals, result.replayed, result.replayed, ready, copies, copiesBefore, deadLetterQueue)
        || (&& result.Failed? && env.round(result.replayed).LostAfterAccept?
            && Moved(originals, result.replayed, result.replayed + 1, ready, copies, copiesBefore, deadLetterQueue)))
    && (result.Completed? <==> env.queueExists && AllReplay(env, bound))
    && (result.Completed? ==> result.replayed == bound && result.remaining == |ready|)
  }

  /** Never more than the limit or than there were; a completed replay moves as many as both allow. */
  predicate WithinLimit(messageCount: nat, limit: Option<int>, result: ReplayResult) {
    && result.replayed <= messageCount
    && (limit.Some? && limit.value >= 0 ==> result.replayed <= limit.value)
    && (limit.Some? && limit.value < 0 ==> result.replayed == 0)
    && (result.Completed? && (limit.None? || limit.value > messageCount) ==> result.replayed == messageCount)
    && (result.Completed? && limit.Some? && 0 <= limit.value <= messageCount ==> result.replayed == limit.value)
  }

  /** What consumers dead-lettered before the first `rounds` rounds. */
  function Arrived(env: Surroundings, rounds: nat): seq<Message> {
    if rounds == 0 then [] else Arrived(env, rounds - 1) + env.arrivals(rounds - 1)
  }

  /** The rounds that were begun: a failed one counts. */
  function Rounds(env: Surroundings, result: ReplayResult): nat {
    if !env.queueExists then 0 else if result.Completed? then result.replayed else result.replayed + 1
  }

  ghost predicate AllReplay(env: Surroundings, count: nat) {
    forall i: nat :: i < count ==> env.round(i).Replays?
  }

  /**
   * Ends whatever the consumers do. The first `replayed` messages present at the start, at most
   * `limit` of them, are gone from the dead-letter queue with one accepted copy each; a death
   * between acceptance and acknowledgement leaves one more copy of a message still queued. The
   * others and all that arrived in the meantime are still there, in order.
   */
  method ReplayDeadLetters(broker: Broker, deadLetterQueue: string, limit: Option<int>, env: Surroundings)
    returns (result: ReplayResult)
    requires broker.unacknowledged.None?
    modifies broker
    ensures broker.unacknowledged.None?
    ensures ReplayEnds(old(broker.ready), old(broker.copies), broker.ready, broker.copies, deadLetterQueue, limit, env, result)
  {
    ghost var originals, copiesBefore := broker.ready, broker.copies;
    ghost var arrived: seq<Message> := [];
    if !env.queueExists {
      result := Failed(0);
      Books(originals, copiesBefore, arrived, 0, deadLetterQueue, limit, env, result);
      return;
    }
    var maximum := Maximum(limit, |broker.ready|);
    var replayed: nat := 0;
    while replayed < maximum
      invariant broker.unacknowledged.None?
      invariant replayed <= (if maximum < 0 then 0 else maximum) <= |originals|
      invariant SoFar(originals, copiesBefore, arrived, replayed, replayed, broker.ready, broker.copies, deadLetterQueue)
      invariant AllReplay(env, replayed) && arrived == Arrived(env, replayed)
      decreases maximum - replayed
    {
      ghost var ready, copies, round := broker.ready, broker.copies, env.round(replayed);
      assert ready[0] == originals[replayed];
      var end := ReplayNext(broker, deadLetterQueue, env.arrivals(replayed), env.round(replayed));
      NextRound(originals, copiesBefore, arrived, env.arrivals(replayed), replayed, ready, copies, deadLetterQueue);
      arrived := arrived + env.arrivals(replayed);
      if end.Emptied? {
        break;
      }
      if end.Stopped? {
        result := Failed(replayed);
        Books(originals, copiesBefore, arrived, if round.LostAfterAccept? then replayed + 1 else replayed,
              deadLetterQueue, limit, env, result);
        return;
      }
      replayed := replayed + 1;
    }
    result := Completed(replayed, |broker.ready|);
    Books(originals, copiesBefore, arrived, replayed, deadLetterQueue, limit, env, result);
  }

  /** The first `replayed` originals have left the queue, and the first `accepted` have a copy. */
  predicate SoFar(
    originals: seq<Message>, copiesBefore: seq<Message>, arrived: seq<Message>, replayed: nat, accepted: nat,
    ready: seq<Message>, copies: seq<Message>, deadLetterQueue: string)
  {
    && replayed <= accepted <= |originals|
    && ready == originals[replayed..] + arrived
    && copies == copiesBefore + Copies(originals[..accepted], deadLetterQueue)
  }

  /** One round on: its head moved, or not, with or without a copy. */
  lemma NextRound(
    originals: seq<Message>, copiesBefore: seq<Message>, arrived: seq<Message>, arrivals: seq<Message>, replayed: nat,
    ready: seq<Message>, copies: seq<Message>, deadLetterQueue: string)
    requires replayed < |originals|
    requires SoFar(originals, copiesBefore, arrived, replayed, replayed, ready, copies, deadLetterQueue)
    ensures ready[0] == originals[replayed]
    ensures SoFar(originals, copiesBefore, arrived + arrivals, replayed + 1, replayed + 1,
                  ready[1..] + arrivals, copies + [Copy(ready[0], deadLetterQueue)], deadLetterQueue)
    ensures SoFar(originals, copiesBefore, arrived + arrivals, replayed, replayed + 1,
                  ready + arrivals, copies + [Copy(ready[0], deadLetterQueue)], deadLetterQueue)
    ensures SoFar(originals, copiesBefore, arrived + arrivals, replayed, replayed,
                  ready + arrivals, copies + [], deadLetterQueue)
  {
    OneMoreCopy(originals, replayed, deadLetterQueue);
    assert ready[1..] + arrivals == originals[replayed + 1..] + (arrived + arrivals);
    assert ready + arrivals == originals[replayed..] + (arrived + arrivals);
  }

  /** Closes the books at an exit of the loop. */
  lemma Books(
    originals: seq<Message>, copiesBefore: seq<Message>, arrived: seq<Message>, accepted: nat,
    deadLetterQueue: string, limit: Option<int>, env: Surroundings, result: ReplayResult)
    requires var maximum := Maximum(limit, |originals|);
             var bound := if maximum < 0 then 0 else maximum;
             var count := result.replayed;
             && count <= bound <= |originals|
             && AllReplay(env, count)
             && arrived == Arrived(env, Rounds(env, result))
             && (if result.Completed? then
                   env.queueExists && count == bound && result.remaining == |originals[count..] + arrived|
                 else !env.queueExists || (count < bound && !env.round(count).Replays?))
             && (accepted == count
                 || (result.Failed? && env.round(count).LostAfterAccept? && accepted == count + 1 && count < bound))
    ensures ReplayEnds(originals, copiesBefore, originals[result.replayed..] + arrived,
                       copiesBefore + Copies(originals[..accepted], deadLetterQueue), deadLetterQueue, limit, env, result)
  {
    MovedKeepsAll(originals, result.replayed, accepted, originals[result.replayed..] + arrived,
                  copiesBefore + Copies(originals[..accepted], deadLetterQueue), copiesBefore, deadLetterQueue);
  }

  lemma OneMoreCopy(originals: seq<Message>, count: nat, deadLetterQueue: string)
    requires count < |originals|
    ensures Copies(originals[..count + 1], deadLetterQueue)
            == Copies(originals[..count], deadLetterQueue) + [Copy(originals[count], deadLetterQueue)]
  {
    assert originals[..count + 1][..count] == originals[..count];
  }

  lemma MovedKeepsAll(
    originals: seq<Message>, count: nat, accepted: nat, ready: seq<Message>, copies: seq<Message>,
    copiesBefore: seq<Message>, deadLetterQueue: string)
    requires Moved(originals, count, accepted, ready, copies, copiesBefore, deadLetterQueue)
    ensures NoneLost(originals, ready, copies, deadLetterQueue)
  {
    forall i | 0 <= i < |originals|
      ensures originals[i] in ready || Copy(originals[i], deadLetterQueue) in copies
    {
      if i < count {
        assert copies[|copiesBefore| + i] == Copy(originals[i], deadLetterQueue);
      } else {
        assert ready[i - count] == originals[i];
      }
    }
  }
}
