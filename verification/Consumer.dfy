/** One queue's consumer: the retry loop around the handler and the cache of recent event ids. */
module Consumer {
  import opened Contracts

  // ---------------------------------------------------------------------------------------
  // The cache
  // ---------------------------------------------------------------------------------------

  /** The cached ids after an add, oldest first. */
  function CacheAdd(ids: seq<Id>, capacity: int, id: Id): seq<Id> {
    if capacity <= 0 || id in ids then ids
    else if |ids| + 1 > capacity then ids[1..] + [id]
    else ids + [id]
  }

  predicate DistinctIds(ids: seq<Id>) {
    forall i, j :: 0 <= i < j < |ids| ==> ids[i] != ids[j]
  }

  /** The contents after a sequence of adds to an empty cache. */
  function Cached(capacity: int, added: seq<Id>): seq<Id> {
    if added == [] then []
    else CacheAdd(Cached(capacity, added[..|added| - 1]), capacity, added[|added| - 1])
  }

  /** The adds that were not of an id the cache held at the time. */
  function Insertions(capacity: int, added: seq<Id>): seq<Id> {
    if added == [] then [] else
    var earlier := added[..|added| - 1];
    var last := added[|added| - 1];
    Insertions(capacity, earlier) + if last in Cached(capacity, earlier) then [] else [last]
  }

  function Newest(ids: seq<Id>, count: int): seq<Id> {
    if count <= 0 then [] else if |ids| <= count then ids else ids[|ids| - count..]
  }

  lemma NewestOfOneMore(ids: seq<Id>, count: int, id: Id)
    requires id !in Newest(ids, count)
    ensures Newest(ids + [id], count) == CacheAdd(Newest(ids, count), count, id)
  {
    if 0 < count <= |ids| {
      assert (ids + [id])[|ids| + 1 - count..] == ids[|ids| - count..][1..] + [id];
    }
  }

  lemma CacheAddKeepsDistinct(ids: seq<Id>, capacity: int, id: Id)
    requires DistinctIds(ids)
    ensures DistinctIds(CacheAdd(ids, capacity, id))
    ensures forall other :: other in CacheAdd(ids, capacity, id) ==> other in ids || other == id
  {
  }

  lemma {:induction false} CachedAreDistinct(capacity: int, added: seq<Id>)
    ensures DistinctIds(Cached(capacity, added))
    ensures forall id :: id in Cached(capacity, added) ==> id in added
  {
    if added != [] {
      var earlier, last := added[..|added| - 1], added[|added| - 1];
      CachedAreDistinct(capacity, earlier);
      CacheAddKeepsDistinct(Cached(capacity, earlier), capacity, last);
      assert added == earlier + [last];
    }
  }

  /** The cache holds exactly the newest insertions, each once, in the order they came in. */
  lemma {:induction false} CacheHoldsNewest(capacity: int, added: seq<Id>)
    ensures Cached(capacity, added) == Newest(Insertions(capacity, added), capacity)
    ensures DistinctIds(Cached(capacity, added))
    ensures forall id :: id in Cached(capacity, added) ==> id in added
  {
    CachedAreDistinct(capacity, added);
    if added != [] {
      var earlier, last := added[..|added| - 1], added[|added| - 1];
      CacheHoldsNewest(capacity, earlier);
      assert Cached(capacity, added) == CacheAdd(Cached(capacity, earlier), capacity, last);
      if last in Cached(capacity, earlier) {
        assert Insertions(capacity, added) == Insertions(capacity, earlier);
      } else {
        assert Insertions(capacity, added) == Insertions(capacity, earlier) + [last];
        NewestOfOneMore(Insertions(capacity, earlier), capacity, last);
      }
    }
  }

  class RecentEventIds {
    const capacity: int
    var eventIds: seq<Id>
    ghost var added: seq<Id>

    ghost predicate Valid()
      reads this
    {
      eventIds == Cached(capacity, added)
    }

    constructor (capacity: int)
      ensures Valid() && this.capacity == capacity && eventIds == [] && added == []
    {
      this.capacity, eventIds, added := capacity, [], [];
    }

    method Has(eventId: Id) returns (has: bool)
      ensures has <==> eventId in eventIds
    {
      has := eventId in eventIds;
    }

    method Add(eventId: Id)
      requires Valid()
      modifies this
      ensures Valid() && added == old(added) + [eventId]
      ensures eventIds == CacheAdd(old(eventIds), capacity, eventId)
    {
      assert (added + [eventId])[..|added|] == added;
      added := added + [eventId];
      if capacity <= 0 || eventId in eventIds {
        return;
      }
      eventIds := eventIds + [eventId];
      if |eventIds| > capacity {
        eventIds := eventIds[1..];
      }
    }
  }

  // ---------------------------------------------------------------------------------------
  // Handling one delivery
  // ---------------------------------------------------------------------------------------

  /** How a handler run ends; one that rejects may still have committed its work. */
  datatype HandlerRun = Resolved | Rejected(committed: bool, permanent: bool)

  /** What happens around the attempts of one delivery, by attempt number. */
  datatype Surroundings = Surroundings(
    run: nat -> HandlerRun,
    seed: nat -> nat,                   // what the run's id generator draws from
    abandoned: nat -> bool,             // shut down or reconnected during the delay after the attempt
    channelOpen: bool)                  // when the delivery is settled

  datatype Settlement = Acknowledged | DeadLettered

  /** A message handler as a function of the service's durable state. */
  datatype Handler<!S> = Handler(apply: (S, Event, nat) -> S)

  datatype Ending = Handled | GaveUp | Abandoned

  datatype Attempts<S> = Attempts(state: S, ending: Ending, handlerRuns: nat)

  function AfterRun<S>(handler: Handler<S>, state: S, event: Event, run: HandlerRun, seed: nat): S {
    if run.Resolved? || run.committed then handler.apply(state, event, seed) else state
  }

  /** The attempts from number `attempt` on. */
  function RunAttempts<S>(
    handler: Handler<S>, state: S, event: Event, env: Surroundings, attempt: nat, maxAttempts: int
  ): Attempts<S>
    decreases maxAttempts - attempt
  {
    var run := env.run(attempt);
    var next := AfterRun(handler, state, event, run, env.seed(attempt));
    if run.Resolved? then Attempts(next, Handled, attempt)
    else if run.permanent || attempt >= maxAttempts then Attempts(next, GaveUp, attempt)
    else if env.abandoned(attempt) then Attempts(next, Abandoned, attempt)
    else RunAttempts(handler, next, event, env, attempt + 1, maxAttempts)
  }

  /**
   * The handler runs at least once and at most max(1, maxAttempts) times, and its last run tells
   * how the attempts end: handled when it resolves, given up on a permanent error or at the last
   * attempt, abandoned otherwise. No earlier run could have ended them.
   */
  lemma {:induction false} AttemptsAreBounded<S>(
    handler: Handler<S>, state: S, event: Event, env: Surroundings, attempt: nat, maxAttempts: int)
    requires attempt >= 1 && (attempt > 1 ==> attempt <= maxAttempts)
    ensures var result := RunAttempts(handler, state, event, env, attempt, maxAttempts);
            && attempt <= result.handlerRuns <= (if maxAttempts > 1 then maxAttempts else 1)
            && (var last := env.run(result.handlerRuns);
                && (result.ending.Handled? <==> last.Resolved?)
                && (result.ending.GaveUp? <==>
                    last.Rejected? && (last.permanent || result.handlerRuns >= maxAttempts))
                && (result.ending.Abandoned? <==>
                    && last.Rejected? && !last.permanent && result.handlerRuns < maxAttempts
                    && env.abandoned(result.handlerRuns)))
            && (forall k :: attempt <= k < result.handlerRuns ==>
                              env.run(k).Rejected? && !env.run(k).permanent && !env.abandoned(k))
    decreases maxAttempts - attempt
  {
    var run := env.run(attempt);
    if run.Rejected? && !run.permanent && attempt < maxAttempts && !env.abandoned(attempt) {
      AttemptsAreBounded(handler, AfterRun(handler, state, event, run, env.seed(attempt)), event, env, attempt + 1, maxAttempts);
    }
  }

  /** What the first `runs` runs leave behind, each with its own draw. */
  function StateAfter<S>(handler: Handler<S>, state: S, event: Event, env: Surroundings, runs: nat): S {
    if runs == 0 then state
    else AfterRun(handler, StateAfter(handler, state, event, env, runs - 1), event, env.run(runs), env.seed(runs))
  }

  /** The attempts leave what their runs leave, one after the other. */
  lemma {:induction false} AttemptsFoldRuns<S>(
    handler: Handler<S>, state: S, event: Event, env: Surroundings, attempt: nat, maxAttempts: int)
    requires attempt >= 1
    ensures var result := RunAttempts(
                handler, StateAfter(handler, state, event, env, attempt - 1), event, env, attempt, maxAttempts);
            result.state == StateAfter(handler, state, event, env, result.handlerRuns)
    decreases maxAttempts - attempt
  {
    var run := env.run(attempt);
    if run.Rejected? && !run.permanent && attempt < maxAttempts && !env.abandoned(attempt) {
      AttemptsFoldRuns(handler, state, event, env, attempt + 1, maxAttempts);
    }
  }

  /** A message body that does not decode to an event is None. */
  datatype Delivery = Delivery(tag: nat, event: Option<Event>)

  /** The broker's view of the channel: which deliveries were settled, and how. */
  class Channel {
    var settled: seq<(nat, Settlement)>

    constructor ()
      ensures settled == []
    {
      settled := [];
    }

    /** On a closed channel the settlement is lost and the broker redelivers. */
    method Settle(tag: nat, outcome: Settlement, open: bool)
      modifies this
      ensures settled == if open then old(settled) + [(tag, outcome)] else old(settled)
    {
      if open {
        settled := settled + [(tag, outcome)];
      }
    }
  }

  class QueueConsumer<S> {
    const handler: Handler<S>
    const maxAttempts: int
    const recent: RecentEventIds
    const channel: Channel
    var state: S

    ghost predicate Valid()
      reads this, recent
    {
      recent.Valid()
    }

    constructor (handler: Handler<S>, maxAttempts: int, cacheSize: int, channel: Channel, state: S)
      ensures Valid() && fresh(recent)
      ensures this.handler == handler && this.maxAttempts == maxAttempts && this.channel == channel
      ensures this.state == state && recent.eventIds == [] && recent.capacity == cacheSize
    {
      this.handler, this.maxAttempts, this.channel, this.state := handler, maxAttempts, channel, state;
      recent := new RecentEventIds(cacheSize);
    }

    /**
     * Settles the delivery at most once: a malformed message is dead-lettered unhandled, a
     * recently handled one acknowledged unhandled. Any other one is tried until a run resolves,
     * which acknowledges it, or fails for good or for the last time, which dead-letters it, or
     * the delay after a failure is abandoned. Only a handled event enters the cache.
     */
    method HandleDelivery(delivery: Delivery, env: Surroundings) returns (handlerRuns: nat)
      requires Valid()
      modifies this, recent, channel
      ensures Valid()
      ensures handlerRuns <= if maxAttempts > 1 then maxAttempts else 1
      ensures delivery.event.None? ==>
                && handlerRuns == 0 && state == old(state) && recent.eventIds == old(recent.eventIds)
                && channel.settled == WithSettlement(old(channel.settled), delivery.tag, DeadLettered, env)
      ensures delivery.event.Some? && delivery.event.value.eventId in old(recent.eventIds) ==>
                && handlerRuns == 0 && state == old(state) && recent.eventIds == old(recent.eventIds)
                && channel.settled == WithSettlement(old(channel.settled), delivery.tag, Acknowledged, env)
      ensures delivery.event.Some? && delivery.event.value.eventId !in old(recent.eventIds) ==>
                var event := delivery.event.value;
                var last := env.run(handlerRuns);
                && handlerRuns >= 1
                && state == StateAfter(handler, old(state), event, env, handlerRuns)
                && (forall k :: 1 <= k < handlerRuns ==>
                                  env.run(k).Rejected? && !env.run(k).permanent && !env.abandoned(k))
                && recent.eventIds == (if last.Resolved?
                                       then CacheAdd(old(recent.eventIds), recent.capacity, event.eventId)
                                       else old(recent.eventIds))
                && channel.settled == (if last.Resolved?
                                       then WithSettlement(old(channel.settled), delivery.tag, Acknowledged, env)
                                       else if last.permanent || handlerRuns >= maxAttempts
                                       then WithSettlement(old(channel.settled), delivery.tag, DeadLettered, env)
                                       else old(channel.settled))
                && (last.Rejected? && !last.permanent && handlerRuns < maxAttempts ==> env.abandoned(handlerRuns))
    {
      if delivery.event.None? {
        channel.Settle(delivery.tag, DeadLettered, env.channelOpen);
        return 0;
      }
      var event := delivery.event.value;
      var duplicate := recent.Has(event.eventId);
      if duplicate {
        channel.Settle(delivery.tag, Acknowledged, env.channelOpen);
        return 0;
      }
      AttemptsAreBounded(handler, state, event, env, 1, maxAttempts);
      AttemptsFoldRuns(handler, state, event, env, 1, maxAttempts);
      var attempt := 1;
      while true
        invariant attempt >= 1 && (attempt > 1 ==> attempt <= maxAttempts)
        invariant recent.eventIds == old(recent.eventIds) && channel.settled == old(channel.settled) && Valid()
        invariant RunAttempts(handler, state, event, env, attempt, maxAttempts)
                  == RunAttempts(handler, old(state), event, env, 1, maxAttempts)
        decreases maxAttempts - attempt
      {
        var run := env.run(attempt);
        state := AfterRun(handler, state, event, run, env.seed(attempt));
        if run.Resolved? {
          recent.Add(event.eventId);
          channel.Settle(delivery.tag, Acknowledged, env.channelOpen);
          return attempt;
        }
        if run.permanent || attempt >= maxAttempts {
          channel.Settle(delivery.tag, DeadLettered, env.channelOpen);
          return attempt;
        }
        if env.abandoned(attempt) {
          return attempt;
        }
        attempt := attempt + 1;
      }
    }
  }

  function WithSettlement(
    settled: seq<(nat, Settlement)>, tag: nat, outcome: Settlement, env: Surroundings
  ): seq<(nat, Settlement)>
  {
    if env.channelOpen then settled + [(tag, outcome)] else settled
  }
}
