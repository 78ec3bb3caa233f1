/**
 * Publishing with confirms: every message is mandatory, and a basic.return is matched to its
 * publication by a publication id before the publication's confirm arrives.
 */
module ConfirmedPublisher {
  import opened Contracts

  type PublicationId = nat

  datatype ReturnFields = ReturnFields(replyCode: nat, replyText: string, exchange: string, routingKey: string)

  datatype Outcome = Resolved | RejectedByBroker | Unroutable(fields: ReturnFields) | NotSent

  datatype Publisher = Publisher(
    pending: map<PublicationId, Option<ReturnFields>>,
    settled: map<PublicationId, Outcome>)                // history: how each promise settled

  /** What happens on the channel, in the order of its frames and calls. */
  datatype Action =
    | Publish(id: PublicationId)
    | PublishThrows(id: PublicationId)
    | Return(header: Option<PublicationId>, fields: ReturnFields)
    | Confirm(id: PublicationId, failed: bool)

  function SettledAs(returned: Option<ReturnFields>, failed: bool): Outcome {
    if failed then RejectedByBroker
    else match returned case Some(fields) => Unroutable(fields) case None => Resolved
  }

  function Step(publisher: Publisher, action: Action): Publisher {
    match action
    case Publish(id) => publisher.(pending := publisher.pending[id := None])
    case PublishThrows(id) =>
      Publisher(publisher.pending - {id}, publisher.settled[id := NotSent])
    case Return(header, fields) =>
      if header.Some? && header.value in publisher.pending
      then publisher.(pending := publisher.pending[header.value := Some(fields)]) else publisher
    case Confirm(id, failed) =>
      var returned := if id in publisher.pending then publisher.pending[id] else None;
      Publisher(publisher.pending - {id}, publisher.settled[id := SettledAs(returned, failed)])
  }

  function After(trace: seq<Action>): Publisher {
    if trace == [] then Publisher(map[], map[])
    else Step(After(trace[..|trace| - 1]), trace[|trace| - 1])
  }

  // What a trace says about a publication, without running the publisher --------------------

  predicate IsAbout(action: Action, id: PublicationId) {
    match action
    case Publish(other) => other == id
    case PublishThrows(other) => other == id
    case Return(header, _) => header == Some(id)
    case Confirm(other, _) => other == id
  }

  predicate Sent(trace: seq<Action>, id: PublicationId) {
    Publish(id) in trace
  }

  predicate Threw(trace: seq<Action>, id: PublicationId) {
    PublishThrows(id) in trace
  }

  predicate Acked(trace: seq<Action>, id: PublicationId) {
    Confirm(id, false) in trace
  }

  predicate Nacked(trace: seq<Action>, id: PublicationId) {
    Confirm(id, true) in trace
  }

  predicate Returned(trace: seq<Action>, id: PublicationId) {
    exists i :: 0 <= i < |trace| && trace[i].Return? && trace[i].header == Some(id)
  }

  /**
   * What the broker protocol and the id generator promise of the next action: publication ids
   * are new, a publication is confirmed at most once, and a return precedes its own confirm.
   */
  predicate Promised(trace: seq<Action>, action: Action) {
    match action
    case Publish(id) => forall i :: 0 <= i < |trace| ==> !IsAbout(trace[i], id)
    case PublishThrows(id) => forall i :: 0 <= i < |trace| ==> !IsAbout(trace[i], id)
    case Return(header, _) =>
      header.Some? && Sent(trace, header.value) ==> !Acked(trace, header.value) && !Nacked(trace, header.value)
    case Confirm(id, _) => Sent(trace, id) && !Acked(trace, id) && !Nacked(trace, id)
  }

  predicate WellFormed(trace: seq<Action>) {
    trace == [] || (WellFormed(trace[..|trace| - 1]) && Promised(trace[..|trace| - 1], trace[|trace| - 1]))
  }

  lemma OneMore(trace: seq<Action>, id: PublicationId)
    requires trace != []
    ensures var init, last := trace[..|trace| - 1], trace[|trace| - 1];
            && (Sent(trace, id) <==> Sent(init, id) || last == Publish(id))
            && (Threw(trace, id) <==> Threw(init, id) || last == PublishThrows(id))
            && (Acked(trace, id) <==> Acked(init, id) || last == Confirm(id, false))
            && (Nacked(trace, id) <==> Nacked(init, id) || last == Confirm(id, true))
            && (Returned(trace, id) <==> Returned(init, id) || (last.Return? && last.header == Some(id)))
  {
    var init, last := trace[..|trace| - 1], trace[|trace| - 1];
    assert trace == init + [last];
    if Returned(init, id) {
      var i :| 0 <= i < |init| && init[i].Return? && init[i].header == Some(id);
      assert trace[i] == init[i];
    }
  }

  /** A publication id no action was about has left no trace. */
  lemma Untold(trace: seq<Action>, id: PublicationId)
    requires forall i :: 0 <= i < |trace| ==> !IsAbout(trace[i], id)
    ensures !Sent(trace, id) && !Threw(trace, id) && !Acked(trace, id) && !Nacked(trace, id) && !Returned(trace, id)
  {
  }

  /**
   * Each publication settles exactly when it was confirmed or could not be sent: resolved when
   * it was acked and never returned, unroutable when acked and returned, rejected when nacked.
   */
  lemma {:induction false} PublicationsSettleAsTold(trace: seq<Action>, id: PublicationId)
    requires WellFormed(trace)
    ensures var publisher := After(trace);
            && (id in publisher.pending <==> Sent(trace, id) && !Acked(trace, id) && !Nacked(trace, id))
            && (id in publisher.pending ==> (publisher.pending[id].Some? <==> Returned(trace, id)))
            && (id in publisher.settled <==> Acked(trace, id) || Nacked(trace, id) || Threw(trace, id))
            && (id in publisher.settled ==>
                  && (publisher.settled[id].Resolved? <==> Acked(trace, id) && !Returned(trace, id))
                  && (publisher.settled[id].Unroutable? <==> Acked(trace, id) && Returned(trace, id))
                  && (publisher.settled[id].RejectedByBroker? <==> Nacked(trace, id))
                  && (publisher.settled[id].NotSent? <==> Threw(trace, id)))
            && !(Acked(trace, id) && Nacked(trace, id))
            && !(Threw(trace, id) && Sent(trace, id))
            && (Acked(trace, id) || Nacked(trace, id) ==> Sent(trace, id))
  {
    if trace != [] {
      var init, last := trace[..|trace| - 1], trace[|trace| - 1];
      PublicationsSettleAsTold(init, id);
      OneMore(trace, id);
      if (last.Publish? || last.PublishThrows?) && last.id == id {
        Untold(init, id);
      }
    }
  }

  /** What the last return about the publication said, if there was one. */
  function LastReturn(trace: seq<Action>, id: PublicationId): Option<ReturnFields> {
    if trace == [] then None else
    var last := trace[|trace| - 1];
    if last.Return? && last.header == Some(id) then Some(last.fields) else LastReturn(trace[..|trace| - 1], id)
  }

  /** An unroutable publication is reported with the code, text, exchange and key of its own return. */
  lemma {:induction false} UnroutableTellsItsReturn(trace: seq<Action>, id: PublicationId)
    requires WellFormed(trace)
    ensures id in After(trace).pending ==> After(trace).pending[id] == LastReturn(trace, id)
    ensures id in After(trace).settled && After(trace).settled[id].Unroutable? ==>
              LastReturn(trace, id) == Some(After(trace).settled[id].fields)
  {
    if trace != [] {
      var init, last := trace[..|trace| - 1], trace[|trace| - 1];
      UnroutableTellsItsReturn(init, id);
      PublicationsSettleAsTold(init, id);
      if last.Publish? && last.id == id {
        NoReturnAbout(init, id);
      }
    }
  }

  lemma {:induction false} NoReturnAbout(trace: seq<Action>, id: PublicationId)
    requires forall i :: 0 <= i < |trace| ==> !IsAbout(trace[i], id)
    ensures LastReturn(trace, id).None?
  {
    if trace != [] {
      assert !IsAbout(trace[|trace| - 1], id);
      NoReturnAbout(trace[..|trace| - 1], id);
    }
  }

  /** A settled promise never settles again, whatever follows. */
  lemma {:induction false} SettledOnce(trace: seq<Action>, more: seq<Action>, id: PublicationId)
    requires WellFormed(trace + more) && id in After(trace).settled
    ensures WellFormed(trace)
    ensures id in After(trace + more).settled && After(trace + more).settled[id] == After(trace).settled[id]
  {
    if more == [] {
      assert trace + more == trace;
    } else {
      var init, last := trace + more[..|more| - 1], more[|more| - 1];
      assert (trace + more)[..|trace + more| - 1] == init;
      SettledOnce(trace, more[..|more| - 1], id);
      PublicationsSettleAsTold(init, id);
      if (last.Publish? || last.PublishThrows?) && last.id == id {
        Untold(init, id);
      }
    }
  }

  /** The actions about one publication. */
  function About(trace: seq<Action>, id: PublicationId): seq<Action> {
    if trace == [] then [] else
    var init, last := About(trace[..|trace| - 1], id), trace[|trace| - 1];
    if IsAbout(last, id) then init + [last] else init
  }

  /** No publication is affected by what happens to any other one. */
  lemma {:induction false} PublicationsAreIndependent(trace: seq<Action>, id: PublicationId)
    ensures id in After(trace).pending <==> id in After(About(trace, id)).pending
    ensures id in After(trace).pending ==> After(trace).pending[id] == After(About(trace, id)).pending[id]
    ensures id in After(trace).settled <==> id in After(About(trace, id)).settled
    ensures id in After(trace).settled ==> After(trace).settled[id] == After(About(trace, id)).settled[id]
  {
    if trace != [] {
      var init, last := trace[..|trace| - 1], trace[|trace| - 1];
      PublicationsAreIndependent(init, id);
      if IsAbout(last, id) {
        var about := About(trace, id);
        assert about[..|about| - 1] == About(init, id);
      }
    }
  }

  /** The publications handed to the channel. */
  function SentIds(trace: seq<Action>): set<PublicationId> {
    set i | 0 <= i < |trace| && trace[i].Publish? :: trace[i].id
  }

  /** pendingCount counts the publications that were sent and have not settled. */
  lemma {:induction false} PendingCountsUnsettled(trace: seq<Action>)
    requires WellFormed(trace)
    ensures After(trace).pending.Keys == SentIds(trace) - After(trace).settled.Keys
    ensures |After(trace).pending| == |SentIds(trace) - After(trace).settled.Keys|
  {
    forall id
      ensures id in After(trace).pending <==> id in SentIds(trace) && id !in After(trace).settled
    {
      PublicationsSettleAsTold(trace, id);
      if Sent(trace, id) {
        var i :| 0 <= i < |trace| && trace[i] == Publish(id);
        assert trace[i].id == id;
      }
    }
    assert After(trace).pending.Keys == SentIds(trace) - After(trace).settled.Keys;
    assert |After(trace).pending| == |After(trace).pending.Keys|;
  }

  /** Without the promise that a return comes first an unroutable message would count as delivered. */
  lemma LateReturnIsMissed(id: PublicationId, fields: ReturnFields)
    ensures var trace := [Publish(id), Confirm(id, false), Return(Some(id), fields)];
            !WellFormed(trace) && After(trace).settled == map[id := Resolved]
  {
    var trace := [Publish(id), Confirm(id, false), Return(Some(id), fields)];
    var acked := trace[..2];
    assert acked == [Publish(id), Confirm(id, false)];
    assert acked[..1] == [Publish(id)] && acked[..1][..0] == [];
    assert Sent(acked, id) by { assert acked[0] == Publish(id); }
    assert Acked(acked, id) by { assert acked[1] == Confirm(id, false); }
    assert After(acked[..1]) == Step(After([]), Publish(id));
    assert After(acked) == Step(After(acked[..1]), Confirm(id, false));
    assert After(trace) == Step(After(acked), trace[2]);
  }

  class Publications {
    var pending: map<PublicationId, Option<ReturnFields>>
    ghost var settled: map<PublicationId, Outcome>
    ghost var trace: seq<Action>

    ghost function View(): Publisher
      reads this
    {
      Publisher(pending, settled)
    }

    ghost predicate Valid()
      reads this
    {
      View() == After(trace)
    }

    constructor ()
      ensures Valid() && trace == []
    {
      pending, settled, trace := map[], map[], [];
    }

    /** How many publications were sent and have not settled yet. */
    function PendingCount(): (count: nat)
      requires Valid() && WellFormed(trace)
      reads this
      ensures count == |SentIds(trace) - settled.Keys|
    {
      PendingCountsUnsettled(trace);
      |pending|
    }

    /** Registers the publication; a throwing channel rejects it at once. */
    method Publish(id: PublicationId, throws: bool) returns (rejected: bool)
      requires Valid()
      modifies this
      ensures Valid() && trace == old(trace) + [if throws then PublishThrows(id) else Action.Publish(id)]
      ensures rejected == throws
      ensures if throws then id !in pending && id in settled && settled[id].NotSent?
              else pending == old(pending)[id := None] && settled == old(settled)
    {
      Told(if throws then PublishThrows(id) else Action.Publish(id));
      pending := pending[id := None];
      if throws {
        pending := pending - {id};
        settled := settled[id := NotSent];
      }
      rejected := throws;
    }

    /** The next action of the trace is the next step of the publisher. */
    ghost method Told(action: Action)
      requires Valid()
      modifies this`trace
      ensures trace == old(trace) + [action] && After(trace) == Step(View(), action)
    {
      assert (trace + [action])[..|trace|] == trace;
      trace := trace + [action];
    }

    /** The return listener: ignores messages it did not publish. */
    method OnReturn(header: Option<PublicationId>, fields: ReturnFields)
      requires Valid()
      modifies this
      ensures Valid() && trace == old(trace) + [Return(header, fields)]
      ensures settled == old(settled) && pending.Keys == old(pending).Keys
      ensures forall id :: id in pending ==> pending[id] == if header == Some(id) then Some(fields) else old(pending)[id]
    {
      Told(Return(header, fields));
      if header.Some? && header.value in pending {
        pending := pending[header.value := Some(fields)];
      }
    }

    /** The confirm callback. */
    method Settle(id: PublicationId, failed: bool) returns (outcome: Outcome)
      requires Valid()
      modifies this
      ensures Valid() && trace == old(trace) + [Confirm(id, failed)]
      ensures id in settled && outcome == settled[id]
      ensures failed ==> outcome.RejectedByBroker?
      ensures !failed && id in old(pending) ==>
                outcome == match old(pending)[id] case None => Resolved case Some(fields) => Unroutable(fields)
      ensures id !in pending && forall other :: other in old(pending) && other != id ==>
                                                  other in pending && pending[other] == old(pending)[other]
    {
      Told(Confirm(id, failed));
      var returned := if id in pending then pending[id] else None;
      pending := pending - {id};
      outcome := SettledAs(returned, failed);
      settled := settled[id := outcome];
    }
  }
}
