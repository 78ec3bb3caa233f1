/**
 * The loop of the outbox relay, cut at its awaits: between two awaits it runs alone, at an
 * await any notification, abort or timer can come in.
 */
module RelayLoop {
  import opened Contracts

  datatype Phase =
    | NotStarted
    | InBatch                               // awaiting processBatch
    | BatchSettled(claimed: Option<nat>)    // it settled (None: threw); the loop resumes next
    | BackoffWait                           // sleeping after a failed cycle
    | PollWait                              // sleeping until the next poll or a notification
    | Resuming                              // the sleep is over; the loop resumes next
    | Stopped

  datatype Loop = Loop(
    batchSize: nat,
    phase: Phase,
    notified: bool,
    wakeUp: bool,                  // wakeUp is set
    running: bool,
    consecutiveFailures: nat,
    aborted: bool,                 // the signal
    // History:
    pending: bool,                 // a notification came in since the last claim began
    begun: nat,                    // batches begun
    ended: nat)                    // batches settled

  datatype Action =
    | Run                          // run() is called
    | Notify
    | Abort
    | SettleBatch(claimed: Option<nat>)
    | ContinueAfterBatch
    | Timeout                      // the timer of the wait fires
    | Resume

  predicate Waiting(loop: Loop) {
    loop.phase.BackoffWait? || loop.phase.PollWait?
  }

  predicate Enabled(loop: Loop, action: Action) {
    match action
    case Run => loop.phase.NotStarted?
    case Notify => true
    case Abort => true
    case SettleBatch(_) => loop.phase.InBatch?
    case ContinueAfterBatch => loop.phase.BatchSettled?
    case Timeout => Waiting(loop)
    case Resume => loop.phase.Resuming?
  }

  /** The head of the loop: stop if aborted, otherwise forget notifications and claim. */
  function LoopHead(loop: Loop): Loop {
    if loop.aborted then loop.(phase := Stopped, running := false)
    else loop.(phase := InBatch, notified := false, pending := false, begun := loop.begun + 1)
  }

  /** waitForWork: returns at once if there is nothing to wait for. */
  function WaitForWork(loop: Loop, wakeOnNotify: bool): Loop {
    if loop.aborted || (wakeOnNotify && loop.notified) then loop.(phase := Resuming)
    else if wakeOnNotify then loop.(phase := PollWait, wakeUp := true)
    else loop.(phase := BackoffWait)
  }

  /** The finish callback of a wait. */
  function Finish(loop: Loop): Loop {
    loop.(phase := Resuming, wakeUp := false)
  }

  function Apply(loop: Loop, action: Action): Loop
    requires Enabled(loop, action)
  {
    match action
    case Run => LoopHead(loop.(running := true))
    case Notify =>
      var noted := loop.(notified := true, pending := true);
      if noted.wakeUp then Finish(noted) else noted
    case Abort =>
      var noted := loop.(aborted := true);
      if Waiting(noted) then Finish(noted) else noted
    case SettleBatch(claimed) => loop.(phase := BatchSettled(claimed), ended := loop.ended + 1)
    case ContinueAfterBatch =>
      (match loop.phase.claimed
       case None => WaitForWork(loop.(consecutiveFailures := loop.consecutiveFailures + 1), false)
       case Some(count) =>
         var succeeded := loop.(consecutiveFailures := 0);
         if count < loop.batchSize then WaitForWork(succeeded, true) else LoopHead(succeeded))
    case Timeout => Finish(loop)
    case Resume => LoopHead(loop)
  }

  function Initial(batchSize: nat): Loop {
    Loop(batchSize, NotStarted, false, false, false, 0, false, false, 0, 0)
  }

  predicate Inv(loop: Loop) {
    && loop.notified == loop.pending
    && (loop.wakeUp <==> loop.phase.PollWait?)
    && (loop.phase.PollWait? ==> !loop.pending)
    && (Waiting(loop) ==> !loop.aborted)
    && (loop.running <==> !loop.phase.NotStarted? && !loop.phase.Stopped?)
    && loop.begun == loop.ended + (if loop.phase.InBatch? then 1 else 0)
  }

  ghost predicate ValidRun(loop: Loop, run: seq<Action>)
    decreases |run|
  {
    run == [] || (Enabled(loop, run[0]) && ValidRun(Apply(loop, run[0]), run[1..]))
  }

  ghost function After(loop: Loop, run: seq<Action>): Loop
    requires ValidRun(loop, run)
    decreases |run|
  {
    if run == [] then loop else After(Apply(loop, run[0]), run[1..])
  }

  lemma {:induction false} RunKeepsInv(loop: Loop, run: seq<Action>)
    requires Inv(loop) && ValidRun(loop, run)
    ensures Inv(After(loop, run))
    decreases |run|
  {
    if run != [] {
      RunKeepsInv(Apply(loop, run[0]), run[1..]);
    }
  }

  /**
   * In every interleaving the relay never sleeps on a poll timer with an unseen notification,
   * can be woken exactly while it does sleep there, never sleeps once aborted, and a batch
   * that was begun is settled before the loop stops.
   */
  lemma NoLostWakeUp(batchSize: nat, run: seq<Action>)
    requires ValidRun(Initial(batchSize), run)
    ensures var loop := After(Initial(batchSize), run);
            && (loop.phase.PollWait? ==> !loop.pending)
            && (loop.wakeUp <==> loop.phase.PollWait?)
            && (Waiting(loop) ==> !loop.aborted)
            && (loop.phase.Stopped? ==> loop.begun == loop.ended && !loop.running)
  {
    RunKeepsInv(Initial(batchSize), run);
  }

  lemma {:induction false} PendingUntilBegun(loop: Loop, run: seq<Action>)
    requires ValidRun(loop, run)
    ensures After(loop, run).begun >= loop.begun
    ensures loop.pending && After(loop, run).begun == loop.begun ==> After(loop, run).pending
    decreases |run|
  {
    if run != [] {
      PendingUntilBegun(Apply(loop, run[0]), run[1..]);
    }
  }

  lemma {:induction false} RunsCompose(loop: Loop, first: seq<Action>, second: seq<Action>)
    requires ValidRun(loop, first + second)
    ensures ValidRun(loop, first) && ValidRun(After(loop, first), second)
    ensures After(loop, first + second) == After(After(loop, first), second)
    decreases |first|
  {
    if first == [] {
      assert first + second == second;
    } else {
      assert (first + second)[1..] == first[1..] + second;
      RunsCompose(Apply(loop, first[0]), first[1..], second);
    }
  }

  /** Wherever a notification comes in, a later poll sleep means that a later batch was begun. */
  lemma NotificationBeginsBatch(batchSize: nat, before: seq<Action>, later: seq<Action>)
    requires ValidRun(Initial(batchSize), before + [Notify] + later)
    requires After(Initial(batchSize), before + [Notify] + later).phase.PollWait?
    ensures ValidRun(Initial(batchSize), before + [Notify])
    ensures After(Initial(batchSize), before + [Notify] + later).begun > After(Initial(batchSize), before + [Notify]).begun
  {
    var start := Initial(batchSize);
    RunsCompose(start, before + [Notify], later);
    RunsCompose(start, before, [Notify]);
    var noted := After(start, before + [Notify]);
    assert noted == After(After(start, before), [Notify]) && noted.pending;
    PendingUntilBegun(noted, later);
    NoLostWakeUp(batchSize, before + [Notify] + later);
  }

  // ---------------------------------------------------------------------------------------
  // The way the loop takes after a batch
  // ---------------------------------------------------------------------------------------

  /** How the last settled batch ended, read off the run: None if it threw. */
  function LastSettled(run: seq<Action>): Option<Option<nat>> {
    if run == [] then None else
    var last := run[|run| - 1];
    if last.SettleBatch? then Some(last.claimed) else LastSettled(run[..|run| - 1])
  }

  /** How many batches threw since the last one that did not. */
  function FailuresInARow(run: seq<Action>): nat {
    if run == [] then 0 else
    var earlier, last := FailuresInARow(run[..|run| - 1]), run[|run| - 1];
    if !last.SettleBatch? then earlier else if last.claimed.None? then earlier + 1 else 0
  }

  /** The phase and the counter go with the history of the run so far. */
  predicate FollowsHistory(loop: Loop, last: Option<Option<nat>>, failures: nat) {
    && (loop.phase.BatchSettled? ==> last == Some(loop.phase.claimed))
    && (loop.phase.BackoffWait? ==> last == Some(None))
    && (loop.phase.PollWait? ==> last.Some? && last.value.Some? && last.value.value < loop.batchSize)
    && (loop.phase.Stopped? ==> loop.aborted)
    && (loop.phase.NotStarted? ==> last.None?)
    && failures == (if loop.phase == BatchSettled(None) then loop.consecutiveFailures + 1
                    else if loop.phase.BatchSettled? then 0 else loop.consecutiveFailures)
  }

  lemma {:induction false} StepFollowsHistory(loop: Loop, run: seq<Action>, action: Action)
    requires Inv(loop) && Enabled(loop, action) && FollowsHistory(loop, LastSettled(run), FailuresInARow(run))
    ensures FollowsHistory(Apply(loop, action), LastSettled(run + [action]), FailuresInARow(run + [action]))
  {
    assert (run + [action])[..|run|] == run;
  }

  lemma {:induction false} RunFollowsHistory(loop: Loop, before: seq<Action>, run: seq<Action>)
    requires Inv(loop) && ValidRun(loop, run) && FollowsHistory(loop, LastSettled(before), FailuresInARow(before))
    ensures FollowsHistory(After(loop, run), LastSettled(before + run), FailuresInARow(before + run))
    ensures After(loop, run).batchSize == loop.batchSize
    decreases |run|
  {
    if run == [] {
      assert before + run == before;
    } else {
      StepFollowsHistory(loop, before, run[0]);
      RunFollowsHistory(Apply(loop, run[0]), before + [run[0]], run[1..]);
      assert before + run == before + [run[0]] + run[1..];
    }
  }

  /**
   * In every interleaving the loop polls only after a batch that was not full, backs off only
   * after one that threw, and stops only when it is told to; between batches `consecutiveFailures`
   * is the number of batches that threw since the last one that did not.
   */
  lemma {:induction false} WaitsFollowBatches(batchSize: nat, run: seq<Action>)
    requires ValidRun(Initial(batchSize), run)
    ensures var loop, last := After(Initial(batchSize), run), LastSettled(run);
            && (loop.phase.PollWait? ==> last.Some? && last.value.Some? && last.value.value < batchSize)
            && (loop.phase.BackoffWait? ==> last == Some(None))
            && (loop.phase.BatchSettled? ==> last == Some(loop.phase.claimed))
            && (loop.phase.Stopped? ==> loop.aborted)
            && (!loop.phase.BatchSettled? ==> loop.consecutiveFailures == FailuresInARow(run))
  {
    assert [] + run == run;
    RunFollowsHistory(Initial(batchSize), [], run);
  }

  /**
   * The other way round: after a full batch the next one begins without a wait, after one that
   * was not full the loop polls unless a notification is pending, and after one that threw it
   * backs off, whether notified or not. An abort ends all of this.
   */
  lemma {:induction false} BatchDecidesWay(batchSize: nat, run: seq<Action>)
    requires ValidRun(Initial(batchSize), run) && After(Initial(batchSize), run).phase.BatchSettled?
    ensures var loop := After(Initial(batchSize), run);
            var next := Apply(loop, ContinueAfterBatch);
            && LastSettled(run) == Some(loop.phase.claimed)
            && (match loop.phase.claimed
                case Some(count) =>
                  if count >= batchSize then
                    if loop.aborted then next.phase.Stopped? else next.phase.InBatch? && next.begun == loop.begun + 1
                  else if loop.aborted || loop.pending then next.phase.Resuming? else next.phase.PollWait?
                case None => if loop.aborted then next.phase.Resuming? else next.phase.BackoffWait?)
            && next.consecutiveFailures == FailuresInARow(run)
  {
    assert [] + run == run;
    RunFollowsHistory(Initial(batchSize), [], run);
    RunKeepsInv(Initial(batchSize), run);
  }

  /** A poll wait ends by its timer, an abort or a notification, a backoff only by the first two; then the loop goes on. */
  lemma WaitEndsIff(loop: Loop, action: Action)
    requires Inv(loop) && Waiting(loop) && Enabled(loop, action)
    ensures var next := Apply(loop, action);
            && (next.phase.Resuming? <==> action.Timeout? || action.Abort? || (action.Notify? && loop.phase.PollWait?))
            && (!next.phase.Resuming? ==> next.phase == loop.phase)
            && (next.phase.Resuming? ==>
                  Apply(next, Resume).phase == if next.aborted then Stopped else InBatch)
  {
  }

  /** The relay's fields, changed in place by the pieces of run(), notify() and waitForWork(). */
  class OutboxRelayLoop {
    const batchSize: nat
    var phase: Phase
    var notified: bool
    var wakeUp: bool
    var running: bool
    var consecutiveFailures: nat
    var aborted: bool
    ghost var pending: bool
    ghost var begun: nat
    ghost var ended: nat

    ghost function View(): Loop
      reads this
    {
      Loop(batchSize, phase, notified, wakeUp, running, consecutiveFailures, aborted, pending, begun, ended)
    }

    constructor (batchSize: nat)
      ensures View() == Initial(batchSize)
    {
      this.batchSize := batchSize;
      phase, notified, wakeUp, running, consecutiveFailures, aborted := NotStarted, false, false, false, 0, false;
      pending, begun, ended := false, 0, 0;
    }

    method Notify()
      modifies this
      ensures View() == Apply(old(View()), Action.Notify)
    {
      notified, pending := true, true;
      if wakeUp {
        FinishWait();
      }
    }

    method RequestAbort()
      modifies this
      ensures View() == Apply(old(View()), Abort)
    {
      aborted := true;
      if phase.BackoffWait? || phase.PollWait? {
        FinishWait();
      }
    }

    method Start()
      requires Enabled(View(), Run)
      modifies this
      ensures View() == Apply(old(View()), Run)
    {
      running := true;
      BeginCycle();
    }

    method BatchSettles(claimed: Option<nat>)
      requires Enabled(View(), SettleBatch(claimed))
      modifies this
      ensures View() == Apply(old(View()), SettleBatch(claimed))
    {
      phase, ended := BatchSettled(claimed), ended + 1;
    }

    method Continue()
      requires Enabled(View(), ContinueAfterBatch)
      modifies this
      ensures View() == Apply(old(View()), ContinueAfterBatch)
      ensures match old(phase).claimed
              case None =>
                consecutiveFailures == old(consecutiveFailures) + 1 && phase == if aborted then Resuming else BackoffWait
              case Some(count) =>
                && consecutiveFailures == 0
                && (count >= batchSize ==> phase == if aborted then Stopped else InBatch)
                && (count < batchSize ==> phase == if aborted || notified then Resuming else PollWait)
    {
      match phase.claimed {
        case None =>
          consecutiveFailures := consecutiveFailures + 1;
          Wait(false);
        case Some(count) =>
          consecutiveFailures := 0;
          if count < batchSize {
            Wait(true);
          } else {
            BeginCycle();
          }
      }
    }

    method TimerFires()
      requires Enabled(View(), Timeout)
      modifies this
      ensures View() == Apply(old(View()), Timeout)
    {
      FinishWait();
    }

    method WaitReturns()
      requires Enabled(View(), Resume)
      modifies this
      ensures View() == Apply(old(View()), Resume)
    {
      BeginCycle();
    }

    method BeginCycle()
      modifies this
      ensures View() == LoopHead(old(View()))
    {
      if aborted {
        phase, running := Stopped, false;
      } else {
        notified, pending := false, false;
        phase, begun := InBatch, begun + 1;
      }
    }

    method Wait(wakeOnNotify: bool)
      modifies this
      ensures View() == WaitForWork(old(View()), wakeOnNotify)
    {
      if aborted || (wakeOnNotify && notified) {
        phase := Resuming;
      } else if wakeOnNotify {
        phase, wakeUp := PollWait, true;
      } else {
        phase := BackoffWait;
      }
    }

    method FinishWait()
      modifies this
      ensures View() == Finish(old(View()))
    {
      phase, wakeUp := Resuming, false;
    }
  }
}
