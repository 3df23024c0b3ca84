/**
 Why the client's threads do what they do: what sets the stop flag, why the drainer leaves its
 loop, what it has fetched, and when it sleeps.
 */
module PipelineCauses {
  import opened Common
  import Q = Queue
  import opened Records
  import opened Pipeline
  import opened PipelineRuns

  // ----- The stop flag -----

  predicate SetsStop(step: Step) { step.RequestStop? || step.StoreStop? }

  lemma StepStops(s: State, step: Step)
    requires Enabled(s, step)
    ensures Apply(s, step).stop <==> s.stop || SetsStop(step)
  {
  }

  /** The flag is set if and only if somebody asked or the writer stored it after a failed write. */
  lemma {:induction false} StopHasCause(run: seq<State>, steps: seq<Step>, i: nat)
    requires IsRun(run, steps) && i < |run|
    ensures run[i].stop <==> exists j: nat :: j < i && SetsStop(steps[j])
  {
    hide Enabled, Apply, SetsStop;
    if i > 0 {
      StopHasCause(run, steps, i - 1);
      StepStops(run[i - 1], steps[i - 1]);
    }
  }

  // ----- Leaving the loop -----

  predicate IsLeaving(d: DrainerPc) { d.DrainerClosing? || d.DrainerDone? }

  /** The three ways out of DrainLoop: the flag is seen, a request fails, or Push refuses a batch. */
  predicate Leaves(s: State, step: Step) {
    || (step.CheckStop? && s.stop)
    || (step.Fetch? && step.reply.Failed?)
    || ((step.Push? || step.RetryPush?) && s.queue.closed)
  }

  lemma StepLeaves(s: State, step: Step)
    requires Inv(s) && Enabled(s, step)
    ensures IsLeaving(Apply(s, step).drainer) <==> IsLeaving(s.drainer) || Leaves(s, step)
    ensures IsLeaving(s.drainer) ==> !Leaves(s, step)
  {
    hide BatchInv, OutputInv, CountInv;
    if step.Push? || step.RetryPush? { PushLeaves(s, step); }
  }

  /** A closed queue has room to refuse. */
  lemma PushLeaves(s: State, step: Step)
    requires Inv(s) && Enabled(s, step) && (step.Push? || step.RetryPush?)
    ensures IsLeaving(Apply(s, step).drainer) <==> s.queue.closed
  {
  }

  /** The drainer has left its loop if and only if the flag was seen, a request failed or a batch was refused. */
  lemma {:induction false} LeavingHasCause(run: seq<State>, steps: seq<Step>, i: nat)
    requires IsRun(run, steps) && i < |run|
    ensures IsLeaving(run[i].drainer) <==> exists j: nat :: j < i && Leaves(run[j], steps[j])
  {
    hide Enabled, Apply, Leaves, Inv;
    if i > 0 {
      LeavingHasCause(run, steps, i - 1);
      RunKeepsInv(run, steps, i - 1);
      StepLeaves(run[i - 1], steps[i - 1]);
    }
  }

  /** Nobody has asked to stop, and no request and no write has failed. */
  ghost predicate Uninterrupted(steps: seq<Step>, n: nat)
    requires n <= |steps|
  {
    forall j: nat :: j < n ==>
      !steps[j].RequestStop? && !(steps[j].Fetch? && steps[j].reply.Failed?) && steps[j] != Write(false)
  }

  /** Both threads are in their loops and the queue is open. */
  predicate InLoops(s: State) {
    && !s.stop && !s.queue.closed && !IsLeaving(s.drainer)
    && !HasFailed(s.writer) && !s.writer.WriterDone?
  }

  lemma StepStaysInLoops(s: State, step: Step)
    requires Inv(s) && InLoops(s) && Enabled(s, step)
    requires !step.RequestStop? && !(step.Fetch? && step.reply.Failed?) && step != Write(false)
    ensures InLoops(Apply(s, step))
  {
    hide BatchInv, OutputInv, CountInv;
  }

  /** Uninterrupted, the capture goes on: an idle driver ends nothing. */
  lemma {:induction false} CaptureGoesOn(run: seq<State>, steps: seq<Step>, i: nat)
    requires IsRun(run, steps) && i < |run| && Uninterrupted(steps, i)
    ensures InLoops(run[i])
  {
    hide Enabled, Apply, Inv;
    if i > 0 {
      hide InLoops;
      CaptureGoesOn(run, steps, i - 1);
      RunKeepsInv(run, steps, i - 1);
      StepStaysInLoops(run[i - 1], steps[i - 1]);
    }
  }

  // ----- What is fetched -----

  /** The batches the replies so far have brought, but for empty ones. */
  function Replies(steps: seq<Step>, n: nat): seq<Batch>
    requires n <= |steps|
  {
    if n == 0 then [] else Replies(steps, n - 1) + Brought(steps[n - 1])
  }

  function Brought(step: Step): seq<Batch> {
    if step.Fetch? && step.reply.Fetched? && step.reply.records != [] then [step.reply.records] else []
  }

  lemma StepBrings(s: State, step: Step)
    requires Enabled(s, step)
    ensures Apply(s, step).fetched == s.fetched + Brought(step)
  {
  }

  /** Everything a reply brought is fetched, once and in order. */
  lemma {:induction false} FetchedIsReplied(run: seq<State>, steps: seq<Step>, i: nat)
    requires IsRun(run, steps) && i < |run|
    ensures run[i].fetched == Replies(steps, i)
  {
    hide Enabled, Apply, Brought;
    if i > 0 {
      FetchedIsReplied(run, steps, i - 1);
      StepBrings(run[i - 1], steps[i - 1]);
    }
  }

  // ----- Sleeping -----

  /** How many records the last successful request brought. */
  function LastReply(steps: seq<Step>, n: nat): Option<nat>
    requires n <= |steps|
  {
    if n == 0 then None
    else if steps[n - 1].Fetch? then
      if steps[n - 1].reply.Fetched? then Some(|steps[n - 1].reply.records|) else None
    else LastReply(steps, n - 1)
  }

  /** The drainer has slept since. */
  function Slept(steps: seq<Step>, n: nat): bool
    requires n <= |steps|
  {
    if n == 0 || steps[n - 1].Fetch? then false else steps[n - 1].WakeUp? || Slept(steps, n - 1)
  }

  /** Where the drainer stands fits the last reply and whether it has slept. */
  predicate Paced(s: State, last: Option<nat>, slept: bool) {
    && (last.Some? ==> last.value <= RECORD_COUNT)
    && match s.drainer
       case Checking => last.None? || (slept <==> last.value < RECORD_COUNT)
       case Polling => last.Some? && last.value < RECORD_COUNT && !slept
       case Counting(batch) => last == Some(|batch|) && !slept
       case Pushing(batch) => last == Some(|batch|) && !slept
       case PushWaiting => DRAINER in s.queue.pushers && last == Some(|s.queue.pushers[DRAINER].item|) && !slept
       case _ => true
  }

  function LastAfter(last: Option<nat>, step: Step): Option<nat> {
    if step.Fetch? then if step.reply.Fetched? then Some(|step.reply.records|) else None else last
  }

  function SleptAfter(slept: bool, step: Step): bool {
    !step.Fetch? && (step.WakeUp? || slept)
  }

  /** Waiting pushers keep their batch. */
  lemma PopKeepsItems(q: Q.State<Batch>, wake: Option<Tid>)
    requires DRAINER in q.pushers
    ensures var q' := Q.AfterPop(q, WRITER, wake);
            DRAINER in q'.pushers && q'.pushers[DRAINER].item == q.pushers[DRAINER].item
  {
  }

  lemma DrainerPaces(s: State, step: Step, last: Option<nat>, slept: bool)
    requires Inv(s) && Enabled(s, step) && Paced(s, last, slept)
    requires step.CheckStop? || step.Fetch? || step.CountCaptured? || step.Push? || step.RetryPush? || step.WakeUp?
             || step.CloseQueue?
    ensures Paced(Apply(s, step), LastAfter(last, step), SleptAfter(slept, step))
  {
    hide BatchInv, OutputInv, CountInv, Q.Inv;
  }

  lemma OthersPace(s: State, step: Step, last: Option<nat>, slept: bool)
    requires Inv(s) && Enabled(s, step) && Paced(s, last, slept)
    requires !(step.CheckStop? || step.Fetch? || step.CountCaptured? || step.Push? || step.RetryPush? || step.WakeUp?
             || step.CloseQueue?)
    ensures Paced(Apply(s, step), LastAfter(last, step), SleptAfter(slept, step))
  {
    hide BatchInv, OutputInv, CountInv, Q.Inv;
    if (step.Pop? || step.RetryPop?) && s.drainer.PushWaiting? { PopKeepsItems(s.queue, step.wake); }
  }

  lemma {:induction false} RunIsPaced(run: seq<State>, steps: seq<Step>, i: nat)
    requires IsRun(run, steps) && i < |run|
    ensures Paced(run[i], LastReply(steps, i), Slept(steps, i))
  {
    hide Enabled, Apply, Inv;
    if i > 0 {
      hide Paced;
      RunIsPaced(run, steps, i - 1);
      RunKeepsInv(run, steps, i - 1);
      var s, step, last, slept := run[i - 1], steps[i - 1], LastReply(steps, i - 1), Slept(steps, i - 1);
      if step.CheckStop? || step.Fetch? || step.CountCaptured? || step.Push? || step.RetryPush? || step.WakeUp?
         || step.CloseQueue? {
        DrainerPaces(s, step, last, slept);
      } else {
        OthersPace(s, step, last, slept);
      }
    }
  }

  /** Between a reply and the next look at the flag the drainer sleeps if and only if the reply was short. */
  lemma SleepsAfterShortReply(run: seq<State>, steps: seq<Step>, j: nat)
    requires IsRun(run, steps) && j < |steps| && steps[j].CheckStop? && LastReply(steps, j).Some?
    ensures Slept(steps, j) <==> LastReply(steps, j).value < RECORD_COUNT
  {
    RunIsPaced(run, steps, j);
    ChecksInChecking(run[j], steps[j]);
    hide IsRun, LastReply, Slept;
  }

  lemma ChecksInChecking(s: State, step: Step)
    requires Enabled(s, step) && step.CheckStop?
    ensures s.drainer.Checking?
  {
  }

  /** A drainer that has left its loop has seen the flag, or a request failed, or a batch was refused. */
  lemma LeavingNeedsReason(run: seq<State>, steps: seq<Step>, i: nat)
    requires IsRun(run, steps) && i < |run| && IsLeaving(run[i].drainer)
    ensures run[i].stop || run[i].drainer.refused != [] || exists j: nat :: j < i && steps[j] == Fetch(Failed)
  {
    LeavingHasCause(run, steps, i);
    var j: nat :| j < i && Leaves(run[j], steps[j]);
    if steps[j].Fetch? {
      assert steps[j] == Fetch(Failed);
    } else {
      LeftFor(run, steps, j);
      StopStays(run, steps, j + 1, i);
    }
  }

  lemma LeftFor(run: seq<State>, steps: seq<Step>, j: nat)
    requires IsRun(run, steps) && j < |steps| && Leaves(run[j], steps[j]) && !steps[j].Fetch?
    ensures run[j + 1].stop
  {
    RunKeepsInv(run, steps, j);
    ClosedIsStopped(run[j], steps[j]);
    hide IsRun, Inv;
  }

  /** While the drainer runs only the writer closes the queue, and it sets the flag first. */
  lemma ClosedIsStopped(s: State, step: Step)
    requires Inv(s) && Enabled(s, step) && Leaves(s, step) && !step.Fetch?
    ensures Apply(s, step).stop
  {
    hide BatchInv, OutputInv, CountInv;
  }

  lemma {:induction false} StopStays(run: seq<State>, steps: seq<Step>, i: nat, j: nat)
    requires IsRun(run, steps) && i <= j < |run| && run[i].stop
    ensures run[j].stop
  {
    if i < j {
      StopStays(run, steps, i, j - 1);
      hide Enabled, Apply;
      StepStops(run[j - 1], steps[j - 1]);
    }
  }

  /** Requests bring what they bring, writes succeed or fail, and anybody may ask to stop at any time. */
  lemma WorldIsFree(s: State, reply: Reply, ok: bool)
    ensures s.drainer.Fetching? && (reply.Fetched? ==> |reply.records| <= RECORD_COUNT) ==> Enabled(s, Fetch(reply))
    ensures s.writer.Writing? && s.writer.count < |s.writer.batch| ==> Enabled(s, Write(ok))
    ensures Enabled(s, RequestStop)
  {
  }
}
