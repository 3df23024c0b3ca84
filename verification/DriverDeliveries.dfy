/**
 What leaves the list for good, told from the labels of a run: each record handed to a client was
 copied by one step of a drain, and since when its session lasts is the client's own connect.
 */
module DriverDeliveries {
  import opened Common
  import opened Driver
  import opened DriverLog
  import opened DriverSessions
  import opened DriverRuns
  import opened DriverEvents
  import opened DriverCauses

  /** The connect of the client that is or was the last. */
  function LastConnect(steps: seq<Step>, n: nat): (r: Option<nat>)
    requires n <= |steps|
    ensures r.Some? ==> r.value < n && steps[r.value].Connect?
  {
    if n == 0 then None else if steps[n - 1].Connect? then Some(n - 1) else LastConnect(steps, n - 1)
  }

  /** How much had been appended by then. */
  function LogAtConnect(run: seq<State>, steps: seq<Step>, n: nat): nat
    requires n <= |steps| < |run|
  {
    match LastConnect(steps, n)
    case None => 0
    case Some(k) => |run[k].log|
  }

  lemma ThreadsPublishNothing(s: State, step: Step)
    requires Enabled(s, step) && !OnControl(step)
    ensures Apply(s, step).published == s.published
  {
    hide OnControl;
    if InAllocation(step) {
    } else if WithEntry(step) {
    } else {
      assert InSweep(step) by { ByClass(step); }
    }
  }

  lemma ByClass(step: Step)
    requires !OnControl(step)
    ensures InAllocation(step) || WithEntry(step) || InSweep(step)
  {
  }

  lemma ConnectPublishes(s: State, step: Step)
    requires Enabled(s, step) && OnControl(step)
    ensures Apply(s, step).published == if step.Connect? then |s.log| else s.published
  {
  }

  /** The port is published with everything appended before the connect behind it. */
  lemma {:induction false} PublishedAtConnect(run: seq<State>, steps: seq<Step>, i: nat)
    requires IsHistory(run, steps) && i < |run|
    ensures run[i].published == LogAtConnect(run, steps, i)
  {
    hide Enabled, Apply;
    if i > 0 {
      PublishedAtConnect(run, steps, i - 1);
      if OnControl(steps[i - 1]) {
        ConnectPublishes(run[i - 1], steps[i - 1]);
      } else {
        ThreadsPublishNothing(run[i - 1], steps[i - 1]);
      }
    }
  }

  /** What a step takes for good: a copy hands a record over unless it faults or the buffer is too small for it, a
      clearing gives one back. */
  function Takes(s: State, step: Step, since: nat): seq<Removed> {
    match step
    case DrainCopy(fault) =>
      if s.control.DrainHolding? && !fault && 2920 <= s.control.size - s.control.written
      then [Delivered(s.control.rec, since)] else []
    case ClearDecrement => if s.control.ClearHolding? then [Cleared(s.control.rec)] else []
    case SweepDecrement(t) => if t in s.pc && s.pc[t].SweepHolding? then [Cleared(s.pc[t].rec)] else []
    case _ => []
  }

  function Taken(run: seq<State>, steps: seq<Step>, n: nat): seq<Removed>
    requires n <= |steps| < |run|
  {
    if n == 0 then []
    else Taken(run, steps, n - 1) + Takes(run[n - 1], steps[n - 1], LogAtConnect(run, steps, n - 1))
  }

  lemma AllocationTakesNothing(s: State, step: Step)
    requires Enabled(s, step) && InAllocation(step)
    ensures Apply(s, step).removed == s.removed
  {
  }

  lemma EntryTakesNothing(s: State, step: Step)
    requires Enabled(s, step) && WithEntry(step)
    ensures Apply(s, step).removed == s.removed
  {
  }

  lemma SweepTakes(s: State, step: Step)
    requires Enabled(s, step) && InSweep(step)
    ensures Apply(s, step).removed == s.removed + Takes(s, step, s.published)
  {
  }

  lemma ControlTakes(s: State, step: Step)
    requires Enabled(s, step) && OnControl(step)
    ensures Apply(s, step).removed == s.removed + Takes(s, step, s.published)
  {
  }

  lemma StepTakes(s: State, step: Step)
    requires Enabled(s, step)
    ensures Apply(s, step).removed == s.removed + Takes(s, step, s.published)
  {
    hide Enabled, Apply;
    if OnControl(step) {
      ControlTakes(s, step);
    } else if InAllocation(step) {
      AllocationTakesNothing(s, step);
    } else if WithEntry(step) {
      EntryTakesNothing(s, step);
    } else {
      SweepTakes(s, step);
    }
  }

  /** What was removed so far is what the steps have taken, in order, each delivery with its client's connect. */
  lemma {:induction false} RemovedAreTaken(run: seq<State>, steps: seq<Step>, i: nat)
    requires IsHistory(run, steps) && i < |run|
    ensures run[i].removed == Taken(run, steps, i)
  {
    hide Enabled, Apply, Takes, LogAtConnect;
    if i > 0 {
      RemovedAreTaken(run, steps, i - 1);
      PublishedAtConnect(run, steps, i - 1);
      StepTakes(run[i - 1], steps[i - 1]);
    }
  }

  lemma InitSession(s: State)
    requires Init(s)
    ensures !PortOpen(s.control) && !s.control.DrainHolding?
  {
  }

  /** Only a connect opens a port. */
  lemma {:induction false} OpenMeansConnected(run: seq<State>, steps: seq<Step>, i: nat)
    requires IsHistory(run, steps) && i < |run| && PortOpen(run[i].control)
    ensures LastConnect(steps, i).Some?
  {
    hide Enabled, Apply, PortOpen;
    if i == 0 {
      InitSession(run[0]);
    } else if !steps[i - 1].Connect? {
      OpensByConnect(run[i - 1], steps[i - 1]);
      OpenMeansConnected(run, steps, i - 1);
    }
  }

  lemma OpensByConnect(s: State, step: Step)
    requires Enabled(s, step) && !step.Connect? && PortOpen(Apply(s, step).control)
    ensures PortOpen(s.control)
  {
    if OnControl(step) {
    } else if step.Disconnect? {
    } else {
      ThreadsLeaveSession(s, step);
      hide Apply, Enabled;
    }
  }

  /** Whatever a client is handed was appended after that client's connect. */
  lemma HandedInSession(run: seq<State>, steps: seq<Step>, j: nat, rec: Stamp)
    requires IsHistory(run, steps) && j < |steps|
    requires exists since: nat :: Takes(run[j], steps[j], since) == [Delivered(rec, since)]
    ensures LastConnect(steps, j).Some? && |run[LastConnect(steps, j).value].log| <= rec.position < |run[j].log|
    ensures run[j].log[rec.position] == rec
  {
    PublishedAtConnect(run, steps, j);
    assert run[j].control.DrainHolding? && run[j].control.rec == rec;
    assert PortOpen(run[j].control);
    OpenMeansConnected(run, steps, j);
    HistoryIsReachable(run, steps, j);
    hide IsHistory, Takes, Enabled, Apply, Reachable;
    HoldsGenuine(run[j]);
  }

  lemma HoldsGenuine(s: State)
    requires Reachable(s) && s.control.DrainHolding?
    ensures s.published <= s.control.rec.position && Genuine(s.log, s.control.rec)
  {
    ReachableInv(s);
    hide Reachable;
  }
}
