/**
 What the steps of a run make of each entry: runs with their labels, and the state they lead to
 told from the labels alone.
 */
module DriverEvents {
  import opened Common
  import opened Driver
  import opened DriverOwnership
  import opened DriverRuns

  /** A run with the labels of its steps. */
  ghost predicate IsHistory(run: seq<State>, steps: seq<Step>) {
    && |run| == |steps| + 1 && Init(run[0])
    && (forall i :: 0 <= i < |steps| ==> Enabled(run[i], steps[i]) && run[i + 1] == Apply(run[i], steps[i]))
  }

  lemma {:induction false} HistoryIsReachable(run: seq<State>, steps: seq<Step>, i: nat)
    requires IsHistory(run, steps) && i < |run|
    ensures Reachable(run[i])
  {
    if i == 0 {
      assert IsRun([run[0]]);
    } else {
      HistoryIsReachable(run, steps, i - 1);
      hide Reachable, Apply, Enabled;
      ReachableStep(run[i - 1], steps[i - 1]);
    }
  }

  lemma Extend(run: seq<State>, steps: seq<Step>, step: Step)
    requires IsHistory(run, steps) && Enabled(run[|steps|], step)
    ensures IsHistory(run + [Apply(run[|steps|], step)], steps + [step])
  {
    hide Enabled, Apply, Init;
    var run', steps' := run + [Apply(run[|steps|], step)], steps + [step];
    forall i | 0 <= i < |steps'|
      ensures Enabled(run'[i], steps'[i]) && run'[i + 1] == Apply(run'[i], steps'[i])
    {
      if i < |steps| {
        assert run'[i] == run[i] && run'[i + 1] == run[i + 1] && steps'[i] == steps[i];
      }
    }
  }

  /** Every run has its labels, so what holds at the end of every history holds in every reachable state. */
  lemma {:induction false} HistoryOfRun(run: seq<State>) returns (steps: seq<Step>)
    requires IsRun(run)
    ensures IsHistory(run, steps)
  {
    if |run| == 1 {
      steps := [];
    } else {
      var n := |run| - 1;
      var front := run[..n];
      forall i | 0 < i < |front| ensures Next(front[i - 1], front[i]) {
        assert front[i - 1] == run[i - 1] && front[i] == run[i];
      }
      hide Init, Apply, Enabled;
      steps := HistoryOfRun(front);
      assert Next(run[n - 1], run[n]);
      var step :| Enabled(run[n - 1], step) && run[n] == Apply(run[n - 1], step);
      Extend(front, steps, step);
      assert run == front + [run[n]];
      steps := steps + [step];
    }
  }

  // ----- Fates -----

  /** The entries whose post callback came normally, or with the draining flag. */
  function Posted(steps: seq<Step>, n: nat, draining: bool): set<nat>
    requires n <= |steps|
  {
    if n == 0 then {}
    else
      var step := steps[n - 1];
      Posted(steps, n - 1, draining) + if step.Post? && step.draining == draining then {step.id} else {}
  }

  /** The entries filled in for an operation, which ask for a callback, or directly for their event. */
  function Filled(run: seq<State>, steps: seq<Step>, n: nat, asks: bool): set<nat>
    requires n <= |steps| < |run|
  {
    if n == 0 then {} else Filled(run, steps, n - 1, asks) + FilledBy(run[n - 1], steps[n - 1], asks)
  }

  function FilledBy(s: State, step: Step, asks: bool): set<nat> {
    if step.Fill? && step.t in s.pc && s.pc[step.t].Filling? && s.pc[step.t].origin.Operation? == asks
    then {s.pc[step.t].id} else {}
  }

  /** The entry is deleted or about to be. */
  ghost predicate GoesAway(s: State, id: nat) {
    id in s.discarded || exists t: Tid :: t in s.pc && s.pc[t] == Discarding(id)
  }

  ghost predicate IsLogged(s: State, id: nat) {
    exists p: nat :: p < |s.log| && s.log[p].id == id
  }

  /** The entry is appended or about to be. */
  ghost predicate GoesToLog(s: State, id: nat) {
    IsLogged(s, id) || exists t: Tid :: t in s.pc && s.pc[t] == Completing(id)
  }

  /** Some thread but t stands there. */
  ghost predicate Elsewhere(pc: map<Tid, Pc>, t: Tid, p: Pc) {
    exists o: Tid :: o != t && o in pc && pc[o] == p
  }

  lemma SplitAt(pc: map<Tid, Pc>, t: Tid, p: Pc)
    ensures (exists o: Tid :: o in pc && pc[o] == p) <==> (t in pc && pc[t] == p) || Elsewhere(pc, t, p)
  {
    if o: Tid :| o in pc && pc[o] == p && o != t {
      assert Elsewhere(pc, t, p);
    }
    if Elsewhere(pc, t, p) {
      var o: Tid :| o != t && o in pc && pc[o] == p;
      assert o in pc && pc[o] == p;
    }
  }

  /** Only t moves. */
  ghost predicate OnlyMoves(pc: map<Tid, Pc>, pc': map<Tid, Pc>, t: Tid) {
    forall o: Tid :: o != t ==> (o in pc <==> o in pc') && (o in pc ==> pc[o] == pc'[o])
  }

  lemma OthersStay(pc: map<Tid, Pc>, pc': map<Tid, Pc>, t: Tid, p: Pc)
    requires OnlyMoves(pc, pc', t)
    ensures Elsewhere(pc, t, p) <==> Elsewhere(pc', t, p)
  {
    if Elsewhere(pc, t, p) {
      var o: Tid :| o != t && o in pc && pc[o] == p;
      assert o in pc' && pc'[o] == p;
    }
    if Elsewhere(pc', t, p) {
      var o: Tid :| o != t && o in pc' && pc'[o] == p;
      assert o in pc && pc[o] == p;
    }
  }

  /** Where thread t stands. */
  function StandsAt(pc: map<Tid, Pc>, t: Tid): Option<Pc> { if t in pc then Some(pc[t]) else None }

  lemma ThreadMoves(pc: map<Tid, Pc>, t: Tid, p: Pc)
    ensures OnlyMoves(pc, pc[t := p], t)
  {
  }

  lemma ThreadLeaves(pc: map<Tid, Pc>, t: Tid)
    ensures OnlyMoves(pc, pc - {t}, t)
  {
  }

  lemma AllocationMovesOnly(s: State, step: Step)
    requires Enabled(s, step) && InAllocation(step)
    ensures OnlyMoves(s.pc, Apply(s, step).pc, step.t)
  {
    hide OnlyMoves;
    if step.Drop? {
      ThreadLeaves(s.pc, step.t);
    } else {
      ThreadMoves(s.pc, step.t, Apply(s, step).pc[step.t]);
    }
  }

  lemma EntryMovesOnly(s: State, step: Step)
    requires Enabled(s, step) && WithEntry(step)
    ensures OnlyMoves(s.pc, Apply(s, step).pc, step.t)
  {
    hide OnlyMoves;
    if step.Append? || step.GiveBack? || (step.Fill? && s.pc[step.t].origin.Operation?) {
      ThreadLeaves(s.pc, step.t);
    } else {
      ThreadMoves(s.pc, step.t, Apply(s, step).pc[step.t]);
    }
  }

  lemma SweepMovesOnly(s: State, step: Step)
    requires Enabled(s, step) && InSweep(step)
    ensures OnlyMoves(s.pc, Apply(s, step).pc, step.t)
  {
    hide OnlyMoves;
    if step.SweepReset? {
      ThreadLeaves(s.pc, step.t);
    } else {
      ThreadMoves(s.pc, step.t, Apply(s, step).pc[step.t]);
    }
  }

  /** A step of a thread moves no other. */
  lemma StepMovesOnly(s: State, step: Step)
    requires Enabled(s, step) && !OnControl(step)
    ensures OnlyMoves(s.pc, Apply(s, step).pc, step.t)
  {
    hide Enabled, Apply, OnlyMoves;
    if InAllocation(step) {
      AllocationMovesOnly(s, step);
    } else if WithEntry(step) {
      EntryMovesOnly(s, step);
    } else {
      SweepMovesOnly(s, step);
    }
  }

  /** As far as thread t decides it. */
  ghost predicate GoesAwayBy(s: State, t: Tid, id: nat) {
    id in s.discarded || StandsAt(s.pc, t) == Some(Discarding(id))
  }

  ghost predicate GoesToLogBy(s: State, t: Tid, id: nat) {
    IsLogged(s, id) || StandsAt(s.pc, t) == Some(Completing(id))
  }

  lemma ThreadDecides(s: State, s': State, t: Tid, id: nat)
    requires OnlyMoves(s.pc, s'.pc, t)
    ensures GoesAway(s, id) <==> GoesAwayBy(s, t, id) || Elsewhere(s.pc, t, Discarding(id))
    ensures GoesAway(s', id) <==> GoesAwayBy(s', t, id) || Elsewhere(s.pc, t, Discarding(id))
    ensures GoesToLog(s, id) <==> GoesToLogBy(s, t, id) || Elsewhere(s.pc, t, Completing(id))
    ensures GoesToLog(s', id) <==> GoesToLogBy(s', t, id) || Elsewhere(s.pc, t, Completing(id))
  {
    SplitAt(s.pc, t, Discarding(id));
    SplitAt(s'.pc, t, Discarding(id));
    OthersStay(s.pc, s'.pc, t, Discarding(id));
    SplitAt(s.pc, t, Completing(id));
    SplitAt(s'.pc, t, Completing(id));
    OthersStay(s.pc, s'.pc, t, Completing(id));
    hide IsLogged, Elsewhere, OnlyMoves;
  }

  predicate IsPost(step: Step, id: nat, draining: bool) {
    step.Post? && step.id == id && step.draining == draining
  }

  lemma LoggedMore(s: State, s': State, id: nat)
    requires s.log <= s'.log && |s'.log| <= |s.log| + 1
    ensures IsLogged(s', id) <==> IsLogged(s, id) || (|s'.log| == |s.log| + 1 && s'.log[|s.log|].id == id)
  {
    if IsLogged(s, id) {
      var p: nat :| p < |s.log| && s.log[p].id == id;
      assert s'.log[p] == s.log[p];
    }
  }

  /** What one step makes of an entry: a post callback decides it, a fill hands it to the Filter Manager or on. */
  ghost predicate Fares(s: State, step: Step, s': State, id: nat) {
    && (GoesAway(s', id) <==> GoesAway(s, id) || IsPost(step, id, true))
    && (GoesToLog(s', id) <==> GoesToLog(s, id) || IsPost(step, id, false) || id in FilledBy(s, step, false))
    && (id in s'.inFlight <==> (id in s.inFlight && !IsPost(step, id, true) && !IsPost(step, id, false))
                               || id in FilledBy(s, step, true))
  }

  lemma AllocationFares(s: State, step: Step, id: nat)
    requires Enabled(s, step) && InAllocation(step)
    ensures Fares(s, step, Apply(s, step), id)
  {
    hide IsLogged, Elsewhere, GoesAway, GoesToLog, OnlyMoves;
    var s', t := Apply(s, step), step.t;
    AllocationMovesOnly(s, step);
    ThreadDecides(s, s', t, id);
    LoggedMore(s, s', id);
  }

  lemma SweepFares(s: State, step: Step, id: nat)
    requires Enabled(s, step) && InSweep(step)
    ensures Fares(s, step, Apply(s, step), id)
  {
    hide IsLogged, Elsewhere, GoesAway, GoesToLog, OnlyMoves;
    var s', t := Apply(s, step), step.t;
    SweepMovesOnly(s, step);
    ThreadDecides(s, s', t, id);
    LoggedMore(s, s', id);
  }

  lemma PostFares(s: State, t: Tid, post: nat, draining: bool, id: nat)
    requires Enabled(s, Post(t, post, draining))
    ensures Fares(s, Post(t, post, draining), AfterPost(s, t, post, draining), id)
  {
    hide IsLogged, Elsewhere, GoesAway, GoesToLog, OnlyMoves;
    var s' := AfterPost(s, t, post, draining);
    ThreadMoves(s.pc, t, s'.pc[t]);
    ThreadDecides(s, s', t, id);
    LoggedMore(s, s', id);
  }

  lemma FillFares(s: State, t: Tid, id: nat)
    requires Enabled(s, Fill(t))
    ensures Fares(s, Fill(t), AfterFill(s, t), id)
  {
    EntryMovesOnly(s, Fill(t));
    hide IsLogged, Elsewhere, GoesAway, GoesToLog, OnlyMoves;
    var s' := AfterFill(s, t);
    ThreadDecides(s, s', t, id);
    LoggedMore(s, s', id);
  }

  lemma AppendFares(s: State, t: Tid, id: nat)
    requires Enabled(s, Append(t))
    ensures Fares(s, Append(t), AfterAppend(s, t), id)
  {
    hide IsLogged, Elsewhere, GoesAway, GoesToLog, OnlyMoves;
    var s' := AfterAppend(s, t);
    ThreadLeaves(s.pc, t);
    ThreadDecides(s, s', t, id);
    LoggedMore(s, s', id);
  }

  lemma OtherEntryFares(s: State, step: Step, id: nat)
    requires Enabled(s, step) && (step.Number? || step.Decrement? || step.GiveBack?)
    ensures Fares(s, step, Apply(s, step), id)
  {
    EntryMovesOnly(s, step);
    hide IsLogged, Elsewhere, GoesAway, GoesToLog, OnlyMoves;
    ThreadDecides(s, Apply(s, step), step.t, id);
    LoggedMore(s, Apply(s, step), id);
  }

  lemma EntryFares(s: State, step: Step, id: nat)
    requires Enabled(s, step) && WithEntry(step)
    ensures Fares(s, step, Apply(s, step), id)
  {
    hide Fares;
    if step.Post? {
      PostFares(s, step.t, step.id, step.draining, id);
    } else if step.Fill? {
      FillFares(s, step.t, id);
    } else if step.Append? {
      AppendFares(s, step.t, id);
    } else {
      OtherEntryFares(s, step, id);
    }
  }

  lemma ControlFares(s: State, step: Step, id: nat)
    requires Enabled(s, step) && OnControl(step)
    ensures Fares(s, step, Apply(s, step), id)
  {
    hide Apply, Enabled;
    ControlMovesNoEntry(s, step);
  }

  lemma StepFares(s: State, step: Step, id: nat)
    requires Enabled(s, step)
    ensures Fares(s, step, Apply(s, step), id)
  {
    hide Apply, Enabled, Fares;
    if OnControl(step) {
      ControlFares(s, step, id);
    } else if InAllocation(step) {
      AllocationFares(s, step, id);
    } else if WithEntry(step) {
      EntryFares(s, step, id);
    } else {
      SweepFares(s, step, id);
    }
  }

  lemma AwayPlace(s: State, id: nat) returns (place: Place)
    requires GoesAway(s, id)
    ensures Occupies(s, id, place) && (place.Discarded? || (place.AtThread? && s.pc[place.t].Discarding?))
  {
    if id in s.discarded {
      place := Discarded;
    } else {
      var t: Tid :| t in s.pc && s.pc[t] == Discarding(id);
      place := AtThread(t);
    }
  }

  lemma LogPlace(s: State, id: nat) returns (place: Place)
    requires GoesToLog(s, id)
    ensures Occupies(s, id, place) && (place.Logged? || (place.AtThread? && s.pc[place.t].Completing?))
  {
    if IsLogged(s, id) {
      var p: nat :| p < |s.log| && s.log[p].id == id;
      place := Logged(p);
    } else {
      var t: Tid :| t in s.pc && s.pc[t] == Completing(id);
      place := AtThread(t);
    }
  }

  /** An entry that is being filled in has gone nowhere yet. */
  lemma FillIsFirst(s: State, step: Step, id: nat, asks: bool)
    requires Reachable(s) && id in FilledBy(s, step, asks)
    ensures !GoesAway(s, id) && !GoesToLog(s, id)
  {
    hide Reachable;
    EveryEntryAtOnePlace(s, id);
    assert Occupies(s, id, AtThread(step.t));
    if GoesAway(s, id) { var place := AwayPlace(s, id); }
    if GoesToLog(s, id) { var place := LogPlace(s, id); }
  }

  lemma PostedMore(steps: seq<Step>, n: nat, id: nat, draining: bool)
    requires 0 < n <= |steps|
    ensures id in Posted(steps, n, draining)
       <==> id in Posted(steps, n - 1, draining) || IsPost(steps[n - 1], id, draining)
  {
  }

  /** At every moment: an entry goes away if and only if its post callback came with the draining flag, goes to the
      log if and only if it came normally or none was asked for, and is with the Filter Manager in between. */
  lemma {:induction false} FateOfEntry(run: seq<State>, steps: seq<Step>, i: nat, id: nat)
    requires IsHistory(run, steps) && i < |run|
    ensures GoesAway(run[i], id) <==> id in Posted(steps, i, true)
    ensures GoesToLog(run[i], id) <==> id in Posted(steps, i, false) || id in Filled(run, steps, i, false)
    ensures id in run[i].inFlight
            <==> id in Filled(run, steps, i, true) && id !in Posted(steps, i, true) && id !in Posted(steps, i, false)
  {
    hide Apply, Enabled, GoesAway, GoesToLog, FilledBy, IsPost;
    if i == 0 {
      NothingAtFirst(run[0], id);
    } else {
      var s, step := run[i - 1], steps[i - 1];
      hide Init;
      FateOfEntry(run, steps, i - 1, id);
      StepFares(s, step, id);
      PostedMore(steps, i, id, true);
      PostedMore(steps, i, id, false);
      HistoryIsReachable(run, steps, i - 1);
      hide Posted, Reachable;
      if id in FilledBy(s, step, true) { FillIsFirst(s, step, id, true); }
      PostIsInFlight(s, step, id);
    }
  }

  lemma NothingAtFirst(s: State, id: nat)
    requires Init(s)
    ensures !GoesAway(s, id) && !GoesToLog(s, id) && id !in s.inFlight
  {
  }

  lemma PostIsInFlight(s: State, step: Step, id: nat)
    requires Enabled(s, step)
    ensures IsPost(step, id, true) || IsPost(step, id, false) ==> id in s.inFlight && id !in FilledBy(s, step, true)
    ensures !(IsPost(step, id, true) && IsPost(step, id, false))
  {
  }

  /** A normally completed operation is never deleted, and a draining one never reaches the log. */
  lemma DiscardedOnlyWhenDraining(run: seq<State>, steps: seq<Step>, i: nat, id: nat)
    requires IsHistory(run, steps) && i < |run|
    ensures id in run[i].discarded ==> exists j: nat :: j < i && IsPost(steps[j], id, true)
    ensures (exists j: nat :: j < i && IsPost(steps[j], id, true)) ==> !IsLogged(run[i], id)
  {
    hide Apply, Enabled, Init, Posted;
    FateOfEntry(run, steps, i, id);
    PostedMeans(steps, i, id, true);
    HistoryIsReachable(run, steps, i);
    hide IsHistory, Filled, IsPost;
    AwayIsNotLogged(run[i], id);
  }

  lemma {:induction false} PostedMeans(steps: seq<Step>, n: nat, id: nat, draining: bool)
    requires n <= |steps|
    ensures id in Posted(steps, n, draining) <==> exists j: nat :: j < n && IsPost(steps[j], id, draining)
  {
    if n > 0 {
      PostedMeans(steps, n - 1, id, draining);
      PostedMore(steps, n, id, draining);
      hide IsPost, Posted;
    }
  }

  lemma AwayIsNotLogged(s: State, id: nat)
    requires Reachable(s)
    ensures GoesAway(s, id) ==> !GoesToLog(s, id) && !IsLogged(s, id)
  {
    hide Reachable;
    EveryEntryAtOnePlace(s, id);
    if GoesAway(s, id) && GoesToLog(s, id) {
      var a := AwayPlace(s, id);
      var b := LogPlace(s, id);
    }
  }

  /** No post callback so far has come with the draining flag. */
  ghost predicate NoneDrained(steps: seq<Step>, n: nat)
    requires n <= |steps|
  {
    forall j: nat :: j < n ==> !(steps[j].Post? && steps[j].draining)
  }

  /** The entry is at this position of the log and at no other. */
  ghost predicate LoggedOnce(s: State, id: nat, p: nat) {
    p < |s.log| && s.log[p].id == id && forall q: nat :: q < |s.log| && s.log[q].id == id ==> q == p
  }

  lemma OneLogPlace(s: State, id: nat, p: nat)
    requires Reachable(s) && Occupies(s, id, Logged(p))
    ensures LoggedOnce(s, id, p)
  {
    hide Reachable;
    forall q: nat | q < |s.log| && s.log[q].id == id ensures q == p {
      AppendedOnce(s, p, q);
    }
  }

  /** Then no entry is deleted, and by unload every number handed out is in the log exactly once. */
  lemma UndrainedAllLogged(run: seq<State>, steps: seq<Step>, i: nat, id: nat)
    requires IsHistory(run, steps) && i < |run| && NoneDrained(steps, i)
    ensures run[i].discarded == {}
    ensures (run[i].control.Deleting? || run[i].control.Deleted?) && 1 <= id <= run[i].issued ==>
              exists p: nat :: LoggedOnce(run[i], id, p)
  {
    hide Apply, Enabled, Init, Reachable;
    HistoryIsReachable(run, steps, i);
    forall other: nat ensures other !in run[i].discarded {
      DiscardedOnlyWhenDraining(run, steps, i, other);
    }
    hide IsHistory, LoggedOnce;
    if (run[i].control.Deleting? || run[i].control.Deleted?) && 1 <= id <= run[i].issued {
      EveryEntryLeaves(run[i], id);
      var p: nat :| Occupies(run[i], id, Logged(p)) && TakenForGood(run[i], p);
      OneLogPlace(run[i], id, p);
    }
  }
}
