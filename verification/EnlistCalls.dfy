/**
 What one call of Enlist gets, told from the labels of a run: a call comes back without a context
 exactly if one of its own steps failed or its transaction was over when it tried to attach.
 */
module EnlistCalls {
  import opened Common
  import opened Enlist
  import opened EnlistRuns

  /** A run with the labels of its steps. */
  ghost predicate IsHistory(run: seq<State>, steps: seq<Step>) {
    && |run| == |steps| + 1 && Init(run[0])
    && (forall i :: 0 <= i < |steps| ==> Enabled(run[i], steps[i]) && run[i + 1] == Apply(run[i], steps[i]))
  }

  lemma Extend(run: seq<State>, steps: seq<Step>, step: Step)
    requires IsHistory(run, steps) && Enabled(run[|steps|], step)
    ensures IsHistory(run + [Apply(run[|steps|], step)], steps + [step])
  {
    hide Enabled, Apply, Init;
    var run', steps' := run + [Apply(run[|steps|], step)], steps + [step];
    forall i | 0 <= i < |steps'|
      ensures Enabled(run'[i], steps'[i]) && run'[i + 1] == Apply(run'[i], steps'[i])
    {
      if i < |steps| {
        assert run'[i] == run[i] && run'[i + 1] == run[i + 1] && steps'[i] == steps[i];
      }
    }
  }

  /** Every run has its labels, so what holds of every history holds in every reachable state. */
  lemma {:induction false} HistoryOfRun(run: seq<State>) returns (steps: seq<Step>)
    requires IsRun(run)
    ensures IsHistory(run, steps)
  {
    if |run| == 1 {
      steps := [];
    } else {
      var n := |run| - 1;
      var front := run[..n];
      forall i | 0 < i < |front| ensures Next(front[i - 1], front[i]) {
        assert front[i - 1] == run[i - 1] && front[i] == run[i];
      }
      hide Init, Apply, Enabled;
      steps := HistoryOfRun(front);
      assert Next(run[n - 1], run[n]);
      var step :| Enabled(run[n - 1], step) && run[n] == Apply(run[n - 1], step);
      Extend(front, steps, step);
      assert run == front + [run[n]];
      steps := steps + [step];
    }
  }

  lemma {:induction false} HistoryInv(run: seq<State>, steps: seq<Step>, i: nat)
    requires IsHistory(run, steps) && i < |run|
    ensures Inv(run[i])
  {
    hide Enabled, Apply, Inv;
    if i == 0 {
      InitInv(run[0]);
    } else {
      HistoryInv(run, steps, i - 1);
      StepInv(run[i - 1], steps[i - 1]);
    }
  }

  lemma StepInv(s: State, step: Step)
    requires Inv(s) && Enabled(s, step)
    ensures Inv(Apply(s, step))
  {
    hide ReferencesInv, FactsInv, Apply, Enabled;
    StepKeepsReferences(s, step);
    StepKeepsFacts(s, step);
  }

  // ----- One call -----

  predicate Begins(step: Step, t: Tid) { step.Begin? && step.t == t }

  /** The step is one of thread t's own. */
  predicate IsOwn(step: Step, t: Tid) { !step.End? && step.t == t }

  /** The call of thread t that began with step b is still the last one before step n. */
  ghost predicate InCall(steps: seq<Step>, t: Tid, b: nat, n: nat) {
    && b < n <= |steps| && Begins(steps[b], t)
    && (forall k: nat :: b < k < n ==> !Begins(steps[k], t))
  }

  /** The step keeps thread t, calling for the transaction of key, from getting a context: the lookup
      or the attachment fails, there is no memory, or the transaction is over when the own context
      is to be attached. */
  predicate Hurts(s: State, step: Step, t: Tid, key: Key) {
    || step == Get(t, true)
    || step == Allocate(t, false)
    || step == Set(t, true)
    || (step == Set(t, false) && key in s.ended)
  }

  ghost predicate Troubled(run: seq<State>, steps: seq<Step>, t: Tid, key: Key, b: nat, n: nat)
    requires n <= |steps| < |run|
  {
    exists k: nat :: b < k < n && Hurts(run[k], steps[k], t, key)
  }

  /** The lookup of the call found no context on the transaction. */
  ghost predicate FoundNone(run: seq<State>, steps: seq<Step>, t: Tid, key: Key, b: nat, n: nat)
    requires n <= |steps| < |run|
  {
    exists k: nat :: b < k < n && steps[k] == Get(t, false) && !Live(run[k], key)
  }

  /** The thread stands where the steps of its call have brought it. */
  ghost predicate Stands(s: State, t: Tid, key: Key, troubled: bool, none: bool) {
    t in s.pc ==>
      && s.pc[t].key == key
      && (s.pc[t].Failing? <==> troubled)
      && (s.pc[t].Getting? ==> !none)
      && (Private(s.pc[t]) || s.pc[t].Allocating? ==> none)
  }

  lemma OthersStep(s: State, step: Step, t: Tid)
    requires Enabled(s, step) && !IsOwn(step, t)
    ensures t in Apply(s, step).pc <==> t in s.pc
    ensures t in s.pc ==> Apply(s, step).pc[t] == s.pc[t]
  {
  }

  lemma OwnStep(s: State, step: Step, t: Tid, key: Key, troubled: bool, none: bool)
    requires Enabled(s, step) && IsOwn(step, t) && !step.Begin? && Stands(s, t, key, troubled, none)
    ensures Stands(Apply(s, step), t, key, troubled || Hurts(s, step, t, key),
                   none || (step == Get(t, false) && !Live(s, key)))
  {
  }

  lemma Continues(run: seq<State>, steps: seq<Step>, t: Tid, key: Key, b: nat, n: nat)
    requires b < n < |steps| < |run|
    ensures Troubled(run, steps, t, key, b, n + 1)
       <==> Troubled(run, steps, t, key, b, n) || Hurts(run[n], steps[n], t, key)
    ensures FoundNone(run, steps, t, key, b, n + 1)
       <==> FoundNone(run, steps, t, key, b, n) || (steps[n] == Get(t, false) && !Live(run[n], key))
  {
    hide Hurts, Live;
  }

  lemma {:induction false} CallStands(run: seq<State>, steps: seq<Step>, t: Tid, n: nat) returns (b: nat)
    requires IsHistory(run, steps) && n < |run| && t in run[n].pc
    ensures InCall(steps, t, b, n)
    ensures Stands(run[n], t, steps[b].key, Troubled(run, steps, t, steps[b].key, b, n),
                   FoundNone(run, steps, t, steps[b].key, b, n))
  {
    assert n > 0;
    var s, step := run[n - 1], steps[n - 1];
    if Begins(step, t) {
      b := n - 1;
    } else {
      assert t in s.pc by { StillCalling(s, step, t); }
      hide Enabled, Apply, Stands, Hurts, Troubled, FoundNone;
      b := CallStands(run, steps, t, n - 1);
      var key := steps[b].key;
      Continues(run, steps, t, key, b, n - 1);
      StepStands(s, step, t, key, Troubled(run, steps, t, key, b, n - 1), FoundNone(run, steps, t, key, b, n - 1));
    }
  }

  /** Only Begin starts a call. */
  lemma StillCalling(s: State, step: Step, t: Tid)
    requires Enabled(s, step) && t in Apply(s, step).pc && !Begins(step, t)
    ensures t in s.pc
  {
  }

  lemma StepStands(s: State, step: Step, t: Tid, key: Key, troubled: bool, none: bool)
    requires Enabled(s, step) && !Begins(step, t) && Stands(s, t, key, troubled, none)
    ensures Stands(Apply(s, step), t, key, troubled || Hurts(s, step, t, key),
                   none || (step == Get(t, false) && !Live(s, key)))
  {
    if IsOwn(step, t) {
      OwnStep(s, step, t, key, troubled, none);
    } else {
      OthersStep(s, step, t);
    }
  }

  // ----- What a call returns -----

  /** The step ends the call of thread t, which returns o. */
  ghost predicate ReturnsWith(s: State, step: Step, t: Tid, o: Outcome) {
    && Enabled(s, step) && t in s.pc && t !in Apply(s, step).pc
    && Apply(s, step).outcomes == s.outcomes + [o]
  }

  /** A call that leaves returns something, and only then. */
  lemma LeavingReturns(s: State, step: Step, t: Tid)
    requires Enabled(s, step) && t in s.pc && t !in Apply(s, step).pc
    ensures Apply(s, step).outcomes != []
    ensures var out := Apply(s, step).outcomes; ReturnsWith(s, step, t, out[|out| - 1])
  {
  }

  lemma StepReturns(s: State, step: Step) returns (t: Tid)
    requires Enabled(s, step) && Apply(s, step).outcomes != s.outcomes
    ensures Apply(s, step).outcomes != []
    ensures var out := Apply(s, step).outcomes; ReturnsWith(s, step, t, out[|out| - 1])
  {
    t := step.t;
  }

  lemma ReturnedFor(s: State, step: Step, t: Tid, o: Outcome)
    requires ReturnsWith(s, step, t, o)
    ensures o.key == s.pc[t].key
    ensures o.context.None? <==> s.pc[t].Failing? || Hurts(s, step, t, o.key)
    ensures !Begins(step, t)
  {
    assert Apply(s, step).outcomes[|s.outcomes|] == o;
  }

  lemma OutcomesGrow(s: State, step: Step)
    requires Enabled(s, step)
    ensures s.outcomes <= Apply(s, step).outcomes
  {
  }

  lemma OutcomeConsistent(run: seq<State>, steps: seq<Step>, n: nat, i: nat)
    requires IsHistory(run, steps) && n < |run| && i < |run[n].outcomes|
    ensures Consistent(run[n], run[n].outcomes[i])
  {
    HistoryInv(run, steps, n);
    hide IsHistory, ReferencesInv, SharedInv, ThreadsInv, ExclusiveInv, Consistent;
  }

  /** The step that ended a call, in the terms of that call. */
  lemma ReturnOfCall(run: seq<State>, steps: seq<Step>, j: nat, t: Tid, o: Outcome) returns (b: nat)
    requires IsHistory(run, steps) && j < |steps| && ReturnsWith(run[j], steps[j], t, o)
    ensures InCall(steps, t, b, j) && o.key == steps[b].key
    ensures o.context.None? <==> Troubled(run, steps, t, steps[b].key, b, j + 1)
  {
    b := CallStands(run, steps, t, j);
    ReturnedFor(run[j], steps[j], t, o);
    Continues(run, steps, t, steps[b].key, b, j);
    hide IsHistory, Troubled, FoundNone, Hurts, Enabled, Apply;
  }

  /** Every outcome is that of one call: without a context if and only if one of the call's own steps
      failed or its transaction was over when the call tried to attach; otherwise with the context
      attached to the transaction and its number. A call that loses the race is no failure. */
  lemma {:induction false} OutcomeHasCall(run: seq<State>, steps: seq<Step>, n: nat, i: nat)
    returns (t: Tid, b: nat, j: nat)
    requires IsHistory(run, steps) && n < |run| && i < |run[n].outcomes|
    ensures j < n && InCall(steps, t, b, j) && run[n].outcomes[i].key == steps[b].key
    ensures ReturnsWith(run[j], steps[j], t, run[n].outcomes[i]) && |run[j].outcomes| == i
    ensures run[n].outcomes[i].context.None? <==> Troubled(run, steps, t, steps[b].key, b, j + 1)
    ensures Consistent(run[n], run[n].outcomes[i])
  {
    hide Enabled, Apply, Troubled, InCall, Consistent, ReturnsWith, Hurts;
    OutcomeConsistent(run, steps, n, i);
    assert n > 0;
    OutcomesGrow(run[n - 1], steps[n - 1]);
    if i < |run[n - 1].outcomes| {
      t, b, j := OutcomeHasCall(run, steps, n - 1, i);
    } else {
      j := n - 1;
      t := StepReturns(run[j], steps[j]);
      LastOutcome(run[j], steps[j], t, i);
      b := ReturnOfCall(run, steps, j, t, run[n].outcomes[i]);
    }
  }

  lemma LastOutcome(s: State, step: Step, t: Tid, i: nat)
    requires Enabled(s, step) && |s.outcomes| <= i < |Apply(s, step).outcomes|
    requires var out := Apply(s, step).outcomes; ReturnsWith(s, step, t, out[|out| - 1])
    ensures i == |s.outcomes| && ReturnsWith(s, step, t, Apply(s, step).outcomes[i])
  {
    hide Enabled, Apply;
  }

  lemma {:induction false} EndedHasCause(run: seq<State>, steps: seq<Step>, n: nat, key: Key)
    requires IsHistory(run, steps) && n < |run|
    ensures key in run[n].ended <==> exists k: nat :: k < n && steps[k] == End(key)
  {
    hide Enabled, Apply;
    if n > 0 {
      EndedHasCause(run, steps, n - 1, key);
      StepEnds(run[n - 1], steps[n - 1], key);
    }
  }

  lemma StepEnds(s: State, step: Step, key: Key)
    requires Enabled(s, step)
    ensures key in Apply(s, step).ended <==> key in s.ended || step == End(key)
  {
  }

  /** No step has failed. */
  ghost predicate Unfailing(steps: seq<Step>, n: nat)
    requires n <= |steps|
  {
    forall k: nat :: k < n ==>
      && (steps[k].Get? || steps[k].Set? ==> !steps[k].error)
      && (steps[k].Allocate? ==> steps[k].ok)
  }

  /** While no step fails and the transaction is not over, every call on it comes back with its one
      context, winner and losers alike. */
  lemma EveryCallGetsTheContext(run: seq<State>, steps: seq<Step>, n: nat, i: nat)
    requires IsHistory(run, steps) && n < |run| && i < |run[n].outcomes| && Unfailing(steps, n)
    requires forall k: nat :: k < n ==> steps[k] != End(run[n].outcomes[i].key)
    ensures run[n].outcomes[i].key in run[n].attached
    ensures run[n].outcomes[i].context == Some(run[n].attached[run[n].outcomes[i].key])
  {
    var t, b, j := OutcomeHasCall(run, steps, n, i);
    var key := run[n].outcomes[i].key;
    hide IsHistory, InCall, ReturnsWith;
    forall k: nat | b < k < j + 1
      ensures !Hurts(run[k], steps[k], t, key)
    {
      EndedHasCause(run, steps, k, key);
    }
  }

  /** A call allocates a context of its own only if its lookup found none. */
  lemma AllocatesOnlyIfNone(run: seq<State>, steps: seq<Step>, j: nat) returns (b: nat)
    requires IsHistory(run, steps) && j < |steps| && steps[j].Allocate?
    ensures InCall(steps, steps[j].t, b, j)
    ensures FoundNone(run, steps, steps[j].t, steps[b].key, b, j)
  {
    b := CallStands(run, steps, steps[j].t, j);
    AllocatesInAllocating(run[j], steps[j]);
    hide IsHistory, InCall, FoundNone;
  }

  lemma AllocatesInAllocating(s: State, step: Step)
    requires Enabled(s, step) && step.Allocate?
    ensures step.t in s.pc && s.pc[step.t].Allocating?
  {
  }

  // ----- Numbers and progress -----

  /** The contexts numbered so far, in the order in which TransactionSequence was incremented for them. */
  function NumberedContexts(run: seq<State>, steps: seq<Step>, n: nat): seq<nat>
    requires n <= |steps| < |run|
  {
    if n == 0 then [] else NumberedContexts(run, steps, n - 1) + NumberedBy(run[n - 1], steps[n - 1])
  }

  function NumberedBy(s: State, step: Step): seq<nat> {
    if step.Number? && step.t in s.pc && s.pc[step.t].Numbering? then [s.pc[step.t].own] else []
  }

  /** The p-th context numbered has number p + 1. */
  ghost predicate NumbersAre(s: State, numbered: seq<nat>) {
    && s.increments == |numbered|
    && (forall p: nat :: p < |numbered| ==> numbered[p] in s.sequences && s.sequences[numbered[p]] == p + 1)
    && (forall c: nat :: c in s.sequences ==> c in numbered)
  }

  lemma StepNumbers(s: State, step: Step, numbered: seq<nat>)
    requires Inv(s) && Enabled(s, step) && NumbersAre(s, numbered)
    ensures NumbersAre(Apply(s, step), numbered + NumberedBy(s, step))
  {
    hide ReferencesInv, SharedInv, ExclusiveInv, OutcomesInv;
    if step.Number? {
      assert Knows(s.attached, s.made, s.sequences, s.pc[step.t]);
      var numbered' := numbered + [s.pc[step.t].own];
      assert forall c: nat :: c in numbered' <==> c in numbered || c == s.pc[step.t].own;
    } else {
      hide ThreadsInv;
      assert numbered + [] == numbered;
    }
  }

  /** Each increment numbers one context, with the count so far. */
  lemma {:induction false} NumbersAreCounted(run: seq<State>, steps: seq<Step>, n: nat)
    requires IsHistory(run, steps) && n < |run|
    ensures NumbersAre(run[n], NumberedContexts(run, steps, n))
  {
    hide Enabled, Apply, Inv, NumberedBy;
    if n > 0 {
      hide NumbersAre;
      NumbersAreCounted(run, steps, n - 1);
      HistoryInv(run, steps, n - 1);
      StepNumbers(run[n - 1], steps[n - 1], NumberedContexts(run, steps, n - 1));
    } else {
      assert Init(run[0]);
    }
  }

  /** How many steps a call has before it at most. */
  function StepsLeft(p: Pc): nat {
    match p
    case Getting(_) => 7
    case Allocating(_) => 6
    case Numbering(_, _) => 5
    case Setting(_, _) => 4
    case Losing(_, _, _) => 3
    case Holding(_, _) => 2
    case Enlisting(_, _, _) => 1
    case Failing(_, _) => 1
  }

  /** The one step a call can take next, with what the Filter Manager may answer. */
  function NextStep(p: Pc, t: Tid, fails: bool): Step {
    match p
    case Getting(_) => Get(t, fails)
    case Allocating(_) => Allocate(t, !fails)
    case Numbering(_, _) => Number(t)
    case Setting(_, _) => Set(t, fails)
    case Losing(_, _, _) => Surrender(t)
    case Holding(_, _) => Read(t)
    case Enlisting(_, _, _) => Finish(t)
    case Failing(_, _) => GiveUp(t)
  }

  /** A call can always go on, whatever the other threads do and whatever the Filter Manager answers,
      and comes back after seven steps of its own at most. */
  lemma CallGoesOn(s: State, t: Tid, fails: bool)
    requires t in s.pc
    ensures Enabled(s, NextStep(s.pc[t], t, fails))
    ensures var s' := Apply(s, NextStep(s.pc[t], t, fails));
            t in s'.pc ==> StepsLeft(s'.pc[t]) < StepsLeft(s.pc[t])
  {
  }

  /** A new call can begin whenever the thread is not in one, a live transaction can end at any time,
      and no other step is possible. */
  lemma OnlyTheseSteps(s: State, step: Step)
    ensures Enabled(s, step) <==>
              match step
              case Begin(t, _) => t !in s.pc
              case End(key) => Live(s, key)
              case _ => step.t in s.pc && exists fails: bool :: step == NextStep(s.pc[step.t], step.t, fails)
  {
    if !step.Begin? && !step.End? && step.t in s.pc {
      assert step == NextStep(s.pc[step.t], step.t, true) || step == NextStep(s.pc[step.t], step.t, false)
        <== Enabled(s, step);
    }
  }
}
