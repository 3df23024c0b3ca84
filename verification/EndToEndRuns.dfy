/**
 Where every record of a session is: given to the client, lost, on its way, or taken by a clearing
 that an earlier session left over. And exactly when none is missing.
 */
module EndToEndRuns {
  import opened Common
  import opened EndToEnd
  import opened EndToEndSteps
  import D = Driver
  import L = DriverLog
  import R = DriverRuns
  import T = DriverTotals
  import P = Pipeline
  import PR = PipelineRuns

  // ----- Sessions -----

  ghost predicate IsSession(u: Setup, run: seq<State>, steps: seq<Step>) {
    && |run| == |steps| + 1 && Start(u, run[0])
    && (forall i :: 0 <= i < |steps| ==> Enabled(u, run[i], steps[i]) && run[i + 1] == Apply(u, run[i], steps[i]))
  }

  lemma {:induction false} SessionKeepsInv(u: Setup, run: seq<State>, steps: seq<Step>, i: nat)
    requires IsSession(u, run, steps) && i < |run|
    ensures Inv(u, run[0].driver, run[i])
  {
    hide Inv, Start, Enabled, Apply;
    if i == 0 {
      StartInv(u, run[0]);
    } else {
      SessionKeepsInv(u, run, steps, i - 1);
      StepKeepsInv(u, run[0].driver, run[i - 1], steps[i - 1]);
    }
  }

  lemma HasRequestInv(u: Setup, d0: D.State, s: State)
    requires Inv(u, d0, s)
    ensures RequestInv(s)
  {
  }

  lemma SessionMoves(u: Setup, run: seq<State>, steps: seq<Step>, i: nat)
    requires IsSession(u, run, steps) && i < |steps|
    ensures Moves(run[i], run[i + 1], Popped(run[i].driver, steps[i]))
  {
    hide Inv, Start, Enabled, Apply, Moves, RequestInv, Popped;
    SessionKeepsInv(u, run, steps, i);
    HasRequestInv(u, run[0].driver, run[i]);
    StepMoves(u, run[i], steps[i]);
  }

  // ----- Every record -----

  /** What was due is what is kept and what clearings have swept, each record once. */
  ghost predicate Accounted(d0: D.State, s: State, swept: seq<D.Stamp>) {
    d0.log <= s.driver.log && multiset(Kept(s)) + multiset(swept) == multiset(Due(d0, s.driver))
  }

  lemma DueGrows(d0: D.State, d: D.State, d': D.State)
    requires d0.log <= d.log <= d'.log
    ensures d0.log <= d'.log && Due(d0, d') == Due(d0, d) + d'.log[|d.log|..]
  {
    assert d'.log[|d0.log|..] == d.log[|d0.log|..] + d'.log[|d.log|..];
  }

  lemma TakenOutCounts(whole: seq<D.Stamp>, part: seq<D.Stamp>, rest: seq<D.Stamp>)
    requires TakenOut(whole, part, rest)
    ensures multiset(whole) == multiset(rest) + multiset(part)
  {
    var k :| 0 <= k <= |rest| && whole == rest[..k] + part + rest[k..];
    assert rest == rest[..k] + rest[k..];
  }

  lemma MoveIsAccounted(d0: D.State, s: State, s': State, swept: seq<D.Stamp>, taken: seq<D.Stamp>)
    requires Accounted(d0, s, swept) && Moves(s, s', taken)
    ensures Accounted(d0, s', swept + taken)
  {
    hide Kept, Due, TakenOut;
    DueGrows(d0, s.driver, s'.driver);
    var more := s'.driver.log[|s.driver.log|..];
    if taken == [] {
      assert swept + taken == swept;
      assert multiset(Kept(s) + more) == multiset(Kept(s)) + multiset(more);
      assert multiset(Due(d0, s.driver) + more) == multiset(Due(d0, s.driver)) + multiset(more);
    } else {
      assert more == [];
      assert Due(d0, s'.driver) == Due(d0, s.driver);
      TakenOutCounts(Kept(s), taken, Kept(s'));
      assert multiset(swept + taken) == multiset(swept) + multiset(taken);
    }
  }

  lemma StartIsAccounted(u: Setup, s: State)
    requires Start(u, s)
    ensures Accounted(s.driver, s, []) && NoneMissing(s.driver, s)
  {
    var list := s.driver.list;
    assert [] + ([] + ([] + ([] + list))) == list + s.driver.log[|s.driver.log|..];
  }

  /** At every moment of every session each record that was due is at one place: given to the client, lost to a
      fault, on its way, or taken by a clearing that an earlier session left over. */
  lemma {:induction false} EveryRecordIsAccountedFor(u: Setup, run: seq<State>, steps: seq<Step>, i: nat)
    requires IsSession(u, run, steps) && i < |run|
    ensures Accounted(run[0].driver, run[i], Swept(run, steps, i))
  {
    hide Inv, Start, Enabled, Apply, Accounted, Moves, Popped;
    if i == 0 {
      StartIsAccounted(u, run[0]);
    } else {
      EveryRecordIsAccountedFor(u, run, steps, i - 1);
      SessionMoves(u, run, steps, i - 1);
      MoveIsAccounted(run[0].driver, run[i - 1], run[i], Swept(run, steps, i - 1),
                      Popped(run[i - 1].driver, steps[i - 1]));
    }
  }

  lemma MoveMissesNone(d0: D.State, s: State, s': State)
    requires NoneMissing(d0, s) && Moves(s, s', [])
    ensures NoneMissing(d0, s')
  {
    hide Kept, Due;
    DueGrows(d0, s.driver, s'.driver);
  }

  lemma {:induction false} UnsweptMissesNone(u: Setup, run: seq<State>, steps: seq<Step>, i: nat)
    requires IsSession(u, run, steps) && i < |run| && Swept(run, steps, i) == []
    ensures NoneMissing(run[0].driver, run[i])
  {
    hide Inv, Start, Enabled, Apply, NoneMissing, Moves, Popped;
    if i == 0 {
      StartIsAccounted(u, run[0]);
    } else {
      assert Swept(run, steps, i) == Swept(run, steps, i - 1) + Popped(run[i - 1].driver, steps[i - 1]);
      UnsweptMissesNone(u, run, steps, i - 1);
      SessionMoves(u, run, steps, i - 1);
      MoveMissesNone(run[0].driver, run[i - 1], run[i]);
    }
  }

  lemma EmptyRest(whole: seq<D.Stamp>, rest: seq<D.Stamp>)
    requires multiset(whole) + multiset(rest) == multiset(whole)
    ensures rest == []
  {
    assert |multiset(whole) + multiset(rest)| == |multiset(whole)| + |multiset(rest)|;
  }

  /**
   * Exactly when a session misses a record: what was given to the client, lost to faults, on its way
   * and listed is, in order, all that was due if and only if no clearing that an earlier session left
   * over has popped a record.
   */
  lemma SessionMissesNone(u: Setup, run: seq<State>, steps: seq<Step>, i: nat)
    requires IsSession(u, run, steps) && i < |run|
    ensures NoneMissing(run[0].driver, run[i]) <==> Swept(run, steps, i) == []
    ensures NoneMissing(run[0].driver, run[i])
            <==> forall j: nat :: j < i ==> !PopsRecord(run[j].driver, steps[j])
  {
    hide Start, Enabled, Apply, Kept, Due, PopsRecord, Swept;
    EveryRecordIsAccountedFor(u, run, steps, i);
    if Swept(run, steps, i) == [] {
      UnsweptMissesNone(u, run, steps, i);
    } else if NoneMissing(run[0].driver, run[i]) {
      EmptyRest(Kept(run[i]), Swept(run, steps, i));
    }
    SweptByPops(run, steps, i);
  }

  lemma {:induction false} SweptByPops(run: seq<State>, steps: seq<Step>, i: nat)
    requires i <= |steps| < |run|
    ensures Swept(run, steps, i) == [] <==> forall j: nat :: j < i ==> !PopsRecord(run[j].driver, steps[j])
  {
    if i > 0 {
      PopsWhat(run[i - 1].driver, steps[i - 1]);
      hide PopsRecord, Popped;
      SweptByPops(run, steps, i - 1);
    }
  }

  lemma PopsWhat(d: D.State, step: Step)
    ensures Popped(d, step) == [] <==> !PopsRecord(d, step)
  {
  }

  // ----- Their order -----

  /** Where an element was before n others were taken out at k. */
  function Place(k: nat, n: nat, i: nat): nat { if i < k then i else i + n }

  lemma AtItsPlace(whole: seq<D.Stamp>, part: seq<D.Stamp>, rest: seq<D.Stamp>, k: nat, i: nat)
    requires k <= |rest| && whole == rest[..k] + part + rest[k..] && i < |rest|
    ensures Place(k, |part|, i) < |whole| && whole[Place(k, |part|, i)] == rest[i]
  {
  }

  lemma PartsInOrder(d: D.State, whole: seq<D.Stamp>, part: seq<D.Stamp>, rest: seq<D.Stamp>)
    requires T.FromLog(d, whole) && TakenOut(whole, part, rest)
    ensures T.FromLog(d, rest)
  {
    var k :| 0 <= k <= |rest| && whole == rest[..k] + part + rest[k..];
    forall i | 0 <= i < |rest| ensures L.Genuine(d.log, rest[i]) {
      AtItsPlace(whole, part, rest, k, i);
    }
    forall i, j | 0 <= i < j < |rest| ensures rest[i].position < rest[j].position {
      AtItsPlace(whole, part, rest, k, i);
      AtItsPlace(whole, part, rest, k, j);
    }
  }

  lemma AppendedInOrder(d: D.State, d': D.State, batch: seq<D.Stamp>)
    requires T.FromLog(d, batch) && d.log <= d'.log && forall i :: 0 <= i < |d'.log| ==> d'.log[i].position == i
    ensures T.FromLog(d', batch + d'.log[|d.log|..])
  {
    var more := d'.log[|d.log|..];
    assert forall i :: 0 <= i < |more| ==> more[i] == d'.log[|d.log| + i];
  }

  lemma MoveKeepsOrder(s: State, s': State, taken: seq<D.Stamp>)
    requires Moves(s, s', taken) && T.FromLog(s.driver, Kept(s))
    requires forall i :: 0 <= i < |s'.driver.log| ==> s'.driver.log[i].position == i
    ensures T.FromLog(s'.driver, Kept(s'))
  {
    hide Kept, L.Genuine, TakenOut;
    if taken == [] {
      hide T.FromLog;
      AppendedInOrder(s.driver, s'.driver, Kept(s));
    } else {
      PartsInOrder(s.driver, Kept(s), taken, Kept(s'));
    }
  }

  lemma LogPositions(d: D.State)
    requires R.Reachable(d)
    ensures forall i :: 0 <= i < |d.log| ==> d.log[i].position == i
    ensures T.FromLog(d, d.list)
  {
    R.ReachableInv(d);
    hide R.Reachable, L.Genuine;
    forall i | 0 <= i < |d.list|
      ensures L.Genuine(d.log, d.list[i])
      ensures d.list[i].position == (if L.HasPushedBack(d)
                                     then (if i == 0 then d.list[0].position else d.taken + i - 1)
                                     else d.taken + i)
    {
      L.ListIsGenuine(d, i);
    }
  }

  lemma StartInOrder(u: Setup, s: State)
    requires Start(u, s)
    ensures T.FromLog(s.driver, Kept(s))
  {
    LogPositions(s.driver);
    assert [] + ([] + ([] + ([] + s.driver.list))) == s.driver.list;
  }

  lemma ReachableDriver(u: Setup, d0: D.State, s: State)
    requires Inv(u, d0, s)
    ensures R.Reachable(s.driver)
  {
  }

  /** What is kept stands in append order at every moment, whatever clearings take out of it. */
  lemma {:induction false} KeptInOrder(u: Setup, run: seq<State>, steps: seq<Step>, i: nat)
    requires IsSession(u, run, steps) && i < |run|
    ensures T.FromLog(run[i].driver, Kept(run[i]))
  {
    hide Inv, Start, Enabled, Apply, Kept, T.FromLog, Moves, Popped, R.Reachable;
    if i == 0 {
      StartInOrder(u, run[0]);
    } else {
      KeptInOrder(u, run, steps, i - 1);
      SessionMoves(u, run, steps, i - 1);
      SessionKeepsInv(u, run, steps, i);
      ReachableDriver(u, run[0].driver, run[i]);
      LogPositions(run[i].driver);
      MoveKeepsOrder(run[i - 1], run[i], Popped(run[i - 1].driver, steps[i - 1]));
    }
  }

  // ----- Sessions without leftover clearings -----

  /** One thread moves or leaves, and it does not begin a clearing. */
  ghost predicate OneMoves(pc: map<Tid, D.Pc>, pc': map<Tid, D.Pc>, t: Tid) {
    && (forall o :: o in pc' && o != t ==> o in pc && pc'[o] == pc[o])
    && (t in pc' ==> !InClearing(pc'[t]))
  }

  lemma ThreadMoves(pc: map<Tid, D.Pc>, t: Tid, p: D.Pc)
    requires !InClearing(p)
    ensures OneMoves(pc, pc[t := p], t)
  {
  }

  lemma ThreadLeaves(pc: map<Tid, D.Pc>, t: Tid)
    ensures OneMoves(pc, pc - {t}, t)
  {
  }

  lemma AllocationMovesOne(d: D.State, step: D.Step)
    requires D.Enabled(d, step) && R.InAllocation(step)
    ensures OneMoves(d.pc, D.Apply(d, step).pc, step.t)
  {
    hide OneMoves;
    if step.Drop? {
      ThreadLeaves(d.pc, step.t);
    } else {
      ThreadMoves(d.pc, step.t, D.Apply(d, step).pc[step.t]);
    }
  }

  lemma EntryMovesOne(d: D.State, step: D.Step)
    requires D.Enabled(d, step) && R.WithEntry(step)
    ensures OneMoves(d.pc, D.Apply(d, step).pc, step.t)
  {
  }

  lemma NoSweepIsEnabled(d: D.State, step: D.Step)
    requires D.Enabled(d, step) && InSession(step) && R.InSweep(step)
    ensures !Quiet(d)
  {
    assert step.t in d.pc && InClearing(d.pc[step.t]);
  }

  /** In a session no clearing begins. */
  lemma DriverStaysQuiet(d: D.State, step: D.Step)
    requires D.Enabled(d, step) && InSession(step) && Quiet(d)
    ensures Quiet(D.Apply(d, step))
  {
    hide D.Apply, D.Enabled, InSession, InClearing;
    if R.OnControl(step) {
      R.ControlMovesNoEntry(d, step);
    } else if R.InAllocation(step) {
      AllocationMovesOne(d, step);
    } else if R.WithEntry(step) {
      EntryMovesOne(d, step);
    } else {
      NoSweepIsEnabled(d, step);
    }
  }

  lemma DrainStartStaysQuiet(d: D.State)
    requires D.Enabled(d, D.DrainStart(REPLY_SIZE)) && Quiet(d)
    ensures Quiet(D.Apply(d, D.DrainStart(REPLY_SIZE)))
  {
  }

  lemma StepStaysQuiet(u: Setup, s: State, step: Step)
    requires Enabled(u, s, step) && Quiet(s.driver)
    ensures Quiet(Apply(u, s, step).driver) && Popped(s.driver, step) == []
  {
    hide Quiet, D.Enabled, D.Apply, P.Enabled, P.Apply, InSession, OnItsOwn;
    if step.OnDriver? {
      DriverStaysQuiet(s.driver, step.does);
      if step.does.SweepPop? { NoSweepIsEnabled(s.driver, step.does); }
    } else if step.Ask? {
      DrainStartStaysQuiet(s.driver);
    }
  }

  /** With no clearing left over at the start none takes a record. */
  lemma {:induction false} QuietSweepsNothing(u: Setup, run: seq<State>, steps: seq<Step>, i: nat)
    requires IsSession(u, run, steps) && i < |run| && Quiet(run[0].driver)
    ensures Quiet(run[i].driver) && Swept(run, steps, i) == []
  {
    hide Start, Enabled, Apply, Quiet, Popped;
    if i > 0 {
      QuietSweepsNothing(u, run, steps, i - 1);
      StepStaysQuiet(u, run[i - 1], steps[i - 1]);
    }
  }

  // ----- What faults cost -----

  /** A request ends whose copy faulted after others had succeeded. */
  predicate FailsWithRecords(s: State, step: Step) {
    step.Answer? && s.request.Asked? && s.request.faulted && s.request.handed != []
  }

  /** What a step adds to the records lost. */
  lemma StepLoses(u: Setup, s: State, step: Step)
    requires RequestInv(s) && Enabled(u, s, step)
    ensures Apply(u, s, step).lost == if FailsWithRecords(s, step) then s.request.handed else s.lost
    ensures FailsWithRecords(s, step) ==> s.lost == [] && Apply(u, s, step).lost != []
  {
    hide D.Enabled, D.Apply, P.Enabled, P.Apply, InSession, OnItsOwn, DrainAt, Stores, ReplyTo, Observed, P.AfterFetch;
    if step.Answer? { ReplyIsHanded(u, s.request); }
  }

  lemma StartFields(u: Setup, s: State)
    requires Start(u, s)
    ensures s.client.drainer.Checking? && !s.client.stop && s.request.Idle? && s.lost == []
    ensures s.driver.control == D.Connected && !P.HasFailed(s.client.writer)
  {
    hide R.Reachable;
  }

  /** A session has lost records to faults if and only if a request failed after some had been handed over, and
      these are the records. */
  lemma {:induction false} LostToFaults(u: Setup, run: seq<State>, steps: seq<Step>, i: nat)
    requires IsSession(u, run, steps) && i < |run|
    ensures run[i].lost != [] <==> exists j: nat :: j < i && FailsWithRecords(run[j], steps[j])
    ensures forall j: nat :: j < i && FailsWithRecords(run[j], steps[j]) ==> run[i].lost == run[j].request.handed
  {
    hide Inv, Start, Enabled, Apply, RequestInv, FailsWithRecords;
    if i == 0 {
      StartFields(u, run[0]);
    } else {
      LostToFaults(u, run, steps, i - 1);
      SessionKeepsInv(u, run, steps, i - 1);
      HasRequestInv(u, run[0].driver, run[i - 1]);
      StepLoses(u, run[i - 1], steps[i - 1]);
    }
  }

  // ----- At the end -----

  lemma NothingUnderway(u: Setup, d0: D.State, s: State)
    requires Inv(u, d0, s) && PR.Finished(s.client)
    ensures OnTheWay(s.driver, s.request) == s.driver.list
  {
    hide R.Reachable, P.Inv, HandInv, FetchInv, FileInv;
    var list := s.driver.list;
    assert [] + ([] + list) == list;
  }

  lemma SplitCounts(delivered: seq<D.Stamp>, lost: seq<D.Stamp>, list: seq<D.Stamp>, swept: seq<D.Stamp>)
    requires multiset(delivered + (lost + list)) + multiset(swept) == multiset(delivered + list)
    ensures lost == [] && swept == []
  {
    assert |multiset(delivered + (lost + list)) + multiset(swept)| == |delivered| + |lost| + |list| + |swept|;
    assert |multiset(delivered + list)| == |delivered| + |list|;
  }

  /**
   * Exactly when no record is missing: once both threads have returned, the delivered records are, in
   * order, all that were due but for those still listed if and only if no clearing that an earlier
   * session left over has popped a record and no request has failed after some had been handed over.
   */
  lemma NoRecordIsMissing(u: Setup, run: seq<State>, steps: seq<Step>, i: nat)
    requires IsSession(u, run, steps) && i < |run| && PR.Finished(run[i].client)
    ensures run[0].driver.log <= run[i].driver.log
    ensures run[i].delivered + run[i].driver.list == Due(run[0].driver, run[i].driver)
            <==> forall j: nat :: j < i ==>
                   !PopsRecord(run[j].driver, steps[j]) && !FailsWithRecords(run[j], steps[j])
  {
    hide Start, Enabled, Apply, Inv, Due, PopsRecord, Swept, FailsWithRecords, PR.Finished, OnTheWay;
    var s := run[i];
    SessionKeepsInv(u, run, steps, i);
    NothingUnderway(u, run[0].driver, s);
    EveryRecordIsAccountedFor(u, run, steps, i);
    SessionMissesNone(u, run, steps, i);
    LostToFaults(u, run, steps, i);
    if s.lost == [] {
      assert [] + s.driver.list == s.driver.list;
    }
    if s.delivered + s.driver.list == Due(run[0].driver, s.driver) {
      SplitCounts(s.delivered, s.lost, s.driver.list, Swept(run, steps, i));
    }
  }
}
