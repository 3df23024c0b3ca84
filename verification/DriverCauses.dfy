/**
 Why each thing happens in a run of the driver: which operations get an entry and which are
 dropped, what a drop total counts, what the log holds, and how a drain ends.
 */
module DriverCauses {
  import opened Common
  import opened Driver
  import opened DriverCounters
  import opened DriverRuns
  import opened DriverEvents

  // ----- Totals and the log -----

  /** How many operations were dropped since the total was last reset. */
  function DropsSince(steps: seq<Step>, n: nat): nat
    requires n <= |steps|
  {
    if n == 0 then 0
    else
      match steps[n - 1]
      case Drop(_) => DropsSince(steps, n - 1) + 1
      case Reset => 0
      case SweepReset(_) => 0
      case _ => DropsSince(steps, n - 1)
  }

  function ResetsIn(steps: seq<Step>, n: nat): nat
    requires n <= |steps|
  {
    if n == 0 then 0 else ResetsIn(steps, n - 1) + Bit(steps[n - 1].Reset? || steps[n - 1].SweepReset?)
  }

  /** What the appends so far have put into the log: each its entry, with the totals of that moment. */
  function LogOf(run: seq<State>, steps: seq<Step>, n: nat): seq<Stamp>
    requires n <= |steps| < |run|
  {
    if n == 0 then []
    else
      var before, step, s := LogOf(run, steps, n - 1), steps[n - 1], run[n - 1];
      if step.Append? && step.t in s.pc && s.pc[step.t].Completing? then
        before + [Stamp(|before|, s.pc[step.t].id, DropsSince(steps, n - 1), ResetsIn(steps, n - 1))]
      else before
  }

  ghost predicate SameRecords(s: State, s': State) {
    s'.drops == s.drops && s'.resets == s.resets && s'.log == s.log
  }

  lemma AllocationRecords(s: State, step: Step)
    requires Enabled(s, step) && InAllocation(step) && !step.Drop?
    ensures SameRecords(s, Apply(s, step))
  {
  }

  lemma EntryRecords(s: State, step: Step)
    requires Enabled(s, step) && WithEntry(step) && !step.Append?
    ensures SameRecords(s, Apply(s, step))
  {
  }

  lemma SweepRecords(s: State, step: Step)
    requires Enabled(s, step) && InSweep(step) && !step.SweepReset?
    ensures SameRecords(s, Apply(s, step))
  {
  }

  lemma ControlRecords(s: State, step: Step)
    requires Enabled(s, step) && OnControl(step) && !step.Reset?
    ensures SameRecords(s, Apply(s, step))
  {
  }

  lemma MarkedStepRecords(s: State, step: Step)
    requires Enabled(s, step) && (step.Drop? || step.Append? || step.SweepReset? || step.Reset?)
    ensures var s' := Apply(s, step);
            && s'.drops == (if step.Drop? then s.drops + 1 else if step.Append? then s.drops else 0)
            && s'.resets == s.resets + Bit(step.Reset? || step.SweepReset?)
            && (step.Append? ==> step.t in s.pc && s.pc[step.t].Completing?)
            && s'.log == s.log + if step.Append? then [Stamp(|s.log|, s.pc[step.t].id, s.drops, s.resets)] else []
  {
  }

  lemma StepRecords(s: State, step: Step)
    requires Enabled(s, step) && !(step.Drop? || step.Append? || step.SweepReset? || step.Reset?)
    ensures SameRecords(s, Apply(s, step))
  {
    hide Apply, Enabled, SameRecords;
    if OnControl(step) {
      ControlRecords(s, step);
    } else if InAllocation(step) {
      AllocationRecords(s, step);
    } else if WithEntry(step) {
      EntryRecords(s, step);
    } else {
      SweepRecords(s, step);
    }
  }

  /** The drop total counts the operations dropped since its last reset, and the log holds the appended entries in
      order, each stamped with the total of its append. */
  lemma {:induction false} TotalsAreCounted(run: seq<State>, steps: seq<Step>, i: nat)
    requires IsHistory(run, steps) && i < |run|
    ensures run[i].drops == DropsSince(steps, i) && run[i].resets == ResetsIn(steps, i)
    ensures run[i].log == LogOf(run, steps, i)
  {
    hide Apply, Enabled;
    if i > 0 {
      hide Init;
      TotalsAreCounted(run, steps, i - 1);
      var step := steps[i - 1];
      if step.Drop? || step.Append? || step.SweepReset? || step.Reset? {
        MarkedStepRecords(run[i - 1], step);
      } else {
        StepRecords(run[i - 1], step);
      }
    }
  }

  // ----- Who gets an entry -----

  function LastEnter(steps: seq<Step>, n: nat, t: Tid): Option<Origin>
    requires n <= |steps|
  {
    if n == 0 then None
    else
      var step := steps[n - 1];
      if step.Enter? && step.t == t then Some(step.origin) else LastEnter(steps, n - 1, t)
  }

  /** When thread t last incremented the counter. */
  function LastReserve(steps: seq<Step>, n: nat, t: Tid): (r: Option<nat>)
    requires n <= |steps|
    ensures r.Some? ==> r.value < n
  {
    if n == 0 then None
    else if steps[n - 1] == Reserve(t) then Some(n - 1)
    else LastReserve(steps, n - 1, t)
  }

  /** The lookaside list has failed thread t since then. */
  function AllocationFailed(steps: seq<Step>, n: nat, t: Tid): bool
    requires n <= |steps|
  {
    if n == 0 || steps[n - 1] == Reserve(t) then false
    else steps[n - 1] == Allocate(t, false) || AllocationFailed(steps, n - 1, t)
  }

  /** When it incremented the counter, the entries and attempts pending, its own included, were within the cap. */
  ghost predicate FoundRoom(run: seq<State>, steps: seq<Step>, n: nat, t: Tid)
    requires n <= |steps| < |run|
  {
    var r := LastReserve(steps, n, t);
    r.Some? && Tokens(run[r.value]) + 1 <= MaxEntries(run[r.value].maxMemoryKb)
  }

  /** The claim of thread t succeeds: room at its increment, and a block. */
  ghost predicate Earns(run: seq<State>, steps: seq<Step>, n: nat, t: Tid)
    requires n <= |steps| < |run|
  {
    FoundRoom(run, steps, n, t) && !AllocationFailed(steps, n, t)
  }

  /** What the counter showed thread t is what was pending. */
  ghost predicate CountIsPending(run: seq<State>, steps: seq<Step>, n: nat, t: Tid, count: Int32)
    requires n <= |steps| < |run|
  {
    var r := LastReserve(steps, n, t);
    && r.Some? && run[r.value].maxMemoryKb == run[n].maxMemoryKb
    && (Passes(count, run[n].maxMemoryKb) <==> FoundRoom(run, steps, n, t))
  }

  /** Where a thread stands fits what its own steps have met. */
  ghost predicate Stands(run: seq<State>, steps: seq<Step>, n: nat, t: Tid, p: Pc)
    requires n <= |steps| < |run|
  {
    match p
    case Entering(origin) => LastEnter(steps, n, t) == Some(origin)
    case Reserved(origin, count) =>
      && LastEnter(steps, n, t) == Some(origin) && !AllocationFailed(steps, n, t)
      && CountIsPending(run, steps, n, t, count)
    case Allocating(origin) => LastEnter(steps, n, t) == Some(origin) && Earns(run, steps, n, t)
    case Undoing => !Earns(run, steps, n, t)
    case Dropping => !Earns(run, steps, n, t)
    case Blank(origin) => LastEnter(steps, n, t) == Some(origin) && Earns(run, steps, n, t)
    case Filling(origin, _) => LastEnter(steps, n, t) == Some(origin) && Earns(run, steps, n, t)
    case _ => true
  }

  lemma SettingStays(s: State, step: Step)
    requires Enabled(s, step)
    ensures Apply(s, step).maxMemoryKb == s.maxMemoryKb
  {
  }

  /** A step that is not thread t's. */
  predicate ByOther(step: Step, t: Tid) {
    OnControl(step) || step.t != t
  }

  lemma OthersLeaveThread(s: State, step: Step, t: Tid)
    requires Enabled(s, step) && ByOther(step, t)
    ensures StandsAt(Apply(s, step).pc, t) == StandsAt(s.pc, t)
  {
    if OnControl(step) {
      hide Apply, Enabled;
      ControlMovesNoEntry(s, step);
    } else {
      StepMovesOnly(s, step);
    }
  }

  lemma OthersLeaveStory(run: seq<State>, steps: seq<Step>, n: nat, t: Tid, p: Pc)
    requires n < |steps| < |run| && ByOther(steps[n], t) && Stands(run, steps, n, t, p)
    requires run[n + 1].maxMemoryKb == run[n].maxMemoryKb
    ensures Stands(run, steps, n + 1, t, p)
  {
    assert LastEnter(steps, n + 1, t) == LastEnter(steps, n, t);
    assert LastReserve(steps, n + 1, t) == LastReserve(steps, n, t);
    assert AllocationFailed(steps, n + 1, t) == AllocationFailed(steps, n, t);
    hide LastEnter, LastReserve, AllocationFailed, Tokens, MaxEntries, Passes;
  }

  lemma ReserveStands(run: seq<State>, steps: seq<Step>, n: nat, t: Tid)
    requires n < |steps| < |run| && steps[n] == Reserve(t) && t in run[n].pc && run[n].pc[t].Entering?
    requires Reachable(run[n]) && Stands(run, steps, n, t, run[n].pc[t]) && run[n + 1].maxMemoryKb == run[n].maxMemoryKb
    ensures Stands(run, steps, n + 1, t, Reserved(run[n].pc[t].origin, Long(run[n].counter + 1)))
  {
    ReachableInv(run[n]);
    hide Reachable;
    IncrementJudged(run[n]);
    hide CountersInv, Tokens, Passes, MaxEntries, Long;
    assert LastReserve(steps, n + 1, t) == Some(n);
  }

  /** What the other steps of thread t do to its story. */
  lemma OwnStepStory(run: seq<State>, steps: seq<Step>, n: nat, t: Tid)
    requires n < |steps| < |run| && !ByOther(steps[n], t) && !steps[n].Reserve?
    ensures LastReserve(steps, n + 1, t) == LastReserve(steps, n, t)
    ensures LastEnter(steps, n + 1, t) == if steps[n].Enter? then Some(steps[n].origin) else LastEnter(steps, n, t)
    ensures AllocationFailed(steps, n + 1, t) <==> steps[n] == Allocate(t, false) || AllocationFailed(steps, n, t)
    ensures FoundRoom(run, steps, n + 1, t) <==> FoundRoom(run, steps, n, t)
  {
    hide Tokens, MaxEntries;
  }

  lemma OwnAllocationStands(run: seq<State>, steps: seq<Step>, n: nat, t: Tid)
    requires n < |steps| < |run| && !ByOther(steps[n], t) && InAllocation(steps[n]) && !steps[n].Reserve?
    requires Enabled(run[n], steps[n]) && run[n + 1] == Apply(run[n], steps[n])
    requires t in run[n].pc ==> Stands(run, steps, n, t, run[n].pc[t])
    ensures t in run[n + 1].pc ==> Stands(run, steps, n + 1, t, run[n + 1].pc[t])
  {
    hide FoundRoom, LastReserve, LastEnter, AllocationFailed, Passes;
    OwnStepStory(run, steps, n, t);
  }

  lemma OwnEntryStands(run: seq<State>, steps: seq<Step>, n: nat, t: Tid)
    requires n < |steps| < |run| && !ByOther(steps[n], t) && WithEntry(steps[n])
    requires Enabled(run[n], steps[n]) && run[n + 1] == Apply(run[n], steps[n])
    requires t in run[n].pc ==> Stands(run, steps, n, t, run[n].pc[t])
    ensures t in run[n + 1].pc ==> Stands(run, steps, n + 1, t, run[n + 1].pc[t])
  {
    hide FoundRoom, LastReserve, LastEnter, AllocationFailed, Passes;
    OwnStepStory(run, steps, n, t);
  }

  lemma OwnSweepStands(run: seq<State>, steps: seq<Step>, n: nat, t: Tid)
    requires n < |steps| < |run| && !ByOther(steps[n], t) && InSweep(steps[n])
    requires Enabled(run[n], steps[n]) && run[n + 1] == Apply(run[n], steps[n])
    requires t in run[n].pc ==> Stands(run, steps, n, t, run[n].pc[t])
    ensures t in run[n + 1].pc ==> Stands(run, steps, n + 1, t, run[n + 1].pc[t])
  {
    hide FoundRoom, LastReserve, LastEnter, AllocationFailed, Passes;
    OwnStepStory(run, steps, n, t);
  }

  /** Each thread stands where its own steps have led it. */
  lemma {:induction false} ThreadsStand(run: seq<State>, steps: seq<Step>, i: nat, t: Tid)
    requires IsHistory(run, steps) && i < |run|
    ensures t in run[i].pc ==> Stands(run, steps, i, t, run[i].pc[t])
  {
    hide Apply, Enabled, Stands;
    if i > 0 {
      hide Init;
      ThreadsStand(run, steps, i - 1, t);
      var n, step := (i - 1) as nat, steps[i - 1];
      SettingStays(run[n], step);
      HistoryIsReachable(run, steps, n);
      hide Reachable;
      if ByOther(step, t) {
        OthersLeaveThread(run[n], step, t);
        if t in run[n].pc { OthersLeaveStory(run, steps, n, t, run[n].pc[t]); }
      } else if step.Reserve? {
        ReserveMoves(run[n], step);
        ReserveStands(run, steps, n, t);
      } else if InAllocation(step) {
        OwnAllocationStands(run, steps, n, t);
      } else if WithEntry(step) {
        OwnEntryStands(run, steps, n, t);
      } else {
        OwnSweepStands(run, steps, n, t);
      }
    }
  }

  lemma ReserveMoves(s: State, step: Step)
    requires Enabled(s, step) && step.Reserve?
    ensures var t, s' := step.t, Apply(s, step);
            && t in s.pc && s.pc[t].Entering?
            && t in s'.pc && s'.pc[t] == Reserved(s.pc[t].origin, Long(s.counter + 1))
  {
    hide Long;
  }

  /** An operation is dropped only if the entries and attempts pending at its increment, its own included, exceeded
      the cap, or the lookaside list failed it; a number is given only to one that met neither. */
  lemma DroppedForCause(run: seq<State>, steps: seq<Step>, j: nat)
    requires IsHistory(run, steps) && j < |steps|
    ensures steps[j].Drop? ==> !Earns(run, steps, j, steps[j].t)
    ensures steps[j].Number? ==> Earns(run, steps, j, steps[j].t)
  {
    if steps[j].Drop? || steps[j].Number? {
      ThreadsStand(run, steps, j, steps[j].t);
      hide Apply, Earns, LastEnter;
    }
  }

  /** An entry asks for a post callback if and only if its thread entered for an operation. */
  lemma FilledForOrigin(run: seq<State>, steps: seq<Step>, j: nat, id: nat, asks: bool)
    requires IsHistory(run, steps) && j < |steps| && id in FilledBy(run[j], steps[j], asks)
    ensures LastEnter(steps, j, steps[j].t).Some?
    ensures asks <==> LastEnter(steps, j, steps[j].t).value.Operation?
  {
    ThreadsStand(run, steps, j, steps[j].t);
    hide Apply, Earns, LastEnter;
  }

  // ----- Sessions and drains -----

  predicate InDrain(c: Control) { c.Draining? || c.DrainHolding? || c.DrainCopied? || c.DrainReturning? }

  /** A client's port is published. */
  predicate PortOpen(c: Control) {
    || c.Connected? || InDrain(c)
    || ((c.Clearing? || c.ClearHolding? || c.ClearReturning? || c.Resetting?) && c.goal.ToConnected?)
  }

  lemma AllocationLeavesSession(s: State, step: Step)
    requires Enabled(s, step) && InAllocation(step)
    ensures Apply(s, step).port == s.port && Apply(s, step).control == s.control
  {
  }

  lemma EntryLeavesSession(s: State, step: Step)
    requires Enabled(s, step) && WithEntry(step)
    ensures Apply(s, step).port == s.port && Apply(s, step).control == s.control
  {
  }

  lemma ThreadsLeaveSession(s: State, step: Step)
    requires Enabled(s, step) && !OnControl(step) && !step.Disconnect?
    ensures Apply(s, step).port == s.port && Apply(s, step).control == s.control
  {
    if InAllocation(step) {
      AllocationLeavesSession(s, step);
      hide Apply, Enabled;
    } else if WithEntry(step) {
      EntryLeavesSession(s, step);
      hide Apply, Enabled;
    }
  }

  lemma ControlKeepsPort(s: State, step: Step)
    requires Enabled(s, step) && (OnControl(step) || step.Disconnect?) && (s.port <==> PortOpen(s.control))
    ensures Apply(s, step).port <==> PortOpen(Apply(s, step).control)
  {
  }

  /** The port is published from a connect to its disconnect, and operations are traced only then. */
  lemma {:induction false} PortIsOpen(run: seq<State>, steps: seq<Step>, i: nat)
    requires IsHistory(run, steps) && i < |run|
    ensures run[i].port <==> PortOpen(run[i].control)
    ensures i < |steps| && steps[i].Enter? ==> PortOpen(run[i].control)
  {
    hide Apply, PortOpen;
    if i == 0 {
      hide Enabled;
      NothingOpenAtFirst(run[0]);
    } else {
      hide Init;
      PortIsOpen(run, steps, i - 1);
      if OnControl(steps[i - 1]) || steps[i - 1].Disconnect? {
        ControlKeepsPort(run[i - 1], steps[i - 1]);
      } else {
        ThreadsLeaveSession(run[i - 1], steps[i - 1]);
      }
    }
    if i < |steps| && steps[i].Enter? { EntersOpen(run[i], steps[i]); }
  }

  lemma NothingOpenAtFirst(s: State)
    requires Init(s)
    ensures !s.port && !PortOpen(s.control)
  {
  }

  lemma EntersOpen(s: State, step: Step)
    requires Enabled(s, step) && step.Enter?
    ensures s.port
  {
  }

  /** The size the drain under way was asked for. */
  function AskedSize(steps: seq<Step>, n: nat): nat
    requires n <= |steps|
  {
    if n == 0 then 0 else if steps[n - 1].DrainStart? then steps[n - 1].size else AskedSize(steps, n - 1)
  }

  /** How many records it has handed over. */
  function HandedOver(run: seq<State>, steps: seq<Step>, n: nat): nat
    requires n <= |steps| < |run|
  {
    if n == 0 || steps[n - 1].DrainStart? then 0
    else HandedOver(run, steps, n - 1) + Bit(|run[n].removed| > |run[n - 1].removed| && steps[n - 1].DrainCopy?)
  }

  /** The written size is what was handed over, and it fits what was asked for. */
  ghost predicate Measures(c: Control, asked: nat, handed: nat) {
    match c
    case Draining(size, written) => size == asked && written == handed * RECORD_SIZE <= size
    case DrainHolding(size, written, _) => size == asked && written == handed * RECORD_SIZE <= size
    case DrainCopied(size, written) => size == asked && written + RECORD_SIZE == handed * RECORD_SIZE <= size
    case DrainReturning(size, written) => size == asked && written + RECORD_SIZE == handed * RECORD_SIZE <= size
    case _ => true
  }

  lemma ControlMeasures(s: State, step: Step, asked: nat, handed: nat)
    requires Enabled(s, step) && OnControl(step) && Measures(s.control, asked, handed)
    ensures var s' := Apply(s, step);
            if step.DrainStart? then Measures(s'.control, step.size, 0)
            else Measures(s'.control, asked, handed + Bit(|s'.removed| > |s.removed| && step.DrainCopy?))
  {
  }

  /** A drain hands over what its written size says, never more than it was asked for. */
  lemma {:induction false} DrainMeasures(run: seq<State>, steps: seq<Step>, i: nat)
    requires IsHistory(run, steps) && i < |run|
    ensures Measures(run[i].control, AskedSize(steps, i), HandedOver(run, steps, i))
  {
    hide Apply, Enabled, Measures;
    if i == 0 {
      MeasuresNothing(run[0]);
    } else {
      hide Init;
      DrainMeasures(run, steps, i - 1);
      var s, step := run[i - 1], steps[i - 1];
      if OnControl(step) {
        ControlMeasures(s, step, AskedSize(steps, i - 1), HandedOver(run, steps, i - 1));
      } else if step.Disconnect? {
        DisconnectMeasures(s, step, AskedSize(steps, i), HandedOver(run, steps, i));
      } else {
        ThreadsLeaveSession(s, step);
      }
    }
  }

  lemma MeasuresNothing(s: State)
    requires Init(s)
    ensures Measures(s.control, 0, 0)
  {
  }

  lemma DisconnectMeasures(s: State, step: Step, asked: nat, handed: nat)
    requires Enabled(s, step) && step.Disconnect?
    ensures Measures(Apply(s, step).control, asked, handed)
  {
  }

  /** A drain ends if and only if it finds the list empty, or holds a record that does not fit or whose copy faults. */
  lemma DrainEnds(s: State, step: Step)
    requires Enabled(s, step) && InDrain(s.control)
    ensures Apply(s, step).control == Connected
            <==> || (step.DrainPop? && s.list == [])
                 || (step.DrainCopy? && (step.fault || s.control.size - s.control.written < RECORD_SIZE))
    ensures InDrain(Apply(s, step).control) || Apply(s, step).control == Connected
  {
    if !OnControl(step) && !step.Disconnect? {
      ThreadsLeaveSession(s, step);
    }
  }

  // ----- No step is missing -----

  /** A thread inside the driver can always go on. */
  lemma ThreadGoesOn(s: State, t: Tid)
    requires t in s.pc
    ensures exists step :: Enabled(s, step) && !OnControl(step) && step.t == t
  {
    var step :=
      match s.pc[t]
      case Entering(_) => Reserve(t)
      case Reserved(_, _) => Judge(t)
      case Allocating(_) => Allocate(t, true)
      case Undoing => Undo(t)
      case Dropping => Drop(t)
      case Blank(_) => Number(t)
      case Filling(_, _) => Fill(t)
      case Completing(_) => Append(t)
      case Discarding(_) => Decrement(t)
      case Returning => GiveBack(t)
      case Sweeping => SweepPop(t)
      case SweepHolding(_) => SweepDecrement(t)
      case SweepReturning => SweepGiveBack(t)
      case SweepResetting => SweepReset(t);
    assert Enabled(s, step) && !OnControl(step) && step.t == t;
  }

  /** So can the control thread until the lookaside list is deleted. */
  lemma ControlGoesOn(run: seq<State>, steps: seq<Step>, i: nat)
    requires IsHistory(run, steps) && i < |run| && run[i].control != Deleted
    ensures exists step :: Enabled(run[i], step) && OnControl(step)
  {
    var s := run[i];
    PortIsOpen(run, steps, i);
    HistoryIsReachable(run, steps, i);
    ReachableInv(s);
    hide IsHistory, Reachable;
    ControlStep(s);
  }

  lemma ControlStep(s: State)
    requires s.control != Deleted && (s.control.Disconnected? ==> !s.port && !s.unregistered)
    ensures exists step :: Enabled(s, step) && OnControl(step)
  {
    var step :=
      match s.control
      case Disconnected => Connect
      case Connected => DrainStart(1)
      case Clearing(_) => ClearPop
      case ClearHolding(_, _) => ClearDecrement
      case ClearReturning(_) => ClearGiveBack
      case Resetting(_) => Reset
      case Draining(_, _) => DrainPop
      case DrainHolding(_, _, _) => DrainCopy(false)
      case DrainCopied(_, _) => DrainDecrement
      case DrainReturning(_, _) => DrainGiveBack
      case Deleting => DeleteLookaside;
    assert Enabled(s, step) && OnControl(step);
  }

  /** Callbacks come at any time while a client is connected, post callbacks with or without the draining flag, and
      allocations succeed or fail. */
  lemma CallbacksAreFree(s: State, t: Tid, id: nat, origin: Origin, yes: bool)
    ensures t in s.pc && s.pc[t].Allocating? ==> Enabled(s, Allocate(t, yes))
    ensures t !in s.pc && |s.pc| < MAX_THREADS && s.port && !s.unregistered ==> Enabled(s, Enter(t, origin))
    ensures t !in s.pc && |s.pc| < MAX_THREADS && id in s.inFlight ==> Enabled(s, Post(t, id, yes))
  {
  }

  /** Clients connect when there is none, ask for as much as they like and leave at any time, copies fault or do not,
      and the driver is unloaded when nothing is under way. */
  lemma ClientsAreFree(s: State, t: Tid, size: nat, yes: bool)
    ensures s.control.Disconnected? && !s.port && !s.unregistered ==> Enabled(s, Connect)
    ensures s.control.Connected? && 0 < size < TWO_32 ==> Enabled(s, DrainStart(size))
    ensures s.control.DrainHolding? ==> Enabled(s, DrainCopy(yes))
    ensures s.control.Connected? && t !in s.pc && |s.pc| < MAX_THREADS ==> Enabled(s, Disconnect(t))
    ensures s.control.Disconnected? && !s.unregistered && s.pc == map[] && s.inFlight == {} ==> Enabled(s, Unregister)
  {
  }
}
