/**
 What holds in every state of every run of the driver.
 */
module DriverRuns {
  import opened Common
  import opened Driver
  import opened DriverCounters
  import opened DriverOwnership
  import opened DriverLog
  import opened DriverSessions

  ghost predicate Inv(s: State) {
    CountersInv(s) && OwnershipInv(s) && LogInv(s) && QueueInv(s)
  }

  // ----- Every step keeps the invariant -----

  predicate InAllocation(step: Step) {
    step.Enter? || step.Reserve? || step.Judge? || step.Allocate? || step.Undo? || step.Drop?
  }

  lemma AllocationKeepsCounters(s: State, step: Step)
    requires CountersInv(s) && Enabled(s, step) && InAllocation(step)
    ensures CountersInv(Apply(s, step))
  {
    match step
    case Enter(t, origin) => EnterKeepsCounters(s, t, origin);
    case Reserve(t) => ReserveKeepsCounters(s, t);
    case Judge(t) => JudgeKeepsCounters(s, t);
    case Allocate(t, ok) => AllocateKeepsCounters(s, t, ok);
    case Undo(t) => UndoKeepsCounters(s, t);
    case Drop(t) => DropKeepsCounters(s, t);
  }

  lemma AllocationKeepsOwnership(s: State, step: Step)
    requires OwnershipInv(s) && Enabled(s, step) && InAllocation(step)
    ensures OwnershipInv(Apply(s, step))
  {
    hide OwnershipInv;
    match step
    case Enter(t, origin) => EmptyHandedKeepsOwnership(s, AfterEnter(s, t, origin), t);
    case Reserve(t) => EmptyHandedKeepsOwnership(s, AfterReserve(s, t), t);
    case Judge(t) => EmptyHandedKeepsOwnership(s, AfterJudge(s, t), t);
    case Allocate(t, ok) => EmptyHandedKeepsOwnership(s, AfterAllocate(s, t, ok), t);
    case Undo(t) => EmptyHandedKeepsOwnership(s, AfterUndo(s, t), t);
    case Drop(t) => EmptyHandedKeepsOwnership(s, AfterDrop(s, t), t);
  }

  lemma AllocationKeepsOthers(s: State, step: Step)
    requires OwnershipInv(s) && LogInv(s) && QueueInv(s) && Enabled(s, step) && !s.unregistered && InAllocation(step)
    ensures OwnershipInv(Apply(s, step)) && LogInv(Apply(s, step)) && QueueInv(Apply(s, step))
  {
    hide OwnershipInv, LogInv, QueueInv;
    AllocationKeepsOwnership(s, step);
    QuietKeepsLog(s, Apply(s, step));
    ThreadKeepsQueue(s, Apply(s, step));
  }

  predicate WithEntry(step: Step) {
    step.Number? || step.Fill? || step.Post? || step.Append? || step.Decrement? || step.GiveBack?
  }

  lemma EntryKeepsCounters(s: State, step: Step)
    requires CountersInv(s) && OwnershipInv(s) && Enabled(s, step) && WithEntry(step)
    ensures CountersInv(Apply(s, step)) && OwnershipInv(Apply(s, step))
  {
    hide CountersInv;
    match step
    case Number(t) =>
      NumberKeepsCounters(s, t);
      NumberKeepsOwnership(s, t);
    case Fill(t) =>
      FillKeepsOwnership(s, t);
      FillKeepsCounters(s, t);
    case Post(t, id, draining) =>
      PostKeepsCounters(s, t, id, draining);
      PostKeepsOwnership(s, t, id, draining);
    case Append(t) =>
      AppendKeepsCounters(s, t);
      AppendKeepsOwnership(s, t);
    case Decrement(t) =>
      DecrementKeepsCounters(s, t);
      DecrementKeepsOwnership(s, t);
    case GiveBack(t) =>
      GiveBackKeepsCounters(s, t);
      EmptyHandedKeepsOwnership(s, AfterGiveBack(s, t), t);
  }

  lemma EntryKeepsQueue(s: State, step: Step)
    requires LogInv(s) && QueueInv(s) && Enabled(s, step) && !s.unregistered && WithEntry(step)
    ensures LogInv(Apply(s, step)) && QueueInv(Apply(s, step))
  {
    hide LogInv, QueueInv;
    if step.Append? {
      AppendKeepsLog(s, step.t);
      AppendKeepsQueue(s, step.t);
    } else {
      QuietKeepsLog(s, Apply(s, step));
      ThreadKeepsQueue(s, Apply(s, step));
    }
  }

  /** The disconnect and the Clear it leaves behind. */
  predicate InSweep(step: Step) {
    step.Disconnect? || step.SweepPop? || step.SweepDecrement? || step.SweepGiveBack? || step.SweepReset?
  }

  lemma SweepKeepsOwnership(s: State, step: Step)
    requires OwnershipInv(s) && Enabled(s, step) && InSweep(step)
    ensures OwnershipInv(Apply(s, step))
  {
    hide OwnershipInv;
    match step
    case Disconnect(t) => EmptyHandedKeepsOwnership(s, AfterDisconnect(s, t), t);
    case SweepPop(t) => EmptyHandedKeepsOwnership(s, AfterSweepPop(s, t), t);
    case SweepDecrement(t) => EmptyHandedKeepsOwnership(s, AfterSweepDecrement(s, t), t);
    case SweepGiveBack(t) => EmptyHandedKeepsOwnership(s, AfterSweepGiveBack(s, t), t);
    case SweepReset(t) => EmptyHandedKeepsOwnership(s, AfterSweepReset(s, t), t);
  }

  lemma SweepKeepsCounters(s: State, step: Step)
    requires CountersInv(s) && Enabled(s, step) && InSweep(step)
    ensures CountersInv(Apply(s, step))
  {
    hide CountersInv;
    match step
    case Disconnect(t) => DisconnectKeepsCounters(s, t);
    case SweepPop(t) => SweepPopKeepsCounters(s, t);
    case SweepDecrement(t) => SweepDecrementKeepsCounters(s, t);
    case SweepGiveBack(t) => SweepGiveBackKeepsCounters(s, t);
    case SweepReset(t) => SweepResetKeepsCounters(s, t);
  }

  lemma SweepKeepsLog(s: State, step: Step)
    requires LogInv(s) && Enabled(s, step) && InSweep(step)
    ensures LogInv(Apply(s, step))
  {
    hide LogInv;
    if step.SweepPop? {
      SweepPopKeepsLog(s, step.t);
    } else if step.SweepDecrement? {
      SweepDecrementKeepsLog(s, step.t);
    } else {
      QuietKeepsLog(s, Apply(s, step));
    }
  }

  lemma SweepKeepsQueue(s: State, step: Step)
    requires QueueInv(s) && Enabled(s, step) && !s.unregistered && InSweep(step)
    ensures QueueInv(Apply(s, step))
  {
    hide QueueInv;
    match step
    case Disconnect(t) => DisconnectKeepsQueue(s, t);
    case SweepPop(t) => SweepPopKeepsQueue(s, t);
    case SweepDecrement(t) => SweepDecrementKeepsQueue(s, t);
    case SweepGiveBack(t) => ThreadKeepsQueue(s, Apply(s, step));
    case SweepReset(t) => SweepResetKeepsQueue(s, t);
  }

  /** Steps of the control thread by itself. */
  predicate OnControl(step: Step) { !InAllocation(step) && !WithEntry(step) && !InSweep(step) }

  lemma ControlKeepsLog(s: State, step: Step)
    requires LogInv(s) && Enabled(s, step) && OnControl(step)
    ensures LogInv(Apply(s, step))
  {
    hide LogInv;
    if (step.ClearPop? || step.DrainPop?) && s.list != [] {
      ControlPopKeepsLog(s, Apply(s, step));
    } else if step.ClearDecrement? {
      ClearDecrementKeepsLog(s);
    } else if step.DrainCopy? {
      DrainCopyKeepsLog(s, step.fault);
    } else {
      QuietKeepsLog(s, Apply(s, step));
    }
  }

  lemma ControlKeepsQueue(s: State, step: Step)
    requires QueueInv(s) && Enabled(s, step) && OnControl(step)
    ensures QueueInv(Apply(s, step))
  {
    hide QueueInv;
    match step
    case Connect => ConnectKeepsQueue(s);
    case ClearPop => ClearPopKeepsQueue(s);
    case ClearDecrement => ClearDecrementKeepsQueue(s);
    case ClearGiveBack => QuietKeepsQueue(s);
    case Reset => ResetKeepsQueue(s);
    case DrainStart(size) => QuietKeepsQueue(s);
    case DrainPop => DrainPopKeepsQueue(s);
    case DrainCopy(fault) => DrainCopyKeepsQueue(s, fault);
    case DrainDecrement => QuietKeepsQueue(s);
    case DrainGiveBack => QuietKeepsQueue(s);
    case Unregister => UnregisterKeepsQueue(s);
    case DeleteLookaside => QuietKeepsQueue(s);
  }

  predicate MovesEntries(step: Step) {
    || step.ClearPop? || step.DrainPop? || step.ClearDecrement? || step.DrainDecrement?
    || step.ClearGiveBack? || step.DrainGiveBack? || step.DrainCopy?
  }

  lemma ControlKeepsCounters(s: State, step: Step)
    requires CountersInv(s) && Enabled(s, step) && OnControl(step)
    ensures CountersInv(Apply(s, step))
  {
    hide CountersInv;
    if !MovesEntries(step) {
      QuietKeepsCounters(s, Apply(s, step));
    } else if step.ClearPop? {
      ClearPopKeepsCounters(s);
    } else if step.DrainPop? {
      DrainPopKeepsCounters(s);
    } else if step.ClearDecrement? || step.DrainDecrement? {
      DecrementsKeepCounters(s);
    } else if step.ClearGiveBack? || step.DrainGiveBack? {
      ReturnsKeepCounters(s);
    } else {
      CopyKeepsCounters(s, step.fault);
    }
  }

  lemma ControlKeepsOwnership(s: State, step: Step)
    requires OwnershipInv(s) && Enabled(s, step) && OnControl(step)
    ensures OwnershipInv(Apply(s, step))
  {
    hide OwnershipInv;
    ControlMovesNoEntry(s, step);
    SamePartsKeepOwnership(s, Apply(s, step));
  }

  lemma ControlMovesNoEntry(s: State, step: Step)
    requires Enabled(s, step) && OnControl(step)
    ensures var s' := Apply(s, step);
            && s'.pc == s.pc && s'.inFlight == s.inFlight && s'.log == s.log && s'.discarded == s.discarded
            && s'.issued == s.issued
  {
  }

  /** Nothing but the control thread moves once the filter is unregistered. */
  lemma OnlyControlAfterUnregister(s: State, step: Step)
    requires QueueInv(s) && Enabled(s, step) && !OnControl(step)
    ensures !s.unregistered
  {
  }

  lemma StepKeepsInv(s: State, step: Step)
    requires Inv(s) && Enabled(s, step)
    ensures Inv(Apply(s, step))
  {
    hide CountersInv, OwnershipInv, LogInv;
    if OnControl(step) {
      ControlKeepsCounters(s, step);
      ControlKeepsOwnership(s, step);
      ControlKeepsLog(s, step);
      ControlKeepsQueue(s, step);
    } else {
      OnlyControlAfterUnregister(s, step);
      hide QueueInv;
      if WithEntry(step) {
        EntryKeepsCounters(s, step);
        EntryKeepsQueue(s, step);
      } else if InSweep(step) {
        SweepKeepsCounters(s, step);
        SweepKeepsOwnership(s, step);
        SweepKeepsLog(s, step);
        SweepKeepsQueue(s, step);
      } else {
        AllocationKeepsCounters(s, step);
        AllocationKeepsOthers(s, step);
      }
    }
  }

  // ----- Runs -----

  ghost predicate Next(s: State, s': State) {
    exists step :: Enabled(s, step) && s' == Apply(s, step)
  }

  ghost predicate IsRun(run: seq<State>) {
    && run != []
    && Init(run[0])
    && (forall i :: 0 < i < |run| ==> Next(run[i - 1], run[i]))
  }

  ghost predicate Reachable(s: State) {
    exists run :: IsRun(run) && run[|run| - 1] == s
  }

  lemma {:induction false} RunKeepsInv(run: seq<State>)
    requires IsRun(run)
    ensures Inv(run[|run| - 1])
  {
    if |run| == 1 {
      InitCounters(run[0]);
      InitOwnership(run[0]);
      InitLog(run[0]);
      InitQueue(run[0]);
    } else {
      var front := run[..|run| - 1];
      forall i | 0 < i < |front|
        ensures Next(front[i - 1], front[i])
      {
        assert front[i - 1] == run[i - 1] && front[i] == run[i];
      }
      RunKeepsInv(front);
      var s, s' := run[|run| - 2], run[|run| - 1];
      assert Next(s, s');
      var step :| Enabled(s, step) && s' == Apply(s, step);
      StepKeepsInv(s, step);
    }
  }

  lemma ReachableStep(s: State, step: Step)
    requires Reachable(s) && Enabled(s, step)
    ensures Reachable(Apply(s, step))
  {
    var run :| IsRun(run) && run[|run| - 1] == s;
    var longer := run + [Apply(s, step)];
    forall i | 0 < i < |longer|
      ensures Next(longer[i - 1], longer[i])
    {
      if i == |run| {
        assert Enabled(longer[i - 1], step);
      } else {
        assert Next(run[i - 1], run[i]);
      }
    }
    assert IsRun(longer);
  }

  lemma ReachableInv(s: State)
    requires Reachable(s)
    ensures Inv(s)
  {
    var run :| IsRun(run) && run[|run| - 1] == s;
    RunKeepsInv(run);
  }

  // ----- The memory cap -----

  /** Threads between their increment and the end of AllocateEntry. */
  predicate InAllocateEntry(p: Pc) { p.Reserved? || p.Allocating? || p.Undoing? }

  lemma TokensAreEntriesAndAttempts(s: State)
    ensures Tokens(s) == LiveEntries(s) + Count(s.pc, InAllocateEntry)
  {
    var entries, attempts := At(s.pc, OwnsEntry), At(s.pc, InAllocateEntry);
    assert entries !! attempts;
    assert At(s.pc, HasToken) == entries + attempts;
  }

  lemma BlocksAreEntriesAndReturns(s: State)
    ensures OutstandingBlocks(s) == LiveEntries(s) + Count(s.pc, IsReturning) + ControlReturns(s.control)
  {
    var entries, returning := At(s.pc, OwnsEntry), At(s.pc, IsReturning);
    assert entries !! returning;
    assert At(s.pc, HoldsBlock) == entries + returning;
  }

  /** Live entries never exceed the configured cap although the counter may; the counter is
      exactly the live entries and the attempts in progress, and it has not come round. Blocks
      exceed the entries only by threads between their decrement and their free. */
  lemma MemoryCap(s: State)
    requires Reachable(s)
    ensures LiveEntries(s) <= MaxEntries(s.maxMemoryKb) < 0x8000_0000
    ensures s.counter == Long(LiveEntries(s) + Count(s.pc, InAllocateEntry))
    ensures LiveEntries(s) + Count(s.pc, InAllocateEntry) < TWO_32
    ensures s.blocks == LiveEntries(s) + Count(s.pc, IsReturning) + ControlReturns(s.control)
  {
    hide Reachable, OwnershipInv, LogInv, QueueInv, CountersInv;
    ReachableInv(s);
    CapOfCounters(s);
  }

  lemma CapOfCounters(s: State)
    requires CountersInv(s)
    ensures LiveEntries(s) <= MaxEntries(s.maxMemoryKb) < 0x8000_0000
    ensures s.counter == Long(LiveEntries(s) + Count(s.pc, InAllocateEntry))
    ensures LiveEntries(s) + Count(s.pc, InAllocateEntry) < TWO_32
    ensures s.blocks == LiveEntries(s) + Count(s.pc, IsReturning) + ControlReturns(s.control)
  {
    hide Long, MaxEntries, OutstandingBlocks, Tokens;
    CapFitsLong(s.maxMemoryKb);
    TokensAreEntriesAndAttempts(s);
    TokensBelowWrap(s);
    BlocksAreEntriesAndReturns(s);
    LiveAreGranted(s);
  }

  lemma LiveAreGranted(s: State)
    ensures LiveEntries(s) <= GrantedEntries(s)
  {
    SubsetCardinality(At(s.pc, OwnsEntry), At(s.pc, Granted(s.maxMemoryKb)));
  }

  /** In bytes: live entries of 2936 bytes each stay within the configured memory. */
  lemma MemoryInBytes(s: State)
    requires Reachable(s)
    ensures LiveEntries(s) * 2936 <= s.maxMemoryKb * 1024
  {
    MemoryCap(s);
    hide *;
    EntriesFit(LiveEntries(s), s.maxMemoryKb);
  }

  lemma EntriesFit(n: nat, maxMemoryKb: nat)
    requires n <= MaxEntries(maxMemoryKb)
    ensures n * 2936 <= maxMemoryKb * 1024
  {
    EntriesFillMemory(maxMemoryKb);
    hide MaxEntries;
  }

  // ----- Conservation and ownership -----

  /** Every number handed out is at exactly one place: with one thread, with the Filter Manager,
      at one position of the append log, or discarded. No other number is anywhere. */
  lemma EveryEntryAtOnePlace(s: State, id: nat)
    requires Reachable(s)
    ensures 1 <= id <= s.issued <==> exists place :: Occupies(s, id, place)
    ensures forall a, b :: Occupies(s, id, a) && Occupies(s, id, b) ==> a == b
  {
    ReachableInv(s);
    if 1 <= id <= s.issued {
      SomePlace(s, id);
    }
    forall a, b | Occupies(s, id, a) && Occupies(s, id, b)
      ensures a == b && 1 <= id <= s.issued
    {
      OnePlaceOnly(s, id, a, b);
    }
  }

  /** No entry is appended twice, and none is both appended and discarded. */
  lemma AppendedOnce(s: State, i: nat, j: nat)
    requires Reachable(s) && i < |s.log| && j < |s.log|
    ensures s.log[i].id == s.log[j].id ==> i == j
    ensures s.log[i].id !in s.discarded && s.log[i].id !in s.inFlight
    ensures forall t :: t in s.pc ==> !Carries(s.pc[t], s.log[i].id)
  {
    var id := s.log[i].id;
    assert Occupies(s, id, Logged(i));
    EveryEntryAtOnePlace(s, id);
    if s.log[j].id == id {
      assert Occupies(s, id, Logged(j));
    }
    assert !Occupies(s, id, Discarded);
    assert !Occupies(s, id, WithFilterManager);
    forall t | t in s.pc
      ensures !Carries(s.pc[t], id)
    {
      assert !Occupies(s, id, AtThread(t));
    }
  }

  /** The record's sequenceNumber field. */
  function SequenceNumber(rec: Stamp): nat { rec.id % TWO_32 }

  /** As long as at most 2^32 numbers were handed out, a sequence number names one record. */
  lemma SequenceNumbersDistinct(s: State, i: nat, j: nat)
    requires Reachable(s) && s.issued <= TWO_32 && i < |s.log| && j < |s.log|
    ensures SequenceNumber(s.log[i]) == SequenceNumber(s.log[j]) <==> i == j
  {
    assert Occupies(s, s.log[i].id, Logged(i)) && Occupies(s, s.log[j].id, Logged(j));
    EveryEntryAtOnePlace(s, s.log[i].id);
    EveryEntryAtOnePlace(s, s.log[j].id);
    if s.log[i].id == s.log[j].id {
      assert Occupies(s, s.log[i].id, Logged(j));
    }
  }

  // ----- Order and sessions -----

  /** The list is the rest of the append log in order, but for one record a drain has pushed
      back before it, and Drain delivers in append order. */
  lemma FirstInFirstOut(s: State)
    requires Reachable(s)
    ensures s.taken <= |s.log|
    ensures if HasPushedBack(s) then Genuine(s.log, s.list[0]) && s.list == [s.list[0]] + s.log[s.taken..]
            else s.list == s.log[s.taken..]
    ensures forall i :: 0 <= i < |s.removed| ==> Genuine(s.log, s.removed[i].rec)
    ensures forall i, j :: 0 <= i < j < |s.removed| && s.removed[i].Delivered? && s.removed[j].Delivered? ==>
              s.removed[i].rec.position < s.removed[j].rec.position
  {
    hide Reachable, CountersInv, OwnershipInv, QueueInv, SpotInv, Genuine;
    ReachableInv(s);
    if HasPushedBack(s) {
      assert s.list == [s.list[0]] + s.list[1..];
    }
  }

  /** Every position popped so far is at exactly one spot: gone for good, held by the control
      thread, held by the Clear of one disconnect, or pushed back. No other position is. */
  lemma EveryRecordAtOneSpot(s: State, p: nat)
    requires Reachable(s)
    ensures p < s.taken <==> exists spot :: Stands(s, p, spot)
    ensures forall a, b :: Stands(s, p, a) && Stands(s, p, b) ==> a == b
  {
    hide Reachable, CountersInv, OwnershipInv, QueueInv, Stands, ListInv, DeliveryInv;
    ReachableInv(s);
    if p < s.taken { SomeSpot(s, p); }
    if spot :| Stands(s, p, spot) { OneSpotOnly(s, p, spot, spot); }
    forall a, b | Stands(s, p, a) && Stands(s, p, b)
      ensures a == b
    {
      OneSpotOnly(s, p, a, b);
    }
  }

  /** A record handed to a client was appended after that client's port had been published. */
  lemma SessionIsolation(s: State, i: nat)
    requires Reachable(s) && i < |s.removed| && s.removed[i].Delivered?
    ensures Genuine(s.log, s.removed[i].rec) && s.removed[i].since <= s.removed[i].rec.position
  {
    ReachableInv(s);
  }

  // ----- Unload -----

  /** The record at this position was taken off the list for good. */
  ghost predicate TakenForGood(s: State, p: nat) {
    exists i: nat :: Stands(s, p, Gone(i))
  }

  /** When the lookaside list is deleted nothing is outstanding: no block, no pending count, no
      record in the list. */
  lemma NothingLeaksAtUnload(s: State)
    requires Reachable(s) && (s.control.Deleting? || s.control.Deleted?)
    ensures s.blocks == 0 && s.counter == 0 && s.list == []
  {
    hide Reachable, OwnershipInv, LogInv, SessionInv, DropsInv;
    ReachableInv(s);
    assert At(s.pc, HasToken) == {} && At(s.pc, HoldsBlock) == {};
  }

  /** ... every record ever appended was taken off it for good, */
  lemma EveryRecordLeaves(s: State, p: nat)
    requires Reachable(s) && (s.control.Deleting? || s.control.Deleted?) && p < |s.log|
    ensures TakenForGood(s, p)
  {
    hide Reachable, CountersInv, OwnershipInv, DeliveryInv, SessionInv, DropsInv;
    ReachableInv(s);
    SomeSpot(s, p);
    var spot :| Stands(s, p, spot);
    assert Stands(s, p, Gone(spot.index));
  }

  /** ... and every entry ever created was appended or discarded. */
  lemma EveryEntryLeaves(s: State, id: nat)
    requires Reachable(s) && (s.control.Deleting? || s.control.Deleted?) && 1 <= id <= s.issued
    ensures id in s.discarded || exists p: nat :: Occupies(s, id, Logged(p)) && TakenForGood(s, p)
  {
    EveryEntryAtOnePlace(s, id);
    hide Reachable, CountersInv, OwnershipInv, LogInv, SessionInv, DropsInv, TakenForGood;
    ReachableInv(s);
    var place :| Occupies(s, id, place);
    if place.Logged? {
      EveryRecordLeaves(s, place.position);
      assert Occupies(s, id, Logged(place.position));
    }
  }

  /** Unloading is final: the only step left is to delete the lookaside list. */
  lemma UnloadIsFinal(s: State, step: Step)
    requires Reachable(s) && (s.control.Deleting? || s.control.Deleted?) && Enabled(s, step)
    ensures s.control.Deleting? && step.DeleteLookaside?
  {
    ReachableInv(s);
  }
}
