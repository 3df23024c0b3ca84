/**
 The allocation counter. The driver increments it before it compares, so it overshoots under
 races, and it gives blocks back after it decrements. These lemmas show what survives.
 */
module DriverCounters {
  import opened Common
  import opened Driver

  // ----- Who counts -----

  /** Threads whose increment of RecordsAllocated has not been undone. */
  predicate HasToken(p: Pc) {
    p.Reserved? || p.Allocating? || p.Undoing? || OwnsEntry(p)
  }

  /** Threads that own an entry. */
  predicate OwnsEntry(p: Pc) {
    p.Blank? || p.Filling? || p.Completing? || p.Discarding? || p.SweepHolding?
  }

  predicate HoldsBlock(p: Pc) { OwnsEntry(p) || IsReturning(p) }

  predicate IsReturning(p: Pc) { p.Returning? || p.SweepReturning? }

  /** Threads inside an AllocateEntry that cannot succeed any more. */
  predicate Fails(p: Pc, maxMemoryKb: nat) {
    p.Undoing? || (p.Reserved? && !Passes(p.count, maxMemoryKb))
  }

  ghost function Failing(maxMemoryKb: nat): Pc -> bool {
    (p: Pc) => Fails(p, maxMemoryKb)
  }

  /** Threads whose claim counts against the cap. */
  ghost function Granted(maxMemoryKb: nat): Pc -> bool {
    (p: Pc) => HasToken(p) && !Fails(p, maxMemoryKb)
  }

  function ControlOwns(c: Control): nat {
    Bit(c.ClearHolding? || c.DrainHolding? || c.DrainCopied?)
  }

  function ControlReturns(c: Control): nat {
    Bit(c.ClearReturning? || c.DrainReturning?)
  }

  ghost function Shared(s: State): nat { |s.inFlight| + |s.list| + ControlOwns(s.control) }

  /** Entries owned by callbacks, the Filter Manager, the list or the control thread. */
  ghost function LiveEntries(s: State): nat { Count(s.pc, OwnsEntry) + Shared(s) }

  ghost function Tokens(s: State): nat { Count(s.pc, HasToken) + Shared(s) }

  /** Lookaside blocks that have not been given back. */
  ghost function OutstandingBlocks(s: State): nat {
    Count(s.pc, HoldsBlock) + Shared(s) + ControlReturns(s.control)
  }

  ghost function GrantedEntries(s: State): nat {
    Count(s.pc, Granted(s.maxMemoryKb)) + Shared(s)
  }

  ghost predicate CountersInv(s: State) {
    && s.maxMemoryKb < TWO_32
    && |s.pc| <= MAX_THREADS
    && s.counter == Long(Tokens(s))
    && s.blocks == OutstandingBlocks(s)
    && GrantedEntries(s) <= MaxEntries(s.maxMemoryKb)
    && (forall t :: t in s.pc && s.pc[t].Allocating? ==> Granted(s.maxMemoryKb)(s.pc[t]))
  }

  // ----- The comparison -----

  /** For every 32-bit setting the cap itself fits in a LONG. */
  lemma CapFitsLong(maxMemoryKb: nat)
    requires maxMemoryKb < TWO_32
    ensures MaxEntries(maxMemoryKb) < 0x8000_0000
  {
  }

  /** The unsigned comparison of the wrapped counter is right as long as fewer than 2^32
      increments are pending, although the LONG turns negative halfway. */
  lemma ComparisonIsExact(pending: nat, maxMemoryKb: nat)
    requires maxMemoryKb < TWO_32
    requires pending < TWO_32
    ensures Passes(Long(pending), maxMemoryKb) <==> pending <= MaxEntries(maxMemoryKb)
  {
    CapFitsLong(maxMemoryKb);
  }

  // ----- One thread at a time -----

  /** What moving thread t to v does to each count. */
  lemma Moves(s: State, t: Tid, v: Pc)
    ensures Count(s.pc[t := v], HasToken) + Bit(t in s.pc && HasToken(s.pc[t]))
         == Count(s.pc, HasToken) + Bit(HasToken(v))
    ensures Count(s.pc[t := v], HoldsBlock) + Bit(t in s.pc && HoldsBlock(s.pc[t]))
         == Count(s.pc, HoldsBlock) + Bit(HoldsBlock(v))
    ensures Count(s.pc[t := v], Granted(s.maxMemoryKb)) + Bit(t in s.pc && Granted(s.maxMemoryKb)(s.pc[t]))
            == Count(s.pc, Granted(s.maxMemoryKb)) + Bit(Granted(s.maxMemoryKb)(v))
    ensures |s.pc[t := v]| == |s.pc| + Bit(t !in s.pc)
  {
    CountMove(s.pc, t, v, HasToken);
    CountMove(s.pc, t, v, HoldsBlock);
    CountMove(s.pc, t, v, Granted(s.maxMemoryKb));
    assert s.pc[t := v].Keys == s.pc.Keys + {t};
    assert |s.pc[t := v].Keys| == |s.pc.Keys| + Bit(t !in s.pc);
  }

  lemma Leaves(s: State, t: Tid)
    requires t in s.pc
    ensures Count(s.pc - {t}, HasToken) + Bit(HasToken(s.pc[t])) == Count(s.pc, HasToken)
    ensures Count(s.pc - {t}, HoldsBlock) + Bit(HoldsBlock(s.pc[t])) == Count(s.pc, HoldsBlock)
    ensures Count(s.pc - {t}, Granted(s.maxMemoryKb)) + Bit(Granted(s.maxMemoryKb)(s.pc[t]))
         == Count(s.pc, Granted(s.maxMemoryKb))
    ensures |s.pc - {t}| <= |s.pc|
  {
    CountLeave(s.pc, t, HasToken);
    CountLeave(s.pc, t, HoldsBlock);
    CountLeave(s.pc, t, Granted(s.maxMemoryKb));
    assert (s.pc - {t}).Keys == s.pc.Keys - {t};
    assert |(s.pc - {t}).Keys| <= |s.pc.Keys|;
  }

  /** Pending increments are accepted entries and threads that are about to fail. */
  lemma TokensSplit(s: State)
    ensures Tokens(s) <= GrantedEntries(s) + Count(s.pc, Failing(s.maxMemoryKb))
  {
    CountCover(s.pc, HasToken, Granted(s.maxMemoryKb), Failing(s.maxMemoryKb));
  }

  /** With at most MAX_THREADS threads inside the driver the counter cannot come round. */
  lemma TokensBelowWrap(s: State)
    requires CountersInv(s)
    ensures Tokens(s) + 1 < TWO_32
  {
    TokensSplit(s);
    CountAtMostAll(s.pc, Failing(s.maxMemoryKb));
  }

  // ----- Preservation -----

  lemma InitCounters(s: State)
    requires Init(s)
    ensures CountersInv(s)
  {
    assert At(s.pc, HasToken) == {} && At(s.pc, HoldsBlock) == {} && At(s.pc, Granted(s.maxMemoryKb)) == {};
  }

  /** What AllocateEntry learns from its increment: the comparison passes exactly if the cap
      has room for one more entry than are pending. */
  lemma IncrementJudged(s: State)
    requires CountersInv(s)
    ensures Long(s.counter + 1) == Long(Tokens(s) + 1)
    ensures Passes(Long(s.counter + 1), s.maxMemoryKb) <==> Tokens(s) + 1 <= MaxEntries(s.maxMemoryKb)
    ensures GrantedEntries(s) <= Tokens(s)
  {
    LongShift(Tokens(s), 1);
    TokensBelowWrap(s);
    ComparisonIsExact(Tokens(s) + 1, s.maxMemoryKb);
    SubsetCardinality(At(s.pc, Granted(s.maxMemoryKb)), At(s.pc, HasToken));
  }

  lemma ReserveKeepsCounters(s: State, t: Tid)
    requires CountersInv(s) && t in s.pc && s.pc[t].Entering?
    ensures CountersInv(AfterReserve(s, t))
  {
    IncrementJudged(s);
    hide Long;
    Moves(s, t, Reserved(s.pc[t].origin, Long(s.counter + 1)));
  }

  /** The ledger: a step that moves the counter, the blocks and the cap by the same amounts
      as the entries behind them keeps the invariant. */
  lemma Balanced(s: State, s': State, freed: bool)
    requires CountersInv(s)
    requires s'.maxMemoryKb == s.maxMemoryKb && |s'.pc| <= MAX_THREADS
    requires Tokens(s') + Bit(freed) == Tokens(s)
    requires s'.counter == if freed then Long(s.counter - 1) else s.counter
    requires s'.blocks - s.blocks == OutstandingBlocks(s') - OutstandingBlocks(s)
    requires GrantedEntries(s') <= GrantedEntries(s)
    requires forall t :: t in s'.pc && s'.pc[t].Allocating? ==> Granted(s.maxMemoryKb)(s'.pc[t])
    ensures CountersInv(s')
  {
    hide Long, Tokens, OutstandingBlocks, GrantedEntries, Granted;
    LongShift(Tokens(s), -1);
  }

  ghost function Claim(s: State, p: Pc): nat { Bit(Granted(s.maxMemoryKb)(p)) }

  /** A thread that goes to v: what it carried before is what it and the shared places carry after. */
  lemma MoveKeepsCounters(s: State, s': State, t: Tid, v: Pc, freed: bool)
    requires CountersInv(s)
    requires s'.maxMemoryKb == s.maxMemoryKb && s'.pc == s.pc[t := v] && (t !in s.pc ==> |s.pc| < MAX_THREADS)
    requires ControlReturns(s'.control) == ControlReturns(s.control)
    requires Bit(t in s.pc && HasToken(s.pc[t])) + Shared(s) == Bit(HasToken(v)) + Shared(s') + Bit(freed)
    requires s'.counter == if freed then Long(s.counter - 1) else s.counter
    requires s'.blocks - s.blocks == Bit(HoldsBlock(v)) + Shared(s') - Bit(t in s.pc && HoldsBlock(s.pc[t])) - Shared(s)
    requires Claim(s, v) + Shared(s') <= (if t in s.pc then Claim(s, s.pc[t]) else 0) + Shared(s)
    requires v.Allocating? ==> Claim(s, v) == 1
    ensures CountersInv(s')
  {
    Moves(s, t, v);
    Balanced(s, s', freed);
  }

  lemma LeaveKeepsCounters(s: State, s': State, t: Tid)
    requires CountersInv(s) && t in s.pc
    requires s'.maxMemoryKb == s.maxMemoryKb && s'.pc == s.pc - {t} && s'.counter == s.counter
    requires ControlReturns(s'.control) == ControlReturns(s.control)
    requires Bit(HasToken(s.pc[t])) + Shared(s) == Shared(s')
    requires s'.blocks - s.blocks == Shared(s') - Bit(HoldsBlock(s.pc[t])) - Shared(s)
    requires Shared(s') <= Claim(s, s.pc[t]) + Shared(s)
    ensures CountersInv(s')
  {
    Leaves(s, t);
    Balanced(s, s', false);
  }

  lemma EnterKeepsCounters(s: State, t: Tid, origin: Origin)
    requires CountersInv(s) && t !in s.pc && |s.pc| < MAX_THREADS
    ensures CountersInv(AfterEnter(s, t, origin))
  {
    MoveKeepsCounters(s, AfterEnter(s, t, origin), t, Entering(origin), false);
  }

  lemma JudgeKeepsCounters(s: State, t: Tid)
    requires CountersInv(s) && t in s.pc && s.pc[t].Reserved?
    ensures CountersInv(AfterJudge(s, t))
  {
    MoveKeepsCounters(s, AfterJudge(s, t), t, AfterJudge(s, t).pc[t], false);
  }

  lemma AllocateKeepsCounters(s: State, t: Tid, ok: bool)
    requires CountersInv(s) && t in s.pc && s.pc[t].Allocating?
    ensures CountersInv(AfterAllocate(s, t, ok))
  {
    MoveKeepsCounters(s, AfterAllocate(s, t, ok), t, AfterAllocate(s, t, ok).pc[t], false);
  }

  lemma UndoKeepsCounters(s: State, t: Tid)
    requires CountersInv(s) && t in s.pc && s.pc[t].Undoing?
    ensures CountersInv(AfterUndo(s, t))
  {
    MoveKeepsCounters(s, AfterUndo(s, t), t, Dropping, true);
  }

  lemma DropKeepsCounters(s: State, t: Tid)
    requires CountersInv(s) && t in s.pc && s.pc[t].Dropping?
    ensures CountersInv(AfterDrop(s, t))
  {
    LeaveKeepsCounters(s, AfterDrop(s, t), t);
  }

  lemma NumberKeepsCounters(s: State, t: Tid)
    requires CountersInv(s) && t in s.pc && s.pc[t].Blank?
    ensures CountersInv(AfterNumber(s, t))
  {
    MoveKeepsCounters(s, AfterNumber(s, t), t, AfterNumber(s, t).pc[t], false);
  }

  /** The Filter Manager must not already hold what it is given; ownership provides that. */
  lemma FillKeepsCounters(s: State, t: Tid)
    requires CountersInv(s) && t in s.pc && s.pc[t].Filling?
    requires s.pc[t].origin.Operation? ==> s.pc[t].id !in s.inFlight
    ensures CountersInv(AfterFill(s, t))
  {
    if s.pc[t].origin.Operation? {
      LeaveKeepsCounters(s, AfterFill(s, t), t);
    } else {
      MoveKeepsCounters(s, AfterFill(s, t), t, Completing(s.pc[t].id), false);
    }
  }

  lemma PostKeepsCounters(s: State, t: Tid, id: nat, draining: bool)
    requires CountersInv(s) && t !in s.pc && id in s.inFlight && |s.pc| < MAX_THREADS
    ensures CountersInv(AfterPost(s, t, id, draining))
  {
    MoveKeepsCounters(s, AfterPost(s, t, id, draining), t, AfterPost(s, t, id, draining).pc[t], false);
  }

  lemma AppendKeepsCounters(s: State, t: Tid)
    requires CountersInv(s) && t in s.pc && s.pc[t].Completing?
    ensures CountersInv(AfterAppend(s, t))
  {
    LeaveKeepsCounters(s, AfterAppend(s, t), t);
  }

  lemma DecrementKeepsCounters(s: State, t: Tid)
    requires CountersInv(s) && t in s.pc && s.pc[t].Discarding?
    ensures CountersInv(AfterDecrement(s, t))
  {
    MoveKeepsCounters(s, AfterDecrement(s, t), t, Returning, true);
  }

  lemma GiveBackKeepsCounters(s: State, t: Tid)
    requires CountersInv(s) && t in s.pc && s.pc[t].Returning?
    ensures CountersInv(AfterGiveBack(s, t))
  {
    LeaveKeepsCounters(s, AfterGiveBack(s, t), t);
  }

  lemma ClearPopKeepsCounters(s: State)
    requires CountersInv(s) && s.control.Clearing?
    ensures CountersInv(AfterClearPop(s))
  {
    Balanced(s, AfterClearPop(s), false);
  }

  lemma DrainPopKeepsCounters(s: State)
    requires CountersInv(s) && s.control.Draining?
    ensures CountersInv(AfterDrainPop(s))
  {
    Balanced(s, AfterDrainPop(s), false);
  }

  lemma DecrementsKeepCounters(s: State)
    requires CountersInv(s)
    ensures s.control.ClearHolding? ==> CountersInv(AfterClearDecrement(s))
    ensures s.control.DrainCopied? ==> CountersInv(AfterDrainDecrement(s))
  {
    if s.control.ClearHolding? {
      Balanced(s, AfterClearDecrement(s), true);
    } else if s.control.DrainCopied? {
      Balanced(s, AfterDrainDecrement(s), true);
    }
  }

  lemma CopyKeepsCounters(s: State, fault: bool)
    requires CountersInv(s) && s.control.DrainHolding?
    ensures CountersInv(AfterDrainCopy(s, fault))
  {
    Balanced(s, AfterDrainCopy(s, fault), false);
  }

  lemma ReturnsKeepCounters(s: State)
    requires CountersInv(s)
    ensures s.control.ClearReturning? ==> CountersInv(AfterClearGiveBack(s))
    ensures s.control.DrainReturning? ==> CountersInv(AfterDrainGiveBack(s))
  {
    if s.control.ClearReturning? {
      Balanced(s, AfterClearGiveBack(s), false);
    } else if s.control.DrainReturning? {
      Balanced(s, AfterDrainGiveBack(s), false);
    }
  }

  lemma DisconnectKeepsCounters(s: State, t: Tid)
    requires CountersInv(s) && s.control.Connected? && t !in s.pc && |s.pc| < MAX_THREADS
    ensures CountersInv(AfterDisconnect(s, t))
  {
    MoveKeepsCounters(s, AfterDisconnect(s, t), t, Sweeping, false);
  }

  lemma SweepPopKeepsCounters(s: State, t: Tid)
    requires CountersInv(s) && t in s.pc && s.pc[t].Sweeping?
    ensures CountersInv(AfterSweepPop(s, t))
  {
    MoveKeepsCounters(s, AfterSweepPop(s, t), t, AfterSweepPop(s, t).pc[t], false);
  }

  lemma SweepDecrementKeepsCounters(s: State, t: Tid)
    requires CountersInv(s) && t in s.pc && s.pc[t].SweepHolding?
    ensures CountersInv(AfterSweepDecrement(s, t))
  {
    MoveKeepsCounters(s, AfterSweepDecrement(s, t), t, SweepReturning, true);
  }

  lemma SweepGiveBackKeepsCounters(s: State, t: Tid)
    requires CountersInv(s) && t in s.pc && s.pc[t].SweepReturning?
    ensures CountersInv(AfterSweepGiveBack(s, t))
  {
    MoveKeepsCounters(s, AfterSweepGiveBack(s, t), t, Sweeping, false);
  }

  lemma SweepResetKeepsCounters(s: State, t: Tid)
    requires CountersInv(s) && t in s.pc && s.pc[t].SweepResetting?
    ensures CountersInv(AfterSweepReset(s, t))
  {
    LeaveKeepsCounters(s, AfterSweepReset(s, t), t);
  }

  predicate HoldsNothing(c: Control) { ControlOwns(c) == 0 && ControlReturns(c) == 0 }

  /** Steps that only move the control thread between points where it holds nothing. */
  lemma QuietKeepsCounters(s: State, s': State)
    requires CountersInv(s) && HoldsNothing(s.control) && HoldsNothing(s'.control)
    requires s'.maxMemoryKb == s.maxMemoryKb && s'.counter == s.counter && s'.blocks == s.blocks
    requires s'.pc == s.pc && s'.inFlight == s.inFlight && s'.list == s.list
    ensures CountersInv(s')
  {
  }
}
