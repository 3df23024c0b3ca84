/**
 The sessions cut out of the record list, the drop totals stamped into it, and the unload.
 */
module DriverSessions {
  import opened Common
  import opened Driver

  /** The control thread is past the Clear of ConnectNotify. */
  predicate InSession(c: Control) {
    || c.Connected? || c.Draining? || c.DrainHolding? || c.DrainCopied? || c.DrainReturning?
    || (c.Resetting? && c.goal.ToConnected?)
  }

  /** Everything the client may still be given was appended after its port was published. */
  ghost predicate SessionInv(s: State) {
    && s.published <= |s.log|
    && (InSession(s.control) ==> forall i :: 0 <= i < |s.list| ==> s.published <= s.list[i].position)
    && (s.control.DrainHolding? ==> s.published <= s.control.rec.position)
    && (forall i :: 0 <= i < |s.removed| && s.removed[i].Delivered? ==> s.removed[i].since <= s.removed[i].rec.position)
  }

  /** a was stamped no later than b as far as the drop counter can tell. */
  predicate StampedBefore(a: Stamp, b: Stamp) {
    a.resets < b.resets || (a.resets == b.resets && a.drops <= b.drops)
  }

  ghost predicate DropsInv(s: State) {
    && (forall i, j :: 0 <= i < j < |s.log| ==> StampedBefore(s.log[i], s.log[j]))
    && (forall i :: 0 <= i < |s.log| ==> StampedBefore(s.log[i], Stamp(0, 0, s.drops, s.resets)))
  }

  predicate Unloading(c: Control) {
    || c.Deleting? || c.Deleted?
    || ((c.Clearing? || c.ClearHolding? || c.ClearReturning? || c.Resetting?) && c.goal.ToDeleted?)
  }

  ghost predicate UnloadInv(s: State) {
    && (Unloading(s.control) <==> s.unregistered)
    && (s.unregistered ==> s.pc == map[] && s.inFlight == {})
    && ((s.control.Deleting? || s.control.Deleted? || (s.control.Resetting? && s.control.goal.ToDeleted?)) ==>
          s.list == [])
  }

  ghost predicate QueueInv(s: State) {
    SessionInv(s) && DropsInv(s) && UnloadInv(s)
  }

  lemma InitQueue(s: State)
    requires Init(s)
    ensures QueueInv(s)
  {
  }

  /** Steps of any thread that leave the list and the control thread alone. */
  lemma ThreadKeepsQueue(s: State, s': State)
    requires QueueInv(s) && !s.unregistered && !s'.unregistered
    requires s'.list == s.list && s'.log == s.log && s'.removed == s.removed && s'.control == s.control
    requires s'.published == s.published && s'.resets == s.resets && s.drops <= s'.drops
    ensures QueueInv(s')
  {
  }

  lemma AppendKeepsQueue(s: State, t: Tid)
    requires QueueInv(s) && !s.unregistered && t in s.pc && s.pc[t].Completing?
    ensures QueueInv(AfterAppend(s, t))
  {
  }

  lemma PopKeepsSession(s: State)
    requires SessionInv(s) && s.list != []
    ensures SessionInv(Popped(s))
  {
    var list := Popped(s).list;
    forall i | 0 <= i < |list| && InSession(s.control) ensures s.published <= list[i].position {
      assert list[i] == s.list[i + 1];
    }
  }

  lemma SweepPopKeepsQueue(s: State, t: Tid)
    requires QueueInv(s) && !s.unregistered && t in s.pc && s.pc[t].Sweeping?
    ensures QueueInv(AfterSweepPop(s, t))
  {
    if s.list != [] { PopKeepsSession(s); }
  }

  lemma SweepDecrementKeepsQueue(s: State, t: Tid)
    requires QueueInv(s) && !s.unregistered && t in s.pc && s.pc[t].SweepHolding?
    ensures QueueInv(AfterSweepDecrement(s, t))
  {
  }

  lemma SweepResetKeepsQueue(s: State, t: Tid)
    requires QueueInv(s) && !s.unregistered && t in s.pc && s.pc[t].SweepResetting?
    ensures QueueInv(AfterSweepReset(s, t))
  {
  }

  lemma DisconnectKeepsQueue(s: State, t: Tid)
    requires QueueInv(s) && s.control.Connected? && t !in s.pc
    ensures QueueInv(AfterDisconnect(s, t))
  {
  }

  lemma ClearPopKeepsQueue(s: State)
    requires QueueInv(s) && s.control.Clearing?
    ensures QueueInv(AfterClearPop(s))
  {
  }

  lemma DrainPopKeepsQueue(s: State)
    requires QueueInv(s) && s.control.Draining?
    ensures QueueInv(AfterDrainPop(s))
  {
    if s.list != [] { PopKeepsSession(s); }
  }

  lemma DrainCopyKeepsQueue(s: State, fault: bool)
    requires QueueInv(s) && s.control.DrainHolding?
    ensures QueueInv(AfterDrainCopy(s, fault))
  {
  }

  lemma ClearDecrementKeepsQueue(s: State)
    requires QueueInv(s) && s.control.ClearHolding?
    ensures QueueInv(AfterClearDecrement(s))
  {
  }

  lemma ConnectKeepsQueue(s: State)
    requires QueueInv(s) && s.control.Disconnected?
    ensures QueueInv(AfterConnect(s))
  {
  }

  lemma ResetKeepsQueue(s: State)
    requires QueueInv(s) && s.control.Resetting?
    ensures QueueInv(AfterReset(s))
  {
  }

  lemma UnregisterKeepsQueue(s: State)
    requires QueueInv(s) && s.control.Disconnected? && s.pc == map[] && s.inFlight == {}
    ensures QueueInv(AfterUnregister(s))
  {
  }

  /** The remaining steps of the control thread leave the list and the histories alone. */
  lemma QuietKeepsQueue(s: State)
    requires QueueInv(s)
    ensures s.control.ClearReturning? ==> QueueInv(AfterClearGiveBack(s))
    ensures forall size :: s.control.Connected? ==> QueueInv(AfterDrainStart(s, size))
    ensures s.control.DrainCopied? ==> QueueInv(AfterDrainDecrement(s))
    ensures s.control.DrainReturning? ==> QueueInv(AfterDrainGiveBack(s))
    ensures s.control.Deleting? ==> QueueInv(AfterDeleteLookaside(s))
  {
  }
}
