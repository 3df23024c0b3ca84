/**
 Why the drop-total lemma speaks about resets: ConnectNotify resets the total after it has seen
 the list empty, so a record appended in between is followed by records with smaller totals, and
 one drain delivers both.
 */
module DriverResets {
  import opened Common
  import opened Driver
  import opened DriverRuns
  import opened DriverTotals

  /** Room for an allocation by a thread that is not in the driver yet. */
  ghost predicate Calm(s: State, t: Tid) {
    && Reachable(s) && s.port && !s.unregistered && t !in s.pc && |s.pc| < MAX_THREADS
    && 0 <= s.counter < MaxEntries(s.maxMemoryKb) < 0x8000_0000
  }

  lemma Take(s: State, step: Step) returns (s': State)
    requires Reachable(s) && Enabled(s, step)
    ensures s' == Apply(s, step) && Reachable(s')
  {
    ReachableStep(s, step);
    s' := Apply(s, step);
  }

  lemma Attempt(s: State, t: Tid, origin: Origin) returns (s': State)
    requires Calm(s, t)
    ensures Reachable(s') && s' == s.(counter := s.counter + 1, pc := s.pc[t := Reserved(origin, s.counter + 1)])
  {
    hide Reachable;
    var entered := Take(s, Enter(t, origin));
    assert Long(s.counter + 1) == s.counter + 1;
    s' := Take(entered, Reserve(t));
    assert s'.pc == s.pc[t := Reserved(origin, s.counter + 1)];
  }

  /** A thread gets as far as the lookaside list. */
  lemma Claim(s: State, t: Tid, origin: Origin) returns (s': State)
    requires Calm(s, t)
    ensures Reachable(s') && s' == s.(counter := s.counter + 1, pc := s.pc[t := Allocating(origin)])
  {
    hide Reachable;
    var reserved := Attempt(s, t, origin);
    s' := Take(reserved, Judge(t));
    assert s'.pc == s.pc[t := Allocating(origin)];
  }

  /** The lookaside list has failed: the attempt is taken back. */
  lemma Undoes(s: State, t: Tid) returns (s': State)
    requires Reachable(s) && t in s.pc && s.pc[t].Allocating? && 0 < s.counter < 0x8000_0000
    ensures Reachable(s') && s' == s.(counter := s.counter - 1, pc := s.pc[t := Dropping])
  {
    hide Reachable;
    var failed := Take(s, Allocate(t, false));
    assert Long(s.counter - 1) == s.counter - 1;
    s' := Take(failed, Undo(t));
    assert s'.pc == s.pc[t := Dropping];
  }

  lemma DropOne(s: State, t: Tid) returns (s': State)
    requires Calm(s, t)
    ensures Calm(s', t) && s' == s.(drops := s.drops + 1)
  {
    hide Reachable;
    var claimed := Claim(s, t, Notification);
    var dropping := Undoes(claimed, t);
    s' := Take(dropping, Drop(t));
    assert s'.pc == s.pc;
  }

  lemma AppendOne(s: State, t: Tid) returns (s': State)
    requires Calm(s, t) && s.counter + 1 < MaxEntries(s.maxMemoryKb)
    ensures Calm(s', t)
    ensures var rec := Stamp(|s.log|, s.issued + 1, s.drops, s.resets);
            s' == s.(counter := s.counter + 1, blocks := s.blocks + 1, issued := s.issued + 1,
                     list := s.list + [rec], log := s.log + [rec])
  {
    hide Reachable;
    var a := Claim(s, t, Notification);
    var b := Take(a, Allocate(t, true));
    var c := Take(b, Number(t));
    var d := Take(c, Fill(t));
    s' := Take(d, Append(t));
    assert s'.pc == s.pc;
  }

  /** One drained record. */
  lemma DrainOne(s: State) returns (s': State)
    requires Reachable(s) && s.control.Draining? && s.list != [] && 0 < s.counter
    requires s.control.size - s.control.written >= RECORD_SIZE
    ensures Reachable(s')
    ensures s' == Popped(s).(counter := s.counter - 1, blocks := s.blocks - 1,
                     removed := s.removed + [Removed.Delivered(s.list[0], s.published)],
                     control := Draining(s.control.size, s.control.written + RECORD_SIZE))
  {
    hide Reachable;
    var a := Take(s, DrainPop);
    var b := Take(a, DrainCopy(false));
    var c := Take(b, DrainDecrement);
    s' := Take(c, DrainGiveBack);
  }

  const START := State(50 * 1024, 0, 0, 0, 0, false, false, map[], {}, [], Disconnected, [], [], 0, {}, 0, 0)

  lemma StartIsReachable()
    ensures Reachable(START)
  {
    assert IsRun([START]);
  }

  /** A client has connected, one allocation has failed, and the list has been seen empty. */
  lemma SeenEmptyBeforeReset() returns (s: State)
    ensures Calm(s, 0) && s == START.(port := true, drops := 1, control := Resetting(ToConnected))
  {
    hide Reachable;
    StartIsReachable();
    var connecting := Take(START, Connect);
    var dropped := DropOne(connecting, 0);
    s := Take(dropped, ClearPop);
  }

  /** A drop before the reset, one append on either side of it. */
  lemma TwoRecordsAroundReset() returns (s: State)
    ensures Reachable(s) && s.control == Connected && s.published == 0 && s.removed == [] && s.pc == map[]
    ensures !s.unregistered
    ensures s.list == s.log == [Stamp(0, 1, 1, 0), Stamp(1, 2, 0, 1)] && s.counter == 2
  {
    hide Reachable;
    var resetting := SeenEmptyBeforeReset();
    var one := AppendOne(resetting, 0);
    var connected := Take(one, Reset);
    s := AppendOne(connected, 0);
  }

  /** One drain of some run delivers a batch whose last drop total is not its maximum. */
  lemma ResetInsideBatch()
    ensures exists s :: Reachable(s)
              && s.control == Draining(2 * RECORD_SIZE, 2 * RECORD_SIZE) && |s.removed| == 2
              && s.removed[0].Delivered? && s.removed[1].Delivered?
              && s.removed[0].since == s.removed[1].since
              && DroppedRecords(s.removed[0].rec) > DroppedRecords(s.removed[1].rec)
  {
    hide Reachable;
    var s := TwoRecordsAroundReset();
    var draining := Take(s, DrainStart(2 * RECORD_SIZE));
    var one := DrainOne(draining);
    var two := DrainOne(one);
    assert two.removed == [Removed.Delivered(Stamp(0, 1, 1, 0), 0), Removed.Delivered(Stamp(1, 2, 0, 1), 0)];
  }

  /** A Clear that holds a record while the next client's connect is about to pop. */
  lemma SweepBesideConnect() returns (s: State)
    ensures Reachable(s) && s.port && s.control == Clearing(ToConnected) && s.list == [Stamp(1, 2, 0, 1)]
    ensures 0 in s.pc && s.pc[0] == SweepHolding(Stamp(0, 1, 1, 0))
  {
    hide Reachable;
    var s0 := TwoRecordsAroundReset();
    var s1 := Take(s0, Disconnect(0));
    var s2 := Take(s1, Connect);
    s := Take(s2, SweepPop(0));
  }

  /** The Clear of a disconnect does run beside the next client: each holds a record of its own. */
  lemma TwoHolders()
    ensures exists s :: Reachable(s) && s.port && s.control.ClearHolding?
              && 0 in s.pc && s.pc[0].SweepHolding? && s.pc[0].rec != s.control.rec
  {
    hide Reachable;
    var s := SweepBesideConnect();
    var s' := Take(s, ClearPop);
  }

  lemma FirstConnects() returns (s: State)
    ensures Calm(s, 0) && s == START.(port := true, resets := 1, control := Connected)
  {
    hide Reachable;
    StartIsReachable();
    var a := Take(START, Connect);
    var b := Take(a, ClearPop);
    s := Take(b, Reset);
  }

  /** A client has come and gone and left a record; its clearing has not begun to pop. */
  lemma LeftOneRecord() returns (s: State)
    ensures Reachable(s) && s.control == Disconnected && !s.port && !s.unregistered && s.counter == 1
    ensures s.pc == map[0 := Sweeping] && s.list == s.log == [Stamp(0, 1, 0, 1)] && s.maxMemoryKb == START.maxMemoryKb
  {
    hide Reachable;
    var connected := FirstConnects();
    var one := AppendOne(connected, 0);
    s := Take(one, Disconnect(0));
  }

  /** A clearing on the control thread gives one record back. */
  lemma ClearsOne(s: State) returns (s': State)
    requires Reachable(s) && s.control.Clearing? && s.list != [] && s.counter == 1
    ensures Reachable(s')
    ensures s' == Popped(s).(counter := 0, blocks := s.blocks - 1, removed := s.removed + [Cleared(s.list[0])])
  {
    hide Reachable;
    var a := Take(s, ClearPop);
    var b := Take(a, ClearDecrement);
    assert b.counter == 0;
    s' := Take(b, ClearGiveBack);
  }

  /** The next client's connect empties the list beside the clearing that was left over. */
  lemma ConnectsBeside(s: State) returns (s': State)
    requires Reachable(s) && s.control == Disconnected && !s.port && !s.unregistered && s.counter == 1 && |s.list| == 1
    ensures Reachable(s') && s'.control == Connected && s'.port && !s'.unregistered && s'.counter == 0
    ensures s'.pc == s.pc && s'.list == [] && s'.log == s.log && s'.published == |s.log|
    ensures s'.maxMemoryKb == s.maxMemoryKb
  {
    hide Reachable;
    var connecting := Take(s, Connect);
    var emptied := ClearsOne(connecting);
    var seen := Take(emptied, ClearPop);
    s' := Take(seen, Reset);
  }

  /** A clearing that a disconnect left over finds a record that was appended after the next client's connect. */
  lemma LateClearing() returns (s: State)
    ensures Reachable(s) && s.control == Connected && s.pc == map[0 := Sweeping] && s.published == 1
    ensures |s.list| == 1 && s.published <= s.list[0].position
  {
    hide Reachable;
    var left := LeftOneRecord();
    var connected := ConnectsBeside(left);
    s := AppendOne(connected, 1);
  }
}
