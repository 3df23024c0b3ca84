/**
 The driver's record store under concurrency: callbacks on any number of threads, the port's
 connect/drain/disconnect sequence and the unload sequence, interleaved in every possible way.

 One step is one interlocked operation, one section under the list lock, or one call into the
 system. Steps are labels, so a run is a sequence of labels: whatever the system chooses
 (failures, scheduling, which operation completes when) is part of the label.
 */
module Driver {
  import opened Common

  // ----- Widths and sizes -----

  const RECORD_SIZE: nat := 2920        // sizeof(protocol::Record)
  const ENTRY_SIZE: nat := 2936         // LIST_ENTRY and a record
  const MAX_THREADS: nat := 0x8000_0000 // thread identities are 32-bit and even

  type Int32 = x: int | -0x8000_0000 <= x < 0x8000_0000

  /** The value a LONG holds after arithmetic whose exact result is x. */
  function Long(x: int): Int32 {
    var low := x % TWO_32;
    if low < 0x8000_0000 then low else low - TWO_32
  }

  /** A LONG holds the low 32 bits. */
  lemma LongKeepsLowBits(x: int)
    ensures Long(x) % 0x1_0000_0000 == x % 0x1_0000_0000
    ensures -0x8000_0000 <= x < 0x8000_0000 ==> Long(x) == x
  {
  }

  /** LONG arithmetic may be done exactly first and cut to 32 bits at the end. */
  lemma LongShift(x: int, d: int)
    ensures Long(Long(x) + d) == Long(x + d)
  {
    var k := (Long(x) - x) / TWO_32;
    assert Long(x) == x + k * TWO_32;
    var q := (x + d) / TWO_32;
    assert x + d + k * TWO_32 == (q + k) * TWO_32 + (x + d) % TWO_32;
  }

  /** static_cast<ULONGLONG> of a LONG: sign extension. */
  function Ulonglong(x: Int32): nat {
    if x < 0 then x + 0x1_0000_0000_0000_0000 else x
  }

  function MaxEntries(maxMemoryKb: nat): nat { maxMemoryKb * 1024 / ENTRY_SIZE }

  /** As many entries as fit in so many kilobytes, and no fewer. */
  lemma EntriesFillMemory(maxMemoryKb: nat)
    ensures MaxEntries(maxMemoryKb) * 2936 <= maxMemoryKb * 1024 < (MaxEntries(maxMemoryKb) + 1) * 2936
  {
  }

  // ----- State -----

  datatype Origin = Operation | Shutdown | Notification

  /** Where a thread inside the driver stands, with the locals that matter. */
  datatype Pc =
    | Entering(origin: Origin)               // IsConnected returned true
    | Reserved(origin: Origin, count: Int32) // after InterlockedIncrement(&RecordsAllocated)
    | Allocating(origin: Origin)             // count accepted
    | Undoing                                // over the cap, or the lookaside list failed
    | Dropping                               // before InterlockedIncrement(&DroppedRecords)
    | Blank(origin: Origin)                  // owns an entry that has no number yet
    | Filling(origin: Origin, id: nat)       // CreateEntry returned
    | Completing(id: nat)                    // before Append
    | Discarding(id: nat)                    // post callback with the draining flag
    | Returning                              // decremented, block not yet given back
    // the Clear of DisconnectNotify, which the next client need not wait for
    | Sweeping                               // before RemoveHead
    | SweepHolding(rec: Stamp)
    | SweepReturning
    | SweepResetting                         // list seen empty

  /** A record as Append leaves it: its number, the drop total stamped into it, and (history
      only) its position in the append log and how often the drop total had been reset before. */
  datatype Stamp = Stamp(position: nat, id: nat, drops: nat, resets: nat)

  /** What became of a record that left the list for good. */
  datatype Removed = Delivered(rec: Stamp, since: nat) | Cleared(rec: Stamp)

  /** Where a Clear loop leads. */
  datatype Goal = ToConnected | ToDeleted

  /** The single thread that handles port notifications and messages, then the unload. It leaves
      the Clear of a disconnect to a thread of its own. */
  datatype Control =
    | Disconnected
    | Connected
    | Clearing(goal: Goal)                   // before RemoveHead
    | ClearHolding(goal: Goal, rec: Stamp)
    | ClearReturning(goal: Goal)
    | Resetting(goal: Goal)                  // list seen empty
    | Draining(size: nat, written: nat)      // before RemoveHead
    | DrainHolding(size: nat, written: nat, rec: Stamp)
    | DrainCopied(size: nat, written: nat)
    | DrainReturning(size: nat, written: nat)
    | Deleting                               // before ExDeleteNPagedLookasideList
    | Deleted

  datatype State = State(
    maxMemoryKb: nat,
    counter: Int32,          // RecordsAllocated
    drops: nat,              // increments of DroppedRecords since its last reset
    issued: nat,             // increments of RecordSequenceNumber
    blocks: int,             // lookaside blocks handed out and not given back
    port: bool,              // pClientPort is set
    unregistered: bool,      // FltUnregisterFilter has returned
    pc: map<Tid, Pc>,
    inFlight: set<nat>,      // entries the Filter Manager keeps as completion contexts
    list: seq<Stamp>,        // RecordList
    control: Control,
    // history
    log: seq<Stamp>,         // every record ever appended, in append order
    removed: seq<Removed>,   // what left the list for good, in that order
    taken: nat,              // how many log positions have been popped at least once
    discarded: set<nat>,     // entries deleted by a draining post callback
    published: nat,          // length of the log when pClientPort was last set
    resets: nat              // how often DroppedRecords was reset
  )

  ghost predicate Init(s: State) {
    && s.maxMemoryKb < TWO_32
    && s == State(s.maxMemoryKb, 0, 0, 0, 0, false, false, map[], {}, [], Disconnected, [], [], 0, {}, 0, 0)
  }

  datatype Step =
    | Enter(t: Tid, origin: Origin)
    | Reserve(t: Tid)
    | Judge(t: Tid)
    | Allocate(t: Tid, ok: bool)
    | Undo(t: Tid)
    | Drop(t: Tid)
    | Number(t: Tid)
    | Fill(t: Tid)
    | Post(t: Tid, id: nat, draining: bool)
    | Append(t: Tid)
    | Decrement(t: Tid)
    | GiveBack(t: Tid)
    | Connect
    | ClearPop
    | ClearDecrement
    | ClearGiveBack
    | Reset
    | DrainStart(size: nat)
    | DrainPop
    | DrainCopy(fault: bool)
    | DrainDecrement
    | DrainGiveBack
    | Disconnect(t: Tid)
    | SweepPop(t: Tid)
    | SweepDecrement(t: Tid)
    | SweepGiveBack(t: Tid)
    | SweepReset(t: Tid)
    | Unregister
    | DeleteLookaside

  predicate Enabled(s: State, step: Step) {
    match step
    case Enter(t, _) => t !in s.pc && s.port && !s.unregistered && |s.pc| < MAX_THREADS
    case Reserve(t) => t in s.pc && s.pc[t].Entering?
    case Judge(t) => t in s.pc && s.pc[t].Reserved?
    case Allocate(t, _) => t in s.pc && s.pc[t].Allocating?
    case Undo(t) => t in s.pc && s.pc[t].Undoing?
    case Drop(t) => t in s.pc && s.pc[t].Dropping?
    case Number(t) => t in s.pc && s.pc[t].Blank?
    case Fill(t) => t in s.pc && s.pc[t].Filling?
    // exactly one post callback for every entry the Filter Manager keeps
    case Post(t, id, _) => t !in s.pc && id in s.inFlight && |s.pc| < MAX_THREADS
    case Append(t) => t in s.pc && s.pc[t].Completing?
    case Decrement(t) => t in s.pc && s.pc[t].Discarding?
    case GiveBack(t) => t in s.pc && s.pc[t].Returning?
    // a connection on top of another leaves the state alone, so only the first one is a step
    case Connect => s.control.Disconnected? && !s.port && !s.unregistered
    case ClearPop => s.control.Clearing?
    case ClearDecrement => s.control.ClearHolding?
    case ClearGiveBack => s.control.ClearReturning?
    case Reset => s.control.Resetting?
    // MessageNotify runs only while connected and refuses an empty output buffer
    case DrainStart(size) => s.control.Connected? && 0 < size < TWO_32
    case DrainPop => s.control.Draining?
    case DrainCopy(_) => s.control.DrainHolding?
    case DrainDecrement => s.control.DrainCopied?
    case DrainGiveBack => s.control.DrainReturning?
    case Disconnect(t) => s.control.Connected? && t !in s.pc && |s.pc| < MAX_THREADS
    case SweepPop(t) => t in s.pc && s.pc[t].Sweeping?
    case SweepDecrement(t) => t in s.pc && s.pc[t].SweepHolding?
    case SweepGiveBack(t) => t in s.pc && s.pc[t].SweepReturning?
    case SweepReset(t) => t in s.pc && s.pc[t].SweepResetting?
    // FltUnregisterFilter returns only when nothing is in flight
    case Unregister => s.control.Disconnected? && !s.unregistered && s.pc == map[] && s.inFlight == {}
    case DeleteLookaside => s.control.Deleting?
  }

  /** The comparison in AllocateEntry, on the value the increment returned. */
  predicate Passes(count: Int32, maxMemoryKb: nat) {
    Ulonglong(count) <= MaxEntries(maxMemoryKb)
  }

  function AfterClear(goal: Goal): Control {
    match goal
    case ToConnected => Connected
    case ToDeleted => Deleting
  }

  // ----- Callback threads: records.cpp, dispatch.cpp, transaction.cpp -----

  function AfterEnter(s: State, t: Tid, origin: Origin): State
    requires t !in s.pc
  {
    s.(pc := s.pc[t := Entering(origin)])
  }

  function AfterReserve(s: State, t: Tid): State
    requires t in s.pc && s.pc[t].Entering?
  {
    var count := Long(s.counter + 1);
    s.(counter := count, pc := s.pc[t := Reserved(s.pc[t].origin, count)])
  }

  function AfterJudge(s: State, t: Tid): State
    requires t in s.pc && s.pc[t].Reserved?
  {
    s.(pc := s.pc[t := if Passes(s.pc[t].count, s.maxMemoryKb) then Allocating(s.pc[t].origin) else Undoing])
  }

  function AfterAllocate(s: State, t: Tid, ok: bool): State
    requires t in s.pc && s.pc[t].Allocating?
  {
    if ok then s.(blocks := s.blocks + 1, pc := s.pc[t := Blank(s.pc[t].origin)])
    else s.(pc := s.pc[t := Undoing])
  }

  function AfterUndo(s: State, t: Tid): State
    requires t in s.pc && s.pc[t].Undoing?
  {
    s.(counter := Long(s.counter - 1), pc := s.pc[t := Dropping])
  }

  function AfterDrop(s: State, t: Tid): State
    requires t in s.pc && s.pc[t].Dropping?
  {
    s.(drops := s.drops + 1, pc := s.pc - {t})
  }

  function AfterNumber(s: State, t: Tid): State
    requires t in s.pc && s.pc[t].Blank?
  {
    s.(issued := s.issued + 1, pc := s.pc[t := Filling(s.pc[t].origin, s.issued + 1)])
  }

  /** An operation is handed to the Filter Manager; a shutdown operation calls the post callback
      itself, and a notification appends at once. */
  function AfterFill(s: State, t: Tid): State
    requires t in s.pc && s.pc[t].Filling?
  {
    if s.pc[t].origin.Operation? then s.(inFlight := s.inFlight + {s.pc[t].id}, pc := s.pc - {t})
    else s.(pc := s.pc[t := Completing(s.pc[t].id)])
  }

  function AfterPost(s: State, t: Tid, id: nat, draining: bool): State
    requires t !in s.pc && id in s.inFlight
  {
    s.(inFlight := s.inFlight - {id}, pc := s.pc[t := if draining then Discarding(id) else Completing(id)])
  }

  function AfterAppend(s: State, t: Tid): State
    requires t in s.pc && s.pc[t].Completing?
  {
    var rec := Stamp(|s.log|, s.pc[t].id, s.drops, s.resets);
    s.(list := s.list + [rec], log := s.log + [rec], pc := s.pc - {t})
  }

  function AfterDecrement(s: State, t: Tid): State
    requires t in s.pc && s.pc[t].Discarding?
  {
    s.(counter := Long(s.counter - 1), discarded := s.discarded + {s.pc[t].id}, pc := s.pc[t := Returning])
  }

  function AfterGiveBack(s: State, t: Tid): State
    requires t in s.pc && s.pc[t].Returning?
  {
    s.(blocks := s.blocks - 1, pc := s.pc - {t})
  }

  /** RemoveHead of a non-empty list, as far as the list is concerned. */
  function Popped(s: State): State
    requires s.list != []
  {
    s.(list := s.list[1..], taken := if s.list[0].position < s.taken then s.taken else s.list[0].position + 1)
  }

  function AfterSweepPop(s: State, t: Tid): State
    requires t in s.pc && s.pc[t].Sweeping?
  {
    if s.list == [] then s.(pc := s.pc[t := SweepResetting])
    else Popped(s).(pc := s.pc[t := SweepHolding(s.list[0])])
  }

  function AfterSweepDecrement(s: State, t: Tid): State
    requires t in s.pc && s.pc[t].SweepHolding?
  {
    s.(counter := Long(s.counter - 1), removed := s.removed + [Cleared(s.pc[t].rec)], pc := s.pc[t := SweepReturning])
  }

  function AfterSweepGiveBack(s: State, t: Tid): State
    requires t in s.pc && s.pc[t].SweepReturning?
  {
    s.(blocks := s.blocks - 1, pc := s.pc[t := Sweeping])
  }

  function AfterSweepReset(s: State, t: Tid): State
    requires t in s.pc && s.pc[t].SweepResetting?
  {
    s.(drops := 0, resets := s.resets + 1, pc := s.pc - {t})
  }

  // ----- The control thread: port.cpp, Clear and Drain in records.cpp, driver.cpp -----

  function AfterConnect(s: State): State
    requires s.control.Disconnected?
  {
    s.(port := true, published := |s.log|, control := Clearing(ToConnected))
  }

  function AfterClearPop(s: State): State
    requires s.control.Clearing?
  {
    if s.list == [] then s.(control := Resetting(s.control.goal))
    else Popped(s).(control := ClearHolding(s.control.goal, s.list[0]))
  }

  function AfterClearDecrement(s: State): State
    requires s.control.ClearHolding?
  {
    s.(counter := Long(s.counter - 1), removed := s.removed + [Cleared(s.control.rec)],
       control := ClearReturning(s.control.goal))
  }

  function AfterClearGiveBack(s: State): State
    requires s.control.ClearReturning?
  {
    s.(blocks := s.blocks - 1, control := Clearing(s.control.goal))
  }

  function AfterReset(s: State): State
    requires s.control.Resetting?
  {
    s.(drops := 0, resets := s.resets + 1, control := AfterClear(s.control.goal))
  }

  function AfterDrainStart(s: State, size: nat): State
    requires s.control.Connected?
  {
    s.(control := Draining(size, 0))
  }

  function AfterDrainPop(s: State): State
    requires s.control.Draining?
  {
    if s.list == [] then s.(control := Connected)
    else Popped(s).(control := DrainHolding(s.control.size, s.control.written, s.list[0]))
  }

  /** A short buffer and a fault both push the record back and end the drain. */
  function AfterDrainCopy(s: State, fault: bool): State
    requires s.control.DrainHolding?
  {
    if s.control.size - s.control.written < RECORD_SIZE || fault then
      s.(list := [s.control.rec] + s.list, control := Connected)
    else
      s.(removed := s.removed + [Delivered(s.control.rec, s.published)],
         control := DrainCopied(s.control.size, s.control.written))
  }

  function AfterDrainDecrement(s: State): State
    requires s.control.DrainCopied?
  {
    s.(counter := Long(s.counter - 1), control := DrainReturning(s.control.size, s.control.written))
  }

  function AfterDrainGiveBack(s: State): State
    requires s.control.DrainReturning?
  {
    s.(blocks := s.blocks - 1, control := Draining(s.control.size, s.control.written + RECORD_SIZE))
  }

  /** The exchange of the port and its closing: from here on another client may connect. */
  function AfterDisconnect(s: State, t: Tid): State
    requires s.control.Connected? && t !in s.pc
  {
    s.(port := false, control := Disconnected, pc := s.pc[t := Sweeping])
  }

  function AfterUnregister(s: State): State
    requires s.control.Disconnected?
  {
    s.(unregistered := true, control := Clearing(ToDeleted))
  }

  function AfterDeleteLookaside(s: State): State
    requires s.control.Deleting?
  {
    s.(control := Deleted)
  }

  // ----- All steps -----

  function Apply(s: State, step: Step): State
    requires Enabled(s, step)
  {
    match step
    case Enter(t, origin) => AfterEnter(s, t, origin)
    case Reserve(t) => AfterReserve(s, t)
    case Judge(t) => AfterJudge(s, t)
    case Allocate(t, ok) => AfterAllocate(s, t, ok)
    case Undo(t) => AfterUndo(s, t)
    case Drop(t) => AfterDrop(s, t)
    case Number(t) => AfterNumber(s, t)
    case Fill(t) => AfterFill(s, t)
    case Post(t, id, draining) => AfterPost(s, t, id, draining)
    case Append(t) => AfterAppend(s, t)
    case Decrement(t) => AfterDecrement(s, t)
    case GiveBack(t) => AfterGiveBack(s, t)
    case Connect => AfterConnect(s)
    case ClearPop => AfterClearPop(s)
    case ClearDecrement => AfterClearDecrement(s)
    case ClearGiveBack => AfterClearGiveBack(s)
    case Reset => AfterReset(s)
    case DrainStart(size) => AfterDrainStart(s, size)
    case DrainPop => AfterDrainPop(s)
    case DrainCopy(fault) => AfterDrainCopy(s, fault)
    case DrainDecrement => AfterDrainDecrement(s)
    case DrainGiveBack => AfterDrainGiveBack(s)
    case Disconnect(t) => AfterDisconnect(s, t)
    case SweepPop(t) => AfterSweepPop(s, t)
    case SweepDecrement(t) => AfterSweepDecrement(s, t)
    case SweepGiveBack(t) => AfterSweepGiveBack(s, t)
    case SweepReset(t) => AfterSweepReset(s, t)
    case Unregister => AfterUnregister(s)
    case DeleteLookaside => AfterDeleteLookaside(s)
  }
}
