/**
 The driver's record store as one caller sees it: the fields are the driver's globals, a method
 is one function of records.cpp. Other threads show up as records that arrive at the tail
 between two sections under the list lock.
 */
module Records {
  import opened Common
  import opened Driver

  datatype Record = Record(sequenceNumber: nat, droppedRecords: nat, data: seq<bv8>)

  datatype Status = Success | NoMoreEntries | BufferTooSmall | Faulted

  /** static_cast<uint32_t> of a LONG. */
  function Uint32(x: Int32): nat { x % TWO_32 }

  /** A counter kept in a LONG reaches the record as its low 32 bits. */
  lemma CounterInRecord(n: int)
    ensures Uint32(Long(n)) == n % 0x1_0000_0000
  {
    LongKeepsLowBits(n);
  }

  /** The record a pop returned, as the part of the queue it was. */
  function Front(entry: Option<Record>): seq<Record> {
    if entry.Some? then [entry.value] else []
  }

  /** What was taken for good, what a pop returned and what is listed make up the whole queue. */
  ghost predicate Accounts(done: seq<Record>, front: seq<Record>, list: seq<Record>, whole: seq<Record>) {
    done + (front + list) == whole
  }

  /** The record a pop returned is taken for good, and the next pop sees what arrived meanwhile. */
  lemma TakesFront(done: seq<Record>, head: Record, list: seq<Record>, arriving: seq<Record>,
                   front: seq<Record>, rest: seq<Record>, whole: seq<Record>)
    requires Accounts(done, [head], list, whole) && front + rest == list + arriving
    ensures Accounts(done + [head], front, rest, whole + arriving)
    ensures |front| + |rest| == |list| + |arriving|
  {
    assert done + ([head] + list) + arriving == (done + [head]) + (list + arriving);
  }

  /** It is pushed back in front of what arrived meanwhile. */
  lemma PutsBack(done: seq<Record>, head: Record, list: seq<Record>, arriving: seq<Record>, whole: seq<Record>)
    requires Accounts(done, [head], list, whole)
    ensures done + ([head] + (list + arriving)) == whole + arriving
  {
    assert done + ([head] + list) + arriving == done + ([head] + (list + arriving));
  }

  lemma HoldsMoreThan(done: seq<Record>, head: Record, list: seq<Record>, whole: seq<Record>)
    requires Accounts(done, [head], list, whole)
    ensures |done| < |whole|
  {
  }

  /** Nothing is left. */
  lemma AllTaken(done: seq<Record>, list: seq<Record>, whole: seq<Record>)
    requires Accounts(done, [], list, whole)
    ensures done + list == whole && (list == [] ==> done == whole)
  {
    assert [] + list == list;
  }

  /** What other threads have appended before the k-th locked section, in order. */
  function Arrived(arrivals: nat -> seq<Record>, k: nat): seq<Record> {
    if k == 0 then [] else Arrived(arrivals, k - 1) + arrivals(k - 1)
  }

  /** The same for finitely many sections. */
  function Flat(arrivals: seq<seq<Record>>): seq<Record> {
    if arrivals == [] then [] else Flat(arrivals[..|arrivals| - 1]) + arrivals[|arrivals| - 1]
  }

  lemma FlatMore(arrivals: seq<seq<Record>>, k: nat, was: seq<Record>)
    requires k < |arrivals|
    ensures was + Flat(arrivals[..k + 1]) == (was + Flat(arrivals[..k])) + arrivals[k]
  {
    assert arrivals[..k + 1][..k] == arrivals[..k];
  }

  lemma FlatNone(arrivals: seq<seq<Record>>, was: seq<Record>)
    ensures was + Flat(arrivals[..0]) == was && was + [] == was
  {
  }

  /** How many records are still to arrive. */
  ghost function Pending(arrivals: seq<seq<Record>>, k: nat): nat
    decreases |arrivals| - k
  {
    if k < |arrivals| then |arrivals[k]| + Pending(arrivals, k + 1) else 0
  }

  /** One more section: what it brings comes last. */
  lemma ArrivedMore(arrivals: nat -> seq<Record>, k: nat, was: seq<Record>)
    ensures was + Arrived(arrivals, k + 1) == (was + Arrived(arrivals, k)) + arrivals(k)
  {
  }

  lemma ArrivedFirst(arrivals: nat -> seq<Record>, was: seq<Record>)
    ensures was + Arrived(arrivals, 0) == was
    ensures was + Arrived(arrivals, 1) == was + arrivals(0)
  {
    assert Arrived(arrivals, 1) == [] + arrivals(0) == arrivals(0);
  }

  // ----- What a drain and a clearing do -----

  /** Pop k finds a record: more had been listed by then than the k taken before. */
  ghost predicate FindsOne(was: seq<Record>, arrivals: nat -> seq<Record>, k: nat) {
    k < |was + Arrived(arrivals, k + 1)|
  }

  ghost predicate Found(was: seq<Record>, arrivals: nat -> seq<Record>, n: nat) {
    forall k: nat :: k < n ==> FindsOne(was, arrivals, k)
  }

  /** None of the first n copies faults; copy k is made between the k-th pop and the next section. */
  ghost predicate Copied(faults: nat -> bool, n: nat) {
    forall k: nat :: 1 <= k <= n ==> !faults(k)
  }

  predicate Fits(bufferSize: nat, n: nat) { (n + 1) * RECORD_SIZE <= bufferSize }

  /**
   How a drain of a list ends, with the arrivals and faults it meets. Every record taken had been
   found, fitted and was copied. Then the list was found empty, or one more record was found and
   put back because it did not fit or its copy faulted.
   */
  ghost predicate DrainsTo(was: seq<Record>, bufferSize: nat, arrivals: nat -> seq<Record>, faults: nat -> bool,
                           buffer: seq<Record>, list: seq<Record>, status: Status, sections: nat) {
    var n := |buffer|;
    && buffer + list == was + Arrived(arrivals, sections)
    && n * RECORD_SIZE <= bufferSize && Copied(faults, n)
    && (sections == n + 1 || sections == n + 2)
    && Found(was, arrivals, sections - 1)
    && (sections == n + 1 ==> list == [])
    && (sections == n + 2 ==> !Fits(bufferSize, n) || faults(n + 1))
    && (status.Faulted? <==> sections == n + 2 && Fits(bufferSize, n))
    && (status.Success? <==> !status.Faulted? && buffer != [])
    && (status.NoMoreEntries? <==> buffer == [] && sections == 1)
  }

  /** What a drain meets determines what it does. */
  lemma DrainIsDetermined(was: seq<Record>, bufferSize: nat, arrivals: nat -> seq<Record>, faults: nat -> bool,
                          buffer: seq<Record>, list: seq<Record>, status: Status, sections: nat,
                          buffer': seq<Record>, list': seq<Record>, status': Status, sections': nat)
    requires DrainsTo(was, bufferSize, arrivals, faults, buffer, list, status, sections)
    requires DrainsTo(was, bufferSize, arrivals, faults, buffer', list', status', sections')
    ensures buffer == buffer' && list == list' && status == status' && sections == sections'
  {
    NoShorterDrain(was, bufferSize, arrivals, faults, buffer, list, status, sections,
                   buffer', list', status', sections');
    NoShorterDrain(was, bufferSize, arrivals, faults, buffer', list', status', sections',
                   buffer, list, status, sections);
    hide Arrived, Found, Copied, Fits;
    var whole := was + Arrived(arrivals, sections);
    assert buffer == whole[..|buffer|] && list == whole[|buffer|..];
    assert buffer' == whole[..|buffer|] && list' == whole[|buffer|..];
  }

  /** A drain stops only where every drain has to. */
  lemma NoShorterDrain(was: seq<Record>, bufferSize: nat, arrivals: nat -> seq<Record>, faults: nat -> bool,
                       buffer: seq<Record>, list: seq<Record>, status: Status, sections: nat,
                       buffer': seq<Record>, list': seq<Record>, status': Status, sections': nat)
    requires DrainsTo(was, bufferSize, arrivals, faults, buffer, list, status, sections)
    requires DrainsTo(was, bufferSize, arrivals, faults, buffer', list', status', sections')
    ensures |buffer| >= |buffer'| && (|buffer| == |buffer'| ==> sections >= sections')
  {
    hide Arrived;
    var n := |buffer|;
    assert sections == n + 1 ==> |buffer + list| == n && !FindsOne(was, arrivals, n);
    assert sections' > n + 1 ==> FindsOne(was, arrivals, n);
  }

  /**
   A drain that goes on has taken some records and popped the next: what is done, the record in
   its hands and the list are all there has been, and nothing stopped it so far.
   */
  ghost predicate InDrain(was: seq<Record>, bufferSize: nat, arrivals: nat -> seq<Record>, faults: nat -> bool,
                         done: seq<Record>, entry: Option<Record>, list: seq<Record>) {
    && Accounts(done, Front(entry), list, was + Arrived(arrivals, |done| + 1))
    && (entry.None? ==> list == [])
    && Found(was, arrivals, |done|) && Copied(faults, |done|) && |done| * RECORD_SIZE <= bufferSize
  }

  lemma PopsFirst(was: seq<Record>, bufferSize: nat, arrivals: nat -> seq<Record>, faults: nat -> bool,
                  entry: Option<Record>, list: seq<Record>)
    requires Front(entry) + list == was + arrivals(0) && (entry.None? ==> list == [])
    ensures InDrain(was, bufferSize, arrivals, faults, [], entry, list)
  {
    ArrivedFirst(arrivals, was);
    assert Accounts([], Front(entry), list, was + Arrived(arrivals, 1)) by {
      assert [] + (Front(entry) + list) == Front(entry) + list;
    }
    hide Accounts, Arrived;
  }

  /** The record in hand fits and is copied: it is taken for good, and the next is popped. */
  lemma PopsNext(was: seq<Record>, bufferSize: nat, arrivals: nat -> seq<Record>, faults: nat -> bool,
                 done: seq<Record>, head: Record, rest: seq<Record>, entry: Option<Record>, list: seq<Record>)
    requires InDrain(was, bufferSize, arrivals, faults, done, Some(head), rest)
    requires Fits(bufferSize, |done|) && !faults(|done| + 1)
    requires Front(entry) + list == rest + arrivals(|done| + 1) && (entry.None? ==> list == [])
    ensures InDrain(was, bufferSize, arrivals, faults, done + [head], entry, list)
  {
    var whole := was + Arrived(arrivals, |done| + 1);
    ArrivedMore(arrivals, |done| + 1, was);
    assert Front(Some(head)) == [head];
    TakesFront(done, head, rest, arrivals(|done| + 1), Front(entry), list, whole);
    HoldsMoreThan(done, head, rest, whole);
    assert |done + [head]| == |done| + 1;
    hide Accounts, Arrived, Front;
  }

  /** The record in hand does not fit or its copy faults: it goes back in front. */
  lemma PutsBackAtEnd(was: seq<Record>, bufferSize: nat, arrivals: nat -> seq<Record>, faults: nat -> bool,
                      done: seq<Record>, head: Record, rest: seq<Record>, list: seq<Record>)
    requires InDrain(was, bufferSize, arrivals, faults, done, Some(head), rest)
    requires !Fits(bufferSize, |done|) || faults(|done| + 1)
    requires list == [head] + (rest + arrivals(|done| + 1))
    ensures DrainsTo(was, bufferSize, arrivals, faults, done, list,
                     if Fits(bufferSize, |done|) then Faulted else if done == [] then BufferTooSmall else Success,
                     |done| + 2)
  {
    var whole := was + Arrived(arrivals, |done| + 1);
    ArrivedMore(arrivals, |done| + 1, was);
    assert Front(Some(head)) == [head];
    PutsBack(done, head, rest, arrivals(|done| + 1), whole);
    HoldsMoreThan(done, head, rest, whole);
    hide Accounts, Arrived, Front, Fits, Copied;
  }

  /** Nothing was popped. */
  lemma FindsNothing(was: seq<Record>, bufferSize: nat, arrivals: nat -> seq<Record>, faults: nat -> bool,
                     done: seq<Record>, list: seq<Record>)
    requires InDrain(was, bufferSize, arrivals, faults, done, None, list)
    ensures DrainsTo(was, bufferSize, arrivals, faults, done, list, if done == [] then NoMoreEntries else Success,
                     |done| + 1)
  {
    assert Front(None) == [];
    AllTaken(done, list, was + Arrived(arrivals, |done| + 1));
    hide Accounts, Arrived, Front, Fits, Copied, Found;
  }

  lemma FitsBySize(bufferSize: nat, n: nat)
    ensures Fits(bufferSize, n) <==> bufferSize - n * RECORD_SIZE >= RECORD_SIZE
  {
  }

  ghost predicate FreesOne(was: seq<Record>, arrivals: seq<seq<Record>>, k: nat)
    requires k <= |arrivals|
  {
    k < |was + Flat(arrivals[..k])|
  }

  /** After this many records were freed a clearing has seen these arrivals, each while freeing one. */
  ghost predicate Saw(was: seq<Record>, arrivals: seq<seq<Record>>, freed: nat, sections: nat) {
    && sections == (if freed < |arrivals| then freed else |arrivals|)
    && (forall k: nat :: k < sections ==> FreesOne(was, arrivals, k))
  }

  /**
   What a clearing gives back: what was listed and what arrived while an entry was freed. It goes
   on to the next arrivals only while there is an entry to free.
   */
  ghost predicate Clears(was: seq<Record>, arrivals: seq<seq<Record>>, cleared: seq<Record>, sections: nat) {
    Saw(was, arrivals, |cleared|, sections) && cleared == was + Flat(arrivals[..sections])
  }

  lemma ClearIsDetermined(was: seq<Record>, arrivals: seq<seq<Record>>, cleared: seq<Record>, sections: nat,
                          cleared': seq<Record>, sections': nat)
    requires Clears(was, arrivals, cleared, sections) && Clears(was, arrivals, cleared', sections')
    ensures cleared == cleared' && sections == sections'
  {
    hide Flat;
    assert sections < sections' ==> FreesOne(was, arrivals, sections);
    assert sections' < sections ==> FreesOne(was, arrivals, sections');
  }

  /** A clearing that goes on: what is freed, the record in its hands and the list are all there has been. */
  ghost predicate Freeing(was: seq<Record>, arrivals: seq<seq<Record>>, done: seq<Record>, entry: Option<Record>,
                          list: seq<Record>, sections: nat) {
    && Saw(was, arrivals, |done|, sections)
    && Accounts(done, Front(entry), list, was + Flat(arrivals[..sections]))
    && (entry.None? ==> list == [])
  }

  lemma FreesFirst(was: seq<Record>, arrivals: seq<seq<Record>>, entry: Option<Record>, list: seq<Record>)
    requires Front(entry) + list == was && (entry.None? ==> list == [])
    ensures Freeing(was, arrivals, [], entry, list, 0)
  {
    FlatNone(arrivals, was);
    assert [] + (Front(entry) + list) == Front(entry) + list;
  }

  /** What arrives while a clearing frees its next entry. */
  function Arriving(arrivals: seq<seq<Record>>, section: nat): seq<Record> {
    if section < |arrivals| then arrivals[section] else []
  }

  lemma FreesNext(was: seq<Record>, arrivals: seq<seq<Record>>, done: seq<Record>, head: Record, rest: seq<Record>,
                  entry: Option<Record>, list: seq<Record>, section: nat)
    requires Freeing(was, arrivals, done, Some(head), rest, section)
    requires Front(entry) + list == rest + Arriving(arrivals, section) && (entry.None? ==> list == [])
    ensures Freeing(was, arrivals, done + [head], entry, list, if section < |arrivals| then section + 1 else section)
  {
    var whole := was + Flat(arrivals[..section]);
    assert Front(Some(head)) == [head];
    TakesFront(done, head, rest, Arriving(arrivals, section), Front(entry), list, whole);
    HoldsMoreThan(done, head, rest, whole);
    FlatNone(arrivals, whole);
    assert FreesOne(was, arrivals, section);
    hide Accounts, Front, FreesOne;
    if section < |arrivals| {
      FlatMore(arrivals, section, was);
    }
    hide Flat;
  }

  lemma AllFreed(was: seq<Record>, arrivals: seq<seq<Record>>, done: seq<Record>, list: seq<Record>, sections: nat)
    requires Freeing(was, arrivals, done, None, list, sections)
    ensures Clears(was, arrivals, done, sections)
  {
    assert Front(None) == [];
    AllTaken(done, list, was + Flat(arrivals[..sections]));
    hide Accounts, Flat, Front;
  }

  class RecordStore {
    const maxMemoryKb: nat
    var recordsAllocated: Int32
    var droppedRecords: Int32
    var recordSequenceNumber: Int32
    var blocks: int              // lookaside blocks not given back
    var list: seq<Record>

    constructor (maxMemoryKb: nat)
      ensures this.maxMemoryKb == maxMemoryKb
      ensures recordsAllocated == 0 && droppedRecords == 0 && recordSequenceNumber == 0 && blocks == 0 && list == []
    {
      this.maxMemoryKb := maxMemoryKb;
      recordsAllocated, droppedRecords, recordSequenceNumber, blocks, list := 0, 0, 0, 0, [];
    }

    /** The cap and the lookaside list have room for one more entry. */
    predicate HasRoom(lookasideHasBlock: bool)
      reads this`recordsAllocated
    {
      Passes(Long(recordsAllocated + 1), maxMemoryKb) && lookasideHasBlock
    }

    /** Claims an entry, or leaves the counter as it was. */
    method AllocateEntry(lookasideHasBlock: bool) returns (ok: bool)
      modifies this`recordsAllocated, this`blocks
      ensures ok <==> old(HasRoom(lookasideHasBlock))
      ensures recordsAllocated == if ok then Long(old(recordsAllocated) + 1) else old(recordsAllocated)
      ensures blocks == old(blocks) + Bit(ok)
    {
      recordsAllocated := Long(recordsAllocated + 1);
      var count := recordsAllocated;
      if !Passes(count, maxMemoryKb) {
        recordsAllocated := Long(recordsAllocated - 1);
        return false;
      }
      if !lookasideHasBlock {
        recordsAllocated := Long(recordsAllocated - 1);
        return false;
      }
      blocks := blocks + 1;
      return true;
    }

    method FreeEntry()
      modifies this`recordsAllocated, this`blocks
      ensures recordsAllocated == Long(old(recordsAllocated) - 1) && blocks == old(blocks) - 1
    {
      recordsAllocated := Long(recordsAllocated - 1);
      blocks := blocks - 1;
    }

    /** A new zeroed record with the next number; on failure a drop is counted and no number used. */
    method CreateEntry(lookasideHasBlock: bool) returns (entry: Option<Record>)
      modifies this`recordsAllocated, this`blocks, this`droppedRecords, this`recordSequenceNumber
      ensures entry.Some? <==> old(HasRoom(lookasideHasBlock))
      ensures entry.Some? ==>
                && entry.value == Record(Uint32(recordSequenceNumber), 0, [])
                && recordSequenceNumber == Long(old(recordSequenceNumber) + 1)
                && droppedRecords == old(droppedRecords)
                && recordsAllocated == Long(old(recordsAllocated) + 1) && blocks == old(blocks) + 1
      ensures entry.None? ==>
                && droppedRecords == Long(old(droppedRecords) + 1)
                && recordSequenceNumber == old(recordSequenceNumber)
                && recordsAllocated == old(recordsAllocated) && blocks == old(blocks)
    {
      var ok := AllocateEntry(lookasideHasBlock);
      if !ok {
        droppedRecords := Long(droppedRecords + 1);
        return None;
      }
      recordSequenceNumber := Long(recordSequenceNumber + 1);
      entry := Some(Record(Uint32(recordSequenceNumber), 0, []));
    }

    method Append(record: Record)
      modifies this`list
      ensures list == old(list) + [record.(droppedRecords := Uint32(droppedRecords))]
    {
      list := list + [record.(droppedRecords := Uint32(droppedRecords))];
    }

    method RemoveHead() returns (entry: Option<Record>)
      modifies this`list
      ensures entry.None? <==> old(list) == []
      ensures Front(entry) + list == old(list)
    {
      entry := None;
      if list != [] {
        entry := Some(list[0]);
        list := list[1..];
      }
    }

    method InsertHead(record: Record)
      modifies this`list
      ensures list == [record] + old(list)
    {
      list := [record] + list;
    }

    /** RemoveHead after other threads have appended some records. */
    method PopAfter(arriving: seq<Record>) returns (entry: Option<Record>)
      modifies this`list
      ensures Front(entry) + list == old(list) + arriving
      ensures entry.None? ==> list == []
      ensures entry.Some? ==> |list| + 1 == |old(list)| + |arriving|
    {
      list := list + arriving;
      entry := RemoveHead();
    }

    /** InsertHead after other threads have appended some records. */
    method PushBackAfter(record: Record, arriving: seq<Record>)
      modifies this`list
      ensures list == [record] + (old(list) + arriving)
    {
      list := list + arriving;
      InsertHead(record);
    }

    /** An entry counted as handed out is given back. */
    method FreeCounted(ghost start: int, ghost freed: nat)
      requires recordsAllocated == Long(start - freed)
      modifies this`recordsAllocated, this`blocks
      ensures recordsAllocated == Long(start - (freed + 1)) && blocks == old(blocks) - 1
    {
      LongShift(start - freed, -1);
      FreeEntry();
    }

    /**
     Drain against producers of any speed: arrivals(k) is what arrives before the k-th locked
     section, faults(k) says whether the k-th copy faults. The buffer receives the oldest records
     in order, nothing is lost, made up or reordered, and the loop ends by the space left in the
     buffer.
     */
    method Drain(bufferSize: nat, arrivals: nat -> seq<Record>, faults: nat -> bool)
      returns (buffer: seq<Record>, writtenSize: nat, status: Status, ghost sections: nat)
      modifies this`list, this`recordsAllocated, this`blocks
      ensures DrainsTo(old(list), bufferSize, arrivals, faults, buffer, list, status, sections)
      ensures writtenSize == |buffer| * RECORD_SIZE
      ensures recordsAllocated == Long(old(recordsAllocated) - |buffer|) && blocks == old(blocks) - |buffer|
    {
      var tooSmall, section := false, 0;
      ghost var start, was := recordsAllocated, old(list);
      buffer, writtenSize := [], 0;
      var entry := PopAfter(arrivals(section));
      PopsFirst(was, bufferSize, arrivals, faults, entry, list);
      assert Long(start) == start;
      hide Front, InDrain, DrainsTo, Fits, Long;
      while entry.Some?
        invariant section == |buffer|
        invariant InDrain(was, bufferSize, arrivals, faults, buffer, entry, list)
        invariant writtenSize == |buffer| * RECORD_SIZE <= bufferSize
        invariant recordsAllocated == Long(start - |buffer|) && blocks == old(blocks) - |buffer|
        decreases bufferSize - writtenSize
      {
        ghost var head, done, rest := entry.value, buffer, list;
        FitsBySize(bufferSize, |done|);
        section := section + 1;
        if bufferSize - writtenSize < RECORD_SIZE {
          PushBackAfter(entry.value, arrivals(section));
          PutsBackAtEnd(was, bufferSize, arrivals, faults, done, head, rest, list);
          tooSmall := true;
          break;
        }
        if faults(section) {
          PushBackAfter(entry.value, arrivals(section));
          PutsBackAtEnd(was, bufferSize, arrivals, faults, done, head, rest, list);
          return buffer, writtenSize, Faulted, section + 1;
        }
        FreeCounted(start, |buffer|);
        buffer := buffer + [entry.value];
        writtenSize := writtenSize + RECORD_SIZE;
        entry := PopAfter(arrivals(section));
        PopsNext(was, bufferSize, arrivals, faults, done, head, rest, entry, list);
      }
      sections := section + 1;
      if !tooSmall {
        FindsNothing(was, bufferSize, arrivals, faults, buffer, list);
      }
      status := if writtenSize > 0 then Success else if tooSmall then BufferTooSmall else NoMoreEntries;
    }

    /**
     Clear against producers that append finitely often: arrivals[k] is what arrives while the
     k-th entry is freed. Exactly what was listed and what arrived before the list was seen empty
     is given back, and the drop total starts over.
     */
    method Clear(arrivals: seq<seq<Record>>) returns (ghost cleared: seq<Record>, ghost sections: nat)
      modifies this`list, this`recordsAllocated, this`blocks, this`droppedRecords
      ensures list == [] && droppedRecords == 0
      ensures Clears(old(list), arrivals, cleared, sections)
      ensures blocks == old(blocks) - |cleared| && recordsAllocated == Long(old(recordsAllocated) - |cleared|)
    {
      ghost var start, was := recordsAllocated, old(list);
      cleared := [];
      var section := 0;
      var entry := RemoveHead();
      FreesFirst(was, arrivals, entry, list);
      assert Long(start) == start;
      hide Freeing, Clears, Long;
      while entry.Some?
        invariant Freeing(was, arrivals, cleared, entry, list, section) && (entry.None? ==> list == [])
        invariant blocks == old(blocks) - |cleared| && recordsAllocated == Long(start - |cleared|)
        decreases |Front(entry)| + |list| + Pending(arrivals, section)
      {
        ghost var head, done, rest, seen := entry.value, cleared, list, section;
        var arriving := Arriving(arrivals, section);
        if section < |arrivals| {
          section := section + 1;
        }
        FreeCounted(start, |cleared|);
        cleared := cleared + [entry.value];
        entry := PopAfter(arriving);
        FreesNext(was, arrivals, done, head, rest, entry, list, seen);
      }
      AllFreed(was, arrivals, cleared, list, section);
      droppedRecords := 0;
      sections := section;
    }
  }

  // ----- The client's end of the message -----

  const RECORD_COUNT: nat := 1000

  datatype Reply = Fetched(records: seq<Record>) | Failed

  /** GetRecords of filter.cpp: bytes back to records. An idle driver is not an error. */
  function GetRecords(status: Status, bytesReturned: nat, buffer: seq<Record>): Reply
    requires bytesReturned % RECORD_SIZE == 0 ==> bytesReturned / RECORD_SIZE <= |buffer|
  {
    if status.NoMoreEntries? then Fetched([])
    else if !status.Success? then Failed
    else if bytesReturned % RECORD_SIZE != 0 then Failed
    else Fetched(buffer[..bytesReturned / RECORD_SIZE])
  }

  /** With the client's buffer a drain whose copies do not fault arrives whole: GetRecords returns
      exactly the drained records, at most RECORD_COUNT of them, and leaves the rest in the list in
      order. When a copy faults GetRecords fails, and the records copied before are nowhere: they
      are off the list and not in the reply. */
  method Fetch(store: RecordStore, arrivals: nat -> seq<Record>, faults: nat -> bool)
    returns (reply: Reply, ghost drained: seq<Record>, ghost sections: nat)
    modifies store
    ensures DrainsTo(old(store.list), RECORD_COUNT * RECORD_SIZE, arrivals, faults, drained, store.list,
                     if reply.Failed? then Faulted else if drained == [] then NoMoreEntries else Success, sections)
    ensures reply.Fetched? ==> reply.records == drained
    ensures |drained| <= RECORD_COUNT
    ensures reply.Failed? <==> sections == |drained| + 2 && |drained| < RECORD_COUNT
    ensures reply.Failed? ==> faults(|drained| + 1)
    ensures reply.Fetched? && |drained| < RECORD_COUNT ==> store.list == []
    ensures store.blocks == old(store.blocks) - |drained|
    ensures store.recordsAllocated == Long(old(store.recordsAllocated) - |drained|)
  {
    var buffer, writtenSize, status;
    buffer, writtenSize, status, sections := store.Drain(RECORD_COUNT * RECORD_SIZE, arrivals, faults);
    assert writtenSize / RECORD_SIZE == |buffer| && writtenSize % RECORD_SIZE == 0;
    drained := buffer;
    reply := GetRecords(status, writtenSize, buffer);
  }
}
