/**
 * The filter's callbacks as one caller sees them (dispatch.cpp, port.cpp): the
 * operation callbacks hand an entry from the pre-operation to the post-operation
 * side, the port callbacks open and close a session and answer its messages.
 */
module Filter {
  import opened Common
  import opened Driver
  import opened Records

  datatype Verdict = NoCallback | WithCallback(entry: Record)

  const COMMAND_MESSAGE_SIZE := 8
  const GET_RECORDS := 0
  const GET_VERSION := 1
  const VERSION_SIZE := 6

  /** A message as it arrives: the buffers may be missing, the input may fault when it is read. */
  datatype Message = Message(
    hasInput: bool,
    inputSize: nat,
    command: Option<nat>,
    hasOutput: bool,
    outputSize: nat,
    recordAligned: bool,
    versionAligned: bool,
    outputFaults: bool)

  datatype Answer = Drained(status: Status) | Version | Invalid | Misaligned | Fault

  predicate HasBuffers(m: Message) {
    m.hasInput && COMMAND_MESSAGE_SIZE <= m.inputSize && m.hasOutput
  }

  predicate Readable(m: Message) { HasBuffers(m) && m.command.Some? }

  /** The one message that takes records off the list. */
  predicate AsksForRecords(m: Message) {
    Readable(m) && m.command == Some(GET_RECORDS) && 0 < m.outputSize && m.recordAligned
  }

  predicate AsksForVersion(m: Message) {
    Readable(m) && m.command == Some(GET_VERSION) && VERSION_SIZE <= m.outputSize
  }

  class FilterDriver {
    const store: RecordStore
    var clientPort: Option<nat>

    constructor (maxMemoryKb: nat)
      ensures fresh(store) && clientPort == None
      ensures store.list == [] && store.blocks == 0
    {
      store := new RecordStore(maxMemoryKb);
      clientPort := None;
    }

    /** Entries that callbacks hold: blocks taken that are not in the list. */
    ghost function Outstanding(): int
      reads this, store
    {
      store.blocks - |store.list|
    }

    /** An operation that starts now gets an entry. */
    predicate Traces(lookasideHasBlock: bool)
      reads this`clientPort, store`recordsAllocated
    {
      clientPort.Some? && store.HasRoom(lookasideHasBlock)
    }

    /** Nothing in the store has moved but possibly the drop total. */
    twostate predicate Untouched()
      reads this, store
    {
      && store.list == old(store.list) && store.blocks == old(store.blocks)
      && store.recordsAllocated == old(store.recordsAllocated)
      && store.recordSequenceNumber == old(store.recordSequenceNumber)
    }

    /**
     * PreOperationCallback. With a client and room an entry with the next number
     * is made: a shutdown appends it at once, any other operation takes it along
     * and asks for the post callback. Without room the drop is counted, without a
     * client nothing changes.
     */
    method PreOperationCallback(isShutdown: bool, lookasideHasBlock: bool, data: seq<bv8>) returns (verdict: Verdict)
      modifies store
      ensures verdict.WithCallback? <==> old(Traces(lookasideHasBlock)) && !isShutdown
      ensures old(Traces(lookasideHasBlock)) ==>
                && store.recordSequenceNumber == Long(old(store.recordSequenceNumber) + 1)
                && store.recordsAllocated == Long(old(store.recordsAllocated) + 1)
                && store.blocks == old(store.blocks) + 1
                && store.droppedRecords == old(store.droppedRecords)
      ensures verdict.WithCallback? ==>
                && verdict.entry == Record(Uint32(store.recordSequenceNumber), 0, data)
                && store.list == old(store.list)
      ensures old(Traces(lookasideHasBlock)) && isShutdown ==>
                store.list == old(store.list)
                  + [Record(Uint32(store.recordSequenceNumber), Uint32(store.droppedRecords), data)]
      ensures !old(Traces(lookasideHasBlock)) ==> Untouched()
      ensures !old(Traces(lookasideHasBlock)) ==>
                store.droppedRecords == if clientPort.None? then old(store.droppedRecords)
                                        else Long(old(store.droppedRecords) + 1)
    {
      if clientPort.None? { return NoCallback; }
      var created := store.CreateEntry(lookasideHasBlock);
      if created.None? { return NoCallback; }
      var entry := created.value.(data := data);
      if isShutdown {
        PostOperationCallback(entry, false, data);
        return NoCallback;
      }
      return WithCallback(entry);
    }

    /**
     * PostOperationCallback: the entry is freed when the filter is being torn
     * down and appended otherwise, with the drop total of that moment.
     */
    method PostOperationCallback(entry: Record, draining: bool, data: seq<bv8>)
      modifies store
      ensures store.recordSequenceNumber == old(store.recordSequenceNumber)
      ensures store.droppedRecords == old(store.droppedRecords)
      ensures Outstanding() == old(Outstanding()) - 1
      ensures draining ==>
                && store.list == old(store.list)
                && store.recordsAllocated == Long(old(store.recordsAllocated) - 1)
      ensures !draining ==>
                && store.recordsAllocated == old(store.recordsAllocated)
                && store.list == old(store.list)
                     + [Record(entry.sequenceNumber, Uint32(store.droppedRecords), data)]
    {
      if draining {
        store.FreeEntry();
        return;
      }
      store.Append(entry.(data := data));
    }

    /** The record a whole operation adds to the list, if any. */
    function Traced(isShutdown: bool, before: seq<bv8>, draining: bool, after: seq<bv8>): seq<Record>
      reads store
    {
      if !isShutdown && draining then []
      else [Record(Uint32(store.recordSequenceNumber), Uint32(store.droppedRecords),
                   if isShutdown then before else after)]
    }

    /**
     * A whole operation, by the Filter Manager's rule that a requested callback
     * comes once. Nothing stays outstanding, and the list has grown by exactly the
     * operation's record if it was traced and not drained.
     */
    method Operation(isShutdown: bool, lookasideHasBlock: bool, before: seq<bv8>, draining: bool, after: seq<bv8>)
      modifies store
      ensures Outstanding() == old(Outstanding())
      ensures old(Traces(lookasideHasBlock)) ==>
                && store.list == old(store.list) + Traced(isShutdown, before, draining, after)
                && store.recordSequenceNumber == Long(old(store.recordSequenceNumber) + 1)
                && store.droppedRecords == old(store.droppedRecords)
      ensures !old(Traces(lookasideHasBlock)) ==> Untouched()
    {
      var verdict := PreOperationCallback(isShutdown, lookasideHasBlock, before);
      if verdict.WithCallback? {
        PostOperationCallback(verdict.entry, draining, after);
      }
    }

    /** What a Clear that sees these arrivals leaves: it has given back these records and nothing else. */
    twostate predicate ClearedAll(arrivals: seq<seq<Record>>, cleared: seq<Record>, sections: nat)
      reads this, store
    {
      && Clears(old(store.list), arrivals, cleared, sections)
      && store.list == [] && store.droppedRecords == 0
      && store.blocks == old(store.blocks) - |cleared|
      && store.recordsAllocated == Long(old(store.recordsAllocated) - |cleared|)
      && store.recordSequenceNumber == old(store.recordSequenceNumber)
    }

    /** ConnectNotify: one client at a time; a new session starts with an empty list. */
    method ConnectNotify(port: nat, arrivals: seq<seq<Record>>)
      returns (busy: bool, ghost cleared: seq<Record>, ghost sections: nat)
      modifies this`clientPort, store
      ensures busy <==> old(clientPort).Some?
      ensures busy ==> clientPort == old(clientPort) && Untouched() && store.droppedRecords == old(store.droppedRecords)
      ensures !busy ==> clientPort == Some(port) && ClearedAll(arrivals, cleared, sections)
    {
      cleared, sections := [], 0;
      if clientPort.Some? { return true, cleared, sections; }
      clientPort := Some(port);
      cleared, sections := store.Clear(arrivals);
      return false, cleared, sections;
    }

    /** DisconnectNotify: the port is taken before the list is emptied. */
    method DisconnectNotify(arrivals: seq<seq<Record>>) returns (ghost cleared: seq<Record>, ghost sections: nat)
      modifies this`clientPort, store
      ensures clientPort == None && ClearedAll(arrivals, cleared, sections)
    {
      clientPort := None;
      cleared, sections := store.Clear(arrivals);
    }

    /**
     * MessageNotify: only a well-formed request for records reaches the list, and
     * it ends as a drain ends; every other message leaves the store as it was and
     * names what is wrong. The written size is set only by an answer that wrote.
     */
    method MessageNotify(m: Message, arrivals: nat -> seq<Record>, faults: nat -> bool)
      returns (answer: Answer, output: seq<Record>, writtenSize: Option<nat>, ghost sections: nat)
      modifies store
      ensures answer.Drained? <==> AsksForRecords(m)
      ensures answer.Drained? ==>
                && DrainsTo(old(store.list), m.outputSize, arrivals, faults,
                            output, store.list, answer.status, sections)
                && store.blocks == old(store.blocks) - |output|
                && store.recordsAllocated == Long(old(store.recordsAllocated) - |output|)
                && store.recordSequenceNumber == old(store.recordSequenceNumber)
                && store.droppedRecords == old(store.droppedRecords)
      ensures !answer.Drained? ==> output == [] && Untouched() && store.droppedRecords == old(store.droppedRecords)
      ensures writtenSize == if answer.Drained? then Some(|output| * RECORD_SIZE)
                             else if answer.Version? then Some(VERSION_SIZE) else None
      ensures answer.Version? <==> AsksForVersion(m) && m.versionAligned && !m.outputFaults
      ensures answer.Fault? <==>
                HasBuffers(m) && (m.command.None? || (AsksForVersion(m) && m.versionAligned && m.outputFaults))
      ensures answer.Misaligned? <==>
                || (Readable(m) && m.command == Some(GET_RECORDS) && 0 < m.outputSize && !m.recordAligned)
                || (AsksForVersion(m) && !m.versionAligned)
    {
      hide DrainsTo;
      output, writtenSize, sections := [], None, 0;
      if !m.hasInput || m.inputSize < COMMAND_MESSAGE_SIZE { return Invalid, output, writtenSize, sections; }
      if !m.hasOutput { return Invalid, output, writtenSize, sections; }
      if m.command.None? { return Fault, output, writtenSize, sections; }
      if m.command.value == GET_RECORDS {
        if m.outputSize == 0 { return Invalid, output, writtenSize, sections; }
        if !m.recordAligned { return Misaligned, output, writtenSize, sections; }
        var size, status;
        output, size, status, sections := store.Drain(m.outputSize, arrivals, faults);
        return Drained(status), output, Some(size), sections;
      }
      if m.command.value == GET_VERSION {
        if m.outputSize < VERSION_SIZE { return Invalid, output, writtenSize, sections; }
        if !m.versionAligned { return Misaligned, output, writtenSize, sections; }
        if m.outputFaults { return Fault, output, writtenSize, sections; }
        return Version, output, Some(VERSION_SIZE), sections;
      }
      return Invalid, output, writtenSize, sections;
    }
  }
}
