/**
 * The two-phase capture of variable-length buffers into a record's supplement
 * (supplement/deviceio.cpp, filesystem.cpp, ea.cpp, directory.cpp): a pre-operation
 * half, a post-operation half, and a size with a captured and a truncated bit for each.
 */
module Capture {
  import opened Common
  import opened Payload
  import opened Memory
  import opened Chains
  import opened ChainRounds

  const SUPPLEMENT_SIZE := 1104
  const INPUT_PAYLOAD_SIZE := 546
  const OUTPUT_PAYLOAD_SIZE := SUPPLEMENT_SIZE - 3 * 4 - INPUT_PAYLOAD_SIZE
  const EA_LIST_SIZE := 264
  const EA_PAYLOAD_SIZE := SUPPLEMENT_SIZE - 3 * 4 - EA_LIST_SIZE

  datatype Flag = CapturedInput | CapturedOutput | TruncatedInput | TruncatedOutput

  /** One half as the client will see it. */
  datatype Half = Half(captured: bool, truncated: bool, size: nat, bytes: Bytes)

  const EMPTY := Half(false, false, 0, [])

  /** What a capture step works with: where it may read, what was announced, when the copy would fault. */
  datatype Attempt = Attempt(view: View, announced: nat, faultAt: nat)

  /** The half after an attempt on an empty one. */
  function Taken(a: Attempt, capacity: nat): Half {
    var copySize := Min(a.view.size, capacity);
    if a.view.buffer.None? || a.view.size == 0 || !Copies(a.view.buffer.value, copySize, a.faultAt) then EMPTY
    else Half(true, copySize < a.announced, copySize, a.view.buffer.value[..copySize])
  }

  /** What the client may rely on: the halves' contract with whatever was there to be read. */
  ghost predicate Faithful(h: Half, a: Attempt, capacity: nat) {
    && (h.captured ==>
         && 0 < h.size <= capacity && |h.bytes| == h.size
         && a.view.buffer.Some? && h.bytes <= a.view.buffer.value
         && (h.truncated <==> h.size < a.announced))
    && (!h.captured ==> h == EMPTY)
  }

  lemma TakenIsFaithful(a: Attempt, capacity: nat)
    requires 0 < capacity
    ensures Faithful(Taken(a, capacity), a, capacity)
    ensures a.view.size <= a.announced && Taken(a, capacity).captured && !Taken(a, capacity).truncated ==>
              Taken(a, capacity).size == a.announced
  {
  }

  // ----- Requests -----

  datatype Transfer = Buffered | InDirect | OutDirect | Neither

  /** The low two bits of a control code. */
  function TransferOf(code: nat): Transfer {
    match code % 4
    case 0 => Buffered
    case 1 => InDirect
    case 2 => OutDirect
    case _ => Neither
  }

  /**
   * A device or file-system control request. The system buffer serves the input
   * of the buffered and direct methods and the output of the buffered one; the
   * raw buffers serve fast I/O and METHOD_NEITHER.
   */
  datatype Control = Control(
    fileSystem: bool,
    fastIo: bool,                     // only device control has a fast I/O form
    code: nat,
    inputLength: nat,
    outputLength: nat,
    systemBuffer: Option<Bytes>,
    inputBuffer: Raw,
    outputMdl: Option<Mdl>,
    outputBuffer: Raw)

  predicate Fast(r: Control) { r.fastIo && !r.fileSystem }

  const NO_BUFFER := Raw(0, false, false, [])

  /** The buffer PopulateInput copies from. */
  function InputView(c: Callback, r: Control): View {
    var transfer := TransferOf(r.code);
    var raw := if Fast(r) || transfer.Neither? then r.inputBuffer else NO_BUFFER;
    var system := if Fast(r) || transfer.Neither? then None else r.systemBuffer;
    View(if RawReadable(c, raw, !transfer.Neither?) then Some(raw.bytes) else system, r.inputLength)
  }

  function OutputMdl(r: Control): Option<Mdl> { if Fast(r) then None else r.outputMdl }

  /** The buffer PopulateSecondInput copies from. */
  function SecondInputView(c: Callback, r: Control): View {
    Readable(c, OutputMdl(r), r.outputBuffer, r.outputLength, true)
  }

  /** The buffer PopulateOutput copies from. */
  function OutputView(c: Callback, r: Control): View {
    var size := Min(r.outputLength, c.information);
    var transfer := TransferOf(r.code);
    if !Fast(r) && transfer.Buffered? then
      View(if r.fileSystem && c.atDispatch then None else r.systemBuffer, size)
    else Readable(c, OutputMdl(r), r.outputBuffer, size, !transfer.Neither?)
  }

  /** Nothing to read: the attempts of the phases that leave a half alone. */
  const NO_ATTEMPT := Attempt(View(None, 0), 0, 0)

  function InputAttempt(pre: Callback, r: Control, faultAt: nat): Attempt {
    if pre.atDispatch || r.inputLength == 0 then NO_ATTEMPT
    else Attempt(InputView(pre, r), r.inputLength, faultAt)
  }

  function SecondInputAttempt(pre: Callback, r: Control, faultAt: nat): Attempt {
    if pre.atDispatch || r.outputLength == 0 then NO_ATTEMPT
    else Attempt(SecondInputView(pre, r), r.outputLength, faultAt)
  }

  function OutputAttempt(post: Callback, r: Control, faultAt: nat): Attempt {
    if r.outputLength == 0 || post.information == 0 then NO_ATTEMPT
    else Attempt(OutputView(post, r), Min(r.outputLength, post.information), faultAt)
  }

  /** The buffers of an extended-attribute or directory query. The I/O manager has captured the list. */
  datatype Query = Query(list: Option<Bytes>, listLength: nat, length: nat, mdl: Option<Mdl>, buffer: Raw)

  function ListAttempt(pre: Callback, q: Query): Attempt {
    if pre.atDispatch || q.listLength == 0 then NO_ATTEMPT
    else Attempt(View(q.list, q.listLength), q.listLength, q.listLength)
  }

  /** What the completed query wrote, at most the buffer's length. */
  function PayloadAttempt(post: Callback, q: Query, faultAt: nat): Attempt {
    var dataSize := Min(q.length, post.information);
    if dataSize == 0 then NO_ATTEMPT
    else Attempt(Readable(post, q.mdl, q.buffer, dataSize, true), dataSize, faultAt)
  }

  // ----- What a half holds, in the request's own terms -----

  /** The half of a zeroed record. */
  predicate Nothing(h: Half) { !h.captured && !h.truncated && h.size == 0 && h.bytes == [] }

  /** The first readable bytes of the source, as many as there is room for; or nothing, if there are none
      or the copy faults. */
  ghost predicate Holds(h: Half, source: Bytes, readable: nat, capacity: nat, faultAt: nat) {
    var size := if readable < capacity then readable else capacity;
    if 0 < size <= |source| && size <= faultAt then h.captured && h.size == size && h.bytes == source[..size]
    else Nothing(h)
  }

  /** The bytes of a buffer of some size given by a list, an address, or both. */
  ghost predicate HoldsBuffer(h: Half, c: Callback, mdl: Option<Mdl>, raw: Raw, size: nat, probed: bool,
                              capacity: nat, faultAt: nat) {
    if c.newSystemBuffer.Some? then
      if c.atDispatch || c.newSystemBuffer.value.None? then Nothing(h)
      else
        var written := if c.information < size then c.information else size;
        Holds(h, c.newSystemBuffer.value.value, written, capacity, faultAt)
    else if mdl.Some? && mdl.value.mapped.Some? && (raw.address == 0 || mdl.value.address == raw.address) then
      var mapping := mdl.value.mapped.value;
      Holds(h, mapping, if |mapping| < size then |mapping| else size, capacity, faultAt)
    else if c.atDispatch || raw.address == 0 then Nothing(h)
    else if raw.inSystemRange && !probed && !c.kernelMode then Nothing(h)
    else if !raw.inSystemRange && !(c.inOwnProcess && raw.probes) then Nothing(h)
    else Holds(h, raw.bytes, size, capacity, faultAt)
  }

  /**
   * The input half: the system buffer, or for fast I/O and METHOD_NEITHER the caller's own buffer if it
   * may be read; truncated exactly if shorter than the input.
   */
  ghost predicate HoldsInput(h: Half, pre: Callback, r: Control, capacity: nat, faultAt: nat) {
    && (h.captured ==> (h.truncated <==> h.size < r.inputLength))
    && if pre.atDispatch || r.inputLength == 0 then Nothing(h)
       else if (r.fastIo && !r.fileSystem) || r.code % 4 == 3 then
         var raw := r.inputBuffer;
         if raw.address == 0 then Nothing(h)
         else if raw.inSystemRange && r.code % 4 == 3 && !pre.kernelMode then Nothing(h)
         else if !raw.inSystemRange && !(pre.inOwnProcess && raw.probes) then Nothing(h)
         else Holds(h, raw.bytes, r.inputLength, capacity, faultAt)
       else if r.systemBuffer.None? then Nothing(h)
       else Holds(h, r.systemBuffer.value, r.inputLength, capacity, faultAt)
  }

  /** The output half of METHOD_IN_DIRECT: the whole second input, truncated exactly if shorter than its buffer. */
  ghost predicate HoldsSecondInput(h: Half, pre: Callback, r: Control, capacity: nat, faultAt: nat) {
    && (h.captured ==> (h.truncated <==> h.size < r.outputLength))
    && if pre.atDispatch || r.outputLength == 0 then Nothing(h)
       else
         var mdl := if r.fastIo && !r.fileSystem then None else r.outputMdl;
         HoldsBuffer(h, pre, mdl, r.outputBuffer, r.outputLength, true, capacity, faultAt)
  }

  /**
   * The output half of the other methods: what was written, from the system buffer for METHOD_BUFFERED
   * and otherwise from the output buffer; truncated exactly if shorter than what was written there.
   */
  ghost predicate HoldsOutput(h: Half, post: Callback, r: Control, capacity: nat, faultAt: nat) {
    && (h.captured ==> (h.truncated <==> h.size < r.outputLength && h.size < post.information))
    && var written := if post.information < r.outputLength then post.information else r.outputLength;
       if written == 0 then Nothing(h)
       else if r.fastIo && !r.fileSystem then
         HoldsBuffer(h, post, None, r.outputBuffer, written, r.code % 4 != 3, capacity, faultAt)
       else if r.code % 4 == 0 then
         if r.systemBuffer.None? || (r.fileSystem && post.atDispatch) then Nothing(h)
         else Holds(h, r.systemBuffer.value, written, capacity, faultAt)
       else HoldsBuffer(h, post, r.outputMdl, r.outputBuffer, written, r.code % 4 != 3, capacity, faultAt)
  }

  /** The list the I/O manager captured, truncated exactly if shorter than it. */
  ghost predicate HoldsList(h: Half, pre: Callback, q: Query, capacity: nat) {
    && (h.captured ==> (h.truncated <==> h.size < q.listLength))
    && if pre.atDispatch || q.list.None? then Nothing(h)
       else Holds(h, q.list.value, q.listLength, capacity, q.listLength)
  }

  /** What the query wrote, truncated exactly if shorter. */
  ghost predicate HoldsPayload(h: Half, post: Callback, q: Query, capacity: nat, faultAt: nat) {
    && (h.captured ==> (h.truncated <==> h.size < q.length && h.size < post.information))
    && var written := if post.information < q.length then post.information else q.length;
       HoldsBuffer(h, post, q.mdl, q.buffer, written, true, capacity, faultAt)
  }

  lemma TakenHolds(a: Attempt, capacity: nat)
    requires 0 < capacity
    ensures var h := Taken(a, capacity);
            && (a.view.buffer.None? ==> Nothing(h))
            && (a.view.buffer.Some? ==> Holds(h, a.view.buffer.value, a.view.size, capacity, a.faultAt))
            && (a.view.size == 0 ==> Nothing(h))
            && (h.captured ==> (h.truncated <==> h.size < a.announced))
  {
  }

  lemma ReadableHolds(c: Callback, mdl: Option<Mdl>, raw: Raw, size: nat, probed: bool, announced: nat,
                      capacity: nat, faultAt: nat)
    requires 0 < capacity && Described(mdl)
    ensures HoldsBuffer(Taken(Attempt(Readable(c, mdl, raw, size, probed), announced, faultAt), capacity),
                        c, mdl, raw, size, probed, capacity, faultAt)
  {
    TakenHolds(Attempt(Readable(c, mdl, raw, size, probed), announced, faultAt), capacity);
    hide Taken, Holds, Nothing;
  }

  lemma InputHolds(pre: Callback, r: Control, capacity: nat, faultAt: nat)
    requires 0 < capacity
    ensures HoldsInput(Taken(InputAttempt(pre, r, faultAt), capacity), pre, r, capacity, faultAt)
  {
    TakenHolds(InputAttempt(pre, r, faultAt), capacity);
    hide Taken, Holds, Nothing;
  }

  lemma SecondInputHolds(pre: Callback, r: Control, capacity: nat, faultAt: nat)
    requires 0 < capacity && Described(r.outputMdl)
    ensures HoldsSecondInput(Taken(SecondInputAttempt(pre, r, faultAt), capacity), pre, r, capacity, faultAt)
  {
    TakenHolds(SecondInputAttempt(pre, r, faultAt), capacity);
    ReadableHolds(pre, OutputMdl(r), r.outputBuffer, r.outputLength, true, r.outputLength, capacity, faultAt);
    hide Taken, Holds, Nothing, HoldsBuffer, Readable;
  }

  lemma OutputHolds(post: Callback, r: Control, capacity: nat, faultAt: nat)
    requires 0 < capacity && Described(r.outputMdl)
    ensures HoldsOutput(Taken(OutputAttempt(post, r, faultAt), capacity), post, r, capacity, faultAt)
  {
    var size := Min(r.outputLength, post.information);
    TakenHolds(OutputAttempt(post, r, faultAt), capacity);
    ReadableHolds(post, OutputMdl(r), r.outputBuffer, size, !TransferOf(r.code).Neither?, size, capacity, faultAt);
    hide Taken, Holds, Nothing, HoldsBuffer, Readable;
  }

  lemma ListHolds(pre: Callback, q: Query, capacity: nat)
    requires 0 < capacity
    ensures HoldsList(Taken(ListAttempt(pre, q), capacity), pre, q, capacity)
  {
  }

  lemma PayloadHolds(post: Callback, q: Query, capacity: nat, faultAt: nat)
    requires 0 < capacity && Described(q.mdl)
    ensures HoldsPayload(Taken(PayloadAttempt(post, q, faultAt), capacity), post, q, capacity, faultAt)
  {
    var size := Min(q.length, post.information);
    TakenHolds(PayloadAttempt(post, q, faultAt), capacity);
    TakenHolds(Attempt(Readable(post, q.mdl, q.buffer, size, true), size, faultAt), capacity);
    ReadableHolds(post, q.mdl, q.buffer, size, true, size, capacity, faultAt);
    hide Taken, Holds, Readable;
  }

  // ----- The supplement -----

  /** DeviceIoControlSupplement, FsControlSupplement and, with its two other capacities, QueryEaSupplement. */
  class Supplement {
    const inputPayload: array<Byte>
    const outputPayload: array<Byte>
    var capturedInputSize: nat
    var capturedOutputSize: nat
    var captured: set<Flag>

    ghost predicate Valid()
      reads this
    {
      && inputPayload != outputPayload
      && 0 < inputPayload.Length && 0 < outputPayload.Length
      && capturedInputSize <= inputPayload.Length && capturedOutputSize <= outputPayload.Length
    }

    ghost function Input(): Half
      requires Valid()
      reads this, inputPayload
    {
      Half(CapturedInput in captured, TruncatedInput in captured, capturedInputSize, inputPayload[..capturedInputSize])
    }

    ghost function Output(): Half
      requires Valid()
      reads this, outputPayload
    {
      Half(CapturedOutput in captured, TruncatedOutput in captured, capturedOutputSize,
           outputPayload[..capturedOutputSize])
    }

    /** The supplement of a zeroed record. */
    constructor (inputSize: nat, outputSize: nat)
      requires 0 < inputSize && 0 < outputSize
      ensures Valid() && fresh(inputPayload) && fresh(outputPayload)
      ensures inputPayload.Length == inputSize && outputPayload.Length == outputSize
      ensures Input() == EMPTY && Output() == EMPTY
    {
      inputPayload := new Byte[inputSize](_ => 0);
      outputPayload := new Byte[outputSize](_ => 0);
      capturedInputSize, capturedOutputSize, captured := 0, 0, {};
    }

    /** The end of PopulateInput and all of PopulateEaList: copy what fits, then set size and bits. */
    method TakeInput(a: Attempt)
      requires Valid() && Input() == EMPTY
      modifies this, inputPayload
      ensures Valid() && Input() == Taken(a, inputPayload.Length) && Output() == old(Output())
    {
      if a.view.buffer.None? || a.view.size == 0 { return; }
      var copySize := if a.view.size < inputPayload.Length then a.view.size else inputPayload.Length;
      var ok := CopyReadableBuffer(inputPayload, a.view.buffer.value, copySize, a.faultAt);
      if !ok { return; }
      if copySize < a.announced {
        captured := captured + {TruncatedInput};
      }
      capturedInputSize := copySize;
      captured := captured + {CapturedInput};
    }

    /** The same for the other half. */
    method TakeOutput(a: Attempt)
      requires Valid() && Output() == EMPTY
      modifies this, outputPayload
      ensures Valid() && Output() == Taken(a, outputPayload.Length) && Input() == old(Input())
    {
      if a.view.buffer.None? || a.view.size == 0 { return; }
      var copySize := if a.view.size < outputPayload.Length then a.view.size else outputPayload.Length;
      var ok := CopyReadableBuffer(outputPayload, a.view.buffer.value, copySize, a.faultAt);
      if !ok { return; }
      if copySize < a.announced {
        captured := captured + {TruncatedOutput};
      }
      capturedOutputSize := copySize;
      captured := captured + {CapturedOutput};
    }

    method PopulateSecondInput(pre: Callback, r: Control, faultAt: nat)
      requires Valid() && Output() == EMPTY && Described(r.outputMdl) && !pre.atDispatch
      modifies this, outputPayload
      ensures Valid() && Input() == old(Input())
      ensures Output() == Taken(SecondInputAttempt(pre, r, faultAt), outputPayload.Length)
      ensures HoldsSecondInput(Output(), pre, r, outputPayload.Length, faultAt)
    {
      SecondInputHolds(pre, r, outputPayload.Length, faultAt);
      hide HoldsSecondInput;
      if r.outputLength == 0 { return; }
      var view;
      if Fast(r) {
        view := GetReadableBuffer(pre, None, r.outputBuffer, r.outputLength, true);
      } else {
        view := GetReadableBuffer(pre, r.outputMdl, r.outputBuffer, r.outputLength, true);
      }
      TakeOutput(Attempt(view, r.outputLength, faultAt));
    }

    /**
     * The pre-operation phase. METHOD_IN_DIRECT has its second input in the
     * output half; with every other method that half is not touched.
     */
    method PopulateInput(pre: Callback, r: Control, faultAt: nat, secondFaultAt: nat)
      requires Valid() && Input() == EMPTY && Output() == EMPTY && Described(r.outputMdl)
      modifies this, inputPayload, outputPayload
      ensures Valid()
      ensures Input() == Taken(InputAttempt(pre, r, faultAt), inputPayload.Length)
      ensures TransferOf(r.code).InDirect? ==>
                Output() == Taken(SecondInputAttempt(pre, r, secondFaultAt), outputPayload.Length)
      ensures !TransferOf(r.code).InDirect? ==> Output() == EMPTY && outputPayload[..] == old(outputPayload[..])
      ensures HoldsInput(Input(), pre, r, inputPayload.Length, faultAt)
      ensures r.code % 4 == 1 ==> HoldsSecondInput(Output(), pre, r, outputPayload.Length, secondFaultAt)
      ensures r.code % 4 != 1 ==> Nothing(Output())
    {
      InputHolds(pre, r, inputPayload.Length, faultAt);
      SecondInputHolds(pre, r, outputPayload.Length, secondFaultAt);
      hide HoldsInput, HoldsSecondInput;
      if pre.atDispatch { return; }
      if r.inputLength == 0 && r.outputLength == 0 { return; }
      var transfer := TransferOf(r.code);
      var input, raw := None, NO_BUFFER;
      if Fast(r) {
        raw := r.inputBuffer;
      } else {
        match transfer
        case Buffered => input := r.systemBuffer;
        case InDirect => input := r.systemBuffer;
        case OutDirect => input := r.systemBuffer;
        case Neither => raw := r.inputBuffer;
      }
      if raw.address != 0 && RawReadable(pre, raw, !transfer.Neither?) {
        input := Some(raw.bytes);
      }
      if transfer.InDirect? {
        PopulateSecondInput(pre, r, secondFaultAt);
      }
      if input.None? || r.inputLength == 0 { return; }
      TakeInput(Attempt(View(input, r.inputLength), r.inputLength, faultAt));
    }

    /**
     * The post-operation phase. Of METHOD_IN_DIRECT it writes nothing; of the
     * others it writes the output half alone.
     */
    method PopulateOutput(post: Callback, r: Control, faultAt: nat)
      requires Valid() && Described(r.outputMdl)
      requires !TransferOf(r.code).InDirect? ==> Output() == EMPTY
      modifies this, outputPayload
      ensures Valid() && Input() == old(Input())
      ensures TransferOf(r.code).InDirect? ==> Output() == old(Output()) && outputPayload[..] == old(outputPayload[..])
      ensures !TransferOf(r.code).InDirect? ==>
                Output() == Taken(OutputAttempt(post, r, faultAt), outputPayload.Length)
      ensures r.code % 4 == 1 ==> Output() == old(Output())
      ensures r.code % 4 != 1 ==> HoldsOutput(Output(), post, r, outputPayload.Length, faultAt)
    {
      OutputHolds(post, r, outputPayload.Length, faultAt);
      hide HoldsOutput;
      var transfer := TransferOf(r.code);
      if transfer.InDirect? || r.outputLength == 0 || post.information == 0 { return; }
      var dataSize := if post.information < r.outputLength then post.information else r.outputLength;
      var view := View(None, dataSize);
      if Fast(r) {
        view := GetReadableBuffer(post, None, r.outputBuffer, dataSize, !transfer.Neither?);
      } else if transfer.Buffered? {
        if !r.fileSystem || !post.atDispatch {
          view := View(r.systemBuffer, dataSize);
        }
      } else {
        view := GetReadableBuffer(post, r.outputMdl, r.outputBuffer, dataSize, !transfer.Neither?);
      }
      TakeOutput(Attempt(view, dataSize, faultAt));
    }

    /** PopulateEaList: the pre-operation half of an extended-attribute query. */
    method PopulateEaList(pre: Callback, q: Query)
      requires Valid() && Input() == EMPTY
      modifies this, inputPayload
      ensures Valid() && Output() == old(Output())
      ensures Input() == Taken(ListAttempt(pre, q), inputPayload.Length)
      ensures HoldsList(Input(), pre, q, inputPayload.Length)
    {
      ListHolds(pre, q, inputPayload.Length);
      hide HoldsList;
      if pre.atDispatch { return; }
      if q.list.None? || q.listLength == 0 { return; }
      TakeInput(Attempt(View(q.list, q.listLength), q.listLength, q.listLength));
    }

    /** PopulateQuery and PopulateNotify: the post-operation half of a query. */
    method PopulateQuery(post: Callback, q: Query, faultAt: nat)
      requires Valid() && Output() == EMPTY && Described(q.mdl)
      modifies this, outputPayload
      ensures Valid() && Input() == old(Input())
      ensures Output() == Taken(PayloadAttempt(post, q, faultAt), outputPayload.Length)
      ensures HoldsPayload(Output(), post, q, outputPayload.Length, faultAt)
    {
      PayloadHolds(post, q, outputPayload.Length, faultAt);
      hide HoldsPayload;
      if q.length == 0 || post.information == 0 { return; }
      var dataSize := if post.information < q.length then post.information else q.length;
      var view := GetReadableBuffer(post, q.mdl, q.buffer, dataSize, true);
      TakeOutput(Attempt(view, dataSize, faultAt));
    }
  }

  /** Which attempt fills the output half over a whole operation. */
  function WholeOutputAttempt(pre: Callback, post: Callback, before: Control, after: Control, secondFaultAt: nat,
                              outputFaultAt: nat): Attempt {
    if TransferOf(before.code).InDirect? then SecondInputAttempt(pre, before, secondFaultAt)
    else OutputAttempt(post, after, outputFaultAt)
  }

  /**
   * Both phases of a control operation on a zeroed record: each half keeps its
   * contract with the one attempt that filled it. The buffers may have changed
   * in between, the control code not.
   */
  method CaptureControl(pre: Callback, post: Callback, before: Control, after: Control, inputFaultAt: nat,
                        secondFaultAt: nat, outputFaultAt: nat) returns (s: Supplement)
    requires Described(before.outputMdl) && Described(after.outputMdl) && before.code == after.code
    ensures fresh(s) && s.Valid()
    ensures s.inputPayload.Length == INPUT_PAYLOAD_SIZE && s.outputPayload.Length == OUTPUT_PAYLOAD_SIZE
    ensures Faithful(s.Input(), InputAttempt(pre, before, inputFaultAt), INPUT_PAYLOAD_SIZE)
    ensures Faithful(s.Output(), WholeOutputAttempt(pre, post, before, after, secondFaultAt, outputFaultAt),
                     OUTPUT_PAYLOAD_SIZE)
    ensures HoldsInput(s.Input(), pre, before, INPUT_PAYLOAD_SIZE, inputFaultAt)
    ensures before.code % 4 == 1 ==> HoldsSecondInput(s.Output(), pre, before, OUTPUT_PAYLOAD_SIZE, secondFaultAt)
    ensures before.code % 4 != 1 ==> HoldsOutput(s.Output(), post, after, OUTPUT_PAYLOAD_SIZE, outputFaultAt)
  {
    hide HoldsInput, HoldsSecondInput, HoldsOutput;
    s := new Supplement(INPUT_PAYLOAD_SIZE, OUTPUT_PAYLOAD_SIZE);
    TakenIsFaithful(InputAttempt(pre, before, inputFaultAt), INPUT_PAYLOAD_SIZE);
    TakenIsFaithful(WholeOutputAttempt(pre, post, before, after, secondFaultAt, outputFaultAt), OUTPUT_PAYLOAD_SIZE);
    s.PopulateInput(pre, before, inputFaultAt, secondFaultAt);
    s.PopulateOutput(post, after, outputFaultAt);
  }

  /** Both phases of an extended-attribute query on a zeroed record. */
  method CaptureEas(pre: Callback, post: Callback, before: Query, after: Query, faultAt: nat) returns (s: Supplement)
    requires Described(after.mdl)
    ensures fresh(s) && s.Valid()
    ensures s.inputPayload.Length == EA_LIST_SIZE && s.outputPayload.Length == EA_PAYLOAD_SIZE
    ensures Faithful(s.Input(), ListAttempt(pre, before), EA_LIST_SIZE)
    ensures Faithful(s.Output(), PayloadAttempt(post, after, faultAt), EA_PAYLOAD_SIZE)
    ensures HoldsList(s.Input(), pre, before, EA_LIST_SIZE)
    ensures HoldsPayload(s.Output(), post, after, EA_PAYLOAD_SIZE, faultAt)
  {
    hide HoldsList, HoldsPayload;
    s := new Supplement(EA_LIST_SIZE, EA_PAYLOAD_SIZE);
    TakenIsFaithful(ListAttempt(pre, before), EA_LIST_SIZE);
    TakenIsFaithful(PayloadAttempt(post, after, faultAt), EA_PAYLOAD_SIZE);
    s.PopulateEaList(pre, before);
    s.PopulateQuery(post, after, faultAt);
  }

  // ----- From the driver's buffer to the client's text -----

  /** The attempt read from a buffer into which the kernel had written these bytes and no more. */
  ghost predicate Reads(a: Attempt, data: Bytes) {
    && a.view.buffer.Some?
    && a.announced == |data| <= |a.view.buffer.value|
    && a.view.buffer.value[..a.announced] == data
    && a.view.size <= a.announced
  }

  /** What was captured of them is a prefix, truncated exactly if bytes are missing. */
  lemma CapturedIsPrefix(a: Attempt, capacity: nat, data: Bytes)
    requires 0 < capacity && Reads(a, data) && Taken(a, capacity).captured
    ensures var h := Taken(a, capacity);
            && 0 < h.size <= |data| && h.bytes == data[..h.size]
            && (h.truncated <==> h.size < |data|)
            && (!h.truncated ==> h.bytes == data)
  {
    var h := Taken(a, capacity);
    SliceOfPrefix(a.view.buffer.value, a.announced, 0, h.size);
    assert data[..|data|] == data;
  }

  /**
   * Driver and client together: whatever part of a chain was captured, the walker
   * shows its entries as far as the captured bytes go, marks the text if and only
   * if content is missing, and marks nothing the driver did not record as truncated.
   */
  lemma CapturedChainShows(w: Walker, es: seq<Entry>, a: Attempt, capacity: nat)
    requires Laid(w) && AllSound(w, es) && es != [] && Reads(a, Encode(w, es))
    requires 0 < capacity && Taken(a, capacity).captured
    ensures var h := Taken(a, capacity);
            && ShowsExactly(w, es, h.size, Walk(w, h.bytes).items)
            && (Marked(Walk(w, h.bytes)) <==> h.size < Content(w, es))
            && (Marked(Walk(w, h.bytes)) ==> h.truncated)
            && (!h.truncated ==> h.bytes == Encode(w, es))
  {
    CapturedIsPrefix(a, capacity, Encode(w, es));
    PrefixShowsPrefix(w, es, Taken(a, capacity).size);
    assert Content(w, es) <= Offset(w, es, |es|) == |Encode(w, es)|;
  }
}
