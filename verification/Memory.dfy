/**
 * Reading a caller's buffer in the driver (memory.cpp): which view of it is used,
 * and how much of it may be read. Memory the driver does not own may shrink, be
 * unmappable, belong to another process or fault while it is copied.
 */
module Memory {
  import opened Common
  import opened Payload

  /** A memory descriptor list: the address it describes and what it maps, if it can be mapped. */
  datatype Mdl = Mdl(address: nat, mapped: Option<Bytes>, byteCount: nat)

  predicate Described(mdl: Option<Mdl>) {
    mdl.Some? && mdl.value.mapped.Some? ==> mdl.value.byteCount == |mdl.value.mapped.value|
  }

  /** An unmapped address; 0 is null. probes: ProbeForRead does not raise for it. */
  datatype Raw = Raw(address: nat, inSystemRange: bool, probes: bool, bytes: Bytes)

  /** The callback data and the current thread. */
  datatype Callback = Callback(
    atDispatch: bool,                  // KeGetCurrentIrql() >= DISPATCH_LEVEL
    kernelMode: bool,                  // RequestorMode
    inOwnProcess: bool,                // the request's thread is known and in the current process
    newSystemBuffer: Option<Option<Bytes>>,  // FLTFL_CALLBACK_DATA_NEW_SYSTEM_BUFFER, and its address
    information: nat)                  // IoStatus.Information

  /** What IsRawBufferReadable finds out. */
  predicate RawReadable(c: Callback, raw: Raw, probed: bool) {
    && !c.atDispatch
    && raw.address != 0
    && (if raw.inSystemRange then probed || c.kernelMode else c.inOwnProcess && raw.probes)
  }

  /** A buffer to read from and how many bytes of it are promised. */
  datatype View = View(buffer: Option<Bytes>, size: nat)

  predicate Matches(mdl: Mdl, expected: nat) { expected == 0 || mdl.address == expected }

  /** MapMdl. Without a mapping the size stays as it was. */
  method MapMdl(mdl: Option<Mdl>, expected: nat, size: nat) returns (buffer: Option<Bytes>, mappedSize: nat)
    requires Described(mdl)
    ensures buffer.Some? <==>
              mdl.Some? && (expected == 0 || mdl.value.address == expected) && mdl.value.mapped.Some?
    ensures buffer.Some? ==> buffer == mdl.value.mapped && mappedSize == Min(size, |buffer.value|)
    ensures buffer.None? ==> mappedSize == size
  {
    mappedSize := size;
    if mdl.None? { return None, mappedSize; }
    if expected != 0 && mdl.value.address != expected { return None, mappedSize; }
    buffer := mdl.value.mapped;
    if buffer.None? { return; }
    if mdl.value.byteCount < mappedSize {
      mappedSize := mdl.value.byteCount;
    }
  }

  /** What GetReadableBuffer settles on. */
  function Readable(c: Callback, mdl: Option<Mdl>, raw: Raw, size: nat, probed: bool): View {
    if c.newSystemBuffer.Some? then
      if c.atDispatch then View(None, size) else View(c.newSystemBuffer.value, Min(size, c.information))
    else if mdl.Some? && Matches(mdl.value, raw.address) && mdl.value.mapped.Some? then
      View(mdl.value.mapped, Min(size, mdl.value.byteCount))
    else if RawReadable(c, raw, probed) then View(Some(raw.bytes), size)
    else View(None, size)
  }

  /**
   * IsRawBufferReadable. Never at DISPATCH_LEVEL; an address of the system only if it was probed or
   * the kernel is calling; any other only in the caller's own process and if it can be probed.
   */
  method IsRawBufferReadable(c: Callback, raw: Raw, probed: bool) returns (ok: bool)
    ensures c.atDispatch || raw.address == 0 ==> !ok
    ensures !c.atDispatch && raw.address != 0 && raw.inSystemRange ==> (ok <==> probed || c.kernelMode)
    ensures !c.atDispatch && raw.address != 0 && !raw.inSystemRange ==> (ok <==> c.inOwnProcess && raw.probes)
  {
    if c.atDispatch { return false; }
    if raw.address == 0 { return false; }
    if raw.inSystemRange { return probed || c.kernelMode; }
    if !c.inOwnProcess { return false; }
    return raw.probes;
  }

  /**
   * GetReadableBuffer. A new system buffer goes before everything, with what the completion wrote;
   * then the list, if it describes the buffer; then the buffer itself, if it may be read.
   */
  method GetReadableBuffer(c: Callback, mdl: Option<Mdl>, raw: Raw, size: nat, probed: bool) returns (view: View)
    requires Described(mdl)
    ensures view == Readable(c, mdl, raw, size, probed)
    ensures c.newSystemBuffer.Some? && c.atDispatch ==> view.buffer.None?
    ensures c.newSystemBuffer.Some? && !c.atDispatch ==>
              && view.buffer == c.newSystemBuffer.value
              && view.size <= size && view.size <= c.information && (view.size == size || view.size == c.information)
    ensures c.newSystemBuffer.None? && mdl.Some? && mdl.value.mapped.Some?
            && (raw.address == 0 || mdl.value.address == raw.address) ==>
              && view.buffer == mdl.value.mapped
              && view.size <= size && view.size <= |view.buffer.value|
              && (view.size == size || view.size == |view.buffer.value|)
    ensures c.newSystemBuffer.None?
            && (mdl.None? || mdl.value.mapped.None? || (raw.address != 0 && mdl.value.address != raw.address)) ==>
              && view.size == size
              && view.buffer ==
                   if c.atDispatch || raw.address == 0 then None
                   else if raw.inSystemRange then if probed || c.kernelMode then Some(raw.bytes) else None
                   else if c.inOwnProcess && raw.probes then Some(raw.bytes) else None
  {
    if c.newSystemBuffer.Some? {
      if c.atDispatch { return View(None, size); }
      var readable := size;
      if c.information < readable {
        readable := c.information;
      }
      return View(c.newSystemBuffer.value, readable);
    }
    var buffer, mappedSize := MapMdl(mdl, raw.address, size);
    if buffer.Some? { return View(buffer, mappedSize); }
    if raw.address != 0 {
      var ok := IsRawBufferReadable(c, raw, probed);
      if ok { return View(Some(raw.bytes), mappedSize); }
    }
    return View(None, mappedSize);
  }

  /** The copy succeeds: the memory is there and does not fault before its end. */
  predicate Copies(source: Bytes, size: nat, faultAt: nat) {
    size <= |source| && size <= faultAt
  }

  /**
   * CopyReadableBuffer: a fault ends the copy and leaves the bytes copied so far.
   * faultAt is the first address, relative to the source, that faults.
   */
  method CopyReadableBuffer(buffer: array<Byte>, source: Bytes, size: nat, faultAt: nat) returns (ok: bool)
    requires size <= buffer.Length
    modifies buffer
    ensures ok <==> size <= |source| && size <= faultAt
    ensures ok ==> buffer[..size] == source[..size]
    ensures buffer[size..] == old(buffer[size..])
  {
    var i := 0;
    while i < size
      invariant i <= size && i <= |source| && i <= faultAt
      invariant buffer[..i] == source[..i]
      invariant buffer[size..] == old(buffer[size..])
    {
      if |source| <= i || faultAt <= i { return false; }
      buffer[i] := source[i];
      assert buffer[..i + 1] == source[..i + 1];
      i := i + 1;
    }
    return true;
  }
}
