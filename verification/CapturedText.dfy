/**
 * Driver and client together for arrays and journal records: what the client
 * renders of what the driver captured, and that its mark is the driver's
 * truncation bit said again.
 */
module CapturedText {
  import opened Payload
  import opened Capture
  import A = Arrays
  import U = UsnRecords

  /** An array that fills its buffer: the whole elements captured, marked exactly if bytes are missing. */
  lemma CapturedFillingShows(elements: seq<Bytes>, size: nat, a: Attempt, capacity: nat, q: nat)
    requires 0 < size && A.Sized(elements, size) && elements != [] && Reads(a, Concat(elements))
    requires 0 < capacity && Taken(a, capacity).captured && A.Holds(Taken(a, capacity).size, size, q)
    ensures var h := Taken(a, capacity);
            && q <= |elements| && A.Elements(h.bytes, 0, size) == elements[..q]
            && (h.truncated || A.Elements(h.bytes, 0, size) == [] <==> h.size < |Concat(elements)|)
  {
    var h := Taken(a, capacity);
    CapturedIsPrefix(a, capacity, Concat(elements));
    A.PrefixShowsFilling(elements, size, h.size, q);
    A.ConcatSize(elements, size);
    A.TimesStep(|elements|, size);
    assert 0 <= (|elements| - 1) * size;
  }

  /** Behind its header a cut array shows its whole elements. */
  lemma ArrayBehindHeader(header: Bytes, countAt: nat, elements: seq<Bytes>, size: nat, n: nat, q: nat)
    requires 0 < size && A.Sized(elements, size) && A.Announces(header, countAt, elements)
    requires n <= |Concat(elements)| && A.Holds(n, size, q)
    ensures var p := header + Concat(elements)[..n];
            var shown := A.Shown(p, |header|, size, |elements|);
            && U32(p, countAt) == |elements| && q <= |elements| && shown == elements[..q]
            && (|shown| < |elements| <==> n < |Concat(elements)|)
  {
    A.PrefixShowsElements(header, countAt, elements, size, n, q);
    A.HeaderStays(header, Concat(elements)[..n], countAt);
  }

  /** Cut inside its header it shows none. */
  lemma ArrayInsideHeader(p: Bytes, start: nat, size: nat, count: nat)
    requires 0 < size && |p| < start
    ensures A.Shown(p, start, size, count) == []
  {
  }

  lemma CountIsThere(data: Bytes, n: nat, header: Bytes, countAt: nat)
    requires n <= |data| && header <= data && countAt + 4 <= |header|
    ensures countAt + 4 <= n ==> U32(data[..n], countAt) == U32(header, countAt)
  {
    if countAt + 4 <= n {
      assert data[..n][countAt..countAt + 4] == header[countAt..countAt + 4];
    }
  }

  lemma CutBehind(header: Bytes, rest: Bytes, n: nat)
    requires |header| <= n <= |header + rest|
    ensures (header + rest)[..n] == header + rest[..n - |header|]
  {
  }

  /**
   * A counted array: the whole elements captured, fewer than announced exactly if
   * an element byte is missing. header is all that stands before the elements; of a
   * capture that ends inside it no element shows, and the driver's bit is set.
   */
  lemma CapturedArrayShows(header: Bytes, countAt: nat, elements: seq<Bytes>, size: nat, a: Attempt, capacity: nat,
                           q: nat)
    requires 0 < size && A.Sized(elements, size) && A.Announces(header, countAt, elements)
    requires 0 < capacity && Reads(a, header + Concat(elements)) && Taken(a, capacity).captured
    requires var n := Taken(a, capacity).size; A.Holds(if |header| <= n then n - |header| else 0, size, q)
    ensures var h := Taken(a, capacity);
            var shown := A.Shown(h.bytes, |header|, size, |elements|);
            && (countAt + 4 <= h.size ==> U32(h.bytes, countAt) == |elements|)
            && q <= |elements| && shown == elements[..q]
            && (|header| <= h.size ==>
                 && (|shown| < |elements| <==> h.size < |header| + |Concat(elements)|)
                 && (|shown| < |elements| <==> h.truncated))
            && (h.size < |header| ==> h.truncated && shown == [])
  {
    var h, data := Taken(a, capacity), header + Concat(elements);
    CapturedIsPrefix(a, capacity, data);
    CountIsThere(data, h.size, header, countAt);
    hide A.Shown, Concat, A.Sized, Taken, Reads;
    if |header| <= h.size {
      CutBehind(header, Concat(elements), h.size);
      ArrayBehindHeader(header, countAt, elements, size, h.size - |header|, q);
    } else {
      ArrayInsideHeader(h.bytes, |header|, size, |elements|);
      A.HoldsStep(0, size, q);
      assert elements[..0] == [];
    }
  }

  /** A capture that ends inside the header renders as nothing, and so without a mark, although
      the driver has set its bit. */
  lemma CapturedHeaderCut(l: A.Layout, data: Bytes, a: Attempt, capacity: nat, head: Bytes -> Text, listLabel: Text,
                          text: A.Renderer, separator: Text)
    requires A.Laid(l) && l.headerSize <= |data|
    requires 0 < capacity && Reads(a, data) && Taken(a, capacity).captured && Taken(a, capacity).size < l.headerSize
    ensures var h := Taken(a, capacity);
            && h.truncated && A.RangesText(l, h.bytes, head, text, separator) == []
            && A.ListText(l, h.bytes, head, listLabel, text, separator) == []
  {
    CapturedIsPrefix(a, capacity, data);
  }

  /**
   * Journal records: those whose fixed part was captured, and the mark exactly if
   * bytes are missing; but a capture that ends inside the next USN renders as
   * nothing, without a mark.
   */
  lemma CapturedRecordsShow(nextUsn: Bytes, rs: seq<Bytes>, a: Attempt, capacity: nat, head: Bytes -> Text,
                            text: U.Renderer, separator: Text)
    requires |nextUsn| == U.NEXT_USN_SIZE && U.AllSound(rs)
    requires 0 < capacity && Reads(a, nextUsn + Concat(rs)) && Taken(a, capacity).captured
    ensures var h := Taken(a, capacity);
            && (h.truncated <==> h.size < U.NEXT_USN_SIZE + |Concat(rs)|)
            && (h.size < U.NEXT_USN_SIZE ==> U.RecordsText(h.bytes, h.truncated, head, text, separator) == [])
            && (U.NEXT_USN_SIZE <= h.size ==>
                 var items, n := U.Scan(h.bytes[U.NEXT_USN_SIZE..]), h.size - U.NEXT_USN_SIZE;
                 && |items| <= |rs|
                 && (forall i | 0 <= i < |rs| :: U.ShownRight(rs, n, items, i)))
  {
    var h := Taken(a, capacity);
    CapturedIsPrefix(a, capacity, nextUsn + Concat(rs));
    if U.NEXT_USN_SIZE <= h.size {
      var n := h.size - U.NEXT_USN_SIZE;
      assert h.bytes == nextUsn + Concat(rs)[..n];
      U.PrefixShowsRecords(nextUsn, rs, n);
    }
  }
}
