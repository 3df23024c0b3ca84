/**
 * The walkers of count-prefixed arrays (info.cpp, filesystem.cpp) and of plain
 * arrays that fill the buffer (directory.cpp, filesystem.cpp): fixed-size elements, a
 * 32-bit count that need not match what was captured.
 */
module Arrays {
  import opened Common
  import opened Payload

  /** A header of headerSize bytes with the count at countAt, then elements of itemSize bytes. */
  datatype Layout = Layout(headerSize: nat, countAt: nat, itemSize: nat)

  const PROCESS_IDS := Layout(8, 0, 8)      // RenderProcessIdsPayload
  const PREFETCH := Layout(8, 4, 8)         // RenderPrefetchPayload
  const TRIM := Layout(8, 4, 16)            // RenderTrimPayload
  const REGIONS := Layout(16, 8, 24)        // RenderFileRegionOutputPayload

  const PREFETCH_EX_OFFSET := 16
  const FILE_PREFETCH_TYPE_FOR_CREATE_EX := 3
  const FILE_PREFETCH_TYPE_FOR_DIRENUM_EX := 4

  predicate Laid(a: Layout) { a.countAt + 4 <= a.headerSize && 1 < a.itemSize }

  /** The whole elements from an offset, which may lie past the end. */
  function Elements(p: Bytes, offset: nat, size: nat): (r: seq<Bytes>)
    requires 0 < size
    decreases |p| - offset
  {
    if !Fits(p, offset, size) then [] else [p[offset..offset + size]] + Elements(p, offset + size, size)
  }

  /** The elements the walker renders: those captured whole, at most count of them. */
  function Shown(p: Bytes, offset: nat, size: nat, count: nat): (r: seq<Bytes>)
    requires 0 < size
    ensures |r| <= count
  {
    var elements := Elements(p, offset, size);
    elements[..Min(|elements|, count)]
  }

  type Renderer = (nat, Bytes) -> Text

  /** The elements read so far and those from the offset on make up all of them. */
  ghost predicate Stepped(p: Bytes, start: nat, size: nat, done: seq<Bytes>, offset: nat) {
    0 < size && Elements(p, start, size) == done + Elements(p, offset, size)
  }

  lemma StepsStart(p: Bytes, start: nat, size: nat)
    requires 0 < size
    ensures Stepped(p, start, size, [], start)
  {
    assert [] + Elements(p, start, size) == Elements(p, start, size);
  }

  lemma StepOn(p: Bytes, start: nat, size: nat, done: seq<Bytes>, offset: nat)
    requires Stepped(p, start, size, done, offset)
    ensures !Fits(p, offset, size) ==> Elements(p, start, size) == done
    ensures Fits(p, offset, size) ==> Stepped(p, start, size, done + [p[offset..offset + size]], offset + size)
  {
    if Fits(p, offset, size) {
      var rest := Elements(p, offset + size, size);
      assert done + ([p[offset..offset + size]] + rest) == done + [p[offset..offset + size]] + rest;
    } else {
      assert done + [] == done;
    }
  }

  /**
   * The loop the counted renderers share, continuing a text that already holds
   * before. No read leaves the payload, and the 32-bit index does not wrap even for a
   * count of 0xFFFFFFFF.
   */
  method ReadCounted(payload: Bytes, start: nat, size: nat, count: nat, ghost before: seq<Text>, so: Text,
                     text: Renderer, separator: Text)
    returns (result: Text, marked: bool)
    requires 1 < size && |payload| < TWO_32 && count < TWO_32
    requires so == Followed(before, separator)
    ensures marked <==> |Shown(payload, start, size, count)| < count
    ensures result == Followed(before + Numbered(Shown(payload, start, size, count), text), separator)
  {
    hide Followed, Numbered;
    result := so;
    var offset, index := start, 1;
    ghost var done: seq<Bytes> := [];
    StepsStart(payload, start, size);
    NumberedNone(before, text);
    while index <= count
      invariant index == |done| + 1 && |done| <= count && start + 2 * |done| <= offset
      invariant done != [] ==> offset <= |payload|
      invariant Stepped(payload, start, size, done, offset)
      invariant result == Followed(before + Numbered(done, text), separator)
      decreases count - |done|
    {
      StepOn(payload, start, size, done, offset);
      if !Fits(payload, offset, size) { break; }
      var element := payload[offset..offset + size];
      NumberedMore(before, done, element, text, separator);
      result := result + (text(index, element) + separator);
      offset := offset + size;
      index := Wrap(index + 1);
      done := done + [element];
    }
    assert done == Shown(payload, start, size, count);
    marked := index <= count;
  }

  /** A text of ranges: the header's and the elements' texts form one list. */
  function RangesText(a: Layout, payload: Bytes, head: Bytes -> Text, text: Renderer, separator: Text): Text
    requires Laid(a)
  {
    if |payload| < a.headerSize then []
    else
      var count := U32(payload, a.countAt);
      var shown := Shown(payload, a.headerSize, a.itemSize, count);
      Listed([head(payload[..a.headerSize])] + Numbered(shown, text), separator, |shown| < count)
  }

  /** RenderTrimPayload and RenderFileRegionOutputPayload. */
  method RenderRanges(a: Layout, payload: Bytes, head: Bytes -> Text, text: Renderer, separator: Text)
    returns (result: Text)
    requires Laid(a) && |payload| < TWO_32
    ensures result == RangesText(a, payload, head, text, separator)
  {
    hide Followed, Joined, Numbered;
    if !Fits(payload, 0, a.headerSize) { return []; }
    var count := U32(payload, a.countAt);
    var first := head(payload[..a.headerSize]);
    FollowedOne(first, separator);
    var marked;
    result, marked := ReadCounted(payload, a.headerSize, a.itemSize, count, [first], first + separator,
                                  text, separator);
    if !marked {
      TrimJoins([first] + Numbered(Shown(payload, a.headerSize, a.itemSize, count), text), separator);
      result := result[..|result| - |separator|];
    }
    result := MarkTruncated(result, marked);
  }

  lemma FollowedOne(part: Text, separator: Text)
    ensures Followed([part], separator) == part + separator
  {
    FollowedMore([], part, separator);
    assert [] + [part] == [part];
  }

  /** Where the elements of a prefetch list start: later when the type carries a context. */
  function PrefetchStart(prefetchType: nat): nat {
    if prefetchType == FILE_PREFETCH_TYPE_FOR_CREATE_EX || prefetchType == FILE_PREFETCH_TYPE_FOR_DIRENUM_EX
    then PREFETCH_EX_OFFSET
    else PREFETCH.headerSize
  }

  function ListStart(a: Layout, payload: Bytes): nat
    requires Laid(a) && a.headerSize <= |payload|
  {
    if a == PREFETCH then PrefetchStart(U32(payload, 0)) else a.headerSize
  }

  /**
   * A text with a list: the list is a labelled field of its own, left out when the
   * count is zero. head stands for the formatting of the header fields, for a
   * prefetch list with its context.
   */
  function ListText(a: Layout, payload: Bytes, head: Bytes -> Text, listLabel: Text, text: Renderer,
                    separator: Text): Text
    requires Laid(a)
  {
    if |payload| < a.headerSize then []
    else
      var count := U32(payload, a.countAt);
      var shown := Shown(payload, ListStart(a, payload), a.itemSize, count);
      if count == 0 then head(payload)
      else head(payload) + (listLabel + Listed(Numbered(shown, text), separator, |shown| < count))
  }

  /** RenderProcessIdsPayload and RenderPrefetchPayload. */
  method RenderList(a: Layout, payload: Bytes, head: Bytes -> Text, listLabel: Text, text: Renderer, separator: Text)
    returns (result: Text)
    requires Laid(a) && |payload| < TWO_32
    ensures result == ListText(a, payload, head, listLabel, text, separator)
  {
    hide Followed, Joined, Numbered;
    if !Fits(payload, 0, a.headerSize) { return []; }
    var count := U32(payload, a.countAt);
    result := head(payload);
    var start := ListStart(a, payload);
    FollowedNone(separator);
    var list, marked := ReadCounted(payload, start, a.itemSize, count, [], [], text, separator);
    ghost var parts := Numbered(Shown(payload, start, a.itemSize, count), text);
    NothingBefore(parts);
    if count != 0 {
      if !marked {
        TrimJoins(parts, separator);
        list := list[..|list| - |separator|];
      }
      result := result + (listLabel + MarkTruncated(list, marked));
    }
  }

  lemma FollowedNone(separator: Text)
    ensures Followed([], separator) == []
  {
  }

  lemma NothingBefore(parts: seq<Text>)
    ensures [] + parts == parts
  {
  }

  /**
   * RenderObjectIdsPayload, RenderReparsePointsPayload and
   * RenderAllocatedRangesPayload: elements until the buffer ends. The mark is
   * the driver's truncation bit, or that not even one element is there.
   */
  method RenderFilling(payload: Bytes, size: nat, truncated: bool, text: Renderer, separator: Text)
    returns (result: Text)
    requires 1 < size && |payload| < TWO_32 && separator != []
    ensures result ==
      if payload == [] then []
      else
        var elements := Elements(payload, 0, size);
        Listed(Numbered(elements, text), separator, truncated || elements == [])
  {
    hide Followed, Joined, Numbered;
    if |payload| == 0 { return []; }
    result := [];
    var offset, index := 0, 1;
    ghost var done: seq<Bytes> := [];
    StepsStart(payload, 0, size);
    NumberedNone([], text);
    FollowedNone(separator);
    while Fits(payload, offset, size)
      invariant index == |done| + 1 && 2 * |done| <= offset <= |payload|
      invariant Stepped(payload, 0, size, done, offset)
      invariant result == Followed([] + Numbered(done, text), separator)
      invariant result == [] <==> done == []
      decreases |payload| - offset
    {
      StepOn(payload, 0, size, done, offset);
      var element := payload[offset..offset + size];
      NumberedMore([], done, element, text, separator);
      result := result + (text(index, element) + separator);
      offset := offset + size;
      index := Wrap(index + 1);
      done := done + [element];
    }
    StepOn(payload, 0, size, done, offset);
    NothingBefore(Numbered(done, text));
    var marked := truncated || result == [];
    if !marked {
      TrimJoins(Numbered(done, text), separator);
      result := result[..|result| - |separator|];
    }
    result := MarkTruncated(result, marked);
  }

  // ----- Round trips -----

  ghost predicate Sized(elements: seq<Bytes>, size: nat) {
    forall e <- elements :: |e| == size
  }

  lemma TimesStep(q: nat, size: nat)
    requires 0 < q
    ensures q * size == (q - 1) * size + size
  {
  }

  lemma {:induction false} ConcatSize(elements: seq<Bytes>, size: nat)
    requires Sized(elements, size)
    ensures |Concat(elements)| == |elements| * size
  {
    if elements != [] {
      ConcatSize(elements[1..], size);
      TimesStep(|elements|, size);
    }
  }

  /** n bytes hold q whole elements of this size. */
  ghost predicate Holds(n: nat, size: nat, q: nat) {
    q * size <= n < (q + 1) * size
  }

  lemma HoldsStep(n: nat, size: nat, q: nat)
    requires 0 < size && Holds(n, size, q)
    ensures q == 0 <==> n < size
    ensures 0 < q ==> size <= n && Holds(n - size, size, q - 1)
  {
    TimesStep(q + 1, size);
    if q > 0 {
      TimesStep(q, size);
      assert 0 <= (q - 1) * size;
    } else {
      assert q * size == 0;
    }
  }

  lemma Regroup(head: Bytes, e: Bytes, rest: Bytes, n: nat)
    requires |e| <= n <= |e| + |rest|
    ensures head + (e + rest)[..n] == (head + e) + rest[..n - |e|]
  {
  }

  /** Behind any header, n bytes of an array give back exactly the elements that lie in them whole. */
  lemma {:induction false} ElementsOfPrefix(head: Bytes, elements: seq<Bytes>, size: nat, n: nat, q: nat)
    requires 0 < size && Sized(elements, size) && n <= |Concat(elements)| && Holds(n, size, q)
    ensures q <= |elements|
    ensures Elements(head + Concat(elements)[..n], |head|, size) == elements[..q]
    decreases |elements|
  {
    HoldsStep(n, size, q);
    hide Holds;
    if 0 < q {
      assert elements != [];
      var e, rest := elements[0], Concat(elements[1..]);
      ElementsOfPrefix(head + e, elements[1..], size, n - size, q - 1);
      FirstElement(head, e, rest[..n - size], size);
      hide Elements;
      assert head + Concat(elements)[..n] == (head + e) + rest[..n - size] by { Regroup(head, e, rest, n); }
      TakeMore(elements, q);
    }
  }

  lemma TakeMore(elements: seq<Bytes>, q: nat)
    requires 0 < q <= |elements|
    ensures elements[..q] == [elements[0]] + elements[1..][..q - 1]
  {
  }

  lemma FirstElement(head: Bytes, e: Bytes, more: Bytes, size: nat)
    requires 0 < size == |e|
    ensures Elements((head + e) + more, |head|, size) == [e] + Elements((head + e) + more, |head + e|, size)
  {
    var p := (head + e) + more;
    assert p[|head|..|head| + size] == e;
  }

  /** What a driver writes: a header that holds the count, then the elements. */
  ghost predicate Announces(head: Bytes, countAt: nat, elements: seq<Bytes>) {
    Fits(head, countAt, 4) && U32(head, countAt) == |elements|
  }

  /**
   * A counted array cut anywhere behind its header: the elements that lie in the
   * prefix whole, all of them from the whole buffer, and the mark if and only if
   * an element byte is missing.
   */
  lemma PrefixShowsElements(head: Bytes, countAt: nat, elements: seq<Bytes>, size: nat, n: nat, q: nat)
    requires 0 < size && Sized(elements, size) && Announces(head, countAt, elements)
    requires n <= |Concat(elements)| && Holds(n, size, q)
    ensures q <= |elements|
    ensures Shown(head + Concat(elements)[..n], |head|, size, U32(head, countAt)) == elements[..q]
    ensures q < |elements| <==> n < |Concat(elements)|
  {
    ElementsOfPrefix(head, elements, size, n, q);
    ConcatSize(elements, size);
    HoldsBound(n, size, q, |elements|);
    assert elements[..q][..q] == elements[..q];
  }

  lemma HeaderStays(head: Bytes, rest: Bytes, at: nat)
    requires Fits(head, at, 4)
    ensures Fits(head + rest, at, 4) && U32(head + rest, at) == U32(head, at)
    ensures (head + rest)[..|head|] == head
  {
    assert (head + rest)[at..at + 4] == head[at..at + 4];
  }

  /** The text of ranges cut anywhere behind the header: the whole elements, marked exactly if a byte is missing. */
  lemma CutRanges(a: Layout, header: Bytes, elements: seq<Bytes>, n: nat, q: nat, head: Bytes -> Text, text: Renderer,
                  separator: Text)
    requires Laid(a) && |header| == a.headerSize && Sized(elements, a.itemSize)
    requires Announces(header, a.countAt, elements) && n <= |Concat(elements)| && Holds(n, a.itemSize, q)
    ensures q <= |elements|
    ensures RangesText(a, header + Concat(elements)[..n], head, text, separator)
         == Listed([head(header)] + Numbered(elements[..q], text), separator, n < |Concat(elements)|)
  {
    HeaderStays(header, Concat(elements)[..n], a.countAt);
    PrefixShowsElements(header, a.countAt, elements, a.itemSize, n, q);
    hide Shown, Listed, Holds, Concat, Numbered;
  }

  /** The same for a list; header is all that stands before the first element. */
  lemma CutList(a: Layout, header: Bytes, elements: seq<Bytes>, n: nat, q: nat, head: Bytes -> Text, listLabel: Text,
                text: Renderer, separator: Text)
    requires Laid(a) && a.headerSize <= |header| == ListStart(a, header) && Sized(elements, a.itemSize)
    requires Announces(header, a.countAt, elements) && n <= |Concat(elements)| && Holds(n, a.itemSize, q)
    ensures q <= |elements|
    ensures var payload := header + Concat(elements)[..n];
            ListText(a, payload, head, listLabel, text, separator) ==
              if elements == [] then head(payload)
              else head(payload)
                   + (listLabel + Listed(Numbered(elements[..q], text), separator, n < |Concat(elements)|))
  {
    HeaderStays(header, Concat(elements)[..n], a.countAt);
    if a == PREFETCH { HeaderStays(header, Concat(elements)[..n], 0); }
    PrefixShowsElements(header, a.countAt, elements, a.itemSize, n, q);
    hide Shown, Listed, Holds, Concat, Numbered;
  }

  lemma HoldsBound(n: nat, size: nat, q: nat, count: nat)
    requires 0 < size && Holds(n, size, q) && n <= count * size && q <= count
    ensures q < count <==> n < count * size
  {
    if q < count {
      assert (q + 1) * size <= count * size;
    }
  }

  /** An array that fills its buffer is marked exactly when the driver says so, once one element is there. */
  lemma PrefixShowsFilling(elements: seq<Bytes>, size: nat, n: nat, q: nat)
    requires 0 < size && Sized(elements, size) && n <= |Concat(elements)| && Holds(n, size, q)
    ensures q <= |elements| && Elements(Concat(elements)[..n], 0, size) == elements[..q]
    ensures Elements(Concat(elements)[..n], 0, size) == [] <==> n < size
  {
    ElementsOfPrefix([], elements, size, n, q);
    assert [] + Concat(elements)[..n] == Concat(elements)[..n];
    HoldsStep(n, size, q);
  }
}
