/**
 * The hard-link walker (info.cpp): a NextEntryOffset chain behind a header that
 * also gives the number of entries. The count and the chain may disagree; the
 * loop follows whichever ends first and marks by the count alone.
 */
module Links {
  import opened Common
  import opened Payload
  import opened Chains
  import opened ChainRounds

  const ENTRY_OFFSET := 8

  /** The entries the walker renders: those the chain shows, at most count of them. */
  function Within(items: seq<Item>, count: nat): (r: seq<Item>)
    ensures |r| == Min(|items|, count)
  {
    items[..Min(|items|, count)]
  }

  function Shown(w: Walker, payload: Bytes): seq<Item>
    requires Laid(w) && ENTRY_OFFSET <= |payload|
  {
    Within(Scan(w, payload, ENTRY_OFFSET).items, U32(payload, 4))
  }

  /** Whether the walker ends the list with the truncation mark. */
  predicate Short(w: Walker, payload: Bytes)
    requires Laid(w) && ENTRY_OFFSET <= |payload|
  {
    |Shown(w, payload)| < U32(payload, 4)
  }

  /**
   * RenderHardLinksPayload. head stands for the formatting of BytesNeeded and
   * EntriesReturned. The index stays a 32-bit value even when 0xFFFFFFFF entries
   * are announced.
   */
  method RenderHardLinks(w: Walker, payload: Bytes, head: (nat, nat) -> Text, text: Renderer, separator: Text)
    returns (result: Text)
    requires Laid(w) && !w.tail.Sid? && |payload| < TWO_32
    ensures result ==
      if |payload| < ENTRY_OFFSET then []
      else
        var first := head(U32(payload, 0), U32(payload, 4));
        Listed([first] + Numbered(Shown(w, payload), text), separator, Short(w, payload))
  {
    hide ReadItem, Next, Scan, Followed, Joined, Numbered;
    if !Fits(payload, 0, ENTRY_OFFSET) { return []; }
    var count := U32(payload, 4);
    ghost var first := head(U32(payload, 0), count);
    result := head(U32(payload, 0), count) + separator;
    var offset, index := ENTRY_OFFSET, 1;

    ghost var whole, items: seq<Item> := Scan(w, payload, ENTRY_OFFSET), [];
    WalkStarts(w, payload, ENTRY_OFFSET);
    BehindNothing(first, text, separator);
    while index <= count
      invariant |items| <= offset && index == |items| + 1 && |items| <= count
      invariant Walked(w, payload, whole, items, offset)
      invariant result == Behind(first, items, text, separator)
      decreases |payload| - offset
    {
      WalkOn(w, payload, whole, items, offset);
      if !Fits(payload, offset, w.headerSize) { break; }
      var item, next := ReadItem(w, payload, offset), Next(w, payload, offset);
      BehindMore(first, items, item, text, separator);
      result := result + (text(index, item) + separator);
      index := Wrap(index + 1);
      items := items + [item];

      if next == 0 { break; }
      var ok, moved := Advance(payload, offset, next);
      if !ok { break; }
      offset := moved;
    }

    assert items == Within(whole.items, count);
    var marked := index <= count;
    if !marked {
      BehindTrims(first, items, text, separator);
      result := result[..|result| - |separator|];
    }
    result := MarkTruncated(result, marked);
  }

  /** The text the loop has built: the head and these entries. */
  function Behind(first: Text, items: seq<Item>, text: Renderer, separator: Text): Text {
    Followed([first] + Numbered(items, text), separator)
  }

  lemma BehindNothing(first: Text, text: Renderer, separator: Text)
    ensures Behind(first, [], text, separator) == first + separator
  {
    NumberedNone([first], text);
    FollowedMore([], first, separator);
    assert [] + [first] == [first];
  }

  lemma BehindMore(first: Text, items: seq<Item>, item: Item, text: Renderer, separator: Text)
    ensures Behind(first, items + [item], text, separator)
         == Behind(first, items, text, separator) + (text(|items| + 1, item) + separator)
  {
    NumberedMore([first], items, item, text, separator);
  }

  lemma BehindTrims(first: Text, items: seq<Item>, text: Renderer, separator: Text)
    ensures var line := Behind(first, items, text, separator);
            && |separator| <= |line|
            && line[..|line| - |separator|] == Joined([first] + Numbered(items, text), separator)
  {
    TrimJoins([first] + Numbered(items, text), separator);
  }

  /** A truncation mark is in the text: at its end, or after an entry's shortened name. */
  ghost predicate MarkedLinks(w: Walker, payload: Bytes)
    requires Laid(w) && ENTRY_OFFSET <= |payload|
  {
    Short(w, payload) || exists item <- Shown(w, payload) :: |item.body| < item.extent
  }

  /** What a file system returns: both fields, the count being whatever it says, and the chain. */
  ghost function EncodeLinks(w: Walker, bytesNeeded: nat, count: nat, es: seq<Entry>): (r: Bytes)
    requires Laid(w) && AllSound(w, es) && bytesNeeded < TWO_32 && count < TWO_32
    ensures |r| == ENTRY_OFFSET + |Encode(w, es)|
  {
    Le32(bytesNeeded) + Le32(count) + Encode(w, es)
  }

  lemma {:induction false} VisibleTerminates(w: Walker, es: seq<Entry>, k: nat)
    requires es != []
    ensures |Visible(w, es, k).items| <= |es|
    ensures Visible(w, es, k).terminated <==> |Visible(w, es, k).items| == |es|
  {
    if |es| > 1 && k >= Reach(w, es[0]) && k >= Size(w, es[0]) {
      VisibleTerminates(w, es[1..], k - Size(w, es[0]));
    }
  }

  /** The first entries of a chain show alike whether or not others follow them. */
  lemma {:induction false} VisibleOfFirst(w: Walker, es: seq<Entry>, k: nat, count: nat)
    requires 0 < count <= |es|
    ensures Visible(w, es[..count], k).items == Within(Visible(w, es, k).items, count)
    decreases count
  {
    var e := es[0];
    if k >= Reach(w, e) && |es| > 1 && k >= Size(w, e) {
      var rest := Visible(w, es[1..], k - Size(w, e)).items;
      assert Visible(w, es, k).items == [Clip(w, e, k)] + rest;
      if 1 < count {
        VisibleOfFirst(w, es[1..], k - Size(w, e), count - 1);
        assert es[..count][1..] == es[1..][..count - 1];
        assert Within([Clip(w, e, k)] + rest, count) == [Clip(w, e, k)] + Within(rest, count - 1);
      }
    }
  }

  /** What the walker shows of a prefix that holds both header fields. */
  lemma ShownIsVisible(w: Walker, bytesNeeded: nat, count: nat, es: seq<Entry>, n: nat)
    requires Laid(w) && AllSound(w, es) && bytesNeeded < TWO_32 && count < TWO_32 && es != []
    requires n <= |Encode(w, es)|
    ensures var p := EncodeLinks(w, bytesNeeded, count, es)[..ENTRY_OFFSET + n];
            U32(p, 4) == count && Shown(w, p) == Within(Visible(w, es, n).items, count)
  {
    var fields := Le32(bytesNeeded) + Le32(count);
    var p := EncodeLinks(w, bytesNeeded, count, es)[..ENTRY_OFFSET + n];
    assert p == fields + Encode(w, es)[..n];
    assert p[4..8] == Le32(count) == Le32(count)[0..4];
    ScanFromNext(w, fields, Encode(w, es)[..n]);
    ScanOfPrefix(w, es, n);
  }

  /** The entries the count leaves in. */
  function Counted(es: seq<Entry>, count: nat): seq<Entry> {
    es[..Min(|es|, count)]
  }

  lemma CountedShows(w: Walker, bytesNeeded: nat, count: nat, es: seq<Entry>, n: nat)
    requires Laid(w) && AllSound(w, es) && bytesNeeded < TWO_32 && 0 < count < TWO_32 && es != []
    requires n <= |Encode(w, es)|
    ensures var p := EncodeLinks(w, bytesNeeded, count, es)[..ENTRY_OFFSET + n];
            U32(p, 4) == count && Shown(w, p) == Visible(w, Counted(es, count), n).items
  {
    ShownIsVisible(w, bytesNeeded, count, es, n);
    VisibleTerminates(w, es, n);
    if |es| <= count {
      assert es[..|es|] == es;
    } else {
      VisibleOfFirst(w, es, n, count);
    }
  }

  /**
   * Any prefix that holds both header fields, whatever the count says: of the
   * entries the count leaves in, exactly those whose header lies in the prefix,
   * all but the last one whole; and a mark if and only if the count asks for more
   * entries than the chain has, or a header or name byte of one it leaves in is
   * missing.
   */
  lemma PrefixShowsLinks(w: Walker, bytesNeeded: nat, count: nat, es: seq<Entry>, n: nat)
    requires Laid(w) && AllSound(w, es) && bytesNeeded < TWO_32 && count < TWO_32 && es != []
    requires n <= |Encode(w, es)|
    ensures var p := EncodeLinks(w, bytesNeeded, count, es)[..ENTRY_OFFSET + n];
            && ShowsExactly(w, Counted(es, count), n, Shown(w, p))
            && (MarkedLinks(w, p) <==> |es| < count || (0 < count && n < Content(w, Counted(es, count))))
  {
    if count == 0 {
      ShownIsVisible(w, bytesNeeded, count, es, n);
    } else {
      CountedShows(w, bytesNeeded, count, es, n);
      var entries := Counted(es, count);
      VisibleIsExact(w, entries, n);
      VisibleTerminates(w, entries, n);
      MarkedIsExact(w, entries, n);
    }
  }

  lemma ContentGrows(w: Walker, es: seq<Entry>, count: nat)
    requires Laid(w) && 0 < count < |es|
    ensures Content(w, es[..count]) < Content(w, es)
  {
    OffsetOfFirst(w, es, count, count - 1);
    assert es[..count][count - 1] == es[count - 1];
    OffsetsGrow(w, es, count - 1, |es| - 1);
  }

  lemma {:induction false} OffsetOfFirst(w: Walker, es: seq<Entry>, count: nat, i: nat)
    requires i <= count <= |es|
    ensures Offset(w, es[..count], i) == Offset(w, es, i)
  {
    if 0 < i { OffsetOfFirst(w, es, count, i - 1); }
  }

  /** The mark at this cut says what a reader takes it to say: content of the chain is missing. */
  ghost predicate MarkIsRight(w: Walker, bytesNeeded: nat, count: nat, es: seq<Entry>, n: nat)
    requires Laid(w) && AllSound(w, es) && bytesNeeded < TWO_32 && count < TWO_32 && es != []
    requires n <= |Encode(w, es)|
  {
    MarkedLinks(w, EncodeLinks(w, bytesNeeded, count, es)[..ENTRY_OFFSET + n]) <==> n < Content(w, es)
  }

  /** Exactly when: the count is the chain's, or it is larger and something is missing anyway, or it
      is smaller and the cut is not between what it leaves in and the end of the content. */
  lemma WhenMarkIsRight(w: Walker, bytesNeeded: nat, count: nat, es: seq<Entry>, n: nat)
    requires Laid(w) && AllSound(w, es) && bytesNeeded < TWO_32 && count < TWO_32 && es != []
    requires n <= |Encode(w, es)|
    ensures MarkIsRight(w, bytesNeeded, count, es, n)
            <==> if |es| < count then n < Content(w, es)
                 else if count == 0 then Content(w, es) <= n
                 else count == |es| || n < Content(w, es[..count]) || Content(w, es) <= n
  {
    PrefixShowsLinks(w, bytesNeeded, count, es, n);
    if count == |es| {
      assert es[..count] == es;
    } else if 0 < count < |es| {
      ContentGrows(w, es, count);
    }
  }

  /** The mark is right at every cut if and only if the count is the chain's length. */
  lemma CountMustMatch(w: Walker, bytesNeeded: nat, count: nat, es: seq<Entry>)
    requires Laid(w) && AllSound(w, es) && bytesNeeded < TWO_32 && count < TWO_32 && es != []
    ensures (forall n: nat | n <= |Encode(w, es)| :: MarkIsRight(w, bytesNeeded, count, es, n)) <==> count == |es|
  {
    var end := |Encode(w, es)|;
    assert Content(w, es) <= Offset(w, es, |es|) == end;
    if count == |es| {
      forall n: nat | n <= end ensures MarkIsRight(w, bytesNeeded, count, es, n) {
        WhenMarkIsRight(w, bytesNeeded, count, es, n);
      }
    } else {
      var n: nat := if |es| < count then end else Content(w, es) - 1;
      WhenMarkIsRight(w, bytesNeeded, count, es, n);
      if 0 < count < |es| { ContentGrows(w, es, count); }
      assert !MarkIsRight(w, bytesNeeded, count, es, n);
    }
  }
}
