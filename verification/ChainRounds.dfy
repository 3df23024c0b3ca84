/**
 * What the chain walkers return on a well-formed chain: everything from the whole
 * buffer, and from any non-empty prefix exactly the entries whose header is in it,
 * with a truncation mark if and only if a header or name byte is missing.
 */
module ChainRounds {
  import opened Common
  import opened Payload
  import opened Chains

  /** One entry as the kernel writes it: header fields after NextEntryOffset, the announced bytes, alignment. */
  datatype Entry = Entry(fields: Bytes, body: Bytes, padding: Bytes)

  function Size(w: Walker, e: Entry): nat {
    w.headerSize + |e.body| + |e.padding|
  }

  /** An attribute's name, the byte that ends it and its value, if any, as the lengths announce them. */
  ghost predicate IsAttribute(lengths: Bytes, body: Bytes, name: Bytes, stop: Byte, value: Bytes) {
    && |name| < 0x100 && |value| < 0x1_0000
    && lengths == [|name|] + Encoded(|value|, 2)
    && body == name + if value == [] then [] else [stop] + value
  }

  ghost predicate HoldsAttribute(lengths: Bytes, body: Bytes) {
    exists name, stop, value :: IsAttribute(lengths, body, name, stop, value)
  }

  /** The length field says how long what follows the header is, in the unit of the layout. */
  ghost predicate Announces(w: Walker, fields: Bytes, body: Bytes)
    requires Laid(w) && |fields| == w.headerSize - 4
  {
    var at := w.lengthAt - 4;
    match w.tail
    case WideName => fields[at..at + 4] == Encoded(|body|, 4)
    case CountedName => |body| % 2 == 0 && fields[at..at + 4] == Encoded(|body| / 2, 4)
    case AsciiName => fields[at] == |body|
    case Attribute => HoldsAttribute(fields[at..at + 3], body)
    case Sid => fields[at..at + 4] == Encoded(|body|, 4)
  }

  ghost predicate Sound(w: Walker, e: Entry)
    requires Laid(w)
  {
    && |e.fields| == w.headerSize - 4
    && Announces(w, e.fields, e.body)
    && Size(w, e) < TWO_32
  }

  /** The walker reads the announced length for what it is. */
  lemma ExtentIsLength(w: Walker, e: Entry)
    requires Laid(w) && Sound(w, e)
    ensures Extent(w, e.fields) == |e.body|
  {
    Limits();
    var at, fields := w.lengthAt - 4, e.fields;
    match w.tail
    case WideName => DecodesEncoded(|e.body|, 4);
    case CountedName => DecodesEncoded(|e.body| / 2, 4);
    case AsciiName =>
    case Sid => DecodesEncoded(|e.body|, 4);
    case Attribute =>
      var name, stop, value :| IsAttribute(fields[at..at + 3], e.body, name, stop, value);
      DecodesEncoded(|value|, 2);
      var lengths := fields[at..at + 3];
      assert fields[at] == lengths[0] && fields[at + 1..at + 3] == lengths[1..3] == Encoded(|value|, 2);
  }

  ghost predicate AllSound(w: Walker, es: seq<Entry>)
    requires Laid(w)
  {
    forall e <- es :: Sound(w, e)
  }

  /** The kernel's chain: every entry points at the next one, the last one at nothing. */
  ghost function Encode(w: Walker, es: seq<Entry>): (r: Bytes)
    requires Laid(w) && AllSound(w, es)
    ensures |r| == Offset(w, es, |es|)
  {
    if es == [] then []
    else
      OffsetFirst(w, es, |es|);
      Bare(w, es[0], if |es| == 1 then 0 else Size(w, es[0])) + Encode(w, es[1..])
  }

  ghost function Bare(w: Walker, e: Entry, next: nat): (r: Bytes)
    requires Laid(w) && Sound(w, e) && next < TWO_32
    ensures |r| == Size(w, e)
  {
    Le32(next) + e.fields + e.body + e.padding
  }

  /** Where entry i starts. */
  ghost function Offset(w: Walker, es: seq<Entry>, i: nat): nat
    requires i <= |es|
  {
    if i == 0 then 0 else Offset(w, es, i - 1) + Size(w, es[i - 1])
  }

  lemma {:induction false} OffsetFirst(w: Walker, es: seq<Entry>, i: nat)
    requires 1 <= i <= |es|
    ensures Offset(w, es, i) == Size(w, es[0]) + Offset(w, es[1..], i - 1)
  {
    if i > 1 { OffsetFirst(w, es, i - 1); }
  }

  /** The entry as it shows when only its first k bytes were captured. */
  ghost function Clip(w: Walker, e: Entry, k: nat): Item
    requires w.headerSize <= k
  {
    Item(e.fields, |e.body|, e.body[..Min(k - w.headerSize, |e.body|)])
  }

  ghost function Whole(e: Entry): Item {
    Item(e.fields, |e.body|, e.body)
  }

  /** How much of an entry must be there for it to be rendered. */
  ghost function Reach(w: Walker, e: Entry): nat {
    w.headerSize + if w.tail.Sid? then |e.body| else 0
  }

  /** What the first k bytes of a chain show. */
  ghost function Visible(w: Walker, es: seq<Entry>, k: nat): Found
    requires es != []
  {
    if k < Reach(w, es[0]) then Found([], false)
    else if |es| == 1 then Found([Clip(w, es[0], k)], true)
    else if k < Size(w, es[0]) then Found([Clip(w, es[0], k)], false)
    else More(Clip(w, es[0], k), Visible(w, es[1..], k - Size(w, es[0])))
  }

  /** Reading the first entry of a cut chain. */
  lemma ReadFirst(w: Walker, e: Entry, next: nat, rest: Bytes, k: nat)
    requires Laid(w) && Sound(w, e) && next < TWO_32
    requires w.headerSize <= k <= |Bare(w, e, next) + rest|
    ensures ReadItem(w, (Bare(w, e, next) + rest)[..k], 0) == Clip(w, e, k)
    ensures Next(w, (Bare(w, e, next) + rest)[..k], 0) == next
  {
    var data := Bare(w, e, next) + rest;
    var p, h := data[..k], w.headerSize;
    ExtentIsLength(w, e);
    hide Extent, Announces;
    var header := Le32(next) + e.fields;
    Parts(header, e.body, e.padding, rest);
    assert data == header + e.body + (e.padding + rest);
    SliceOfPrefix(data, k, 0, h);
    assert ReadHeader(w, p, 0) == header;
    assert header[4..] == e.fields;
    assert header[0..4] == Le32(next) == Le32(next)[0..4];
    var end := Min(h + |e.body|, k);
    SliceOfPrefix(data, k, h, end);
    MiddleSlice(header, e.body, e.padding + rest, end - h);
  }

  lemma Parts(a: Bytes, b: Bytes, c: Bytes, d: Bytes)
    ensures a + b + c + d == a + b + (c + d)
  {
  }

  lemma MiddleSlice(a: Bytes, b: Bytes, c: Bytes, n: nat)
    requires n <= |b|
    ensures (a + b + c)[|a|..|a| + n] == b[..n]
    ensures (a + b + c)[0..|a|] == a
  {
  }

  lemma SliceOfSuffix(a: Bytes, b: Bytes, i: nat, j: nat)
    requires i <= j <= |b|
    ensures (a + b)[|a| + i..|a| + j] == b[i..j]
  {
  }

  lemma ReadSuffix(w: Walker, a: Bytes, b: Bytes, offset: nat)
    requires Laid(w) && Fits(b, offset, w.headerSize)
    ensures ReadItem(w, a + b, |a| + offset) == ReadItem(w, b, offset)
    ensures Next(w, a + b, |a| + offset) == Next(w, b, offset)
  {
    SliceOfSuffix(a, b, offset, offset + w.headerSize);
    var start := offset + w.headerSize;
    SliceOfSuffix(a, b, start, Min(start + ReadItem(w, b, offset).extent, |b|));
  }

  /** A chain is scanned alike wherever it starts in a buffer. */
  lemma {:induction false} ScanSuffix(w: Walker, a: Bytes, b: Bytes, offset: nat)
    requires Laid(w) && offset <= |b|
    ensures Scan(w, a + b, |a| + offset) == Scan(w, b, offset)
    decreases |b| - offset
  {
    hide ReadItem, Next;
    if Fits(b, offset, w.headerSize) {
      ReadSuffix(w, a, b, offset);
      var next := Next(w, b, offset);
      if next != 0 && Fits(b, offset, next) {
        ScanSuffix(w, a, b, offset + next);
      }
    }
  }

  lemma ScanFromNext(w: Walker, a: Bytes, b: Bytes)
    requires Laid(w)
    ensures Scan(w, a + b, |a|) == Scan(w, b, 0)
  {
    ScanSuffix(w, a, b, 0);
  }

  /** What the scan of a cut chain does with the first entry. */
  lemma ScanFirst(w: Walker, e: Entry, next: nat, rest: Bytes, k: nat)
    requires Laid(w) && Sound(w, e) && next < TWO_32 && k <= |Bare(w, e, next) + rest|
    ensures var p := (Bare(w, e, next) + rest)[..k];
            Scan(w, p, 0) ==
            if k < Reach(w, e) then Found([], false)
            else if next == 0 then Found([Clip(w, e, k)], true)
            else if k < next then Found([Clip(w, e, k)], false)
            else More(Clip(w, e, k), Scan(w, p, next))
  {
    if w.headerSize <= k {
      ReadFirst(w, e, next, rest, k);
    }
    hide ReadItem, Next, Bare;
  }

  /** Scanning any prefix of an encoded chain shows exactly what is visible in it. */
  lemma {:induction false} ScanOfPrefix(w: Walker, es: seq<Entry>, k: nat)
    requires Laid(w) && AllSound(w, es) && es != [] && k <= |Encode(w, es)|
    ensures Scan(w, Encode(w, es)[..k], 0) == Visible(w, es, k)
    decreases |es|
  {
    var e := es[0];
    var next := if |es| == 1 then 0 else Size(w, e);
    var bare, rest := Bare(w, e, next), Encode(w, es[1..]);
    assert Encode(w, es) == bare + rest;
    ScanFirst(w, e, next, rest, k);
    hide Scan, Encode, Bare, Extent;
    if |es| > 1 && Size(w, e) <= k {
      var n := k - Size(w, e);
      TakeBeyond(bare, rest, k);
      ScanFromNext(w, bare, rest[..n]);
      ScanOfPrefix(w, es[1..], n);
    }
  }

  lemma TakeBeyond(a: Bytes, b: Bytes, k: nat)
    requires |a| <= k <= |a| + |b|
    ensures (a + b)[..k] == a + b[..k - |a|]
  {
  }

  /** The whole buffer gives back every entry, whole. */
  lemma {:induction false} RoundTrip(w: Walker, es: seq<Entry>)
    requires Laid(w) && AllSound(w, es) && es != []
    ensures Scan(w, Encode(w, es), 0) == Found(seq(|es|, i requires 0 <= i < |es| => Whole(es[i])), true)
  {
    var all := Encode(w, es);
    assert all[..|all|] == all;
    ScanOfPrefix(w, es, |all|);
    VisibleWhole(w, es);
  }

  lemma {:induction false} VisibleWhole(w: Walker, es: seq<Entry>)
    requires es != []
    ensures Visible(w, es, Offset(w, es, |es|)) == Found(seq(|es|, i requires 0 <= i < |es| => Whole(es[i])), true)
  {
    OffsetFirst(w, es, |es|);
    assert es[0].body[..|es[0].body|] == es[0].body;
    if |es| > 1 {
      VisibleWhole(w, es[1..]);
    }
  }

  /** A truncation mark is in the text: at its end, or after an entry's shortened name. */
  ghost predicate Marked(found: Found) {
    !found.terminated || exists item <- found.items :: |item.body| < item.extent
  }

  /** Entry i shows in the first k bytes. */
  ghost predicate Reached(w: Walker, es: seq<Entry>, k: nat, i: nat)
    requires i < |es|
    ensures Reached(w, es, k, i) ==> w.headerSize <= k - Offset(w, es, i)
  {
    Offset(w, es, i) + Reach(w, es[i]) <= k
  }

  /** Entry i is among the items if and only if it shows, cut where the buffer is; only the last may be cut. */
  ghost predicate ShownRight(w: Walker, es: seq<Entry>, k: nat, items: seq<Item>, i: nat)
    requires i < |es|
  {
    && (i < |items| <==> Reached(w, es, k, i))
    && (i < |items| ==> items[i] == Clip(w, es[i], k - Offset(w, es, i)))
    && (i + 1 < |items| ==> items[i] == Whole(es[i]))
  }

  ghost predicate ShowsExactly(w: Walker, es: seq<Entry>, k: nat, items: seq<Item>) {
    |items| <= |es| && forall i | 0 <= i < |es| :: ShownRight(w, es, k, items, i)
  }

  /** The bytes up to the last name or SID byte; what follows is alignment. */
  ghost function Content(w: Walker, es: seq<Entry>): nat
    requires es != []
  {
    Offset(w, es, |es| - 1) + w.headerSize + |es[|es| - 1].body|
  }

  lemma {:induction false} OffsetsGrow(w: Walker, es: seq<Entry>, i: nat, j: nat)
    requires i <= j <= |es|
    ensures Offset(w, es, i) + (if i < j then Size(w, es[i]) else 0) <= Offset(w, es, j)
  {
    if i < j { OffsetsGrow(w, es, i, j - 1); }
  }

  lemma NothingReached(w: Walker, es: seq<Entry>, k: nat)
    requires es != [] && k < Size(w, es[0])
    ensures forall i | 1 <= i < |es| :: !Reached(w, es, k, i)
  {
    forall i | 1 <= i < |es| ensures !Reached(w, es, k, i) {
      OffsetsGrow(w, es, 1, i);
      assert Offset(w, es, 1) == Size(w, es[0]);
    }
  }

  lemma ShownShifts(w: Walker, es: seq<Entry>, k: nat, item: Item, rest: seq<Item>, i: nat)
    requires 1 <= i < |es| && Size(w, es[0]) <= k
    requires ShownRight(w, es[1..], k - Size(w, es[0]), rest, i - 1)
    ensures ShownRight(w, es, k, [item] + rest, i)
  {
    OffsetFirst(w, es, i);
    assert es[i] == es[1..][i - 1];
    if i < |[item] + rest| {
      assert ([item] + rest)[i] == rest[i - 1];
    }
  }

  lemma {:induction false} VisibleIsExact(w: Walker, es: seq<Entry>, k: nat)
    requires es != []
    ensures ShowsExactly(w, es, k, Visible(w, es, k).items)
  {
    var e, items := es[0], Visible(w, es, k).items;
    if k < Size(w, e) {
      NothingReached(w, es, k);
      assert forall i | 0 <= i < |es| :: ShownRight(w, es, k, items, i);
    } else if |es| > 1 {
      var n := k - Size(w, e);
      var rest := Visible(w, es[1..], n).items;
      VisibleIsExact(w, es[1..], n);
      assert items == [Clip(w, e, k)] + rest;
      assert Clip(w, e, k) == Whole(e);
      forall i | 1 <= i < |es| ensures ShownRight(w, es, k, items, i) {
        assert ShownRight(w, es[1..], n, rest, i - 1);
        ShownShifts(w, es, k, Clip(w, e, k), rest, i);
      }
      assert ShownRight(w, es, k, items, 0);
    }
  }

  lemma {:induction false} MarkedIsExact(w: Walker, es: seq<Entry>, k: nat)
    requires es != []
    ensures Marked(Visible(w, es, k)) <==> k < Content(w, es)
  {
    var e, found := es[0], Visible(w, es, k);
    OffsetsGrow(w, es, 0, |es| - 1);
    if k >= Reach(w, e) {
      assert found.items[0] == Clip(w, e, k);
      if |es| > 1 && k >= Size(w, e) {
        var rest := Visible(w, es[1..], k - Size(w, e));
        MarkedIsExact(w, es[1..], k - Size(w, e));
        OffsetFirst(w, es, |es| - 1);
        assert found.items == [Clip(w, e, k)] + rest.items;
      }
    }
  }

  /**
   * Any prefix of a well-formed chain, cut anywhere: the walker renders exactly
   * the entries whose header (for a SID layout: header and SID) lies in it, all
   * but the last one whole and the last one as far as it goes, and a truncation
   * mark shows if and only if a header or name byte is missing and the prefix is
   * not empty: of an empty payload nothing is shown, without a mark.
   */
  lemma PrefixShowsPrefix(w: Walker, es: seq<Entry>, k: nat)
    requires Laid(w) && AllSound(w, es) && es != [] && k <= |Encode(w, es)|
    ensures ShowsExactly(w, es, k, Walk(w, Encode(w, es)[..k]).items)
    ensures Marked(Walk(w, Encode(w, es)[..k])) <==> 0 < k < Content(w, es)
  {
    ScanOfPrefix(w, es, k);
    VisibleIsExact(w, es, k);
    MarkedIsExact(w, es, k);
  }
}
