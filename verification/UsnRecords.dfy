/**
 * The walker of change-journal records (filesystem.cpp): records of three kinds
 * that follow one another by their own length, behind the next USN.
 */
module UsnRecords {
  import opened Common
  import opened Payload

  const NEXT_USN_SIZE := 8
  const COMMON_HEADER_SIZE := 8

  /** The fixed part of a version 2 or 3 record; the name is addressed from the record's start. */
  function FixedSize(version: nat): nat {
    if version == 2 then 60 else if version == 3 then 76 else COMMON_HEADER_SIZE
  }

  predicate Named(version: nat) { version == 2 || version == 3 }

  /** What the renderer of one record is given. Other versions render as their number. */
  datatype Item =
    | Known(version: nat, fixed: Bytes, nameSize: nat, name: Bytes)
    | Other(version: nat)

  function Length(p: Bytes): (r: nat)
    requires COMMON_HEADER_SIZE <= |p|
    ensures r < TWO_32
  {
    U32(p, 0)
  }

  function Version(p: Bytes): nat
    requires COMMON_HEADER_SIZE <= |p|
  {
    U16(p, 4)
  }

  function NameSize(p: Bytes): nat
    requires COMMON_HEADER_SIZE <= |p| && Named(Version(p)) && FixedSize(Version(p)) <= |p|
  {
    U16(p, FixedSize(Version(p)) - 4)
  }

  function NameOffset(p: Bytes): nat
    requires COMMON_HEADER_SIZE <= |p| && Named(Version(p)) && FixedSize(Version(p)) <= |p|
  {
    U16(p, FixedSize(Version(p)) - 2)
  }

  function Name(p: Bytes, offset: nat, size: nat): Bytes {
    var start := Min(offset, |p|);
    p[start..Min(start + size, |p|)]
  }

  /** RenderUsnRecordPayload: nothing when the fixed part is not there or the length denies it. */
  function Read(p: Bytes): Option<Item> {
    if |p| < COMMON_HEADER_SIZE then None
    else
      var version := Version(p);
      if !Named(version) then Some(Other(version))
      else if |p| < FixedSize(version) || Length(p) < FixedSize(version) then None
      else Some(Known(version, p[..FixedSize(version)], NameSize(p), Name(p, NameOffset(p), NameSize(p))))
  }

  predicate Shows(p: Bytes) {
    COMMON_HEADER_SIZE <= |p| && COMMON_HEADER_SIZE <= Length(p) && Read(p).Some?
  }

  /** The records from the start of a buffer. */
  function Scan(p: Bytes): seq<Item>
    decreases |p|
  {
    if !Shows(p) then []
    else if !Fits(p, 0, Length(p)) then [Read(p).value]
    else [Read(p).value] + Scan(p[Length(p)..])
  }

  type Renderer = (nat, Item) -> Text

  ghost predicate Walked(p: Bytes, items: seq<Item>, offset: nat)
    requires NEXT_USN_SIZE <= |p|
  {
    offset <= |p| && Scan(p[NEXT_USN_SIZE..]) == items + Scan(p[offset..])
  }

  lemma WalkStarts(p: Bytes)
    requires NEXT_USN_SIZE <= |p|
    ensures Walked(p, [], NEXT_USN_SIZE)
  {
    assert [] + Scan(p[NEXT_USN_SIZE..]) == Scan(p[NEXT_USN_SIZE..]);
  }

  lemma WalkOn(p: Bytes, items: seq<Item>, offset: nat)
    requires NEXT_USN_SIZE <= |p| && Walked(p, items, offset)
    ensures !Shows(p[offset..]) ==> Scan(p[NEXT_USN_SIZE..]) == items
    ensures Shows(p[offset..]) ==>
              var seen, length := items + [Read(p[offset..]).value], Length(p[offset..]);
              if Fits(p, offset, length) then Walked(p, seen, offset + length)
              else Scan(p[NEXT_USN_SIZE..]) == seen
  {
    hide Read;
    var rest := p[offset..];
    if !Shows(rest) {
      assert items + [] == items;
    } else if Fits(p, offset, Length(rest)) {
      assert rest[Length(rest)..] == p[offset + Length(rest)..];
      var item, more := Read(rest).value, Scan(p[offset + Length(rest)..]);
      assert items + ([item] + more) == items + [item] + more;
    }
  }

  lemma HeadOnly(first: Text, text: Renderer, separator: Text)
    ensures Followed([first] + Numbered([], text), separator) == first + separator
  {
    FollowedMore([], first, separator);
    assert [first] + Numbered([], text) == [] + [first];
  }

  function RecordsText(payload: Bytes, truncated: bool, head: Bytes -> Text, text: Renderer, separator: Text): Text {
    if |payload| < NEXT_USN_SIZE then []
    else
      var first := head(payload[..NEXT_USN_SIZE]);
      Listed([first] + Numbered(Scan(payload[NEXT_USN_SIZE..]), text), separator, truncated)
  }

  /** RenderUsnRecordsPayload. The mark at the end is the driver's truncation bit. */
  method RenderRecords(payload: Bytes, truncated: bool, head: Bytes -> Text, text: Renderer, separator: Text)
    returns (result: Text)
    requires |payload| < TWO_32
    ensures result == RecordsText(payload, truncated, head, text, separator)
  {
    hide Scan, Read, Numbered, Followed, Joined;
    if !Fits(payload, 0, NEXT_USN_SIZE) { return []; }
    var first := head(payload[..NEXT_USN_SIZE]);
    result := first + separator;
    var offset, index := NEXT_USN_SIZE, 1;
    ghost var items: seq<Item> := [];
    WalkStarts(payload);
    HeadOnly(first, text, separator);
    while true
      invariant NEXT_USN_SIZE + 8 * |items| <= offset && index == |items| + 1
      invariant Walked(payload, items, offset)
      invariant result == Followed([first] + Numbered(items, text), separator)
      decreases |payload| - offset
    {
      WalkOn(payload, items, offset);
      if !Fits(payload, offset, COMMON_HEADER_SIZE) { break; }
      var rest := payload[offset..];
      if Length(rest) < COMMON_HEADER_SIZE { break; }
      var record := Read(rest);
      if record.None? { break; }

      NumberedMore([first], items, record.value, text, separator);
      result := result + (text(index, record.value) + separator);
      items := items + [record.value];
      var ok, moved := Advance(payload, offset, Length(rest));
      if !ok { break; }
      offset := moved;
      index := Wrap(index + 1);
    }
    assert items == Scan(payload[NEXT_USN_SIZE..]);
    if !truncated {
      TrimJoins([first] + Numbered(items, text), separator);
      result := result[..|result| - |separator|];
    }
    result := MarkTruncated(result, truncated);
  }

  // ----- Round trip under a cut -----

  /** A record as a file system writes it: its length is its size and the name lies inside. */
  ghost predicate Sound(r: Bytes) {
    && COMMON_HEADER_SIZE <= |r| && Length(r) == |r|
    && FixedSize(Version(r)) <= |r|
    && (Named(Version(r)) ==> NameOffset(r) + NameSize(r) <= |r|)
  }

  ghost predicate AllSound(rs: seq<Bytes>) { forall r <- rs :: Sound(r) }

  ghost function Offset(rs: seq<Bytes>, i: nat): nat
    requires i <= |rs|
  {
    if i == 0 then 0 else |rs[0]| + Offset(rs[1..], i - 1)
  }

  /** What the record shows when only its first n bytes are there. */
  ghost function Clipped(r: Bytes, n: nat): Option<Item> {
    Read(r[..Min(n, |r|)])
  }

  lemma SameFields(a: Bytes, b: Bytes, n: nat)
    requires COMMON_HEADER_SIZE <= n <= |a| && n <= |b| && a[..n] == b[..n]
    ensures Length(a) == Length(b) && Version(a) == Version(b)
    ensures Named(Version(a)) && FixedSize(Version(a)) <= n ==>
              NameSize(a) == NameSize(b) && NameOffset(a) == NameOffset(b)
              && a[..FixedSize(Version(a))] == b[..FixedSize(Version(a))]
  {
    forall i, j | 0 <= i <= j <= n ensures a[i..j] == b[i..j] {
      SliceOfPrefix(a, n, i, j);
      SliceOfPrefix(b, n, i, j);
    }
  }

  /** What follows a record does not change how it reads. */
  lemma ReadIgnoresRest(r: Bytes, rest: Bytes)
    requires Sound(r)
    ensures Shows(r + rest) && Read(r + rest) == Read(r) && Length(r + rest) == |r|
  {
    assert (r + rest)[..|r|] == r == r[..|r|];
    SameFields(r, r + rest, |r|);
    if Named(Version(r)) {
      assert Name(r + rest, NameOffset(r), NameSize(r)) == Name(r, NameOffset(r), NameSize(r));
    }
  }

  lemma WholeShows(r: Bytes)
    requires Sound(r)
    ensures Shows(r)
  {
    ReadIgnoresRest(r, []);
    assert r + [] == r;
  }

  /** A record cut short shows exactly when its fixed part is there. */
  lemma CutRecord(r: Bytes, n: nat)
    requires Sound(r) && n < |r|
    ensures Shows(r[..n]) <==> FixedSize(Version(r)) <= n
    ensures Shows(r[..n]) ==> Length(r[..n]) == |r|
  {
    if COMMON_HEADER_SIZE <= n {
      SameFields(r, r[..n], n);
    }
  }

  /** Its fields are then all there, its name is a prefix, and the name is marked if a byte of it is missing. */
  lemma CutName(r: Bytes, n: nat)
    requires Sound(r) && Named(Version(r)) && FixedSize(Version(r)) <= n < |r|
    ensures Shows(r) && Shows(r[..n])
    ensures var cut, whole := Read(r[..n]).value, Read(r).value;
            && cut.Known? && whole.Known? && cut.fixed == whole.fixed && cut.nameSize == whole.nameSize
            && cut.name <= whole.name
            && (|cut.name| < cut.nameSize <==> n < NameOffset(r) + NameSize(r) && 0 < NameSize(r))
  {
    WholeShows(r);
    CutRecord(r, n);
    SameFields(r, r[..n], n);
    NameOfPrefix(r, n, NameOffset(r), NameSize(r));
    hide Name;
  }

  lemma NameOfPrefix(r: Bytes, n: nat, offset: nat, size: nat)
    requires offset + size <= |r| && n <= |r|
    ensures Name(r[..n], offset, size) <= Name(r, offset, size)
    ensures |Name(r, offset, size)| == size
    ensures |Name(r[..n], offset, size)| == if n <= offset then 0 else Min(size, n - offset)
  {
    if offset < n {
      var end := Min(offset + size, n);
      SliceOfPrefix(r, n, offset, end);
      PrefixOfSlice(r, offset, offset + size, end - offset);
    }
  }

  lemma PrefixOfSlice(r: Bytes, i: nat, j: nat, n: nat)
    requires i <= j <= |r| && i + n <= j
    ensures r[i..j][..n] == r[i..i + n]
  {
  }

  /** The first n bytes of a record sequence. */
  ghost function Visible(rs: seq<Bytes>, n: nat): seq<Item> {
    if rs == [] || n < FixedSizeOf(rs[0]) then []
    else
      var item := Clipped(rs[0], n);
      if item.None? then []
      else [item.value] + if n < |rs[0]| then [] else Visible(rs[1..], n - |rs[0]|)
  }

  ghost function FixedSizeOf(r: Bytes): nat {
    if COMMON_HEADER_SIZE <= |r| then FixedSize(Version(r)) else COMMON_HEADER_SIZE
  }

  lemma {:induction false} ScanOfPrefix(rs: seq<Bytes>, n: nat)
    requires AllSound(rs) && n <= |Concat(rs)|
    ensures Scan(Concat(rs)[..n]) == Visible(rs, n)
    decreases |rs|
  {
    if rs != [] {
      var r, rest := rs[0], Concat(rs[1..]);
      hide Read;
      if n < |r| {
        assert Concat(rs)[..n] == r[..n];
        CutRecord(r, n);
      } else {
        assert Concat(rs)[..n] == r + rest[..n - |r|];
        assert r[..Min(n, |r|)] == r;
        ReadIgnoresRest(r, rest[..n - |r|]);
        ReadIgnoresRest(r, []);
        assert r + [] == r;
        assert (r + rest[..n - |r|])[|r|..] == rest[..n - |r|];
        ScanOfPrefix(rs[1..], n - |r|);
      }
    }
  }

  /** Record i is rendered if and only if its fixed part is in the prefix, and then as far as it goes. */
  ghost predicate ShownRight(rs: seq<Bytes>, n: nat, items: seq<Item>, i: nat)
    requires i < |rs|
  {
    && (i < |items| <==> Offset(rs, i) + FixedSizeOf(rs[i]) <= n)
    && (i < |items| ==> Clipped(rs[i], n - Offset(rs, i)) == Some(items[i]))
    && (i + 1 < |items| ==> Read(rs[i]) == Some(items[i]))
  }

  lemma OffsetGrows(rs: seq<Bytes>, i: nat)
    requires 0 < i <= |rs|
    ensures |rs[0]| <= Offset(rs, i)
  {
  }

  lemma {:induction false} VisibleIsExact(rs: seq<Bytes>, n: nat, i: nat)
    requires AllSound(rs) && i < |rs|
    ensures |Visible(rs, n)| <= |rs|
    ensures ShownRight(rs, n, Visible(rs, n), i)
    decreases |rs|
  {
    hide Read;
    var r, items := rs[0], Visible(rs, n);
    if n < |r| {
      CutRecord(r, n);
      if 0 < i { OffsetGrows(rs, i); }
      assert r[..Min(n, |r|)] == r[..n];
    } else {
      ReadIgnoresRest(r, []);
      assert r + [] == r && r[..Min(n, |r|)] == r;
      var rest := Visible(rs[1..], n - |r|);
      assert items == [Read(r).value] + rest;
      if 1 < |rs| { VisibleIsExact(rs[1..], n - |r|, if i == 0 then 0 else i - 1); }
      if 0 < i { assert rs[i] == rs[1..][i - 1]; }
    }
  }

  /**
   * Any prefix of a journal read that holds the next USN: exactly the records
   * whose fixed part is in it, whole but for the last one's name.
   */
  lemma PrefixShowsRecords(nextUsn: Bytes, rs: seq<Bytes>, n: nat)
    requires |nextUsn| == NEXT_USN_SIZE && AllSound(rs) && n <= |Concat(rs)|
    ensures var items := Scan((nextUsn + Concat(rs)[..n])[NEXT_USN_SIZE..]);
            |items| <= |rs| && forall i | 0 <= i < |rs| :: ShownRight(rs, n, items, i)
  {
    assert (nextUsn + Concat(rs)[..n])[NEXT_USN_SIZE..] == Concat(rs)[..n];
    ScanOfPrefix(rs, n);
    if rs != [] { VisibleIsExact(rs, n, 0); }
    forall i | 0 <= i < |rs| ensures |Visible(rs, n)| <= |rs| && ShownRight(rs, n, Visible(rs, n), i) {
      VisibleIsExact(rs, n, i);
    }
  }

  // ----- Records built from their fields -----

  /** A record as kernel.h lays it out. middle holds the two file references, the USN, the time, the reason, the
      source, the security id and the attributes; the references have 8 bytes each in version 2 and 16 in version 3. */
  datatype Journal = Journal(version: nat, minor: nat, middle: Bytes, gap: Bytes, name: Bytes, rest: Bytes)

  ghost predicate Laid(j: Journal) {
    && ((j.version == 2 && |j.middle| == 48) || (j.version == 3 && |j.middle| == 64))
    && j.minor < 0x1_0000 && |j.name| < 0x1_0000 && |j.gap| < 0x1000 && |j.rest| < 0x1_0000
  }

  ghost function Front(j: Journal, length: nat): (r: Bytes)
    ensures |r| == 8 + |j.middle|
  {
    Encoded(length, 4) + Encoded(j.version, 2) + Encoded(j.minor, 2) + j.middle
  }

  ghost function Bytewise(j: Journal): Bytes {
    var start := 8 + |j.middle| + 4 + |j.gap|;
    Front(j, start + |j.name| + |j.rest|)
    + (Encoded(|j.name|, 2) + Encoded(start, 2))
    + (j.gap + j.name + j.rest)
  }

  lemma Middle(a: Bytes, b: Bytes, c: Bytes, i: nat, k: nat)
    requires i <= k <= |b|
    ensures (a + b + c)[|a| + i..|a| + k] == b[i..k]
  {
  }

  lemma FrontReads(j: Journal, length: nat, back: Bytes)
    requires Laid(j) && length < TWO_32
    ensures var r := Front(j, length) + back; Length(r) == length && Version(r) == j.version
  {
    Limits();
    DecodesEncoded(length, 4);
    DecodesEncoded(j.version, 2);
    var r := Front(j, length) + back;
    assert r[0..4] == Encoded(length, 4);
    assert r[4..6] == Encoded(j.version, 2);
  }

  lemma LengthsRead(j: Journal, length: nat, size: nat, start: nat, back: Bytes)
    requires Laid(j) && size < 0x1_0000 && start < 0x1_0000
    ensures var r := Front(j, length) + (Encoded(size, 2) + Encoded(start, 2)) + back;
            && U16(r, if j.version == 2 then 56 else 72) == size
            && U16(r, if j.version == 2 then 58 else 74) == start
  {
    Limits();
    DecodesEncoded(size, 2);
    DecodesEncoded(start, 2);
    hide Encoded, LittleEndian, Limit, Front;
    var front, first, second := Front(j, length), Encoded(size, 2), Encoded(start, 2);
    var r, at := front + (first + second) + back, |front|;
    assert r[at..at + 2] == first by { Middle(front, first, second + back, 0, 2); Regroup(front, first, second, back); }
    assert r[at + 2..at + 4] == second by {
      Regroup(front, first, second, back);
      Middle(front + first, second, back, 0, 2);
    }
    assert U16(r, at) == size && U16(r, at + 2) == start;
  }

  lemma Regroup(a: Bytes, b: Bytes, c: Bytes, d: Bytes)
    ensures a + (b + c) + d == a + b + (c + d)
    ensures a + (b + c) + d == a + b + c + d
  {
  }

  lemma FieldsRead(j: Journal)
    requires Laid(j)
    ensures var r := Bytewise(j);
            && Length(r) == |r| == (if j.version == 2 then 60 else 76) + |j.gap| + |j.name| + |j.rest|
            && Version(r) == j.version
            && NameSize(r) == |j.name| && NameOffset(r) == (if j.version == 2 then 60 else 76) + |j.gap|
  {
    hide Front, Encoded;
    var start := 8 + |j.middle| + 4 + |j.gap|;
    var length, back := start + |j.name| + |j.rest|, j.gap + j.name + j.rest;
    var both := Encoded(|j.name|, 2) + Encoded(start, 2);
    assert Bytewise(j) == Front(j, length) + (both + back);
    FrontReads(j, length, both + back);
    LengthsRead(j, length, |j.name|, start, back);
  }

  lemma NameReads(j: Journal)
    requires Laid(j)
    ensures Name(Bytewise(j), (if j.version == 2 then 60 else 76) + |j.gap|, |j.name|) == j.name
  {
    hide Front, Encoded;
    var start := 8 + |j.middle| + 4 + |j.gap|;
    var both := Encoded(|j.name|, 2) + Encoded(start, 2);
    var before := Front(j, start + |j.name| + |j.rest|) + both + j.gap;
    assert Bytewise(j) == before + j.name + j.rest;
    Middle(before, j.name, j.rest, 0, |j.name|);
  }

  /** Such a record is sound and shows its version, its fixed part and its own name, wherever the name starts. */
  lemma RecordReads(j: Journal)
    requires Laid(j)
    ensures var r, fixed := Bytewise(j), if j.version == 2 then 60 else 76;
            Sound(r) && Read(r) == Some(Known(j.version, r[..fixed], |j.name|, j.name))
  {
    FieldsRead(j);
    NameReads(j);
    hide Bytewise, Name, Length, Version, NameSize, NameOffset;
  }

  /** Any other version shows as its number. */
  lemma OtherReads(version: nat, length: nat, rest: Bytes)
    requires version < 0x1_0000 && version != 2 && version != 3 && length < TWO_32 && 2 <= |rest|
    ensures Read(Encoded(length, 4) + Encoded(version, 2) + rest) == Some(Other(version))
  {
    Limits();
    DecodesEncoded(version, 2);
    Middle(Encoded(length, 4), Encoded(version, 2), rest, 0, 2);
  }
}
