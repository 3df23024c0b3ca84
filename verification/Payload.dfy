/**
 * Reading a captured payload (payload.h): bounds checks, little-endian fields,
 * names clipped to what was captured. Bytes and UTF-16 code units are bounded
 * integers; a rendered text is a sequence of code units.
 */
module Payload {
  import opened Common

  type Byte = b: int | 0 <= b < 0x100 witness 0

  type Unit = u: int | 0 <= u < 0x1_0000 witness 0

  type Bytes = seq<Byte>

  type Text = seq<Unit>

  /** L"..." */
  const MARK: Text := [0x2E, 0x2E, 0x2E]

  /** The two separators of lists. */
  const COMMA: Text := [0x2C, 0x20]
  const BAR: Text := [0x7C]

  function MarkTruncated(value: Text, truncated: bool): Text {
    if truncated then value + MARK else value
  }

  predicate Fits(payload: Bytes, offset: nat, size: nat) {
    offset <= |payload| && size <= |payload| - offset
  }

  function Min(a: nat, b: nat): nat { if a < b then a else b }

  /** What a 32-bit sum or double keeps. */
  function Wrap(n: nat): (r: nat)
    requires n < 2 * TWO_32
    ensures r < TWO_32 && (r == n || r == n - TWO_32)
  {
    if n < TWO_32 then n else n - TWO_32
  }

  lemma SliceOfPrefix(data: Bytes, k: nat, i: nat, j: nat)
    requires i <= j <= k <= |data|
    ensures data[..k][i..j] == data[i..j]
  {
  }

  function Concat(parts: seq<Bytes>): Bytes {
    if parts == [] then [] else parts[0] + Concat(parts[1..])
  }

  /** The number that little-endian bytes hold. */
  function LittleEndian(data: Bytes): nat {
    if data == [] then 0 else (data[0] as int) + 0x100 * LittleEndian(data[1..])
  }

  /** The little-endian bytes of a number, as the kernel lays it out. */
  function Encoded(n: nat, width: nat): (r: Bytes)
    ensures |r| == width
  {
    if width == 0 then [] else [n % 0x100] + Encoded(n / 0x100, width - 1)
  }

  function Limit(width: nat): (r: nat)
    ensures 1 <= r
  {
    if width == 0 then 1 else 0x100 * Limit(width - 1)
  }

  lemma Limits()
    ensures Limit(1) == 0x100 && Limit(2) == 0x1_0000 && Limit(4) == TWO_32
  {
    assert Limit(3) == 0x100 * Limit(2);
  }

  lemma {:induction false} LittleEndianIsBounded(data: Bytes)
    ensures LittleEndian(data) < Limit(|data|)
  {
    if data != [] { LittleEndianIsBounded(data[1..]); }
  }

  lemma {:induction false} DecodesEncoded(n: nat, width: nat)
    requires n < Limit(width)
    ensures LittleEndian(Encoded(n, width)) == n
  {
    if width > 0 {
      DecodesEncoded(n / 0x100, width - 1);
      assert Encoded(n, width)[1..] == Encoded(n / 0x100, width - 1);
    }
  }

  function U16(data: Bytes, at: nat): (r: nat)
    requires Fits(data, at, 2)
    ensures r < 0x1_0000
  {
    LittleEndianIsBounded(data[at..at + 2]);
    Limits();
    LittleEndian(data[at..at + 2])
  }

  function U32(data: Bytes, at: nat): (r: nat)
    requires Fits(data, at, 4)
    ensures r < TWO_32
  {
    LittleEndianIsBounded(data[at..at + 4]);
    Limits();
    LittleEndian(data[at..at + 4])
  }

  /** The bytes of a 32-bit value. */
  function Le32(n: nat): (r: Bytes)
    requires n < TWO_32
    ensures |r| == 4 && U32(r, 0) == n
  {
    Limits();
    DecodesEncoded(n, 4);
    assert Encoded(n, 4)[0..4] == Encoded(n, 4);
    Encoded(n, 4)
  }

  /** The whole code units of a byte run; an odd last byte is left out. */
  function Units(data: Bytes): (r: Text)
    ensures |r| == |data| / 2
  {
    seq(|data| / 2, i requires 0 <= i < |data| / 2 => U16(data, 2 * i))
  }

  function RenderName(data: Bytes, size: nat): Text {
    var copySize := Min(size, |data|);
    MarkTruncated(Units(data[..copySize]), copySize < size)
  }

  /** An upper-case hexadecimal digit. */
  function HexDigit(n: nat): (r: Unit)
    requires n < 16
    ensures 0x30 <= r <= 0x39 || 0x41 <= r <= 0x46
  {
    if n < 10 then 0x30 + n else 0x37 + n
  }

  /** One byte of a name the kernel keeps in ASCII: itself, or \xHH from 0x80 on. */
  function AsciiByte(b: Byte): Text {
    if b < 0x80 then [b] else [0x5C, 0x78, HexDigit(b / 16), HexDigit(b % 16)]
  }

  /** What a reader takes a hexadecimal digit for. */
  function DigitValue(u: Unit): Option<nat> {
    if 0x30 <= u <= 0x39 then Some(u - 0x30) else if 0x41 <= u <= 0x46 then Some(u - 0x41 + 10) else None
  }

  /** A backslash, an x and two digits that spell the code. */
  predicate Spells(text: Text, code: nat) {
    && |text| == 4 && text[0] == 0x5C && text[1] == 0x78
    && DigitValue(text[2]).Some? && DigitValue(text[3]).Some?
    && 16 * DigitValue(text[2]).value + DigitValue(text[3]).value == code
  }

  /** A byte from 0x80 on is spelled out, any other kept. */
  lemma AsciiByteSpells(b: Byte)
    ensures if 0x80 <= b then Spells(AsciiByte(b), b) else AsciiByte(b) == [b]
  {
  }

  function FromAscii(data: Bytes): Text {
    if data == [] then [] else FromAscii(data[..|data| - 1]) + AsciiByte(data[|data| - 1])
  }

  /** Byte by byte, in order. */
  lemma {:induction false} FromAsciiJoins(a: Bytes, b: Bytes)
    ensures FromAscii(a + b) == FromAscii(a) + FromAscii(b)
    ensures |b| == 1 ==> FromAscii(b) == AsciiByte(b[0])
  {
    hide AsciiByte;
    if b == [] {
      assert a + b == a;
    } else {
      var n := |b| - 1;
      FromAsciiJoins(a, b[..n]);
      assert (a + b)[..|a| + n] == a + b[..n];
    }
  }

  /** A name of ASCII bytes alone is shown as it is. */
  lemma {:induction false} AsciiIsKept(data: Bytes)
    requires forall i | 0 <= i < |data| :: data[i] < 0x80
    ensures FromAscii(data) == data
  {
    if data != [] {
      var n := |data| - 1;
      AsciiIsKept(data[..n]);
      AsciiByteSpells(data[n]);
      hide AsciiByte;
      assert data == data[..n] + [data[n]];
    }
  }

  function RenderAsciiName(data: Bytes, size: nat): Text {
    var copySize := Min(size, |data|);
    MarkTruncated(FromAscii(data[..copySize]), copySize < size)
  }

  /** A wide name cut short renders as a marked prefix of what the whole name renders as. */
  lemma CutNameIsPrefix(data: Bytes, size: nat, k: nat)
    requires k < size <= |data|
    ensures RenderName(data[..k], size) == RenderName(data, size)[..k / 2] + MARK
  {
    assert data[..k][..k] == data[..k];
    forall i | 0 <= i < k / 2 ensures Units(data[..k])[i] == Units(data[..size])[i] {
      assert data[..k][2 * i..2 * i + 2] == data[..size][2 * i..2 * i + 2];
    }
    assert Units(data[..k]) == Units(data[..size])[..k / 2];
  }

  lemma {:induction false} FromAsciiOfPrefix(data: Bytes, k: nat)
    requires k <= |data|
    ensures FromAscii(data[..k]) <= FromAscii(data)
  {
    if k < |data| {
      FromAsciiOfPrefix(data[..|data| - 1], k);
      assert data[..|data| - 1][..k] == data[..k];
    } else {
      assert data[..k] == data;
    }
  }

  /** An ASCII name cut short renders as a marked prefix of what the whole name renders as. */
  lemma CutAsciiNameIsPrefix(data: Bytes, size: nat, k: nat)
    requires k < size <= |data|
    ensures RenderAsciiName(data[..k], size) == FromAscii(data[..k]) + MARK
    ensures FromAscii(data[..k]) <= RenderAsciiName(data, size)
  {
    assert data[..k][..k] == data[..k];
    assert data[..size][..k] == data[..k];
    FromAsciiOfPrefix(data[..size], k);
  }

  /** Texts each followed by the separator. */
  function Followed(parts: seq<Text>, separator: Text): Text {
    if parts == [] then []
    else Followed(parts[..|parts| - 1], separator) + parts[|parts| - 1] + separator
  }

  /** Texts with the separator between them. */
  function Joined(parts: seq<Text>, separator: Text): Text {
    if parts == [] then []
    else if |parts| == 1 then parts[0]
    else parts[0] + separator + Joined(parts[1..], separator)
  }

  lemma {:induction false} FollowedFirst(parts: seq<Text>, separator: Text)
    requires parts != []
    ensures Followed(parts, separator) == parts[0] + separator + Followed(parts[1..], separator)
  {
    var n := |parts| - 1;
    if n > 0 {
      FollowedFirst(parts[..n], separator);
      assert parts[..n][1..] == parts[1..][..n - 1];
    }
  }

  /** Cutting the last separator off leaves the joined texts: the trim never underflows. */
  lemma {:induction false} TrimJoins(parts: seq<Text>, separator: Text)
    requires parts != []
    ensures |separator| <= |Followed(parts, separator)|
    ensures Followed(parts, separator)[..|Followed(parts, separator)| - |separator|] == Joined(parts, separator)
  {
    FollowedFirst(parts, separator);
    if |parts| > 1 {
      TrimJoins(parts[1..], separator);
      var rest := Followed(parts[1..], separator);
      assert (parts[0] + separator + rest)[..|parts[0]| + |separator| + |rest| - |separator|]
          == parts[0] + separator + rest[..|rest| - |separator|];
    } else {
      assert Followed(parts[1..], separator) == [];
      assert (parts[0] + separator + [])[..|parts[0]|] == parts[0];
    }
  }

  /** One separator between two texts. */
  lemma {:induction false} JoinedMore(parts: seq<Text>, part: Text, separator: Text)
    requires parts != []
    ensures Joined(parts + [part], separator) == Joined(parts, separator) + separator + part
    ensures |parts| == 1 ==> Joined(parts, separator) == parts[0]
  {
    if |parts| > 1 {
      JoinedMore(parts[1..], part, separator);
      assert (parts + [part])[1..] == parts[1..] + [part];
    }
  }

  lemma FollowedMore(parts: seq<Text>, part: Text, separator: Text)
    ensures Followed(parts + [part], separator) == Followed(parts, separator) + (part + separator)
  {
    assert (parts + [part])[..|parts|] == parts;
    assert Followed(parts, separator) + part + separator == Followed(parts, separator) + (part + separator);
  }

  /** The texts of what a walker found, numbered from one. */
  function Numbered<T>(items: seq<T>, text: (nat, T) -> Text): (r: seq<Text>)
    ensures |r| == |items|
  {
    seq(|items|, i requires 0 <= i < |items| => text(i + 1, items[i]))
  }

  /** One more item, behind whatever the text began with. */
  lemma NumberedMore<T>(before: seq<Text>, items: seq<T>, item: T, text: (nat, T) -> Text, separator: Text)
    ensures Followed(before + Numbered(items + [item], text), separator)
         == Followed(before + Numbered(items, text), separator) + (text(|items| + 1, item) + separator)
  {
    var t := text(|items| + 1, item);
    assert before + Numbered(items + [item], text) == before + Numbered(items, text) + [t];
    FollowedMore(before + Numbered(items, text), t, separator);
  }

  /** Before the first item there is what the text began with. */
  lemma NumberedNone<T>(before: seq<Text>, text: (nat, T) -> Text)
    ensures before + Numbered([], text) == before
  {
  }

  /** The text of a list: all of it, or what was found with the mark after it. */
  function Listed(parts: seq<Text>, separator: Text, marked: bool): Text {
    if marked then Followed(parts, separator) + MARK else Joined(parts, separator)
  }

  /** Moves the offset past an entry unless that would leave the payload. */
  method Advance(payload: Bytes, offset: nat, stride: nat) returns (ok: bool, next: nat)
    requires offset <= |payload|
    ensures ok <==> offset + stride <= |payload|
    ensures next == if ok then offset + stride else offset
    ensures offset <= next <= |payload|
  {
    if !Fits(payload, offset, stride) { return false, offset; }
    return true, offset + stride;
  }
}
