/**
 * The walkers of NextEntryOffset chains (directory.cpp, info.cpp, eas.cpp,
 * ea.cpp, quota.cpp): one loop over every entry layout, and the text it makes of
 * arbitrary bytes.
 */
module Chains {
  import opened Common
  import opened Payload

  /** What follows the fixed header of an entry, and how its length is announced. */
  datatype Tail =
    | WideName       // a 32-bit byte count
    | CountedName    // a 32-bit character count
    | AsciiName      // an 8-bit byte count
    | Attribute      // an 8-bit name length, then a 16-bit value length
    | Sid            // a 32-bit byte count; rendered whole or not at all

  /** An entry layout: the header starts with NextEntryOffset and holds the length field at lengthAt. */
  datatype Walker = Walker(headerSize: nat, lengthAt: nat, tail: Tail)

  const FILE_NOTIFY := Walker(12, 8, WideName)                     // RenderChangesPayload
  const FILE_STREAMS := Walker(24, 4, WideName)                    // RenderStreamsPayload
  const FILE_LINK_ENTRIES := Walker(20, 16, CountedName)           // RenderHardLinksPayload
  const FILE_LINK_FULL_ID_ENTRIES := Walker(24, 20, CountedName)   // RenderHardLinksPayload
  const FILE_FULL_EA := Walker(8, 5, Attribute)                    // RenderEasPayload
  const FILE_GET_EA := Walker(5, 4, AsciiName)                     // RenderEaNamesPayload
  const FILE_GET_QUOTA := Walker(8, 4, Sid)                        // RenderSidsPayload
  const FILE_QUOTA := Walker(40, 4, Sid)                           // RenderQuotasPayload

  predicate Laid(w: Walker) {
    4 <= w.lengthAt && w.lengthAt + LengthSize(w.tail) <= w.headerSize
  }

  function LengthSize(tail: Tail): (r: nat)
    ensures 1 <= r
  {
    match tail
    case WideName => 4
    case CountedName => 4
    case AsciiName => 1
    case Attribute => 3
    case Sid => 4
  }

  /**
   * How many bytes after the header the entry announces, read from the header
   * fields that follow NextEntryOffset. The product of a character count is cut
   * to 32 bits; an attribute has its name, a zero byte and its value if any.
   */
  function Extent(w: Walker, fields: Bytes): (r: nat)
    requires Laid(w) && |fields| == w.headerSize - 4
    ensures r < TWO_32
  {
    var at := w.lengthAt - 4;
    match w.tail
    case WideName => U32(fields, at)
    case CountedName => Wrap(2 * U32(fields, at))
    case AsciiName => fields[at]
    case Attribute =>
      var valueLength := U16(fields, at + 1);
      (fields[at] as int) + if valueLength == 0 then 0 else 1 + valueLength
    case Sid => U32(fields, at)
  }

  /** What a renderer is given of one entry: its fields, the announced size, the bytes present. */
  datatype Item = Item(fields: Bytes, extent: nat, body: Bytes)

  datatype Found = Found(items: seq<Item>, terminated: bool)

  function More(item: Item, rest: Found): Found {
    Found([item] + rest.items, rest.terminated)
  }

  /** ReadHeader: the bytes of the header at an offset. */
  function ReadHeader(w: Walker, p: Bytes, offset: nat): (r: Bytes)
    requires Laid(w) && Fits(p, offset, w.headerSize)
    ensures |r| == w.headerSize
  {
    p[offset..offset + w.headerSize]
  }

  /** The entry read at an offset, from its header and what the payload holds after it. */
  function ReadItem(w: Walker, p: Bytes, offset: nat): Item
    requires Laid(w) && Fits(p, offset, w.headerSize)
  {
    var fields := ReadHeader(w, p, offset)[4..];
    var start := offset + w.headerSize;
    var extent := Extent(w, fields);
    Item(fields, extent, p[start..Min(start + extent, |p|)])
  }

  function Next(w: Walker, p: Bytes, offset: nat): (r: nat)
    requires Laid(w) && Fits(p, offset, w.headerSize)
    ensures r < TWO_32
  {
    U32(ReadHeader(w, p, offset), 0)
  }

  /** Whether the loop renders an entry here. */
  predicate Shows(w: Walker, p: Bytes, offset: nat)
    requires Laid(w)
  {
    && Fits(p, offset, w.headerSize)
    && (w.tail.Sid? ==> ReadItem(w, p, offset).extent <= |p| - (offset + w.headerSize))
  }

  /** The chain from an offset. */
  function Scan(w: Walker, p: Bytes, offset: nat): Found
    requires Laid(w) && offset <= |p|
    decreases |p| - offset
  {
    if !Shows(w, p, offset) then Found([], false)
    else
      var item, next := ReadItem(w, p, offset), Next(w, p, offset);
      if next == 0 then Found([item], true)
      else if !Fits(p, offset, next) then Found([item], false)
      else More(item, Scan(w, p, offset + next))
  }

  type Renderer = (nat, Item) -> Text

  function Rendered(found: Found, text: Renderer, separator: Text): Text {
    Listed(Numbered(found.items, text), separator, !found.terminated)
  }

  /** What a walker finds in a payload: the chain from its start, and in an empty payload nothing,
      with nothing missing. */
  function Walk(w: Walker, p: Bytes): Found
    requires Laid(w)
  {
    if p == [] then Found([], true) else Scan(w, p, 0)
  }

  lemma TerminatedHasItems(w: Walker, p: Bytes, offset: nat)
    requires Laid(w) && offset <= |p|
    ensures Scan(w, p, offset).terminated ==> Scan(w, p, offset).items != []
  {
  }

  /** The text the loop has built after these entries. */
  function Line(items: seq<Item>, text: Renderer, separator: Text): Text {
    Followed(Numbered(items, text), separator)
  }

  lemma LineMore(items: seq<Item>, item: Item, text: Renderer, separator: Text)
    ensures Line(items + [item], text, separator)
         == Line(items, text, separator) + (text(|items| + 1, item) + separator)
  {
    NumberedMore([], items, item, text, separator);
    assert [] + Numbered(items, text) == Numbered(items, text);
    assert [] + Numbered(items + [item], text) == Numbered(items + [item], text);
  }

  /** What the walkers do with that text once the loop has ended. */
  lemma LineCloses(found: Found, text: Renderer, separator: Text)
    requires found.terminated ==> found.items != []
    ensures var line := Line(found.items, text, separator);
            && (found.terminated ==>
                 && |separator| <= |line|
                 && line[..|line| - |separator|] == Rendered(found, text, separator))
            && (!found.terminated ==> line + MARK == Rendered(found, text, separator))
  {
    if found.terminated {
      TrimJoins(Numbered(found.items, text), separator);
    }
  }

  function Plus(items: seq<Item>, rest: Found): Found {
    Found(items + rest.items, rest.terminated)
  }

  lemma PlusMore(items: seq<Item>, item: Item, rest: Found)
    ensures Plus(items, More(item, rest)) == Plus(items + [item], rest)
  {
    assert items + ([item] + rest.items) == items + [item] + rest.items;
  }

  /** The entries found so far and the chain that remains at the offset make up the whole chain. */
  ghost predicate Walked(w: Walker, p: Bytes, whole: Found, items: seq<Item>, offset: nat)
    requires Laid(w)
  {
    offset <= |p| && whole == Plus(items, Scan(w, p, offset))
  }

  lemma WalkStarts(w: Walker, p: Bytes, start: nat)
    requires Laid(w) && start <= |p|
    ensures Walked(w, p, Scan(w, p, start), [], start)
  {
    assert [] + Scan(w, p, start).items == Scan(w, p, start).items;
  }

  lemma WalkStops(w: Walker, p: Bytes, whole: Found, items: seq<Item>, offset: nat)
    requires Laid(w) && Walked(w, p, whole, items, offset) && !Shows(w, p, offset)
    ensures whole == Found(items, false)
  {
    assert items + [] == items;
  }

  lemma WalkEnds(w: Walker, p: Bytes, whole: Found, items: seq<Item>, offset: nat)
    requires Laid(w) && Walked(w, p, whole, items, offset) && Shows(w, p, offset)
    requires Next(w, p, offset) == 0 || !Fits(p, offset, Next(w, p, offset))
    ensures whole == Found(items + [ReadItem(w, p, offset)], Next(w, p, offset) == 0)
  {
  }

  lemma WalkMoves(w: Walker, p: Bytes, whole: Found, items: seq<Item>, offset: nat)
    requires Laid(w) && Walked(w, p, whole, items, offset) && Shows(w, p, offset)
    requires Next(w, p, offset) != 0 && Fits(p, offset, Next(w, p, offset))
    ensures Walked(w, p, whole, items + [ReadItem(w, p, offset)], offset + Next(w, p, offset))
  {
    PlusMore(items, ReadItem(w, p, offset), Scan(w, p, offset + Next(w, p, offset)));
  }

  /** One turn of the loop. */
  lemma WalkOn(w: Walker, p: Bytes, whole: Found, items: seq<Item>, offset: nat)
    requires Laid(w) && Walked(w, p, whole, items, offset)
    ensures !Shows(w, p, offset) ==> whole == Found(items, false)
    ensures Shows(w, p, offset) ==>
              var seen, next := items + [ReadItem(w, p, offset)], Next(w, p, offset);
              if next == 0 || !Fits(p, offset, next)
              then whole == Found(seen, next == 0)
              else Walked(w, p, whole, seen, offset + next)
  {
    if !Shows(w, p, offset) {
      WalkStops(w, p, whole, items, offset);
    } else if Next(w, p, offset) == 0 || !Fits(p, offset, Next(w, p, offset)) {
      WalkEnds(w, p, whole, items, offset);
    } else {
      WalkMoves(w, p, whole, items, offset);
    }
  }

  /**
   * RenderEntriesPayload, RenderChangesPayload, RenderStreamsPayload,
   * RenderEasPayload, RenderEaNamesPayload, RenderSidsPayload and
   * RenderQuotasPayload. text stands for the formatting of one entry. Every read
   * is in bounds, the loop ends and the 32-bit index does not wrap, whatever the
   * bytes are.
   */
  method RenderChain(w: Walker, payload: Bytes, text: Renderer, separator: Text) returns (result: Text)
    requires Laid(w) && |payload| < TWO_32
    ensures result == Rendered(Walk(w, payload), text, separator)
  {
    hide ReadItem, Next, Scan;
    if |payload| == 0 { return []; }

    result := [];
    var offset, index, terminated := 0, 1, false;
    ghost var whole, items: seq<Item> := Scan(w, payload, 0), [];
    WalkStarts(w, payload, 0);

    while true
      invariant |items| <= offset && index == |items| + 1
      invariant Walked(w, payload, whole, items, offset)
      invariant result == Line(items, text, separator)
      decreases |payload| - offset
    {
      WalkOn(w, payload, whole, items, offset);
      if !Shows(w, payload, offset) { break; }
      var item, next := ReadItem(w, payload, offset), Next(w, payload, offset);
      LineMore(items, item, text, separator);
      result := result + (text(index, item) + separator);
      index := Wrap(index + 1);
      items := items + [item];

      if next == 0 {
        terminated := true;
        break;
      }
      var ok, moved := Advance(payload, offset, next);
      if !ok { break; }
      offset := moved;
    }

    TerminatedHasItems(w, payload, 0);
    LineCloses(Found(items, terminated), text, separator);
    if terminated {
      result := result[..|result| - |separator|];
    }
    result := MarkTruncated(result, !terminated);
  }
}
