/**
 * Chain entries built from what they are about, field by field in the order of
 * kernel.h, and what the walkers make of whole chains of them: the names, values
 * and owners that went in.
 */
module Layouts {
  import opened Common
  import opened Payload
  import opened Chains
  import opened ChainRounds
  import opened Walkers
  import opened Links

  // ----- Names -----

  /** The bytes of a wide name. */
  ghost function Wide(name: Text): (r: Bytes)
    ensures |r| == 2 * |name|
  {
    if name == [] then [] else Encoded(name[0], 2) + Wide(name[1..])
  }

  lemma {:induction false} WideAt(name: Text, i: nat)
    requires i < |name|
    ensures Wide(name)[2 * i..2 * i + 2] == Encoded(name[i], 2)
  {
    if i > 0 {
      WideAt(name[1..], i - 1);
      assert Wide(name)[2 * i..2 * i + 2] == Wide(name[1..])[2 * (i - 1)..2 * (i - 1) + 2];
    }
  }

  /** Code units survive their bytes. */
  lemma UnitsOfWide(name: Text)
    ensures Units(Wide(name)) == name
  {
    Limits();
    forall i | 0 <= i < |name| ensures Units(Wide(name))[i] == name[i] {
      WideAt(name, i);
      DecodesEncoded(name[i], 2);
    }
  }

  lemma NameReads(name: Text)
    ensures RenderName(Wide(name), |Wide(name)|) == name
  {
    assert Wide(name)[..|Wide(name)|] == Wide(name);
    UnitsOfWide(name);
  }

  // ----- Entries -----

  const ZEROS: Bytes := [0, 0, 0, 0]

  /** FILE_NOTIFY_INFORMATION */
  ghost function NotifyEntry(action: nat, name: Text, padding: Bytes): (r: Entry)
    ensures Size(FILE_NOTIFY, r) < TWO_32 ==> Sound(FILE_NOTIFY, r)
  {
    var body := Wide(name);
    var before, length := Encoded(action, 4), Encoded(|body|, 4);
    assert (before + length)[4..8] == length;
    Entry(before + length, body, padding)
  }

  /** FILE_STREAM_INFORMATION; sizes holds StreamSize and StreamAllocationSize. */
  ghost function StreamEntry(name: Text, sizes: Bytes, padding: Bytes): (r: Entry)
    requires |sizes| == 16
    ensures Size(FILE_STREAMS, r) < TWO_32 ==> Sound(FILE_STREAMS, r)
  {
    var body := Wide(name);
    var length := Encoded(|body|, 4);
    assert (length + sizes)[0..4] == length;
    Entry(length + sizes, body, padding)
  }

  /** FILE_LINK_ENTRY_INFORMATION: a 64-bit ParentFileId aligned to 8, then a character count. */
  ghost function LinkEntry(parent: Bytes, name: Text, padding: Bytes): (r: Entry)
    requires |parent| == 8
    ensures Size(FILE_LINK_ENTRIES, r) < TWO_32 ==> Sound(FILE_LINK_ENTRIES, r)
  {
    var before, length := ZEROS + parent, Encoded(|name|, 4);
    assert (before + length)[12..16] == length;
    Entry(before + length, Wide(name), padding)
  }

  /** FILE_LINK_ENTRY_FULL_ID_INFORMATION: a 128-bit ParentFileId, then a character count. */
  ghost function FullIdLinkEntry(parent: Bytes, name: Text, padding: Bytes): (r: Entry)
    requires |parent| == 16
    ensures Size(FILE_LINK_FULL_ID_ENTRIES, r) < TWO_32 ==> Sound(FILE_LINK_FULL_ID_ENTRIES, r)
  {
    var length := Encoded(|name|, 4);
    assert (parent + length)[16..20] == length;
    Entry(parent + length, Wide(name), padding)
  }

  /** FILE_FULL_EA_INFORMATION */
  ghost function EaEntry(flags: Byte, name: Bytes, value: Bytes, padding: Bytes): (r: Entry)
    requires |name| < 0x100 && |value| < 0x1_0000
    ensures Size(FILE_FULL_EA, r) < TWO_32 ==> Sound(FILE_FULL_EA, r)
  {
    var lengths := [|name|] + Encoded(|value|, 2);
    var body := name + if value == [] then [] else [0] + value;
    assert ([flags] + lengths)[1..4] == lengths;
    assert IsAttribute(lengths, body, name, 0, value);
    Entry([flags] + lengths, body, padding)
  }

  /** FILE_GET_EA_INFORMATION */
  ghost function EaNameEntry(name: Bytes, padding: Bytes): (r: Entry)
    requires |name| < 0x100
    ensures Size(FILE_GET_EA, r) < TWO_32 ==> Sound(FILE_GET_EA, r)
  {
    Entry([|name|], name, padding)
  }

  /** FILE_GET_QUOTA_INFORMATION */
  ghost function SidEntry(sid: Bytes, padding: Bytes): (r: Entry)
    ensures Size(FILE_GET_QUOTA, r) < TWO_32 ==> Sound(FILE_GET_QUOTA, r)
  {
    Entry(Encoded(|sid|, 4), sid, padding)
  }

  /** FILE_QUOTA_INFORMATION; figures holds ChangeTime, QuotaUsed, QuotaThreshold and QuotaLimit. */
  ghost function QuotaEntry(sid: Bytes, figures: Bytes, padding: Bytes): (r: Entry)
    requires |figures| == 32
    ensures Size(FILE_QUOTA, r) < TWO_32 ==> Sound(FILE_QUOTA, r)
  {
    var length := Encoded(|sid|, 4);
    assert (length + figures)[0..4] == length;
    Entry(length + figures, sid, padding)
  }

  // ----- Listings -----

  /** FILE_NAMES_INFORMATION */
  const FILE_NAMES := Walker(12, 8, WideName)

  /** Any directory entry: the fields before and after FileNameLength, and the name. */
  ghost function NamedEntry(w: Walker, before: Bytes, after: Bytes, name: Text, padding: Bytes): (r: Entry)
    requires Laid(w) && w.tail.WideName? && |before| == w.lengthAt - 4 && |after| == w.headerSize - w.lengthAt - 4
    ensures Size(w, r) < TWO_32 ==> Sound(w, r)
  {
    var body := Wide(name);
    var length := Encoded(|body|, 4);
    assert (before + length + after)[w.lengthAt - 4..w.lengthAt] == length;
    Entry(before + length + after, body, padding)
  }

  ghost function NumberedTexts(names: seq<Text>): seq<Text> {
    seq(|names|, i requires 0 <= i < |names| => Decimal(i + 1) + COLON + names[i])
  }

  /** A listing of names shows those names, numbered, with nothing else and no mark. */
  lemma ListingOfNames(w: Walker, es: seq<Entry>, names: seq<Text>)
    requires Laid(w) && w.tail.WideName? && AllSound(w, es) && es != [] && |names| == |es|
    requires forall i | 0 <= i < |es| :: es[i].body == Wide(names[i])
    ensures Rendered(Walk(w, Encode(w, es)), EntryText, COMMA) == Joined(NumberedTexts(names), COMMA)
  {
    WholeDirectory(w, es);
    hide Rendered, Encode, Walk, Joined, Wide, Units, Decimal;
    forall i | 0 <= i < |es| ensures NumberedNames(es)[i] == NumberedTexts(names)[i] {
      UnitsOfWide(names[i]);
    }
    assert NumberedNames(es) == NumberedTexts(names);
  }

  lemma OneNameBytes(e: Entry)
    requires e == NamedEntry(FILE_NAMES, ZEROS, [], [0x41], [])
    ensures Encode(FILE_NAMES, [e]) == [0, 0, 0, 0] + [0, 0, 0, 0] + [2, 0, 0, 0] + [0x41, 0]
    ensures e.body == Wide([0x41])
  {
    assert Wide([0x41]) == [0x41, 0];
    assert Encoded(2, 4) == [2, 0, 0, 0] by { assert Encoded(0, 3) == [0, 0, 0]; }
    assert Le32(0) == [0, 0, 0, 0] by { assert Encoded(0, 3) == [0, 0, 0]; }
    assert Bare(FILE_NAMES, e, 0) == Le32(0) + e.fields + e.body;
    assert Encode(FILE_NAMES, [e]) == Bare(FILE_NAMES, e, 0) + Encode(FILE_NAMES, []);
  }

  lemma OneText(name: Text)
    ensures Joined(NumberedTexts([name]), COMMA) == [0x31, 0x3A, 0x20] + name
  {
    assert NumberedTexts([name]) == [Decimal(1) + COLON + name];
  }

  /** The fourteen bytes that list the one name A. */
  lemma OneName()
    ensures var p: Bytes := [0, 0, 0, 0] + [0, 0, 0, 0] + [2, 0, 0, 0] + [0x41, 0];
            Rendered(Walk(FILE_NAMES, p), EntryText, COMMA) == [0x31, 0x3A, 0x20, 0x41]
  {
    hide Rendered, Walk, Joined, EntryText;
    var name: Text := [0x41];
    var e := NamedEntry(FILE_NAMES, ZEROS, [], name, []);
    OneNameBytes(e);
    ListingOfNames(FILE_NAMES, [e], [name]);
    OneText(name);
  }

  /** A whole chain renders as the texts of its entries. */
  lemma WholeTexts(w: Walker, es: seq<Entry>, text: Renderer, parts: seq<Text>, separator: Text)
    requires Laid(w) && AllSound(w, es) && es != [] && |parts| == |es|
    requires forall i | 0 <= i < |parts| :: text(i + 1, Whole(es[i])) == parts[i]
    ensures Rendered(Walk(w, Encode(w, es)), text, separator) == Joined(parts, separator)
  {
    RoundTrip(w, es);
    hide Scan, Encode, Joined, Whole;
    NumberedIs(Walk(w, Encode(w, es)).items, text, parts);
  }

  lemma NumberedIs<T>(items: seq<T>, text: (nat, T) -> Text, parts: seq<Text>)
    requires |items| == |parts| && forall i | 0 <= i < |parts| :: text(i + 1, items[i]) == parts[i]
    ensures Numbered(items, text) == parts
  {
  }

  // ----- Changes and streams -----

  /** L"..." */
  function Literal(s: string): Text {
    seq(|s|, i requires 0 <= i < |s| => if s[i] as int < 0x1_0000 then s[i] as int else 0)
  }

  /** One entry of RenderChangesPayload; action stands for RenderFileAction. */
  function ChangeText(action: nat -> Text): Renderer {
    (index: nat, item: Item) =>
      Decimal(index) + Literal(": Action: ") + action(if |item.fields| < 4 then 0 else U32(item.fields, 0))
      + Literal(", FileName: ") + RenderName(item.body, item.extent)
  }

  method RenderChangesPayload(payload: Bytes, action: nat -> Text) returns (result: Text)
    requires |payload| < TWO_32
    ensures result == Rendered(Walk(FILE_NOTIFY, payload), ChangeText(action), COMMA)
  {
    result := RenderChain(FILE_NOTIFY, payload, ChangeText(action), COMMA);
  }

  datatype Change = Change(action: nat, name: Text, padding: Bytes)

  ghost predicate FitChange(change: Change) {
    change.action < TWO_32 && 12 + 2 * |change.name| + |change.padding| < TWO_32
  }

  ghost function ChangeOf(change: Change): (r: Entry)
    requires FitChange(change)
    ensures Sound(FILE_NOTIFY, r)
  {
    NotifyEntry(change.action, change.name, change.padding)
  }

  ghost function ChangesOf(changes: seq<Change>): (r: seq<Entry>)
    requires forall change <- changes :: FitChange(change)
    ensures |r| == |changes| && AllSound(FILE_NOTIFY, r)
  {
    seq(|changes|, i requires 0 <= i < |changes| => ChangeOf(changes[i]))
  }

  ghost function TextsOfChanges(changes: seq<Change>, action: nat -> Text): seq<Text> {
    seq(|changes|, i requires 0 <= i < |changes| => TextOfChange(i + 1, changes[i], action))
  }

  /** A whole answer shows every change: what happened to which file. */
  lemma WholeChanges(changes: seq<Change>, action: nat -> Text)
    requires changes != [] && forall change <- changes :: FitChange(change)
    ensures Rendered(Walk(FILE_NOTIFY, Encode(FILE_NOTIFY, ChangesOf(changes))), ChangeText(action), COMMA)
         == Joined(TextsOfChanges(changes, action), COMMA)
  {
    hide Rendered, Walk, Encode, Joined, ChangeText, TextOfChange, ChangeOf, Whole;
    var es, parts := ChangesOf(changes), TextsOfChanges(changes, action);
    forall i | 0 <= i < |parts| ensures ChangeText(action)(i + 1, Whole(es[i])) == parts[i] {
      ChangeReads(i + 1, changes[i], action);
    }
    WholeTexts(FILE_NOTIFY, es, ChangeText(action), parts, COMMA);
  }

  function TextOfChange(index: nat, change: Change, action: nat -> Text): Text {
    Decimal(index) + Literal(": Action: ") + action(change.action) + Literal(", FileName: ") + change.name
  }

  lemma ChangeReads(index: nat, change: Change, action: nat -> Text)
    requires FitChange(change)
    ensures ChangeText(action)(index, Whole(ChangeOf(change))) == TextOfChange(index, change, action)
  {
    var e := ChangeOf(change);
    Limits();
    DecodesEncoded(change.action, 4);
    assert e.fields[0..4] == Encoded(change.action, 4);
    assert U32(e.fields, 0) == change.action;
    NameReads(change.name);
    hide NotifyEntry, RenderName, U32, Literal, Decimal, Wide;
  }

  /** One entry of RenderStreamsPayload; sizes stands for the formatting of both sizes. */
  function StreamText(sizes: Bytes -> Text): Renderer {
    (index: nat, item: Item) =>
      Literal("StreamName: ") + RenderName(item.body, item.extent)
      + sizes(if |item.fields| < 20 then [] else item.fields[4..20])
  }

  method RenderStreamsPayload(payload: Bytes, sizes: Bytes -> Text) returns (result: Text)
    requires |payload| < TWO_32
    ensures result == Rendered(Walk(FILE_STREAMS, payload), StreamText(sizes), COMMA)
  {
    result := RenderChain(FILE_STREAMS, payload, StreamText(sizes), COMMA);
  }

  lemma StreamReads(index: nat, name: Text, both: Bytes, padding: Bytes, sizes: Bytes -> Text)
    requires |both| == 16
    ensures StreamText(sizes)(index, Whole(StreamEntry(name, both, padding)))
         == Literal("StreamName: ") + name + sizes(both)
  {
    var e := StreamEntry(name, both, padding);
    assert e.fields[4..20] == both;
    NameReads(name);
    hide RenderName, Literal, Wide;
  }

  // ----- Extended attributes -----

  /** RenderBytes of the bytes at an offset; bytes stands for their formatting, with the mark if any is missing. */
  function RenderBytes(data: Bytes, offset: nat, size: nat, bytes: (Bytes, bool) -> Text): Text {
    var rest := data[Min(offset, |data|)..];
    var dataSize := Min(size, |rest|);
    bytes(rest[..dataSize], dataSize < size)
  }

  /** One entry of RenderEasPayload; flags stands for RenderEaFlags. */
  function EaText(flags: nat -> Text, bytes: (Bytes, bool) -> Text): Renderer {
    (index: nat, item: Item) =>
      if |item.fields| < 4 then []
      else
        var nameLength, valueLength := item.fields[1] as int, U16(item.fields, 2);
        Decimal(index) + Literal(": EaName: ") + RenderAsciiName(item.body, nameLength)
        + Literal(", EaValueLength: ") + Decimal(valueLength)
        + (if valueLength == 0 then []
           else Literal(", EaValue: ") + RenderBytes(item.body, nameLength + 1, valueLength, bytes))
        + if item.fields[0] == 0 then [] else Literal(", Flags: ") + flags(item.fields[0])
  }

  method RenderEasPayload(payload: Bytes, flags: nat -> Text, bytes: (Bytes, bool) -> Text) returns (result: Text)
    requires |payload| < TWO_32
    ensures result == Rendered(Walk(FILE_FULL_EA, payload), EaText(flags, bytes), COMMA)
  {
    result := RenderChain(FILE_FULL_EA, payload, EaText(flags, bytes), COMMA);
  }

  datatype Ea = Ea(flags: Byte, name: Bytes, value: Bytes, padding: Bytes)

  ghost predicate FitEa(ea: Ea) {
    |ea.name| < 0x100 && |ea.value| < 0x1_0000 && |ea.padding| < 0x1_0000
  }

  ghost function EaOf(ea: Ea): (r: Entry)
    requires FitEa(ea)
    ensures Sound(FILE_FULL_EA, r)
  {
    EaEntry(ea.flags, ea.name, ea.value, ea.padding)
  }

  ghost function EasOf(eas: seq<Ea>): (r: seq<Entry>)
    requires forall ea <- eas :: FitEa(ea)
    ensures |r| == |eas| && AllSound(FILE_FULL_EA, r)
  {
    seq(|eas|, i requires 0 <= i < |eas| => EaOf(eas[i]))
  }

  /** What is shown of an attribute: its name, how long its value is, the value and the flags if there are any. */
  function TextOfEa(index: nat, ea: Ea, flags: nat -> Text, bytes: (Bytes, bool) -> Text): Text {
    Decimal(index) + Literal(": EaName: ") + FromAscii(ea.name) + Literal(", EaValueLength: ") + Decimal(|ea.value|)
    + (if ea.value == [] then [] else Literal(", EaValue: ") + bytes(ea.value, false))
    + if ea.flags == 0 then [] else Literal(", Flags: ") + flags(ea.flags)
  }

  lemma EaReads(index: nat, ea: Ea, flags: nat -> Text, bytes: (Bytes, bool) -> Text)
    requires FitEa(ea)
    ensures EaText(flags, bytes)(index, Whole(EaOf(ea))) == TextOfEa(index, ea, flags, bytes)
  {
    EaFields(ea);
    EaBody(ea, bytes);
    hide EaOf, RenderAsciiName, RenderBytes, Literal, Decimal, U16, FromAscii;
  }

  lemma EaFields(ea: Ea)
    requires FitEa(ea)
    ensures var e := EaOf(ea); e.fields[0] == ea.flags && e.fields[1] == |ea.name| && U16(e.fields, 2) == |ea.value|
  {
    Limits();
    DecodesEncoded(|ea.value|, 2);
    assert EaOf(ea).fields[2..4] == Encoded(|ea.value|, 2);
  }

  lemma EaBody(ea: Ea, bytes: (Bytes, bool) -> Text)
    requires FitEa(ea)
    ensures RenderAsciiName(EaOf(ea).body, |ea.name|) == FromAscii(ea.name)
    ensures ea.value != [] ==> RenderBytes(EaOf(ea).body, |ea.name| + 1, |ea.value|, bytes) == bytes(ea.value, false)
  {
    var body := EaOf(ea).body;
    assert body[..|ea.name|] == ea.name;
    if ea.value != [] {
      var rest := body[|ea.name| + 1..];
      assert rest == ea.value && rest[..|ea.value|] == ea.value;
    }
  }

  /** A whole attribute list shows every attribute with its whole name and its whole value. */
  lemma WholeEas(eas: seq<Ea>, flags: nat -> Text, bytes: (Bytes, bool) -> Text)
    requires eas != [] && forall ea <- eas :: FitEa(ea)
    ensures Rendered(Walk(FILE_FULL_EA, Encode(FILE_FULL_EA, EasOf(eas))), EaText(flags, bytes), COMMA)
         == Joined(seq(|eas|, i requires 0 <= i < |eas| => TextOfEa(i + 1, eas[i], flags, bytes)), COMMA)
  {
    hide Rendered, Walk, Encode, Joined, EaText, TextOfEa, EaOf, Whole;
    var es := EasOf(eas);
    var parts := seq(|eas|, i requires 0 <= i < |eas| => TextOfEa(i + 1, eas[i], flags, bytes));
    forall i | 0 <= i < |parts| ensures EaText(flags, bytes)(i + 1, Whole(es[i])) == parts[i] {
      EaReads(i + 1, eas[i], flags, bytes);
    }
    WholeTexts(FILE_FULL_EA, es, EaText(flags, bytes), parts, COMMA);
  }

  /** The loop formats from all that follows the header; only the announced part of it matters. */
  lemma EaOfRest(rest: Bytes, nameLength: nat, valueLength: nat, bytes: (Bytes, bool) -> Text)
    ensures var body := rest[..Min(nameLength + 1 + valueLength, |rest|)];
            && RenderAsciiName(body, nameLength) == RenderAsciiName(rest, nameLength)
            && RenderBytes(body, nameLength + 1, valueLength, bytes)
               == RenderBytes(rest, nameLength + 1, valueLength, bytes)
  {
    var extent := Min(nameLength + 1 + valueLength, |rest|);
    SliceOfPrefix(rest, extent, 0, Min(nameLength, |rest|));
    var start := Min(nameLength + 1, |rest|);
    var end := start + Min(valueLength, |rest| - start);
    SliceOfPrefix(rest, extent, start, end);
    assert rest[..extent][start..] == rest[start..end];
    assert rest[start..][..end - start] == rest[start..end];
    assert rest[start..end][..end - start] == rest[start..end];
  }

  // ----- Owners -----

  /** One entry of RenderSidsPayload; sid stands for RenderSid. */
  function SidText(sid: Bytes -> Text): Renderer { (index: nat, item: Item) => sid(item.body) }

  method RenderSidsPayload(payload: Bytes, sid: Bytes -> Text) returns (result: Text)
    requires |payload| < TWO_32
    ensures result == Rendered(Walk(FILE_GET_QUOTA, payload), SidText(sid), BAR)
  {
    result := RenderChain(FILE_GET_QUOTA, payload, SidText(sid), BAR);
  }

  /** One entry of RenderQuotasPayload; figures stands for the formatting of the time, if set, and the amounts. */
  function QuotaText(sid: Bytes -> Text, figures: Bytes -> Text): Renderer {
    (index: nat, item: Item) =>
      Decimal(index) + Literal(": Sid: ") + sid(item.body)
      + figures(if |item.fields| < 36 then [] else item.fields[4..36])
  }

  method RenderQuotasPayload(payload: Bytes, sid: Bytes -> Text, figures: Bytes -> Text) returns (result: Text)
    requires |payload| < TWO_32
    ensures result == Rendered(Walk(FILE_QUOTA, payload), QuotaText(sid, figures), COMMA)
  {
    result := RenderChain(FILE_QUOTA, payload, QuotaText(sid, figures), COMMA);
  }

  /** An owner's entry shows that owner, with its figures. */
  lemma OwnerReads(index: nat, owner: Bytes, amounts: Bytes, padding: Bytes, sid: Bytes -> Text, figures: Bytes -> Text)
    requires |amounts| == 32
    ensures SidText(sid)(index, Whole(SidEntry(owner, padding))) == sid(owner)
    ensures QuotaText(sid, figures)(index, Whole(QuotaEntry(owner, amounts, padding)))
         == Decimal(index) + Literal(": Sid: ") + sid(owner) + figures(amounts)
  {
    assert QuotaEntry(owner, amounts, padding).fields[4..36] == amounts;
  }

  // ----- Hard links -----

  datatype Link = Link(parent: Bytes, name: Text, padding: Bytes)

  /** The id of the directory the link is in, as the layout holds it. */
  function Parent(full: bool, fields: Bytes): Bytes {
    if |fields| < 16 then [] else if full then fields[0..16] else fields[4..12]
  }

  /** One entry of RenderHardLinksPayload; id stands for RenderFileId. */
  function LinkText(full: bool, id: Bytes -> Text): Renderer {
    (index: nat, item: Item) =>
      Literal("ParentFileId: ") + id(Parent(full, item.fields)) + Literal(", FileName: ")
      + RenderName(item.body, item.extent)
  }

  function LinksHead(bytesNeeded: nat, count: nat): Text {
    Literal("BytesNeeded: ") + Decimal(bytesNeeded) + Literal(", EntriesReturned: ") + Decimal(count)
  }

  function LinkLayout(full: bool): Walker {
    if full then FILE_LINK_FULL_ID_ENTRIES else FILE_LINK_ENTRIES
  }

  ghost predicate Fit(full: bool, link: Link) {
    && |link.parent| == (if full then 16 else 8)
    && LinkLayout(full).headerSize + 2 * |link.name| + |link.padding| < TWO_32
  }

  ghost function LinkOf(full: bool, link: Link): (r: Entry)
    requires Fit(full, link)
    ensures Sound(LinkLayout(full), r)
  {
    if full then FullIdLinkEntry(link.parent, link.name, link.padding)
    else LinkEntry(link.parent, link.name, link.padding)
  }

  ghost function LinksOf(full: bool, links: seq<Link>): (r: seq<Entry>)
    requires forall link <- links :: Fit(full, link)
    ensures |r| == |links| && AllSound(LinkLayout(full), r)
  {
    seq(|links|, i requires 0 <= i < |links| => LinkOf(full, links[i]))
  }

  /** What is shown of a link: where it is and its name. */
  function TextOfLink(link: Link, id: Bytes -> Text): Text {
    Literal("ParentFileId: ") + id(link.parent) + Literal(", FileName: ") + link.name
  }

  function TextsOfLinks(links: seq<Link>, id: Bytes -> Text): seq<Text> {
    seq(|links|, i requires 0 <= i < |links| => TextOfLink(links[i], id))
  }

  lemma LinkReads(full: bool, link: Link, id: Bytes -> Text, index: nat)
    requires Fit(full, link)
    ensures LinkText(full, id)(index, Whole(LinkOf(full, link))) == TextOfLink(link, id)
  {
    var e := LinkOf(full, link);
    assert Parent(full, e.fields) == link.parent;
    assert e.body[..|e.body|] == e.body;
    UnitsOfWide(link.name);
  }

  /** RenderHardLinksPayload for either layout. */
  method RenderHardLinksPayload(full: bool, payload: Bytes, id: Bytes -> Text) returns (result: Text)
    requires |payload| < TWO_32
    ensures result ==
      if |payload| < ENTRY_OFFSET then []
      else
        Listed([LinksHead(U32(payload, 0), U32(payload, 4))]
                 + Numbered(Shown(LinkLayout(full), payload), LinkText(full, id)),
               COMMA, Short(LinkLayout(full), payload))
  {
    result := RenderHardLinks(LinkLayout(full), payload, LinksHead, LinkText(full, id), COMMA);
  }

  /** A whole answer that lists some links shows every one of them with its whole name, unmarked. */
  lemma WholeLinks(full: bool, bytesNeeded: nat, links: seq<Link>, id: Bytes -> Text)
    requires links != [] && |links| < TWO_32 && bytesNeeded < TWO_32 && forall link <- links :: Fit(full, link)
    ensures var w := LinkLayout(full);
            var p := EncodeLinks(w, bytesNeeded, |links|, LinksOf(full, links));
            && U32(p, 0) == bytesNeeded && U32(p, 4) == |links| && !Short(w, p)
            && Numbered(Shown(w, p), LinkText(full, id)) == TextsOfLinks(links, id)
  {
    var w, es := LinkLayout(full), LinksOf(full, links);
    var p := EncodeLinks(w, bytesNeeded, |links|, es);
    WholeShown(w, bytesNeeded, es);
    hide LinkText, TextOfLink, LinkOf, EncodeLinks, Shown, Short, Whole;
    forall i | 0 <= i < |links|
      ensures LinkText(full, id)(i + 1, Shown(w, p)[i]) == TextsOfLinks(links, id)[i]
    {
      LinkReads(full, links[i], id, i + 1);
    }
    NumberedIs(Shown(w, p), LinkText(full, id), TextsOfLinks(links, id));
  }

  /** With the right count a whole buffer shows every entry whole. */
  lemma WholeShown(w: Walker, bytesNeeded: nat, es: seq<Entry>)
    requires Laid(w) && AllSound(w, es) && es != [] && |es| < TWO_32 && bytesNeeded < TWO_32
    ensures var p := EncodeLinks(w, bytesNeeded, |es|, es);
            && U32(p, 0) == bytesNeeded && U32(p, 4) == |es| && !Short(w, p)
            && |Shown(w, p)| == |es| && forall i | 0 <= i < |es| :: Shown(w, p)[i] == Whole(es[i])
  {
    var p, n := EncodeLinks(w, bytesNeeded, |es|, es), |Encode(w, es)|;
    assert p[..ENTRY_OFFSET + n] == p;
    assert p[0..4] == Le32(bytesNeeded) == Le32(bytesNeeded)[0..4];
    ShownIsVisible(w, bytesNeeded, |es|, es, n);
    VisibleWhole(w, es);
    hide Visible, Encode, EncodeLinks, Scan;
  }
}
