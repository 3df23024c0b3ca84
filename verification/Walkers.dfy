/**
 * The walkers by name, and two of them down to their text: directory entries
 * (directory.cpp) and the names of an extended-attribute query (ea.cpp).
 */
module Walkers {
  import opened Common
  import opened Payload
  import opened Chains
  import opened ChainRounds

  /** A number in decimal digits. */
  function Decimal(n: nat): Text {
    (if n < 10 then [] else Decimal(n / 10)) + [0x30 + n % 10]
  }

  /** What a reader takes decimal digits for. */
  function Value(digits: Text): int {
    if digits == [] then 0 else 10 * Value(digits[..|digits| - 1]) + (digits[|digits| - 1] as int) - 0x30
  }

  /** The digits spell the number, without leading zeros. */
  lemma {:induction false} DecimalSpells(n: nat)
    ensures Value(Decimal(n)) == n
    ensures forall d <- Decimal(n) :: 0x30 <= d <= 0x39
    ensures |Decimal(n)| > 1 ==> Decimal(n)[0] != 0x30
  {
    var digits := Decimal(n);
    if n < 10 {
      assert digits[..0] == [];
    } else {
      DecimalSpells(n / 10);
      assert digits[..|digits| - 1] == Decimal(n / 10);
      if n / 10 < 10 { assert Decimal(n / 10) == [] + [0x30 + (n / 10) % 10]; }
    }
  }

  const COLON: Text := [0x3A, 0x20]

  /** "{index}: {name}" */
  function EntryText(index: nat, item: Item): Text {
    Decimal(index) + COLON + RenderName(item.body, item.extent)
  }

  function EaNameText(index: nat, item: Item): Text {
    RenderAsciiName(item.body, item.extent)
  }

  /** The name is rendered from what follows the header; only the announced part of it matters. */
  lemma NameOfRest(rest: Bytes, size: nat)
    ensures RenderName(rest[..Min(size, |rest|)], size) == RenderName(rest, size)
    ensures RenderAsciiName(rest[..Min(size, |rest|)], size) == RenderAsciiName(rest, size)
  {
    var body := rest[..Min(size, |rest|)];
    assert body[..|body|] == body;
  }

  /** RenderEntriesPayload, for the information class whose layout is w. */
  method RenderEntriesPayload(w: Walker, payload: Bytes) returns (result: Text)
    requires Laid(w) && w.tail.WideName? && |payload| < TWO_32
    ensures result == Rendered(Walk(w, payload), EntryText, COMMA)
  {
    result := RenderChain(w, payload, EntryText, COMMA);
  }

  method RenderEaNamesPayload(payload: Bytes) returns (result: Text)
    requires |payload| < TWO_32
    ensures result == Rendered(Walk(FILE_GET_EA, payload), EaNameText, BAR)
  {
    result := RenderChain(FILE_GET_EA, payload, EaNameText, BAR);
  }

  /** The names of a chain, in full. */
  ghost function EaNames(es: seq<Entry>): seq<Text> {
    seq(|es|, i requires 0 <= i < |es| => FromAscii(es[i].body))
  }

  ghost function NumberedNames(es: seq<Entry>): seq<Text> {
    seq(|es|, i requires 0 <= i < |es| => Decimal(i + 1) + COLON + Units(es[i].body))
  }

  /** A whole extended-attribute list renders as its names with bars between them, unmarked. */
  lemma WholeEaList(es: seq<Entry>)
    requires AllSound(FILE_GET_EA, es) && es != []
    ensures Rendered(Walk(FILE_GET_EA, Encode(FILE_GET_EA, es)), EaNameText, BAR) == Joined(EaNames(es), BAR)
  {
    RoundTrip(FILE_GET_EA, es);
    hide Scan, Encode, Joined;
    var items := seq(|es|, i requires 0 <= i < |es| => Whole(es[i]));
    forall i | 0 <= i < |es| ensures EaNameText(i + 1, items[i]) == EaNames(es)[i] {
      assert es[i].body[..|es[i].body|] == es[i].body;
    }
    assert Numbered(items, EaNameText) == EaNames(es);
  }

  /** A whole directory listing renders as its numbered names, unmarked. */
  lemma WholeDirectory(w: Walker, es: seq<Entry>)
    requires Laid(w) && w.tail.WideName? && AllSound(w, es) && es != []
    ensures Rendered(Walk(w, Encode(w, es)), EntryText, COMMA) == Joined(NumberedNames(es), COMMA)
  {
    RoundTrip(w, es);
    hide Scan, Encode, Joined, EntryText;
    var items := seq(|es|, i requires 0 <= i < |es| => Whole(es[i]));
    forall i | 0 <= i < |es| ensures EntryText(i + 1, items[i]) == NumberedNames(es)[i] {
      WholeReads(es[i], i + 1);
    }
    assert Numbered(items, EntryText) == NumberedNames(es);
  }

  /** The text of entry i when n of its bytes are there: all of it, or a marked prefix. */
  ghost function CutText(w: Walker, e: Entry, index: nat, n: nat): Text
    requires w.headerSize <= n
  {
    var bytes := n - w.headerSize;
    if |e.body| <= bytes then Decimal(index) + COLON + Units(e.body)
    else (Decimal(index) + COLON + Units(e.body)[..bytes / 2]) + MARK
  }

  lemma ClipReads(w: Walker, e: Entry, index: nat, n: nat)
    requires w.headerSize <= n
    ensures EntryText(index, Clip(w, e, n)) == CutText(w, e, index, n)
  {
    var body, bytes := e.body, n - w.headerSize;
    assert body[..|body|] == body;
    if bytes < |body| {
      CutNameIsPrefix(body, |body|, bytes);
      var head, name := Decimal(index) + COLON, Units(body);
      assert head + (name[..bytes / 2] + MARK) == head + name[..bytes / 2] + MARK;
    }
  }

  /**
   * Any prefix of a directory listing: an entry is in the text if and only if its
   * header is in the prefix, in full but for the last one, whose name may be a
   * marked prefix.
   */
  lemma CutDirectory(w: Walker, es: seq<Entry>, k: nat, i: nat)
    requires Laid(w) && w.tail.WideName? && AllSound(w, es) && k <= |Encode(w, es)| && i < |es|
    ensures var items := Walk(w, Encode(w, es)[..k]).items;
            && (i < |items| <==> Offset(w, es, i) + w.headerSize <= k)
            && (i < |items| ==> EntryText(i + 1, items[i]) == CutText(w, es[i], i + 1, k - Offset(w, es, i)))
            && (i + 1 < |items| ==> EntryText(i + 1, items[i]) == NumberedNames(es)[i])
  {
    var items := Walk(w, Encode(w, es)[..k]).items;
    assert ShownRight(w, es, k, items, i) by { PrefixShowsPrefix(w, es, k); }
    hide *;
    ShownReads(w, es, k, items, i);
  }

  lemma ShownReads(w: Walker, es: seq<Entry>, k: nat, items: seq<Item>, i: nat)
    requires Laid(w) && w.tail.WideName? && i < |es| && ShownRight(w, es, k, items, i)
    ensures i < |items| <==> Offset(w, es, i) + w.headerSize <= k
    ensures i < |items| ==> EntryText(i + 1, items[i]) == CutText(w, es[i], i + 1, k - Offset(w, es, i))
    ensures i + 1 < |items| ==> EntryText(i + 1, items[i]) == NumberedNames(es)[i]
  {
    hide EntryText, CutText, Offset;
    if i < |items| {
      ClipReads(w, es[i], i + 1, k - Offset(w, es, i));
      WholeReads(es[i], i + 1);
    }
  }

  lemma WholeReads(e: Entry, index: nat)
    ensures EntryText(index, Whole(e)) == Decimal(index) + COLON + Units(e.body)
  {
    assert e.body[..|e.body|] == e.body;
  }

  ghost function TextsOf(items: seq<Item>, first: nat, text: Renderer): (r: seq<Text>)
    ensures |r| == |items|
  {
    seq(|items|, i requires 0 <= i < |items| => text(first + i, items[i]))
  }

  lemma TextsMore(item: Item, rest: seq<Item>, first: nat, text: Renderer)
    ensures TextsOf([item] + rest, first, text) == [text(first, item)] + TextsOf(rest, first + 1, text)
  {
    var both := [item] + rest;
    forall i | 1 <= i < |both| ensures TextsOf(both, first, text)[i] == TextsOf(rest, first + 1, text)[i - 1] {
      assert both[i] == rest[i - 1];
      assert first + i == first + 1 + (i - 1);
    }
  }

  /** The texts of the entries that show in the first k bytes, each as far as it is there, numbered on from first. */
  ghost function ShownTexts(w: Walker, es: seq<Entry>, k: nat, first: nat, text: Renderer): seq<Text> {
    if es == [] || k < Reach(w, es[0]) then []
    else [text(first, Clip(w, es[0], k))]
         + if k < Size(w, es[0]) then [] else ShownTexts(w, es[1..], k - Size(w, es[0]), first + 1, text)
  }

  /** How much of a chain must be there for its last entry to show. */
  ghost function LastReach(w: Walker, es: seq<Entry>): nat
    requires es != []
  {
    Offset(w, es, |es| - 1) + Reach(w, es[|es| - 1])
  }

  lemma {:induction false} VisibleReads(w: Walker, es: seq<Entry>, k: nat, first: nat, text: Renderer)
    requires es != []
    ensures TextsOf(Visible(w, es, k).items, first, text) == ShownTexts(w, es, k, first, text)
    ensures Visible(w, es, k).terminated <==> LastReach(w, es) <= k
    decreases |es|
  {
    hide Clip, TextsOf;
    var e := es[0];
    OffsetsGrow(w, es, 0, |es| - 1);
    if Reach(w, e) <= k {
      var item := Clip(w, e, k);
      if |es| > 1 && Size(w, e) <= k {
        VisibleReads(w, es[1..], k - Size(w, e), first + 1, text);
        TextsMore(item, Visible(w, es[1..], k - Size(w, e)).items, first, text);
        OffsetFirst(w, es, |es| - 1);
      } else {
        TextsMore(item, [], first, text);
        assert [item] + [] == [item];
        if |es| == 1 { assert es[1..] == []; }
      }
    }
  }

  /**
   * The text of a chain of any layout cut anywhere: the texts of the entries that
   * show, joined if the last one does, and otherwise followed by the mark; and no
   * text at all if nothing is there.
   */
  lemma CutChain(w: Walker, es: seq<Entry>, k: nat, text: Renderer, separator: Text)
    requires Laid(w) && AllSound(w, es) && es != [] && k <= |Encode(w, es)|
    ensures Rendered(Walk(w, Encode(w, es)[..k]), text, separator)
         == if k == 0 then [] else Listed(ShownTexts(w, es, k, 1, text), separator, k < LastReach(w, es))
  {
    ScanOfPrefix(w, es, k);
    VisibleReads(w, es, k, 1, text);
    hide Scan, Visible, Encode, ShownTexts, Listed;
    var items := Visible(w, es, k).items;
    assert TextsOf(items, 1, text) == Numbered(items, text);
  }

  /** The texts of a listing's entries whose header is in the first k bytes, numbered on from first. */
  ghost function CutTexts(w: Walker, es: seq<Entry>, k: nat, first: nat): seq<Text> {
    if es == [] || k < w.headerSize then []
    else [CutText(w, es[0], first, k)]
         + if k < Size(w, es[0]) then [] else CutTexts(w, es[1..], k - Size(w, es[0]), first + 1)
  }

  lemma {:induction false} ListingReads(w: Walker, es: seq<Entry>, k: nat, first: nat)
    requires w.tail.WideName?
    ensures ShownTexts(w, es, k, first, EntryText) == CutTexts(w, es, k, first)
    decreases |es|
  {
    hide EntryText, CutText, Clip;
    if es != [] && w.headerSize <= k {
      ClipReads(w, es[0], first, k);
      if Size(w, es[0]) <= k { ListingReads(w, es[1..], k - Size(w, es[0]), first + 1); }
    }
  }

  /** The text of a directory listing cut anywhere, down to the names. */
  lemma CutListing(w: Walker, es: seq<Entry>, k: nat)
    requires Laid(w) && w.tail.WideName? && AllSound(w, es) && es != [] && k <= |Encode(w, es)|
    ensures Rendered(Walk(w, Encode(w, es)[..k]), EntryText, COMMA)
         == if k == 0 then [] else Listed(CutTexts(w, es, k, 1), COMMA, k < LastReach(w, es))
  {
    CutChain(w, es, k, EntryText, COMMA);
    ListingReads(w, es, k, 1);
  }
}
