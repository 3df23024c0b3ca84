/**
 * The arrays of Arrays built from their fields in the order of kernel.h, and what
 * the walkers show of them cut anywhere.
 */
module ArrayLayouts {
  import opened Common
  import opened Payload
  import opened Arrays

  lemma FieldReads(before: Bytes, n: nat, after: Bytes)
    requires n < TWO_32
    ensures U32(before + Encoded(n, 4) + after, |before|) == n
  {
    Limits();
    DecodesEncoded(n, 4);
    var field := Encoded(n, 4);
    assert (before + field + after)[|before|..|before| + 4] == field;
  }

  /** FILE_PROCESS_IDS_USING_FILE_INFORMATION before the list. */
  ghost function ProcessIds(count: nat, padding: Bytes): Bytes { Encoded(count, 4) + padding }

  /** FILE_PREFETCH, or FILE_PREFETCH_EX with its 64-bit context, before the list. */
  ghost function Prefetch(kind: nat, count: nat, context: Bytes): Bytes {
    Encoded(kind, 4) + Encoded(count, 4) + context
  }

  /** FILE_LEVEL_TRIM before the ranges. */
  ghost function Trim(key: nat, count: nat): Bytes { Encoded(key, 4) + Encoded(count, 4) }

  /** FILE_REGION_OUTPUT before the regions; others holds Flags and TotalRegionEntryCount. */
  ghost function Regions(others: Bytes, count: nat, reserved: Bytes): Bytes { others + Encoded(count, 4) + reserved }

  /** Of the first n bytes behind the header the q whole elements are listed, marked exactly if a byte is missing. */
  ghost predicate ListsWhole(a: Layout, header: Bytes, elements: seq<Bytes>, n: nat, q: nat, head: Bytes -> Text,
                             listLabel: Text, text: Renderer, separator: Text)
    requires Laid(a) && q <= |elements| && n <= |Concat(elements)|
  {
    var payload := header + Concat(elements)[..n];
    ListText(a, payload, head, listLabel, text, separator) ==
      if elements == [] then head(payload)
      else head(payload) + (listLabel + Listed(Numbered(elements[..q], text), separator, n < |Concat(elements)|))
  }

  /** Process ids, eight bytes each. */
  lemma CutProcessIds(padding: Bytes, elements: seq<Bytes>, n: nat, q: nat, head: Bytes -> Text, listLabel: Text,
                      text: Renderer, separator: Text)
    requires |padding| == 4 && |elements| < TWO_32 && Sized(elements, 8)
    requires n <= |Concat(elements)| && 8 * q <= n < 8 * q + 8
    ensures q <= |elements|
    ensures ListsWhole(PROCESS_IDS, ProcessIds(|elements|, padding), elements, n, q, head, listLabel, text, separator)
  {
    FieldReads([], |elements|, padding);
    assert [] + Encoded(|elements|, 4) + padding == ProcessIds(|elements|, padding);
    CutList(PROCESS_IDS, ProcessIds(|elements|, padding), elements, n, q, head, listLabel, text, separator);
  }

  /** A prefetch list of eight-byte file ids: behind a context of eight bytes for the types 3 and 4, and without for
      any other. */
  lemma CutPrefetch(kind: nat, context: Bytes, elements: seq<Bytes>, n: nat, q: nat, head: Bytes -> Text,
                    listLabel: Text, text: Renderer, separator: Text)
    requires kind < TWO_32 && |context| == (if kind == 3 || kind == 4 then 8 else 0)
    requires |elements| < TWO_32 && Sized(elements, 8) && n <= |Concat(elements)| && 8 * q <= n < 8 * q + 8
    ensures q <= |elements|
    ensures ListsWhole(PREFETCH, Prefetch(kind, |elements|, context), elements, n, q, head, listLabel, text, separator)
  {
    var header := Prefetch(kind, |elements|, context);
    FieldReads([], kind, Encoded(|elements|, 4) + context);
    assert [] + Encoded(kind, 4) + (Encoded(|elements|, 4) + context) == header;
    FieldReads(Encoded(kind, 4), |elements|, context);
    CutList(PREFETCH, header, elements, n, q, head, listLabel, text, separator);
  }

  /** Trim ranges of an offset and a length. */
  lemma CutTrim(key: nat, elements: seq<Bytes>, n: nat, q: nat, head: Bytes -> Text, text: Renderer, separator: Text)
    requires key < TWO_32 && |elements| < TWO_32 && Sized(elements, 16)
    requires n <= |Concat(elements)| && 16 * q <= n < 16 * q + 16
    ensures q <= |elements|
    ensures var header := Trim(key, |elements|);
            RangesText(TRIM, header + Concat(elements)[..n], head, text, separator)
            == Listed([head(header)] + Numbered(elements[..q], text), separator, n < |Concat(elements)|)
  {
    var header := Trim(key, |elements|);
    FieldReads(Encoded(key, 4), |elements|, []);
    assert header + [] == header;
    CutRanges(TRIM, header, elements, n, q, head, text, separator);
  }

  /** Regions of an offset, a length and their usage. */
  lemma CutRegions(others: Bytes, reserved: Bytes, elements: seq<Bytes>, n: nat, q: nat, head: Bytes -> Text,
                   text: Renderer, separator: Text)
    requires |others| == 8 && |reserved| == 4 && |elements| < TWO_32 && Sized(elements, 24)
    requires n <= |Concat(elements)| && 24 * q <= n < 24 * q + 24
    ensures q <= |elements|
    ensures var header := Regions(others, |elements|, reserved);
            RangesText(REGIONS, header + Concat(elements)[..n], head, text, separator)
            == Listed([head(header)] + Numbered(elements[..q], text), separator, n < |Concat(elements)|)
  {
    var header := Regions(others, |elements|, reserved);
    FieldReads(others, |elements|, reserved);
    CutRanges(REGIONS, header, elements, n, q, head, text, separator);
  }
}
