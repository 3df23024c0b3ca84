/**
 Flag rendering: a table of named masks, tried in order, each match clearing its bits. The
 compile-time check on the tables is shown to say exactly that every entry can be rendered.
 */
module Flags {
  import opened Payload

  datatype FlagName = FlagName(flag: bv32, name: Text)

  predicate Covers(flags: bv32, mask: bv32) { flags & mask == mask }

  /** The earlier mask is a proper part of the later one. */
  predicate Shadows(earlier: bv32, later: bv32) { Covers(later, earlier) && earlier != later }

  /** CompositesPrecedeComponents: no entry is a proper part of a later one. */
  ghost predicate CompositesFirst(names: seq<FlagName>) {
    forall i, j :: 0 <= i < j < |names| ==> !Shadows(names[i].flag, names[j].flag)
  }

  /** The test the check writes. */
  predicate IsPart(earlier: bv32, later: bv32) { earlier & later == earlier && earlier != later }

  lemma ShadowTest(earlier: bv32, later: bv32)
    ensures Shadows(earlier, later) <==> IsPart(earlier, later)
  {
    assert earlier & later == later & earlier;
  }

  method CompositesPrecedeComponents(names: seq<FlagName>) returns (ok: bool)
    ensures ok <==> CompositesFirst(names)
  {
    hide Shadows, IsPart;
    var i := 0;
    while i < |names|
      invariant 0 <= i <= |names|
      invariant forall a, b :: 0 <= a < i && a < b < |names| ==> !Shadows(names[a].flag, names[b].flag)
    {
      var j := i + 1;
      while j < |names|
        invariant i < j <= |names|
        invariant forall b :: i < b < j ==> !Shadows(names[i].flag, names[b].flag)
      {
        ShadowTest(names[i].flag, names[j].flag);
        if IsPart(names[i].flag, names[j].flag) {
          return false;
        }
        j := j + 1;
      }
      i := i + 1;
    }
    return true;
  }

  // ----- Rendering -----

  /** One turn of the loop on the flags. */
  function Clear(left: bv32, mask: bv32): bv32 {
    if Covers(left, mask) then left & !mask else left
  }

  /** The bits left after the first n entries have been tried. */
  function Left(flags: bv32, names: seq<FlagName>, n: nat): bv32
    requires n <= |names|
  {
    if n == 0 then flags else Clear(Left(flags, names, n - 1), names[n - 1].flag)
  }

  /** Entry i is rendered. */
  predicate Emits(flags: bv32, names: seq<FlagName>, i: nat)
    requires i < |names|
  {
    Covers(Left(flags, names, i), names[i].flag)
  }

  /** The names rendered by the first n entries, in table order. */
  function Emitted(flags: bv32, names: seq<FlagName>, n: nat): seq<Text>
    requires n <= |names|
  {
    if n == 0 then []
    else if Emits(flags, names, n - 1) then Emitted(flags, names, n - 1) + [names[n - 1].name]
    else Emitted(flags, names, n - 1)
  }

  /** Rendered words, the hexadecimal rest last. */
  function Words(flags: bv32, names: seq<FlagName>, hex: bv32 -> Text): seq<Text> {
    var rest := Left(flags, names, |names|);
    if rest != 0 then Emitted(flags, names, |names|) + [hex(rest)] else Emitted(flags, names, |names|)
  }

  /** Trimming the last separator, when there is any text, never underflows and leaves the joined words. */
  lemma TrimmedWords(words: seq<Text>, separator: Text)
    ensures var line := Followed(words, separator);
            if line == [] then Joined(words, separator) == []
            else |separator| <= |line| && line[..|line| - |separator|] == Joined(words, separator)
  {
    if words != [] {
      TrimJoins(words, separator);
    }
  }

  /** One turn of the loop. */
  lemma LoopTurn(flags: bv32, names: seq<FlagName>, i: nat, separator: Text)
    requires i < |names|
    ensures var left, text := Left(flags, names, i), Followed(Emitted(flags, names, i), separator);
            && Left(flags, names, i + 1) == Clear(left, names[i].flag)
            && Followed(Emitted(flags, names, i + 1), separator)
               == if Covers(left, names[i].flag) then text + (names[i].name + separator) else text
  {
    FollowedMore(Emitted(flags, names, i), names[i].name, separator);
    hide Followed, Covers, Clear;
  }

  lemma FollowedWords(flags: bv32, names: seq<FlagName>, hex: bv32 -> Text, separator: Text)
    ensures var rest, text := Left(flags, names, |names|), Followed(Emitted(flags, names, |names|), separator);
            Followed(Words(flags, names, hex), separator) == if rest != 0 then text + (hex(rest) + separator) else text
  {
    FollowedMore(Emitted(flags, names, |names|), hex(Left(flags, names, |names|)), separator);
  }

  lemma NothingWritten(separator: Text)
    ensures Followed([], separator) == []
  {
  }

  /** The loop over the table: text so far and bits still to render. */
  method RenderNames(flags: bv32, names: seq<FlagName>, separator: Text) returns (result: Text, left: bv32)
    ensures left == Left(flags, names, |names|)
    ensures result == Followed(Emitted(flags, names, |names|), separator)
  {
    hide Followed;
    NothingWritten(separator);
    result, left := [], flags;
    var i := 0;
    assert Left(flags, names, 0) == flags && Emitted(flags, names, 0) == [];
    hide Left, Emitted;
    while i < |names|
      invariant 0 <= i <= |names|
      invariant left == Left(flags, names, i)
      invariant result == Followed(Emitted(flags, names, i), separator)
    {
      LoopTurn(flags, names, i, separator);
      if Covers(left, names[i].flag) {
        result := result + (names[i].name + separator);
        left := left & !names[i].flag;
      }
      i := i + 1;
    }
  }

  /** RenderFlags: the text is the rendered words joined by the separator. */
  method RenderFlags(flags: bv32, names: seq<FlagName>, separator: Text, hex: bv32 -> Text) returns (result: Text)
    ensures result == Joined(Words(flags, names, hex), separator)
  {
    var left;
    result, left := RenderNames(flags, names, separator);
    if left != 0 {
      result := result + (hex(left) + separator);
    }
    FollowedWords(flags, names, hex, separator);
    TrimmedWords(Words(flags, names, hex), separator);
    if result != [] {
      result := result[..|result| - |separator|];
    }
  }

  // ----- What the table check guarantees -----

  /** Clearing never brings a bit back, and what was cleared stays cleared. */
  lemma {:induction false} LeftShrinks(flags: bv32, names: seq<FlagName>, m: nat, n: nat)
    requires m <= n <= |names|
    ensures Covers(Left(flags, names, m), Left(flags, names, n))
  {
    if m < n {
      LeftShrinks(flags, names, m, n - 1);
      Shrinks(Left(flags, names, m), Left(flags, names, n - 1), names[n - 1].flag);
    }
  }

  lemma Shrinks(outer: bv32, inner: bv32, mask: bv32)
    requires Covers(outer, inner)
    ensures Covers(outer, inner & !mask)
  {
    assert outer & (inner & !mask) == (outer & inner) & !mask;
  }

  /** Once a part of a mask is gone the mask cannot match. */
  lemma PartGone(before: bv32, after: bv32, part: bv32, mask: bv32)
    requires part != 0 && Covers(mask, part) && Covers(Clear(before, part), after)
    ensures !Covers(after, mask)
  {
  }

  /** ... nor can it when the part was missing from the start. */
  lemma PartMissing(before: bv32, after: bv32, part: bv32, mask: bv32)
    requires !Covers(before, part) && Covers(mask, part) && Covers(before, after)
    ensures !Covers(after, mask)
  {
    if Covers(after, mask) {
      CoversTransitive(after, mask, part);
      CoversTransitive(before, after, part);
    }
  }

  lemma CoversTransitive(a: bv32, b: bv32, c: bv32)
    requires Covers(a, b) && Covers(b, c)
    ensures Covers(a, c)
  {
    assert a & (b & c) == (a & b) & c;
  }

  /** An entry that contains an earlier one (or equals it) is never rendered, whatever the flags. */
  lemma ShadowedNeverRenders(flags: bv32, names: seq<FlagName>, i: nat, j: nat)
    requires i < j < |names| && names[i].flag != 0
    requires Covers(names[j].flag, names[i].flag)
    ensures !Emits(flags, names, j)
  {
    var before, after := Left(flags, names, i), Left(flags, names, j);
    assert Left(flags, names, i + 1) == Clear(before, names[i].flag);
    hide Left, Covers;
    if Emits(flags, names, i) {
      LeftShrinks(flags, names, i + 1, j);
      PartGone(before, after, names[i].flag, names[j].flag);
    } else {
      LeftShrinks(flags, names, i, j);
      PartMissing(before, after, names[i].flag, names[j].flag);
    }
  }

  ghost predicate DistinctMasks(names: seq<FlagName>) {
    forall i, j :: 0 <= i < j < |names| ==> names[i].flag != names[j].flag
  }

  ghost predicate NonZeroMasks(names: seq<FlagName>) {
    forall i :: 0 <= i < |names| ==> names[i].flag != 0
  }

  /** Rendering one table mask alone: nothing before it matches. */
  lemma {:induction false} OwnMaskUntouched(names: seq<FlagName>, i: nat, n: nat)
    requires NonZeroMasks(names) && DistinctMasks(names) && CompositesFirst(names)
    requires n <= i < |names|
    ensures Left(names[i].flag, names, n) == names[i].flag
    ensures Emitted(names[i].flag, names, n) == []
  {
    if n > 0 {
      OwnMaskUntouched(names, i, n - 1);
      assert !Covers(names[i].flag, names[n - 1].flag);
    }
  }

  lemma NothingLeft(mask: bv32)
    ensures mask & !mask == 0
  {
  }

  /** ... and nothing after it does. */
  lemma {:induction false} OwnMaskAlone(names: seq<FlagName>, i: nat, n: nat)
    requires NonZeroMasks(names) && DistinctMasks(names) && CompositesFirst(names)
    requires i < n <= |names|
    ensures Left(names[i].flag, names, n) == 0
    ensures Emitted(names[i].flag, names, n) == [names[i].name]
  {
    if n == i + 1 {
      OwnMaskUntouched(names, i, i);
      NothingLeft(names[i].flag);
      assert Covers(names[i].flag, names[i].flag);
    } else {
      OwnMaskAlone(names, i, n - 1);
      assert !Covers(0, names[n - 1].flag);
    }
  }

  /** A table that passes the check renders each of its masks as just its name, with no rest. */
  lemma OwnMaskRendersOwnName(names: seq<FlagName>, i: nat, hex: bv32 -> Text, separator: Text)
    requires NonZeroMasks(names) && DistinctMasks(names) && CompositesFirst(names) && i < |names|
    ensures Words(names[i].flag, names, hex) == [names[i].name]
    ensures Joined(Words(names[i].flag, names, hex), separator) == names[i].name
    ensures Emits(names[i].flag, names, i)
  {
    OwnMaskAlone(names, i, |names|);
    OwnMaskUntouched(names, i, i);
    assert Covers(names[i].flag, names[i].flag);
  }

  /** Some flags make the entry appear. */
  ghost predicate Renderable(names: seq<FlagName>, i: nat)
    requires i < |names|
  {
    exists flags :: Emits(flags, names, i)
  }

  /** The check is exact: with non-zero masks, every entry can be rendered by some flags if and
      only if the table passes the check and no mask occurs twice. */
  lemma CheckIsExact(names: seq<FlagName>)
    requires NonZeroMasks(names)
    ensures CompositesFirst(names) && DistinctMasks(names)
            <==> forall i :: 0 <= i < |names| ==> Renderable(names, i)
  {
    if CompositesFirst(names) && DistinctMasks(names) {
      forall i | 0 <= i < |names|
        ensures Renderable(names, i)
      {
        OwnMaskRendersOwnName(names, i, flags => [], []);
      }
    } else {
      var i, j := ShadowedPair(names);
      forall flags
        ensures !Emits(flags, names, j)
      {
        ShadowedNeverRenders(flags, names, i, j);
      }
      assert !Renderable(names, j);
    }
  }

  lemma ShadowedPair(names: seq<FlagName>) returns (i: nat, j: nat)
    requires !CompositesFirst(names) || !DistinctMasks(names)
    ensures i < j < |names| && Covers(names[j].flag, names[i].flag)
  {
    if !CompositesFirst(names) {
      i, j :| 0 <= i < j < |names| && Shadows(names[i].flag, names[j].flag);
    } else {
      i, j :| 0 <= i < j < |names| && names[i].flag == names[j].flag;
    }
  }

  function Collect(left: bv32, rendered: bv32, mask: bv32): bv32 {
    if Covers(left, mask) then rendered | mask else rendered
  }

  /** The bits the first n entries rendered. */
  function Rendered(flags: bv32, names: seq<FlagName>, n: nat): bv32
    requires n <= |names|
  {
    if n == 0 then 0 else Collect(Left(flags, names, n - 1), Rendered(flags, names, n - 1), names[n - 1].flag)
  }

  /** left and rendered share the bits of flags between them. */
  predicate Shares(flags: bv32, left: bv32, rendered: bv32) {
    left | rendered == flags && left & rendered == 0
  }

  lemma SharesStart(flags: bv32)
    ensures Shares(flags, flags, 0)
  {
  }

  lemma SharesStep(flags: bv32, left: bv32, rendered: bv32, mask: bv32)
    requires Shares(flags, left, rendered)
    ensures Shares(flags, Clear(left, mask), Collect(left, rendered, mask))
  {
  }

  /** Whatever the table, no bit is lost or rendered twice. */
  lemma {:induction false} EveryBitRenderedOnce(flags: bv32, names: seq<FlagName>, n: nat)
    requires n <= |names|
    ensures Shares(flags, Left(flags, names, n), Rendered(flags, names, n))
  {
    if n == 0 {
      SharesStart(flags);
    } else {
      EveryBitRenderedOnce(flags, names, n - 1);
      SharesStep(flags, Left(flags, names, n - 1), Rendered(flags, names, n - 1), names[n - 1].flag);
    }
  }

  // ----- Which names, said without the loop -----

  function And(a: bv32, b: bv32): bv32 { a & b }

  predicate Meet(a: bv32, b: bv32) { And(a, b) != 0 }

  function Join(a: bv32, b: bv32): bv32 { a | b }

  function Without(flags: bv32, taken: bv32): bv32 { flags & !taken }

  /** The names of the picked ones among the first n entries, in table order. */
  function NamesOf(names: seq<FlagName>, picks: set<nat>, n: nat): seq<Text>
    requires n <= |names|
  {
    if n == 0 then []
    else if n - 1 in picks then NamesOf(names, picks, n - 1) + [names[n - 1].name]
    else NamesOf(names, picks, n - 1)
  }

  /** Their bits. */
  function BitsOf(names: seq<FlagName>, picks: set<nat>, n: nat): bv32
    requires n <= |names|
  {
    if n == 0 then 0
    else if n - 1 in picks then Join(BitsOf(names, picks, n - 1), names[n - 1].flag)
    else BitsOf(names, picks, n - 1)
  }

  /** An entry is picked if and only if all its bits are set and none belongs to a pick before it. */
  ghost predicate Picked(flags: bv32, names: seq<FlagName>, picks: set<nat>, i: nat)
    requires i < |names|
  {
    i in picks <==>
      && Covers(flags, names[i].flag)
      && forall p: nat :: p < i && p in picks ==> !Meet(names[p].flag, names[i].flag)
  }

  lemma CoversRest(flags: bv32, taken: bv32, mask: bv32)
    ensures Covers(Without(flags, taken), mask) <==> Covers(flags, mask) && !Meet(taken, mask)
  {
    if Covers(flags & !taken, mask) { CoversBoth(flags, taken, mask); }
    if Covers(flags, mask) && !Meet(taken, mask) { CoversWithout(flags, taken, mask); }
  }

  lemma CoversBoth(flags: bv32, taken: bv32, mask: bv32)
    requires Covers(flags & !taken, mask)
    ensures Covers(flags, mask) && !Meet(taken, mask)
  {
    assert flags & mask == flags & ((flags & !taken) & mask);
    assert taken & mask == taken & ((flags & !taken) & mask);
  }

  lemma CoversWithout(flags: bv32, taken: bv32, mask: bv32)
    requires Covers(flags, mask) && !Meet(taken, mask)
    ensures Covers(flags & !taken, mask)
  {
    assert mask & !(taken & mask) == mask & !taken;
  }

  lemma MeetEither(a: bv32, b: bv32, mask: bv32)
    ensures Meet(Join(a, b), mask) <==> Meet(a, mask) || Meet(b, mask)
  {
    hide Join, And;
    JoinDistributes(a, b, mask);
    EitherIsSet(And(a, mask), And(b, mask));
  }

  lemma JoinDistributes(a: bv32, b: bv32, mask: bv32)
    ensures And(Join(a, b), mask) == Join(And(a, mask), And(b, mask))
  {
  }

  lemma EitherIsSet(a: bv32, b: bv32)
    ensures Join(a, b) != 0 <==> a != 0 || b != 0
  {
  }

  lemma ZeroMeetsNothing(mask: bv32)
    ensures !Meet(0, mask)
  {
  }

  lemma {:induction false} BitsMeet(names: seq<FlagName>, picks: set<nat>, n: nat, mask: bv32)
    requires n <= |names|
    ensures Meet(BitsOf(names, picks, n), mask) <==> exists p: nat :: p < n && p in picks && Meet(names[p].flag, mask)
  {
    hide Meet, Join;
    if n == 0 {
      ZeroMeetsNothing(mask);
    } else {
      BitsMeet(names, picks, n - 1, mask);
      MeetEither(BitsOf(names, picks, n - 1), names[n - 1].flag, mask);
    }
  }

  lemma ClearsMore(flags: bv32, taken: bv32, mask: bv32)
    ensures (flags & !taken) & !mask == flags & !(taken | mask)
  {
  }

  lemma ClearsJoined(flags: bv32, taken: bv32, mask: bv32)
    requires Covers(Without(flags, taken), mask)
    ensures Clear(Without(flags, taken), mask) == Without(flags, Join(taken, mask))
  {
    hide Covers;
    ClearsMore(flags, taken, mask);
  }

  lemma KeepsUncovered(left: bv32, mask: bv32)
    ensures !Covers(left, mask) ==> Clear(left, mask) == left
  {
  }

  lemma ClearsNothing(flags: bv32)
    ensures Without(flags, 0) == flags
  {
  }

  /** The entries the loop renders. */
  ghost function Picks(flags: bv32, names: seq<FlagName>): set<nat> {
    set i: nat | i < |names| && Emits(flags, names, i)
  }

  lemma {:induction false} LoopPicks(flags: bv32, names: seq<FlagName>, n: nat)
    requires n <= |names|
    ensures forall i: nat :: i < n ==> Picked(flags, names, Picks(flags, names), i)
    ensures Emitted(flags, names, n) == NamesOf(names, Picks(flags, names), n)
    ensures Left(flags, names, n) == Without(flags, BitsOf(names, Picks(flags, names), n))
  {
    hide Covers, Meet, Join, Without, Clear, Picked;
    if n == 0 {
      ClearsNothing(flags);
    } else {
      LoopPicks(flags, names, n - 1);
      LoopPicksNext(flags, names, n - 1);
    }
  }

  lemma LoopPicksNext(flags: bv32, names: seq<FlagName>, i: nat)
    requires i < |names|
    requires Left(flags, names, i) == Without(flags, BitsOf(names, Picks(flags, names), i))
    ensures Picked(flags, names, Picks(flags, names), i)
    ensures Left(flags, names, i + 1) == Without(flags, BitsOf(names, Picks(flags, names), i + 1))
  {
    hide Covers, Meet, Join, Without, Clear;
    var picks := Picks(flags, names);
    var taken := BitsOf(names, picks, i);
    assert i in picks <==> Covers(Without(flags, taken), names[i].flag);
    CoversRest(flags, taken, names[i].flag);
    BitsMeet(names, picks, i, names[i].flag);
    KeepsUncovered(Without(flags, taken), names[i].flag);
    if Emits(flags, names, i) { ClearsJoined(flags, taken, names[i].flag); }
  }

  /** There is one such choice. */
  lemma {:induction false} SamePicks(flags: bv32, names: seq<FlagName>, a: set<nat>, b: set<nat>, i: nat)
    requires i < |names|
    requires forall k: nat :: k < |names| ==> Picked(flags, names, a, k) && Picked(flags, names, b, k)
    ensures i in a <==> i in b
  {
    hide Meet, Covers;
    forall p: nat | p < i ensures p in a <==> p in b {
      SamePicks(flags, names, a, b, p);
    }
    assert Picked(flags, names, a, i) && Picked(flags, names, b, i);
  }

  /**
   * What RenderFlags shows of any flags: the names of the picked entries in table order, and in
   * hexadecimal the bits no picked entry has, if there are any.
   */
  lemma WordsArePicks(flags: bv32, names: seq<FlagName>, hex: bv32 -> Text, picks: set<nat>)
    requires forall i: nat :: i < |names| ==> Picked(flags, names, picks, i)
    ensures var rest, shown := Without(flags, BitsOf(names, picks, |names|)), NamesOf(names, picks, |names|);
            Words(flags, names, hex) == if rest == 0 then shown else shown + [hex(rest)]
  {
    LoopPicks(flags, names, |names|);
    hide Left, Without, Meet, Covers, Emitted, NamesOf, BitsOf;
    forall i: nat | i < |names| ensures i in picks <==> i in Picks(flags, names) {
      SamePicks(flags, names, picks, Picks(flags, names), i);
    }
    SameNames(names, picks, Picks(flags, names), |names|);
  }

  lemma {:induction false} SameNames(names: seq<FlagName>, a: set<nat>, b: set<nat>, n: nat)
    requires n <= |names| && forall i: nat :: i < n ==> (i in a <==> i in b)
    ensures NamesOf(names, a, n) == NamesOf(names, b, n) && BitsOf(names, a, n) == BitsOf(names, b, n)
  {
    hide Join;
    if n > 0 { SameNames(names, a, b, n - 1); }
  }
}
