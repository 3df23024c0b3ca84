/**
 * The command line (main.cpp): ParseParameters against the grammar it accepts,
 * groups of arguments in any order and each kind at most once.
 */
module Arguments {
  import opened Common

  datatype Parameters = Parameters(file: Option<string>, volumes: seq<string>, split: bool, help: bool)

  const NO_PARAMETERS := Parameters(None, [], false, false)

  /** Lower case as far as the switch names need it: no other character lowers to one of theirs. */
  function Lower(c: char): char {
    if 'A' <= c <= 'Z' then c - 'A' + 'a' else c
  }

  predicate IsSameName(arg: string, name: string) {
    |arg| == |name| && forall i :: 0 <= i < |arg| ==> Lower(arg[i]) == Lower(name[i])
  }

  predicate IsSwitch(arg: string) { arg != [] && arg[0] == '/' }

  // ----- The grammar -----

  datatype Kind = SplitKind | HelpKind | FileKind | VolumesKind

  function Name(kind: Kind): string {
    match kind
    case SplitKind => "/s"
    case HelpKind => "/?"
    case FileKind => "/f"
    case VolumesKind => "/v"
  }

  /** A switch as it was spelled, and its operands. */
  datatype Group = Group(kind: Kind, spelling: string, operands: seq<string>)

  /** Flags stand alone, /f takes any one argument, /v one or more that are not switches. */
  predicate Sound(g: Group) {
    && IsSameName(g.spelling, Name(g.kind))
    && match g.kind
       case SplitKind => g.operands == []
       case HelpKind => g.operands == []
       case FileKind => |g.operands| == 1
       case VolumesKind => g.operands != [] && NoSwitches(g.operands)
  }

  predicate NoSwitches(operands: seq<string>) {
    forall i :: 0 <= i < |operands| ==> !IsSwitch(operands[i])
  }

  ghost predicate AllSound(gs: seq<Group>) {
    forall i :: 0 <= i < |gs| ==> Sound(gs[i])
  }

  ghost predicate Distinct(gs: seq<Group>) {
    forall i, j :: 0 <= i < j < |gs| ==> gs[i].kind != gs[j].kind
  }

  function Words(g: Group): (r: seq<string>)
    ensures r != []
  {
    [g.spelling] + g.operands
  }

  function Line(gs: seq<Group>): seq<string> {
    if gs == [] then [] else Words(gs[0]) + Line(gs[1..])
  }

  /** The parameters say what the groups say, whatever their order. */
  ghost predicate Describes(gs: seq<Group>, p: Parameters) {
    && (p.split <==> exists i :: 0 <= i < |gs| && gs[i].kind == SplitKind)
    && (p.help <==> exists i :: 0 <= i < |gs| && gs[i].kind == HelpKind)
    && (p.file.Some? <==> exists i :: 0 <= i < |gs| && gs[i].kind == FileKind)
    && (p.volumes != [] <==> exists i :: 0 <= i < |gs| && gs[i].kind == VolumesKind)
    && (forall i :: 0 <= i < |gs| && gs[i].kind == FileKind ==> [p.file] == Files(gs[i].operands))
    && (forall i :: 0 <= i < |gs| && gs[i].kind == VolumesKind ==> p.volumes == gs[i].operands)
  }

  function Files(operands: seq<string>): seq<Option<string>> {
    seq(|operands|, i requires 0 <= i < |operands| => Some(operands[i]))
  }

  // ----- The parser -----

  /** The kind of switch an argument is. */
  function KindOf(arg: string): Option<Kind> {
    if IsSameName(arg, Name(SplitKind)) then Some(SplitKind)
    else if IsSameName(arg, Name(HelpKind)) then Some(HelpKind)
    else if IsSameName(arg, Name(FileKind)) then Some(FileKind)
    else if IsSameName(arg, Name(VolumesKind)) then Some(VolumesKind)
    else None
  }

  predicate Given(p: Parameters, kind: Kind) {
    match kind
    case SplitKind => p.split
    case HelpKind => p.help
    case FileKind => p.file.Some?
    case VolumesKind => p.volumes != []
  }

  /** How many arguments from the start are not switches. */
  function Leading(args: seq<string>): (n: nat)
    ensures n <= |args|
    ensures NoSwitches(args[..n])
    ensures n < |args| ==> IsSwitch(args[n])
  {
    if args == [] || IsSwitch(args[0]) then 0
    else
      var n := Leading(args[1..]);
      assert args[..n + 1] == [args[0]] + args[1..][..n];
      n + 1
  }

  /** How many operands a switch takes from what follows it, or nothing if they are not there. */
  function Takes(kind: Kind, rest: seq<string>): (r: Option<nat>)
    ensures r.Some? ==> r.value <= |rest|
  {
    match kind
    case SplitKind => Some(0)
    case HelpKind => Some(0)
    case FileKind => if rest == [] then None else Some(1)
    case VolumesKind => if Leading(rest) == 0 then None else Some(Leading(rest))
  }

  /** The parameters after one more group. */
  function With(p: Parameters, g: Group): Parameters
    requires Sound(g)
  {
    match g.kind
    case SplitKind => p.(split := true)
    case HelpKind => p.(help := true)
    case FileKind => p.(file := Some(g.operands[0]))
    case VolumesKind => p.(volumes := g.operands)
  }

  /** The group at the start of the arguments. */
  function First(args: seq<string>): (r: Option<Group>)
    ensures r.Some? ==> Sound(r.value) && Words(r.value) <= args
  {
    if args == [] || KindOf(args[0]).None? then None
    else
      var kind, rest := KindOf(args[0]).value, args[1..];
      if Takes(kind, rest).None? then None
      else
        var n := Takes(kind, rest).value;
        assert args[..n + 1] == [args[0]] + rest[..n];
        Some(Group(kind, args[0], rest[..n]))
  }

  function Parse(args: seq<string>, p: Parameters): Option<Parameters>
    decreases |args|
  {
    if args == [] then Some(p)
    else
      var g := First(args);
      if g.None? || Given(p, g.value.kind) then None
      else Parse(args[|Words(g.value)|..], With(p, g.value))
  }

  lemma {:induction false} LeadingIs(args: seq<string>, n: nat)
    requires n <= |args| && NoSwitches(args[..n]) && (n < |args| ==> IsSwitch(args[n]))
    ensures Leading(args) == n
  {
    if 0 < n {
      assert args[..n][0] == args[0] && args[1..][..n - 1] == args[..n][1..];
      LeadingIs(args[1..], n - 1);
    }
  }

  /** The group a switch starts at position i, with n operands. */
  function At(args: seq<string>, i: nat, kind: Kind, n: nat): Group
    requires i + 1 + n <= |args|
  {
    Group(kind, args[i], args[i + 1..i + 1 + n])
  }

  /** How many operands the switch at position i takes, if there is a switch and its operands. */
  function Operands(args: seq<string>, i: nat): (r: Option<nat>)
    requires i < |args|
    ensures r.Some? ==> KindOf(args[i]).Some? && i + 1 + r.value <= |args|
  {
    if KindOf(args[i]).None? then None else Takes(KindOf(args[i]).value, args[i + 1..])
  }

  lemma FirstAt(args: seq<string>, i: nat)
    requires i < |args|
    ensures First(args[i..])
         == if Operands(args, i).None? then None else Some(At(args, i, KindOf(args[i]).value, Operands(args, i).value))
  {
    hide KindOf, Takes;
    var here := args[i..];
    assert here[0] == args[i] && here[1..] == args[i + 1..];
    if Operands(args, i).Some? {
      var n := Operands(args, i).value;
      assert args[i + 1..][..n] == args[i + 1..i + 1 + n];
    }
  }

  /** One turn of the loop, by what stands at position i. */
  lemma ParseAt(args: seq<string>, i: nat, p: Parameters)
    requires i < |args|
    ensures var n := Operands(args, i);
            if n.None? || Given(p, KindOf(args[i]).value) then Parse(args[i..], p) == None
            else
              var g := At(args, i, KindOf(args[i]).value, n.value);
              Sound(g) && Parse(args[i..], p) == Parse(args[i + 1 + n.value..], With(p, g))
  {
    FirstAt(args, i);
    hide First, KindOf, Takes, Sound;
    if Operands(args, i).Some? {
      assert args[i..][1 + Operands(args, i).value..] == args[i + 1 + Operands(args, i).value..];
    }
  }

  lemma SameNameOfTwo(arg: string, name: string)
    requires |name| == 2
    ensures IsSameName(arg, name) <==> |arg| == 2 && Lower(arg[0]) == Lower(name[0]) && Lower(arg[1]) == Lower(name[1])
  {
  }

  lemma NamesDiffer(arg: string)
    ensures IsSameName(arg, "/s") ==> KindOf(arg) == Some(SplitKind)
    ensures IsSameName(arg, "/?") ==> KindOf(arg) == Some(HelpKind)
    ensures IsSameName(arg, "/f") ==> KindOf(arg) == Some(FileKind)
    ensures IsSameName(arg, "/v") ==> KindOf(arg) == Some(VolumesKind)
    ensures KindOf(arg).Some? ==> IsSwitch(arg) && IsSameName(arg, Name(KindOf(arg).value))
  {
    SameNameOfTwo(arg, "/s");
    SameNameOfTwo(arg, "/?");
    SameNameOfTwo(arg, "/f");
    SameNameOfTwo(arg, "/v");
    hide IsSameName;
  }

  /** The eight spellings of the switches, and no others; whatever starts with a slash ends a list of volumes. */
  lemma SwitchesAre(arg: string)
    ensures KindOf(arg) == Some(SplitKind) <==> arg == "/s" || arg == "/S"
    ensures KindOf(arg) == Some(HelpKind) <==> arg == "/?"
    ensures KindOf(arg) == Some(FileKind) <==> arg == "/f" || arg == "/F"
    ensures KindOf(arg) == Some(VolumesKind) <==> arg == "/v" || arg == "/V"
    ensures IsSwitch(arg) <==> "/" <= arg
  {
    NamesDiffer(arg);
    SameNameOfTwo(arg, "/s");
    SameNameOfTwo(arg, "/?");
    SameNameOfTwo(arg, "/f");
    SameNameOfTwo(arg, "/v");
    if |arg| == 2 { assert arg == [arg[0], arg[1]]; }
    LettersLower();
    hide KindOf, Lower, IsSameName;
  }

  lemma LettersLower()
    ensures forall c: char :: Lower(c) == '/' <==> c == '/'
    ensures forall c: char :: Lower(c) == '?' <==> c == '?'
    ensures forall c: char :: Lower(c) == 's' <==> c == 's' || c == 'S'
    ensures forall c: char :: Lower(c) == 'f' <==> c == 'f' || c == 'F'
    ensures forall c: char :: Lower(c) == 'v' <==> c == 'v' || c == 'V'
  {
  }

  lemma FlagAt(args: seq<string>, i: nat, p: Parameters)
    requires i < |args|
    ensures IsSameName(args[i], "/s") ==>
              Parse(args[i..], p) == if p.split then None else Parse(args[i + 1..], p.(split := true))
    ensures IsSameName(args[i], "/?") ==>
              Parse(args[i..], p) == if p.help then None else Parse(args[i + 1..], p.(help := true))
  {
    NamesDiffer(args[i]);
    hide KindOf, IsSameName, Leading;
    ParseAt(args, i, p);
  }

  lemma FileAt(args: seq<string>, i: nat, p: Parameters)
    requires i < |args| && IsSameName(args[i], "/f")
    ensures p.file.Some? || i + 1 == |args| ==> Parse(args[i..], p) == None
    ensures p.file.None? && i + 1 < |args| ==>
              Parse(args[i..], p) == Parse(args[i + 2..], p.(file := Some(args[i + 1])))
  {
    NamesDiffer(args[i]);
    hide KindOf, IsSameName, Leading;
    ParseAt(args, i, p);
  }

  lemma VolumesAt(args: seq<string>, i: nat, p: Parameters, end: nat)
    requires i < end <= |args| && IsSameName(args[i], "/v")
    requires NoSwitches(args[i + 1..end]) && (end < |args| ==> IsSwitch(args[end]))
    ensures p.volumes != [] || end == i + 1 ==> Parse(args[i..], p) == None
    ensures p.volumes == [] && i + 1 < end ==>
              Parse(args[i..], p) == Parse(args[end..], p.(volumes := args[i + 1..end]))
  {
    NamesDiffer(args[i]);
    LeadingAt(args, i + 1, end);
    hide KindOf, IsSameName, Leading, NoSwitches, IsSwitch, Parse;
    assert Operands(args, i) == if end == i + 1 then None else Some(end - i - 1);
    ParseAt(args, i, p);
  }

  lemma LeadingAt(args: seq<string>, from: nat, to: nat)
    requires from <= to <= |args| && NoSwitches(args[from..to]) && (to < |args| ==> IsSwitch(args[to]))
    ensures Leading(args[from..]) == to - from
  {
    assert args[from..][..to - from] == args[from..to];
    LeadingIs(args[from..], to - from);
  }

  lemma UnknownAt(args: seq<string>, i: nat, p: Parameters)
    requires i < |args|
    requires !IsSameName(args[i], "/s") && !IsSameName(args[i], "/?")
    requires !IsSameName(args[i], "/f") && !IsSameName(args[i], "/v")
    ensures Parse(args[i..], p) == None
  {
    NamesDiffer(args[i]);
    ParseAt(args, i, p);
  }

  /** The names an option list has taken so far. */
  ghost predicate Names(args: seq<string>, from: nat, to: nat, names: seq<string>) {
    from <= to <= |args| && names == args[from..to] && NoSwitches(names)
  }

  lemma NamesMore(args: seq<string>, from: nat, to: nat, names: seq<string>)
    requires Names(args, from, to, names) && to < |args| && !IsSwitch(args[to])
    ensures Names(args, from, to + 1, names + [args[to]])
  {
  }

  lemma VolumesRepeated(args: seq<string>, i: nat, p: Parameters)
    requires i < |args| && IsSameName(args[i], "/v") && p.volumes != []
    ensures Parse(args[i..], p) == None
  {
    NamesDiffer(args[i]);
    hide KindOf, IsSameName, Leading;
    ParseAt(args, i, p);
  }

  /** ParseParameters. A repeated switch and a missing operand fail the same way. */
  method ParseParameters(args: seq<string>) returns (parameters: Option<Parameters>)
    ensures parameters == Parse(args, NO_PARAMETERS)
  {
    hide Parse, IsSameName, IsSwitch, NoSwitches;
    var p := NO_PARAMETERS;
    var i := 0;
    assert args[0..] == args;
    while i < |args|
      invariant 0 <= i <= |args|
      invariant Parse(args, NO_PARAMETERS) == Parse(args[i..], p)
    {
      var arg := args[i];
      if IsSameName(arg, "/s") {
        FlagAt(args, i, p);
        if p.split { return None; }
        p := p.(split := true);
      } else if IsSameName(arg, "/?") {
        FlagAt(args, i, p);
        if p.help { return None; }
        p := p.(help := true);
      } else if IsSameName(arg, "/f") {
        FileAt(args, i, p);
        if p.file.Some? { return None; }
        if i + 1 >= |args| { return None; }
        i := i + 1;
        p := p.(file := Some(args[i]));
      } else if IsSameName(arg, "/v") {
        if p.volumes != [] {
          VolumesRepeated(args, i, p);
          return None;
        }
        ghost var start, given := i + 1, p;
        assert Names(args, start, start, []) by { NothingNamed(args, start); }
        while i + 1 < |args| && !IsSwitch(args[i + 1])
          invariant Names(args, start, i + 1, p.volumes)
          invariant p == given.(volumes := p.volumes)
        {
          NamesMore(args, start, i + 1, p.volumes);
          i := i + 1;
          p := p.(volumes := p.volumes + [args[i]]);
        }
        VolumesAt(args, start - 1, given, i + 1);
        if p.volumes == [] { return None; }
      } else {
        UnknownAt(args, i, p);
        return None;
      }
      i := i + 1;
    }
    assert args[i..] == [];
    ParseNothing(p);
    return Some(p);
  }

  lemma NothingNamed(args: seq<string>, start: nat)
    requires start <= |args|
    ensures Names(args, start, start, [])
  {
  }

  lemma ParseNothing(p: Parameters)
    ensures Parse([], p) == Some(p)
  {
  }

  // ----- The parser accepts the grammar and nothing else -----

  /** No group of a kind that is given already, nor two of one kind. */
  ghost predicate Fresh(gs: seq<Group>, p: Parameters) {
    AllSound(gs) && Distinct(gs) && forall i :: 0 <= i < |gs| ==> !Given(p, gs[i].kind)
  }

  function Meaning(gs: seq<Group>, p: Parameters): Parameters
    requires forall i :: 0 <= i < |gs| ==> Sound(gs[i])
  {
    if gs == [] then p else Meaning(gs[1..], With(p, gs[0]))
  }

  lemma WithGives(p: Parameters, g: Group, kind: Kind)
    requires Sound(g)
    ensures Given(With(p, g), kind) <==> Given(p, kind) || kind == g.kind
  {
  }

  lemma FreshRest(gs: seq<Group>, p: Parameters)
    requires gs != []
    ensures Fresh(gs, p) <==>
              Sound(gs[0]) && !Given(p, gs[0].kind) && Fresh(gs[1..], With(p, gs[0]))
  {
    hide Sound, Given, With;
    var g, rest := gs[0], gs[1..];
    if Fresh(gs, p) {
      forall i | 0 <= i < |rest| ensures Sound(rest[i]) && !Given(With(p, g), rest[i].kind) {
        assert rest[i] == gs[i + 1];
        WithGives(p, g, rest[i].kind);
      }
    }
    if Sound(g) && !Given(p, g.kind) && Fresh(rest, With(p, g)) {
      forall i | 0 <= i < |gs| ensures Sound(gs[i]) && !Given(p, gs[i].kind) && (0 < i ==> gs[i].kind != g.kind) {
        if 0 < i {
          assert gs[i] == rest[i - 1];
          WithGives(p, g, gs[i].kind);
        }
      }
      forall i, j | 0 <= i < j < |gs| ensures gs[i].kind != gs[j].kind {
        if 0 < i { assert gs[i] == rest[i - 1] && gs[j] == rest[j - 1]; }
      }
    }
  }

  /** A group is read back when what follows it is nothing or starts with a switch. */
  lemma FirstReads(g: Group, rest: seq<string>)
    requires Sound(g) && (rest != [] ==> IsSwitch(rest[0]))
    ensures First(Words(g) + rest) == Some(g)
  {
    var args := Words(g) + rest;
    assert args[0] == g.spelling && args[1..] == g.operands + rest;
    NamesDiffer(g.spelling);
    hide KindOf;
    if g.kind == VolumesKind {
      assert (g.operands + rest)[..|g.operands|] == g.operands;
      LeadingIs(g.operands + rest, |g.operands|);
    }
    assert (g.operands + rest)[..|g.operands|] == g.operands;
  }

  lemma {:induction false} LineStartsWithSwitch(gs: seq<Group>)
    requires AllSound(gs)
    ensures Line(gs) != [] ==> IsSwitch(Line(gs)[0])
  {
    if gs != [] { NamesDiffer(gs[0].spelling); }
  }

  /** A line of distinct groups parses to what they mean, whatever their order. */
  lemma {:induction false} AcceptsGroups(gs: seq<Group>, p: Parameters)
    requires Fresh(gs, p)
    ensures Parse(Line(gs), p) == Some(Meaning(gs, p))
    decreases |gs|
  {
    if gs != [] {
      var g, rest := gs[0], Line(gs[1..]);
      FreshRest(gs, p);
      LineStartsWithSwitch(gs[1..]);
      FirstReads(g, rest);
      AcceptsGroups(gs[1..], With(p, g));
      hide First, Sound, Given, With, Fresh;
      assert (Words(g) + rest)[|Words(g)|..] == rest;
    }
  }

  /** Whatever parses is such a line. */
  lemma {:induction false} ParsedIsGroups(args: seq<string>, p: Parameters) returns (gs: seq<Group>)
    requires Parse(args, p).Some?
    ensures Fresh(gs, p) && Line(gs) == args && Meaning(gs, p) == Parse(args, p).value
    decreases |args|
  {
    if args == [] {
      gs := [];
    } else {
      var g := First(args).value;
      var rest := args[|Words(g)|..];
      var more := ParsedIsGroups(rest, With(p, g));
      gs := [g] + more;
      assert gs[1..] == more;
      FreshRest(gs, p);
      assert args == Words(g) + rest;
    }
  }

  /** Two ways to split a line into groups are the same way. */
  lemma {:induction false} SplitsOneWay(gs: seq<Group>, hs: seq<Group>)
    requires AllSound(gs) && AllSound(hs) && Line(gs) == Line(hs)
    ensures gs == hs
    decreases |gs|
  {
    if gs == [] || hs == [] {
      assert |gs| > 0 ==> |Line(gs)| > 0;
      assert |hs| > 0 ==> |Line(hs)| > 0;
    } else {
      LineStartsWithSwitch(gs[1..]);
      LineStartsWithSwitch(hs[1..]);
      FirstReads(gs[0], Line(gs[1..]));
      FirstReads(hs[0], Line(hs[1..]));
      hide First, Sound;
      var n := |Words(gs[0])|;
      assert Line(gs)[n..] == Line(gs[1..]) && Line(hs)[n..] == Line(hs[1..]);
      SplitsOneWay(gs[1..], hs[1..]);
      assert gs == [gs[0]] + gs[1..] && hs == [hs[0]] + hs[1..];
    }
  }

  ghost predicate Says(g: Group, q: Parameters) {
    && (g.kind == FileKind ==> [q.file] == Files(g.operands))
    && (g.kind == VolumesKind ==> q.volumes == g.operands)
  }

  lemma WithKeeps(p: Parameters, g: Group)
    requires Sound(g)
    ensures Says(g, With(p, g))
    ensures g.kind != FileKind ==> With(p, g).file == p.file
    ensures g.kind != VolumesKind ==> With(p, g).volumes == p.volumes
  {
  }

  lemma {:induction false} MeaningKeeps(gs: seq<Group>, p: Parameters)
    requires Fresh(gs, p)
    ensures p.file.Some? ==> Meaning(gs, p).file == p.file
    ensures p.volumes != [] ==> Meaning(gs, p).volumes == p.volumes
    ensures forall kind :: Given(Meaning(gs, p), kind)
                           <==> Given(p, kind) || exists i :: 0 <= i < |gs| && gs[i].kind == kind
    decreases |gs|
  {
    if gs != [] {
      var g := gs[0];
      FreshRest(gs, p);
      MeaningKeeps(gs[1..], With(p, g));
      WithKeeps(p, g);
      forall kind
        ensures Given(Meaning(gs, p), kind) <==> Given(p, kind) || exists i :: 0 <= i < |gs| && gs[i].kind == kind
      {
        WithGives(p, g, kind);
        if i :| 0 <= i < |gs[1..]| && gs[1..][i].kind == kind { assert gs[i + 1].kind == kind; }
        if i :| 0 <= i < |gs| && gs[i].kind == kind {
          if 0 < i { assert gs[1..][i - 1].kind == kind; }
        }
      }
    }
  }

  lemma {:induction false} MeaningSays(gs: seq<Group>, p: Parameters, i: nat)
    requires Fresh(gs, p) && i < |gs|
    ensures Says(gs[i], Meaning(gs, p))
    decreases |gs|
  {
    var g := gs[0];
    FreshRest(gs, p);
    WithKeeps(p, g);
    if i == 0 {
      MeaningKeeps(gs[1..], With(p, g));
    } else {
      assert gs[i] == gs[1..][i - 1];
      MeaningSays(gs[1..], With(p, g), i - 1);
    }
  }

  lemma MeaningDescribes(gs: seq<Group>)
    requires AllSound(gs) && Distinct(gs)
    ensures Fresh(gs, NO_PARAMETERS) && Describes(gs, Meaning(gs, NO_PARAMETERS))
  {
    assert Fresh(gs, NO_PARAMETERS);
    var q := Meaning(gs, NO_PARAMETERS);
    MeaningKeeps(gs, NO_PARAMETERS);
    forall i | 0 <= i < |gs| ensures Says(gs[i], q) { MeaningSays(gs, NO_PARAMETERS, i); }
    SaidIsDescribed(gs, q);
  }

  lemma SaidIsDescribed(gs: seq<Group>, q: Parameters)
    requires forall kind :: Given(q, kind) <==> exists i :: 0 <= i < |gs| && gs[i].kind == kind
    requires forall i | 0 <= i < |gs| :: Says(gs[i], q)
    ensures Describes(gs, q)
  {
    assert Given(q, SplitKind) <==> exists i :: 0 <= i < |gs| && gs[i].kind == SplitKind;
    assert Given(q, HelpKind) <==> exists i :: 0 <= i < |gs| && gs[i].kind == HelpKind;
    assert Given(q, FileKind) <==> exists i :: 0 <= i < |gs| && gs[i].kind == FileKind;
    assert Given(q, VolumesKind) <==> exists i :: 0 <= i < |gs| && gs[i].kind == VolumesKind;
  }

  /** Distinct groups describe one parameters value. */
  lemma DescribesOne(gs: seq<Group>, p: Parameters, q: Parameters)
    requires AllSound(gs) && Describes(gs, p) && Describes(gs, q)
    ensures p == q
  {
    if p.file.Some? {
      var i :| 0 <= i < |gs| && gs[i].kind == FileKind;
      assert [p.file] == Files(gs[i].operands) == [q.file];
      assert [p.file][0] == [q.file][0];
    }
    if p.volumes != [] {
      var i :| 0 <= i < |gs| && gs[i].kind == VolumesKind;
      assert p.volumes == gs[i].operands == q.volumes;
    }
  }

  /** The arguments are these groups one after another, each kind once, and they describe p. */
  ghost predicate Spells(gs: seq<Group>, args: seq<string>, p: Parameters) {
    AllSound(gs) && Distinct(gs) && Line(gs) == args && Describes(gs, p)
  }

  /**
   * The parser returns p if and only if the arguments spell p: a concatenation,
   * in any order, of groups of different kinds that describe p.
   */
  lemma ParserMatchesGrammar(args: seq<string>, p: Parameters)
    ensures Parse(args, NO_PARAMETERS) == Some(p) <==> exists gs :: Spells(gs, args, p)
  {
    if Parse(args, NO_PARAMETERS) == Some(p) {
      var gs := ParsedIsGroups(args, NO_PARAMETERS);
      MeaningDescribes(gs);
      assert Spells(gs, args, p);
    }
    if gs :| Spells(gs, args, p) {
      MeaningDescribes(gs);
      AcceptsGroups(gs, NO_PARAMETERS);
      DescribesOne(gs, p, Meaning(gs, NO_PARAMETERS));
    }
  }

  /** No argument list spells two values, or one value in two ways. */
  lemma SpellingIsUnique(gs: seq<Group>, hs: seq<Group>, args: seq<string>, p: Parameters, q: Parameters)
    requires Spells(gs, args, p) && Spells(hs, args, q)
    ensures gs == hs && p == q
  {
    SplitsOneWay(gs, hs);
    DescribesOne(gs, p, q);
  }
}
