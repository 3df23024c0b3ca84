/**
 * The output files (sink.cpp): one file, or one file per altitude next to it. A
 * file is opened by its first line and starts with the header.
 */
module Sink {
  import opened Common
  import opened Payload
  import opened Csv

  const DOT: Unit := 0x2E

  /** What the file system does with one Write: whether an open succeeds and how much the stream takes. */
  datatype World = World(opens: bool, takes: nat)

  /** A rendered line; it holds its newline at least. */
  type Newlined = line: Text | line != [] witness [LINE_FEED]

  /** A rendered record: its altitude string and its line. */
  datatype Entry = Entry(altitude: Text, line: Newlined)

  type Content = map<Text, Text>

  /** The base path is stem and extension, as the path library splits it. */
  datatype Target = Target(stem: Text, extension: Text, split: bool, header: Newlined)

  function BasePath(t: Target): Text { t.stem + t.extension }

  function SplitPath(t: Target, altitude: Text): Text {
    t.stem + [DOT] + altitude + t.extension
  }

  function Route(t: Target, altitude: Text): Text {
    if t.split && altitude != [] then SplitPath(t, altitude) else BasePath(t)
  }

  /** Split files stand next to the base file: its path with a dot and the altitude before the extension. A line
      without an altitude, and every line of a run that does not split, goes to the base file. */
  lemma RouteHasParts(t: Target, altitude: Text)
    ensures !t.split || altitude == [] ==> Route(t, altitude) == t.stem + t.extension
    ensures t.split && altitude != [] ==>
              var path, dot := Route(t, altitude), |t.stem|;
              && |path| == dot + 1 + |altitude| + |t.extension|
              && path[..dot] == t.stem && path[dot] == 0x2E
              && path[dot + 1..dot + 1 + |altitude|] == altitude
              && path[dot + 1 + |altitude|..] == t.extension
  {
  }

  /** What a file holds, which for a file not opened yet is the header it would start with. */
  function Held(t: Target, files: Content, path: Text): Text
  {
    if path in files then files[path] else Crlf(t.header)
  }

  /** The files after a line was written. */
  function AfterWrite(t: Target, files: Content, e: Entry): Content
  {
    var path := Route(t, e.altitude);
    files[path := Held(t, files, path) + Crlf(e.line)]
  }

  function AfterAll(t: Target, files: Content, es: seq<Entry>): Content
  {
    if es == [] then files else AfterWrite(t, AfterAll(t, files, es[..|es| - 1]), es[|es| - 1])
  }

  /** A write succeeds exactly then: the stream is sound and takes the line, behind the header if it is opened now. */
  predicate Succeeds(t: Target, files: Content, broken: set<Text>, e: Entry, world: World) {
    var path := Route(t, e.altitude);
    && path !in broken
    && (path in files || (world.opens && |Crlf(t.header)| <= world.takes))
    && |Crlf(e.line)| <= world.takes
  }

  /** What a write that fails leaves: no other file has changed, and its own has at most grown by a part of the line. */
  ghost predicate CutShort(t: Target, was: Content, files: Content, e: Entry) {
    var path := Route(t, e.altitude);
    && (forall p :: p in was ==> p in files)
    && (forall p :: p in files ==> p in was || p == path)
    && (forall p :: p in was && p != path ==> files[p] == was[p])
    && (path in was ==> was[path] <= files[path])
    && (path in files ==> files[path] <= Held(t, was, path) + Crlf(e.line))
  }

  /** The i-th write of a run succeeds, those before it having succeeded. */
  ghost predicate SucceedsAt(t: Target, files: Content, broken: set<Text>, es: seq<Entry>, world: nat -> World, i: nat)
    requires i < |es|
  {
    Succeeds(t, AfterAll(t, files, es[..i]), broken, es[i], world(i))
  }

  /** The streams that are broken after Open, by what the base file holds. */
  function Unsound(t: Target, base: Text): set<Text> {
    if base == Crlf(t.header) then {} else {BasePath(t)}
  }

  class Writer {
    const target: Target
    var files: Content
    var broken: set<Text>     // streams with the failure bit set

    ghost predicate Valid()
      reads this
    {
      broken <= files.Keys
    }

    constructor (t: Target)
      ensures Valid() && target == t && files == map[] && broken == {}
    {
      target, files, broken := t, map[], {};
    }

    /** A stream that failed takes nothing more. */
    method WriteCrlfLine(path: Text, line: Newlined, takes: nat)
      requires Valid() && path in files
      modifies this
      ensures Valid() && files.Keys == old(files.Keys)
      ensures forall p :: p in files && p != path ==> files[p] == old(files)[p]
      ensures broken == if takes < |Crlf(line)| then old(broken) + {path} else old(broken)
      ensures path in old(broken) ==> files == old(files)
      ensures old(files)[path] <= files[path] <= old(files)[path] + Crlf(line)
      ensures path !in old(broken) ==> (path !in broken <==> files[path] == old(files)[path] + Crlf(line))
    {
      if path in broken { return; }
      var bytes := Crlf(line);
      if takes < |bytes| {
        files := files[path := files[path] + bytes[..takes]];
        broken := broken + {path};
      } else {
        files := files[path := files[path] + bytes];
      }
    }

    /** A failed open leaves no trace; an opened file starts with the header. */
    method OpenFile(path: Text, world: World) returns (found: bool)
      requires Valid()
      modifies this
      ensures Valid()
      ensures found <==> path in old(files) || world.opens
      ensures !found || path in old(files) ==> files == old(files) && broken == old(broken)
      ensures found && path !in old(files) ==>
                && files.Keys == old(files.Keys) + {path}
                && (forall p :: p in old(files) ==> files[p] == old(files)[p])
                && files[path] <= Crlf(target.header)
                && broken == (if world.takes < |Crlf(target.header)| then old(broken) + {path} else old(broken))
                && (path !in broken <==> files[path] == Crlf(target.header))
    {
      if path in files { return true; }
      files := files[path := []];
      if !world.opens {
        files := files - {path};
        assert files == old(files);
        return false;
      }
      WriteCrlfLine(path, target.header, world.takes);
      assert [] + Crlf(target.header) == Crlf(target.header);
      return true;
    }

    /** Open succeeds with the open alone; the base file then holds what its stream took of the header. */
    method Open(world: World) returns (ok: bool)
      requires Valid() && files == map[] && broken == {}
      modifies this
      ensures Valid() && (ok <==> world.opens)
      ensures !ok ==> files == map[] && broken == {}
      ensures ok ==> files.Keys == {BasePath(target)} && files[BasePath(target)] <= Crlf(target.header)
      ensures ok ==> broken == Unsound(target, files[BasePath(target)])
      ensures ok ==> (broken == {} <==> |Crlf(target.header)| <= world.takes)
    {
      ok := OpenFile(BasePath(target), world);
    }

    /** A line that was written is in the file of its altitude and nothing else has changed. */
    method Write(altitude: Text, line: Newlined, world: World) returns (ok: bool)
      requires Valid()
      modifies this
      ensures Valid()
      ensures ok <==> Succeeds(target, old(files), old(broken), Entry(altitude, line), world)
      ensures ok ==> files == AfterWrite(target, old(files), Entry(altitude, line)) && broken == old(broken)
      ensures !ok ==> CutShort(target, old(files), files, Entry(altitude, line))
      ensures !ok ==> broken == old(broken) + {Route(target, altitude)} * files.Keys
    {
      var path := if target.split && altitude != [] then SplitPath(target, altitude) else BasePath(target);
      var found := OpenFile(path, world);
      if !found { return false; }
      WriteCrlfLine(path, line, world.takes);
      ok := path !in broken;
    }

    /** Flush: a stream whose flush fails takes nothing more, and nobody asks. */
    method Flush(fails: set<Text>)
      requires Valid()
      modifies this`broken
      ensures Valid() && broken == old(broken) + fails * files.Keys
    {
      broken := broken + fails * files.Keys;
    }

    /**
     * WriteRecords over a run: every line goes to its file up to the first write
     * that fails, which leaves all of them there. Only a run without one is
     * flushed, and its outcome does not depend on that.
     */
    method WriteRecords(es: seq<Entry>, world: nat -> World, fails: set<Text>) returns (count: nat)
      requires Valid()
      modifies this
      ensures Valid() && count <= |es|
      ensures forall i: nat :: i < count ==> SucceedsAt(target, old(files), old(broken), es, world, i)
      ensures count < |es| ==>
                && !SucceedsAt(target, old(files), old(broken), es, world, count)
                && CutShort(target, AfterAll(target, old(files), es[..count]), files, es[count])
      ensures count == |es| ==>
                files == AfterAll(target, old(files), es) && broken == old(broken) + fails * files.Keys
    {
      count := 0;
      while count < |es|
        invariant Valid() && count <= |es| && broken == old(broken)
        invariant files == AfterAll(target, old(files), es[..count])
        invariant forall i: nat :: i < count ==> SucceedsAt(target, old(files), old(broken), es, world, i)
      {
        var ok := Write(es[count].altitude, es[count].line, world(count));
        if !ok { return; }
        assert es[..count + 1][..count] == es[..count];
        count := count + 1;
      }
      assert es[..|es|] == es;
      Flush(fails);
    }
  }

  // ----- The partition -----

  /** Two altitudes share a path only if they are the same, and none has the base path. */
  lemma PathsAreDistinct(t: Target, a: Text, b: Text)
    ensures SplitPath(t, a) == SplitPath(t, b) <==> a == b
    ensures SplitPath(t, a) != BasePath(t)
  {
    assert |SplitPath(t, a)| == |t.stem| + 1 + |a| + |t.extension|;
    assert SplitPath(t, a)[|t.stem| + 1..|t.stem| + 1 + |a|] == a;
    assert |SplitPath(t, b)| == |t.stem| + 1 + |b| + |t.extension|;
    assert SplitPath(t, b)[|t.stem| + 1..|t.stem| + 1 + |b|] == b;
  }

  lemma RoutesAreDistinct(t: Target, a: Text, b: Text)
    requires t.split
    ensures Route(t, a) == Route(t, b) <==> a == b
  {
    PathsAreDistinct(t, a, b);
    PathsAreDistinct(t, b, a);
  }

  /** The lines with one altitude string, in order. */
  function LinesWith(es: seq<Entry>, altitude: Text): seq<Newlined> {
    if es == [] then []
    else
      var last := es[|es| - 1];
      LinesWith(es[..|es| - 1], altitude) + if last.altitude == altitude then [last.line] else []
  }

  function AllLines(es: seq<Entry>): seq<Newlined> {
    if es == [] then [] else AllLines(es[..|es| - 1]) + [es[|es| - 1].line]
  }

  /** Lines as they stand in a file. */
  function Stored(lines: seq<Newlined>): Text {
    if lines == [] then [] else Stored(lines[..|lines| - 1]) + Crlf(lines[|lines| - 1])
  }

  /** The files after Open: the base file, with what its stream took of the header. */
  ghost predicate Started(t: Target, base: Text, files: Content) {
    files == map[BasePath(t) := base]
  }

  /** How a file begins: any but the base file with the whole header. */
  function Beginning(t: Target, base: Text, path: Text): Text {
    if path == BasePath(t) then base else Crlf(t.header)
  }

  /** A file's content: its beginning once, then these lines. */
  ghost predicate Holds(t: Target, base: Text, files: Content, path: Text, lines: seq<Newlined>) {
    if path in files then files[path] == Beginning(t, base, path) + Stored(lines)
    else lines == [] && path != BasePath(t)
  }

  lemma HoldsMore(t: Target, base: Text, files: Content, path: Text, lines: seq<Newlined>, e: Entry)
    requires Holds(t, base, files, path, lines)
    ensures Holds(t, base, AfterWrite(t, files, e), path,
                  if Route(t, e.altitude) == path then lines + [e.line] else lines)
  {
    if Route(t, e.altitude) == path {
      assert (lines + [e.line])[..|lines|] == lines;
      var start := Beginning(t, base, path);
      assert start + Stored(lines) + Crlf(e.line) == start + (Stored(lines) + Crlf(e.line));
      if path !in files { assert start + Stored([]) == start; }
    }
  }

  lemma HoldsNothing(t: Target, base: Text, path: Text)
    ensures Holds(t, base, map[BasePath(t) := base], path, [])
  {
    assert base + [] == base;
  }

  /**
   * Split output: the file of each altitude holds the header once and then the
   * lines with that altitude in order; lines without one are in the base file.
   */
  lemma {:induction false} SplitIsPartition(t: Target, base: Text, files: Content, es: seq<Entry>, altitude: Text)
    requires t.split && Started(t, base, files)
    ensures Holds(t, base, AfterAll(t, files, es), Route(t, altitude), LinesWith(es, altitude))
  {
    if es == [] {
      HoldsNothing(t, base, Route(t, altitude));
    } else {
      var rest, last := es[..|es| - 1], es[|es| - 1];
      SplitIsPartition(t, base, files, rest, altitude);
      RoutesAreDistinct(t, altitude, last.altitude);
      HoldsMore(t, base, AfterAll(t, files, rest), Route(t, altitude), LinesWith(rest, altitude), last);
      assert LinesWith(rest, altitude) + [] == LinesWith(rest, altitude);
    }
  }

  /** After a write that failed each file still starts with its beginning and its lines so far. */
  lemma LinesSoFarAreStored(t: Target, base: Text, files: Content, es: seq<Entry>, e: Entry, left: Content,
                            altitude: Text)
    requires t.split && Started(t, base, files) && CutShort(t, AfterAll(t, files, es), left, e)
    ensures var path := Route(t, altitude);
            path in AfterAll(t, files, es) ==>
              path in left && Beginning(t, base, path) + Stored(LinesWith(es, altitude)) <= left[path]
  {
    SplitIsPartition(t, base, files, es, altitude);
  }

  /** Every file is one of these: no line is anywhere else. */
  lemma {:induction false} OnlyRoutedFiles(t: Target, base: Text, files: Content, es: seq<Entry>, path: Text)
    requires Started(t, base, files)
    ensures path in AfterAll(t, files, es) <==>
              path == BasePath(t) || exists i :: 0 <= i < |es| && path == Route(t, es[i].altitude)
  {
    if es != [] {
      var n := |es| - 1;
      OnlyRoutedFiles(t, base, files, es[..n], path);
      if i :| 0 <= i < n && path == Route(t, es[..n][i].altitude) {
        assert path == Route(t, es[i].altitude);
      }
      if i :| 0 <= i < |es| && path == Route(t, es[i].altitude) {
        if i < n { assert path == Route(t, es[..n][i].altitude); }
      }
    }
  }

  /** Merged output: one file with every line. */
  lemma {:induction false} MergedHoldsAll(t: Target, base: Text, files: Content, es: seq<Entry>)
    requires !t.split && Started(t, base, files)
    ensures Holds(t, base, AfterAll(t, files, es), BasePath(t), AllLines(es))
    ensures AfterAll(t, files, es).Keys == {BasePath(t)}
  {
    if es == [] {
      HoldsNothing(t, base, BasePath(t));
    } else {
      var rest, last := es[..|es| - 1], es[|es| - 1];
      MergedHoldsAll(t, base, files, rest);
      HoldsMore(t, base, AfterAll(t, files, rest), BasePath(t), AllLines(rest), last);
    }
  }

  /** The lines that go where an altitude is routed to. */
  function LinesIn(t: Target, es: seq<Entry>, altitude: Text): seq<Newlined> {
    if t.split then LinesWith(es, altitude) else AllLines(es)
  }

  /** Both at once. */
  lemma RoutedHolds(t: Target, base: Text, files: Content, es: seq<Entry>, altitude: Text)
    requires Started(t, base, files)
    ensures Holds(t, base, AfterAll(t, files, es), Route(t, altitude), LinesIn(t, es, altitude))
  {
    if t.split {
      SplitIsPartition(t, base, files, es, altitude);
    } else {
      MergedHoldsAll(t, base, files, es);
    }
  }

  // ----- Reading the files back -----

  /** A record rendered for the sink: its altitude string and its columns. */
  datatype Rendered = Rendered(altitude: Text, columns: Row)

  function Entries(rs: seq<Rendered>): (es: seq<Entry>)
    ensures |es| == |rs|
  {
    if rs == [] then []
    else Entries(rs[..|rs| - 1]) + [Entry(rs[|rs| - 1].altitude, Line(rs[|rs| - 1].columns))]
  }

  function RowsWith(rs: seq<Rendered>, altitude: Text): seq<Row> {
    if rs == [] then []
    else
      var last := rs[|rs| - 1];
      RowsWith(rs[..|rs| - 1], altitude) + if last.altitude == altitude then [last.columns] else []
  }

  lemma FileFirst(row: Row, rows: seq<Row>)
    ensures File([row] + rows) == Crlf(Line(row)) + File(rows)
  {
    assert ([row] + rows)[1..] == rows;
  }

  lemma {:induction false} FileMore(rows: seq<Row>, row: Row)
    ensures File(rows + [row]) == File(rows) + Crlf(Line(row))
  {
    if rows == [] {
      FileFirst(row, []);
      hide Crlf, Line;
      assert rows + [row] == [row] + rows;
    } else {
      hide Crlf, Line, File;
      var first, rest := rows[0], rows[1..];
      FileMore(rest, row);
      FileFirst(first, rest);
      FileFirst(first, rest + [row]);
      assert rows == [first] + rest && rows + [row] == [first] + (rest + [row]);
    }
  }

  lemma StoredMore(lines: seq<Newlined>, line: Newlined)
    ensures Stored(lines + [line]) == Stored(lines) + Crlf(line)
  {
    assert (lines + [line])[..|lines|] == lines;
  }

  lemma LinesWithMore(es: seq<Entry>, e: Entry, altitude: Text)
    ensures LinesWith(es + [e], altitude) == LinesWith(es, altitude) + if e.altitude == altitude then [e.line] else []
  {
    assert (es + [e])[..|es|] == es;
  }

  lemma Empty<T>(a: seq<T>)
    ensures a + [] == a
  {
  }

  /** One more record adds the same text to its file whether it is taken as a line or as columns. */
  lemma StoredStep(rest: seq<Rendered>, last: Rendered, altitude: Text)
    requires Stored(LinesWith(Entries(rest), altitude)) == File(RowsWith(rest, altitude))
    ensures Stored(LinesWith(Entries(rest) + [Entry(last.altitude, Line(last.columns))], altitude))
         == File(RowsWith(rest, altitude) + if last.altitude == altitude then [last.columns] else [])
  {
    hide *;
    LinesWithMore(Entries(rest), Entry(last.altitude, Line(last.columns)), altitude);
    if last.altitude == altitude {
      StoredMore(LinesWith(Entries(rest), altitude), Line(last.columns));
      FileMore(RowsWith(rest, altitude), last.columns);
    } else {
      Empty(LinesWith(Entries(rest), altitude));
      Empty(RowsWith(rest, altitude));
    }
  }

  lemma {:induction false} StoredIsFile(rs: seq<Rendered>, altitude: Text)
    ensures Stored(LinesWith(Entries(rs), altitude)) == File(RowsWith(rs, altitude))
  {
    if rs != [] {
      StoredIsFile(rs[..|rs| - 1], altitude);
      StoredStep(rs[..|rs| - 1], rs[|rs| - 1], altitude);
      hide Stored, LinesWith, File, Line;
    }
  }

  lemma {:induction false} AsManyRowsAsLines(rs: seq<Rendered>, altitude: Text)
    ensures |LinesWith(Entries(rs), altitude)| == |RowsWith(rs, altitude)|
  {
    if rs != [] {
      var rest, last := rs[..|rs| - 1], rs[|rs| - 1];
      AsManyRowsAsLines(rest, altitude);
      LinesWithMore(Entries(rest), Entry(last.altitude, Line(last.columns)), altitude);
    }
  }

  function AllRows(rs: seq<Rendered>): seq<Row> {
    if rs == [] then [] else AllRows(rs[..|rs| - 1]) + [rs[|rs| - 1].columns]
  }

  lemma {:induction false} AllStoredIsFile(rs: seq<Rendered>)
    ensures Stored(AllLines(Entries(rs))) == File(AllRows(rs)) && |AllLines(Entries(rs))| == |AllRows(rs)|
  {
    if rs != [] {
      var rest, last := rs[..|rs| - 1], rs[|rs| - 1];
      AllStoredIsFile(rest);
      hide Line, File, Stored;
      var e := Entry(last.altitude, Line(last.columns));
      assert (Entries(rest) + [e])[..|rest|] == Entries(rest);
      StoredMore(AllLines(Entries(rest)), e.line);
      FileMore(AllRows(rest), last.columns);
    }
  }

  /** The columns of the records that go where an altitude is routed to. */
  function RowsIn(t: Target, rs: seq<Rendered>, altitude: Text): seq<Row> {
    if t.split then RowsWith(rs, altitude) else AllRows(rs)
  }

  lemma LinesAreRows(t: Target, rs: seq<Rendered>, altitude: Text)
    ensures Stored(LinesIn(t, Entries(rs), altitude)) == File(RowsIn(t, rs, altitude))
    ensures |LinesIn(t, Entries(rs), altitude)| == |RowsIn(t, rs, altitude)|
  {
    if t.split {
      StoredIsFile(rs, altitude);
      AsManyRowsAsLines(rs, altitude);
    } else {
      AllStoredIsFile(rs);
    }
  }

  /** The files of a capture, from what the base file begins with on. */
  function Captured(t: Target, base: Text, rs: seq<Rendered>): Content {
    AfterAll(t, map[BasePath(t) := base], Entries(rs))
  }

  /**
   * End to end: with a header line of labels, a reader of RFC 4180 gets from a file
   * that begins with it the labels and then the columns of exactly the records
   * routed to it, of merged output all of them; without a file there are none.
   */
  lemma FileReadsBackRecords(t: Target, labels: Row, base: Text, rs: seq<Rendered>, altitude: Text)
    requires t.header == Line(labels)
    ensures var path, files := Route(t, altitude), Captured(t, base, rs);
            && (path in files && Beginning(t, base, path) == Crlf(t.header) ==>
                 ReadFile(files[path]) == Some(CleanRows([labels] + RowsIn(t, rs, altitude))))
            && (path !in files ==> RowsIn(t, rs, altitude) == [])
  {
    hide ReadFile, CleanRows, RowsIn, LinesIn, Entries, Crlf, Line, AfterAll, Route, Stored;
    var rows := RowsIn(t, rs, altitude);
    RoutedHolds(t, base, map[BasePath(t) := base], Entries(rs), altitude);
    LinesAreRows(t, rs, altitude);
    assert ([labels] + rows)[1..] == rows;
    FileReadsBack([labels] + rows);
  }
}
