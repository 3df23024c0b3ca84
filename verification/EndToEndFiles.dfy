/**
 What a session leaves in the files, from the driver's append log to the reader of a file.
 */
module EndToEndFiles {
  import opened Common
  import opened Payload
  import opened Csv
  import opened Sink
  import opened Records
  import opened EndToEnd
  import opened EndToEndSteps
  import opened EndToEndRuns
  import D = Driver
  import L = DriverLog
  import R = DriverRuns
  import T = DriverTotals
  import P = Pipeline
  import PR = PipelineRuns

  lemma PartFromLog(d: D.State, all: seq<D.Stamp>, before: seq<D.Stamp>, part: seq<D.Stamp>, after: seq<D.Stamp>)
    requires T.FromLog(d, all) && all == before + (part + after)
    ensures T.FromLog(d, part)
  {
    hide L.Genuine;
    forall i | 0 <= i < |part| ensures part[i] == all[|before| + i] {
    }
  }

  lemma DeliveredFromLog(u: Setup, d0: D.State, s: State)
    requires Inv(u, d0, s)
    ensures T.FromLog(s.driver, s.delivered)
  {
    hide R.Reachable, P.Inv, RequestInv, FetchInv, FileInv, T.Handed, T.FromLog;
    T.HandedIsFromLog(s.driver);
    PartFromLog(s.driver, T.Handed(s.driver.removed), T.Handed(d0.removed), s.delivered, s.lost + Underway(s.request));
  }

  /**
   At every moment of a session, whatever faults or fails: the client has been given records of
   the append log in append order, the sink has accepted a prefix of them, and the files hold
   exactly what the sink accepted, but for a part of the one record at which it failed.
   */
  lemma FilesFollowTheLog(u: Setup, run: seq<State>, steps: seq<Step>, i: nat)
    requires IsSession(u, run, steps) && i < |run|
    ensures var s, w := run[i], run[i].client.writer;
            && T.FromLog(s.driver, s.delivered)
            && s.client.output <= Contents(u, s.delivered)
            && (if Stuck(w) then CutShort(u.target, FilesWith(u, s.client.output), s.files, Failing(u, w))
                else s.files == FilesWith(u, s.client.output))
  {
    SessionKeepsInv(u, run, steps, i);
    DeliveredFromLog(u, run[0].driver, run[i]);
    PR.AcceptedSoFar(run[i].client);
    hide IsSession, R.Reachable, P.Inv, RequestInv, HandInv, T.Handed, T.FromLog, FilesWith, CutShort, Contents;
  }

  /** The step is not a write, or it is one that succeeds. */
  predicate StoresWell(u: Setup, s: State, step: Step) {
    step.Store? && ToWrite(s.client.writer) ==>
      Succeeds(u.target, s.files, s.broken, NextEntry(u, s.client.writer), step.world)
  }

  /** No write of the first n steps fails. */
  ghost predicate AllStored(u: Setup, run: seq<State>, steps: seq<Step>, n: nat)
    requires n <= |steps| < |run|
  {
    forall j :: 0 <= j < n ==> StoresWell(u, run[j], steps[j])
  }

  lemma FailsByWrite(u: Setup, s: State, step: Step)
    requires Enabled(u, s, step) && !P.HasFailed(s.client.writer) && StoresWell(u, s, step)
    ensures !P.HasFailed(Apply(u, s, step).client.writer)
  {
    hide D.Enabled, D.Apply, InSession, DrainAt, FilesWith, Succeeds, CutShort, ReplyTo, P.Enabled, P.Apply;
    if step.OnClient? {
      OnlyWritesShow(s.client, step.takes);
    } else if step.FlushAll? {
      OnlyWritesShow(s.client, P.Flush);
    } else if step.Answer? {
      FetchedMore(s.client, ReplyTo(u, s.request));
    }
  }

  lemma {:induction false} NothingFails(u: Setup, run: seq<State>, steps: seq<Step>, i: nat)
    requires IsSession(u, run, steps) && i < |run| && AllStored(u, run, steps, i)
    ensures !P.HasFailed(run[i].client.writer)
  {
    hide Enabled, Apply, StoresWell, Start, P.HasFailed;
    if i == 0 {
      StartFields(u, run[0]);
    } else {
      NothingFails(u, run, steps, i - 1);
      FailsByWrite(u, run[i - 1], steps[i - 1]);
    }
  }

  lemma AllDelivered(u: Setup, d0: D.State, s: State)
    requires Inv(u, d0, s) && !P.HasFailed(s.client.writer) && PR.Finished(s.client)
    ensures s.client.output == Contents(u, s.delivered) && s.files == FilesWith(u, Contents(u, s.delivered))
    ensures SoundInv(u, s)
  {
    hide R.Reachable, P.Inv, RequestInv, HandInv, T.Handed, FilesWith, CutShort, Contents, P.Flatten, SoundInv;
    PR.AllWritten(s.client);
  }

  /** Each file holds its beginning and then the lines routed to it, in order: split output those of one altitude,
      merged output all of them. */
  ghost predicate HoldLines(t: Target, base: Text, files: Content, es: seq<Entry>) {
    && (forall altitude :: Holds(t, base, files, Route(t, altitude), LinesIn(t, es, altitude)))
    && (!t.split ==> files.Keys == {BasePath(t)})
  }

  /** What is true of the files once both threads have returned and no write has failed. */
  lemma Delivers(u: Setup, run: seq<State>, steps: seq<Step>, i: nat)
    requires IsSession(u, run, steps) && i < |run| && AllStored(u, run, steps, i) && PR.Finished(run[i].client)
    ensures T.FromLog(run[i].driver, run[i].delivered)
    ensures run[i].files == FilesWith(u, Contents(u, run[i].delivered))
    ensures run[i].client.output == Contents(u, run[i].delivered) && SoundInv(u, run[i])
  {
    hide IsSession, Inv, AllStored, PR.Finished, T.FromLog, SoundInv, FilesWith, Contents;
    SessionKeepsInv(u, run, steps, i);
    NothingFails(u, run, steps, i);
    DeliveredFromLog(u, run[0].driver, run[i]);
    AllDelivered(u, run[0].driver, run[i]);
  }

  /**
   * From the driver's log to the files: in a session in which no write fails, once both threads have
   * returned, the files hold exactly the lines of the delivered records, which are log records in
   * append order.
   */
  lemma LogIsInFiles(u: Setup, run: seq<State>, steps: seq<Step>, i: nat)
    requires IsSession(u, run, steps) && i < |run| && AllStored(u, run, steps, i) && PR.Finished(run[i].client)
    ensures T.FromLog(run[i].driver, run[i].delivered)
    ensures HoldLines(u.target, u.base, run[i].files, EntriesOf(u, Contents(u, run[i].delivered)))
  {
    hide IsSession, AllStored, PR.Finished, T.FromLog, SoundInv, FilesWith, Contents, HoldLines;
    Delivers(u, run, steps, i);
    FilesHoldLines(u, Contents(u, run[i].delivered));
  }

  lemma FilesHoldLines(u: Setup, records: seq<Record>)
    ensures HoldLines(u.target, u.base, FilesWith(u, records), EntriesOf(u, records))
  {
    hide Holds, LinesIn, Route, AfterAll, EntriesOf, Crlf;
    var t, base, es := u.target, u.base, EntriesOf(u, records);
    var files := map[BasePath(t) := base];
    forall altitude ensures Holds(t, base, AfterAll(t, files, es), Route(t, altitude), LinesIn(t, es, altitude)) {
      RoutedHolds(t, base, files, es, altitude);
    }
    if !t.split { MergedHoldsAll(t, base, files, es); }
  }

  /** Header and lines are rendered from labels and columns. */
  ghost predicate RendersCsv(u: Setup, labels: Row, columns: Record -> Rendered) {
    && u.target.header == Line(labels)
    && (forall record :: u.render(record) == Entry(columns(record).altitude, Line(columns(record).columns)))
  }

  function RenderAll(columns: Record -> Rendered, records: seq<Record>): (r: seq<Rendered>)
    ensures |r| == |records|
  {
    seq(|records|, i requires 0 <= i < |records| => columns(records[i]))
  }

  lemma {:induction false} EntriesAreRendered(u: Setup, labels: Row, columns: Record -> Rendered, records: seq<Record>)
    requires RendersCsv(u, labels, columns)
    ensures EntriesOf(u, records) == Entries(RenderAll(columns, records))
  {
    hide Line;
    if records != [] {
      var rest := records[..|records| - 1];
      EntriesAreRendered(u, labels, columns, rest);
      assert RenderAll(columns, records)[..|rest|] == RenderAll(columns, rest);
      assert EntriesOf(u, records) == EntriesOf(u, rest) + [u.render(records[|rest|])];
    }
  }

  /** What the reader of a file gets: the labels, then the columns of exactly the records routed to it. A base file
      that did not take its header when it was opened holds what it took, and no record is its. */
  ghost predicate ReadsBack(u: Setup, files: Content, labels: Row, rs: seq<Rendered>, altitude: Text) {
    var path, rows := Route(u.target, altitude), RowsIn(u.target, rs, altitude);
    if path !in files then rows == []
    else if path in Unsound(u.target, u.base) then files[path] == u.base && rows == []
    else ReadFile(files[path]) == Some(CleanRows([labels] + rows))
  }

  /** None of these records goes to a stream that is broken from the start. */
  ghost predicate AllSound(u: Setup, records: seq<Record>) {
    forall record <- records :: Route(u.target, u.render(record).altitude) !in Unsound(u.target, u.base)
  }

  lemma {:induction false} NoneRouted(t: Target, es: seq<Entry>, altitude: Text)
    requires forall e <- es :: Route(t, e.altitude) != Route(t, altitude)
    ensures LinesIn(t, es, altitude) == []
  {
    if es != [] { NoneRouted(t, es[..|es| - 1], altitude); }
  }

  /** Nothing is in a base file that did not take its header. */
  lemma BrokenStaysEmpty(u: Setup, records: seq<Record>, altitude: Text)
    requires AllSound(u, records) && Route(u.target, altitude) in Unsound(u.target, u.base)
    ensures LinesIn(u.target, EntriesOf(u, records), altitude) == []
    ensures Holds(u.target, u.base, FilesWith(u, records), BasePath(u.target), [])
  {
    hide LinesIn, AfterAll, Crlf, Holds, Route;
    var t, es := u.target, EntriesOf(u, records);
    forall e <- es ensures Route(t, e.altitude) != Route(t, altitude) {
      var i :| 0 <= i < |es| && es[i] == e;
      assert records[i] in records;
    }
    NoneRouted(t, es, altitude);
    RoutedHolds(t, u.base, map[BasePath(t) := u.base], es, altitude);
  }

  lemma SoundBegins(u: Setup, path: Text)
    requires path !in Unsound(u.target, u.base)
    ensures Beginning(u.target, u.base, path) == Crlf(u.target.header)
  {
  }

  lemma BrokenReadsBack(u: Setup, rs: seq<Rendered>, records: seq<Record>, altitude: Text)
    requires EntriesOf(u, records) == Entries(rs) && AllSound(u, records)
    requires Route(u.target, altitude) in Unsound(u.target, u.base)
    ensures var files, path := FilesWith(u, records), Route(u.target, altitude);
            path in files && files[path] == u.base && RowsIn(u.target, rs, altitude) == []
  {
    hide EntriesOf, Entries, RowsIn, LinesIn, FilesWith, AllSound;
    BrokenStaysEmpty(u, records, altitude);
    LinesAreRows(u.target, rs, altitude);
    assert u.base + [] == u.base;
  }

  lemma FilesReadBack(u: Setup, labels: Row, columns: Record -> Rendered, records: seq<Record>, altitude: Text)
    requires RendersCsv(u, labels, columns) && AllSound(u, records)
    ensures ReadsBack(u, FilesWith(u, records), labels, RenderAll(columns, records), altitude)
  {
    hide EntriesOf, RenderAll, Entries, Line, ReadFile, CleanRows, RowsIn, AllSound, Crlf, Route, Unsound, Beginning,
      AfterAll;
    var rs, path := RenderAll(columns, records), Route(u.target, altitude);
    EntriesAreRendered(u, labels, columns, records);
    FileReadsBackRecords(u.target, labels, u.base, rs, altitude);
    if path in Unsound(u.target, u.base) {
      BrokenReadsBack(u, rs, records, altitude);
    } else {
      SoundBegins(u, path);
    }
  }

  /**
   * And from the driver's log to the reader of a file: in such a session a reader of RFC 4180 gets
   * from the file of any altitude the labels and then the columns of exactly the delivered log
   * records of that altitude, in append order, and of merged output those of all of them; without a
   * file there are none.
   */
  lemma LogReadsBack(u: Setup, run: seq<State>, steps: seq<Step>, i: nat, labels: Row, columns: Record -> Rendered,
                     altitude: Text)
    requires IsSession(u, run, steps) && i < |run| && AllStored(u, run, steps, i) && PR.Finished(run[i].client)
    requires RendersCsv(u, labels, columns)
    ensures T.FromLog(run[i].driver, run[i].delivered)
    ensures ReadsBack(u, run[i].files, labels, RenderAll(columns, Contents(u, run[i].delivered)), altitude)
  {
    hide IsSession, AllStored, PR.Finished, T.FromLog, RendersCsv, ReadsBack, FilesWith, Contents, Unsound, Route;
    Delivers(u, run, steps, i);
    FilesReadBack(u, labels, columns, Contents(u, run[i].delivered), altitude);
  }
}
