/**
 Nothing is ruled out by putting driver, client and sink together: what each of them can do alone
 it can do in the joint system, and a request under way is answered after a bounded number of the
 driver's steps.
 */
module EndToEndProgress {
  import opened Payload
  import opened Csv
  import opened Sink
  import opened Records
  import opened EndToEnd
  import D = Driver
  import P = Pipeline

  /** The driver's threads go on whatever the client does, and so does its control thread within the session. */
  lemma DriverIsFree(u: Setup, s: State, d: D.Step)
    requires D.Enabled(s.driver, d) && !d.DrainStart? && !d.Disconnect?
    ensures Enabled(u, s, OnDriver(d))
    ensures var s' := Apply(u, s, OnDriver(d));
            s'.driver == D.Apply(s.driver, d) && s'.client == s.client && s'.files == s.files && s'.broken == s.broken
  {
    hide D.Enabled, D.Apply;
  }

  /** The client's threads go on; requests, writes and flushes are shared and follow below. */
  lemma ClientIsFree(u: Setup, s: State, c: P.Step)
    requires P.Enabled(s.client, c) && !c.Fetch? && !c.Write? && !c.Flush?
    ensures Enabled(u, s, OnClient(c))
    ensures var s' := Apply(u, s, OnClient(c));
            s'.client == P.Apply(s.client, c) && s'.driver == s.driver && s'.files == s.files && s'.request == s.request
  {
    hide P.Enabled, P.Apply;
  }

  predicate DrainStep(d: D.Step) { d.DrainPop? || d.DrainCopy? || d.DrainDecrement? || d.DrainGiveBack? }

  /** What the drain of a request still has to do that has handed over n records. */
  function DrainLeft(c: D.Control, n: nat): int {
    var room := 4 * (RECORD_COUNT - n);
    match c
    case Draining(_, _) => room + 2
    case DrainHolding(_, _, _) => room + 1
    case DrainCopied(_, _) => room + 4
    case DrainReturning(_, _) => room + 3
    case _ => 0
  }

  /** A drainer that fetches can ask, or fail on its own; once it has asked, the driver drains or the answer is due. */
  lemma RequestGoesOn(u: Setup, d0: D.State, s: State, fault: bool)
    requires Inv(u, d0, s) && s.client.drainer.Fetching?
    ensures s.request.Idle? ==> Enabled(u, s, Ask) && Enabled(u, s, OnClient(P.Fetch(Failed)))
    ensures s.request.Asked? && s.driver.control.Connected? ==> Enabled(u, s, Answer)
    ensures s.request.Asked? && !s.driver.control.Connected? ==>
              Enabled(u, s, OnDriver(NextDrainStep(s.driver.control, fault)))
  {
    hide HandInv, FetchInv, FileInv, P.Inv;
  }

  /** The control thread's next step in a drain; a copy may fault. */
  function NextDrainStep(c: D.Control, fault: bool): D.Step {
    match c
    case Draining(_, _) => D.DrainPop
    case DrainHolding(_, _, _) => D.DrainCopy(fault)
    case DrainCopied(_, _) => D.DrainDecrement
    case _ => D.DrainGiveBack
  }

  /** Each such step brings the answer nearer. */
  lemma DrainComesToItsEnd(u: Setup, s: State, d: D.Step)
    requires s.request.Asked? && DrainAt(s.driver.control, |s.request.handed|)
    requires D.Enabled(s.driver, d) && DrainStep(d)
    ensures var s' := Apply(u, s, OnDriver(d));
            && s'.request.Asked?
            && 0 <= DrainLeft(s'.driver.control, |s'.request.handed|) < DrainLeft(s.driver.control, |s.request.handed|)
            && (DrainLeft(s'.driver.control, |s'.request.handed|) == 0 ==> Enabled(u, s', Answer))
  {
    DrainGetsNearer(s.driver, s.request, d);
    hide D.Enabled, D.Apply, DrainAt, Observed;
  }

  lemma DrainGetsNearer(driver: D.State, q: Request, d: D.Step)
    requires q.Asked? && DrainAt(driver.control, |q.handed|) && D.Enabled(driver, d) && DrainStep(d)
    ensures var c, q' := D.Apply(driver, d).control, Observed(q, driver, d);
            && q'.Asked?
            && 0 <= DrainLeft(c, |q'.handed|) < DrainLeft(driver.control, |q.handed|)
            && (DrainLeft(c, |q'.handed|) == 0 ==> c.Connected?)
  {
  }

  /** The answer is what was handed over, and a failure exactly if a copy faulted. */
  lemma AnswerIsWhatWasHanded(u: Setup, s: State)
    requires s.request.Asked? && s.client.drainer.Fetching?
    ensures ReplyTo(u, s.request)
         == if s.request.faulted then Failed else Fetched(Contents(u, s.request.handed))
  {
    var handed := s.request.handed;
    assert |handed| * D.RECORD_SIZE / D.RECORD_SIZE == |handed| && |handed| * D.RECORD_SIZE % D.RECORD_SIZE == 0;
    assert Contents(u, handed)[..|handed|] == Contents(u, handed);
    assert handed == [] ==> Contents(u, handed) == [];
  }

  /** A writer with a line to write writes it: the line is in its file if the world lets it, and otherwise the write
      fails. */
  lemma WriteGoesOn(u: Setup, s: State, world: World)
    requires ToWrite(s.client.writer)
    ensures Enabled(u, s, Store(world, s.files))
    ensures var e, s' := NextEntry(u, s.client.writer), Apply(u, s, Store(world, s.files));
            if Succeeds(u.target, s.files, s.broken, e, world)
            then s'.client == P.Apply(s.client, P.Write(true)) && s'.files == AfterWrite(u.target, s.files, e)
            else s'.client == P.Apply(s.client, P.Write(false)) && s'.files == s.files
  {
    var e := NextEntry(u, s.client.writer);
    var path := Route(u.target, e.altitude);
    assert path in s.files ==> s.files[path] <= Held(u.target, s.files, path) + Crlf(e.line);
    hide Route, Held, Crlf;
  }

  /** A write that fails leaves what the world says of its file and breaks that stream, if there is one by then. */
  lemma FailedWriteBreaks(u: Setup, s: State, world: World, left: Content, path: Text)
    requires Enabled(u, s, Store(world, left))
    requires !Succeeds(u.target, s.files, s.broken, NextEntry(u, s.client.writer), world)
    ensures var s', routed := Apply(u, s, Store(world, left)), Route(u.target, NextEntry(u, s.client.writer).altitude);
            && s'.files == left
            && (path in s'.broken <==> path in s.broken || (path in left && path == routed))
  {
    hide Succeeds, Route, CutShort;
  }

  /** And when it has written its batch it flushes, whatever the streams do. */
  lemma FlushGoesOn(u: Setup, s: State, fails: set<Text>, path: Text)
    requires P.Enabled(s.client, P.Flush)
    ensures Enabled(u, s, FlushAll(fails))
    ensures Apply(u, s, FlushAll(fails)).client == P.Apply(s.client, P.Flush)
    ensures Apply(u, s, FlushAll(fails)).files == s.files
    ensures path in Apply(u, s, FlushAll(fails)).broken <==> path in s.broken || (path in fails && path in s.files)
  {
  }
}
