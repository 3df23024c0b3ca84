/**
 What every step of a session keeps, and where it moves records.
 */
module EndToEndSteps {
  import opened Common
  import opened Payload
  import opened Csv
  import opened Sink
  import opened Records
  import opened EndToEnd
  import D = Driver
  import R = DriverRuns
  import T = DriverTotals
  import P = Pipeline
  import PR = PipelineRuns

  // ----- Steps of the driver -----

  lemma AllocationLeavesControl(d: D.State, step: D.Step)
    requires D.Enabled(d, step) && R.InAllocation(step)
    ensures D.Apply(d, step).control == d.control
  {
  }

  lemma EntryLeavesControl(d: D.State, step: D.Step)
    requires D.Enabled(d, step) && R.WithEntry(step)
    ensures D.Apply(d, step).control == d.control
  {
  }

  lemma SweepLeavesControl(d: D.State, step: D.Step)
    requires D.Enabled(d, step) && R.InSweep(step) && InSession(step)
    ensures D.Apply(d, step).control == d.control
  {
  }

  lemma ThreadsLeaveControl(d: D.State, step: D.Step)
    requires D.Enabled(d, step) && InSession(step) && !R.OnControl(step)
    ensures D.Apply(d, step).control == d.control && !step.DrainCopy?
  {
    hide D.Apply, D.Enabled, InSession;
    if R.InAllocation(step) {
      AllocationLeavesControl(d, step);
    } else if R.WithEntry(step) {
      EntryLeavesControl(d, step);
    } else {
      SweepLeavesControl(d, step);
    }
  }

  /** The steps a drain or a connected control thread can take. */
  predicate InDrain(step: D.Step) {
    step.DrainPop? || step.DrainCopy? || step.DrainDecrement? || step.DrainGiveBack?
  }

  lemma ControlDrains(d: D.State, step: D.Step, n: nat)
    requires D.Enabled(d, step) && InSession(step) && R.OnControl(step) && DrainAt(d.control, n)
    ensures InDrain(step) && !d.control.Connected?
  {
  }

  lemma DrainMovesOn(d: D.State, step: D.Step, q: Request)
    requires D.Enabled(d, step) && InDrain(step) && q.Asked? && DrainAt(d.control, |q.handed|)
    ensures var q' := Observed(q, d, step);
            q'.Asked? && DrainAt(D.Apply(d, step).control, |q'.handed|)
  {
  }

  lemma DriverKeepsDrain(d: D.State, step: D.Step, q: Request)
    requires D.Enabled(d, step) && InSession(step)
    requires if q.Idle? then d.control == D.Connected else DrainAt(d.control, |q.handed|)
    ensures Observed(q, d, step).Idle? <==> q.Idle?
    ensures var d', q' := D.Apply(d, step), Observed(q, d, step);
            if q.Idle? then d'.control == D.Connected else DrainAt(d'.control, |q'.handed|)
  {
    hide D.Apply, D.Enabled, InSession, InDrain, R.OnControl;
    if R.OnControl(step) {
      ControlDrains(d, step, if q.Idle? then 0 else |q.handed|);
      DrainMovesOn(d, step, q);
    } else {
      ThreadsLeaveControl(d, step);
    }
  }

  lemma DriverKeepsRequest(s: State, step: D.Step)
    requires RequestInv(s) && D.Enabled(s.driver, step) && InSession(step)
    ensures RequestInv(AfterDriver(s, step))
  {
    hide D.Apply, D.Enabled, InSession, DrainAt, Observed;
    DriverKeepsDrain(s.driver, step, s.request);
  }

  lemma AllocationHandsNothing(d: D.State, step: D.Step)
    requires D.Enabled(d, step) && R.InAllocation(step)
    ensures D.Apply(d, step).removed == d.removed
  {
  }

  lemma EntryHandsNothing(d: D.State, step: D.Step)
    requires D.Enabled(d, step) && R.WithEntry(step)
    ensures D.Apply(d, step).removed == d.removed
  {
  }

  /** A clearing that is left over takes records but hands over none. */
  lemma SweepHandsNothing(d: D.State, step: D.Step)
    requires D.Enabled(d, step) && R.InSweep(step)
    ensures T.Handed(D.Apply(d, step).removed) == T.Handed(d.removed)
  {
    hide T.Handed;
    if step.SweepDecrement? {
      T.HandedMore(d.removed, D.Cleared(d.pc[step.t].rec));
    }
  }

  lemma DrainHandsWhatIsSeen(d: D.State, step: D.Step, q: Request)
    requires D.Enabled(d, step) && InDrain(step) && q.Asked?
    ensures Underway(q) <= Underway(Observed(q, d, step))
    ensures T.Handed(D.Apply(d, step).removed)
         == T.Handed(d.removed) + Underway(Observed(q, d, step))[|Underway(q)|..]
  {
    hide T.Handed;
    if step.DrainCopy? {
      T.HandedMore(d.removed, D.Delivered(d.control.rec, d.published));
    }
  }

  /** A step of the driver hands over what the request sees, and nothing else. */
  lemma DriverHandsWhatIsSeen(d: D.State, step: D.Step, q: Request)
    requires D.Enabled(d, step) && InSession(step)
    requires if q.Idle? then d.control == D.Connected else DrainAt(d.control, |q.handed|)
    ensures Underway(q) <= Underway(Observed(q, d, step))
    ensures T.Handed(D.Apply(d, step).removed)
         == T.Handed(d.removed) + Underway(Observed(q, d, step))[|Underway(q)|..]
  {
    hide T.Handed, D.Apply, D.Enabled, InSession, InDrain;
    if R.OnControl(step) {
      ControlDrains(d, step, if q.Idle? then 0 else |q.handed|);
      DrainHandsWhatIsSeen(d, step, q);
    } else if R.InAllocation(step) {
      AllocationHandsNothing(d, step);
    } else if R.WithEntry(step) {
      EntryHandsNothing(d, step);
    } else {
      SweepHandsNothing(d, step);
    }
  }

  lemma HandsOn<X>(all: seq<X>, before: seq<X>, a: seq<X>, b: seq<X>, part: seq<X>, whole: seq<X>)
    requires all == before + (a + (b + part)) && part <= whole
    ensures all + whole[|part|..] == before + (a + (b + whole))
  {
    assert whole == part + whole[|part|..];
  }

  lemma DriverKeepsHand(d0: D.State, s: State, step: D.Step)
    requires RequestInv(s) && HandInv(d0, s) && D.Enabled(s.driver, step) && InSession(step)
    ensures HandInv(d0, AfterDriver(s, step))
  {
    hide D.Apply, D.Enabled, InSession, DrainAt, Observed, T.Handed, Underway;
    DriverHandsWhatIsSeen(s.driver, step, s.request);
    HandsOn(T.Handed(s.driver.removed), T.Handed(d0.removed), s.delivered, s.lost, Underway(s.request),
            Underway(Observed(s.request, s.driver, step)));
  }

  lemma SameClientKeepsFiles(u: Setup, s: State, s': State)
    requires FetchInv(u, s) && FileInv(u, s)
    requires s'.client == s.client && s'.files == s.files && s.broken <= s'.broken && s'.delivered == s.delivered
    ensures FetchInv(u, s') && FileInv(u, s')
  {
    hide P.Flatten, FilesWith, CutShort, Contents, Unsound, Route;
  }

  lemma DriverKeepsInv(u: Setup, d0: D.State, s: State, step: D.Step)
    requires Inv(u, d0, s) && D.Enabled(s.driver, step) && InSession(step)
    ensures Inv(u, d0, AfterDriver(s, step))
  {
    hide R.Reachable, P.Inv, RequestInv, HandInv, FetchInv, FileInv, D.Apply, D.Enabled, InSession;
    R.ReachableStep(s.driver, step);
    DriverKeepsRequest(s, step);
    DriverKeepsHand(d0, s, step);
    SameClientKeepsFiles(u, s, AfterDriver(s, step));
  }

  // ----- Steps of the client -----

  /** Only the end of a request moves a drainer that waits for one. */
  lemma FetchingWaits(c: P.State, step: P.Step)
    requires P.Enabled(c, step) && !step.Fetch?
    ensures c.drainer.Fetching? ==> P.Apply(c, step).drainer.Fetching?
    ensures Leaving(c.drainer) ==> Leaving(P.Apply(c, step).drainer)
  {
  }

  /** Only a write moves the writer into a failure or adds to the output. */
  lemma OnlyWritesShow(c: P.State, step: P.Step)
    requires P.Enabled(c, step) && !step.Write?
    ensures var c' := P.Apply(c, step);
            && c'.output == c.output && (P.HasFailed(c'.writer) <==> P.HasFailed(c.writer))
            && (P.HasFailed(c.writer) ==> c'.writer.batch == c.writer.batch && c'.writer.count == c.writer.count)
  {
  }

  /** Only a request that succeeds adds to what was fetched. */
  lemma OnlyFetchesCount(c: P.State, step: P.Step)
    requires P.Enabled(c, step) && (step.Fetch? ==> step.reply.Failed?)
    ensures P.Apply(c, step).fetched == c.fetched
    ensures step.Fetch? ==> Leaving(P.Apply(c, step).drainer)
  {
  }

  lemma ClientKeepsRequest(s: State, step: P.Step)
    requires RequestInv(s) && P.Enabled(s.client, step) && OnItsOwn(step, s.request)
    ensures RequestInv(AfterClient(s, step))
  {
    hide P.Apply, P.Enabled, DrainAt;
    OnlyFetchesCount(s.client, step);
    if !step.Fetch? { FetchingWaits(s.client, step); }
  }

  lemma ClientKeepsFiles(u: Setup, s: State, step: P.Step)
    requires FetchInv(u, s) && FileInv(u, s) && P.Enabled(s.client, step) && OnItsOwn(step, s.request)
    ensures FetchInv(u, AfterClient(s, step)) && FileInv(u, AfterClient(s, step))
  {
    hide P.Apply, P.Enabled, P.Flatten, FilesWith, CutShort, Contents, Unsound, Route;
    OnlyWritesShow(s.client, step);
    OnlyFetchesCount(s.client, step);
  }

  lemma ClientKeepsInv(u: Setup, d0: D.State, s: State, step: P.Step)
    requires Inv(u, d0, s) && P.Enabled(s.client, step) && OnItsOwn(step, s.request)
    ensures Inv(u, d0, AfterClient(s, step))
  {
    hide R.Reachable, P.Inv, RequestInv, FetchInv, FileInv, P.Apply, P.Enabled, OnItsOwn, T.Handed;
    PR.StepKeepsInv(s.client, step);
    ClientKeepsRequest(s, step);
    ClientKeepsFiles(u, s, step);
  }

  // ----- Requests -----

  lemma AskKeepsInv(u: Setup, d0: D.State, s: State)
    requires Inv(u, d0, s) && s.client.drainer.Fetching? && s.request.Idle?
    requires D.Enabled(s.driver, D.DrainStart(REPLY_SIZE))
    ensures Inv(u, d0, AfterAsk(s))
  {
    assert RequestInv(AfterAsk(s)) && D.Apply(s.driver, D.DrainStart(REPLY_SIZE)).removed == s.driver.removed by {
      hide R.Reachable, P.Inv, HandInv, FetchInv, FileInv;
    }
    hide R.Reachable, P.Inv, FetchInv, FileInv, RequestInv, D.Apply, D.Enabled, T.Handed;
    R.ReachableStep(s.driver, D.DrainStart(REPLY_SIZE));
    SameClientKeepsFiles(u, s, AfterAsk(s));
  }

  /** GetRecords returns what was handed over, unless a copy faulted. */
  lemma ReplyIsHanded(u: Setup, q: Request)
    requires q.Asked?
    ensures ReplyTo(u, q) == if q.faulted then Failed else Fetched(Contents(u, q.handed))
  {
    var records := Contents(u, q.handed);
    assert |q.handed| * D.RECORD_SIZE / D.RECORD_SIZE == |q.handed| && |q.handed| * D.RECORD_SIZE % D.RECORD_SIZE == 0;
    assert records[..|records|] == records;
    if q.handed == [] { assert records == []; }
  }

  lemma FetchedMore(c: P.State, reply: Reply)
    ensures var c' := P.AfterFetch(c, reply);
            && c'.output == c.output && c'.writer == c.writer && (reply.Failed? ==> Leaving(c'.drainer))
            && P.Flatten(c'.fetched) == P.Flatten(c.fetched) + if reply.Fetched? then reply.records else []
  {
    if reply.Fetched? && reply.records != [] {
      assert (c.fetched + [reply.records])[..|c.fetched|] == c.fetched;
    }
  }

  lemma ContentsOfSum(u: Setup, a: seq<D.Stamp>, b: seq<D.Stamp>)
    ensures Contents(u, a + b) == Contents(u, a) + Contents(u, b)
  {
  }

  /** The end of a request is a step of the client: the reply is never too long. */
  lemma AnswerIsFetch(u: Setup, s: State)
    requires RequestInv(s) && s.request.Asked?
    ensures var step := P.Fetch(ReplyTo(u, s.request));
            P.Enabled(s.client, step) && P.Apply(s.client, step) == AfterAnswer(u, s).client
  {
    ReplyIsHanded(u, s.request);
    hide ReplyTo, Contents;
  }

  lemma AnswerKeepsHand(u: Setup, d0: D.State, s: State)
    requires RequestInv(s) && HandInv(d0, s) && s.request.Asked? && s.driver.control.Connected?
    ensures RequestInv(AfterAnswer(u, s)) && HandInv(d0, AfterAnswer(u, s))
  {
    var handed := s.request.handed;
    FetchedMore(s.client, ReplyTo(u, s.request));
    hide T.Handed, ReplyTo, P.AfterFetch, P.Flatten;
    assert s.lost == [];
    assert s.delivered + (s.lost + handed) == (s.delivered + handed) + (s.lost + []);
    assert (s.lost + handed) + [] == s.lost + handed;
  }

  lemma AnswerKeepsFiles(u: Setup, s: State)
    requires FetchInv(u, s) && FileInv(u, s) && s.request.Asked?
    ensures FetchInv(u, AfterAnswer(u, s)) && FileInv(u, AfterAnswer(u, s))
  {
    ReplyIsHanded(u, s.request);
    FetchedMore(s.client, ReplyTo(u, s.request));
    ContentsOfSum(u, s.delivered, s.request.handed);
    hide ReplyTo, P.AfterFetch, P.Flatten, Contents, FilesWith, CutShort, Unsound, Route;
  }

  lemma AnswerKeepsInv(u: Setup, d0: D.State, s: State)
    requires Inv(u, d0, s) && s.request.Asked? && s.driver.control.Connected?
    ensures Inv(u, d0, AfterAnswer(u, s))
  {
    hide R.Reachable, P.Inv, RequestInv, HandInv, FetchInv, FileInv, P.Apply, P.Enabled, ReplyTo, P.AfterFetch;
    AnswerIsFetch(u, s);
    PR.StepKeepsInv(s.client, P.Fetch(ReplyTo(u, s.request)));
    AnswerKeepsHand(u, d0, s);
    AnswerKeepsFiles(u, s);
  }

  // ----- Writes -----

  /** One more record written. */
  lemma FilesMore(u: Setup, records: seq<Record>, record: Record)
    ensures FilesWith(u, records + [record]) == AfterWrite(u.target, FilesWith(u, records), u.render(record))
  {
    hide AfterWrite, Crlf;
    var es := EntriesOf(u, records);
    assert EntriesOf(u, records + [record]) == es + [u.render(record)];
    assert (es + [u.render(record)])[..|es|] == es;
  }

  /** A write of the session is a write of the client. */
  lemma StoreIsWrite(u: Setup, s: State, world: World, left: Content)
    requires ToWrite(s.client.writer)
    ensures var step := P.Write(Succeeds(u.target, s.files, s.broken, NextEntry(u, s.client.writer), world));
            P.Enabled(s.client, step) && P.Apply(s.client, step) == AfterStore(u, s, world, left).client
  {
  }

  /** A record that was written went to a sound stream. */
  lemma StoreKeepsSound(u: Setup, s: State, world: World, left: Content)
    requires SoundInv(u, s) && Stores(u, s, world, left)
    ensures SoundInv(u, AfterStore(u, s, world, left))
  {
    hide CutShort, AfterWrite, Unsound, Route;
  }

  lemma StoreKeepsFiles(u: Setup, s: State, world: World, left: Content)
    requires FetchInv(u, s) && FileInv(u, s) && Stores(u, s, world, left)
    ensures FetchInv(u, AfterStore(u, s, world, left)) && FileInv(u, AfterStore(u, s, world, left))
  {
    hide P.Flatten, FilesWith, CutShort, AfterWrite, Succeeds, Contents, SoundInv;
    var w := s.client.writer;
    FilesMore(u, s.client.output, w.batch[w.count]);
    StoreKeepsSound(u, s, world, left);
  }

  lemma StoreKeepsInv(u: Setup, d0: D.State, s: State, world: World, left: Content)
    requires Inv(u, d0, s) && Stores(u, s, world, left)
    ensures Inv(u, d0, AfterStore(u, s, world, left))
  {
    var step := P.Write(Succeeds(u.target, s.files, s.broken, NextEntry(u, s.client.writer), world));
    hide R.Reachable, P.Inv, FetchInv, FileInv, P.Apply, P.Enabled, T.Handed, Succeeds, CutShort, DrainAt;
    StoreIsWrite(u, s, world, left);
    PR.StepKeepsInv(s.client, step);
    StoreKeepsFiles(u, s, world, left);
  }

  lemma FlushKeepsInv(u: Setup, d0: D.State, s: State, fails: set<Text>)
    requires Inv(u, d0, s) && P.Enabled(s.client, P.Flush)
    ensures Inv(u, d0, AfterFlush(s, fails))
  {
    hide R.Reachable, P.Inv, FetchInv, FileInv, P.Apply, P.Enabled, T.Handed, DrainAt;
    ClientKeepsInv(u, d0, s, P.Flush);
    SameClientKeepsFiles(u, AfterClient(s, P.Flush), AfterFlush(s, fails));
  }

  lemma StepKeepsInv(u: Setup, d0: D.State, s: State, step: Step)
    requires Inv(u, d0, s) && Enabled(u, s, step)
    ensures Inv(u, d0, Apply(u, s, step))
  {
    hide Inv, D.Enabled, P.Enabled, InSession, OnItsOwn, Stores, AfterDriver, AfterClient, AfterAsk, AfterAnswer,
      AfterStore, AfterFlush;
    match step
    case OnDriver(d) => DriverKeepsInv(u, d0, s, d);
    case OnClient(c) => ClientKeepsInv(u, d0, s, c);
    case Ask => AskKeepsInv(u, d0, s);
    case Answer => AnswerKeepsInv(u, d0, s);
    case Store(world, left) => StoreKeepsInv(u, d0, s, world, left);
    case FlushAll(fails) => FlushKeepsInv(u, d0, s, fails);
  }

  lemma StartInv(u: Setup, s: State)
    requires Start(u, s)
    ensures Inv(u, s.driver, s)
  {
    PR.StartInv();
    hide R.Reachable, P.Inv, T.Handed;
    assert Contents(u, []) == [] && EntriesOf(u, []) == [];
  }

  // ----- Where the records go -----

  lemma PopIsOnTheWay(d: D.State, q: Request)
    requires d.control.Draining?
    ensures OnTheWay(D.AfterDrainPop(d), q) == OnTheWay(d, q)
  {
    if d.list != [] { assert d.list == [d.list[0]] + d.list[1..]; }
  }

  lemma CopyIsOnTheWay(d: D.State, fault: bool, q: Request)
    requires d.control.DrainHolding? && q.Asked?
    ensures OnTheWay(D.AfterDrainCopy(d, fault), Observed(q, d, D.DrainCopy(fault))) == OnTheWay(d, q)
  {
    var rec := d.control.rec;
    assert q.handed + ([rec] + d.list) == (q.handed + [rec]) + ([] + d.list);
    assert [] + ([rec] + d.list) == [rec] + d.list;
  }

  lemma AppendIsOnTheWay(d: D.State, t: Tid, q: Request)
    requires t in d.pc && d.pc[t].Completing?
    ensures var d' := D.AfterAppend(d, t);
            d.log <= d'.log && OnTheWay(d', q) == OnTheWay(d, q) + d'.log[|d.log|..]
  {
  }

  /** A clearing that is left over takes the head of the list. */
  lemma SweepTakesHead(d: D.State, t: Tid, q: Request)
    requires t in d.pc && d.pc[t].Sweeping? && d.list != []
    ensures var d', front := D.AfterSweepPop(d, t), Underway(q) + InHand(d.control);
            && d'.log == d.log && d'.control == d.control
            && OnTheWay(d, q) == front + ([d.list[0]] + d'.list) && OnTheWay(d', q) == front + d'.list
  {
    assert d.list == [d.list[0]] + d.list[1..];
  }

  /** The steps that leave the list alone. */
  predicate LeavesList(d: D.State, step: D.Step) {
    !step.DrainPop? && !step.DrainCopy? && !step.Append? && (step.SweepPop? ==> d.list == [])
  }

  lemma AllocationLeavesList(d: D.State, step: D.Step)
    requires D.Enabled(d, step) && R.InAllocation(step)
    ensures D.Apply(d, step).log == d.log && D.Apply(d, step).list == d.list
  {
  }

  lemma EntryLeavesList(d: D.State, step: D.Step)
    requires D.Enabled(d, step) && R.WithEntry(step) && !step.Append?
    ensures D.Apply(d, step).log == d.log && D.Apply(d, step).list == d.list
  {
  }

  lemma SweepLeavesList(d: D.State, step: D.Step)
    requires D.Enabled(d, step) && R.InSweep(step) && LeavesList(d, step)
    ensures D.Apply(d, step).log == d.log && D.Apply(d, step).list == d.list
  {
  }

  lemma DrainLeavesList(d: D.State, step: D.Step)
    requires D.Enabled(d, step) && LeavesList(d, step) && InDrain(step)
    ensures var d' := D.Apply(d, step);
            d'.log == d.log && d'.list == d.list && InHand(d'.control) == InHand(d.control) == []
  {
  }

  lemma OtherStepsLeaveList(d: D.State, step: D.Step, q: Request)
    requires D.Enabled(d, step) && InSession(step) && LeavesList(d, step)
    requires if q.Idle? then d.control == D.Connected else DrainAt(d.control, |q.handed|)
    ensures var d' := D.Apply(d, step);
            d'.log == d.log && d'.list == d.list && InHand(d'.control) == InHand(d.control) && Observed(q, d, step) == q
  {
    hide D.Apply, D.Enabled, InSession, InDrain;
    if R.OnControl(step) {
      ControlDrains(d, step, if q.Idle? then 0 else |q.handed|);
      DrainLeavesList(d, step);
    } else {
      ThreadsLeaveControl(d, step);
      if R.InSweep(step) {
        SweepLeavesList(d, step);
      } else if R.InAllocation(step) {
        AllocationLeavesList(d, step);
      } else {
        EntryLeavesList(d, step);
      }
    }
  }

  /** Any other step of the driver loses and makes up no record, and keeps their order. */
  lemma DriverKeepsAll(d: D.State, step: D.Step, q: Request)
    requires D.Enabled(d, step) && InSession(step) && (step.SweepPop? ==> d.list == [])
    requires if q.Idle? then d.control == D.Connected else DrainAt(d.control, |q.handed|)
    ensures var d', q' := D.Apply(d, step), Observed(q, d, step);
            d.log <= d'.log && OnTheWay(d', q') == OnTheWay(d, q) + d'.log[|d.log|..]
  {
    hide OnTheWay;
    if step.DrainPop? {
      PopIsOnTheWay(d, q);
    } else if step.DrainCopy? {
      CopyIsOnTheWay(d, step.fault, q);
    } else if step.Append? {
      AppendIsOnTheWay(d, step.t, q);
    } else {
      hide DrainAt, D.Apply, D.Enabled, Observed, InSession;
      OtherStepsLeaveList(d, step, q);
      assert OnTheWay(D.Apply(d, step), q) == OnTheWay(d, q) by { SameWay(d, D.Apply(d, step), q); }
    }
  }

  lemma SameWay(d: D.State, d': D.State, q: Request)
    requires d'.list == d.list && InHand(d'.control) == InHand(d.control)
    ensures OnTheWay(d', q) == OnTheWay(d, q)
  {
  }

  /** One step: what has newly been appended comes last, and a clearing's pop takes one record out. */
  ghost predicate Moves(s: State, s': State, taken: seq<D.Stamp>) {
    && s.driver.log <= s'.driver.log
    && (taken == [] ==> Kept(s') == Kept(s) + s'.driver.log[|s.driver.log|..])
    && (taken != [] ==> s'.driver.log == s.driver.log && TakenOut(Kept(s), taken, Kept(s')))
  }

  ghost predicate TakenOut(whole: seq<D.Stamp>, part: seq<D.Stamp>, rest: seq<D.Stamp>) {
    exists k :: 0 <= k <= |rest| && whole == rest[..k] + part + rest[k..]
  }

  lemma TakesOut(a: seq<D.Stamp>, b: seq<D.Stamp>, front: seq<D.Stamp>, part: seq<D.Stamp>, list: seq<D.Stamp>)
    ensures TakenOut(a + (b + (front + (part + list))), part, a + (b + (front + list)))
  {
    var rest, k := a + (b + (front + list)), |a| + |b| + |front|;
    assert rest[..k] == a + b + front && rest[k..] == list;
    assert a + (b + (front + (part + list))) == rest[..k] + part + rest[k..];
  }

  lemma SweepMoves(s: State, t: Tid)
    requires t in s.driver.pc && s.driver.pc[t].Sweeping? && s.driver.list != []
    ensures Moves(s, AfterDriver(s, D.SweepPop(t)), [s.driver.list[0]])
  {
    var d, q := s.driver, s.request;
    SweepTakesHead(d, t, q);
    hide OnTheWay, TakenOut;
    TakesOut(s.delivered, s.lost, Underway(q) + InHand(d.control), [d.list[0]], D.AfterSweepPop(d, t).list);
  }

  lemma AllKeptMoves(s: State, step: D.Step)
    requires RequestInv(s) && D.Enabled(s.driver, step) && InSession(step)
    requires step.SweepPop? ==> s.driver.list == []
    ensures Moves(s, AfterDriver(s, step), [])
  {
    hide DrainAt, InSession, OnTheWay, TakenOut, D.Apply, D.Enabled, Observed;
    DriverKeepsAll(s.driver, step, s.request);
    var way, more := OnTheWay(s.driver, s.request), D.Apply(s.driver, step).log[|s.driver.log|..];
    assert s.delivered + (s.lost + (way + more)) == s.delivered + (s.lost + way) + more;
  }

  lemma DriverMoves(s: State, step: D.Step)
    requires RequestInv(s) && D.Enabled(s.driver, step) && InSession(step)
    ensures Moves(s, AfterDriver(s, step), Popped(s.driver, OnDriver(step)))
  {
    hide RequestInv, InSession, Moves, AfterDriver, D.Apply;
    if PopsRecord(s.driver, OnDriver(step)) {
      SweepMoves(s, step.t);
    } else {
      AllKeptMoves(s, step);
    }
  }

  lemma SameKeptMoves(s: State, s': State)
    requires s'.driver.log == s.driver.log && Kept(s') == Kept(s)
    ensures Moves(s, s', [])
  {
    assert s'.driver.log[|s.driver.log|..] == [];
    hide Kept;
    assert Kept(s) + [] == Kept(s);
  }

  lemma AskKeeps(s: State)
    requires RequestInv(s) && s.request.Idle? && D.Enabled(s.driver, D.DrainStart(REPLY_SIZE))
    ensures AfterAsk(s).driver.log == s.driver.log && Kept(AfterAsk(s)) == Kept(s)
  {
  }

  lemma AnswerKeeps(u: Setup, s: State)
    requires RequestInv(s) && s.request.Asked? && s.driver.control.Connected?
    ensures Kept(AfterAnswer(u, s)) == Kept(s)
  {
    hide ReplyTo, P.AfterFetch;
    var handed, list := s.request.handed, s.driver.list;
    assert s.lost == [];
    assert s.delivered + (s.lost + (handed + ([] + list))) == (s.delivered + handed) + (s.lost + ([] + ([] + list)));
    assert handed + ([] + list) == handed + ([] + ([] + list));
    assert s.lost + handed == handed;
  }

  lemma StepMoves(u: Setup, s: State, step: Step)
    requires RequestInv(s) && Enabled(u, s, step)
    ensures Moves(s, Apply(u, s, step), Popped(s.driver, step))
  {
    hide D.Enabled, P.Enabled, P.Apply, InSession, OnItsOwn, RequestInv, Moves;
    match step
    case OnDriver(d) => DriverMoves(s, d);
    case OnClient(c) => SameKeptMoves(s, AfterClient(s, c));
    case Ask =>
      AskKeeps(s);
      SameKeptMoves(s, AfterAsk(s));
    case Answer =>
      AnswerKeeps(u, s);
      hide Kept;
      SameKeptMoves(s, AfterAnswer(u, s));
    case Store(world, left) => SameKeptMoves(s, AfterStore(u, s, world, left));
    case FlushAll(fails) => SameKeptMoves(s, AfterFlush(s, fails));
  }
}
