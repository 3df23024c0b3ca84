/**
 The two ways in which a session loses records do occur. The records a drain has copied before a
 later copy faults are off the list, and GetRecords fails, so the client never gets them. And a
 clearing that the previous client's disconnect left over takes what is appended for the next one.
 */
module EndToEndLosses {
  import opened Csv
  import opened Sink
  import opened EndToEnd
  import opened EndToEndRuns
  import opened EndToEndSteps
  import D = Driver
  import DR = DriverResets
  import R = DriverRuns
  import P = Pipeline

  ghost predicate Occurs(u: Setup, s: State) {
    exists run, steps :: IsSession(u, run, steps) && run[|steps|] == s
  }

  lemma StartOccurs(u: Setup, s: State)
    requires Start(u, s)
    ensures Occurs(u, s)
  {
    hide Start;
    assert IsSession(u, [s], []);
  }

  lemma NextOccurs(u: Setup, s: State, step: Step)
    requires Occurs(u, s) && Enabled(u, s, step)
    ensures Occurs(u, Apply(u, s, step))
  {
    hide Enabled, Apply, Start;
    var run, steps :| IsSession(u, run, steps) && run[|steps|] == s;
    var run', steps' := run + [Apply(u, s, step)], steps + [step];
    forall i | 0 <= i < |steps'|
      ensures Enabled(u, run'[i], steps'[i]) && run'[i + 1] == Apply(u, run'[i], steps'[i])
    {
      if i < |steps| {
        assert run'[i] == run[i] && run'[i + 1] == run[i + 1] && steps'[i] == steps[i];
      }
    }
    assert IsSession(u, run', steps');
  }

  /** A step of the driver alone, in the session. */
  lemma DriverGoesOn(u: Setup, s: State, step: D.Step) returns (s': State)
    requires Occurs(u, s) && D.Enabled(s.driver, step) && InSession(step)
    ensures Occurs(u, s') && s' == AfterDriver(s, step)
  {
    hide Occurs, D.Enabled, D.Apply, InSession, AfterDriver;
    NextOccurs(u, s, OnDriver(step));
    s' := AfterDriver(s, step);
  }

  lemma ChecksStop(u: Setup, s: State) returns (s': State)
    requires Occurs(u, s) && s.client.drainer.Checking? && !s.client.stop
    ensures Occurs(u, s') && s' == s.(client := s.client.(drainer := P.Fetching))
  {
    hide Occurs;
    NextOccurs(u, s, OnClient(P.CheckStop));
    s' := AfterClient(s, P.CheckStop);
  }

  lemma Asks(u: Setup, s: State) returns (s': State)
    requires Occurs(u, s) && s.client.drainer.Fetching? && s.request.Idle? && s.driver.control == D.Connected
    ensures Occurs(u, s') && s' == s.(driver := D.AfterDrainStart(s.driver, REPLY_SIZE), request := Asked([], false))
  {
    hide Occurs;
    NextOccurs(u, s, Ask);
    s' := AfterAsk(s);
  }

  /** The first steps of every session: the drainer asks for records. */
  lemma FirstRequest(u: Setup, s: State) returns (s': State)
    requires Start(u, s)
    ensures Occurs(u, s') && s'.lost == [] && s'.request == Asked([], false)
    ensures s'.driver == D.AfterDrainStart(s.driver, REPLY_SIZE)
  {
    hide Occurs, Start;
    StartOccurs(u, s);
    StartFields(u, s);
    var asking := ChecksStop(u, s);
    s' := Asks(u, asking);
  }

  /** The first state of a session on this driver. */
  function FirstState(u: Setup, d: D.State): State {
    State(d, P.Start(), Idle, map[BasePath(u.target) := u.base], Unsound(u.target, u.base), [], [])
  }

  /** Some session has two records listed when its first request arrives. */
  lemma AsksForTwo(u: Setup) returns (s: State)
    requires u.base <= Crlf(u.target.header)
    ensures Occurs(u, s) && s.lost == [] && s.request == Asked([], false)
    ensures s.driver.control == D.Draining(REPLY_SIZE, 0) && |s.driver.list| == 2
  {
    hide R.Reachable, Occurs;
    var d := DR.TwoRecordsAroundReset();
    s := FirstRequest(u, FirstState(u, d));
  }

  /** Only the driver's side of the session has moved, and it is at this point of a drain. */
  predicate Drains(s: State, s': State, control: D.Control, request: Request) {
    s'.driver.control == control && s'.request == request && s'.lost == s.lost
  }

  lemma Pops(u: Setup, s: State) returns (s': State)
    requires Occurs(u, s) && s.driver.control.Draining? && s.driver.list != []
    ensures Occurs(u, s') && s'.driver.list == s.driver.list[1..]
    ensures var c := s.driver.control;
            Drains(s, s', D.DrainHolding(c.size, c.written, s.driver.list[0]), s.request)
  {
    hide Occurs;
    s' := DriverGoesOn(u, s, D.DrainPop);
  }

  lemma Copies(u: Setup, s: State) returns (s': State)
    requires Occurs(u, s) && s.driver.control.DrainHolding? && s.request.Asked?
    requires D.RECORD_SIZE <= s.driver.control.size - s.driver.control.written
    ensures Occurs(u, s') && s'.driver.list == s.driver.list
    ensures var c := s.driver.control;
            Drains(s, s', D.DrainCopied(c.size, c.written), s.request.(handed := s.request.handed + [c.rec]))
  {
    hide Occurs;
    s' := DriverGoesOn(u, s, D.DrainCopy(false));
  }

  lemma Frees(u: Setup, s: State) returns (s': State)
    requires Occurs(u, s) && s.driver.control.DrainCopied?
    ensures Occurs(u, s') && s'.driver.list == s.driver.list
    ensures var c := s.driver.control;
            Drains(s, s', D.DrainReturning(c.size, c.written), s.request)
  {
    hide Occurs;
    s' := DriverGoesOn(u, s, D.DrainDecrement);
  }

  lemma GivesBack(u: Setup, s: State) returns (s': State)
    requires Occurs(u, s) && s.driver.control.DrainReturning?
    ensures Occurs(u, s') && s'.driver.list == s.driver.list
    ensures var c := s.driver.control;
            Drains(s, s', D.Draining(c.size, c.written + D.RECORD_SIZE), s.request)
  {
    hide Occurs;
    s' := DriverGoesOn(u, s, D.DrainGiveBack);
  }

  /** One record is handed over and the next popped. */
  lemma HoldsSecond(u: Setup) returns (s: State)
    requires u.base <= Crlf(u.target.header)
    ensures Occurs(u, s) && s.lost == [] && s.request.Asked? && |s.request.handed| == 1
    ensures s.driver.control.DrainHolding? && s.driver.control.written == D.RECORD_SIZE
    ensures s.driver.control.size == REPLY_SIZE
  {
    hide Occurs;
    var s0 := AsksForTwo(u);
    var s1 := Pops(u, s0);
    var s2 := Copies(u, s1);
    var s3 := Frees(u, s2);
    var s4 := GivesBack(u, s3);
    s := Pops(u, s4);
  }

  lemma Faults(u: Setup, s: State) returns (s': State)
    requires Occurs(u, s) && s.driver.control.DrainHolding? && s.request.Asked?
    requires D.RECORD_SIZE <= s.driver.control.size - s.driver.control.written
    ensures Occurs(u, s') && Drains(s, s', D.Connected, s.request.(faulted := true))
  {
    hide Occurs;
    s' := DriverGoesOn(u, s, D.DrainCopy(true));
  }

  lemma Answers(u: Setup, s: State) returns (s': State)
    requires Occurs(u, s) && s.request.Asked? && s.request.faulted && s.driver.control == D.Connected
    ensures Occurs(u, s') && s'.client.drainer.DrainerClosing? && s'.lost == s.lost + s.request.handed
  {
    hide Occurs, Contents;
    ReplyIsHanded(u, s.request);
    NextOccurs(u, s, Answer);
    hide ReplyTo;
    s' := AfterAnswer(u, s);
  }

  /** When the second copy of a drain faults, the first record is lost: it is off the list and
      GetRecords fails. */
  lemma FaultLosesRecords(u: Setup)
    requires u.base <= Crlf(u.target.header)
    ensures exists s :: Occurs(u, s) && s.client.drainer.DrainerClosing? && |s.lost| == 1
  {
    hide Occurs;
    var s0 := HoldsSecond(u);
    var s1 := Faults(u, s0);
    var s := Answers(u, s1);
    assert |s.lost| == 1;
  }

  /** A clearing left over from the previous client takes a record that was appended after the
      client of the session had connected. */
  lemma ClearingTakesRecord(u: Setup)
    requires u.base <= Crlf(u.target.header)
    ensures exists run: seq<State>, steps: seq<Step> ::
              && IsSession(u, run, steps) && Swept(run, steps, |steps|) != []
              && run[0].driver.published <= Swept(run, steps, |steps|)[0].position
  {
    hide R.Reachable;
    var d := DR.LateClearing();
    var s, step := FirstState(u, d), OnDriver(D.SweepPop(0));
    assert Enabled(u, s, step);
    hide Apply, Enabled;
    var run, steps := [s, Apply(u, s, step)], [step];
    assert IsSession(u, run, steps);
    assert Swept(run, steps, 0) == [] && Swept(run, steps, 1) == [] + [d.list[0]];
  }
}
