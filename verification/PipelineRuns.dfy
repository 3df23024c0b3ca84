/**
 What every run of the client's threads keeps, that no run gets stuck, and that shutdown ends.
 */
module PipelineRuns {
  import opened Common
  import opened Records
  import opened Pipeline

  // ----- Steps keep the threads and the queue in step -----

  lemma NotifyKeepsKeys<T>(ws: Q.Waiters<T>, wake: Option<Tid>)
    ensures Q.NotifyOne(ws, wake).Keys == ws.Keys
  {
  }

  lemma PushWaiters(q: Q.State<Batch>, batch: Batch, wake: Option<Tid>)
    requires q.pushers.Keys <= {DRAINER}
    ensures Q.AfterPush(q, DRAINER, batch, wake).poppers.Keys == q.poppers.Keys
    ensures Q.AfterPush(q, DRAINER, batch, wake).pushers.Keys == if Q.Room(q) then {} else {DRAINER}
  {
    NotifyKeepsKeys(q.poppers, wake);
  }

  lemma PushKeepsSync(s: State, batch: Batch, wake: Option<Tid>)
    requires SyncInv(s) && Q.CanWake(s.queue.poppers, wake)
    requires s.drainer.Pushing? || (s.drainer.PushWaiting? && s.queue.pushers[DRAINER].Woken?)
    ensures SyncInv(AfterPush(s, batch, wake))
  {
    Q.PushKeepsInv(s.queue, DRAINER, batch, wake);
    PushWaiters(s.queue, batch, wake);
  }

  lemma PopWaiters(q: Q.State<Batch>, wake: Option<Tid>)
    requires q.poppers.Keys <= {WRITER}
    ensures Q.AfterPop(q, WRITER, wake).pushers.Keys == q.pushers.Keys
    ensures Q.AfterPop(q, WRITER, wake).poppers.Keys == if Q.Ready(q) then {} else {WRITER}
  {
    NotifyKeepsKeys(q.pushers, wake);
  }

  lemma PopKeepsSync(s: State, wake: Option<Tid>)
    requires SyncInv(s) && Q.CanWake(s.queue.pushers, wake)
    requires s.writer.Popping? || (s.writer.PopWaiting? && s.queue.poppers[WRITER].Woken?)
    ensures SyncInv(AfterPop(s, wake))
  {
    Q.PopKeepsInv(s.queue, WRITER, wake);
    PopWaiters(s.queue, wake);
  }

  lemma CloseKeepsWaiters(q: Q.State<Batch>)
    requires Q.Inv(q)
    ensures Q.Inv(Q.AfterClose(q))
    ensures Q.AfterClose(q).pushers.Keys == q.pushers.Keys && Q.AfterClose(q).poppers.Keys == q.poppers.Keys
  {
    Q.CloseKeepsInv(q);
  }

  lemma SpuriousKeepsSync(s: State, pusher: bool)
    requires SyncInv(s) && Enabled(s, SpuriousWake(pusher))
    ensures SyncInv(Apply(s, SpuriousWake(pusher)))
  {
    Q.SpuriousWakeKeepsInv(s.queue, if pusher then DRAINER else WRITER, pusher);
    var q := Apply(s, SpuriousWake(pusher)).queue;
    assert q.pushers.Keys == s.queue.pushers.Keys && q.poppers.Keys == s.queue.poppers.Keys;
  }

  lemma StepKeepsSync(s: State, step: Step)
    requires SyncInv(s) && Enabled(s, step)
    ensures SyncInv(Apply(s, step))
  {
    hide Q.AfterPush, Q.AfterPop, Q.AfterSpuriousWake, Q.Inv;
    match step
    case CheckStop =>
    case Fetch(_) =>
    case CountCaptured =>
    case Push(wake) => PushKeepsSync(s, s.drainer.batch, wake);
    case RetryPush(wake) => PushKeepsSync(s, s.queue.pushers[DRAINER].item, wake);
    case WakeUp =>
    case CloseQueue => CloseKeepsWaiters(s.queue);
    case Pop(wake) => PopKeepsSync(s, wake);
    case RetryPop(wake) => PopKeepsSync(s, wake);
    case Write(_) =>
    case Flush =>
    case CountWritten =>
    case StoreStop =>
    case CloseAfterFailure => CloseKeepsWaiters(s.queue);
    case RequestStop =>
    case SpuriousWake(pusher) => SpuriousKeepsSync(s, pusher);
  }

  // ----- Steps keep every batch accounted for -----

  lemma AppendedBatch(batches: seq<Batch>, batch: Batch)
    ensures Total(batches + [batch]) == Total(batches) + |batch|
    ensures Flatten(batches + [batch]) == Flatten(batches) + batch
  {
    assert (batches + [batch])[..|batches|] == batches;
  }

  lemma Nothing<T>(a: seq<T>)
    ensures a + [] == a
  {
  }

  lemma PushKeepsBatches(s: State, batch: Batch, wake: Option<Tid>)
    requires SyncInv(s) && BatchInv(s) && WithDrainer(s) == [batch]
    requires s.drainer.Pushing? || s.drainer.PushWaiting?
    ensures BatchInv(AfterPush(s, batch, wake))
  {
    var s' := AfterPush(s, batch, wake);
    if !Q.Room(s.queue) {
      assert WithDrainer(s') == [batch];
    } else if s.queue.closed {
      assert WithDrainer(s') == [batch];
    } else {
      assert WithDrainer(s') == [] && s'.queue.pushed == s.queue.pushed + [batch];
      Nothing(s'.queue.pushed);
    }
  }

  lemma PopKeepsDrainersBatch(s: State, wake: Option<Tid>)
    requires SyncInv(s)
    ensures WithDrainer(AfterPop(s, wake)) == WithDrainer(s)
  {
    hide Q.Inv;
    if DRAINER in s.queue.pushers {
      assert AfterPop(s, wake).queue.pushers[DRAINER].item == s.queue.pushers[DRAINER].item;
    }
  }

  lemma PopKeepsBatches(s: State, wake: Option<Tid>)
    requires SyncInv(s) && BatchInv(s) && (s.writer.Popping? || s.writer.PopWaiting?)
    ensures BatchInv(AfterPop(s, wake))
  {
    PopKeepsDrainersBatch(s, wake);
    Nothing(s.committed);
  }

  /** The threads' own steps pass each batch on once. */
  lemma LocalKeepsBatches(s: State, step: Step)
    requires SyncInv(s) && BatchInv(s) && Enabled(s, step)
    requires !step.Push? && !step.RetryPush? && !step.Pop? && !step.RetryPop?
    ensures BatchInv(Apply(s, step))
  {
    hide Q.Inv;
    var s' := Apply(s, step);
    if step.Fetch? {
      Nothing(s.queue.pushed);
    } else if step.CountWritten? {
      Nothing(s.committed + [s.writer.batch]);
    } else {
      assert WithDrainer(s') == WithDrainer(s) && WithWriter(s'.writer) == WithWriter(s.writer);
    }
  }

  lemma StepKeepsBatches(s: State, step: Step)
    requires SyncInv(s) && BatchInv(s) && Enabled(s, step)
    ensures BatchInv(Apply(s, step))
  {
    if step.Push? || step.RetryPush? {
      PushKeepsBatches(s, WithDrainer(s)[0], step.wake);
    } else if step.Pop? || step.RetryPop? {
      PopKeepsBatches(s, step.wake);
    } else {
      LocalKeepsBatches(s, step);
    }
  }

  lemma WriteKeepsOutput(s: State, ok: bool)
    requires OutputInv(s) && s.writer.Writing? && s.writer.count < |s.writer.batch|
    ensures OutputInv(AfterWrite(s, ok))
  {
    var batch, count := s.writer.batch, s.writer.count;
    assert batch[..count + 1] == batch[..count] + [batch[count]];
    assert Flatten(s.committed) + (batch[..count] + [batch[count]])
        == Flatten(s.committed) + batch[..count] + [batch[count]];
  }

  lemma StepKeepsOutput(s: State, step: Step)
    requires SyncInv(s) && OutputInv(s) && Enabled(s, step)
    ensures OutputInv(Apply(s, step))
  {
    hide Q.AfterPush, Q.AfterPop, Q.AfterClose, Q.AfterSpuriousWake, Q.Inv, Total, Flatten;
    if step.CountWritten? {
      AppendedBatch(s.committed, s.writer.batch);
      Nothing(Flatten(s.committed) + s.writer.batch);
    } else if step.Write? {
      WriteKeepsOutput(s, step.ok);
    } else if !step.Pop? && !step.RetryPop? {
      assert Accepted(Apply(s, step).writer) == Accepted(s.writer);
    }
  }

  lemma StepKeepsCounts(s: State, step: Step)
    requires SyncInv(s) && CountInv(s) && Enabled(s, step)
    ensures CountInv(Apply(s, step))
  {
    hide Q.AfterPush, Q.AfterPop, Q.AfterClose, Q.AfterSpuriousWake, Q.Inv, Total, Flatten;
    if step.Fetch? && step.reply.Fetched? {
      AppendedBatch(s.fetched, step.reply.records);
    } else if step.CountWritten? {
      AppendedBatch(s.committed, s.writer.batch);
    }
  }

  lemma StepKeepsInv(s: State, step: Step)
    requires Inv(s) && Enabled(s, step)
    ensures Inv(Apply(s, step))
  {
    StepKeepsSync(s, step);
    StepKeepsBatches(s, step);
    StepKeepsOutput(s, step);
    StepKeepsCounts(s, step);
  }

  lemma StartInv()
    ensures Inv(Start())
  {
    Q.NewInv<Batch>(BATCH_COUNT);
  }

  /** Both threads have returned. */
  predicate Finished(s: State) {
    s.drainer.DrainerDone? && (s.writer.WriterDone? || s.writer.WriterFailed?)
  }

  // ----- Runs -----

  /** A piece of a run: consecutive states and the steps between them. */
  ghost predicate IsFragment(run: seq<State>, steps: seq<Step>) {
    && |run| == |steps| + 1
    && (forall i :: 0 <= i < |steps| ==> Enabled(run[i], steps[i]) && run[i + 1] == Apply(run[i], steps[i]))
  }

  ghost predicate IsRun(run: seq<State>, steps: seq<Step>) {
    IsFragment(run, steps) && run[0] == Start()
  }

  lemma {:induction false} RunKeepsInv(run: seq<State>, steps: seq<Step>, i: nat)
    requires IsRun(run, steps) && i < |run|
    ensures Inv(run[i])
  {
    if i == 0 {
      StartInv();
    } else {
      RunKeepsInv(run, steps, i - 1);
      StepKeepsInv(run[i - 1], steps[i - 1]);
    }
  }

  // ----- Exactly once, in order -----

  lemma {:induction false} TotalOfSum(a: seq<Batch>, b: seq<Batch>)
    ensures Total(a + b) == Total(a) + Total(b)
  {
    if b == [] {
      assert a + b == a;
    } else {
      assert (a + b)[..|a + b| - 1] == a + b[..|b| - 1];
      TotalOfSum(a, b[..|b| - 1]);
    }
  }

  lemma {:induction false} FlattenOfSum(a: seq<Batch>, b: seq<Batch>)
    ensures Flatten(a + b) == Flatten(a) + Flatten(b)
  {
    if b == [] {
      assert a + b == a;
    } else {
      assert (a + b)[..|a + b| - 1] == a + b[..|b| - 1];
      FlattenOfSum(a, b[..|b| - 1]);
    }
  }

  /** At every moment the captured records are the written ones, the queued ones, and those the
      two threads hold, a refused or failed batch included. */
  lemma CapturedIsAccountedFor(run: seq<State>, steps: seq<Step>, i: nat)
    requires IsRun(run, steps) && i < |run|
    ensures var s := run[i];
            s.captured == s.written + Total(WithWriter(s.writer)) + Total(s.queue.items)
                          + (if s.drainer.Counting? then 0 else Total(WithDrainer(s)))
  {
    RunKeepsInv(run, steps, i);
    Accounted(run[i]);
  }

  lemma Accounted(s: State)
    requires Inv(s)
    ensures s.captured == s.written + Total(WithWriter(s.writer)) + Total(s.queue.items)
                          + (if s.drainer.Counting? then 0 else Total(WithDrainer(s)))
  {
    assert s.queue.pushed == s.queue.popped + s.queue.items;
    hide Q.Inv, OutputInv;
    TotalOfSum(s.queue.pushed, WithDrainer(s));
    TotalOfSum(s.queue.popped, s.queue.items);
    TotalOfSum(s.committed, WithWriter(s.writer));
    if s.drainer.Counting? {
      OneBatch(s.drainer.batch);
    }
  }

  lemma OneBatch(batch: Batch)
    ensures Flatten([batch]) == batch && Total([batch]) == |batch|
  {
    assert [batch][..0] == [];
    assert [] + batch == batch;
  }

  lemma AcceptedIsPartOfBatch(w: WriterPc)
    ensures Accepted(w) <= Flatten(WithWriter(w))
  {
    hide Flatten;
    if WithWriter(w) != [] {
      OneBatch(WithWriter(w)[0]);
    }
  }

  /** The sink's content is always a prefix of what the driver delivered, in order. */
  lemma OutputIsPrefix(run: seq<State>, steps: seq<Step>, i: nat)
    requires IsRun(run, steps) && i < |run|
    ensures run[i].output <= Flatten(run[i].fetched)
  {
    RunKeepsInv(run, steps, i);
    AcceptedSoFar(run[i]);
  }

  lemma AcceptedSoFar(s: State)
    requires Inv(s)
    ensures s.output <= Flatten(s.fetched)
  {
    FlattenOfSum(s.queue.pushed, WithDrainer(s));
    FlattenOfSum(s.queue.popped, s.queue.items);
    FlattenOfSum(s.committed, WithWriter(s.writer));
    AcceptedIsPartOfBatch(s.writer);
    PrefixExtends(Flatten(s.committed), Accepted(s.writer), Flatten(WithWriter(s.writer)),
                  Flatten(s.queue.items) + Flatten(WithDrainer(s)));
  }

  lemma PrefixExtends<T>(a: seq<T>, part: seq<T>, whole: seq<T>, rest: seq<T>)
    requires part <= whole
    ensures a + part <= a + whole + rest
  {
  }

  /** The writer stands where only a failed write leads. */
  lemma {:induction false} FailureMeansFailedWrite(run: seq<State>, steps: seq<Step>, i: nat) returns (j: nat)
    requires IsRun(run, steps) && i < |run| && HasFailed(run[i].writer)
    ensures j < i && steps[j] == Write(false)
    decreases i
  {
    if i == 0 {
      assert false;
    } else if HasFailed(run[i - 1].writer) {
      j := FailureMeansFailedWrite(run, steps, i - 1);
    } else {
      StepsIntoFailure(run[i - 1], steps[i - 1]);
      j := i - 1;
    }
  }

  lemma StepsIntoFailure(s: State, step: Step)
    requires Enabled(s, step) && !HasFailed(s.writer) && HasFailed(Apply(s, step).writer)
    ensures step == Write(false)
  {
  }

  predicate NoWriteFails(steps: seq<Step>, n: nat)
    requires n <= |steps|
  {
    forall j :: 0 <= j < n ==> steps[j] != Write(false)
  }

  /** In a run in which no write fails, once both threads have returned every fetched batch has been
      written once and in order, and captured equals written. */
  lemma CleanExitDeliversAll(run: seq<State>, steps: seq<Step>, i: nat)
    requires IsRun(run, steps) && i < |run| && NoWriteFails(steps, i) && Finished(run[i])
    ensures run[i].writer.WriterDone?
    ensures run[i].committed == run[i].fetched
    ensures run[i].output == Flatten(run[i].fetched)
    ensures run[i].captured == run[i].written
  {
    if HasFailed(run[i].writer) {
      var j := FailureMeansFailedWrite(run, steps, i);
      assert false;
    }
    RunKeepsInv(run, steps, i);
    AllWritten(run[i]);
  }

  lemma AllWritten(s: State)
    requires Inv(s) && Finished(s) && !HasFailed(s.writer)
    ensures s.writer.WriterDone? && s.committed == s.fetched
    ensures s.output == Flatten(s.fetched) && s.captured == s.written
  {
  }

  /** Push refuses a batch only because a write had failed. */
  lemma RefusalMeansWriteFailure(run: seq<State>, steps: seq<Step>, i: nat)
    requires IsRun(run, steps) && i < |run|
    requires run[i].drainer.DrainerClosing? || run[i].drainer.DrainerDone?
    requires run[i].drainer.refused != []
    ensures run[i].writer.WriterFailed? && run[i].stop
  {
    RunKeepsInv(run, steps, i);
  }

  // ----- No deadlock -----

  lemma SomeoneToWake<T(!new)>(ws: Q.Waiters<T>) returns (wake: Option<Tid>)
    ensures Q.CanWake(ws, wake)
  {
    wake := None;
    if t :| t in ws && ws[t].Asleep? {
      wake := Some(t);
    }
  }

  lemma OnlyWaiter<T(!new)>(ws: Q.Waiters<T>, t: Tid)
    requires ws.Keys == {t} && ws[t].Asleep?
    ensures Q.Sleeping(ws) == 1 && Q.Awake(ws) == 0
  {
    assert At(ws, Q.Sleeps<T>) == {t};
    assert At(ws, Q.IsWoken<T>) == {};
  }

  lemma DrainerMoves(s: State)
    requires Inv(s) && !s.drainer.DrainerDone?
    requires s.drainer.PushWaiting? ==> s.queue.pushers[DRAINER].Woken?
    ensures exists step :: OfThread(step) && Enabled(s, step)
  {
    hide Q.Inv, BatchInv, OutputInv, CountInv;
    var wake := SomeoneToWake(s.queue.poppers);
    match s.drainer
    case Checking => assert Enabled(s, CheckStop);
    case Fetching => assert Enabled(s, Fetch(Reply.Failed));
    case Counting(_) => assert Enabled(s, CountCaptured);
    case Pushing(_) => assert Enabled(s, Push(wake));
    case PushWaiting => assert Enabled(s, RetryPush(wake));
    case Polling => assert Enabled(s, WakeUp);
    case DrainerClosing(_) => assert Enabled(s, CloseQueue);
  }

  lemma WriterMoves(s: State)
    requires Inv(s) && !s.writer.WriterDone? && !s.writer.WriterFailed?
    requires s.writer.PopWaiting? ==> s.queue.poppers[WRITER].Woken?
    ensures exists step :: OfThread(step) && Enabled(s, step)
  {
    hide Q.Inv, BatchInv, CountInv;
    var wake := SomeoneToWake(s.queue.pushers);
    match s.writer
    case Popping => assert Enabled(s, Pop(wake));
    case PopWaiting => assert Enabled(s, RetryPop(wake));
    case Writing(_, _) => assert Enabled(s, Write(true)) || Enabled(s, Flush);
    case Tallying(_) => assert Enabled(s, CountWritten);
    case Stopping(_, _) => assert Enabled(s, StoreStop);
    case WriterClosing(_, _) => assert Enabled(s, CloseAfterFailure);
  }

  /** Some thread can take a step. */
  ghost predicate CanGoOn(s: State) {
    exists step :: OfThread(step) && Enabled(s, step)
  }

  /** Short of the end one of the two threads can go on by itself, and at the end neither can. */
  lemma GoesOnUntilFinished(s: State)
    requires Inv(s)
    ensures CanGoOn(s) <==> !Finished(s)
  {
    if !Finished(s) {
      var drainerSleeps := s.drainer.PushWaiting? && s.queue.pushers[DRAINER].Asleep?;
      var writerSleeps := s.writer.PopWaiting? && s.queue.poppers[WRITER].Asleep?;
      if drainerSleeps {
        OnlyWaiter(s.queue.pushers, DRAINER);
      }
      if writerSleeps {
        OnlyWaiter(s.queue.poppers, WRITER);
      }
      if !s.drainer.DrainerDone? && !drainerSleeps {
        DrainerMoves(s);
      } else {
        WriterMoves(s);
      }
    }
  }

  lemma NoDeadlock(run: seq<State>, steps: seq<Step>, i: nat)
    requires IsRun(run, steps) && i < |run|
    ensures CanGoOn(run[i]) <==> !Finished(run[i])
  {
    RunKeepsInv(run, steps, i);
    GoesOnUntilFinished(run[i]);
  }

  // ----- Shutdown -----

  /** The stop flag is set, or the drainer has left its loop for a reason of its own: a failed
      request or a refused batch. */
  predicate ShuttingDown(s: State) {
    s.stop || s.drainer.DrainerClosing? || s.drainer.DrainerDone?
  }

  function Cost(batches: seq<Batch>): nat {
    if batches == [] then 0 else |batches[0]| + 4 + Cost(batches[1..])
  }

  function WriterRank(s: State): nat {
    match s.writer
    case WriterDone => 0
    case WriterFailed(_, _) => 0
    case PopWaiting => if WRITER in s.queue.poppers && s.queue.poppers[WRITER].Woken? then 2 else 1
    case Popping => 2
    case WriterClosing(_, _) => 3
    case Tallying(_) => 3
    case Stopping(_, _) => 4
    case Writing(batch, count) => if count <= |batch| then 4 + |batch| - count else 4
  }

  function DrainerRank(s: State): nat {
    match s.drainer
    case DrainerDone(_) => 0
    case DrainerClosing(_) => 2
    case Checking => 3
    case Polling => 4
    case PushWaiting =>
      if DRAINER in s.queue.pushers then
        |s.queue.pushers[DRAINER].item| + (if s.queue.pushers[DRAINER].Woken? then 11 else 10)
      else 10
    case Pushing(batch) => |batch| + 11
    case Counting(batch) => |batch| + 12
    case Fetching => RECORD_COUNT + 13
  }

  /** An upper bound on the steps both threads still take once shutting down. */
  function Remaining(s: State): nat {
    Cost(s.queue.items) + WriterRank(s) + DrainerRank(s)
  }

  lemma {:induction false} CostOfAppend(batches: seq<Batch>, batch: Batch)
    ensures Cost(batches + [batch]) == Cost(batches) + |batch| + 4
  {
    if batches == [] {
      assert [] + [batch] == [batch];
    } else {
      assert (batches + [batch])[1..] == batches[1..] + [batch];
      CostOfAppend(batches[1..], batch);
    }
  }

  lemma PushCosts(s: State, batch: Batch, wake: Option<Tid>)
    requires Inv(s) && WithDrainer(s) == [batch] && Q.CanWake(s.queue.poppers, wake)
    requires s.drainer.Pushing? || (s.drainer.PushWaiting? && s.queue.pushers[DRAINER].Woken?)
    ensures Remaining(AfterPush(s, batch, wake)) < Remaining(s)
  {
    hide Q.Inv, BatchInv, OutputInv, CountInv;
    CostOfAppend(s.queue.items, batch);
    var s' := AfterPush(s, batch, wake);
    assert s'.queue.poppers.Keys == s.queue.poppers.Keys;
    assert WriterRank(s') <= WriterRank(s) + 1;
  }

  /** Waking the drainer costs one step at most. */
  lemma NotifiedDrainer(s: State, wake: Option<Tid>)
    requires SyncInv(s) && Q.CanWake(s.queue.pushers, wake)
    ensures DrainerRank(AfterPop(s, wake)) <= DrainerRank(s) + 1
  {
    hide Q.Inv, BatchInv, OutputInv, CountInv;
  }

  lemma PopCosts(s: State, wake: Option<Tid>)
    requires Inv(s) && Q.CanWake(s.queue.pushers, wake)
    requires s.writer.Popping? || (s.writer.PopWaiting? && s.queue.poppers[WRITER].Woken?)
    ensures Remaining(AfterPop(s, wake)) < Remaining(s)
  {
    hide Q.Inv, BatchInv, OutputInv, CountInv;
    NotifiedDrainer(s, wake);
  }

  lemma CloseCosts(s: State, step: Step)
    requires Inv(s) && Enabled(s, step) && (step.CloseQueue? || step.CloseAfterFailure?)
    ensures Remaining(Apply(s, step)) < Remaining(s)
  {
    hide Q.Inv, BatchInv, OutputInv, CountInv;
  }

  lemma DrainerStepCosts(s: State, step: Step)
    requires Inv(s) && ShuttingDown(s) && Enabled(s, step)
    requires step.CheckStop? || step.Fetch? || step.CountCaptured? || step.WakeUp?
    ensures Remaining(Apply(s, step)) < Remaining(s)
  {
    hide Q.Inv, BatchInv, OutputInv, CountInv;
    assert WriterRank(Apply(s, step)) == WriterRank(s);
  }

  lemma WriterStepCosts(s: State, step: Step)
    requires Inv(s) && ShuttingDown(s) && Enabled(s, step)
    requires step.Write? || step.Flush? || step.CountWritten? || step.StoreStop?
    ensures Remaining(Apply(s, step)) < Remaining(s)
  {
    hide Q.Inv, BatchInv, OutputInv, CountInv;
    assert DrainerRank(Apply(s, step)) == DrainerRank(s);
  }

  lemma ShutdownIsFinal(s: State, step: Step)
    requires Enabled(s, step) && ShuttingDown(s)
    ensures ShuttingDown(Apply(s, step))
  {
  }

  /** Once shutting down, every step of either thread brings the end closer. */
  lemma ThreadStepCosts(s: State, step: Step)
    requires Inv(s) && ShuttingDown(s) && Enabled(s, step) && OfThread(step)
    ensures Remaining(Apply(s, step)) < Remaining(s)
  {
    if step.Push? || step.RetryPush? {
      PushCosts(s, WithDrainer(s)[0], step.wake);
    } else if step.Pop? || step.RetryPop? {
      PopCosts(s, step.wake);
    } else if step.CloseQueue? || step.CloseAfterFailure? {
      CloseCosts(s, step);
    } else if step.CheckStop? || step.Fetch? || step.CountCaptured? || step.WakeUp? {
      DrainerStepCosts(s, step);
    } else {
      WriterStepCosts(s, step);
    }
  }

  lemma OtherStepCosts(s: State, step: Step)
    requires Inv(s) && ShuttingDown(s) && Enabled(s, step) && !OfThread(step)
    ensures Remaining(Apply(s, step)) <= Remaining(s) + Bit(step.SpuriousWake?)
  {
    hide Q.Inv, BatchInv, OutputInv, CountInv;
  }

  function ThreadSteps(steps: seq<Step>): nat {
    if steps == [] then 0 else ThreadSteps(steps[..|steps| - 1]) + Bit(OfThread(steps[|steps| - 1]))
  }

  function SpuriousWakes(steps: seq<Step>): nat {
    if steps == [] then 0 else SpuriousWakes(steps[..|steps| - 1]) + Bit(steps[|steps| - 1].SpuriousWake?)
  }

  /** From the moment the stop flag is set or the drainer has left its loop the two threads together
      take at most Remaining + (spurious wake-ups) further steps; with no deadlock on the way, a run
      in which the system wakes nobody for nothing forever ends with both threads finished. */
  lemma {:induction false} ShutdownTerminates(run: seq<State>, steps: seq<Step>)
    requires IsFragment(run, steps) && Inv(run[0]) && ShuttingDown(run[0])
    ensures Inv(run[|steps|]) && ShuttingDown(run[|steps|])
    ensures ThreadSteps(steps) + Remaining(run[|steps|]) <= Remaining(run[0]) + SpuriousWakes(steps)
  {
    if steps != [] {
      var n := |steps| - 1;
      ShutdownTerminates(run[..|run| - 1], steps[..n]);
      var s := run[n];
      assert run[n + 1] == Apply(s, steps[n]);
      StepKeepsInv(s, steps[n]);
      ShutdownIsFinal(s, steps[n]);
      if OfThread(steps[n]) {
        ThreadStepCosts(s, steps[n]);
      } else {
        OtherStepCosts(s, steps[n]);
      }
    }
  }

  /** Once shutting down: whenever the threads have run as far as they can, both have returned, and they
      get there within the bound. */
  lemma ShutdownFinishes(run: seq<State>, steps: seq<Step>)
    requires IsFragment(run, steps) && Inv(run[0]) && ShuttingDown(run[0])
    ensures ThreadSteps(steps) <= Remaining(run[0]) + SpuriousWakes(steps)
    ensures Finished(run[|steps|]) <==> !CanGoOn(run[|steps|])
    ensures ThreadSteps(steps) == Remaining(run[0]) + SpuriousWakes(steps) ==> Finished(run[|steps|])
  {
    ShutdownTerminates(run, steps);
    GoesOnUntilFinished(run[|steps|]);
    hide Inv, CanGoOn, IsFragment, ThreadSteps, SpuriousWakes;
    SpentMeansFinished(run[|steps|]);
  }

  lemma SpentMeansFinished(s: State)
    ensures Remaining(s) == 0 ==> Finished(s)
  {
  }

  /** From any state of a shutdown the threads by themselves reach the end within the bound. */
  lemma {:induction false} EndIsReached(s: State) returns (run: seq<State>, steps: seq<Step>)
    requires Inv(s) && ShuttingDown(s)
    ensures IsFragment(run, steps) && run[0] == s && Finished(run[|steps|])
    ensures |steps| <= Remaining(s) && forall i :: 0 <= i < |steps| ==> OfThread(steps[i])
    decreases Remaining(s)
  {
    GoesOnUntilFinished(s);
    if Finished(s) {
      run, steps := [s], [];
    } else {
      var step :| OfThread(step) && Enabled(s, step);
      ThreadStepCosts(s, step);
      StepKeepsInv(s, step);
      ShutdownIsFinal(s, step);
      hide Inv, Remaining, Finished, OfThread, Enabled;
      var rest, more := EndIsReached(Apply(s, step));
      StepThenFragment(s, step, rest, more);
      run, steps := [s] + rest, [step] + more;
    }
  }

  lemma StepThenFragment(s: State, step: Step, rest: seq<State>, more: seq<Step>)
    requires Enabled(s, step) && IsFragment(rest, more) && rest[0] == Apply(s, step)
    ensures IsFragment([s] + rest, [step] + more)
  {
    hide Enabled;
    var run, steps := [s] + rest, [step] + more;
    forall i | 0 <= i < |steps|
      ensures Enabled(run[i], steps[i]) && run[i + 1] == Apply(run[i], steps[i])
    {
      if 0 < i { assert run[i] == rest[i - 1] && steps[i] == more[i - 1] && run[i + 1] == rest[i]; }
    }
  }
}
