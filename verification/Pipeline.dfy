/**
 The client's two threads: one drains the driver into the queue, one writes the queue to the
 sink. They meet in the queue, the stop flag and the counter; the console handler and spurious
 wake-ups may come in between at any point.
 */
module Pipeline {
  import opened Common
  import Q = Queue
  import opened Records

  type Batch = seq<Record>

  const BATCH_COUNT: nat := 256
  const DRAINER: Tid := 0
  const WRITER: Tid := 1

  datatype DrainerPc =
    | Checking                      // before stopRequested.load()
    | Fetching                      // before GetRecords
    | Counting(batch: Batch)        // before AddCaptured
    | Pushing(batch: Batch)         // before Push
    | PushWaiting                   // inside Push, on notFull
    | Polling                       // sleeping
    | DrainerClosing(refused: seq<Batch>)
    | DrainerDone(refused: seq<Batch>)

  datatype WriterPc =
    | Popping                       // before Pop
    | PopWaiting                    // inside Pop, on notEmpty
    | Writing(batch: Batch, count: nat)
    | Tallying(batch: Batch)        // flushed, before AddWritten
    | Stopping(batch: Batch, count: nat)       // a write failed, before stopRequested.store
    | WriterClosing(batch: Batch, count: nat)
    | WriterFailed(batch: Batch, count: nat)   // returned false
    | WriterDone                    // returned true

  datatype State = State(
    queue: Q.State<Batch>,
    stop: bool,
    drainer: DrainerPc,
    writer: WriterPc,
    captured: nat,                  // counter.cpp
    written: nat,
    // history
    fetched: seq<Batch>,            // non-empty batches GetRecords returned
    committed: seq<Batch>,          // batches WriteRecords finished
    output: seq<Record>             // records the sink accepted, in order
  )

  function Start(): State {
    State(Q.New(BATCH_COUNT), false, Checking, Popping, 0, 0, [], [], [])
  }

  datatype Step =
    // the drainer
    | CheckStop
    | Fetch(reply: Reply)
    | CountCaptured
    | Push(wake: Option<Tid>)
    | RetryPush(wake: Option<Tid>)
    | WakeUp
    | CloseQueue
    // the writer
    | Pop(wake: Option<Tid>)
    | RetryPop(wake: Option<Tid>)
    | Write(ok: bool)
    | Flush
    | CountWritten
    | StoreStop
    | CloseAfterFailure
    // neither
    | RequestStop
    | SpuriousWake(pusher: bool)

  predicate OfThread(step: Step) { !step.RequestStop? && !step.SpuriousWake? }

  ghost predicate Enabled(s: State, step: Step) {
    match step
    case CheckStop => s.drainer.Checking?
    case Fetch(reply) => s.drainer.Fetching? && (reply.Fetched? ==> |reply.records| <= RECORD_COUNT)
    case CountCaptured => s.drainer.Counting?
    case Push(wake) => s.drainer.Pushing? && Q.CanWake(s.queue.poppers, wake)
    case RetryPush(wake) =>
      && s.drainer.PushWaiting? && DRAINER in s.queue.pushers && s.queue.pushers[DRAINER].Woken?
      && Q.CanWake(s.queue.poppers, wake)
    case WakeUp => s.drainer.Polling?
    case CloseQueue => s.drainer.DrainerClosing?
    case Pop(wake) => s.writer.Popping? && Q.CanWake(s.queue.pushers, wake)
    case RetryPop(wake) =>
      && s.writer.PopWaiting? && WRITER in s.queue.poppers && s.queue.poppers[WRITER].Woken?
      && Q.CanWake(s.queue.pushers, wake)
    case Write(_) => s.writer.Writing? && s.writer.count < |s.writer.batch|
    case Flush => s.writer.Writing? && s.writer.count == |s.writer.batch|
    case CountWritten => s.writer.Tallying?
    case StoreStop => s.writer.Stopping?
    case CloseAfterFailure => s.writer.WriterClosing?
    case RequestStop => true
    case SpuriousWake(pusher) => if pusher then DRAINER in s.queue.pushers else WRITER in s.queue.poppers
  }

  /** DrainLoop after Push returned or went to sleep. */
  function AfterPush(s: State, batch: Batch, wake: Option<Tid>): State {
    var q := Q.AfterPush(s.queue, DRAINER, batch, wake);
    s.(queue := q,
       drainer := if !Q.Room(s.queue) then PushWaiting
                  else if s.queue.closed then DrainerClosing([batch])
                  else if |batch| == RECORD_COUNT then Checking
                  else Polling)
  }

  /** WriteLoop after Pop returned or went to sleep. */
  function AfterPop(s: State, wake: Option<Tid>): State {
    s.(queue := Q.AfterPop(s.queue, WRITER, wake),
       writer := if !Q.Ready(s.queue) then PopWaiting
                 else if s.queue.items == [] then WriterDone
                 else Writing(s.queue.items[0], 0))
  }

  function AfterFetch(s: State, reply: Reply): State {
    if reply.Failed? then s.(drainer := DrainerClosing([]))
    else if reply.records == [] then s.(drainer := Polling)
    else s.(drainer := Counting(reply.records), fetched := s.fetched + [reply.records])
  }

  function AfterWrite(s: State, ok: bool): State
    requires s.writer.Writing? && s.writer.count < |s.writer.batch|
  {
    var batch, count := s.writer.batch, s.writer.count;
    if ok then s.(writer := Writing(batch, count + 1), output := s.output + [batch[count]])
    else s.(writer := Stopping(batch, count))
  }

  ghost function Apply(s: State, step: Step): State
    requires Enabled(s, step)
  {
    match step
    case CheckStop => s.(drainer := if s.stop then DrainerClosing([]) else Fetching)
    case Fetch(reply) => AfterFetch(s, reply)
    case CountCaptured => s.(drainer := Pushing(s.drainer.batch), captured := s.captured + |s.drainer.batch|)
    case Push(wake) => AfterPush(s, s.drainer.batch, wake)
    case RetryPush(wake) => AfterPush(s, s.queue.pushers[DRAINER].item, wake)
    case WakeUp => s.(drainer := Checking)
    case CloseQueue => s.(queue := Q.AfterClose(s.queue), drainer := DrainerDone(s.drainer.refused))
    case Pop(wake) => AfterPop(s, wake)
    case RetryPop(wake) => AfterPop(s, wake)
    case Write(ok) => AfterWrite(s, ok)
    case Flush => s.(writer := Tallying(s.writer.batch))
    case CountWritten =>
      s.(writer := Popping, written := s.written + |s.writer.batch|, committed := s.committed + [s.writer.batch])
    case StoreStop => s.(stop := true, writer := WriterClosing(s.writer.batch, s.writer.count))
    case CloseAfterFailure =>
      s.(queue := Q.AfterClose(s.queue), writer := WriterFailed(s.writer.batch, s.writer.count))
    case RequestStop => s.(stop := true)
    case SpuriousWake(pusher) => s.(queue := Q.AfterSpuriousWake(s.queue, if pusher then DRAINER else WRITER, pusher))
  }

  // ----- Where every batch is -----

  function Total(batches: seq<Batch>): nat {
    if batches == [] then 0 else Total(batches[..|batches| - 1]) + |batches[|batches| - 1]|
  }

  function Flatten(batches: seq<Batch>): seq<Record> {
    if batches == [] then [] else Flatten(batches[..|batches| - 1]) + batches[|batches| - 1]
  }

  /** What the drainer has fetched but not pushed, including what Push refused. */
  function WithDrainer(s: State): seq<Batch> {
    match s.drainer
    case Counting(batch) => [batch]
    case Pushing(batch) => [batch]
    case PushWaiting => if DRAINER in s.queue.pushers then [s.queue.pushers[DRAINER].item] else []
    case DrainerClosing(refused) => refused
    case DrainerDone(refused) => refused
    case Checking => []
    case Fetching => []
    case Polling => []
  }

  /** What the writer has popped but not committed, including what a failed write discarded. */
  function WithWriter(w: WriterPc): seq<Batch> {
    match w
    case Writing(batch, _) => [batch]
    case Tallying(batch) => [batch]
    case Stopping(batch, _) => [batch]
    case WriterClosing(batch, _) => [batch]
    case WriterFailed(batch, _) => [batch]
    case Popping => []
    case PopWaiting => []
    case WriterDone => []
  }

  /** The part of the writer's batch the sink has accepted. */
  function Accepted(w: WriterPc): seq<Record> {
    match w
    case Writing(batch, count) => if count <= |batch| then batch[..count] else []
    case Tallying(batch) => batch
    case Stopping(batch, count) => if count <= |batch| then batch[..count] else []
    case WriterClosing(batch, count) => if count <= |batch| then batch[..count] else []
    case WriterFailed(batch, count) => if count <= |batch| then batch[..count] else []
    case Popping => []
    case PopWaiting => []
    case WriterDone => []
  }

  predicate HasFailed(w: WriterPc) { w.Stopping? || w.WriterClosing? || w.WriterFailed? }

  /** Every fetched batch is pushed or with the drainer, every popped one committed or with the writer. */
  ghost predicate BatchInv(s: State) {
    && s.fetched == s.queue.pushed + WithDrainer(s)
    && s.queue.popped == s.committed + WithWriter(s.writer)
  }

  ghost predicate OutputInv(s: State) {
    && s.output == Flatten(s.committed) + Accepted(s.writer)
    && (s.writer.Writing? ==> s.writer.count <= |s.writer.batch|)
  }

  ghost predicate CountInv(s: State) {
    && s.captured + (if s.drainer.Counting? then |s.drainer.batch| else 0) == Total(s.fetched)
    && s.written == Total(s.committed)
  }

  ghost predicate SyncInv(s: State) {
    && Q.Inv(s.queue)
    && s.queue.capacity == BATCH_COUNT
    && s.queue.pushers.Keys == (if s.drainer.PushWaiting? then {DRAINER} else {})
    && s.queue.poppers.Keys == (if s.writer.PopWaiting? then {WRITER} else {})
    && (s.queue.closed <==> s.drainer.DrainerDone? || s.writer.WriterFailed?)
    && (s.writer.WriterDone? ==> s.queue.closed && s.queue.items == [])
    && ((s.drainer.DrainerClosing? || s.drainer.DrainerDone?) && s.drainer.refused != [] ==> s.writer.WriterFailed?)
    && (s.writer.WriterClosing? || s.writer.WriterFailed? ==> s.stop)
  }

  ghost predicate Inv(s: State) { SyncInv(s) && BatchInv(s) && OutputInv(s) && CountInv(s) }
}
