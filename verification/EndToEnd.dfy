/**
 One session from the operation callbacks to the files: the driver's threads, the client's two
 threads and the sink, interleaved in every possible way. They meet in the client's requests for
 records, each of which is one drain, and in the writes of its writer.
 */
module EndToEnd {
  import opened Payload
  import opened Csv
  import opened Sink
  import opened Records
  import D = Driver
  import R = DriverRuns
  import T = DriverTotals
  import P = Pipeline

  const REPLY_SIZE: nat := RECORD_COUNT * D.RECORD_SIZE

  /**
   What is fixed for a session: the output path, mode and header, what the base file took of the
   header when it was opened, what each appended record holds beside its two numbers, and the
   altitude and line a record is rendered to.
   */
  datatype Setup = Setup(target: Target, base: Text, data: nat -> seq<bv8>, render: Record -> Entry)

  /** GetRecords has not been called, or its drain has handed over these records so far. */
  datatype Request = Idle | Asked(handed: seq<D.Stamp>, faulted: bool)

  datatype State = State(
    driver: D.State,
    client: P.State,
    request: Request,
    files: Content,
    broken: set<Text>,         // streams with the failure bit set
    // history
    delivered: seq<D.Stamp>,   // records of the requests that succeeded
    lost: seq<D.Stamp>)        // records a drain handed over before its copy faulted

  /** The record as the client sees it. */
  function RecordAt(u: Setup, rec: D.Stamp): Record {
    Record(R.SequenceNumber(rec), T.DroppedRecords(rec), u.data(rec.position))
  }

  /** The client finds the low 32 bits of the creation number in the first field and of the drop total in the second. */
  lemma RecordHasNumbers(u: Setup, rec: D.Stamp)
    ensures RecordAt(u, rec).sequenceNumber as int == rec.id % 0x1_0000_0000
    ensures RecordAt(u, rec).droppedRecords as int == rec.drops % 0x1_0000_0000
    ensures RecordAt(u, rec).data == u.data(rec.position)
  {
  }

  function Contents(u: Setup, batch: seq<D.Stamp>): (r: seq<Record>)
    ensures |r| == |batch|
  {
    seq(|batch|, i requires 0 <= i < |batch| => RecordAt(u, batch[i]))
  }

  function EntriesOf(u: Setup, records: seq<Record>): (r: seq<Entry>)
    ensures |r| == |records|
  {
    seq(|records|, i requires 0 <= i < |records| => u.render(records[i]))
  }

  /** The files when all of these records were written. */
  function FilesWith(u: Setup, records: seq<Record>): Content {
    AfterAll(u.target, map[BasePath(u.target) := u.base], EntriesOf(u, records))
  }

  /** The session starts with a client connected, its threads not yet running, and the base file opened, whether or
      not its stream took the whole header. */
  ghost predicate Start(u: Setup, s: State) {
    && R.Reachable(s.driver) && s.driver.control == D.Connected && s.client == P.Start()
    && s.request == Idle && s.delivered == [] && s.lost == []
    && Started(u.target, u.base, s.files) && u.base <= Crlf(u.target.header) && s.broken == Unsound(u.target, u.base)
  }

  datatype Step =
    | OnDriver(does: D.Step)
    | OnClient(takes: P.Step)
    | Ask                                   // the message reaches MessageNotify
    | Answer                                // the drain is over and GetRecords returns
    | Store(world: World, left: Content)    // one Sink.Write; left is what a failed one leaves
    | FlushAll(fails: set<Text>)            // Sink.Flush behind a batch; some streams may fail unnoticed

  /** The session lasts until the client disconnects, and only the client starts a drain. */
  predicate InSession(step: D.Step) { !step.DrainStart? && !step.Disconnect? }

  predicate ToWrite(w: P.WriterPc) { w.Writing? && w.count < |w.batch| }

  function NextEntry(u: Setup, w: P.WriterPc): Entry
    requires ToWrite(w)
  {
    u.render(w.batch[w.count])
  }

  /** A request that does not reach the driver fails; the other ones are answered by it. */
  predicate OnItsOwn(step: P.Step, q: Request) {
    !step.Write? && (step.Fetch? ==> step.reply.Failed? && q.Idle?)
  }

  /** The write succeeds or what it leaves is cut short. */
  ghost predicate Stores(u: Setup, s: State, world: World, left: Content) {
    && ToWrite(s.client.writer)
    && (Succeeds(u.target, s.files, s.broken, NextEntry(u, s.client.writer), world)
        || CutShort(u.target, s.files, left, NextEntry(u, s.client.writer)))
  }

  ghost predicate Enabled(u: Setup, s: State, step: Step) {
    match step
    case OnDriver(d) => D.Enabled(s.driver, d) && InSession(d)
    case OnClient(c) => P.Enabled(s.client, c) && OnItsOwn(c, s.request) && !c.Flush?
    case Ask => s.client.drainer.Fetching? && s.request.Idle? && D.Enabled(s.driver, D.DrainStart(REPLY_SIZE))
    case Answer => s.request.Asked? && s.driver.control.Connected?
    case Store(world, left) => Stores(u, s, world, left)
    case FlushAll(_) => P.Enabled(s.client, P.Flush)
  }

  /** What the request gets to see of a step of the driver: a record copied out, or a fault. */
  function Observed(q: Request, d: D.State, step: D.Step): Request {
    if q.Idle? || !step.DrainCopy? || !d.control.DrainHolding? then q
    else if d.control.size - d.control.written < D.RECORD_SIZE then q
    else if step.fault then q.(faulted := true)
    else q.(handed := q.handed + [d.control.rec])
  }

  /** What GetRecords makes of the drain's status and size. */
  function ReplyTo(u: Setup, q: Request): Reply
    requires q.Asked?
  {
    var status := if q.faulted then Faulted else if q.handed == [] then NoMoreEntries else Success;
    assert |q.handed| * D.RECORD_SIZE / D.RECORD_SIZE == |q.handed|;
    GetRecords(status, |q.handed| * D.RECORD_SIZE, Contents(u, q.handed))
  }

  function AfterDriver(s: State, step: D.Step): State
    requires D.Enabled(s.driver, step)
  {
    s.(driver := D.Apply(s.driver, step), request := Observed(s.request, s.driver, step))
  }

  ghost function AfterClient(s: State, step: P.Step): State
    requires P.Enabled(s.client, step)
  {
    s.(client := P.Apply(s.client, step))
  }

  function AfterAsk(s: State): State
    requires D.Enabled(s.driver, D.DrainStart(REPLY_SIZE))
  {
    s.(driver := D.Apply(s.driver, D.DrainStart(REPLY_SIZE)), request := Asked([], false))
  }

  function AfterAnswer(u: Setup, s: State): State
    requires s.request.Asked?
  {
    var reply := ReplyTo(u, s.request);
    var client := P.AfterFetch(s.client, reply);
    if reply.Fetched? then s.(client := client, request := Idle, delivered := s.delivered + s.request.handed)
    else s.(client := client, request := Idle, lost := s.lost + s.request.handed)
  }

  function AfterStore(u: Setup, s: State, world: World, left: Content): State
    requires ToWrite(s.client.writer)
  {
    var e := NextEntry(u, s.client.writer);
    var ok := Succeeds(u.target, s.files, s.broken, e, world);
    if ok then s.(client := P.AfterWrite(s.client, true), files := AfterWrite(u.target, s.files, e))
    else s.(client := P.AfterWrite(s.client, false), files := left,
            broken := s.broken + {Route(u.target, e.altitude)} * left.Keys)
  }

  ghost function AfterFlush(s: State, fails: set<Text>): State
    requires P.Enabled(s.client, P.Flush)
  {
    AfterClient(s, P.Flush).(broken := s.broken + fails * s.files.Keys)
  }

  ghost function Apply(u: Setup, s: State, step: Step): State
    requires Enabled(u, s, step)
  {
    match step
    case OnDriver(d) => AfterDriver(s, d)
    case OnClient(c) => AfterClient(s, c)
    case Ask => AfterAsk(s)
    case Answer => AfterAnswer(u, s)
    case Store(world, left) => AfterStore(u, s, world, left)
    case FlushAll(fails) => AfterFlush(s, fails)
  }

  // ----- What every step keeps -----

  /** How far a drain is that has handed over n records. */
  predicate DrainAt(c: D.Control, n: nat) {
    && n <= RECORD_COUNT
    && match c
       case Connected => true
       case Draining(size, written) => size == REPLY_SIZE && written == n * D.RECORD_SIZE
       case DrainHolding(size, written, _) => size == REPLY_SIZE && written == n * D.RECORD_SIZE
       case DrainCopied(size, written) => size == REPLY_SIZE && written + D.RECORD_SIZE == n * D.RECORD_SIZE
       case DrainReturning(size, written) => size == REPLY_SIZE && written + D.RECORD_SIZE == n * D.RECORD_SIZE
       case _ => false
  }

  predicate Leaving(p: P.DrainerPc) { p.DrainerClosing? || p.DrainerDone? }

  /** A request is under way exactly while the drainer waits for it and the driver may be draining. */
  ghost predicate RequestInv(s: State) {
    && (s.request.Idle? ==> s.driver.control == D.Connected)
    && (s.request.Asked? ==> s.client.drainer == P.Fetching && DrainAt(s.driver.control, |s.request.handed|))
    && (s.lost != [] ==> Leaving(s.client.drainer))
  }

  function Underway(q: Request): seq<D.Stamp> { if q.Asked? then q.handed else [] }

  /** What the driver has handed over since the session started is what the client got, lost, or is about to get. */
  ghost predicate HandInv(d0: D.State, s: State) {
    T.Handed(s.driver.removed) == T.Handed(d0.removed) + (s.delivered + (s.lost + Underway(s.request)))
  }

  ghost predicate FetchInv(u: Setup, s: State) {
    P.Flatten(s.client.fetched) == Contents(u, s.delivered)
  }

  /** The record at which a write failed. */
  predicate Stuck(w: P.WriterPc) {
    P.HasFailed(w) && w.count < |w.batch|
  }

  function Failing(u: Setup, w: P.WriterPc): Entry
    requires Stuck(w)
  {
    u.render(w.batch[w.count])
  }

  /** No record has gone to a stream that was broken from the start. */
  ghost predicate SoundInv(u: Setup, s: State) {
    && Unsound(u.target, u.base) <= s.broken
    && (forall record <- s.client.output :: Route(u.target, u.render(record).altitude) !in Unsound(u.target, u.base))
  }

  /** The files hold what the sink has accepted, and of the record at which it failed at most a part. */
  ghost predicate FileInv(u: Setup, s: State) {
    var w := s.client.writer;
    && SoundInv(u, s)
    && (!P.HasFailed(w) ==> s.files == FilesWith(u, s.client.output))
    && (P.HasFailed(w) ==> Stuck(w) && CutShort(u.target, FilesWith(u, s.client.output), s.files, Failing(u, w)))
  }

  ghost predicate Inv(u: Setup, d0: D.State, s: State) {
    && R.Reachable(s.driver) && P.Inv(s.client)
    && RequestInv(s) && HandInv(d0, s) && FetchInv(u, s) && FileInv(u, s)
  }

  // ----- Where the records of a session are -----

  function InHand(c: D.Control): seq<D.Stamp> { if c.DrainHolding? then [c.rec] else [] }

  /** Records on their way to the client: handed over in the request under way, in the drain's hands, listed. */
  function OnTheWay(d: D.State, q: Request): seq<D.Stamp> {
    Underway(q) + (InHand(d.control) + d.list)
  }

  /** Every record the client was given, has lost to a fault or may still be given. */
  function Kept(s: State): seq<D.Stamp> {
    s.delivered + (s.lost + OnTheWay(s.driver, s.request))
  }

  /** What was listed when the session started and everything appended since. */
  function Due(d0: D.State, d: D.State): seq<D.Stamp>
    requires d0.log <= d.log
  {
    d0.list + d.log[|d0.log|..]
  }

  ghost predicate NoneMissing(d0: D.State, s: State) {
    d0.log <= s.driver.log && Kept(s) == Due(d0, s.driver)
  }

  /** A clearing that an earlier session left over pops a record. */
  predicate PopsRecord(d: D.State, step: Step) {
    step.OnDriver? && step.does.SweepPop? && d.list != []
  }

  function Popped(d: D.State, step: Step): seq<D.Stamp> {
    if PopsRecord(d, step) then [d.list[0]] else []
  }

  /** The records such clearings have taken in the first n steps. */
  function Swept(run: seq<State>, steps: seq<Step>, n: nat): seq<D.Stamp>
    requires n <= |steps| < |run|
  {
    if n == 0 then [] else Swept(run, steps, n - 1) + Popped(run[n - 1].driver, steps[n - 1])
  }

  predicate InClearing(p: D.Pc) { p.Sweeping? || p.SweepHolding? || p.SweepReturning? || p.SweepResetting? }

  /** No clearing of an earlier session is left over. */
  ghost predicate Quiet(d: D.State) {
    forall t :: t in d.pc ==> !InClearing(d.pc[t])
  }
}
