/** The whole ingest pipeline as a transition system: any number of `Enqueue`
    calls, `Start`, the flush loop, the write loop of the write-ahead store,
    `Shutdown`, and a crash with restart at any moment.

    Each step is what one goroutine does between two points where another can
    interfere: one atomic operation, one channel operation, one lock operation,
    one store call or one bolt transaction. `Apply` gives the state after a
    step, or None when the step is not enabled. A store insert and a bolt
    transaction are atomic. */
module Pipeline {
  import opened Events
  import opened DeadLetter
  import opened FlushRemoval

  const WRITE_BUFFER := 1000

  datatype Config = Config(maxSize: nat, batchSize: nat, dlqSize: nat, persistent: bool)

  predicate ValidConfig(c: Config) {
    0 < c.batchSize <= c.maxSize
  }

  // ---- Program counters --------------------------------------------------------

  datatype Refusal = QueueStopped | QueueFull | ChannelFull

  /** An `Enqueue` call after its first read. */
  datatype CallPc =
    | SawRunning                   // read stopped == false
    | SawRoom                      // read a depth below the maximum
    | WantLock                     // handed the event to the write-ahead store
    | Locked
    | Sent                         // the event is in the channel
    | Counted                      // totalEnqueued raised
    | Deep(n: int)                 // currentDepth raised, to n
    | Loaded(n: int, m: int)       // read maxDepth as m
    | Accepted(n: int)
    | Refused(why: Refusal)

  datatype Call = Call(pc: CallPc, e: PendingEvent)

  datatype StartPc =
    | NotStarted
    | Recovering
    | Feeding(rest: seq<PendingEvent>)
    | Fed(rest: seq<PendingEvent>)     // an event was sent, totalEnqueued not yet raised
    | Running
    | StartFailed

  datatype Cause = BySize | ByTick | ByDrain

  datatype FlushPc =
    | Entering
    | Trying(before: nat, buriedMark: nat, storedMark: nat, left: multiset<Event>, itemised: bool)
    | Removing(ids: seq<int>, grown: int)
    | Tallying(grown: int)

  datatype LoopPc =
    | Off
    | Select
    | Took                         // received an event, currentDepth not yet lowered
    | Draining
    | DrainTook
    | Flushing(cause: Cause, f: FlushPc)
    | Exited

  datatype WriterPc = Waiting | Got(e: PendingEvent) | Putting(e: PendingEvent)

  datatype DownPc = NotDown | StopSet | DownLocked | Signalled | Waited | Closed

  datatype Holder = Free | ByCall(p: nat) | ByShutdown

  // ---- State ---------------------------------------------------------------------

  /** What survives a crash: the bolt bucket and the ids in the events table. */
  datatype Disk = Disk(bolt: map<int, PendingEvent>, rows: set<int>)

  datatype Flush = Flush(cause: Cause, events: seq<PendingEvent>)

  /** History, for stating properties. `committed` spans crashes; the rest is of
      the current process. */
  datatype Log = Log(
    committed: set<int>,           // ids whose bolt put has committed
    sent: seq<PendingEvent>,       // everything sent to the channel
    flushed: seq<Flush>,           // every flush begun
    stored: seq<Event>,            // everything inserted through the queue
    buried: seq<Entry>,            // everything ever dead-lettered
    recovered: nat,                // events sent by Start
    depths: seq<int>,              // depths computed after each send
    inFlight: set<nat>,            // calls between their read of the flag and the lock when Shutdown set it
    handed: seq<nat>,              // calls whose events went to the write loop
    fetched: seq<PendingEvent>,    // events the write loop has taken
    late: seq<nat>)                // calls that sent since the drain saw the channel empty

  datatype State = State(
    disk: Disk,
    ch: seq<PendingEvent>,
    batch: seq<PendingEvent>,
    dlq: seq<Entry>,
    calls: map<nat, Call>,
    start: StartPc,
    loop: LoopPc,
    writer: WriterPc,
    down: DownPc,
    writeCh: seq<PendingEvent>,
    lock: Holder,
    stopped: bool,
    closed: bool,
    depth: int,
    maxDepth: int,
    enqueued: int,
    flushedCount: int,
    log: Log)

  function Boot(disk: Disk, committed: set<int>): State {
    State(disk, [], [], [], map[], NotStarted, Off, Waiting, NotDown, [], Free, false, false, 0, 0, 0, 0,
          Log(committed, [], [], [], [], 0, [], {}, [], [], []))
  }

  function Init(): State {
    Boot(Disk(map[], {}), {})
  }

  // ---- Steps ---------------------------------------------------------------------

  datatype CallStep = ReadDepth | Persist | Lock | Send | Count | Deepen | LoadMax | StoreMax

  datatype StartStep = Begin | Recover(list: seq<PendingEvent>) | RecoverFails | Feed | CountFed | Spawn

  datatype LoopStep =
    | Take
    | Uncount
    | Tick
    | SeeSignal
    | FindEmpty
    | ReadLength
    | InsertBatch
    | Itemise
    | InsertItem(e: Event)
    | BuryItem(e: Event, attempts: int)
    | Measure
    | Remove(deleted: set<int>)    // the keys the transaction deleted, none if it failed
    | Tally

  datatype WriterStep = Fetch | CheckClosed | Put(ok: bool)

  datatype DownStep = Stop | TakeLock | Signal | Proceed | ClosePersistence

  datatype Step =
    | NewCall(p: nat, e: PendingEvent)
    | CallStep(p: nat, a: CallStep)
    | StartStep(st: StartStep)
    | LoopStep(l: LoopStep)
    | WriterStep(w: WriterStep)
    | DownStep(d: DownStep)
    | Crash

  /** A listing of the bucket: no entry twice. Entries that cannot be decoded are
      passed over. */
  ghost predicate Lists(list: seq<PendingEvent>, bolt: map<int, PendingEvent>) {
    && (forall e :: e in list ==> e.eventID in bolt && bolt[e.eventID] == e)
    && (forall i, j :: 0 <= i < j < |list| ==> list[i].eventID != list[j].eventID)
  }

  /** A new `Enqueue` call reads the stopped flag under the read lock. */
  function ApplyNewCall(s: State, p: nat, e: PendingEvent): Option<State> {
    if p in s.calls || !s.lock.Free? then None
    else Some(s.(calls := s.calls[p := Call(if s.stopped then Refused(QueueStopped) else SawRunning, e)]))
  }

  function To(s: State, p: nat, pc: CallPc): State
    requires p in s.calls
  {
    s.(calls := s.calls[p := s.calls[p].(pc := pc)])
  }

  function ApplyCall(c: Config, s: State, p: nat, a: CallStep): Option<State> {
    if p !in s.calls then None
    else
      var e := s.calls[p].e;
      match (s.calls[p].pc, a)
      case (SawRunning, ReadDepth) =>
        Some(To(s, p, if s.depth >= c.maxSize then Refused(QueueFull) else SawRoom))
      case (SawRoom, Persist) =>
        var taken := c.persistent && !s.closed && |s.writeCh| < WRITE_BUFFER;
        Some(To(s, p, WantLock).(writeCh := if taken then s.writeCh + [e] else s.writeCh,
                                 log := s.log.(handed := if taken then s.log.handed + [p] else s.log.handed)))
      case (WantLock, Lock) =>
        if s.lock.Free? then Some(To(s, p, Locked).(lock := ByCall(p))) else None
      case (Locked, Send) =>
        if |s.ch| < c.maxSize then
          Some(To(s, p, Sent).(ch := s.ch + [e],
                               log := s.log.(sent := s.log.sent + [e], late := s.log.late + [p])))
        else
          Some(To(s, p, Refused(ChannelFull)).(lock := Free))
      case (Sent, Count) =>
        Some(To(s, p, Counted).(enqueued := s.enqueued + 1))
      case (Counted, Deepen) =>
        Some(To(s, p, Deep(s.depth + 1)).(depth := s.depth + 1,
                                          log := s.log.(depths := s.log.depths + [s.depth + 1])))
      case (Deep(n), LoadMax) =>
        Some(To(s, p, Loaded(n, s.maxDepth)))
      case (Loaded(n, m), StoreMax) =>
        if n <= m then Some(To(s, p, Accepted(n)).(lock := Free))
        else if s.maxDepth == m then Some(To(s, p, Accepted(n)).(lock := Free, maxDepth := n))
        else Some(To(s, p, Deep(n)))
      case _ => None
  }

  ghost function ApplyStart(c: Config, s: State, st: StartStep): Option<State> {
    match (s.start, st)
    case (NotStarted, Begin) => Some(s.(start := Recovering))
    case (Recovering, Recover(list)) =>
      if !c.persistent then (if list == [] then Some(s.(start := Feeding([]))) else None)
      else if !s.closed && Lists(list, s.disk.bolt) then Some(s.(start := Feeding(list)))
      else None
    case (Recovering, RecoverFails) => if c.persistent then Some(s.(start := StartFailed)) else None
    case (Feeding(rest), Feed) =>
      if rest == [] then None
      else if |s.ch| < c.maxSize then
        Some(s.(start := Fed(rest[1..]), ch := s.ch + [rest[0]],
                log := s.log.(sent := s.log.sent + [rest[0]], recovered := s.log.recovered + 1)))
      else Some(s.(start := Feeding(rest[1..])))
    case (Fed(rest), CountFed) => Some(s.(start := Feeding(rest), enqueued := s.enqueued + 1))
    case (Feeding(rest), Spawn) => if rest == [] then Some(s.(start := Running, loop := Select)) else None
    case _ => None
  }

  function EnterFlush(s: State, cause: Cause): State {
    s.(loop := Flushing(cause, Entering), log := s.log.(flushed := s.log.flushed + [Flush(cause, s.batch)]))
  }

  function ApplySelect(c: Config, s: State, l: LoopStep): Option<State> {
    match (s.loop, l)
    case (Select, Take) =>
      if s.ch == [] then None
      else Some(s.(loop := Took, batch := s.batch + [s.ch[0]], ch := s.ch[1..]))
    case (Took, Uncount) =>
      var t := s.(depth := s.depth - 1);
      Some(if |s.batch| >= c.batchSize then EnterFlush(t, BySize) else t.(loop := Select))
    case (Select, Tick) => if |s.batch| > 0 then Some(EnterFlush(s, ByTick)) else None
    case (Select, SeeSignal) => if IsSignalled(s) then Some(s.(loop := Draining)) else None
    case (Draining, Take) =>
      if s.ch == [] then None
      else Some(s.(loop := DrainTook, batch := s.batch + [s.ch[0]], ch := s.ch[1..]))
    case (DrainTook, Uncount) => Some(s.(loop := Draining, depth := s.depth - 1))
    case (Draining, FindEmpty) =>
      if s.ch != [] then None
      else
        var t := s.(log := s.log.(late := []));
        Some(if |s.batch| > 0 then EnterFlush(t, ByDrain) else t.(loop := Exited))
    case _ => None
  }

  predicate IsSignalled(s: State) {
    s.down.Signalled? || s.down.Waited? || s.down.Closed?
  }

  function Go(s: State, f: FlushPc): State
    requires s.loop.Flushing?
  {
    s.(loop := Flushing(s.loop.cause, f))
  }

  function IdsIn(ids: seq<int>): set<int> {
    set id | id in ids
  }

  function ApplyFlush(c: Config, s: State, l: LoopStep): Option<State>
    requires s.loop.Flushing?
  {
    match (s.loop.f, l)
    case (Entering, ReadLength) =>
      Some(Go(s, Trying(|s.dlq|, |s.log.buried|, |s.log.stored|, multiset(Models(s.batch)), false)))
    case (Trying(b, bm, sm, left, false), InsertBatch) =>
      Some(Go(s, Trying(b, bm, sm, multiset{}, true)).(
        disk := s.disk.(rows := s.disk.rows + IdSet(Models(s.batch))),
        log := s.log.(stored := s.log.stored + Models(s.batch))))
    case (Trying(b, bm, sm, left, false), Itemise) => Some(Go(s, Trying(b, bm, sm, left, true)))
    case (Trying(b, bm, sm, left, true), InsertItem(e)) =>
      if e !in left then None
      else Some(Go(s, Trying(b, bm, sm, left - multiset{e}, true)).(
        disk := s.disk.(rows := s.disk.rows + {e.id}),
        log := s.log.(stored := s.log.stored + [e])))
    case (Trying(b, bm, sm, left, true), BuryItem(e, attempts)) =>
      if e !in left then None
      else
        var entry := DeadLetterEvent(e, attempts);
        Some(Go(s, Trying(b, bm, sm, left - multiset{e}, true)).(
          dlq := LastN(s.dlq + [entry], c.dlqSize),
          log := s.log.(buried := s.log.buried + [entry])))
    case (Trying(b, bm, sm, left, true), Measure) =>
      if left != multiset{} then None
      else
        var grown := |s.dlq| - b;
        Some(Go(s, Removing(IdsToRemove(Ids(Models(s.batch)), s.dlq, grown), grown)))
    case (Removing(ids, grown), Remove(deleted)) =>
      if deleted == {} then Some(Go(s, Tallying(grown)))
      else if c.persistent && !s.closed && deleted <= IdsIn(ids) then
        Some(Go(s, Tallying(grown)).(disk := s.disk.(bolt := s.disk.bolt - deleted)))
      else None
    case (Tallying(grown), Tally) =>
      Some(s.(flushedCount := s.flushedCount + |s.batch| - grown,
              batch := [],
              loop := if s.loop.cause.ByDrain? then Exited else Select))
    case _ => None
  }

  function ApplyLoop(c: Config, s: State, l: LoopStep): Option<State> {
    if s.loop.Flushing? then ApplyFlush(c, s, l) else ApplySelect(c, s, l)
  }

  function ApplyWriter(s: State, w: WriterStep): Option<State> {
    match (s.writer, w)
    case (Waiting, Fetch) =>
      if s.writeCh == [] then None
      else Some(s.(writer := Got(s.writeCh[0]), writeCh := s.writeCh[1..],
                   log := s.log.(fetched := s.log.fetched + [s.writeCh[0]])))
    case (Got(e), CheckClosed) => Some(s.(writer := if s.closed then Waiting else Putting(e)))
    case (Putting(e), Put(ok)) =>
      if !ok then Some(s.(writer := Waiting))
      else Some(s.(writer := Waiting,
                   disk := s.disk.(bolt := s.disk.bolt[e.eventID := e]),
                   log := s.log.(committed := s.log.committed + {e.eventID})))
    case _ => None
  }

  /** A call that has read stopped as false and has not got the lock yet. */
  predicate BeforeLock(pc: CallPc) {
    pc.SawRunning? || pc.SawRoom? || pc.WantLock?
  }

  function Unlocked(calls: map<nat, Call>): set<nat> {
    set p | p in calls && BeforeLock(calls[p].pc)
  }

  function ApplyDown(s: State, d: DownStep): Option<State> {
    match (s.down, d)
    case (NotDown, Stop) =>
      Some(s.(down := StopSet, stopped := true, log := s.log.(inFlight := Unlocked(s.calls))))
    case (StopSet, TakeLock) => if s.lock.Free? then Some(s.(down := DownLocked, lock := ByShutdown)) else None
    case (DownLocked, Signal) => Some(s.(down := Signalled, lock := Free))
    case (Signalled, Proceed) => Some(s.(down := Waited))
    case (Waited, ClosePersistence) => Some(s.(down := Closed, closed := true))
    case _ => None
  }

  ghost function Apply(c: Config, s: State, step: Step): Option<State> {
    match step
    case NewCall(p, e) => ApplyNewCall(s, p, e)
    case CallStep(p, a) => ApplyCall(c, s, p, a)
    case StartStep(st) => ApplyStart(c, s, st)
    case LoopStep(l) => ApplyLoop(c, s, l)
    case WriterStep(w) => ApplyWriter(s, w)
    case DownStep(d) => ApplyDown(s, d)
    case Crash => Some(Boot(s.disk, s.log.committed))
  }

  ghost predicate Next(c: Config, s: State, s': State) {
    exists step :: Apply(c, s, step) == Some(s')
  }

  ghost function NextOf(c: Config): (State, State) -> bool {
    (s, s') => Next(c, s, s')
  }

  // ---- What each goroutine leaves alone ------------------------------------------

  /** Steps of a call other than its send. */
  predicate CallFrame(s: State, s': State) {
    s' == s.(calls := s'.calls, writeCh := s'.writeCh, lock := s'.lock, depth := s'.depth,
             maxDepth := s'.maxDepth, enqueued := s'.enqueued, log := s.log.(depths := s'.log.depths, handed := s'.log.handed))
  }

  lemma CallLeaves(c: Config, s: State, p: nat, a: CallStep, s': State)
    requires ApplyCall(c, s, p, a) == Some(s') && s'.ch == s.ch
    ensures CallFrame(s, s')
  {
  }

  /** A successful send. */
  predicate IsSend(c: Config, s: State, p: nat, s': State) {
    && p in s.calls && s.calls[p].pc.Locked? && |s.ch| < c.maxSize
    && s' == s.(calls := s.calls[p := s.calls[p].(pc := Sent)],
                ch := s.ch + [s.calls[p].e],
                log := s.log.(sent := s.log.sent + [s.calls[p].e], late := s.log.late + [p]))
  }

  lemma CallSends(c: Config, s: State, p: nat, a: CallStep, s': State)
    requires ApplyCall(c, s, p, a) == Some(s') && s'.ch != s.ch
    ensures IsSend(c, s, p, s')
  {
  }

  predicate StartFrame(s: State, s': State) {
    s' == s.(start := s'.start, loop := s'.loop, ch := s'.ch, enqueued := s'.enqueued,
             log := s.log.(sent := s'.log.sent, recovered := s'.log.recovered))
  }

  lemma StartLeaves(c: Config, s: State, st: StartStep, s': State)
    requires ApplyStart(c, s, st) == Some(s')
    ensures StartFrame(s, s')
    ensures !s'.start.NotStarted?
  {
  }

  predicate SelectFrame(s: State, s': State) {
    s' == s.(loop := s'.loop, ch := s'.ch, batch := s'.batch, depth := s'.depth,
             log := s.log.(flushed := s'.log.flushed, late := s'.log.late))
  }

  lemma SelectLeaves(c: Config, s: State, l: LoopStep, s': State)
    requires ApplySelect(c, s, l) == Some(s')
    ensures SelectFrame(s, s')
  {
  }

  predicate FlushFrame(s: State, s': State) {
    s' == s.(loop := s'.loop, batch := s'.batch, dlq := s'.dlq, disk := s'.disk, flushedCount := s'.flushedCount,
             log := s.log.(stored := s'.log.stored, buried := s'.log.buried))
  }

  lemma FlushLeaves(c: Config, s: State, l: LoopStep, s': State)
    requires s.loop.Flushing? && ApplyFlush(c, s, l) == Some(s')
    ensures FlushFrame(s, s')
    ensures !l.Tally? ==> s'.batch == s.batch && s'.loop == Flushing(s.loop.cause, s'.loop.f)
    ensures l.Tally? ==> s'.batch == [] && s'.loop == if s.loop.cause.ByDrain? then Exited else Select
  {
  }

  /** An event moves from the flush to the dead-letter queue. */
  ghost predicate Buries(c: Config, s: State, entry: Entry, s': State) {
    && s.loop.Flushing? && s.loop.f.Trying? && s.loop.f.itemised && s'.loop.Flushing?
    && entry.event in s.loop.f.left
    && s'.loop.f == s.loop.f.(left := s.loop.f.left - multiset{entry.event})
    && s'.dlq == LastN(s.dlq + [entry], c.dlqSize)
    && s'.log == s.log.(buried := s.log.buried + [entry])
    && s'.disk == s.disk && s'.batch == s.batch && s'.flushedCount == s.flushedCount
  }

  lemma BuryLeaves(c: Config, s: State, l: LoopStep, s': State)
    requires s.loop.Flushing? && l.BuryItem? && ApplyFlush(c, s, l) == Some(s')
    ensures Buries(c, s, DeadLetterEvent(l.e, l.attempts), s')
  {
  }

  predicate WriterFrame(s: State, s': State) {
    s' == s.(writer := s'.writer, writeCh := s'.writeCh, disk := s.disk.(bolt := s'.disk.bolt),
             log := s.log.(committed := s'.log.committed, fetched := s'.log.fetched))
  }

  lemma WriterLeaves(s: State, w: WriterStep, s': State)
    requires ApplyWriter(s, w) == Some(s')
    ensures WriterFrame(s, s')
  {
  }

  predicate DownFrame(s: State, s': State) {
    s' == s.(down := s'.down, lock := s'.lock, stopped := s'.stopped, closed := s'.closed,
             log := s.log.(inFlight := s'.log.inFlight))
  }

  lemma DownLeaves(s: State, d: DownStep, s': State)
    requires ApplyDown(s, d) == Some(s')
    ensures DownFrame(s, s')
  {
  }
}
