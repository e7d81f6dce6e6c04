/** Runs that show the conditions of the shutdown and crash results are needed,
    for every configuration: an accepted event that no flush will see, and a
    committed event that is lost when the dead-letter queue is full. */
module PipelineWitnesses {
  import opened Events
  import opened Machines
  import opened DeadLetter
  import opened FlushRemoval
  import opened Pipeline
  import opened PipelineStragglers
  import Crash = PipelineCrash
  import Depth = PipelineDepth
  import Shutdown = PipelineShutdown

  /** A crash-free run leads here from the start. */
  ghost function RunOf(c: Config): State -> bool {
    LedOf(c, Init())
  }

  lemma RunReached(c: Config, s: State)
    requires RunOf(c)(s)
    ensures Reached(c, s)
  {
    var k :| Reaches(Init(), SteadyOf(c), k, s);
    SteadyReaches(c, Init(), k, s);
  }

  /** A started queue with nothing in it. */
  function Idle(): State {
    Init().(start := Running, loop := Select)
  }

  lemma IdleReached(c: Config)
    ensures RunOf(c)(Idle())
  {
    Shutdown.BootFull(c, Disk(map[], {}), {});
    Here(c, Init());
    Do(c, Init(), Init(), StartStep(Begin));
    assert Lists([], map[]);
    var s1 := ApplyStart(c, Init(), Begin).value;
    Do(c, Init(), s1, StartStep(Recover([])));
    var s2 := ApplyStart(c, s1, Recover([])).value;
    Do(c, Init(), s2, StartStep(Spawn));
    assert ApplyStart(c, s2, Spawn).value == Idle();
  }

  // ---- A straggler -----------------------------------------------------------------

  /** The calls when there is only one. */
  function One(pc: CallPc, e: PendingEvent): map<nat, Call> {
    map[0 := Call(pc, e)]
  }

  /** The call has read the flag, then Shutdown ran and the loop exited. */
  function ExitedUnder(e: PendingEvent): State {
    Idle().(calls := One(SawRunning, e), stopped := true, down := Signalled, loop := Exited,
            log := Init().log.(inFlight := {0}))
  }

  function Called(e: PendingEvent): State {
    Idle().(calls := One(SawRunning, e))
  }

  lemma CalledReached(c: Config, e: PendingEvent)
    ensures RunOf(c)(Called(e))
  {
    IdleReached(c);
    Do(c, Init(), Idle(), NewCall(0, e));
    assert ApplyNewCall(Idle(), 0, e).value == Called(e);
  }

  function SignalledUnder(e: PendingEvent): State {
    Called(e).(stopped := true, down := Signalled, log := Init().log.(inFlight := {0}))
  }

  lemma SignalledUnderReached(c: Config, e: PendingEvent)
    ensures RunOf(c)(SignalledUnder(e))
  {
    CalledReached(c, e);
    var t1 := Called(e);
    assert Unlocked(t1.calls) == {0};
    Do(c, Init(), t1, DownStep(Stop));
    var t2 := ApplyDown(t1, Stop).value;
    Do(c, Init(), t2, DownStep(TakeLock));
    var t3 := ApplyDown(t2, TakeLock).value;
    Do(c, Init(), t3, DownStep(Signal));
    assert ApplyDown(t3, Signal).value == SignalledUnder(e);
  }

  lemma ExitedUnderReached(c: Config, e: PendingEvent)
    ensures RunOf(c)(ExitedUnder(e))
  {
    SignalledUnderReached(c, e);
    var t4 := SignalledUnder(e);
    Do(c, Init(), t4, LoopStep(SeeSignal));
    var t5 := ApplySelect(c, t4, SeeSignal).value;
    Do(c, Init(), t5, LoopStep(FindEmpty));
    assert ApplySelect(c, t5, FindEmpty).value == ExitedUnder(e);
  }

  /** In every configuration `Enqueue` can report success for an event that stays
      in the channel after the loop has gone: the flag is read before the lock is
      taken. */
  lemma StragglerRun(c: Config, e: PendingEvent) returns (s: State)
    requires ValidConfig(c)
    ensures Reached(c, s)
    ensures s.loop.Exited? && s.calls.Keys == {0} && s.calls[0].pc.Accepted? && s.calls[0].e == e
    ensures s.ch == [e] && s.log.stored == [] && s.log.buried == []
  {
    ExitedUnderReached(c, e);
    s := LockThenSend(c, Init(), ExitedUnder(e), 0);
    RunReached(c, s);
  }

  // ---- A lost event ----------------------------------------------------------------

  /** The process runs normally, n events have been dead-lettered, none stored;
      call numbers are below m. */
  ghost predicate Normal(c: Config, n: nat, m: nat, s: State) {
    && s.start.Running? && s.down.NotDown? && !s.stopped && !s.closed
    && s.disk.rows == {} && s.log.recovered == 0
    && |s.log.buried| == n && s.dlq == LastN(s.log.buried, c.dlqSize)
    && forall q :: q in s.calls ==> q < m
  }

  /** The bucket, once the event's put has been tried. */
  ghost predicate Kept(s: State, e: PendingEvent, committed: bool) {
    if committed then s.disk.bolt == map[e.eventID := e] && s.log.committed == {e.eventID}
    else s.disk.bolt == map[] && s.log.committed == {}
  }

  ghost predicate Rested(c: Config, n: nat, s: State) {
    && Normal(c, n, n, s) && s.loop.Select? && s.lock.Free? && s.ch == [] && s.batch == []
    && s.writeCh == [] && s.writer.Waiting? && s.disk.bolt == map[] && s.log.committed == {}
  }

  /** Call n stands at pc with its event; the loop is idle. */
  ghost predicate Entering(c: Config, n: nat, e: PendingEvent, pc: CallPc, s: State) {
    && Normal(c, n, n + 1, s) && s.loop.Select? && s.batch == [] && s.ch == [] && s.lock.Free?
    && n in s.calls && s.calls[n] == Call(pc, e)
  }

  lemma RestedDepth(c: Config, n: nat, s: State)
    requires RunOf(c)(s) && Rested(c, n, s)
    ensures s.depth == 0
  {
    LedFull(c, Init(), s);
    Shutdown.FullParts(c, s);
    Depth.DepthFacts(c, s);
  }

  /** The call arrives and hands its event to the write loop. */
  lemma Arrives(c: Config, n: nat, s: State, e: PendingEvent) returns (s': State)
    requires ValidConfig(c) && c.persistent && RunOf(c)(s) && Rested(c, n, s)
    ensures RunOf(c)(s') && Entering(c, n, e, WantLock, s') && Kept(s', e, false)
    ensures s'.writeCh == [e] && s'.writer.Waiting?
  {
    RestedDepth(c, n, s);
    Do(c, Init(), s, NewCall(n, e));
    var s1 := ApplyNewCall(s, n, e).value;
    Do(c, Init(), s1, CallStep(n, ReadDepth));
    s' := HandsOver(c, n, ApplyCall(c, s1, n, ReadDepth).value, e);
  }

  lemma HandsOver(c: Config, n: nat, s: State, e: PendingEvent) returns (s': State)
    requires c.persistent && RunOf(c)(s) && Entering(c, n, e, SawRoom, s) && Kept(s, e, false)
    requires s.writeCh == [] && s.writer.Waiting?
    ensures RunOf(c)(s') && Entering(c, n, e, WantLock, s') && Kept(s', e, false)
    ensures s'.writeCh == [e] && s'.writer.Waiting?
  {
    Do(c, Init(), s, CallStep(n, Persist));
    s' := ApplyCall(c, s, n, Persist).value;
  }

  /** The write loop tries to put it. */
  lemma Puts(c: Config, n: nat, s: State, e: PendingEvent, committed: bool) returns (s': State)
    requires RunOf(c)(s) && Entering(c, n, e, WantLock, s) && Kept(s, e, false)
    requires s.writeCh == [e] && s.writer.Waiting?
    ensures RunOf(c)(s') && Entering(c, n, e, WantLock, s') && Kept(s', e, committed)
    ensures s'.writeCh == [] && s'.writer.Waiting?
  {
    Do(c, Init(), s, WriterStep(Fetch));
    var s1 := ApplyWriter(s, Fetch).value;
    Do(c, Init(), s1, WriterStep(CheckClosed));
    var s2 := ApplyWriter(s1, CheckClosed).value;
    Do(c, Init(), s2, WriterStep(Put(committed)));
    s' := ApplyWriter(s2, Put(committed)).value;
  }

  /** The call sends and returns. */
  lemma Sends(c: Config, n: nat, s: State, e: PendingEvent, committed: bool) returns (s': State)
    requires ValidConfig(c) && RunOf(c)(s) && Entering(c, n, e, WantLock, s) && Kept(s, e, committed)
    requires s.writeCh == [] && s.writer.Waiting?
    ensures RunOf(c)(s') && Waiting(c, n, e, committed, s') && s'.loop.Select? && s'.ch == [e] && s'.batch == []
  {
    var m := TakesLock(c, Init(), s, n);
    s' := SendAndFinish(c, Init(), m, n);
  }

  /** All is quiet except that the loop has the event to deal with. */
  ghost predicate Quiet(c: Config, n: nat, m: nat, e: PendingEvent, committed: bool, s: State) {
    Normal(c, n, m, s) && s.lock.Free? && s.writeCh == [] && s.writer.Waiting? && Kept(s, e, committed)
  }

  ghost predicate Waiting(c: Config, n: nat, e: PendingEvent, committed: bool, s: State) {
    Quiet(c, n, n + 1, e, committed, s)
  }

  /** A flush of this one event, for a reason other than the drain. */
  ghost predicate Flushes(e: PendingEvent, f: FlushPc, s: State) {
    s.loop.Flushing? && !s.loop.cause.ByDrain? && s.loop.f == f && s.batch == [e] && s.ch == []
  }

  /** The loop takes the event and begins a flush, by size or by tick. */
  lemma Begins(c: Config, n: nat, s: State, e: PendingEvent, committed: bool) returns (s': State)
    requires RunOf(c)(s) && Waiting(c, n, e, committed, s) && s.loop.Select? && s.ch == [e] && s.batch == []
    ensures RunOf(c)(s') && Waiting(c, n, e, committed, s') && Flushes(e, FlushPc.Entering, s')
  {
    Do(c, Init(), s, LoopStep(Take));
    var s1 := ApplySelect(c, s, Take).value;
    Do(c, Init(), s1, LoopStep(Uncount));
    s' := ApplySelect(c, s1, Uncount).value;
    if 1 < c.batchSize {
      Do(c, Init(), s', LoopStep(Tick));
      s' := ApplySelect(c, s', Tick).value;
    }
  }

  /** The event is retried in vain and dead-lettered. */
  lemma Buries(c: Config, n: nat, s: State, e: PendingEvent, committed: bool) returns (s': State)
    requires RunOf(c)(s) && Waiting(c, n, e, committed, s) && Flushes(e, FlushPc.Entering, s)
    ensures RunOf(c)(s') && Dead(c, n, e, committed, s')
  {
    assert Models([e]) == [ToModel(e)];
    Do(c, Init(), s, LoopStep(ReadLength));
    var s1 := ApplyFlush(c, s, ReadLength).value;
    Do(c, Init(), s1, LoopStep(Itemise));
    var s2 := ApplyFlush(c, s1, Itemise).value;
    s' := BuriesItem(c, n, s2, e, committed);
  }

  /** The retries are over; the length of the queue was read before them. */
  ghost predicate Dead(c: Config, n: nat, e: PendingEvent, committed: bool, s: State) {
    && s.loop.Flushing? && !s.loop.cause.ByDrain? && s.loop.f.Trying? && s.loop.f.itemised && s.loop.f.left == multiset{}
    && s.loop.f.before == Min(n, c.dlqSize) && s.batch == [e] && s.ch == []
    && Quiet(c, n + 1, n + 1, e, committed, s)
  }

  lemma BuriesItem(c: Config, n: nat, s: State, e: PendingEvent, committed: bool) returns (s': State)
    requires RunOf(c)(s) && Waiting(c, n, e, committed, s)
    requires s.loop.Flushing? && s.loop.f.Trying? && s.loop.f.itemised && s.loop.f.left == multiset{ToModel(e)}
    requires Flushes(e, s.loop.f, s) && s.loop.f.before == |s.dlq|
    ensures RunOf(c)(s') && Dead(c, n, e, committed, s')
  {
    var entry := DeadLetterEvent(ToModel(e), 5);
    LastNAppend(s.log.buried, [entry], c.dlqSize);
    Do(c, Init(), s, LoopStep(BuryItem(ToModel(e), 5)));
    s' := ApplyFlush(c, s, BuryItem(ToModel(e), 5)).value;
    BuryLeaves(c, s, BuryItem(ToModel(e), 5), s');
    FlushLeaves(c, s, BuryItem(ToModel(e), 5), s');
  }

  /** One event through the whole queue into the dead letters. */
  lemma Dies(c: Config, n: nat, s: State, e: PendingEvent, committed: bool) returns (s': State)
    requires ValidConfig(c) && c.persistent && RunOf(c)(s) && Rested(c, n, s)
    ensures RunOf(c)(s') && Dead(c, n, e, committed, s')
  {
    var s1 := Arrives(c, n, s, e);
    var s2 := Puts(c, n, s1, e, committed);
    var s3 := Sends(c, n, s2, e, committed);
    var s4 := Begins(c, n, s3, e, committed);
    s' := Buries(c, n, s4, e, committed);
  }

  /** An event whose put failed leaves nothing but its dead letter. */
  lemma Settles(c: Config, n: nat, s: State, e: PendingEvent) returns (s': State)
    requires RunOf(c)(s) && Dead(c, n, e, false, s)
    ensures RunOf(c)(s') && Rested(c, n + 1, s')
  {
    Do(c, Init(), s, LoopStep(Measure));
    var s1 := ApplyFlush(c, s, Measure).value;
    Do(c, Init(), s1, LoopStep(Remove({})));
    var s2 := ApplyFlush(c, s1, Remove({})).value;
    assert s2 == Go(s, Tallying(s2.loop.f.grown));
    s' := Tallies(c, n, s2, e);
  }

  lemma Tallies(c: Config, n: nat, s: State, e: PendingEvent) returns (s': State)
    requires RunOf(c)(s) && Quiet(c, n + 1, n + 1, e, false, s)
    requires s.loop.Flushing? && s.loop.f.Tallying? && Flushes(e, s.loop.f, s)
    ensures RunOf(c)(s') && Rested(c, n + 1, s')
  {
    Do(c, Init(), s, LoopStep(Tally));
    s' := ApplyFlush(c, s, Tally).value;
  }

  /** Any number of events can be dead-lettered. */
  lemma {:induction false} Fills(c: Config, n: nat, e: PendingEvent) returns (s: State)
    requires ValidConfig(c) && c.persistent
    ensures RunOf(c)(s) && Rested(c, n, s)
  {
    if n == 0 {
      IdleReached(c);
      s := Idle();
    } else {
      var s1 := Fills(c, n - 1, e);
      var s2 := Dies(c, n - 1, s1, e, false);
      s := Settles(c, n - 1, s2, e);
    }
  }

  /** In every configuration with a write-ahead store: when the dead-letter queue
      is full, the next failure shows no growth, and its event is removed from the
      bucket: a committed event is nowhere. */
  lemma LossyRun(c: Config, e: PendingEvent) returns (s: State)
    requires ValidConfig(c) && c.persistent
    ensures Reached(c, s)
    ensures e.eventID in s.log.committed && !Crash.Kept(s, e.eventID)
  {
    var s1 := Fills(c, c.dlqSize, e);
    var s2 := Dies(c, c.dlqSize, s1, e, true);
    s := Loses(c, s2, e);
    RunReached(c, s);
  }

  lemma Loses(c: Config, s: State, e: PendingEvent) returns (s': State)
    requires c.persistent && RunOf(c)(s) && Dead(c, c.dlqSize, e, true, s)
    ensures RunOf(c)(s') && e.eventID in s'.log.committed && !Crash.Kept(s', e.eventID)
  {
    Do(c, Init(), s, LoopStep(Measure));
    var s1 := ApplyFlush(c, s, Measure).value;
    assert s1.loop.f.ids == Ids(Models([e]));
    assert Ids(Models([e]))[0] == e.eventID;
    assert IdsIn(s1.loop.f.ids) == {e.eventID};
    Do(c, Init(), s1, LoopStep(Remove({e.eventID})));
    s' := ApplyFlush(c, s1, Remove({e.eventID})).value;
  }
}
