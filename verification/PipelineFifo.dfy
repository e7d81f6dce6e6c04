/** First in, first out, in every interleaving. */
module PipelineFifo {
  import opened Events
  import opened Machines
  import opened Pipeline

  function FlushedEvents(fs: seq<Flush>): seq<PendingEvent> {
    if |fs| == 0 then [] else FlushedEvents(fs[..|fs| - 1]) + fs[|fs| - 1].events
  }

  lemma FlushedSnoc(fs: seq<Flush>, f: Flush)
    ensures FlushedEvents(fs + [f]) == FlushedEvents(fs) + f.events
  {
    assert (fs + [f])[..|fs|] == fs;
  }

  /** The batch while it still waits for its flush. */
  function InHand(s: State): seq<PendingEvent> {
    if s.loop.Flushing? then [] else s.batch
  }

  /** A flush by size has exactly BatchSize events, a flush by tick fewer, and
      none is empty. */
  predicate FlushSized(c: Config, f: Flush) {
    match f.cause
    case BySize => |f.events| == c.batchSize
    case ByTick => 0 < |f.events| < c.batchSize
    case ByDrain => 0 < |f.events|
  }

  ghost predicate Sized(c: Config, s: State) {
    && (forall i :: 0 <= i < |s.log.flushed| ==> FlushSized(c, s.log.flushed[i]))
    && (s.loop.Select? ==> |s.batch| < c.batchSize)
    && (s.loop.Took? ==> 0 < |s.batch| <= c.batchSize)
    && (s.loop.Off? || s.loop.Exited? ==> s.batch == [])
    && (s.loop.Flushing? ==>
          && |s.log.flushed| > 0
          && s.log.flushed[|s.log.flushed| - 1] == Flush(s.loop.cause, s.batch))
  }

  ghost predicate Ordered(s: State) {
    s.log.sent == FlushedEvents(s.log.flushed) + InHand(s) + s.ch
  }

  ghost predicate Fifo(c: Config, s: State) {
    Sized(c, s) && Ordered(s) && |s.ch| <= c.maxSize && (!s.loop.Off? ==> s.start.Running?)
  }

  ghost function FifoOf(c: Config): State -> bool {
    s => Fifo(c, s)
  }

  /** Steps that touch nothing the order depends on. */
  lemma SameKeepsFifo(c: Config, s: State, s': State)
    requires FifoOf(c)(s)
    requires s'.ch == s.ch && s'.batch == s.batch && s'.loop == s.loop && s'.start == s.start
    requires s'.log.sent == s.log.sent && s'.log.flushed == s.log.flushed
    ensures FifoOf(c)(s')
  {
  }

  /** An event enters the channel: by a call or by the recovery. */
  lemma PushKeepsFifo(c: Config, s: State, e: PendingEvent, s': State)
    requires FifoOf(c)(s) && |s.ch| < c.maxSize
    requires s'.ch == s.ch + [e] && s'.log.sent == s.log.sent + [e]
    requires s'.batch == s.batch && s'.loop == s.loop && s'.log.flushed == s.log.flushed
    requires !s.loop.Off? ==> s'.start.Running?
    ensures FifoOf(c)(s')
  {
  }

  /** An event moves from the channel to the batch. */
  lemma TakeKeepsFifo(c: Config, s: State, s': State)
    requires ValidConfig(c) && FifoOf(c)(s) && s.ch != []
    requires s'.ch == s.ch[1..] && s'.batch == s.batch + [s.ch[0]] && s'.start == s.start
    requires (s.loop.Select? && s'.loop.Took?) || (s.loop.Draining? && s'.loop.DrainTook?)
    requires s'.log.sent == s.log.sent && s'.log.flushed == s.log.flushed
    ensures FifoOf(c)(s')
  {
    assert s.ch == [s.ch[0]] + s.ch[1..];
  }

  /** The batch becomes a flush. */
  lemma EnterKeepsFifo(c: Config, s: State, s': State)
    requires FifoOf(c)(s) && !s.loop.Flushing? && !s.loop.Off? && s'.loop.Flushing?
    requires s'.ch == s.ch && s'.batch == s.batch && s'.start == s.start
    requires s'.log.sent == s.log.sent
    requires s'.log.flushed == s.log.flushed + [Flush(s'.loop.cause, s.batch)]
    requires FlushSized(c, Flush(s'.loop.cause, s.batch))
    ensures FifoOf(c)(s')
  {
    FlushedSnoc(s.log.flushed, Flush(s'.loop.cause, s.batch));
  }

  lemma SelectKeepsFifo(c: Config, s: State, l: LoopStep, s': State)
    requires ValidConfig(c) && FifoOf(c)(s) && ApplySelect(c, s, l) == Some(s')
    ensures FifoOf(c)(s')
  {
    SelectLeaves(c, s, l, s');
    if l.Take? {
      TakeKeepsFifo(c, s, s');
    } else if s'.loop.Flushing? {
      EnterKeepsFifo(c, s, s');
    } else {
      assert s'.ch == s.ch && s'.batch == s.batch && s'.log.flushed == s.log.flushed;
    }
  }

  lemma FlushKeepsFifo(c: Config, s: State, s': State)
    requires ValidConfig(c) && FifoOf(c)(s) && s.loop.Flushing? && FlushFrame(s, s')
    requires || (s'.batch == s.batch && s'.loop.Flushing? && s'.loop.cause == s.loop.cause)
             || (s'.batch == [] && (s'.loop.Exited? || s'.loop.Select?))
    ensures FifoOf(c)(s')
  {
  }

  lemma CallKeepsFifo(c: Config, s: State, p: nat, a: CallStep, s': State)
    requires FifoOf(c)(s) && ApplyCall(c, s, p, a) == Some(s')
    ensures FifoOf(c)(s')
  {
    if s'.ch == s.ch {
      CallLeaves(c, s, p, a, s');
      SameKeepsFifo(c, s, s');
    } else {
      CallSends(c, s, p, a, s');
      PushKeepsFifo(c, s, s.calls[p].e, s');
    }
  }

  lemma StartKeepsFifo(c: Config, s: State, st: StartStep, s': State)
    requires ValidConfig(c) && FifoOf(c)(s) && ApplyStart(c, s, st) == Some(s')
    ensures FifoOf(c)(s')
  {
    StartLeaves(c, s, st, s');
    if s'.ch != s.ch {
      PushKeepsFifo(c, s, s.start.rest[0], s');
    } else {
      assert s'.log.sent == s.log.sent;
    }
  }

  lemma StepKeepsFifo(c: Config, s: State, step: Step, s': State)
    requires ValidConfig(c) && FifoOf(c)(s) && Apply(c, s, step) == Some(s')
    ensures FifoOf(c)(s')
  {
    match step
    case NewCall(p, e) => SameKeepsFifo(c, s, s');
    case CallStep(p, a) => CallKeepsFifo(c, s, p, a, s');
    case StartStep(st) => StartKeepsFifo(c, s, st, s');
    case LoopStep(l) =>
      if s.loop.Flushing? {
        FlushLeaves(c, s, l, s');
        FlushKeepsFifo(c, s, s');
      } else {
        SelectKeepsFifo(c, s, l, s');
      }
    case WriterStep(w) =>
      WriterLeaves(s, w, s');
      SameKeepsFifo(c, s, s');
    case DownStep(d) =>
      DownLeaves(s, d, s');
      SameKeepsFifo(c, s, s');
    case Crash =>
      BootFifo(c, s.disk, s.log.committed);
  }

  lemma BootFifo(c: Config, disk: Disk, committed: set<int>)
    requires ValidConfig(c)
    ensures FifoOf(c)(Boot(disk, committed))
  {
  }

  lemma NextKeepsFifo(c: Config, s: State, s': State)
    requires ValidConfig(c) && FifoOf(c)(s) && NextOf(c)(s, s')
    ensures FifoOf(c)(s')
  {
    var step :| Apply(c, s, step) == Some(s');
    StepKeepsFifo(c, s, step, s');
  }

  lemma ReachableFifo(c: Config, k: nat, s: State)
    requires ValidConfig(c) && Reaches(Init(), NextOf(c), k, s)
    ensures FifoOf(c)(s)
  {
    forall p, q | FifoOf(c)(p) && NextOf(c)(p, q) ensures FifoOf(c)(q) {
      NextKeepsFifo(c, p, q);
    }
    BootFifo(c, Disk(map[], {}), {});
    Invariance(Init(), NextOf(c), FifoOf(c), k, s);
  }

  /** In every state of every run, what was sent to the channel, recovered
      events included, is what was flushed, in order, then the batch in hand,
      then the channel. */
  lemma FifoConservation(c: Config, k: nat, s: State)
    requires ValidConfig(c) && Reaches(Init(), NextOf(c), k, s)
    ensures s.log.sent == FlushedEvents(s.log.flushed) + InHand(s) + s.ch
    ensures |s.ch| <= c.maxSize
  {
    ReachableFifo(c, k, s);
  }

  /** Outside the drain every flush carries between 1 and BatchSize events. */
  lemma FlushSizes(c: Config, k: nat, s: State, f: Flush)
    requires ValidConfig(c) && Reaches(Init(), NextOf(c), k, s)
    requires f in s.log.flushed
    ensures |f.events| > 0
    ensures f.cause.BySize? ==> |f.events| == c.batchSize
    ensures f.cause.ByTick? ==> |f.events| < c.batchSize
  {
    ReachableFifo(c, k, s);
    var i :| 0 <= i < |s.log.flushed| && s.log.flushed[i] == f;
    assert FlushSized(c, s.log.flushed[i]);
  }
}
