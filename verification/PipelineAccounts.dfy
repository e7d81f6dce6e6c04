/** Conservation and the counters, in every interleaving and even when the
    dead-letter queue evicts. */
module PipelineAccounts {
  import opened Events
  import opened Machines
  import opened DeadLetter
  import opened FlushRemoval
  import opened Pipeline
  import opened PipelineFifo
  import Depth = PipelineDepth

  /** Everything handed to a flush so far, as the store sees it. */
  function FlushedModels(fs: seq<Flush>): multiset<Event> {
    if |fs| == 0 then multiset{} else FlushedModels(fs[..|fs| - 1]) + multiset(Models(fs[|fs| - 1].events))
  }

  lemma FlushedModelsSnoc(fs: seq<Flush>, f: Flush)
    ensures FlushedModels(fs + [f]) == FlushedModels(fs) + multiset(Models(f.events))
  {
    assert (fs + [f])[..|fs|] == fs;
  }

  lemma {:induction false} FlushedModelsAre(fs: seq<Flush>)
    ensures FlushedModels(fs) == multiset(Models(FlushedEvents(fs)))
  {
    if |fs| > 0 {
      var rest, last := fs[..|fs| - 1], fs[|fs| - 1];
      FlushedModelsAre(rest);
      ModelsAppend(FlushedEvents(rest), last.events);
    }
  }

  lemma ModelsAppend(a: seq<PendingEvent>, b: seq<PendingEvent>)
    ensures multiset(Models(a + b)) == multiset(Models(a)) + multiset(Models(b))
  {
    assert Models(a + b) == Models(a) + Models(b);
  }

  /** What a flush in progress has still to store or dead-letter. */
  function Unsettled(s: State): multiset<Event> {
    if !s.loop.Flushing? then multiset{}
    else match s.loop.f
      case Entering => multiset(Models(s.batch))
      case Trying(_, _, _, left, _) => left
      case Removing(_, _) => multiset{}
      case Tallying(_) => multiset{}
  }

  ghost predicate Settled(c: Config, s: State) {
    && FlushedModels(s.log.flushed) == multiset(s.log.stored) + multiset(EventsOf(s.log.buried)) + Unsettled(s)
    && s.dlq == LastN(s.log.buried, c.dlqSize)
    && (s.loop.Flushing? && s.loop.f.Trying? && !s.loop.f.itemised ==> s.loop.f.left == multiset(Models(s.batch)))
  }

  /** The dead-letter length totalFlushed has already been charged with. */
  function Charged(s: State): int {
    if !s.loop.Flushing? then |s.dlq|
    else match s.loop.f
      case Entering => |s.dlq|
      case Trying(before, _, _, _, _) => before
      case Removing(_, grown) => |s.dlq| - grown
      case Tallying(grown) => |s.dlq| - grown
  }

  ghost predicate Tallied(s: State) {
    s.flushedCount + Charged(s) + InFlush(s) == |FlushedEvents(s.log.flushed)|
  }

  ghost function AcctOf(c: Config): State -> bool {
    s => Settled(c, s) && Tallied(s)
  }

  lemma SameKeepsAcct(c: Config, s: State, s': State)
    requires AcctOf(c)(s)
    requires s'.dlq == s.dlq && s'.flushedCount == s.flushedCount
    requires s'.log.flushed == s.log.flushed && s'.log.stored == s.log.stored && s'.log.buried == s.log.buried
    requires (s'.loop == s.loop && s'.batch == s.batch) || (!s.loop.Flushing? && !s'.loop.Flushing?)
    ensures AcctOf(c)(s')
  {
  }

  lemma EnterKeepsAcct(c: Config, s: State, s': State)
    requires AcctOf(c)(s) && !s.loop.Flushing?
    requires s'.loop.Flushing? && s'.loop.f.Entering? && s'.batch == s.batch
    requires s'.dlq == s.dlq && s'.flushedCount == s.flushedCount
    requires s'.log.flushed == s.log.flushed + [Flush(s'.loop.cause, s.batch)]
    requires s'.log.stored == s.log.stored && s'.log.buried == s.log.buried
    ensures AcctOf(c)(s')
  {
    FlushedModelsSnoc(s.log.flushed, Flush(s'.loop.cause, s.batch));
    FlushedSnoc(s.log.flushed, Flush(s'.loop.cause, s.batch));
  }

  lemma BuryKeepsAcct(c: Config, s: State, l: LoopStep, s': State)
    requires AcctOf(c)(s) && s.loop.Flushing? && l.BuryItem? && ApplyFlush(c, s, l) == Some(s')
    ensures AcctOf(c)(s')
  {
    BuryLeaves(c, s, l, s');
    BuriedKeepsAcct(c, s, DeadLetterEvent(l.e, l.attempts), s');
  }

  lemma BuriedKeepsAcct(c: Config, s: State, entry: Entry, s': State)
    requires AcctOf(c)(s) && Buries(c, s, entry, s')
    ensures AcctOf(c)(s')
  {
    LastNAppend(s.log.buried, [entry], c.dlqSize);
    BuriedBalance(s.log.stored, s.log.buried, entry, s.loop.f.left);
    assert Settled(c, s');
    assert Tallied(s');
  }

  lemma BuriedBalance(stored: seq<Event>, buried: seq<Entry>, entry: Entry, left: multiset<Event>)
    requires entry.event in left
    ensures multiset(stored) + multiset(EventsOf(buried + [entry])) + (left - multiset{entry.event})
         == multiset(stored) + multiset(EventsOf(buried)) + left
  {
    assert EventsOf(buried + [entry]) == EventsOf(buried) + [entry.event];
  }

  /** Events move from the flush in progress to the store. */
  lemma StoreKeepsAcct(c: Config, s: State, es: seq<Event>, s': State)
    requires AcctOf(c)(s) && s.loop.Flushing? && s'.loop.Flushing?
    requires s.loop.f.Trying? && s'.loop.f.Trying? && s'.loop.f.itemised
    requires s'.loop.f.before == s.loop.f.before
    requires s.loop.f.left == s'.loop.f.left + multiset(es)
    requires s'.dlq == s.dlq && s'.flushedCount == s.flushedCount && s'.batch == s.batch
    requires s'.log.stored == s.log.stored + es
    requires s'.log.flushed == s.log.flushed && s'.log.buried == s.log.buried
    ensures AcctOf(c)(s')
  {
  }

  lemma InsertKeepsAcct(c: Config, s: State, l: LoopStep, s': State)
    requires AcctOf(c)(s) && s.loop.Flushing? && (l.InsertItem? || l.InsertBatch?) && ApplyFlush(c, s, l) == Some(s')
    ensures AcctOf(c)(s')
  {
    FlushLeaves(c, s, l, s');
    if l.InsertItem? {
      StoreKeepsAcct(c, s, [l.e], s');
    } else {
      StoreKeepsAcct(c, s, Models(s.batch), s');
    }
  }

  function InFlush(s: State): int {
    if s.loop.Flushing? then |s.batch| else 0
  }

  /** The flush moves on without storing or dead-lettering anything. */
  lemma AdvanceKeepsAcct(c: Config, s: State, s': State)
    requires AcctOf(c)(s) && s'.dlq == s.dlq
    requires s'.log.flushed == s.log.flushed && s'.log.stored == s.log.stored && s'.log.buried == s.log.buried
    requires Unsettled(s') == Unsettled(s)
    requires s'.flushedCount + Charged(s') + InFlush(s') == s.flushedCount + Charged(s) + InFlush(s)
    requires s'.loop.Flushing? && s'.loop.f.Trying? && !s'.loop.f.itemised ==> s'.loop.f.left == multiset(Models(s'.batch))
    ensures AcctOf(c)(s')
  {
  }

  lemma OtherFlushKeepsAcct(c: Config, s: State, l: LoopStep, s': State)
    requires AcctOf(c)(s) && s.loop.Flushing? && ApplyFlush(c, s, l) == Some(s')
    requires !l.BuryItem? && !l.InsertItem? && !l.InsertBatch?
    ensures AcctOf(c)(s')
  {
    OtherFlushLeaves(c, s, l, s');
    OtherFlushMoves(c, s, l, s');
    OtherFlushCounts(c, s, l, s');
    AdvanceKeepsAcct(c, s, s');
  }

  predicate Otherwise(l: LoopStep) {
    l.ReadLength? || l.Itemise? || l.Measure? || l.Remove? || l.Tally?
  }

  lemma OtherFlushLeaves(c: Config, s: State, l: LoopStep, s': State)
    requires s.loop.Flushing? && ApplyFlush(c, s, l) == Some(s') && Otherwise(l)
    ensures s'.log == s.log && s'.dlq == s.dlq
  {
  }

  lemma OtherFlushMoves(c: Config, s: State, l: LoopStep, s': State)
    requires s.loop.Flushing? && ApplyFlush(c, s, l) == Some(s') && Otherwise(l)
    ensures Unsettled(s') == Unsettled(s)
    ensures s'.loop.Flushing? && s'.loop.f.Trying? && !s'.loop.f.itemised ==> s'.loop.f.left == multiset(Models(s'.batch))
  {
  }

  lemma OtherFlushCounts(c: Config, s: State, l: LoopStep, s': State)
    requires s.loop.Flushing? && ApplyFlush(c, s, l) == Some(s') && Otherwise(l)
    ensures s'.flushedCount + Charged(s') + InFlush(s') == s.flushedCount + Charged(s) + InFlush(s)
  {
  }

  lemma FlushKeepsAcct(c: Config, s: State, l: LoopStep, s': State)
    requires AcctOf(c)(s) && s.loop.Flushing? && ApplyFlush(c, s, l) == Some(s')
    ensures AcctOf(c)(s')
  {
    if l.BuryItem? {
      BuryKeepsAcct(c, s, l, s');
    } else if l.InsertItem? || l.InsertBatch? {
      InsertKeepsAcct(c, s, l, s');
    } else {
      OtherFlushKeepsAcct(c, s, l, s');
    }
  }

  lemma StartKeepsAcct(c: Config, s: State, st: StartStep, s': State)
    requires AcctOf(c)(s) && ApplyStart(c, s, st) == Some(s') && Depth.LoopAfterStart(s)
    ensures AcctOf(c)(s')
  {
    StartLeaves(c, s, st, s');
    SameKeepsAcct(c, s, s');
  }

  lemma SelectKeepsAcct(c: Config, s: State, l: LoopStep, s': State)
    requires AcctOf(c)(s) && !s.loop.Flushing? && ApplySelect(c, s, l) == Some(s')
    ensures AcctOf(c)(s')
  {
    SelectLeaves(c, s, l, s');
    if s'.loop.Flushing? {
      EnterKeepsAcct(c, s, s');
    } else {
      assert s'.log.flushed == s.log.flushed;
      SameKeepsAcct(c, s, s');
    }
  }

  lemma CallKeepsAcct(c: Config, s: State, p: nat, a: CallStep, s': State)
    requires AcctOf(c)(s) && ApplyCall(c, s, p, a) == Some(s')
    ensures AcctOf(c)(s')
  {
    if s'.ch == s.ch {
      CallLeaves(c, s, p, a, s');
    } else {
      CallSends(c, s, p, a, s');
    }
    SameKeepsAcct(c, s, s');
  }

  lemma StepKeepsAcct(c: Config, s: State, step: Step, s': State)
    requires AcctOf(c)(s) && Apply(c, s, step) == Some(s') && Depth.LoopAfterStart(s)
    ensures AcctOf(c)(s')
  {
    match step
    case NewCall(p, e) => SameKeepsAcct(c, s, s');
    case CallStep(p, a) => CallKeepsAcct(c, s, p, a, s');
    case StartStep(st) => StartKeepsAcct(c, s, st, s');
    case LoopStep(l) =>
      if s.loop.Flushing? {
        FlushKeepsAcct(c, s, l, s');
      } else {
        SelectKeepsAcct(c, s, l, s');
      }
    case WriterStep(w) =>
      WriterLeaves(s, w, s');
      SameKeepsAcct(c, s, s');
    case DownStep(d) =>
      DownLeaves(s, d, s');
      SameKeepsAcct(c, s, s');
    case Crash => BootAcct(c, s.disk, s.log.committed);
  }

  lemma BootAcct(c: Config, disk: Disk, committed: set<int>)
    ensures AcctOf(c)(Boot(disk, committed))
  {
  }

  // ---- totalEnqueued -----------------------------------------------------------

  /** Events sent whose sender has not yet raised totalEnqueued. */
  function Uncredited(s: State): int {
    (if Depth.HolderPc(s) == Some(Sent) then 1 else 0) + (if s.start.Fed? then 1 else 0)
  }

  ghost function CreditOf(): State -> bool {
    (s: State) => s.enqueued + Uncredited(s) == |s.log.sent|
  }

  lemma CallKeepsCredit(c: Config, s: State, p: nat, a: CallStep, s': State)
    requires Depth.InvOf(c)(s) && CreditOf()(s) && ApplyCall(c, s, p, a) == Some(s')
    ensures CreditOf()(s')
  {
    if Depth.Critical(s.calls[p].pc) {
      Depth.InsideSteps(c, s, p, a, s');
      if s'.ch == s.ch {
        CallLeaves(c, s, p, a, s');
      } else {
        CallSends(c, s, p, a, s');
      }
    } else {
      Depth.OutsideKeepsHolder(c, s, p, a, s');
      CallLeaves(c, s, p, a, s');
      assert s'.enqueued == s.enqueued;
    }
  }

  lemma StartKeepsCredit(c: Config, s: State, st: StartStep, s': State)
    requires CreditOf()(s) && ApplyStart(c, s, st) == Some(s')
    ensures CreditOf()(s')
  {
    StartLeaves(c, s, st, s');
    assert Depth.HolderPc(s') == Depth.HolderPc(s);
  }

  lemma StepKeepsCredit(c: Config, s: State, step: Step, s': State)
    requires Depth.InvOf(c)(s) && CreditOf()(s) && Apply(c, s, step) == Some(s')
    ensures CreditOf()(s')
  {
    match step
    case NewCall(p, e) => assert Depth.HolderPc(s') == Depth.HolderPc(s);
    case CallStep(p, a) => CallKeepsCredit(c, s, p, a, s');
    case StartStep(st) => StartKeepsCredit(c, s, st, s');
    case LoopStep(l) =>
      if s.loop.Flushing? {
        FlushLeaves(c, s, l, s');
      } else {
        SelectLeaves(c, s, l, s');
      }
      assert Depth.HolderPc(s') == Depth.HolderPc(s);
    case WriterStep(w) =>
      WriterLeaves(s, w, s');
      assert Depth.HolderPc(s') == Depth.HolderPc(s);
    case DownStep(d) =>
      DownLeaves(s, d, s');
      assert Depth.HolderPc(s') == Depth.HolderPc(s);
    case Crash =>
  }

  // ---- Main results ------------------------------------------------------------

  ghost function BooksOf(c: Config): State -> bool {
    s => Depth.FullOf(c)(s) && AcctOf(c)(s) && CreditOf()(s)
  }

  lemma StepKeepsBooks(c: Config, s: State, step: Step, s': State)
    requires Depth.FullOf(c)(s) && AcctOf(c)(s) && CreditOf()(s) && Apply(c, s, step) == Some(s')
    ensures Depth.FullOf(c)(s') && AcctOf(c)(s') && CreditOf()(s')
  {
    assert Depth.InvOf(c)(s) && Depth.LoopAfterStart(s);
    Depth.StepKeeps(c, s, step, s');
    Depth.StepKeepsLoopAfterStart(c, s, step, s');
    StepKeepsAcct(c, s, step, s');
    StepKeepsCredit(c, s, step, s');
  }

  lemma NextKeepsBooks(c: Config, s: State, s': State)
    requires BooksOf(c)(s) && NextOf(c)(s, s')
    ensures BooksOf(c)(s')
  {
    var step :| Apply(c, s, step) == Some(s');
    StepKeepsBooks(c, s, step, s');
  }

  lemma BootBooks(c: Config, disk: Disk, committed: set<int>)
    ensures BooksOf(c)(Boot(disk, committed))
  {
    Depth.BootKeeps(c, disk, committed);
    BootAcct(c, disk, committed);
    assert CreditOf()(Boot(disk, committed));
  }

  lemma BooksParts(c: Config, s: State)
    requires BooksOf(c)(s)
    ensures Depth.FullOf(c)(s) && AcctOf(c)(s) && CreditOf()(s)
  {
  }

  lemma ReachableBooks(c: Config, k: nat, s: State)
    requires Reaches(Init(), NextOf(c), k, s)
    ensures Depth.FullOf(c)(s) && AcctOf(c)(s) && CreditOf()(s)
  {
    forall p, q | BooksOf(c)(p) && NextOf(c)(p, q) ensures BooksOf(c)(q) {
      NextKeepsBooks(c, p, q);
    }
    BootBooks(c, Disk(map[], {}), {});
    Invariance(Init(), NextOf(c), BooksOf(c), k, s);
    BooksParts(c, s);
  }

  /** Between critical sections: no call holds the lock, no recovered event is
      half counted and no flush is in progress. */
  predicate Quiet(s: State) {
    !s.lock.ByCall? && !s.start.Fed? && !s.loop.Flushing?
  }

  lemma ConservationFacts(c: Config, s: State)
    requires AcctOf(c)(s)
    ensures multiset(Models(FlushedEvents(s.log.flushed)))
         == multiset(s.log.stored) + multiset(EventsOf(s.log.buried)) + Unsettled(s)
    ensures |FlushedEvents(s.log.flushed)| == |s.log.stored| + |s.log.buried| + |Unsettled(s)|
    ensures s.dlq == LastN(s.log.buried, c.dlqSize)
  {
    FlushedModelsAre(s.log.flushed);
    var a, b := multiset(s.log.stored), multiset(EventsOf(s.log.buried));
    assert |a + b + Unsettled(s)| == |a| + |b| + |Unsettled(s)|;
  }

  /** Everything flushed so far was inserted, dead-lettered or is still being
      retried, each event as often as it was flushed; and the dead-letter queue
      holds the last `dlqSize` entries ever added, in order. */
  lemma FlushConservation(c: Config, k: nat, s: State)
    requires Reaches(Init(), NextOf(c), k, s)
    ensures multiset(Models(FlushedEvents(s.log.flushed)))
         == multiset(s.log.stored) + multiset(EventsOf(s.log.buried)) + Unsettled(s)
    ensures s.dlq == LastN(s.log.buried, c.dlqSize)
  {
    ReachableBooks(c, k, s);
    ConservationFacts(c, s);
  }

  lemma QuietFacts(c: Config, s: State)
    requires FifoOf(c)(s) && AcctOf(c)(s) && CreditOf()(s) && Quiet(s)
    ensures s.enqueued == s.flushedCount + |s.dlq| + |s.batch| + |s.ch|
    ensures s.flushedCount == |s.log.stored| + (|s.log.buried| - |s.dlq|)
  {
    ConservationFacts(c, s);
    assert Depth.HolderPc(s) == None;
  }

  /** Telescoping accounts: totalEnqueued = totalFlushed + dead letters + batch
      + channel, and totalFlushed = inserted + evicted. */
  lemma TelescopingAccounts(c: Config, k: nat, s: State)
    requires ValidConfig(c) && Reaches(Init(), NextOf(c), k, s) && Quiet(s)
    ensures s.enqueued == s.flushedCount + |s.dlq| + |s.batch| + |s.ch|
    ensures s.flushedCount == |s.log.stored| + (|s.log.buried| - |s.dlq|)
  {
    ReachableBooks(c, k, s);
    ReachableFifo(c, k, s);
    QuietFacts(c, s);
  }
}
