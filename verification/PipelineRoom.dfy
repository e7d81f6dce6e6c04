/** Crash safety of one flush, from what is known before it begins. */
module PipelineRoom {
  import opened Events
  import opened Machines
  import opened DeadLetter
  import opened FlushRemoval
  import opened Pipeline
  import opened PipelineCrash
  import Depth = PipelineDepth

  /** A step of any goroutine, no crash, while the flush is in progress. */
  ghost predicate FlushNext(c: Config, s: State, s': State) {
    s.loop.Flushing? && exists step: Step :: !step.Crash? && Apply(c, s, step) == Some(s')
  }

  ghost function FlushNextOf(c: Config): (State, State) -> bool {
    (s, s') => FlushNext(c, s, s')
  }

  /** Every crash-free way of going through the flush and finishing it keeps every
      committed event in the bucket or in the table. */
  ghost predicate AlwaysSafe(c: Config, s: State) {
    forall k: nat, s' :: Reaches(s, FlushNextOf(c), k, s') ==> Safe(s')
  }

  ghost function AlwaysSafeOf(c: Config): State -> bool {
    s => AlwaysSafe(c, s)
  }

  // ---- With room for the whole batch -------------------------------------------------

  /** The whole batch would fit in the room there was when the flush began. */
  ghost predicate RoomFor(c: Config, s: State) {
    s.loop.Flushing? ==>
      && (s.loop.f.Entering? ==> Fits(s.log.buried, |s.batch|, c.dlqSize))
      && (s.loop.f.Trying? && s.loop.f.buriedMark <= |s.log.buried| ==> Fits(Earlier(s), |s.batch|, c.dlqSize))
  }

  ghost function RoomyOf(c: Config): State -> bool {
    s => PipelineCrash.Inv(c, s) && Depth.LoopAfterStart(s) && RoomFor(c, s)
  }

  lemma RoomyParts(c: Config, s: State)
    requires RoomyOf(c)(s)
    ensures InvOf(c)(s) && Depth.LoopAfterStart(s) && RoomFor(c, s)
  {
  }

  lemma RoomyFrom(c: Config, s: State)
    requires InvOf(c)(s) && Depth.LoopAfterStart(s) && RoomFor(c, s)
    ensures RoomyOf(c)(s)
  {
  }

  /** No more events fail than the batch holds. */
  lemma FailuresBounded(batch: seq<Event>, left: multiset<Event>, stored: multiset<Event>, failed: seq<Entry>)
    requires multiset(batch) == left + stored + multiset(EventsOf(failed))
    ensures |failed| <= |batch|
  {
    assert |multiset(batch)| == |left + stored| + |multiset(EventsOf(failed))|;
  }

  lemma RoomIsRoomy(c: Config, s: State)
    requires InvOf(c)(s) && RoomFor(c, s)
    ensures Roomy(c, s)
  {
    if RetriesOver(s) {
      RetriesOverFacts(c, s);
      FailuresBounded(Models(s.batch), multiset{}, multiset(s.log.stored[s.loop.f.storedMark..]), Failures(s));
    }
  }

  /** Where the flush's own steps go, as far as the room is concerned. */
  lemma FlushMoves(c: Config, s: State, l: LoopStep, s': State)
    requires s.loop.Flushing? && !l.BuryItem? && ApplyFlush(c, s, l) == Some(s')
    ensures s'.log.buried == s.log.buried
    ensures s'.loop.Flushing? ==> s'.batch == s.batch && !s'.loop.f.Entering?
    ensures s'.loop.Flushing? && s'.loop.f.Trying? ==>
      if s.loop.f.Entering? then s'.loop.f.buriedMark == |s.log.buried|
      else s.loop.f.Trying? && s'.loop.f.buriedMark == s.loop.f.buriedMark
  {
  }

  lemma FlushKeepsRoom(c: Config, s: State, l: LoopStep, s': State)
    requires InvOf(c)(s) && RoomFor(c, s) && s.loop.Flushing? && ApplyFlush(c, s, l) == Some(s')
    ensures RoomFor(c, s')
  {
    if l.BuryItem? {
      BuryLeaves(c, s, l, s');
      BuriedKeepsRoom(c, s, DeadLetterEvent(l.e, l.attempts), s');
    } else {
      FlushMoves(c, s, l, s');
      assert s.log.buried[..|s.log.buried|] == s.log.buried;
    }
  }

  lemma BuriedKeepsRoom(c: Config, s: State, entry: Entry, s': State)
    requires InvOf(c)(s) && RoomFor(c, s) && Buries(c, s, entry, s')
    ensures RoomFor(c, s')
  {
    assert TryingOk(c, s);
    BuriedGrows(s, entry, s');
  }

  lemma OthersKeepRoom(c: Config, s: State, s': State)
    requires RoomFor(c, s) && s'.loop == s.loop && s'.batch == s.batch && s'.log.buried == s.log.buried
    ensures RoomFor(c, s')
  {
  }

  lemma StepKeepsRoom(c: Config, s: State, step: Step, s': State)
    requires InvOf(c)(s) && RoomFor(c, s) && s.loop.Flushing? && s.start.Running?
    requires !step.Crash? && Apply(c, s, step) == Some(s')
    ensures RoomFor(c, s')
  {
    match step
    case NewCall(p, e) => OthersKeepRoom(c, s, s');
    case CallStep(p, a) =>
      if s'.ch == s.ch { CallLeaves(c, s, p, a, s'); } else { CallSends(c, s, p, a, s'); }
      OthersKeepRoom(c, s, s');
    case StartStep(st) =>
    case LoopStep(l) => FlushKeepsRoom(c, s, l, s');
    case WriterStep(w) =>
      WriterLeaves(s, w, s');
      OthersKeepRoom(c, s, s');
    case DownStep(d) =>
      DownLeaves(s, d, s');
      OthersKeepRoom(c, s, s');
  }

  lemma NextKeepsRoom(c: Config, s: State, s': State)
    requires RoomyOf(c)(s) && FlushNextOf(c)(s, s')
    ensures RoomyOf(c)(s')
  {
    RoomyParts(c, s);
    RoomIsRoomy(c, s);
    var step: Step :| !step.Crash? && Apply(c, s, step) == Some(s');
    StepKeeps(c, s, step, s');
    Depth.StepKeepsLoopAfterStart(c, s, step, s');
    StepKeepsRoom(c, s, step, s');
    RoomyFrom(c, s');
  }

  lemma RoomKeepsSafe(c: Config, s: State, k: nat, s': State)
    requires RoomyOf(c)(s) && Reaches(s, FlushNextOf(c), k, s')
    ensures Safe(s')
  {
    forall p, q | RoomyOf(c)(p) && FlushNextOf(c)(p, q) ensures RoomyOf(c)(q) {
      NextKeepsRoom(c, p, q);
    }
    Invariance(s, FlushNextOf(c), RoomyOf(c), k, s');
  }

  // ---- Without it ------------------------------------------------------------------------

  /** A run of flush steps leads here, with the invariants. */
  ghost function LedOf(c: Config, s0: State): State -> bool {
    s => Led(c, s0, s)
  }

  ghost predicate Led(c: Config, s0: State, s: State) {
    PipelineCrash.Inv(c, s) && exists k: nat :: Reaches(s0, FlushNextOf(c), k, s)
  }

  lemma Here(c: Config, s: State)
    requires InvOf(c)(s)
    ensures LedOf(c, s)(s)
  {
    assert Reaches(s, FlushNextOf(c), 0, s);
  }

  lemma Do(c: Config, s0: State, s: State, l: LoopStep)
    requires LedOf(c, s0)(s) && s.loop.Flushing? && !l.Measure? && ApplyFlush(c, s, l).Some?
    ensures LedOf(c, s0)(ApplyFlush(c, s, l).value)
  {
    var s' := ApplyFlush(c, s, l).value;
    LedInv(c, s0, s);
    FlushStepKeeps(c, s, l, s');
    Extends(c, s0, s, l);
  }

  lemma LedInv(c: Config, s0: State, s: State)
    requires LedOf(c, s0)(s)
    ensures InvOf(c)(s)
  {
  }

  /** Steps other than the measurement need no room. */
  lemma FlushStepKeeps(c: Config, s: State, l: LoopStep, s': State)
    requires InvOf(c)(s) && s.loop.Flushing? && !l.Measure? && ApplyFlush(c, s, l) == Some(s')
    ensures InvOf(c)(s')
  {
    if l.InsertBatch? || l.InsertItem? {
      InsertKeeps(c, s, l, s');
    } else {
      match l
      case ReadLength => ReadLengthKeeps(c, s, s');
      case BuryItem(_, _) => BuryKeeps(c, s, l, s');
      case Remove(deleted) => RemoveKeeps(c, s, deleted, s');
      case Itemise => ItemiseKeeps(c, s, s');
      case Tally => TallyKeeps(c, s, s');
      case _ => assert false;
    }
  }

  ghost predicate Reached(c: Config, s0: State, s: State) {
    exists k: nat :: Reaches(s0, FlushNextOf(c), k, s)
  }

  lemma ReachesOn(c: Config, s0: State, s: State, l: LoopStep)
    requires Reached(c, s0, s) && s.loop.Flushing? && ApplyFlush(c, s, l).Some?
    ensures Reached(c, s0, ApplyFlush(c, s, l).value)
  {
    var s' := ApplyFlush(c, s, l).value;
    assert Apply(c, s, LoopStep(l)) == Some(s');
    assert FlushNext(c, s, s');
    var k: nat :| Reaches(s0, FlushNextOf(c), k, s);
    Extend(s0, FlushNextOf(c), k, s, s');
  }

  lemma Extends(c: Config, s0: State, s: State, l: LoopStep)
    requires LedOf(c, s0)(s) && s.loop.Flushing? && ApplyFlush(c, s, l).Some? && InvOf(c)(ApplyFlush(c, s, l).value)
    ensures LedOf(c, s0)(ApplyFlush(c, s, l).value)
  {
    ReachesOn(c, s0, s, l);
  }

  /** What burying leaves alone. */
  predicate SameFlush(s: State, s': State) {
    && s'.disk == s.disk && s'.batch == s.batch && s'.closed == s.closed
    && s'.log.committed == s.log.committed && s'.log.stored == s.log.stored
    && s'.loop.Flushing? && s'.loop.f.Trying? && s.loop.Flushing? && s.loop.f.Trying?
    && s'.loop.f.buriedMark == s.loop.f.buriedMark && s'.loop.f.storedMark == s.loop.f.storedMark
    && s.loop.f.buriedMark <= |s.log.buried| && s.log.buried <= s'.log.buried
  }

  lemma SomeEvent<T>(left: multiset<T>) returns (e: T)
    requires left != multiset{}
    ensures e in left
  {
    e :| e in left;
  }

  lemma BuryOne(c: Config, s: State, e: Event)
    requires s.loop.Flushing? && s.loop.f.Trying? && s.loop.f.itemised && e in s.loop.f.left
    requires s.loop.f.buriedMark <= |s.log.buried|
    ensures var t := ApplyFlush(c, s, BuryItem(e, 0));
      && t.Some? && SameFlush(s, t.value) && t.value.loop.f.itemised
      && t.value.loop.f.left == s.loop.f.left - multiset{e}
  {
    FlushLeaves(c, s, BuryItem(e, 0), ApplyFlush(c, s, BuryItem(e, 0)).value);
  }

  /** Everything left fails. */
  lemma BuryAll(c: Config, s0: State, s: State) returns (s': State)
    requires LedOf(c, s0)(s) && s.loop.Flushing? && s.loop.f.Trying? && s.loop.f.itemised
    requires s.loop.f.buriedMark <= |s.log.buried|
    ensures LedOf(c, s0)(s') && SameFlush(s, s') && s'.loop.f.itemised && s'.loop.f.left == multiset{}
    decreases |s.loop.f.left|
  {
    if s.loop.f.left == multiset{} {
      s' := s;
    } else {
      var e := SomeEvent(s.loop.f.left);
      BuryOne(c, s, e);
      Do(c, s0, s, BuryItem(e, 0));
      assert s.loop.f.left == (s.loop.f.left - multiset{e}) + multiset{e};
      s' := BuryAll(c, s0, ApplyFlush(c, s, BuryItem(e, 0)).value);
    }
  }

  /** The flush begins, and its batch insert is given up. */
  lemma Begin(c: Config, s: State)
    requires s.loop.Flushing? && s.loop.f.Entering?
    ensures var t1 := ApplyFlush(c, s, ReadLength);
      && t1.Some? && t1.value.loop.Flushing?
      && var t2 := ApplyFlush(c, t1.value, Itemise);
      && t2.Some? && t2.value.loop.Flushing? && t2.value.loop.f.Trying? && t2.value.loop.f.itemised
      && t2.value.loop.f.buriedMark == |s.log.buried| && t2.value.loop.f.storedMark == |s.log.stored|
      && t2.value.log == s.log && t2.value.disk == s.disk && t2.value.batch == s.batch && t2.value.closed == s.closed
  {
  }

  lemma AllFail(c: Config, s: State) returns (t: State)
    requires InvOf(c)(s) && s.loop.Flushing? && s.loop.f.Entering?
    ensures LedOf(c, s)(t) && RetriesOver(t) && t.loop.f.itemised
    ensures t.disk == s.disk && t.batch == s.batch && t.closed == s.closed && t.log.committed == s.log.committed
    ensures Earlier(t) == s.log.buried && t.loop.f.storedMark == |t.log.stored|
  {
    Begin(c, s);
    Here(c, s);
    Do(c, s, s, ReadLength);
    var t1 := ApplyFlush(c, s, ReadLength).value;
    Do(c, s, t1, Itemise);
    t := BuryAll(c, s, ApplyFlush(c, t1, Itemise).value);
  }

  /** Then the failures are the batch. */
  lemma FailuresAreBatch(c: Config, t: State)
    requires InvOf(c)(t) && RetriesOver(t) && t.loop.f.storedMark == |t.log.stored|
    ensures multiset(EventsOf(Failures(t))) == multiset(Models(t.batch)) && |Failures(t)| == |t.batch|
  {
    RetriesOverFacts(c, t);
    assert t.log.stored[|t.log.stored|..] == [];
    assert |multiset(EventsOf(Failures(t)))| == |multiset(Models(t.batch))|;
  }

  /** Every event of the batch has been put, and none is in the table yet. */
  ghost predicate Pending(s: State) {
    forall e :: e in s.batch ==> e.eventID in s.log.committed && e.eventID !in s.disk.rows
  }

  lemma FailuresPending(t: State)
    requires RetriesOver(t) && multiset(EventsOf(Failures(t))) == multiset(Models(t.batch)) && Pending(t)
    ensures forall e :: e in Failures(t) ==> e.event.id in t.log.committed && e.event.id !in t.disk.rows
  {
    forall e | e in Failures(t) ensures e.event.id in t.log.committed && e.event.id !in t.disk.rows {
      var i :| 0 <= i < |Failures(t)| && Failures(t)[i] == e;
      assert EventsOf(Failures(t))[i] in multiset(Models(t.batch));
      var j :| 0 <= j < |Models(t.batch)| && Models(t.batch)[j] == e.event;
      assert t.batch[j] in t.batch;
    }
  }

  lemma RemovalReached(c: Config, s: State, t: State)
    requires LedOf(c, s)(t) && RetriesOver(t) && t.loop.f.itemised && c.persistent && !t.closed
    ensures Reached(c, s, AfterRemoval(c, t))
  {
    MeasureShape(c, t);
    ReachesOn(c, s, t, Measure);
    var m := ApplyFlush(c, t, Measure).value;
    RemoveShape(c, m);
    ReachesOn(c, s, m, Remove(IdsIn(m.loop.f.ids)));
  }

  /** Without room, a flush in which everything fails loses an event. */
  lemma NoRoomLoses(c: Config, s: State) returns (s': State)
    requires InvOf(c)(s) && s.loop.Flushing? && s.loop.f.Entering? && c.persistent && !s.closed
    requires DistinctIds(Models(s.batch)) && Pending(s) && !Fits(s.log.buried, |s.batch|, c.dlqSize)
    ensures Reached(c, s, s') && !Safe(s')
  {
    var t := AllFail(c, s);
    LedInv(c, s, t);
    FailuresAreBatch(c, t);
    FailuresPending(t);
    RemovalSafeIffRoom(c, t);
    RemovalReached(c, s, t);
    s' := AfterRemoval(c, t);
  }

  // ---- Main result -----------------------------------------------------------------------

  /** Take a flush about to begin in a run whose earlier flushes had room, of
      distinct events that have been put and are not in the table yet. Every crash-free way of going through it, with the
      other goroutines in between, keeps all committed events if and only if the
      whole batch would fit in the dead-letter queue's free room. */
  lemma FlushSafeIffRoom(c: Config, n: nat, s: State)
    requires Reaches(Init(), RoomyNextOf(c), n, s) && s.loop.Flushing? && s.loop.f.Entering? && c.persistent && !s.closed
    requires DistinctIds(Models(s.batch)) && Pending(s)
    ensures AlwaysSafeOf(c)(s) <==> Fits(s.log.buried, |s.batch|, c.dlqSize)
  {
    ReachableInv(c, n, s);
    if Fits(s.log.buried, |s.batch|, c.dlqSize) {
      RoomyFrom(c, s);
      forall k: nat, s' | Reaches(s, FlushNextOf(c), k, s') ensures Safe(s') {
        RoomKeepsSafe(c, s, k, s');
      }
      assert AlwaysSafe(c, s);
    } else {
      var s' := NoRoomLoses(c, s);
      var k: nat :| Reaches(s, FlushNextOf(c), k, s');
      assert !AlwaysSafe(c, s);
    }
  }
}
