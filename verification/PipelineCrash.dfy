/** Crash safety: once an event's write to the bolt bucket has committed, the
    event is in the bucket or in the events table ever after, across any number
    of crashes and restarts, as long as no flush has more failures than the
    dead-letter queue has room for. */
module PipelineCrash {
  import opened Events
  import opened Machines
  import opened DeadLetter
  import opened FlushRemoval
  import opened Pipeline
  import Depth = PipelineDepth

  ghost predicate Kept(s: State, id: int) {
    id in s.disk.bolt || id in s.disk.rows
  }

  ghost predicate Safe(s: State) {
    forall id :: id in s.log.committed ==> Kept(s, id)
  }

  /** The dead-letter history when the flush in progress began, and the failures
      since. */
  function Earlier(s: State): seq<Entry>
    requires s.loop.Flushing? && s.loop.f.Trying? && s.loop.f.buriedMark <= |s.log.buried|
  {
    s.log.buried[..s.loop.f.buriedMark]
  }

  function Failures(s: State): seq<Entry>
    requires s.loop.Flushing? && s.loop.f.Trying? && s.loop.f.buriedMark <= |s.log.buried|
  {
    s.log.buried[s.loop.f.buriedMark..]
  }

  /** The retries of a flush are over. */
  predicate RetriesOver(s: State) {
    s.loop.Flushing? && s.loop.f.Trying? && s.loop.f.left == multiset{} && s.loop.f.buriedMark <= |s.log.buried|
  }

  /** If the retries of a flush are over, its failures fit in the room the
      dead-letter queue had when it began. */
  ghost predicate Roomy(c: Config, s: State) {
    RetriesOver(s) ==> Fits(Earlier(s), |Failures(s)|, c.dlqSize)
  }

  /** Steps of runs in which every flush's failures fit. */
  ghost function RoomyNextOf(c: Config): (State, State) -> bool {
    (s, s') => Roomy(c, s) && Next(c, s, s')
  }

  ghost predicate TryingOk(c: Config, s: State)
    requires s.loop.Flushing? && s.loop.f.Trying?
  {
    var f := s.loop.f;
    && f.buriedMark <= |s.log.buried| && f.storedMark <= |s.log.stored|
    && f.before == |LastN(Earlier(s), c.dlqSize)|
    && multiset(Models(s.batch)) == f.left + multiset(s.log.stored[f.storedMark..]) + multiset(EventsOf(Failures(s)))
    && (!f.itemised ==> f.left == multiset(Models(s.batch)))
  }

  ghost predicate FlushOk(c: Config, s: State) {
    s.loop.Flushing? ==>
      && (s.loop.f.Trying? ==> TryingOk(c, s))
      && (s.loop.f.Removing? ==> forall id :: id in s.loop.f.ids ==> id in s.disk.rows)
  }

  ghost predicate Inv(c: Config, s: State) {
    && Safe(s)
    && (forall i :: 0 <= i < |s.log.stored| ==> s.log.stored[i].id in s.disk.rows)
    && s.dlq == LastN(s.log.buried, c.dlqSize)
    && FlushOk(c, s)
  }

  ghost function InvOf(c: Config): State -> bool {
    s => Inv(c, s)
  }

  /** Steps that touch neither the disk nor the flush. */
  lemma SameKeeps(c: Config, s: State, s': State)
    requires InvOf(c)(s)
    requires s'.disk == s.disk && s'.dlq == s.dlq && s'.log.committed == s.log.committed
    requires s'.log.stored == s.log.stored && s'.log.buried == s.log.buried
    requires (s'.loop == s.loop && s'.batch == s.batch) || !s'.loop.Flushing? || s'.loop.f.Entering?
    ensures InvOf(c)(s')
  {
  }

  lemma WriterKeeps(c: Config, s: State, w: WriterStep, s': State)
    requires InvOf(c)(s) && ApplyWriter(s, w) == Some(s')
    ensures InvOf(c)(s')
  {
    WriterLeaves(s, w, s');
    assert s'.disk.rows == s.disk.rows;
    assert forall id :: id in s.disk.bolt ==> id in s'.disk.bolt;
    assert forall id :: id in s'.log.committed ==> id in s.log.committed || id in s'.disk.bolt;
  }

  lemma ReadLengthKeeps(c: Config, s: State, s': State)
    requires InvOf(c)(s) && s.loop.Flushing? && ApplyFlush(c, s, ReadLength) == Some(s')
    ensures InvOf(c)(s')
  {
    assert s.log.buried[..|s.log.buried|] == s.log.buried;
    assert s.log.buried[|s.log.buried|..] == [];
    assert s.log.stored[|s.log.stored|..] == [];
    assert EventsOf([]) == [];
  }

  /** Events move from the flush to the events table. */
  ghost predicate Stores(s: State, es: seq<Event>, s': State) {
    && s.loop.Flushing? && s.loop.f.Trying? && s'.loop.Flushing? && s'.loop.f.Trying?
    && s'.loop.f == s.loop.f.(left := s'.loop.f.left, itemised := true)
    && s.loop.f.left == s'.loop.f.left + multiset(es)
    && s'.disk == s.disk.(rows := s.disk.rows + IdSet(es))
    && s'.log.stored == s.log.stored + es && s'.log.buried == s.log.buried && s'.log.committed == s.log.committed
    && s'.dlq == s.dlq && s'.batch == s.batch
  }

  lemma StoreKeepsTrying(c: Config, s: State, es: seq<Event>, s': State)
    requires Stores(s, es, s') && TryingOk(c, s)
    ensures TryingOk(c, s')
  {
    var m := s.loop.f.storedMark;
    assert (s.log.stored + es)[m..] == s.log.stored[m..] + es;
    assert Failures(s') == Failures(s) && Earlier(s') == Earlier(s);
  }

  lemma StoreKeeps(c: Config, s: State, es: seq<Event>, s': State)
    requires InvOf(c)(s) && Stores(s, es, s')
    ensures InvOf(c)(s')
  {
    StoreKeepsTrying(c, s, es, s');
    forall i | 0 <= i < |s'.log.stored| ensures s'.log.stored[i].id in s'.disk.rows {
      if i >= |s.log.stored| {
        assert es[i - |s.log.stored|] in es;
      }
    }
  }

  lemma InsertKeeps(c: Config, s: State, l: LoopStep, s': State)
    requires InvOf(c)(s) && s.loop.Flushing? && (l.InsertBatch? || l.InsertItem?) && ApplyFlush(c, s, l) == Some(s')
    ensures InvOf(c)(s')
  {
    if l.InsertBatch? {
      assert TryingOk(c, s);
      StoreKeeps(c, s, Models(s.batch), s');
    } else {
      assert IdSet([l.e]) == {l.e.id};
      StoreKeeps(c, s, [l.e], s');
    }
  }

  lemma BuryKeepsTrying(c: Config, s: State, entry: Entry, s': State)
    requires Buries(c, s, entry, s') && TryingOk(c, s)
    ensures TryingOk(c, s')
  {
    BuriedGrows(s, entry, s');
  }

  lemma BuryKeeps(c: Config, s: State, l: LoopStep, s': State)
    requires InvOf(c)(s) && s.loop.Flushing? && l.BuryItem? && ApplyFlush(c, s, l) == Some(s')
    ensures InvOf(c)(s')
  {
    var entry := DeadLetterEvent(l.e, l.attempts);
    BuryLeaves(c, s, l, s');
    BuriedKeeps(c, s, entry, s');
  }

  lemma BuriedKeeps(c: Config, s: State, entry: Entry, s': State)
    requires InvOf(c)(s) && Buries(c, s, entry, s')
    ensures InvOf(c)(s')
  {
    LastNAppend(s.log.buried, [entry], c.dlqSize);
    BuryKeepsTrying(c, s, entry, s');
  }

  lemma BuriedGrows(s: State, entry: Entry, s': State)
    requires s.loop.Flushing? && s.loop.f.Trying? && s'.loop.Flushing? && s'.loop.f.Trying?
    requires s.loop.f.buriedMark == s'.loop.f.buriedMark <= |s.log.buried|
    requires s'.log.buried == s.log.buried + [entry]
    ensures Earlier(s') == Earlier(s)
    ensures EventsOf(Failures(s')) == EventsOf(Failures(s)) + [entry.event]
  {
    assert Failures(s') == Failures(s) + [entry];
  }

  /** The heart of it: with room, an id on the removal list was stored. */
  lemma RemovedIsDone(batch: seq<Event>, earlier: seq<Entry>, added: seq<Entry>, done: seq<Event>, maxSize: nat, id: int)
      returns (j: nat)
    requires multiset(batch) == multiset(done) + multiset(EventsOf(added))
    requires Fits(earlier, |added|, maxSize)
    requires id in Removed(batch, earlier, added, maxSize)
    ensures j < |done| && done[j].id == id
  {
    assert FailuresOf(added, batch);
    ExactWhenFits(batch, earlier, added, maxSize);
    assert id in Ids(batch) && id !in Ids(EventsOf(added));
    var i :| 0 <= i < |batch| && Ids(batch)[i] == id;
    InOneOf(batch, done, EventsOf(added), i);
    j :| 0 <= j < |done| && done[j] == batch[i];
  }

  lemma InOneOf(batch: seq<Event>, done: seq<Event>, failed: seq<Event>, i: nat)
    requires multiset(batch) == multiset(done) + multiset(failed)
    requires i < |batch|
    ensures batch[i] in done || batch[i].id in Ids(failed)
  {
    assert batch[i] in multiset(batch);
    if batch[i] in failed {
      var k :| 0 <= k < |failed| && failed[k] == batch[i];
      assert Ids(failed)[k] == batch[i].id;
    }
  }

  /** What the flush holds when its retries are over. */
  lemma RetriesOverFacts(c: Config, s: State)
    requires InvOf(c)(s) && RetriesOver(s)
    ensures s.loop.f.storedMark <= |s.log.stored|
    ensures multiset(Models(s.batch)) == multiset(s.log.stored[s.loop.f.storedMark..]) + multiset(EventsOf(Failures(s)))
    ensures s.dlq == LastN(Earlier(s) + Failures(s), c.dlqSize)
    ensures s.loop.f.before == |LastN(Earlier(s), c.dlqSize)|
  {
    assert TryingOk(c, s);
    assert s.log.buried == Earlier(s) + Failures(s);
  }

  lemma RemovalList(c: Config, s: State)
    requires InvOf(c)(s) && RetriesOver(s)
    ensures IdsToRemove(Ids(Models(s.batch)), s.dlq, |s.dlq| - s.loop.f.before)
         == Removed(Models(s.batch), Earlier(s), Failures(s), c.dlqSize)
  {
    RetriesOverFacts(c, s);
  }

  lemma RemovalIsStored(c: Config, s: State, id: int)
    requires InvOf(c)(s) && RetriesOver(s) && Roomy(c, s)
    requires id in IdsToRemove(Ids(Models(s.batch)), s.dlq, |s.dlq| - s.loop.f.before)
    ensures id in s.disk.rows
  {
    RetriesOverFacts(c, s);
    RemovalList(c, s);
    var done := s.log.stored[s.loop.f.storedMark..];
    var j := RemovedIsDone(Models(s.batch), Earlier(s), Failures(s), done, c.dlqSize, id);
    assert s.log.stored[s.loop.f.storedMark + j] == done[j];
  }

  /** The removal list is settled; nothing else changes. */
  ghost predicate Measures(s: State, s': State) {
    && RetriesOverAny(s)
    && s'.loop.Flushing? && s'.loop.f.Removing?
    && s'.loop.f.ids == IdsToRemove(Ids(Models(s.batch)), s.dlq, |s.dlq| - s.loop.f.before)
    && s'.disk == s.disk && s'.dlq == s.dlq && s'.log == s.log
  }

  predicate RetriesOverAny(s: State) {
    s.loop.Flushing? && s.loop.f.Trying? && s.loop.f.left == multiset{}
  }

  lemma MeasureStep(c: Config, s: State, s': State)
    requires s.loop.Flushing? && ApplyFlush(c, s, Measure) == Some(s')
    ensures Measures(s, s')
  {
  }

  lemma MeasureKeeps(c: Config, s: State, s': State)
    requires InvOf(c)(s) && Roomy(c, s) && s.loop.Flushing? && ApplyFlush(c, s, Measure) == Some(s')
    ensures InvOf(c)(s')
  {
    MeasureStep(c, s, s');
    MeasuredKeeps(c, s, s');
  }

  lemma MeasuredKeeps(c: Config, s: State, s': State)
    requires InvOf(c)(s) && Roomy(c, s) && Measures(s, s')
    ensures InvOf(c)(s')
  {
    assert TryingOk(c, s);
    forall id | id in s'.loop.f.ids ensures id in s'.disk.rows {
      RemovalIsStored(c, s, id);
    }
  }

  lemma RemoveKeeps(c: Config, s: State, deleted: set<int>, s': State)
    requires InvOf(c)(s) && s.loop.Flushing? && ApplyFlush(c, s, Remove(deleted)) == Some(s')
    ensures InvOf(c)(s')
  {
    assert s'.log == s.log && s'.disk.rows == s.disk.rows && s'.dlq == s.dlq;
    assert forall id :: id in s.disk.bolt ==> id in s'.disk.bolt || id in s.disk.rows;
  }

  lemma FlushKeeps(c: Config, s: State, l: LoopStep, s': State)
    requires InvOf(c)(s) && Roomy(c, s) && s.loop.Flushing? && ApplyFlush(c, s, l) == Some(s')
    ensures InvOf(c)(s')
  {
    if l.InsertBatch? || l.InsertItem? {
      InsertKeeps(c, s, l, s');
    } else {
      match l
      case ReadLength => ReadLengthKeeps(c, s, s');
      case BuryItem(_, _) => BuryKeeps(c, s, l, s');
      case Measure => MeasureKeeps(c, s, s');
      case Remove(deleted) => RemoveKeeps(c, s, deleted, s');
      case Itemise => ItemiseKeeps(c, s, s');
      case Tally => TallyKeeps(c, s, s');
      case _ => assert false;
    }
  }

  lemma TallyKeeps(c: Config, s: State, s': State)
    requires InvOf(c)(s) && s.loop.Flushing? && ApplyFlush(c, s, Tally) == Some(s')
    ensures InvOf(c)(s')
  {
    FlushLeaves(c, s, Tally, s');
    SameKeeps(c, s, s');
  }

  lemma ItemiseKeeps(c: Config, s: State, s': State)
    requires InvOf(c)(s) && s.loop.Flushing? && ApplyFlush(c, s, Itemise) == Some(s')
    ensures InvOf(c)(s')
  {
    assert s' == s.(loop := Flushing(s.loop.cause, s.loop.f.(itemised := true)));
  }

  lemma StepKeeps(c: Config, s: State, step: Step, s': State)
    requires InvOf(c)(s) && Roomy(c, s) && Apply(c, s, step) == Some(s')
    requires s.loop.Off? || s.start.Running?
    ensures InvOf(c)(s')
  {
    match step
    case NewCall(p, e) => SameKeeps(c, s, s');
    case CallStep(p, a) =>
      if s'.ch == s.ch {
        CallLeaves(c, s, p, a, s');
      } else {
        CallSends(c, s, p, a, s');
      }
      SameKeeps(c, s, s');
    case StartStep(st) =>
      StartLeaves(c, s, st, s');
      SameKeeps(c, s, s');
    case LoopStep(l) =>
      if s.loop.Flushing? {
        FlushKeeps(c, s, l, s');
      } else {
        SelectLeaves(c, s, l, s');
        SameKeeps(c, s, s');
      }
    case WriterStep(w) => WriterKeeps(c, s, w, s');
    case DownStep(d) =>
      DownLeaves(s, d, s');
      SameKeeps(c, s, s');
    case Crash =>
  }

  // ---- Main results ------------------------------------------------------------

  ghost function FullOf(c: Config): State -> bool {
    s => Inv(c, s) && Depth.LoopAfterStart(s)
  }

  lemma NextKeeps(c: Config, s: State, s': State)
    requires FullOf(c)(s) && RoomyNextOf(c)(s, s')
    ensures FullOf(c)(s')
  {
    var step :| Apply(c, s, step) == Some(s');
    StepKeeps(c, s, step, s');
    Depth.StepKeepsLoopAfterStart(c, s, step, s');
  }

  lemma BootInv(c: Config, disk: Disk)
    ensures FullOf(c)(Boot(disk, {}))
  {
  }

  lemma ReachableInv(c: Config, k: nat, s: State)
    requires Reaches(Init(), RoomyNextOf(c), k, s)
    ensures FullOf(c)(s)
  {
    forall p, q | FullOf(c)(p) && RoomyNextOf(c)(p, q) ensures FullOf(c)(q) {
      NextKeeps(c, p, q);
    }
    BootInv(c, Disk(map[], {}));
    Invariance(Init(), RoomyNextOf(c), FullOf(c), k, s);
  }

  lemma SafeFacts(c: Config, s: State)
    requires FullOf(c)(s)
    ensures Safe(s)
  {
  }

  /** Crash safety: in every state of every run in which each flush's failures
      fit, crashes and restarts included, every id whose put has committed is in
      the bucket or in the events table. */
  lemma CrashSafety(c: Config, k: nat, s: State)
    requires Reaches(Init(), RoomyNextOf(c), k, s)
    ensures Safe(s)
  {
    ReachableInv(c, k, s);
    SafeFacts(c, s);
  }

  ghost function CommittedOf(id: int): State -> bool {
    (s: State) => id in s.log.committed
  }

  lemma CommitIsForever(c: Config, s: State, step: Step, s': State)
    requires Apply(c, s, step) == Some(s')
    ensures s.log.committed <= s'.log.committed
  {
    match step
    case CallStep(p, a) => if s'.ch == s.ch { CallLeaves(c, s, p, a, s'); } else { CallSends(c, s, p, a, s'); }
    case StartStep(st) => StartLeaves(c, s, st, s');
    case LoopStep(l) => if s.loop.Flushing? { FlushLeaves(c, s, l, s'); } else { SelectLeaves(c, s, l, s'); }
    case DownStep(d) => DownLeaves(s, d, s');
    case _ =>
  }

  lemma NextKeepsCommitted(c: Config, id: int, s: State, s': State)
    requires CommittedOf(id)(s) && RoomyNextOf(c)(s, s')
    ensures CommittedOf(id)(s')
  {
    var step :| Apply(c, s, step) == Some(s');
    CommitIsForever(c, s, step, s');
  }

  lemma CommittedForever(c: Config, s: State, l: nat, s': State, id: int)
    requires Reaches(s, RoomyNextOf(c), l, s') && CommittedOf(id)(s)
    ensures CommittedOf(id)(s')
  {
    forall p, q | CommittedOf(id)(p) && RoomyNextOf(c)(p, q) ensures CommittedOf(id)(q) {
      NextKeepsCommitted(c, id, p, q);
    }
    Invariance(s, RoomyNextOf(c), CommittedOf(id), l, s');
  }

  /** Once committed, kept at every later state. */
  lemma CommittedStaysKept(c: Config, k: nat, s: State, l: nat, s': State, id: int)
    requires Reaches(Init(), RoomyNextOf(c), k, s) && id in s.log.committed
    requires Reaches(s, RoomyNextOf(c), l, s')
    ensures Kept(s', id)
  {
    CommittedForever(c, s, l, s', id);
    Compose(Init(), RoomyNextOf(c), k, s, l, s');
    CrashSafety(c, k + l, s');
  }

  /** The state after the removal transaction that follows the retries, when it
      deletes all it was given. */
  function AfterRemoval(c: Config, s: State): State
    requires RetriesOver(s) && s.loop.f.itemised && c.persistent && !s.closed
  {
    var t := ApplyFlush(c, s, Measure).value;
    ApplyFlush(c, t, Remove(IdsIn(t.loop.f.ids))).value
  }

  lemma AfterRemovalShape(c: Config, s: State)
    requires RetriesOver(s) && s.loop.f.itemised && c.persistent && !s.closed
    ensures var s' := AfterRemoval(c, s);
            var ids := IdsToRemove(Ids(Models(s.batch)), s.dlq, |s.dlq| - s.loop.f.before);
            && s'.disk.rows == s.disk.rows && s'.log.committed == s.log.committed
            && s'.disk.bolt == s.disk.bolt - IdsIn(ids)
  {
    MeasureShape(c, s);
    RemoveShape(c, ApplyFlush(c, s, Measure).value);
  }

  lemma MeasureShape(c: Config, s: State)
    requires RetriesOver(s) && s.loop.f.itemised
    ensures var t := ApplyFlush(c, s, Measure);
      var grown := |s.dlq| - s.loop.f.before;
      t == Some(Go(s, Removing(IdsToRemove(Ids(Models(s.batch)), s.dlq, grown), grown)))
  {
  }

  /** A transaction that deletes all it was given. */
  lemma RemoveShape(c: Config, s: State)
    requires s.loop.Flushing? && s.loop.f.Removing? && c.persistent && !s.closed
    ensures var t := ApplyFlush(c, s, Remove(IdsIn(s.loop.f.ids)));
      && t.Some? && t.value.disk == Disk(s.disk.bolt - IdsIn(s.loop.f.ids), s.disk.rows) && t.value.log == s.log
  {
    assert s.disk.bolt - {} == s.disk.bolt;
  }

  lemma AfterRemovalIs(c: Config, s: State)
    requires InvOf(c)(s) && RetriesOver(s) && s.loop.f.itemised && c.persistent && !s.closed
    ensures var s' := AfterRemoval(c, s);
            var ids := Removed(Models(s.batch), Earlier(s), Failures(s), c.dlqSize);
            && s'.disk.rows == s.disk.rows && s'.log.committed == s.log.committed
            && s'.disk.bolt == s.disk.bolt - IdsIn(ids)
  {
    AfterRemovalShape(c, s);
    RemovalList(c, s);
  }

  /** The room is needed. Take a flush of distinct ids whose retries are over,
      with everything it dead-lettered committed and not in the events table:
      the removal keeps every committed id if and only if the failures fitted. */
  lemma RemovalSafeIffRoom(c: Config, s: State)
    requires InvOf(c)(s) && RetriesOver(s) && s.loop.f.itemised && c.persistent && !s.closed
    requires DistinctIds(Models(s.batch))
    requires forall e :: e in Failures(s) ==> e.event.id in s.log.committed && e.event.id !in s.disk.rows
    ensures Safe(AfterRemoval(c, s)) <==> Fits(Earlier(s), |Failures(s)|, c.dlqSize)
  {
    AfterRemovalIs(c, s);
    var s' := AfterRemoval(c, s);
    RetriesOverFacts(c, s);
    RemovalList(c, s);
    if Fits(Earlier(s), |Failures(s)|, c.dlqSize) {
      forall id | id in s'.log.committed ensures Kept(s', id) {
        if id in Removed(Models(s.batch), Earlier(s), Failures(s), c.dlqSize) {
          RemovalIsStored(c, s, id);
        }
        assert Kept(s, id);
      }
    } else {
      assert FailuresOf(Failures(s), Models(s.batch));
      OverflowRemovesFirstFailure(Models(s.batch), Earlier(s), Failures(s), c.dlqSize);
      var e := Failures(s)[0];
      assert e in Failures(s);
      assert !Kept(s', e.event.id);
    }
  }
}
