/** The pipeline lets a flush store or dead-letter its events one by one in any
    order. Here every schedule of `BatchRetry` is shown to be such a flush: each
    of its steps is a step of the pipeline or leaves it where it is. */
module RetryRefinement {
  import opened Events
  import opened Sums
  import opened Machines
  import opened DeadLetter
  import opened FlushRemoval
  import R = BatchRetrying
  import P = Pipeline
  import Depth = PipelineDepth

  // ---- Distinct positions ------------------------------------------------------

  /** No position occurs twice. */
  ghost predicate Distinct(a: seq<nat>) {
    forall j: nat :: multiset(a)[j] <= 1
  }

  /** The positions below n that a does not mention. */
  function Others(a: seq<nat>, n: nat): seq<nat> {
    if n == 0 then [] else Others(a, n - 1) + (if n - 1 in a then [] else [n - 1])
  }

  lemma {:induction false} OthersCount(a: seq<nat>, n: nat, j: nat)
    ensures multiset(Others(a, n))[j] == if j < n && j !in a then 1 else 0
  {
    if n > 0 {
      OthersCount(a, n - 1, j);
    }
  }

  lemma {:induction false} OthersBelow(a: seq<nat>, n: nat)
    ensures AllBelow(Others(a, n), n)
  {
    if n > 0 {
      OthersBelow(a, n - 1);
    }
  }

  lemma Completed(a: seq<nat>, n: nat)
    requires Distinct(a) && AllBelow(a, n)
    ensures multiset(a + Others(a, n)) == multiset(Indices(n))
  {
    var all: seq<nat>, want: seq<nat> := a + Others(a, n), Indices(n);
    OthersBelow(a, n);
    forall j: nat | j in all || j in want ensures multiset(all)[j] == multiset(want)[j] {
      OthersCount(a, n, j);
      assert j < n;
      IndicesOnce(n, j);
    }
  }

  /** Distinct positions pick no more than there is. */
  lemma PickDistinct<T>(s: seq<T>, a: seq<nat>)
    requires Distinct(a) && AllBelow(a, |s|)
    ensures multiset(Pick(s, a)) <= multiset(s)
  {
    OthersBelow(a, |s|);
    Completed(a, |s|);
    PickAll(s, a, Others(a, |s|));
  }

  // ---- What is left to do ------------------------------------------------------

  /** The events neither stored nor dead-lettered yet. */
  function Left(items: seq<Event>, inserted: seq<nat>, dead: seq<nat>): multiset<Event>
    requires AllBelow(inserted, |items|)
    requires AllBelow(dead, |items|)
  {
    multiset(items) - multiset(Pick(items, inserted)) - multiset(Pick(items, dead))
  }

  /** An item that is in neither log is still to do. */
  lemma StillLeft(items: seq<Event>, inserted: seq<nat>, dead: seq<nat>, i: nat)
    requires AllBelow(inserted, |items|)
    requires AllBelow(dead, |items|)
    requires i < |items| && Distinct(inserted + dead + [i])
    ensures items[i] in Left(items, inserted, dead)
  {
    var a := inserted + dead + [i];
    PickDistinct(items, a);
    PickSplit(items, inserted, dead);
    PickSnoc(items, inserted + dead, i);
    assert Pick(items, a) == Pick(items, inserted) + Pick(items, dead) + [items[i]];
  }

  lemma LeftAfterStore(items: seq<Event>, inserted: seq<nat>, dead: seq<nat>, i: nat)
    requires AllBelow(inserted, |items|)
    requires AllBelow(dead, |items|)
    requires i < |items|
    ensures AllBelow(inserted + [i], |items|)
    ensures Pick(items, inserted + [i]) == Pick(items, inserted) + [items[i]]
    ensures Left(items, inserted + [i], dead) == Left(items, inserted, dead) - multiset{items[i]}
  {
    PickSnoc(items, inserted, i);
  }

  lemma LeftAfterBurial(items: seq<Event>, inserted: seq<nat>, dead: seq<nat>, i: nat)
    requires AllBelow(inserted, |items|)
    requires AllBelow(dead, |items|)
    requires i < |items|
    ensures AllBelow(dead + [i], |items|)
    ensures Pick(items, dead + [i]) == Pick(items, dead) + [items[i]]
    ensures Left(items, inserted, dead + [i]) == Left(items, inserted, dead) - multiset{items[i]}
  {
    PickSnoc(items, dead, i);
  }

  // ---- The relation --------------------------------------------------------------

  /** The call is past its batch phase. */
  predicate Settled(t: R.Try) {
    t.Won? || t.Lost?
  }

  /** What is left, stored and dead-lettered since the flush began, on both
      sides; dead letters with their attempt counts. */
  ghost predicate Agree(
      items: seq<Event>, inserted: seq<nat>, dead: seq<nat>, entries: seq<Entry>, settled: bool,
      f: P.FlushPc, stored: seq<Event>, buried: seq<Entry>)
  {
    && AllBelow(inserted, |items|) && AllBelow(dead, |items|)
    && f.Trying? && f.itemised == settled && f.left == Left(items, inserted, dead)
    && f.storedMark <= |stored| && stored[f.storedMark..] == Pick(items, inserted)
    && f.buriedMark <= |buried| && buried[f.buriedMark..] == entries
  }

  /** The flush of the pipeline is where the call is. */
  ghost predicate Matches(max: int, items: seq<Event>, r: R.State, t: P.State) {
    && |r.pcs| == |items| && AllBelow(r.dead, |items|) && t.loop.Flushing? && Models(t.batch) == items
    && Agree(items, r.inserted, r.dead, R.Entries(max, items, r), Settled(r.batch), t.loop.f, t.log.stored, t.log.buried)
  }

  ghost function MatchesOf(max: int, items: seq<Event>): (R.State, P.State) -> bool {
    (r, t) => Matches(max, items, r, t)
  }

  lemma CountBelow(a: seq<nat>, n: nat, j: nat)
    requires AllBelow(a, n) && j >= n
    ensures multiset(a)[j] == 0
  {
    assert j !in a;
  }

  /** The logs mention every position at most once. */
  lemma LogsDistinct(r: R.State, i: nat)
    requires R.Logged(r) && i < |r.pcs| && !R.IsInserted(r.pcs[i]) && !R.IsDead(r.pcs[i])
    ensures Distinct(r.inserted + r.dead + [i])
  {
    forall j: nat ensures multiset(r.inserted + r.dead + [i])[j] <= 1 {
      if j >= |r.pcs| {
        CountBelow(r.inserted, |r.pcs|, j);
        CountBelow(r.dead, |r.pcs|, j);
      }
    }
  }

  lemma ActUnsettled(max: int, cancelled: bool, p: R.Pc, a: R.Action)
    requires R.Act(max, cancelled, p, a).Some?
    ensures var e := R.Act(max, cancelled, p, a).value;
      && (e.stores || e.buries ==> !R.IsInserted(p) && !R.IsDead(p))
      && !(e.stores && e.buries)
  {
  }

  // ---- What a step does to both sides ------------------------------------------------

  lemma AgreeStore(
      items: seq<Event>, inserted: seq<nat>, dead: seq<nat>, entries: seq<Entry>,
      f: P.FlushPc, stored: seq<Event>, buried: seq<Entry>, i: nat)
    requires Agree(items, inserted, dead, entries, true, f, stored, buried) && i < |items|
    ensures Agree(items, inserted + [i], dead, entries, true,
                  f.(left := f.left - multiset{items[i]}), stored + [items[i]], buried)
  {
    LeftAfterStore(items, inserted, dead, i);
    var m := f.storedMark;
    assert (stored + [items[i]])[m..] == stored[m..] + [items[i]];
  }

  lemma AgreeBury(
      items: seq<Event>, inserted: seq<nat>, dead: seq<nat>, entries: seq<Entry>,
      f: P.FlushPc, stored: seq<Event>, buried: seq<Entry>, i: nat, entry: Entry)
    requires Agree(items, inserted, dead, entries, true, f, stored, buried) && i < |items|
    ensures Agree(items, inserted, dead + [i], entries + [entry], true,
                  f.(left := f.left - multiset{items[i]}), stored, buried + [entry])
  {
    LeftAfterBurial(items, inserted, dead, i);
    var m := f.buriedMark;
    assert (buried + [entry])[m..] == buried[m..] + [entry];
  }

  lemma AgreeWin(items: seq<Event>, f: P.FlushPc, stored: seq<Event>, buried: seq<Entry>)
    requires Agree(items, [], [], [], false, f, stored, buried)
    ensures Agree(items, Indices(|items|), [], [], true, f.(left := multiset{}, itemised := true), stored + items, buried)
  {
    AllLogged(items);
    var m := f.storedMark;
    assert (stored + items)[m..] == stored[m..] + items;
    assert Pick(items, []) == [];
  }

  lemma NothingLogged(items: seq<Event>)
    ensures Pick(items, []) == [] && Left(items, [], []) == multiset(items)
  {
    assert Pick(items, []) == [];
  }

  lemma AllLogged(items: seq<Event>)
    ensures AllBelow(Indices(|items|), |items|)
    ensures Pick(items, Indices(|items|)) == items && Left(items, Indices(|items|), []) == multiset{}
  {
    assert Pick(items, Indices(|items|)) == items;
    assert Pick(items, []) == [];
  }

  /** The pipeline's side of a stored item. */
  lemma StoreShape(c: P.Config, t: P.State, e: Event)
    requires t.loop.Flushing? && t.loop.f.Trying? && t.loop.f.itemised && e in t.loop.f.left
    ensures var t' := P.ApplyFlush(c, t, P.InsertItem(e));
      && t'.Some? && t'.value.loop == P.Flushing(t.loop.cause, t.loop.f.(left := t.loop.f.left - multiset{e}))
      && t'.value.batch == t.batch && t'.value.log == t.log.(stored := t.log.stored + [e])
  {
  }

  lemma BuryShape(c: P.Config, t: P.State, e: Event, n: int)
    requires t.loop.Flushing? && t.loop.f.Trying? && t.loop.f.itemised && e in t.loop.f.left
    ensures var t' := P.ApplyFlush(c, t, P.BuryItem(e, n));
      && t'.Some? && t'.value.loop == P.Flushing(t.loop.cause, t.loop.f.(left := t.loop.f.left - multiset{e}))
      && t'.value.batch == t.batch && t'.value.log == t.log.(buried := t.log.buried + [DeadLetterEvent(e, n)])
  {
  }

  lemma WinShape(c: P.Config, t: P.State)
    requires t.loop.Flushing? && t.loop.f.Trying? && !t.loop.f.itemised
    ensures var t' := P.ApplyFlush(c, t, P.InsertBatch);
      && t'.Some? && t'.value.loop == P.Flushing(t.loop.cause, t.loop.f.(left := multiset{}, itemised := true))
      && t'.value.batch == t.batch && t'.value.log == t.log.(stored := t.log.stored + Models(t.batch))
  {
  }

  lemma LoseShape(c: P.Config, t: P.State)
    requires t.loop.Flushing? && t.loop.f.Trying? && !t.loop.f.itemised
    ensures var t' := P.ApplyFlush(c, t, P.Itemise);
      && t'.Some? && t'.value.loop == P.Flushing(t.loop.cause, t.loop.f.(itemised := true))
      && t'.value.batch == t.batch && t'.value.log == t.log
  {
  }

  // ---- The flush step that each step of the call is -----------------------------------

  /** A successful batch call is the insert of the batch, a lost batch the turn to
      items; an item's successful call is its insert, and settling a lost item its
      burial, with the attempts it reports. Nothing else shows. */
  function Image(max: int, items: seq<Event>, r: R.State, step: R.Step): Option<P.LoopStep> {
    match step
    case Cancel => None
    case Batch(m) =>
      if m.CallOk? then Some(P.InsertBatch) else if m.GiveUp? || m.SeeCancel? then Some(P.Itemise) else None
    case Item(i, a) =>
      if i >= |items| || i >= |r.pcs| then None
      else if a == R.Retry(R.CallOk) then Some(P.InsertItem(items[i]))
      else if a.Settle? && r.pcs[i].Running? && r.pcs[i].t.Lost? then
        Some(P.BuryItem(items[i], R.Attempts(max, r.pcs[i].t.k)))
      else None
  }

  /** The pipeline after that step, or where it was. */
  function Moved(c: P.Config, t: P.State, l: Option<P.LoopStep>): Option<P.State> {
    if l.None? then Some(t) else if t.loop.Flushing? then P.ApplyFlush(c, t, l.value) else None
  }

  /** Same position, or one step on. */
  ghost predicate Follows(c: P.Config, t: P.State, t': P.State) {
    t' == t || P.NextOf(c)(t, t')
  }

  lemma MovedFollows(c: P.Config, t: P.State, l: Option<P.LoopStep>)
    requires Moved(c, t, l).Some?
    ensures Follows(c, t, Moved(c, t, l).value)
  {
    if l.Some? {
      assert P.Apply(c, t, P.LoopStep(l.value)) == Some(Moved(c, t, l).value);
    }
  }

  /** Both sides fit after the flush has taken the step. */
  ghost predicate Fit(c: P.Config, max: int, items: seq<Event>, r': R.State, t: P.State, l: Option<P.LoopStep>) {
    Moved(c, t, l).Some? && MatchesOf(max, items)(r', Moved(c, t, l).value)
  }

  // ---- Steps of items --------------------------------------------------------------

  /** The dead letters of the call do not change. */
  ghost predicate SameEntries(max: int, items: seq<Event>, r: R.State, r': R.State) {
    && |r.pcs| == |items| && |r'.pcs| == |items| && AllBelow(r.dead, |items|) && r'.dead == r.dead
    && R.Entries(max, items, r') == R.Entries(max, items, r)
  }

  lemma StoreRefines(c: P.Config, max: int, items: seq<Event>, r: R.State, r': R.State, i: nat, t: P.State)
    requires MatchesOf(max, items)(r, t) && i < |items| && Settled(r.batch)
    requires items[i] in t.loop.f.left
    requires SameEntries(max, items, r, r') && r'.batch == r.batch && r'.inserted == r.inserted + [i]
    ensures Fit(c, max, items, r', t, Some(P.InsertItem(items[i])))
  {
    AgreeStore(items, r.inserted, r.dead, R.Entries(max, items, r), t.loop.f, t.log.stored, t.log.buried, i);
    StoreShape(c, t, items[i]);
  }

  /** One more dead letter. */
  ghost predicate OneMoreEntry(max: int, items: seq<Event>, r: R.State, r': R.State, i: nat, n: int) {
    && |r.pcs| == |items| && |r'.pcs| == |items| && AllBelow(r.dead, |items|) && AllBelow(r'.dead, |items|)
    && i < |items| && r'.dead == r.dead + [i]
    && R.Entries(max, items, r') == R.Entries(max, items, r) + [DeadLetterEvent(items[i], n)]
  }

  lemma BuryRefines(c: P.Config, max: int, items: seq<Event>, r: R.State, r': R.State, i: nat, n: int, t: P.State)
    requires MatchesOf(max, items)(r, t) && i < |items| && Settled(r.batch)
    requires items[i] in t.loop.f.left
    requires OneMoreEntry(max, items, r, r', i, n) && r'.batch == r.batch && r'.inserted == r.inserted
    ensures Fit(c, max, items, r', t, Some(P.BuryItem(items[i], n)))
  {
    AgreeBury(items, r.inserted, r.dead, R.Entries(max, items, r), t.loop.f, t.log.stored, t.log.buried,
              i, DeadLetterEvent(items[i], n));
    BuryShape(c, t, items[i], n);
  }

  /** Steps that log nothing leave the pipeline where it is. */
  lemma Stutter(c: P.Config, max: int, items: seq<Event>, r: R.State, r': R.State, t: P.State)
    requires MatchesOf(max, items)(r, t)
    requires SameEntries(max, items, r, r') && Settled(r'.batch) == Settled(r.batch) && r'.inserted == r.inserted
    ensures Fit(c, max, items, r', t, None)
  {
  }

  lemma ItemLeft(max: int, items: seq<Event>, r: R.State, i: nat, t: P.State)
    requires MatchesOf(max, items)(r, t) && R.Logged(r)
    requires i < |r.pcs| && !R.IsInserted(r.pcs[i]) && !R.IsDead(r.pcs[i])
    ensures i < |items| && t.loop.Flushing? && t.loop.f.Trying? && items[i] in t.loop.f.left
  {
    LogsDistinct(r, i);
    StillLeft(items, r.inserted, r.dead, i);
  }

  lemma ItemShape(max: int, r: R.State, i: nat, a: R.Action)
    requires R.Inv(max, r) && R.Apply(max, r, R.Item(i, a)).Some?
    ensures i < |r.pcs| && R.Act(max, r.cancelled, r.pcs[i], a).Some?
    ensures R.Logged(r) && Settled(r.batch)
    ensures var e := R.Act(max, r.cancelled, r.pcs[i], a).value;
      R.Apply(max, r, R.Item(i, a)).value == R.WithItem(r, i, e)
  {
  }

  /** What the step of an item shows. */
  lemma ItemImage(max: int, items: seq<Event>, r: R.State, i: nat, a: R.Action)
    requires i < |r.pcs| == |items| && R.Act(max, r.cancelled, r.pcs[i], a).Some?
    ensures var e := R.Act(max, r.cancelled, r.pcs[i], a).value;
      Image(max, items, r, R.Item(i, a)) ==
        if e.stores then Some(P.InsertItem(items[i]))
        else if e.buries then Some(P.BuryItem(items[i], R.Attempts(max, R.PcCalls(e.pc))))
        else None
  {
  }

  /** What the step of an item adds to the dead letters. */
  lemma ItemEntries(max: int, items: seq<Event>, r: R.State, i: nat, a: R.Action)
    requires R.InvOf(max, |items|)(r) && R.Apply(max, r, R.Item(i, a)).Some?
    ensures i < |r.pcs| == |items| && R.Act(max, r.cancelled, r.pcs[i], a).Some?
    ensures var e := R.Act(max, r.cancelled, r.pcs[i], a).value;
      var r' := R.WithItem(r, i, e);
      if e.buries then OneMoreEntry(max, items, r, r', i, R.Attempts(max, R.PcCalls(e.pc)))
      else SameEntries(max, items, r, r')
  {
    ItemShape(max, r, i, a);
    R.EntriesStep(max, items, r, R.Item(i, a));
  }

  lemma EffectRefines(c: P.Config, max: int, items: seq<Event>, r: R.State, i: nat, e: R.Effect, t: P.State)
    requires MatchesOf(max, items)(r, t) && R.Logged(r) && Settled(r.batch) && i < |r.pcs| == |items|
    requires e.stores || e.buries ==> !R.IsInserted(r.pcs[i]) && !R.IsDead(r.pcs[i])
    requires !(e.stores && e.buries)
    requires if e.buries then OneMoreEntry(max, items, r, R.WithItem(r, i, e), i, R.Attempts(max, R.PcCalls(e.pc)))
             else SameEntries(max, items, r, R.WithItem(r, i, e))
    ensures Fit(c, max, items, R.WithItem(r, i, e), t,
                if e.stores then Some(P.InsertItem(items[i]))
                else if e.buries then Some(P.BuryItem(items[i], R.Attempts(max, R.PcCalls(e.pc))))
                else None)
  {
    var r' := R.WithItem(r, i, e);
    if e.stores {
      ItemLeft(max, items, r, i, t);
      StoreRefines(c, max, items, r, r', i, t);
    } else if e.buries {
      ItemLeft(max, items, r, i, t);
      BuryRefines(c, max, items, r, r', i, R.Attempts(max, R.PcCalls(e.pc)), t);
    } else {
      Stutter(c, max, items, r, r', t);
    }
  }

  lemma ItemRefines(c: P.Config, max: int, items: seq<Event>, r: R.State, i: nat, a: R.Action, t: P.State)
    requires R.InvOf(max, |items|)(r) && MatchesOf(max, items)(r, t) && R.Apply(max, r, R.Item(i, a)).Some?
    ensures Fit(c, max, items, R.Apply(max, r, R.Item(i, a)).value, t, Image(max, items, r, R.Item(i, a)))
  {
    ItemShape(max, r, i, a);
    ItemEntries(max, items, r, i, a);
    ItemImage(max, items, r, i, a);
    ActUnsettled(max, r.cancelled, r.pcs[i], a);
    EffectRefines(c, max, items, r, i, R.Act(max, r.cancelled, r.pcs[i], a).value, t);
  }

  // ---- Steps of the batch ------------------------------------------------------------

  lemma WinRefines(c: P.Config, max: int, items: seq<Event>, r: R.State, r': R.State, t: P.State)
    requires MatchesOf(max, items)(r, t) && !Settled(r.batch) && r.inserted == [] && r.dead == []
    requires SameEntries(max, items, r, r') && Settled(r'.batch) && r'.inserted == Indices(|r.pcs|)
    ensures Fit(c, max, items, r', t, Some(P.InsertBatch))
  {
    AgreeWin(items, t.loop.f, t.log.stored, t.log.buried);
    WinShape(c, t);
  }

  lemma LoseRefines(c: P.Config, max: int, items: seq<Event>, r: R.State, r': R.State, t: P.State)
    requires MatchesOf(max, items)(r, t) && !Settled(r.batch)
    requires SameEntries(max, items, r, r') && Settled(r'.batch) && r'.inserted == r.inserted
    ensures Fit(c, max, items, r', t, Some(P.Itemise))
  {
    LoseShape(c, t);
  }

  lemma BatchShape(max: int, r: R.State, m: R.Move)
    requires R.Inv(max, r) && R.Apply(max, r, R.Batch(m)).Some?
    ensures var r' := R.Apply(max, r, R.Batch(m)).value;
      && !Settled(r.batch) && r.inserted == [] && r.dead == [] && r'.dead == [] && r'.pcs == r.pcs
      && (r'.batch.Won? <==> m.CallOk?) && (r'.batch.Lost? <==> m.GiveUp? || m.SeeCancel?)
      && r'.inserted == if m.CallOk? then Indices(|r.pcs|) else []
  {
  }

  lemma NoDeadLetters(max: int, items: seq<Event>, r: R.State, r': R.State)
    requires |r.pcs| == |items| && r'.pcs == r.pcs && r.dead == r'.dead && AllBelow(r.dead, |items|)
    ensures SameEntries(max, items, r, r')
  {
  }

  lemma BatchRefines(c: P.Config, max: int, items: seq<Event>, r: R.State, m: R.Move, t: P.State)
    requires R.InvOf(max, |items|)(r) && MatchesOf(max, items)(r, t) && R.Apply(max, r, R.Batch(m)).Some?
    ensures Fit(c, max, items, R.Apply(max, r, R.Batch(m)).value, t, Image(max, items, r, R.Batch(m)))
  {
    var r' := R.Apply(max, r, R.Batch(m)).value;
    BatchShape(max, r, m);
    NoDeadLetters(max, items, r, r');
    if r'.batch.Won? {
      WinRefines(c, max, items, r, r', t);
    } else if r'.batch.Lost? {
      LoseRefines(c, max, items, r, r', t);
    } else {
      Stutter(c, max, items, r, r', t);
    }
  }

  // ---- Whole calls -------------------------------------------------------------------

  lemma CancelRefines(c: P.Config, max: int, items: seq<Event>, r: R.State, t: P.State)
    requires R.InvOf(max, |items|)(r) && MatchesOf(max, items)(r, t) && R.Apply(max, r, R.Cancel).Some?
    ensures Fit(c, max, items, R.Apply(max, r, R.Cancel).value, t, None)
  {
    var r' := R.Apply(max, r, R.Cancel).value;
    NoDeadLetters(max, items, r, r');
    Stutter(c, max, items, r, r', t);
  }

  /** Every step of a `BatchRetry` call is the flush step that its image names, or
      none, and the flush can take it. */
  lemma StepRefines(c: P.Config, max: int, items: seq<Event>, r: R.State, step: R.Step, t: P.State)
    requires R.InvOf(max, |items|)(r) && MatchesOf(max, items)(r, t) && R.Apply(max, r, step).Some?
    ensures var t' := Moved(c, t, Image(max, items, r, step));
      t'.Some? && MatchesOf(max, items)(R.Apply(max, r, step).value, t'.value)
  {
    match step
    case Cancel => CancelRefines(c, max, items, r, t);
    case Batch(m) => BatchRefines(c, max, items, r, m, t);
    case Item(i, a) => ItemRefines(c, max, items, r, i, a, t);
  }

  lemma NextRefines(c: P.Config, max: int, items: seq<Event>, r: R.State, r': R.State, t: P.State) returns (t': P.State)
    requires R.InvOf(max, |items|)(r) && MatchesOf(max, items)(r, t) && R.NextOf(max)(r, r')
    ensures Follows(c, t, t') && MatchesOf(max, items)(r', t')
  {
    var step :| R.Apply(max, r, step) == Some(r');
    StepRefines(c, max, items, r, step, t);
    MovedFollows(c, t, Image(max, items, r, step));
    t' := Moved(c, t, Image(max, items, r, step)).value;
  }

  ghost function RunOf(c: P.Config, t0: P.State): (nat, P.State) -> bool {
    (l: nat, t: P.State) => Reaches(t0, P.NextOf(c), l, t)
  }

  lemma RunInv(max: int, n: nat, k: nat, r: R.State)
    requires R.RunOf(max, n)(k, r)
    ensures R.InvOf(max, n)(r)
  {
    R.ReachableInv(max, n, k, r);
  }

  lemma NoStep(c: P.Config, max: int, n: nat, r: R.State, t0: P.State)
    requires R.RunOf(max, n)(0, r)
    ensures r == R.Init(n) && RunOf(c, t0)(0, t0)
  {
  }

  /** A run of the pipeline leads to where the call is. */
  ghost predicate Mirrored(c: P.Config, max: int, items: seq<Event>, t0: P.State, r: R.State) {
    exists l: nat, t: P.State :: RunOf(c, t0)(l, t) && MatchesOf(max, items)(r, t)
  }

  ghost function MirroredOf(c: P.Config, max: int, items: seq<Event>, t0: P.State): R.State -> bool {
    r => R.InvN(max, |items|, r) && Mirrored(c, max, items, t0, r)
  }

  lemma MirrorStarts(c: P.Config, max: int, items: seq<Event>, t0: P.State)
    requires MatchesOf(max, items)(R.Init(|items|), t0)
    ensures MirroredOf(c, max, items, t0)(R.Init(|items|))
  {
    R.InitInv(max, |items|);
    R.InitRun(max, items);
    NoStep(c, max, |items|, R.Init(|items|), t0);
  }

  lemma MirrorKeeps(c: P.Config, max: int, items: seq<Event>, t0: P.State, r: R.State, r': R.State)
    requires MirroredOf(c, max, items, t0)(r) && R.NextOf(max)(r, r')
    ensures MirroredOf(c, max, items, t0)(r')
  {
    var l: nat, t: P.State :| RunOf(c, t0)(l, t) && MatchesOf(max, items)(r, t);
    var l', t' := MoveOn(c, max, items, r, r', t0, l, t);
    R.NextKeepsInv(max, |items|, r, r');
  }

  lemma MirrorShows(c: P.Config, max: int, items: seq<Event>, t0: P.State, r: R.State) returns (l: nat, t: P.State)
    requires MirroredOf(c, max, items, t0)(r)
    ensures RunOf(c, t0)(l, t) && MatchesOf(max, items)(r, t)
  {
    l, t :| RunOf(c, t0)(l, t) && MatchesOf(max, items)(r, t);
  }

  /** Every schedule of the call, from its start, is a run of the pipeline from
      the moment the flush read the dead-letter queue's length. */
  lemma CallRefines(c: P.Config, max: int, items: seq<Event>, k: nat, r: R.State, t0: P.State)
      returns (l: nat, t: P.State)
    requires MatchesOf(max, items)(R.Init(|items|), t0)
    requires R.RunOf(max, |items|)(k, r)
    ensures RunOf(c, t0)(l, t) && MatchesOf(max, items)(r, t)
  {
    var inv := MirroredOf(c, max, items, t0);
    MirrorStarts(c, max, items, t0);
    forall p, q | inv(p) && R.NextOf(max)(p, q) ensures inv(q) {
      MirrorKeeps(c, max, items, t0, p, q);
    }
    Invariance(R.Init(|items|), R.NextOf(max), inv, k, r);
    l, t := MirrorShows(c, max, items, t0, r);
  }

  lemma FollowOn(c: P.Config, t0: P.State, l: nat, t: P.State, t': P.State) returns (l': nat)
    requires RunOf(c, t0)(l, t) && Follows(c, t, t')
    ensures RunOf(c, t0)(l', t')
  {
    l' := l;
    if t' != t {
      l' := OneMore(c, t0, l, t, t');
    }
  }

  lemma OneMore(c: P.Config, t0: P.State, l: nat, t: P.State, t': P.State) returns (l': nat)
    requires RunOf(c, t0)(l, t) && P.NextOf(c)(t, t')
    ensures RunOf(c, t0)(l', t')
  {
    l' := l + 1;
    Extend(t0, P.NextOf(c), l, t, t');
  }

  lemma MoveOn(c: P.Config, max: int, items: seq<Event>, r: R.State, r': R.State, t0: P.State, l: nat, t: P.State)
      returns (l': nat, t': P.State)
    requires R.InvOf(max, |items|)(r) && MatchesOf(max, items)(r, t) && R.NextOf(max)(r, r') && RunOf(c, t0)(l, t)
    ensures RunOf(c, t0)(l', t') && MatchesOf(max, items)(r', t')
  {
    t' := NextRefines(c, max, items, r, r', t);
    l' := FollowOn(c, t0, l, t, t');
  }

  /** The two start together. */
  lemma CallStarts(c: P.Config, max: int, s: P.State)
    requires s.loop.Flushing? && s.loop.f.Entering?
    ensures var t := P.ApplyFlush(c, s, P.ReadLength);
      t.Some? && MatchesOf(max, Models(s.batch))(R.Init(|s.batch|), t.value)
  {
    var items := Models(s.batch);
    NothingLogged(items);
    assert s.log.stored[|s.log.stored|..] == [];
    assert s.log.buried[|s.log.buried|..] == [];
  }

  lemma ConservedOf(max: int, items: seq<Event>, k: nat, r: R.State)
    requires R.RunOf(max, |items|)(k, r) && R.Returned(r)
    ensures AllBelow(r.inserted, |items|)
    ensures AllBelow(r.dead, |items|)
    ensures multiset(Pick(items, r.inserted)) + multiset(Pick(items, r.dead)) == multiset(items)
  {
    R.ItemsConserved(max, items, k, r);
  }

  lemma NoneLeft(max: int, items: seq<Event>, r: R.State, t: P.State)
    requires MatchesOf(max, items)(r, t) && R.Returned(r)
    requires multiset(Pick(items, r.inserted)) + multiset(Pick(items, r.dead)) == multiset(items)
    ensures t.loop.Flushing? && t.loop.f.Trying? && t.loop.f.itemised && t.loop.f.left == multiset{}
  {
  }

  lemma MeasureEnabled(c: P.Config, t: P.State)
    requires t.loop.Flushing? && t.loop.f.Trying? && t.loop.f.itemised && t.loop.f.left == multiset{}
    ensures P.ApplyFlush(c, t, P.Measure).Some?
  {
  }

  /** And they end together: when the call has returned, the flush can go on to
      measure the dead-letter queue. */
  lemma CallEnds(c: P.Config, max: int, items: seq<Event>, k: nat, r: R.State, t: P.State)
    requires R.RunOf(max, |items|)(k, r) && R.Returned(r) && MatchesOf(max, items)(r, t)
    ensures t.loop.Flushing? && P.ApplyFlush(c, t, P.Measure).Some?
  {
    ConservedOf(max, items, k, r);
    NoneLeft(max, items, r, t);
    MeasureEnabled(c, t);
  }

  // ---- With other goroutines in between ------------------------------------------------

  /** A step of a call, of Start, of the write loop or of Shutdown. */
  ghost predicate OtherStep(c: P.Config, t: P.State, t': P.State) {
    exists step: P.Step :: !step.LoopStep? && !step.Crash? && P.Apply(c, t, step) == Some(t')
  }

  lemma OthersLeave(c: P.Config, t: P.State, step: P.Step, t': P.State)
    requires t.start.Running? && !step.LoopStep? && !step.Crash? && P.Apply(c, t, step) == Some(t')
    ensures t'.start == t.start && t'.loop == t.loop && t'.batch == t.batch
    ensures t'.log.stored == t.log.stored && t'.log.buried == t.log.buried
  {
    match step
    case NewCall(p, e) =>
    case CallStep(p, a) =>
      if t'.ch == t.ch { P.CallLeaves(c, t, p, a, t'); } else { P.CallSends(c, t, p, a, t'); }
    case StartStep(st) =>
    case WriterStep(w) => P.WriterLeaves(t, w, t');
    case DownStep(d) => P.DownLeaves(t, d, t');
  }

  /** Nobody else touches a flush in progress. */
  lemma OthersKeepMatch(c: P.Config, max: int, items: seq<Event>, r: R.State, t: P.State, t': P.State)
    requires MatchesOf(max, items)(r, t) && Depth.LoopAfterStart(t) && OtherStep(c, t, t')
    ensures MatchesOf(max, items)(r, t') && Follows(c, t, t')
  {
    var step: P.Step :| !step.LoopStep? && !step.Crash? && P.Apply(c, t, step) == Some(t');
    OthersLeave(c, t, step, t');
    SameFlushKeepsMatch(max, items, r, t, t');
    assert P.Next(c, t, t');
  }

  lemma SameFlushKeepsMatch(max: int, items: seq<Event>, r: R.State, t: P.State, t': P.State)
    requires MatchesOf(max, items)(r, t) && t'.loop == t.loop && t'.batch == t.batch
    requires t'.log.stored == t.log.stored && t'.log.buried == t.log.buried
    ensures MatchesOf(max, items)(r, t')
  {
  }

  /** The call and the pipeline side by side. */
  datatype Both = Both(r: R.State, t: P.State)

  /** Either the call moves, and the flush by the image of its step, or another
      goroutine does. */
  ghost predicate MixedNext(c: P.Config, max: int, items: seq<Event>, a: Both, b: Both) {
    || (exists step :: R.Apply(max, a.r, step) == Some(b.r) && Moved(c, a.t, Image(max, items, a.r, step)) == Some(b.t))
    || (b.r == a.r && OtherStep(c, a.t, b.t))
  }

  ghost function MixedOf(c: P.Config, max: int, items: seq<Event>): (Both, Both) -> bool {
    (a, b) => MixedNext(c, max, items, a, b)
  }

  /** Some schedule of the call leads to r. */
  ghost function ScheduledOf(max: int, n: nat): R.State -> bool {
    r => exists k: nat :: R.RunOf(max, n)(k, r)
  }

  /** Some run of the pipeline leads from t0 to t. */
  ghost function ReachedOf(c: P.Config, t0: P.State): P.State -> bool {
    t => exists l: nat :: RunOf(c, t0)(l, t)
  }

  ghost predicate Together(c: P.Config, max: int, items: seq<Event>, t0: P.State, a: Both) {
    && MatchesOf(max, items)(a.r, a.t) && Depth.LoopAfterStart(a.t)
    && ScheduledOf(max, |items|)(a.r) && ReachedOf(c, t0)(a.t)
  }

  ghost function TogetherOf(c: P.Config, max: int, items: seq<Event>, t0: P.State): Both -> bool {
    a => Together(c, max, items, t0, a)
  }

  lemma ScheduleGoesOn(max: int, n: nat, r: R.State, r': R.State)
    requires ScheduledOf(max, n)(r) && (r' == r || R.NextOf(max)(r, r'))
    ensures ScheduledOf(max, n)(r')
  {
    if r' != r {
      var k: nat :| R.RunOf(max, n)(k, r);
      RetryRuns(max, n, k, r, r');
    }
  }

  lemma RetryRuns(max: int, n: nat, k: nat, r: R.State, r': R.State)
    requires R.RunOf(max, n)(k, r) && R.NextOf(max)(r, r')
    ensures R.RunOf(max, n)(k + 1, r')
  {
    Extend(R.Init(n), R.NextOf(max), k, r, r');
  }

  lemma RunGoesOn(c: P.Config, t0: P.State, t: P.State, t': P.State)
    requires ReachedOf(c, t0)(t) && Follows(c, t, t')
    ensures ReachedOf(c, t0)(t')
  {
    var l: nat :| RunOf(c, t0)(l, t);
    var l' := FollowOn(c, t0, l, t, t');
  }

  lemma MixedMoves(c: P.Config, max: int, items: seq<Event>, a: Both, b: Both)
    requires R.InvOf(max, |items|)(a.r) && MatchesOf(max, items)(a.r, a.t) && Depth.LoopAfterStart(a.t)
    requires MixedOf(c, max, items)(a, b)
    ensures MatchesOf(max, items)(b.r, b.t) && Follows(c, a.t, b.t) && (b.r == a.r || R.NextOf(max)(a.r, b.r))
  {
    if b.r == a.r && OtherStep(c, a.t, b.t) {
      OthersKeepMatch(c, max, items, a.r, a.t, b.t);
    } else {
      var step :| R.Apply(max, a.r, step) == Some(b.r) && Moved(c, a.t, Image(max, items, a.r, step)) == Some(b.t);
      CallMoves(c, max, items, a, b, step);
    }
  }

  lemma CallMoves(c: P.Config, max: int, items: seq<Event>, a: Both, b: Both, step: R.Step)
    requires R.InvOf(max, |items|)(a.r) && MatchesOf(max, items)(a.r, a.t)
    requires R.Apply(max, a.r, step) == Some(b.r) && Moved(c, a.t, Image(max, items, a.r, step)) == Some(b.t)
    ensures MatchesOf(max, items)(b.r, b.t) && Follows(c, a.t, b.t) && R.NextOf(max)(a.r, b.r)
  {
    StepRefines(c, max, items, a.r, step, a.t);
    MovedFollows(c, a.t, Image(max, items, a.r, step));
    assert R.Next(max, a.r, b.r);
  }

  lemma ScheduledInv(max: int, n: nat, r: R.State)
    requires ScheduledOf(max, n)(r)
    ensures R.InvOf(max, n)(r)
  {
    var k: nat :| R.RunOf(max, n)(k, r);
    RunInv(max, n, k, r);
  }

  lemma MixedKeeps(c: P.Config, max: int, items: seq<Event>, t0: P.State, a: Both, b: Both)
    requires TogetherOf(c, max, items, t0)(a) && MixedOf(c, max, items)(a, b)
    ensures TogetherOf(c, max, items, t0)(b)
  {
    ScheduledInv(max, |items|, a.r);
    MixedMoves(c, max, items, a, b);
    ScheduleGoesOn(max, |items|, a.r, b.r);
    RunGoesOn(c, t0, a.t, b.t);
    FollowsAfterStart(c, a.t, b.t);
  }

  lemma FollowsAfterStart(c: P.Config, t: P.State, t': P.State)
    requires Depth.LoopAfterStart(t) && Follows(c, t, t')
    ensures Depth.LoopAfterStart(t')
  {
    if t' != t {
      var step :| P.Apply(c, t, step) == Some(t');
      Depth.StepKeepsLoopAfterStart(c, t, step, t');
    }
  }

  /** Whatever producers, the write loop and Shutdown do during the call, the
      flush of the pipeline stays where the call is: the same events stored,
      dead-lettered and left, in a run of the pipeline and a schedule of the call. */
  lemma CallRefinesInterleaved(c: P.Config, max: int, items: seq<Event>, t0: P.State, k: nat, a: Both)
    requires MatchesOf(max, items)(R.Init(|items|), t0) && Depth.LoopAfterStart(t0)
    requires Reaches(Both(R.Init(|items|), t0), MixedOf(c, max, items), k, a)
    ensures MatchesOf(max, items)(a.r, a.t)
    ensures ScheduledOf(max, |items|)(a.r) && ReachedOf(c, t0)(a.t)
  {
    var init, next, inv := Both(R.Init(|items|), t0), MixedOf(c, max, items), TogetherOf(c, max, items, t0);
    StartsTogether(c, max, items, t0);
    forall p, q | inv(p) && next(p, q) ensures inv(q) {
      MixedKeeps(c, max, items, t0, p, q);
    }
    Invariance(init, next, inv, k, a);
    assert inv(a);
  }

  lemma StartsTogether(c: P.Config, max: int, items: seq<Event>, t0: P.State)
    requires MatchesOf(max, items)(R.Init(|items|), t0) && Depth.LoopAfterStart(t0)
    ensures TogetherOf(c, max, items, t0)(Both(R.Init(|items|), t0))
  {
    R.InitRun(max, items);
    NoStep(c, max, |items|, R.Init(|items|), t0);
    assert R.RunOf(max, |items|)(0, R.Init(|items|));
    assert RunOf(c, t0)(0, t0);
  }

  /** And the call is never held up: every step it can take, the flush can take
      with it. */
  lemma CallNeverHeldUp(c: P.Config, max: int, items: seq<Event>, a: Both, r': R.State) returns (b: Both)
    requires MatchesOf(max, items)(a.r, a.t) && R.InvOf(max, |items|)(a.r) && R.NextOf(max)(a.r, r')
    ensures b.r == r' && MixedOf(c, max, items)(a, b)
  {
    var step :| R.Apply(max, a.r, step) == Some(r');
    StepRefines(c, max, items, a.r, step, a.t);
    b := Both(r', Moved(c, a.t, Image(max, items, a.r, step)).value);
    assert MixedNext(c, max, items, a, b);
  }
}
