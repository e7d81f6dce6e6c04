/** `BatchRetry`: the batch is retried as a whole and, when that fails, every
    item is retried by its own goroutine behind a semaphore of 10.

    The concurrent program is a labelled transition system: `Apply` gives the
    state after one atomic step and `Reaches` holds of the states some
    schedule leads to. A store
    insert is atomic, so a failed call has no effect. */
module BatchRetrying {
  import opened Events
  import opened Sums
  import opened Machines
  import opened DeadLetter

  const SEMAPHORE := 10

  /** A `WithRetry` call in progress: about to test the loop condition with k
      calls made, past a failed k-th call, in backoff, or finished. */
  datatype Try = Loop(k: nat) | Check(k: nat) | Wait(k: nat) | Won(k: nat) | Lost(k: nat)

  datatype Move = CallOk | CallFail | GiveUp | SeeCancel | GoOn | TimerFires

  function Advance(max: int, cancelled: bool, t: Try, m: Move): Option<Try> {
    match (t, m)
    case (Loop(k), CallOk) => if k < max then Some(Won(k + 1)) else None
    case (Loop(k), CallFail) => if k < max then Some(Check(k + 1)) else None
    case (Loop(k), GiveUp) => if k >= max then Some(Lost(k)) else None
    case (Check(k), SeeCancel) => if cancelled then Some(Lost(k)) else None
    case (Check(k), GoOn) => if cancelled then None else Some(if k < max then Wait(k) else Loop(k))
    case (Wait(k), TimerFires) => Some(Loop(k))
    case (Wait(k), SeeCancel) => if cancelled then Some(Lost(k)) else None
    case _ => None
  }

  /** One item goroutine: waiting for the semaphore, retrying, holding the
      semaphore with its outcome recorded, gone. */
  datatype Pc = Queued | Running(t: Try) | Holding(ok: bool, k: nat) | Exited(ok: bool, k: nat)

  /** What the goroutine does next: take the semaphore, advance its retry loop,
      record the outcome, give the semaphore back. */
  datatype Action = Acquire | Retry(m: Move) | Settle | Release

  /** A goroutine's step: where it goes, and whether it stored its item,
      dead-lettered it or called the store on the way. */
  datatype Effect = Effect(pc: Pc, stores: bool, buries: bool, calls: bool)

  predicate IsCall(m: Move) {
    m.CallOk? || m.CallFail?
  }

  function Act(max: int, cancelled: bool, p: Pc, a: Action): Option<Effect> {
    match (p, a)
    case (Queued, Acquire) => Some(Effect(Running(Loop(0)), false, false, false))
    case (Running(t), Retry(m)) =>
      var t' := Advance(max, cancelled, t, m);
      if t'.None? then None else Some(Effect(Running(t'.value), m.CallOk?, false, IsCall(m)))
    case (Running(Won(k)), Settle) => Some(Effect(Holding(true, k), false, false, false))
    case (Running(Lost(k)), Settle) => Some(Effect(Holding(false, k), false, true, false))
    case (Holding(ok, k), Release) => Some(Effect(Exited(ok, k), false, false, false))
    case _ => None
  }

  /** `inserted` and `dead` list item positions in the order they were stored
      or dead-lettered, `asked` those whose own insert was called, in order;
      `calls` counts store calls. */
  datatype State = State(
    cancelled: bool,
    batch: Try,
    pcs: seq<Pc>,
    inserted: seq<nat>,
    dead: seq<nat>,
    asked: seq<nat>,
    calls: nat)

  datatype Step = Cancel | Batch(m: Move) | Item(i: nat, a: Action)

  function Init(n: nat): State {
    State(false, Loop(0), seq(n, _ => Queued), [], [], [], 0)
  }

  function Holds(p: Pc): nat {
    if p.Running? || p.Holding? then 1 else 0
  }

  function WithBatch(s: State, t: Try, m: Move): State {
    s.(batch := t,
       inserted := if m.CallOk? then Indices(|s.pcs|) else s.inserted,
       calls := s.calls + if IsCall(m) then 1 else 0)
  }

  function WithItem(s: State, i: nat, e: Effect): State
    requires i < |s.pcs|
  {
    s.(pcs := s.pcs[i := e.pc],
       inserted := if e.stores then s.inserted + [i] else s.inserted,
       dead := if e.buries then s.dead + [i] else s.dead,
       asked := if e.calls then s.asked + [i] else s.asked,
       calls := s.calls + if e.calls then 1 else 0)
  }

  predicate MayAct(s: State, i: nat, a: Action) {
    i < |s.pcs| && s.batch.Lost? && (a.Acquire? ==> SumBy(s.pcs, Holds) < SEMAPHORE)
  }

  function Apply(max: int, s: State, step: Step): Option<State> {
    match step
    case Cancel =>
      if s.cancelled then None else Some(s.(cancelled := true))
    case Batch(m) =>
      var t := Advance(max, s.cancelled, s.batch, m);
      if t.None? then None else Some(WithBatch(s, t.value, m))
    case Item(i, a) =>
      if !MayAct(s, i, a) then None
      else
        var e := Act(max, s.cancelled, s.pcs[i], a);
        if e.None? then None else Some(WithItem(s, i, e.value))
  }

  ghost predicate Next(max: int, s: State, s': State) {
    exists step :: Apply(max, s, step) == Some(s')
  }

  ghost function NextOf(max: int): (State, State) -> bool {
    (s, s') => Next(max, s, s')
  }

  predicate Returned(s: State) {
    s.batch.Won? || (s.batch.Lost? && forall i :: 0 <= i < |s.pcs| ==> s.pcs[i].Exited?)
  }

  // ---- What every step keeps -------------------------------------------------

  predicate TryOk(max: int, t: Try) {
    && t.k <= Max(0, max)
    && (t.Wait? ==> t.k < max)
  }

  predicate PcOk(max: int, p: Pc) {
    match p
    case Queued => true
    case Running(t) => TryOk(max, t)
    case Holding(_, k) => k <= Max(0, max)
    case Exited(_, k) => k <= Max(0, max)
  }

  predicate IsInserted(p: Pc) {
    (p.Running? && p.t.Won?) || ((p.Holding? || p.Exited?) && p.ok)
  }

  predicate IsDead(p: Pc) {
    (p.Holding? || p.Exited?) && !p.ok
  }

  function PcCalls(p: Pc): nat {
    match p
    case Queued => 0
    case Running(t) => t.k
    case Holding(_, k) => k
    case Exited(_, k) => k
  }

  /** Positions are logged once each, and exactly those whose goroutine got there. */
  ghost predicate Logged(s: State) {
    && AllBelow(s.inserted, |s.pcs|)
    && AllBelow(s.dead, |s.pcs|)
    && (forall i :: 0 <= i < |s.pcs| ==> multiset(s.inserted)[i] == if IsInserted(s.pcs[i]) then 1 else 0)
    && (forall i :: 0 <= i < |s.pcs| ==> multiset(s.dead)[i] == if IsDead(s.pcs[i]) then 1 else 0)
  }

  ghost predicate BeforeItems(s: State) {
    && (forall i :: 0 <= i < |s.pcs| ==> s.pcs[i].Queued?)
    && s.dead == []
    && s.inserted == if s.batch.Won? then Indices(|s.pcs|) else []
  }

  ghost predicate Counted(s: State) {
    && s.calls == s.batch.k + SumBy(s.pcs, PcCalls)
    && SumBy(s.pcs, Holds) <= SEMAPHORE
  }

  ghost predicate Bounded(max: int, s: State) {
    TryOk(max, s.batch) && forall i :: 0 <= i < |s.pcs| ==> PcOk(max, s.pcs[i])
  }

  /** Each item's goroutine knows how often it has called the store. */
  ghost predicate Asked(s: State) {
    forall i :: 0 <= i < |s.pcs| ==> multiset(s.asked)[i] == PcCalls(s.pcs[i])
  }

  ghost predicate Inv(max: int, s: State) {
    && Bounded(max, s)
    && Counted(s)
    && Asked(s)
    && (if s.batch.Lost? then Logged(s) else BeforeItems(s))
  }

  lemma {:induction false} SumOfQueued(s: seq<Pc>)
    requires forall i :: 0 <= i < |s| ==> s[i].Queued?
    ensures SumBy(s, PcCalls) == 0 && SumBy(s, Holds) == 0
  {
    if |s| > 0 {
      SumOfQueued(s[1..]);
    }
  }

  lemma InitInv(max: int, n: nat)
    ensures Inv(max, Init(n))
  {
    SumOfQueued(Init(n).pcs);
  }

  /** One goroutine's step, seen locally. */
  lemma ActLocal(max: int, cancelled: bool, p: Pc, a: Action)
    requires PcOk(max, p) && Act(max, cancelled, p, a).Some?
    ensures var e := Act(max, cancelled, p, a).value;
            && PcOk(max, e.pc)
            && PcCalls(e.pc) == PcCalls(p) + (if e.calls then 1 else 0)
            && (a.Acquire? || Holds(e.pc) <= Holds(p))
            && (IsInserted(e.pc) <==> IsInserted(p) || e.stores)
            && (IsDead(e.pc) <==> IsDead(p) || e.buries)
            && (e.stores ==> !IsInserted(p))
            && (e.buries ==> !IsDead(p))
            && (IsDead(p) ==> PcCalls(e.pc) == PcCalls(p))
            && PcRank(max, e.pc) < PcRank(max, p)
  {
  }

  lemma ItemKeepsLog(s: State, i: nat, e: Effect)
    requires Logged(s) && i < |s.pcs|
    requires IsInserted(e.pc) <==> IsInserted(s.pcs[i]) || e.stores
    requires IsDead(e.pc) <==> IsDead(s.pcs[i]) || e.buries
    requires e.stores ==> !IsInserted(s.pcs[i])
    requires e.buries ==> !IsDead(s.pcs[i])
    ensures Logged(WithItem(s, i, e))
  {
    var s' := WithItem(s, i, e);
    assert forall j :: 0 <= j < |s.pcs| && j != i ==> s'.pcs[j] == s.pcs[j];
  }

  lemma ItemKeepsAsked(s: State, i: nat, e: Effect)
    requires Asked(s) && i < |s.pcs|
    requires PcCalls(e.pc) == PcCalls(s.pcs[i]) + (if e.calls then 1 else 0)
    ensures Asked(WithItem(s, i, e))
  {
    var s' := WithItem(s, i, e);
    forall j | 0 <= j < |s'.pcs| ensures multiset(s'.asked)[j] == PcCalls(s'.pcs[j]) {
      assert j != i ==> s'.pcs[j] == s.pcs[j];
    }
  }

  lemma ItemKeepsCounts(s: State, i: nat, a: Action, e: Effect)
    requires Counted(s) && MayAct(s, i, a)
    requires PcCalls(e.pc) == PcCalls(s.pcs[i]) + (if e.calls then 1 else 0)
    requires a.Acquire? || Holds(e.pc) <= Holds(s.pcs[i])
    ensures Counted(WithItem(s, i, e))
  {
    SumByUpdate(s.pcs, PcCalls, i, e.pc);
    SumByUpdate(s.pcs, Holds, i, e.pc);
  }

  /** A step of the batch phase. Leaving it without success starts the items
      with nothing stored and nothing dead-lettered. */
  lemma BatchStepKeepsInv(max: int, s: State, m: Move)
    requires Inv(max, s) && Apply(max, s, Batch(m)).Some?
    ensures Inv(max, Apply(max, s, Batch(m)).value)
  {
    var s' := Apply(max, s, Batch(m)).value;
    assert !s.batch.Lost? && !s.batch.Won?;
    assert s'.pcs == s.pcs;
    assert s'.batch.Lost? ==> s'.inserted == [] && s'.dead == [];
  }

  lemma StepKeepsInv(max: int, s: State, step: Step)
    requires Inv(max, s) && Apply(max, s, step).Some?
    ensures Inv(max, Apply(max, s, step).value)
  {
    match step
    case Cancel =>
    case Batch(m) => BatchStepKeepsInv(max, s, m);
    case Item(i, a) =>
      ActLocal(max, s.cancelled, s.pcs[i], a);
      var e := Act(max, s.cancelled, s.pcs[i], a).value;
      ItemKeepsLog(s, i, e);
      ItemKeepsAsked(s, i, e);
      ItemKeepsCounts(s, i, a, e);
  }

  lemma StepLength(max: int, s: State, step: Step)
    requires Apply(max, s, step).Some?
    ensures |Apply(max, s, step).value.pcs| == |s.pcs|
  {
  }

  ghost predicate InvN(max: int, n: nat, s: State) {
    Inv(max, s) && |s.pcs| == n
  }

  ghost function InvOf(max: int, n: nat): State -> bool {
    s => InvN(max, n, s)
  }

  lemma NextKeepsInv(max: int, n: nat, s: State, s': State)
    requires InvOf(max, n)(s) && NextOf(max)(s, s')
    ensures InvOf(max, n)(s')
  {
    var step :| Apply(max, s, step) == Some(s');
    StepKeepsInv(max, s, step);
    StepLength(max, s, step);
  }

  lemma ReachableInv(max: int, n: nat, k: nat, s: State)
    requires Reaches(Init(n), NextOf(max), k, s)
    ensures InvOf(max, n)(s)
  {
    InitInv(max, n);
    forall p, q | InvOf(max, n)(p) && NextOf(max)(p, q) ensures InvOf(max, n)(q) {
      NextKeepsInv(max, n, p, q);
    }
    Invariance(Init(n), NextOf(max), InvOf(max, n), k, s);
  }

  // ---- Main results ----------------------------------------------------------

  /** Whatever the failures, the cancellation point and the schedule, when
      `BatchRetry` returns every item was stored exactly once and never
      dead-lettered, or dead-lettered exactly once and never stored. */
  lemma ExactlyOnce(max: int, n: nat, k: nat, s: State, i: nat)
    requires Reaches(Init(n), NextOf(max), k, s) && Returned(s)
    requires i < n
    ensures || (multiset(s.inserted)[i] == 1 && multiset(s.dead)[i] == 0)
            || (multiset(s.inserted)[i] == 0 && multiset(s.dead)[i] == 1)
  {
    ReachableInv(max, n, k, s);
    IndicesOnce(n, i);
  }

  lemma AllIndices(s: State, n: nat)
    requires AllBelow(s.inserted, n)
    requires AllBelow(s.dead, n)
    requires forall i :: 0 <= i < n ==> multiset(s.inserted)[i] + multiset(s.dead)[i] == 1
    ensures multiset(s.inserted + s.dead) == multiset(Indices(n))
  {
    var all: seq<nat>, want: seq<nat> := s.inserted + s.dead, Indices(n);
    forall i: nat | i in all || i in want
      ensures multiset(all)[i] == multiset(want)[i]
    {
      assert i < n;
      IndicesOnce(n, i);
    }
  }

  /** The same for the items themselves, equal ones included. */
  lemma ItemsConserved<T>(max: int, items: seq<T>, k: nat, s: State)
    requires Reaches(Init(|items|), NextOf(max), k, s) && Returned(s)
    ensures AllBelow(s.inserted, |items|)
    ensures AllBelow(s.dead, |items|)
    ensures multiset(Pick(items, s.inserted)) + multiset(Pick(items, s.dead)) == multiset(items)
  {
    ReachableInv(max, |items|, k, s);
    forall i | 0 <= i < |items|
      ensures multiset(s.inserted)[i] + multiset(s.dead)[i] == 1
    {
      ExactlyOnce(max, |items|, k, s, i);
    }
    AllIndices(s, |items|);
    PickAll(items, s.inserted, s.dead);
  }

  /** At no point are more than ten items being retried. */
  lemma AtMostTenAtOnce(max: int, n: nat, k: nat, s: State)
    requires Reaches(Init(n), NextOf(max), k, s)
    ensures SumBy(s.pcs, Holds) <= 10
  {
    ReachableInv(max, n, k, s);
  }

  /** At no point have there been more than MaxAttempts * (n + 1) store calls. */
  lemma CallBound(max: int, n: nat, k: nat, s: State)
    requires Reaches(Init(n), NextOf(max), k, s)
    ensures s.calls <= Max(0, max) * (n + 1)
  {
    ReachableInv(max, n, k, s);
    CallsBounded(max, s);
  }

  lemma CallsBounded(max: int, s: State)
    requires Bounded(max, s) && Counted(s)
    ensures s.calls <= Max(0, max) * (|s.pcs| + 1)
  {
    var m := Max(0, max);
    forall p | p in s.pcs ensures PcCalls(p) <= m {
      var i :| 0 <= i < |s.pcs| && s.pcs[i] == p;
      assert PcOk(max, s.pcs[i]);
    }
    SumByBound(s.pcs, PcCalls, m);
    assert m * (|s.pcs| + 1) == m * |s.pcs| + m;
  }

  // ---- Termination and progress ----------------------------------------------

  function TryRank(max: int, t: Try): nat {
    var m := Max(0, max);
    var left := if t.k <= m then m - t.k else 0;
    match t
    case Loop(_) => 3 * left + 2
    case Check(_) => 3 * left + 4
    case Wait(_) => 3 * left + 3
    case Won(_) => 0
    case Lost(_) => 0
  }

  function PcRank(max: int, p: Pc): nat {
    match p
    case Queued => 3 * Max(0, max) + 5
    case Running(t) => TryRank(max, t) + 2
    case Holding(_, _) => 1
    case Exited(_, _) => 0
  }

  function RankOf(max: int): Pc -> nat {
    p => PcRank(max, p)
  }

  function Rank(max: int, s: State): nat {
    (if s.cancelled then 0 else 1) + TryRank(max, s.batch) + SumBy(s.pcs, RankOf(max))
  }

  /** Every step uses up some of a finite budget, so every schedule ends. */
  lemma StepLowersRank(max: int, s: State, step: Step)
    requires Inv(max, s) && Apply(max, s, step).Some?
    ensures Rank(max, Apply(max, s, step).value) < Rank(max, s)
  {
    match step
    case Cancel =>
    case Batch(m) =>
    case Item(i, a) =>
      ActLocal(max, s.cancelled, s.pcs[i], a);
      SumByUpdate(s.pcs, RankOf(max), i, Act(max, s.cancelled, s.pcs[i], a).value.pc);
  }

  function TryMove(max: int, cancelled: bool, t: Try): (m: Move)
    ensures !t.Won? && !t.Lost? ==> Advance(max, cancelled, t, m).Some?
  {
    match t
    case Loop(k) => if k < max then CallFail else GiveUp
    case Check(_) => if cancelled then SeeCancel else GoOn
    case Wait(_) => TimerFires
    case Won(_) => GoOn
    case Lost(_) => GoOn
  }

  /** Until `BatchRetry` returns, something can move: waiting for the
      semaphore never blocks everybody. */
  lemma Progress(max: int, s: State) returns (step: Step)
    requires Inv(max, s) && !Returned(s)
    ensures Apply(max, s, step).Some?
  {
    if !s.batch.Lost? {
      step := Batch(TryMove(max, s.cancelled, s.batch));
    } else if i :| 0 <= i < |s.pcs| && (s.pcs[i].Running? || s.pcs[i].Holding?) {
      step := Item(i, if s.pcs[i].Holding? then Release
                      else if s.pcs[i].t.Won? || s.pcs[i].t.Lost? then Settle
                      else Retry(TryMove(max, s.cancelled, s.pcs[i].t)));
    } else {
      var i :| 0 <= i < |s.pcs| && !s.pcs[i].Exited?;
      NobodyHolds(s.pcs);
      step := Item(i, Acquire);
    }
  }

  lemma {:induction false} NobodyHolds(s: seq<Pc>)
    requires forall i :: 0 <= i < |s| ==> s[i].Queued? || s[i].Exited?
    ensures SumBy(s, Holds) == 0
  {
    if |s| > 0 {
      NobodyHolds(s[1..]);
    }
  }

  // ---- The program -------------------------------------------------------------

  /** The attempt count a dead-letter entry reports. */
  function Attempts(max: int, k: nat): int {
    if max < 0 then max else k
  }

  function Entry<T>(max: int, items: seq<T>, s: State, i: nat): DeadLetterEvent<T>
    requires i < |items| == |s.pcs|
  {
    DeadLetterEvent(items[i], Attempts(max, PcCalls(s.pcs[i])))
  }

  /** The dead-letter entries of a finished or running call, oldest first. */
  ghost function Entries<T>(max: int, items: seq<T>, s: State): (r: seq<DeadLetterEvent<T>>)
    requires |items| == |s.pcs| && AllBelow(s.dead, |items|)
    ensures |r| == |s.dead|
    ensures forall k :: 0 <= k < |r| ==> r[k] == Entry(max, items, s, s.dead[k])
  {
    seq(|s.dead|, k requires 0 <= k < |s.dead| => Entry(max, items, s, s.dead[k]))
  }

  /** A dead letter names its item and reports how often the item's own insert was
      called, or MaxAttempts when that is negative. */
  lemma DeadLetterReports<T>(max: int, items: seq<T>, k: nat, s: State, j: nat)
    requires Reaches(Init(|items|), NextOf(max), k, s) && j < |s.dead|
    ensures |items| == |s.pcs| && AllBelow(s.dead, |items|)
    ensures var i := s.dead[j];
      Entries(max, items, s)[j] == DeadLetterEvent(items[i], if max < 0 then max else multiset(s.asked)[i])
  {
    ReachableInv(max, |items|, k, s);
    DeadAreDead(max, s);
  }

  lemma DeadAreDead(max: int, s: State)
    requires Inv(max, s)
    ensures AllBelow(s.dead, |s.pcs|)
    ensures forall k :: 0 <= k < |s.dead| ==> IsDead(s.pcs[s.dead[k]])
  {
    forall k | 0 <= k < |s.dead| ensures IsDead(s.pcs[s.dead[k]]) {
      assert s.dead[k] in multiset(s.dead);
    }
  }

  /** Recorded entries do not change, and burying an item adds its own. */
  lemma EntriesItem<T>(max: int, items: seq<T>, s: State, i: nat, e: Effect)
    requires i < |items| == |s.pcs| && AllBelow(s.dead, |items|)
    requires forall k :: 0 <= k < |s.dead| ==> IsDead(s.pcs[s.dead[k]])
    requires IsDead(s.pcs[i]) ==> PcCalls(e.pc) == PcCalls(s.pcs[i])
    ensures var s' := WithItem(s, i, e);
      && AllBelow(s'.dead, |items|)
      && Entries(max, items, s') == Entries(max, items, s) + (if e.buries then [Entry(max, items, s', i)] else [])
  {
    var s' := WithItem(s, i, e);
    forall k | 0 <= k < |s.dead| ensures Entry(max, items, s', s.dead[k]) == Entry(max, items, s, s.dead[k]) {
      assert IsDead(s.pcs[s.dead[k]]);
    }
  }

  /** What a step buries. */
  function Buries(max: int, s: State, step: Step): bool
    requires Apply(max, s, step).Some?
  {
    step.Item? && Act(max, s.cancelled, s.pcs[step.i], step.a).value.buries
  }

  lemma OtherSteps(max: int, s: State, step: Step)
    requires Apply(max, s, step).Some? && !step.Item?
    ensures Apply(max, s, step).value.dead == s.dead && Apply(max, s, step).value.pcs == s.pcs
  {
  }

  lemma EntriesStep<T>(max: int, items: seq<T>, s: State, step: Step)
    requires InvOf(max, |items|)(s) && Apply(max, s, step).Some?
    ensures AllBelow(s.dead, |items|) && |s.pcs| == |items|
    ensures var s' := Apply(max, s, step).value;
      && |s'.pcs| == |items| && AllBelow(s'.dead, |items|)
      && (Buries(max, s, step) ==> step.i < |items|)
      && Entries(max, items, s') == Entries(max, items, s)
           + (if Buries(max, s, step) then [Entry(max, items, s', step.i)] else [])
  {
    DeadAreDead(max, s);
    if step.Item? {
      ActLocal(max, s.cancelled, s.pcs[step.i], step.a);
      EntriesItem(max, items, s, step.i, Act(max, s.cancelled, s.pcs[step.i], step.a).value);
    } else {
      OtherSteps(max, s, step);
    }
  }

  ghost function RunOf(max: int, n: nat): (nat, State) -> bool {
    (k: nat, s: State) => Reaches(Init(n), NextOf(max), k, s)
  }

  lemma Assoc<T>(a: seq<T>, b: seq<T>, c: seq<T>)
    ensures a + b + c == a + (b + c)
  {
  }

  lemma InitRun<T>(max: int, items: seq<T>)
    ensures RunOf(max, |items|)(0, Init(|items|))
    ensures |Init(|items|).pcs| == |items| && Init(|items|).dead == []
  {
  }

  /** Runs a whole call under an arbitrary scheduler: each turn takes any step
      that is enabled. The dead-letter queue object receives the entries as the
      schedule produces them. */
  method BatchRetry<T>(max: int, items: seq<T>, dlq: DeadLetterQueue<T>) returns (s: State, ghost k: nat)
    requires dlq.Valid()
    modifies dlq
    ensures dlq.Valid()
    ensures |items| == 0 ==> s == Init(0)
    ensures |items| > 0 ==> RunOf(max, |items|)(k, s) && Returned(s)
    ensures |s.pcs| == |items| && AllBelow(s.dead, |items|)
    ensures dlq.history == old(dlq.history) + Entries(max, items, s)
  {
    InitRun(max, items);
    s, k := Init(|items|), 0;
    if |items| == 0 {
      return;
    }
    while !Returned(s)
      invariant dlq.Valid()
      invariant RunOf(max, |items|)(k, s)
      invariant |s.pcs| == |items| && AllBelow(s.dead, |items|)
      invariant dlq.history == old(dlq.history) + Entries(max, items, s)
      decreases Rank(max, s)
    {
      ghost var before := Entries(max, items, s);
      ghost var buried;
      s, buried := Turn(max, items, s, k, dlq);
      k := k + 1;
      Assoc(old(dlq.history), before, buried);
    }
  }

  /** One turn of the scheduler: any step that is enabled. */
  method Turn<T>(max: int, items: seq<T>, s: State, ghost k: nat, dlq: DeadLetterQueue<T>) returns (s': State, ghost buried: seq<DeadLetterEvent<T>>)
    requires RunOf(max, |items|)(k, s) && !Returned(s)
    requires |s.pcs| == |items| && AllBelow(s.dead, |items|)
    requires dlq.Valid()
    modifies dlq
    ensures dlq.Valid()
    ensures RunOf(max, |items|)(k + 1, s')
    ensures |s'.pcs| == |items| && AllBelow(s'.dead, |items|)
    ensures dlq.history == old(dlq.history) + buried
    ensures Entries(max, items, s') == Entries(max, items, s) + buried
    ensures Rank(max, s') < Rank(max, s)
  {
    SomeStepEnabled(max, |items|, k, s);
    var step :| Apply(max, s, step).Some?;
    StepFacts(max, |items|, k, s, step);
    EntriesStep(max, items, s, step);
    s' := Apply(max, s, step).value;
    buried := [];
    if Buries(max, s, step) {
      buried := [Entry(max, items, s', step.i)];
      dlq.Add(Entry(max, items, s', step.i));
    }
  }

  lemma StepFacts(max: int, n: nat, k: nat, s: State, step: Step)
    requires RunOf(max, n)(k, s) && Apply(max, s, step).Some?
    ensures InvOf(max, n)(s)
    ensures RunOf(max, n)(k + 1, Apply(max, s, step).value)
    ensures Rank(max, Apply(max, s, step).value) < Rank(max, s)
  {
    ReachableInv(max, n, k, s);
    StepLowersRank(max, s, step);
    var s' := Apply(max, s, step).value;
    assert Next(max, s, s');
    Extend(Init(n), NextOf(max), k, s, s');
  }

  lemma SomeStepEnabled(max: int, n: nat, k: nat, s: State)
    requires RunOf(max, n)(k, s) && !Returned(s)
    ensures exists step :: Apply(max, s, step).Some?
  {
    ReachableInv(max, n, k, s);
    var step := Progress(max, s);
  }
}
