/** What the write-ahead store does with a request, and why it refuses one, over
    all interleavings. */
module PersistenceHistory {
  import opened Events
  import opened Machines
  import opened PersistenceProtocol

  // ---- Puts ------------------------------------------------------------------------

  /** The puts of a request the loop has looked at, and of one it has not. */
  function WantPuts(s: State, r: nat): nat {
    if r in s.decided && s.decided[r] && s.loop != Putting(r) then 1 else 0
  }

  ghost predicate PutsOk(s: State) {
    && (forall r :: s.puts[r] == WantPuts(s, r))
    && (s.loop.Putting? ==> s.loop.r in s.decided && s.decided[s.loop.r])
    && (s.loop.Answering? || s.loop.Answered? ==> s.loop.r in s.decided)
    && (s.loop.Got? ==> s.loop.r !in s.decided)
    && (forall i :: 0 <= i < |s.writeCh| ==> s.writeCh[i] !in s.decided)
  }

  /** Only requests handed over are looked at, and every one that is gone was. */
  ghost predicate HandledOk(s: State) {
    && (forall r :: r in s.decided ==> r in s.pcs && WasHanded(s.pcs[r]))
    && (forall r :: r in s.pcs && WasHanded(s.pcs[r]) ==> Held(s, r) || r in s.decided)
  }

  ghost function PutInvOf(): State -> bool {
    s => PutsOk(s) && HandledOk(s)
  }

  /** The loop takes the oldest request. */
  lemma FetchKeepsPuts(s: State, s': State)
    requires PutsOk(s) && s.loop.Idle? && s.writeCh != []
    requires s' == s.(loop := Got(s.writeCh[0]), writeCh := s.writeCh[1..])
    ensures PutsOk(s')
  {
    assert forall r :: WantPuts(s', r) == WantPuts(s, r);
  }

  /** The loop reads the flag. */
  lemma DecideKeepsPuts(s: State, r: nat, s': State)
    requires PutsOk(s) && Answers(s) && s.loop == Got(r)
    requires s' == s.(loop := if s.closed then Answering(r) else Putting(r), decided := s.decided[r := !s.closed])
    ensures PutsOk(s')
  {
    assert s.puts[r] == WantPuts(s, r);
    forall q ensures s'.puts[q] == WantPuts(s', q) {
      assert s.puts[q] == WantPuts(s, q);
    }
  }

  lemma PutKeepsPuts(s: State, r: nat, s': State)
    requires PutsOk(s) && s.loop == Putting(r)
    requires s' == s.(loop := Answering(r), puts := s.puts + multiset{r}, badOp := s'.badOp)
    ensures PutsOk(s')
  {
    forall q ensures s'.puts[q] == WantPuts(s', q) {
      assert s.puts[q] == WantPuts(s, q);
    }
  }

  lemma RestKeepsPuts(s: State, s': State)
    requires PutsOk(s) && s'.puts == s.puts && s'.decided == s.decided && s'.writeCh == s.writeCh
    requires !s.loop.Putting? && !s'.loop.Putting? && !s'.loop.Got?
    requires s'.loop.Answering? || s'.loop.Answered? ==> s'.loop.r in s.decided
    ensures PutsOk(s')
  {
    assert forall r :: WantPuts(s', r) == WantPuts(s, r);
  }

  lemma LoopKeepsPuts(s: State, s': State)
    requires PutsOk(s) && Answers(s) && ActLoop(s) == Some(s')
    ensures PutsOk(s')
  {
    match s.loop
    case Idle =>
      if s.writeCh != [] { FetchKeepsPuts(s, s'); } else { RestKeepsPuts(s, s'); }
    case Got(r) => DecideKeepsPuts(s, r, s');
    case Putting(r) => PutKeepsPuts(s, r, s');
    case Answering(r) => RestKeepsPuts(s, s');
    case Answered(r) => RestKeepsPuts(s, s');
    case Gone =>
  }

  /** What the loop does to the requests it holds. */
  lemma LoopHolds(s: State, r: nat)
    requires ActLoop(s).Some?
    ensures Held(s, r) ==> Held(ActLoop(s).value, r) || s.loop == Answered(r)
  {
    if s.loop.Idle? {
      IdleHolds(s, r);
    } else {
      AtWorkHolds(s, r);
    }
  }

  lemma IdleHolds(s: State, r: nat)
    requires ActLoop(s).Some? && s.loop.Idle?
    ensures Held(s, r) ==> Held(ActLoop(s).value, r)
  {
    if s.writeCh != [] {
      assert s.writeCh == [s.writeCh[0]] + s.writeCh[1..];
    }
  }

  lemma AtWorkHolds(s: State, r: nat)
    requires ActLoop(s).Some? && !s.loop.Idle?
    ensures Held(s, r) ==> Held(ActLoop(s).value, r) || s.loop == Answered(r)
  {
  }

  lemma LoopDecides(s: State)
    requires ActLoop(s).Some?
    ensures !s.loop.Got? ==> ActLoop(s).value.decided == s.decided
    ensures s.loop.Got? ==> ActLoop(s).value.decided == s.decided[s.loop.r := !s.closed]
  {
    if s.loop.Got? {
      GotDecides(s, s.loop.r);
    } else {
      RestDecides(s);
    }
  }

  lemma RestDecides(s: State)
    requires ActLoop(s).Some? && !s.loop.Got?
    ensures ActLoop(s).value.decided == s.decided
  {
    if s.loop.Idle? {
      IdleDecides(s);
    } else {
      AtWorkDecides(s);
    }
  }

  lemma IdleDecides(s: State)
    requires ActLoop(s).Some? && s.loop.Idle?
    ensures ActLoop(s).value.decided == s.decided
  {
  }

  lemma AtWorkDecides(s: State)
    requires ActLoop(s).Some? && (s.loop.Putting? || s.loop.Answering? || s.loop.Answered?)
    ensures ActLoop(s).value.decided == s.decided
  {
  }

  lemma GotDecides(s: State, r: nat)
    requires s.loop == Got(r) && s.writer.None?
    ensures ActLoop(s).Some? && ActLoop(s).value.decided == s.decided[r := !s.closed]
  {
  }

  lemma LoopKeepsHandled(s: State, s': State)
    requires HandledOk(s) && PutsOk(s) && Answers(s) && ActLoop(s) == Some(s')
    ensures HandledOk(s')
  {
    LoopLeaves(s);
    LoopDecides(s);
    forall r | r in s'.pcs && WasHanded(s'.pcs[r]) ensures Held(s', r) || r in s'.decided {
      LoopHolds(s, r);
    }
  }

  lemma ActKeepsPuts(s: State, p: nat, e: Effect)
    requires PutsOk(s) && HandledOk(s) && p in s.pcs && React(ViewOf(s), s.pcs[p]) == Some(e)
    ensures PutsOk(Perform(s, p, e))
  {
    ReactAnswer(ViewOf(s), s.pcs[p], e);
    var s' := Perform(s, p, e);
    assert forall r :: WantPuts(s', r) == WantPuts(s, r);
  }

  lemma ActKeepsHandled(s: State, p: nat, e: Effect)
    requires HandledOk(s) && p in s.pcs && React(ViewOf(s), s.pcs[p]) == Some(e)
    ensures HandledOk(Perform(s, p, e))
  {
    ReactAnswer(ViewOf(s), s.pcs[p], e);
    var s' := Perform(s, p, e);
    forall r | r in s'.pcs && WasHanded(s'.pcs[r]) ensures Held(s', r) || r in s'.decided {
      if r == p && e.deed.Hand? {
        assert s'.writeCh[|s.writeCh|] == p;
      } else {
        assert r in s.pcs && WasHanded(s.pcs[r]);
        assert Held(s, r) ==> Held(s', r);
      }
    }
  }

  lemma NewKeepsPuts(s: State, p: nat, k: Kind, s': State)
    requires PutsOk(s) && HandledOk(s) && p !in s.pcs && s' == s.(pcs := s.pcs[p := First(k)])
    ensures PutInvOf()(s')
  {
    assert forall r :: WantPuts(s', r) == WantPuts(s, r);
    assert forall r :: Held(s', r) == Held(s, r);
  }

  lemma ActKeepsBoth(s: State, p: nat, e: Effect)
    requires PutsOk(s) && HandledOk(s) && p in s.pcs && React(ViewOf(s), s.pcs[p]) == Some(e)
    ensures PutInvOf()(Perform(s, p, e))
  {
    ActKeepsPuts(s, p, e);
    ActKeepsHandled(s, p, e);
  }

  lemma LoopKeepsBoth(s: State, s': State)
    requires PutsOk(s) && HandledOk(s) && Answers(s) && ActLoop(s) == Some(s')
    ensures PutInvOf()(s')
  {
    LoopKeepsPuts(s, s');
    LoopKeepsHandled(s, s');
  }

  lemma StepKeepsPuts(s: State, step: Step, s': State)
    requires InvOf()(s) && PutInvOf()(s) && Apply(s, step) == Some(s')
    ensures PutInvOf()(s')
  {
    AnswersHold(s);
    match step
    case New(p, k) => NewKeepsPuts(s, p, k, s');
    case Act(p) => ActKeepsBoth(s, p, React(ViewOf(s), s.pcs[p]).value);
    case Loop => LoopKeepsBoth(s, s');
  }

  lemma AnswersHold(s: State)
    requires InvOf()(s)
    ensures Answers(s)
  {
  }

  ghost function FullOf(): State -> bool {
    s => PersistenceProtocol.Inv(s) && PutsOk(s) && HandledOk(s)
  }

  lemma FullParts(s: State)
    requires FullOf()(s)
    ensures InvOf()(s) && PutInvOf()(s)
  {
  }

  lemma FullFrom(s: State)
    requires InvOf()(s) && PutInvOf()(s)
    ensures FullOf()(s)
  {
  }

  lemma NextKeepsFull(s: State, s': State)
    requires FullOf()(s) && NextOf()(s, s')
    ensures FullOf()(s')
  {
    FullParts(s);
    NextKeeps(s, s');
    var step :| Apply(s, step) == Some(s');
    StepKeepsPuts(s, step, s');
    FullFrom(s');
  }

  lemma InitFull()
    ensures FullOf()(Init())
  {
    InitInv();
    assert PutInvOf()(Init());
    FullFrom(Init());
  }

  lemma ReachablePuts(k: nat, s: State)
    requires Reaches(Init(), NextOf(), k, s)
    ensures PutInvOf()(s)
  {
    forall p, q | FullOf()(p) && NextOf()(p, q) ensures FullOf()(q) {
      NextKeepsFull(p, q);
    }
    InitFull();
    Invariance(Init(), NextOf(), FullOf(), k, s);
    FullParts(s);
  }

  // ---- Traces ----------------------------------------------------------------------

  ghost predicate IsRun(trace: seq<State>) {
    IsTrace(Init(), NextOf(), trace)
  }

  ghost function DecidedOf(r: nat, open: bool): State -> bool {
    (s: State) => r in s.decided && s.decided[r] == open
  }

  /** The loop decides on a request once, by the flag it reads. */
  lemma DecidesByFlag(s: State, s': State, r: nat)
    requires NextOf()(s, s') && s.loop == Got(r) && s'.loop != s.loop
    ensures DecidedOf(r, !s.closed)(s')
  {
    var step :| Apply(s, step) == Some(s');
    StepDecides(s, step);
  }

  lemma DecisionStays(s: State, s': State, r: nat, open: bool)
    requires PutInvOf()(s) && NextOf()(s, s') && DecidedOf(r, open)(s)
    ensures DecidedOf(r, open)(s')
  {
    var step :| Apply(s, step) == Some(s');
    StepDecides(s, step);
  }

  lemma StepDecides(s: State, step: Step)
    requires Apply(s, step).Some?
    ensures !(step.Loop? && s.loop.Got?) ==> Apply(s, step).value.decided == s.decided
    ensures step.Loop? && s.loop.Got? ==> Apply(s, step).value.decided == s.decided[s.loop.r := !s.closed]
  {
    match step
    case New(p, k) =>
    case Act(p) =>
    case Loop => LoopDecides(s);
  }

  /** The loop is done with the request, or has replied to it. */
  predicate HasReplied(s: State, r: nat) {
    r in s.pcs && WasHanded(s.pcs[r]) && (!Held(s, r) || s.loop == Answered(r))
  }

  /** A request that the loop has answered was put exactly once if the store was
      open when the loop read the flag for it, and never otherwise. */
  lemma PutIffOpen(trace: seq<State>, t: nat, n: nat, r: nat)
    requires IsRun(trace) && t < n < |trace|
    requires trace[t].loop == Got(r) && trace[t + 1].loop != Got(r) && HasReplied(trace[n], r)
    ensures trace[n].puts[r] == if trace[t].closed then 0 else 1
  {
    var q := DecidedOf(r, !trace[t].closed);
    RunStep(trace, t);
    DecidesByFlag(trace[t], trace[t + 1], r);
    forall i | t + 1 <= i < n && q(trace[i]) ensures q(trace[i + 1]) {
      TraceReaches(Init(), NextOf(), trace, i);
      ReachablePuts(i, trace[i]);
      RunStep(trace, i);
      DecisionStays(trace[i], trace[i + 1], r, !trace[t].closed);
    }
    Stays(Init(), NextOf(), trace, q, t + 1, n);
    TraceReaches(Init(), NextOf(), trace, n);
    ReachablePuts(n, trace[n]);
    PutFacts(trace[n], r, !trace[t].closed);
  }

  lemma PutFacts(s: State, r: nat, open: bool)
    requires PutInvOf()(s) && DecidedOf(r, open)(s) && (!Held(s, r) || s.loop == Answered(r))
    ensures s.puts[r] == if open then 1 else 0
  {
    assert s.puts[r] == WantPuts(s, r);
  }

  /** Every answered request was looked at once, and nothing is ever put twice. */
  lemma AnsweredWasDecided(k: nat, s: State, r: nat)
    requires Reaches(Init(), NextOf(), k, s)
    ensures s.puts[r] <= 1
    ensures HasReplied(s, r) ==> r in s.decided && s.puts[r] == if s.decided[r] then 1 else 0
  {
    ReachablePuts(k, s);
    assert s.puts[r] == WantPuts(s, r);
  }

  // ---- Why calls went where they went ------------------------------------------------

  predicate Leaves(s: State, p: nat, s': State) {
    p in s.pcs && p in s'.pcs && s'.pcs[p] != s.pcs[p]
  }

  /** With this step the call, holding the lock, reads the flag. */
  predicate ReadsFlag(s: State, p: nat, s': State) {
    Leaves(s, p, s') && AtFlag(s.pcs[p])
  }

  /** With this step it tries to hand its request to the write loop. */
  predicate TriesHanding(s: State, p: nat, s': State) {
    Leaves(s, p, s') && s.pcs[p].AsyncOpen?
  }

  /** Something a call can find. */
  datatype Sight = Closed | Open | Full_ | Room

  predicate Finds(s: State, p: nat, s': State, x: Sight) {
    match x
    case Closed => ReadsFlag(s, p, s') && s.closed
    case Open => ReadsFlag(s, p, s') && !s.closed
    case Full_ => TriesHanding(s, p, s') && |s.writeCh| >= 1000
    case Room => TriesHanding(s, p, s') && |s.writeCh| < 1000
  }

  predicate FindsAt(trace: seq<State>, t: nat, p: nat, x: Sight) {
    t + 1 < |trace| && Finds(trace[t], p, trace[t + 1], x)
  }

  /** The call found it so on its way to the n-th state. */
  ghost predicate Found(trace: seq<State>, n: nat, p: nat, x: Sight) {
    exists t: nat :: t < n && FindsAt(trace, t, p, x)
  }

  datatype Seen = Seen(closed: bool, open: bool, full: bool, room: bool)

  ghost function SeenBefore(trace: seq<State>, n: nat, p: nat): Seen {
    Seen(Found(trace, n, p, Closed), Found(trace, n, p, Open), Found(trace, n, p, Full_), Found(trace, n, p, Room))
  }

  /** Where a call stands is explained by what it has found. */
  predicate Explained(x: Seen, pc: Pc, worked: bool) {
    match pc
    case AsyncOpen => x.open
    case AsyncRefused => x.closed || x.full
    case AsyncReplied => x.closed || x.full
    case AsyncUnlock(handed) => if handed then x.open && x.room else x.closed || x.full
    case AsyncDone(handed) => if handed then x.open && x.room else x.closed || x.full
    case RemoveOpen => x.open && !worked
    case RemoveUnlock => if worked then x.open else x.closed
    case RemoveDone => if worked then x.open else x.closed
    case ReadOpen => x.open && !worked
    case ReadLeaving => if worked then x.open else x.closed
    case ReadDone => if worked then x.open else x.closed
    case CloseNoop => x.closed
    case _ => if Closer(pc) then x.open else !worked
  }

  predicate More(x: Seen, y: Seen) {
    (x.closed ==> y.closed) && (x.open ==> y.open) && (x.full ==> y.full) && (x.room ==> y.room)
  }

  /** What the step shows the call is among what it has found. */
  predicate Includes(s: State, p: nat, s': State, y: Seen) {
    && (Finds(s, p, s', Closed) ==> y.closed) && (Finds(s, p, s', Open) ==> y.open)
    && (Finds(s, p, s', Full_) ==> y.full) && (Finds(s, p, s', Room) ==> y.room)
  }

  lemma FoundGrows(trace: seq<State>, n: nat, p: nat, x: Sight)
    requires n + 1 < |trace|
    ensures Found(trace, n, p, x) ==> Found(trace, n + 1, p, x)
    ensures Finds(trace[n], p, trace[n + 1], x) ==> Found(trace, n + 1, p, x)
  {
    if Finds(trace[n], p, trace[n + 1], x) {
      assert FindsAt(trace, n, p, x);
    }
  }

  lemma SeenGrows(trace: seq<State>, n: nat, p: nat)
    requires n + 1 < |trace|
    ensures More(SeenBefore(trace, n, p), SeenBefore(trace, n + 1, p))
    ensures Includes(trace[n], p, trace[n + 1], SeenBefore(trace, n + 1, p))
  {
    FoundGrows(trace, n, p, Closed);
    FoundGrows(trace, n, p, Open);
    FoundGrows(trace, n, p, Full_);
    FoundGrows(trace, n, p, Room);
  }

  lemma ExplainedGrows(x: Seen, y: Seen, pc: Pc, worked: bool)
    requires Explained(x, pc, worked) && More(x, y)
    ensures Explained(y, pc, worked)
  {
  }

  predicate AtFlag(pc: Pc) {
    pc.AsyncLocked? || pc.RemoveLocked? || pc.ReadLocked? || pc.CloseLocked?
  }

  lemma ActMoves(v: View, pc: Pc)
    requires React(v, pc).Some? && !React(v, pc).value.deed.Panic?
    ensures React(v, pc).value.pc != pc
  {
  }

  /** A step of a call is explained by what it can see. */
  lemma ActExplained(v: View, y: Seen, pc: Pc, worked: bool)
    requires Explained(y, pc, worked) && React(v, pc).Some? && !React(v, pc).value.deed.Panic?
    requires AtFlag(pc) ==> if v.closed then y.closed else y.open
    requires pc.AsyncOpen? ==> if v.full then y.full else y.room
    ensures Explained(y, React(v, pc).value.pc, worked || React(v, pc).value.deed.BoltOp?)
  {
  }

  ghost predicate Stands(x: Seen, p: nat, s: State) {
    if p in s.pcs then Explained(x, s.pcs[p], p in s.worked) else p !in s.worked
  }

  ghost function StandsOf(x: Seen, p: nat): State -> bool {
    s => Stands(x, p, s)
  }

  lemma ActKeepsExplained(s: State, p: nat, e: Effect, x: Seen, y: Seen)
    requires StandsOf(x, p)(s) && More(x, y) && p in s.pcs && React(ViewOf(s), s.pcs[p]) == Some(e) && !e.deed.Panic?
    requires Includes(s, p, Perform(s, p, e), y)
    ensures StandsOf(y, p)(Perform(s, p, e))
  {
    ExplainedGrows(x, y, s.pcs[p], p in s.worked);
    ActMoves(ViewOf(s), s.pcs[p]);
    ActExplained(ViewOf(s), y, s.pcs[p], p in s.worked);
  }

  lemma SameKeepsExplained(s: State, s': State, p: nat, x: Seen, y: Seen)
    requires StandsOf(x, p)(s) && More(x, y) && (p in s'.worked <==> p in s.worked)
    requires p in s.pcs ==> p in s'.pcs && s'.pcs[p] == s.pcs[p]
    requires p !in s.pcs && p in s'.pcs ==> IsFirst(s'.pcs[p])
    ensures StandsOf(y, p)(s')
  {
    if p in s.pcs {
      ExplainedGrows(x, y, s.pcs[p], p in s.worked);
    }
  }

  predicate IsFirst(pc: Pc) {
    pc.AsyncStart? || pc.RemoveStart? || pc.ReadStart? || pc.CloseStart?
  }

  lemma StepExplained(s: State, step: Step, s': State, p: nat, x: Seen, y: Seen)
    requires StandsOf(x, p)(s) && More(x, y) && Apply(s, step) == Some(s') && !s'.panicked && Includes(s, p, s', y)
    ensures StandsOf(y, p)(s')
  {
    match step
    case New(q, k) => SameKeepsExplained(s, s', p, x, y);
    case Act(q) =>
      if q == p {
        ActKeepsExplained(s, p, React(ViewOf(s), s.pcs[p]).value, x, y);
      } else {
        SameKeepsExplained(s, s', p, x, y);
      }
    case Loop =>
      LoopLeaves(s);
      SameKeepsExplained(s, s', p, x, y);
  }

  lemma NextExplained(s: State, s': State, p: nat, x: Seen, y: Seen)
    requires StandsOf(x, p)(s) && More(x, y) && NextOf()(s, s') && !s'.panicked && Includes(s, p, s', y)
    ensures StandsOf(y, p)(s')
  {
    var step :| Apply(s, step) == Some(s');
    StepExplained(s, step, s', p, x, y);
  }

  lemma RunStep(trace: seq<State>, n: nat)
    requires IsRun(trace) && n + 1 < |trace|
    ensures NextOf()(trace[n], trace[n + 1])
  {
    TraceStep(Init(), NextOf(), trace, n);
  }

  lemma NoPanic(trace: seq<State>, n: nat)
    requires IsRun(trace) && n < |trace|
    ensures !trace[n].panicked
  {
    TraceReaches(Init(), NextOf(), trace, n);
    NeverPanics(n, trace[n]);
  }

  lemma ExplainedNext(trace: seq<State>, n: nat, p: nat)
    requires IsRun(trace) && n + 1 < |trace| && StandsOf(SeenBefore(trace, n, p), p)(trace[n])
    ensures StandsOf(SeenBefore(trace, n + 1, p), p)(trace[n + 1])
  {
    RunStep(trace, n);
    NoPanic(trace, n + 1);
    SeenGrows(trace, n, p);
    NextExplained(trace[n], trace[n + 1], p, SeenBefore(trace, n, p), SeenBefore(trace, n + 1, p));
  }

  lemma {:induction false} RunExplained(trace: seq<State>, n: nat, p: nat)
    requires IsRun(trace) && n < |trace|
    ensures StandsOf(SeenBefore(trace, n, p), p)(trace[n])
  {
    if n > 0 {
      RunExplained(trace, n - 1, p);
      ExplainedNext(trace, n - 1, p);
    }
  }

  lemma CallExplained(trace: seq<State>, n: nat, p: nat)
    requires IsRun(trace) && n < |trace| && p in trace[n].pcs
    ensures Explained(SeenBefore(trace, n, p), trace[n].pcs[p], p in trace[n].worked)
  {
    RunExplained(trace, n, p);
  }

  lemma FoundAt(trace: seq<State>, n: nat, p: nat, x: Sight) returns (t: nat)
    requires Found(trace, n, p, x)
    ensures t < n && t + 1 < |trace| && Finds(trace[t], p, trace[t + 1], x)
  {
    t :| t < n && FindsAt(trace, t, p, x);
  }

  /** In every run: the call itself refuses a request only if it found the store
      closed when it read the flag, or 1000 requests waiting when it tried to hand
      its own over. */
  lemma RefusedWithReason(trace: seq<State>, n: nat, p: nat) returns (t: nat)
    requires IsRun(trace) && n < |trace| && p in trace[n].pcs && trace[n].pcs[p] == AsyncDone(false)
    ensures t < n && t + 1 < |trace|
    ensures || (ReadsFlag(trace[t], p, trace[t + 1]) && trace[t].closed)
            || (TriesHanding(trace[t], p, trace[t + 1]) && |trace[t].writeCh| >= 1000)
  {
    CallExplained(trace, n, p);
    t := FoundAt(trace, n, p, if Found(trace, n, p, Closed) then Closed else Full_);
  }

  /** One that was handed over found the store open, and then fewer waiting. */
  lemma HandedWithRoom(trace: seq<State>, n: nat, p: nat) returns (t: nat, u: nat)
    requires IsRun(trace) && n < |trace| && p in trace[n].pcs && trace[n].pcs[p] == AsyncDone(true)
    ensures t < n && t + 1 < |trace| && ReadsFlag(trace[t], p, trace[t + 1]) && !trace[t].closed
    ensures u < n && u + 1 < |trace| && TriesHanding(trace[u], p, trace[u + 1]) && |trace[u].writeCh| < 1000
  {
    CallExplained(trace, n, p);
    t := FoundAt(trace, n, p, Open);
    u := FoundAt(trace, n, p, Room);
  }

  /** And a removal or a read did its bolt operation if it found the store open when
      it read the flag, and passed it by if it found it closed. */
  lemma WorkedUnlessClosed(trace: seq<State>, n: nat, p: nat) returns (t: nat)
    requires IsRun(trace) && n < |trace| && p in trace[n].pcs
    requires trace[n].pcs[p].RemoveDone? || trace[n].pcs[p].ReadDone?
    ensures t < n && t + 1 < |trace| && ReadsFlag(trace[t], p, trace[t + 1])
    ensures trace[t].closed <==> p !in trace[n].worked
  {
    CallExplained(trace, n, p);
    t := FoundAt(trace, n, p, if p in trace[n].worked then Open else Closed);
  }

  // ---- No deadlock ----------------------------------------------------------------------

  predicate IsOver(pc: Pc) {
    pc.AsyncDone? || pc.RemoveDone? || pc.ReadDone? || pc.DbClosed? || pc.CloseNoop?
  }

  /** A call that holds the lock never waits. */
  lemma HolderMoves(v: View, pc: Pc)
    requires HoldsRead(pc) || HoldsWrite(pc)
    ensures React(v, pc).Some?
  {
  }

  predicate CanAct(s: State, p: nat) {
    Apply(s, Act(p)).Some?
  }

  /** A call waits only for a lock somebody has, or for the write loop. */
  lemma WaitsFor(s: State, p: nat)
    requires p in s.pcs && !IsOver(s.pcs[p]) && !CanAct(s, p)
    ensures s.writer.Some? || s.readers != {} || (s.pcs[p].ChannelClosed? && !s.loop.Gone?)
  {
  }

  lemma LocksOf(s: State)
    requires InvOf()(s)
    ensures Locks(s) && (forall p :: p in s.pcs && s.pcs[p].ChannelClosed? ==> s.chanClosed)
  {
  }

  lemma SomebodyMoves(s: State, p: nat) returns (step: Step)
    requires InvOf()(s) && p in s.pcs && !IsOver(s.pcs[p])
    ensures !step.New? && Apply(s, step).Some?
  {
    LocksOf(s);
    if CanAct(s, p) {
      step := Act(p);
    } else {
      WaitsFor(s, p);
      if s.writer.Some? {
        HolderMoves(ViewOf(s), s.pcs[s.writer.value]);
        step := Act(s.writer.value);
      } else if s.readers != {} {
        var q :| q in s.readers;
        HolderMoves(ViewOf(s), s.pcs[q]);
        step := Act(q);
      } else {
        step := Loop;
      }
    }
  }

  /** In every reachable state in which some call is under way, or a request waits or
      is being worked on, somebody can move. */
  lemma NeverDeadlocked(k: nat, s: State) returns (step: Step)
    requires Reaches(Init(), NextOf(), k, s)
    requires (exists p :: p in s.pcs && !IsOver(s.pcs[p])) || s.writeCh != [] || !(s.loop.Idle? || s.loop.Gone?)
    ensures !step.New? && Apply(s, step).Some?
  {
    ReachableInv(k, s);
    if p :| p in s.pcs && !IsOver(s.pcs[p]) {
      step := SomebodyMoves(s, p);
    } else {
      step := Loop;
      LocksOf(s);
      LoopMoves(s);
    }
  }

  lemma LoopMoves(s: State)
    requires InvOf()(s) && (forall p :: p in s.pcs ==> IsOver(s.pcs[p]))
    requires s.writeCh != [] || !(s.loop.Idle? || s.loop.Gone?)
    ensures ActLoop(s).Some?
  {
    LocksOf(s);
    assert s.writer.None?;
  }
}
