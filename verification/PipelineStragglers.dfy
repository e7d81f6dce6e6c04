/** Exactly when a shutdown strands an event: `Enqueue` reports success, and the
    event stays in the channel after the drain has found it empty, where no flush
    of this process will see it. */
module PipelineStragglers {
  import opened Events
  import opened Machines
  import opened Pipeline
  import opened PipelineShutdown
  import Depth = PipelineDepth

  // ---- Runs of one process -------------------------------------------------------

  ghost predicate Steady(c: Config, s: State, s': State) {
    exists step: Step :: !step.Crash? && Apply(c, s, step) == Some(s')
  }

  ghost function SteadyOf(c: Config): (State, State) -> bool {
    (s, s') => Steady(c, s, s')
  }

  /** A crash-free run leads from s to s'. */
  ghost predicate Leads(c: Config, s: State, s': State) {
    exists k :: Reaches(s, SteadyOf(c), k, s')
  }

  /** Such a run exists, and the invariants hold at its end. */
  ghost function LedOf(c: Config, s: State): State -> bool {
    s' => Leads(c, s, s') && FullInv(c, s')
  }

  ghost predicate FullInv(c: Config, s: State) {
    PipelineShutdown.Inv(s) && Depth.Inv(c, s)
  }

  lemma Here(c: Config, s: State)
    requires FullOf(c)(s)
    ensures LedOf(c, s)(s)
  {
    assert Reaches(s, SteadyOf(c), 0, s);
  }

  lemma LedFull(c: Config, s: State, s': State)
    requires LedOf(c, s)(s')
    ensures FullOf(c)(s')
  {
  }

  lemma KeepsFull(c: Config, s: State, step: Step, s': State)
    requires FullOf(c)(s) && Apply(c, s, step) == Some(s')
    ensures FullOf(c)(s')
  {
    assert Next(c, s, s');
    NextKeeps(c, s, s');
  }

  /** One more step. */
  lemma Do(c: Config, s: State, m: State, step: Step)
    requires LedOf(c, s)(m) && !step.Crash? && Apply(c, m, step).Some?
    ensures LedOf(c, s)(Apply(c, m, step).value)
  {
    var s' := Apply(c, m, step).value;
    LedFull(c, s, m);
    KeepsFull(c, m, step, s');
    assert Steady(c, m, s');
    Continue(c, s, m, s');
  }

  lemma Continue(c: Config, s: State, m: State, s': State)
    requires LedOf(c, s)(m) && SteadyOf(c)(m, s') && FullOf(c)(s')
    ensures LedOf(c, s)(s')
  {
    var k :| Reaches(s, SteadyOf(c), k, m);
    Extend(s, SteadyOf(c), k, m, s');
  }

  // ---- Driving the lock holder -----------------------------------------------------

  /** Only call q moved. */
  predicate Only(s: State, q: nat, s': State) {
    && q in s.calls && q in s'.calls && s'.calls == s.calls[q := s'.calls[q]] && s'.calls[q].e == s.calls[q].e
    && s' == s.(calls := s'.calls, ch := s'.ch, lock := s'.lock, writeCh := s'.writeCh, depth := s'.depth,
                maxDepth := s'.maxDepth, enqueued := s'.enqueued,
                log := s.log.(sent := s'.log.sent, depths := s'.log.depths, handed := s'.log.handed, late := s'.log.late))
  }

  /** Call q has returned with success and given the lock back. */
  predicate Returned(s: State, q: nat, s': State) {
    Only(s, q, s') && s'.lock.Free? && s'.calls[q].pc.Accepted? && s'.writeCh == s.writeCh
  }

  predicate SameQueue(s: State, s': State) {
    s'.ch == s.ch && s'.log.late == s.log.late
  }

  lemma HolderFacts(c: Config, s: State, q: nat)
    requires FullOf(c)(s) && s.lock == ByCall(q)
    ensures q in s.calls && Depth.Critical(s.calls[q].pc)
    ensures s.calls[q].pc.Loaded? ==> s.calls[q].pc.m == s.maxDepth
  {
    FullParts(c, s);
    LocksHeld(c, s);
    Depth.LockFacts(c, s, q);
  }

  lemma FinishLoaded(c: Config, s0: State, s: State, q: nat) returns (s': State)
    requires LedOf(c, s0)(s) && s.lock == ByCall(q) && q in s.calls && s.calls[q].pc.Loaded?
    ensures LedOf(c, s0)(s') && Returned(s, q, s') && SameQueue(s, s')
  {
    LedFull(c, s0, s);
    HolderFacts(c, s, q);
    StoreMaxReturns(c, s, q);
    s' := ApplyCall(c, s, q, StoreMax).value;
    Do(c, s0, s, CallStep(q, StoreMax));
  }

  lemma StoreMaxReturns(c: Config, s: State, q: nat)
    requires s.lock == ByCall(q) && q in s.calls && s.calls[q].pc.Loaded? && s.calls[q].pc.m == s.maxDepth
    ensures var s' := ApplyCall(c, s, q, StoreMax);
      s'.Some? && Returned(s, q, s'.value) && SameQueue(s, s'.value)
  {
  }

  lemma FinishDeep(c: Config, s0: State, s: State, q: nat) returns (s': State)
    requires LedOf(c, s0)(s) && s.lock == ByCall(q) && q in s.calls && s.calls[q].pc.Deep?
    ensures LedOf(c, s0)(s') && Returned(s, q, s') && SameQueue(s, s')
  {
    Do(c, s0, s, CallStep(q, LoadMax));
    s' := FinishLoaded(c, s0, ApplyCall(c, s, q, LoadMax).value, q);
  }

  lemma FinishCounted(c: Config, s0: State, s: State, q: nat) returns (s': State)
    requires LedOf(c, s0)(s) && s.lock == ByCall(q) && q in s.calls && s.calls[q].pc.Counted?
    ensures LedOf(c, s0)(s') && Returned(s, q, s') && SameQueue(s, s')
  {
    Do(c, s0, s, CallStep(q, Deepen));
    s' := FinishDeep(c, s0, ApplyCall(c, s, q, Deepen).value, q);
  }

  lemma FinishSent(c: Config, s0: State, s: State, q: nat) returns (s': State)
    requires LedOf(c, s0)(s) && s.lock == ByCall(q) && q in s.calls && s.calls[q].pc.Sent?
    ensures LedOf(c, s0)(s') && Returned(s, q, s') && SameQueue(s, s')
  {
    Do(c, s0, s, CallStep(q, Count));
    s' := FinishCounted(c, s0, ApplyCall(c, s, q, Count).value, q);
  }

  /** The lock holder, past its send, returns with success. */
  lemma FinishHolder(c: Config, s0: State, s: State, q: nat) returns (s': State)
    requires LedOf(c, s0)(s) && s.lock == ByCall(q) && q in s.calls && !s.calls[q].pc.Locked?
    ensures LedOf(c, s0)(s') && Returned(s, q, s') && SameQueue(s, s')
  {
    LedFull(c, s0, s);
    HolderFacts(c, s, q);
    if s.calls[q].pc.Loaded? {
      s' := FinishLoaded(c, s0, s, q);
    } else if s.calls[q].pc.Deep? {
      s' := FinishDeep(c, s0, s, q);
    } else if s.calls[q].pc.Counted? {
      s' := FinishCounted(c, s0, s, q);
    } else {
      s' := FinishSent(c, s0, s, q);
    }
  }

  /** The lock holder, about to send, finds room, sends and returns. */
  lemma SendAndFinish(c: Config, s0: State, s: State, q: nat) returns (s': State)
    requires LedOf(c, s0)(s) && s.lock == ByCall(q) && q in s.calls && s.calls[q].pc.Locked?
    requires |s.ch| < c.maxSize
    ensures LedOf(c, s0)(s') && Returned(s, q, s')
    ensures s'.ch == s.ch + [s.calls[q].e] && s'.log.late == s.log.late + [q]
  {
    Do(c, s0, s, CallStep(q, Send));
    s' := FinishSent(c, s0, ApplyCall(c, s, q, Send).value, q);
  }

  predicate HasReturned(pc: CallPc) {
    pc.Accepted? || pc.Refused?
  }

  /** Whatever the lock holder is doing, it can be brought to give the lock back. */
  lemma FreeLock(c: Config, s0: State, s: State, q: nat) returns (s': State)
    requires LedOf(c, s0)(s) && s.lock == ByCall(q) && q in s.calls
    ensures LedOf(c, s0)(s') && Only(s, q, s') && s'.lock.Free? && HasReturned(s'.calls[q].pc)
  {
    if !s.calls[q].pc.Locked? {
      s' := FinishHolder(c, s0, s, q);
    } else if |s.ch| < c.maxSize {
      s' := SendAndFinish(c, s0, s, q);
    } else {
      Do(c, s0, s, CallStep(q, Send));
      s' := ApplyCall(c, s, q, Send).value;
    }
  }

  // ---- A call on its way to the lock -------------------------------------------------

  /** With the lock free and nothing being counted, the depth does not exceed the
      channel. */
  lemma DepthBelowChannel(c: Config, s: State)
    requires FullOf(c)(s) && s.lock.Free? && Depth.Taking(s) == 0
    ensures s.depth <= |s.ch|
  {
    FullParts(c, s);
    Depth.DepthFacts(c, s);
  }

  predicate GotLock(s: State, p: nat, s': State) {
    Only(s, p, s') && SameQueue(s, s') && s'.lock == ByCall(p) && s'.calls[p].pc.Locked?
  }

  lemma TakesLock(c: Config, s0: State, s: State, p: nat) returns (s': State)
    requires LedOf(c, s0)(s) && s.lock.Free? && p in s.calls && s.calls[p].pc.WantLock?
    ensures LedOf(c, s0)(s') && GotLock(s, p, s') && s'.writeCh == s.writeCh
  {
    Do(c, s0, s, CallStep(p, Lock));
    s' := ApplyCall(c, s, p, Lock).value;
  }

  lemma Persists(c: Config, s0: State, s: State, p: nat) returns (s': State)
    requires LedOf(c, s0)(s) && s.lock.Free? && p in s.calls && s.calls[p].pc.SawRoom?
    ensures LedOf(c, s0)(s') && GotLock(s, p, s')
  {
    Do(c, s0, s, CallStep(p, Persist));
    s' := TakesLock(c, s0, ApplyCall(c, s, p, Persist).value, p);
  }

  lemma Approaches(c: Config, s0: State, s: State, p: nat) returns (s': State)
    requires LedOf(c, s0)(s) && s.lock.Free? && p in s.calls && BeforeLock(s.calls[p].pc)
    requires Depth.Taking(s) == 0 && |s.ch| < c.maxSize
    ensures LedOf(c, s0)(s') && GotLock(s, p, s')
  {
    if s.calls[p].pc.SawRunning? {
      LedFull(c, s0, s);
      DepthBelowChannel(c, s);
      Do(c, s0, s, CallStep(p, ReadDepth));
      s' := Persists(c, s0, ApplyCall(c, s, p, ReadDepth).value, p);
    } else if s.calls[p].pc.SawRoom? {
      s' := Persists(c, s0, s, p);
    } else {
      s' := TakesLock(c, s0, s, p);
    }
  }

  // ---- Stranding an event after the drain ----------------------------------------------

  /** Call q has succeeded, and its event is at the end of the channel of a loop
      that will not receive again. */
  predicate LeftBehind(s: State, q: nat) {
    && Drained(s.loop) && q in s.calls && s.calls[q].pc.Accepted?
    && |s.log.late| > 0 && s.log.late[|s.log.late| - 1] == q
    && |s.ch| > 0 && s.ch[|s.ch| - 1] == s.calls[q].e
  }

  lemma DrainedFacts(c: Config, s: State)
    requires FullOf(c)(s) && Drained(s.loop)
    ensures IsSignalled(s) && !s.lock.ByShutdown?
    ensures s.lock.ByCall? ==> s.lock.p in s.calls
    ensures forall p :: p in s.calls && s.calls[p].pc.Locked? ==> s.lock == ByCall(p)
  {
    FullParts(c, s);
    LocksHeld(c, s);
  }

  lemma LockThenSend(c: Config, s0: State, s: State, p: nat) returns (s': State)
    requires LedOf(c, s0)(s) && s.lock.Free? && p in s.calls && BeforeLock(s.calls[p].pc)
    requires Drained(s.loop) && |s.ch| < c.maxSize
    ensures LedOf(c, s0)(s') && LeftBehind(s', p)
    ensures Only(s, p, s') && s'.ch == s.ch + [s.calls[p].e]
  {
    var m := Approaches(c, s0, s, p);
    s' := SendAndFinish(c, s0, m, p);
  }

  /** A call that has not sent when the drain is over, and room in the channel:
      some event will be left behind. */
  lemma Strands(c: Config, s0: State, s: State, p: nat) returns (s': State, q: nat)
    requires LedOf(c, s0)(s) && Drained(s.loop) && |s.ch| < c.maxSize
    requires p in s.calls && BeforeSend(s.calls[p].pc)
    ensures LedOf(c, s0)(s') && LeftBehind(s', q)
  {
    LedFull(c, s0, s);
    DrainedFacts(c, s);
    if s.lock.Free? {
      q := p;
      s' := LockThenSend(c, s0, s, p);
    } else if s.calls[s.lock.p].pc.Locked? {
      q := s.lock.p;
      s' := SendAndFinish(c, s0, s, q);
    } else {
      var m := FinishHolder(c, s0, s, s.lock.p);
      q := p;
      s' := LockThenSend(c, s0, m, p);
    }
  }

  // ---- From the flag to the end of the drain -------------------------------------------

  /** What the calls look like does not change while the loop and Shutdown move. */
  predicate SameCalls(s: State, s': State) {
    s'.calls == s.calls && s'.lock == s.lock && s'.down == s.down
  }

  function Phase(loop: LoopPc): nat {
    match loop
    case Took => 7
    case Select => 1
    case Flushing(_, f) =>
      (match f
       case Entering => 6
       case Trying(_, _, _, _, itemised) => if itemised then 4 else 5
       case Removing(_, _) => 3
       case Tallying(_) => 2)
    case _ => 0
  }

  function Stage(loop: LoopPc): nat {
    if Drained(loop) then 0 else if Leaving(loop) then 1 else 2
  }

  function Major(s: State): nat {
    if Stage(s.loop) == 2 then Phase(s.loop) else |s.ch|
  }

  function Minor(s: State): nat {
    if s.loop.Flushing? && s.loop.f.Trying? then |s.loop.f.left| else if s.loop.DrainTook? then 1 else 0
  }

  ghost predicate Sooner(s': State, s: State) {
    || Stage(s'.loop) < Stage(s.loop)
    || (Stage(s'.loop) == Stage(s.loop) &&
        (Major(s') < Major(s) || (Major(s') == Major(s) && Minor(s') < Minor(s))))
  }

  /** Outside a flush: the signal is seen, the channel drained. */
  lemma SelectGoesOn(c: Config, s: State) returns (l: LoopStep)
    requires IsSignalled(s) && !s.loop.Off? && !Drained(s.loop) && !s.loop.Flushing?
    ensures var s' := ApplySelect(c, s, l);
      && s'.Some? && Sooner(s'.value, s) && SameCalls(s, s'.value) && !s'.value.loop.Off?
      && (Drained(s'.value.loop) ==> s'.value.ch == [])
  {
    match s.loop
    case Select => l := SeeSignal;
    case Took => l := Uncount;
    case DrainTook => l := Uncount;
    case Draining => l := if s.ch == [] then FindEmpty else Take;
  }

  lemma SmallerLeft(left: multiset<Event>, e: Event)
    requires e in left
    ensures |left - multiset{e}| < |left|
  {
    assert left == (left - multiset{e}) + multiset{e};
  }

  lemma SomeEvent<T>(left: multiset<T>) returns (e: T)
    requires left != multiset{}
    ensures e in left
  {
    e :| e in left;
  }

  /** In a flush: the batch goes in, or the items one by one, and the flush ends. */
  function FlushChoice(f: FlushPc, e: Event): LoopStep {
    match f
    case Entering => ReadLength
    case Trying(_, _, _, left, itemised) =>
      if !itemised then InsertBatch else if left == multiset{} then Measure else InsertItem(e)
    case Removing(_, _) => Remove({})
    case Tallying(_) => Tally
  }

  lemma FlushLowers(c: Config, s: State, e: Event)
    requires s.loop.Flushing? && !Drained(s.loop)
    requires s.loop.f.Trying? && s.loop.f.left != multiset{} ==> e in s.loop.f.left
    ensures var s' := ApplyFlush(c, s, FlushChoice(s.loop.f, e));
      s'.Some? && (Phase(s'.value.loop) < Phase(s.loop) || (Phase(s'.value.loop) == Phase(s.loop) && Minor(s'.value) < Minor(s)))
  {
    if s.loop.f.Trying? && s.loop.f.itemised && s.loop.f.left != multiset{} {
      SmallerLeft(s.loop.f.left, e);
    }
  }

  lemma FlushGoesOn(c: Config, s: State) returns (l: LoopStep)
    requires s.loop.Flushing? && !Drained(s.loop)
    ensures var s' := ApplyFlush(c, s, l);
      && s'.Some? && Sooner(s'.value, s) && SameCalls(s, s'.value) && !s'.value.loop.Off?
      && !Drained(s'.value.loop)
  {
    var e: Event := Event(0, 0, "", "");
    if s.loop.f.Trying? && s.loop.f.left != multiset{} {
      e := SomeEvent(s.loop.f.left);
    }
    l := FlushChoice(s.loop.f, e);
    FlushLowers(c, s, e);
    FlushLeaves(c, s, l, ApplyFlush(c, s, l).value);
  }

  lemma LoopGoesOn(c: Config, s: State) returns (l: LoopStep)
    requires IsSignalled(s) && !s.loop.Off? && !Drained(s.loop)
    ensures var s' := ApplyLoop(c, s, l);
      && s'.Some? && Sooner(s'.value, s) && SameCalls(s, s'.value) && !s'.value.loop.Off?
      && (Drained(s'.value.loop) ==> s'.value.ch == [])
  {
    if s.loop.Flushing? {
      l := FlushGoesOn(c, s);
    } else {
      l := SelectGoesOn(c, s);
    }
  }

  /** Once the signal is out, the loop can drain the channel with no call
      moving. */
  lemma Drains(c: Config, s0: State, s: State) returns (s': State)
    requires LedOf(c, s0)(s) && IsSignalled(s) && !s.loop.Off? && !Drained(s.loop)
    ensures LedOf(c, s0)(s') && SameCalls(s, s') && Drained(s'.loop) && s'.ch == []
    decreases Stage(s.loop), Major(s), Minor(s)
  {
    var l := LoopGoesOn(c, s);
    Do(c, s0, s, LoopStep(l));
    s' := ApplyLoop(c, s, l).value;
    if !Drained(s'.loop) {
      s' := Drains(c, s0, s');
    }
  }

  /** Shutdown can signal while the call waits. */
  lemma Signals(c: Config, s0: State, s: State, p: nat) returns (s': State)
    requires LedOf(c, s0)(s) && s.stopped && !s.loop.Off? && !Drained(s.loop) && Threat(s, p)
    ensures LedOf(c, s0)(s') && IsSignalled(s') && !s'.loop.Off? && !Drained(s'.loop) && Threat(s', p)
  {
    s' := s;
    LedFull(c, s0, s);
    StopFacts(c, s, p);
    if s.down.StopSet? {
      if s.lock.ByCall? {
        s' := FreeLock(c, s0, s, s.lock.p);
      }
      s' := LocksAndSignals(c, s0, s', p);
    } else if s.down.DownLocked? {
      Do(c, s0, s, DownStep(Signal));
      s' := ApplyDown(s, Signal).value;
    }
  }

  /** A call that can still send after the drain has found the channel empty. */
  ghost predicate Threat(s: State, p: nat) {
    p in s.calls && BeforeSend(s.calls[p].pc) && !WillBeDrained(s, p)
  }

  lemma StopFacts(c: Config, s: State, p: nat)
    requires FullOf(c)(s) && s.stopped && Threat(s, p)
    ensures !s.down.NotDown?
    ensures s.down.StopSet? ==> BeforeLock(s.calls[p].pc) && s.lock != ByCall(p) && !s.lock.ByShutdown?
    ensures s.lock.ByCall? ==> s.lock.p in s.calls
  {
    FullParts(c, s);
    LocksHeld(c, s);
  }

  lemma LocksAndSignals(c: Config, s0: State, s: State, p: nat) returns (s': State)
    requires LedOf(c, s0)(s) && s.down.StopSet? && s.lock.Free?
    requires p in s.calls && BeforeLock(s.calls[p].pc)
    ensures LedOf(c, s0)(s') && IsSignalled(s') && s'.loop == s.loop && s'.calls == s.calls
  {
    Do(c, s0, s, DownStep(TakeLock));
    var m := ApplyDown(s, TakeLock).value;
    Do(c, s0, m, DownStep(Signal));
    s' := ApplyDown(m, Signal).value;
  }

  /** So a call that is a threat at any moment after the flag was set can be
      left behind. */
  lemma ThreatStrands(c: Config, s0: State, s: State, p: nat) returns (s': State, q: nat)
    requires ValidConfig(c) && LedOf(c, s0)(s) && s.stopped && !s.loop.Off? && !Drained(s.loop) && Threat(s, p)
    ensures LedOf(c, s0)(s') && LeftBehind(s', q)
  {
    var m := Signals(c, s0, s, p);
    var d := Drains(c, s0, m);
    s', q := Strands(c, s0, d, p);
  }

  // ---- When nothing can be stranded ------------------------------------------------------

  /** An accepted event is in the channel of a loop that will not receive again. */
  ghost predicate LeftInChannel(s: State) {
    Drained(s.loop) && exists i :: 0 <= i < |s.log.late| && IsAccepted(s, s.log.late[i])
  }

  /** No loop will ever see an accepted event: the drain is over, or `Start` has
      failed and no loop was spawned. */
  ghost predicate Stranded(s: State) {
    LeftInChannel(s) || (s.start.StartFailed? && exists p :: IsAccepted(s, p))
  }

  /** `Start` has failed, or may still fail. */
  predicate MayFail(c: Config, s: State) {
    s.start.StartFailed? || (c.persistent && (s.start.NotStarted? || s.start.Recovering?))
  }

  predicate IsAccepted(s: State, p: nat) {
    p in s.calls && s.calls[p].pc.Accepted?
  }

  /** Nobody can send late, and nobody has. */
  ghost predicate Calm(s: State) {
    && s.stopped
    && (forall p :: !Threat(s, p))
    && (Drained(s.loop) ==> s.ch == [] && s.log.late == [])
  }

  ghost function CalmOf(c: Config): State -> bool {
    s => Calm(s) && !MayFail(c, s) && FullInv(c, s)
  }

  lemma CalmParts(c: Config, s: State)
    requires CalmOf(c)(s)
    ensures Calm(s) && !MayFail(c, s) && FullOf(c)(s) && Depth.Locks(s) && Fenced(s) && Depth.LoopAfterStart(s)
  {
  }

  lemma CallKeepsCalm(c: Config, s: State, p: nat, a: CallStep, s': State)
    requires Calm(s) && Depth.Locks(s) && Fenced(s) && ApplyCall(c, s, p, a) == Some(s')
    ensures Calm(s')
  {
    if s'.ch == s.ch {
      CallLeaves(c, s, p, a, s');
      CallMoves(c, s, p, a, s');
      assert BeforeLock(s.calls[p].pc) ==> Threat(s, p);
      forall q | Threat(s', q) ensures Threat(s, q) {
      }
    } else {
      CallSends(c, s, p, a, s');
      assert !Threat(s, p);
      forall q | Threat(s', q) ensures Threat(s, q) {
      }
    }
  }

  lemma SameKeepsCalm(s: State, s': State)
    requires Calm(s) && SameCalls(s, s') && s'.stopped == s.stopped
    requires s'.ch == s.ch && s'.log.late == s.log.late && (Drained(s'.loop) ==> Drained(s.loop))
    ensures Calm(s')
  {
    forall q | Threat(s', q) ensures Threat(s, q) {
    }
  }

  lemma NewCallKeepsCalm(s: State, p: nat, e: PendingEvent, s': State)
    requires Calm(s) && ApplyNewCall(s, p, e) == Some(s')
    ensures Calm(s')
  {
    forall q | Threat(s', q) ensures Threat(s, q) {
    }
  }

  lemma SelectKeepsCalm(c: Config, s: State, l: LoopStep, s': State)
    requires Calm(s) && !s.loop.Flushing? && ApplySelect(c, s, l) == Some(s')
    ensures Calm(s')
  {
    SelectLeaves(c, s, l, s');
    forall q | Threat(s', q) ensures Threat(s, q) {
    }
  }

  lemma DownKeepsCalm(s: State, d: DownStep, s': State)
    requires Calm(s) && Depth.Locks(s) && Fenced(s) && ApplyDown(s, d) == Some(s')
    ensures Calm(s')
  {
    DownLeaves(s, d, s');
    forall q | Threat(s', q) ensures Threat(s, q) {
    }
  }

  lemma StartKeepsCalm(c: Config, s: State, st: StartStep, s': State)
    requires Calm(s) && Depth.LoopAfterStart(s) && ApplyStart(c, s, st) == Some(s')
    ensures Calm(s')
  {
    StartLeaves(c, s, st, s');
    assert !Drained(s'.loop);
    forall q | Threat(s', q) ensures Threat(s, q) {
    }
  }

  /** A `Start` that cannot fail goes on not being able to. */
  lemma StepKeepsGoing(c: Config, s: State, step: Step, s': State)
    requires !MayFail(c, s) && !step.Crash? && Apply(c, s, step) == Some(s')
    ensures !MayFail(c, s')
  {
    match step
    case NewCall(p, e) =>
    case CallStep(p, a) => assert s'.start == s.start;
    case StartStep(st) =>
    case LoopStep(l) =>
      if s.loop.Flushing? { FlushLeaves(c, s, l, s'); } else { SelectLeaves(c, s, l, s'); }
    case WriterStep(w) => WriterLeaves(s, w, s');
    case DownStep(d) => DownLeaves(s, d, s');
  }

  lemma StepKeepsCalm(c: Config, s: State, step: Step, s': State)
    requires Calm(s) && Depth.Locks(s) && Fenced(s) && Depth.LoopAfterStart(s)
    requires !step.Crash? && Apply(c, s, step) == Some(s')
    ensures Calm(s')
  {
    match step
    case NewCall(p, e) => NewCallKeepsCalm(s, p, e, s');
    case CallStep(p, a) => CallKeepsCalm(c, s, p, a, s');
    case StartStep(st) => StartKeepsCalm(c, s, st, s');
    case LoopStep(l) =>
      if s.loop.Flushing? {
        FlushLeaves(c, s, l, s');
        SameKeepsCalm(s, s');
      } else {
        SelectKeepsCalm(c, s, l, s');
      }
    case WriterStep(w) =>
      WriterLeaves(s, w, s');
      SameKeepsCalm(s, s');
    case DownStep(d) => DownKeepsCalm(s, d, s');
  }

  lemma NextKeepsCalm(c: Config, s: State, s': State)
    requires CalmOf(c)(s) && SteadyOf(c)(s, s')
    ensures CalmOf(c)(s')
  {
    CalmParts(c, s);
    var step: Step :| !step.Crash? && Apply(c, s, step) == Some(s');
    StepKeepsCalm(c, s, step, s');
    StepKeepsGoing(c, s, step, s');
    KeepsFull(c, s, step, s');
  }

  lemma CalmForever(c: Config, s: State, s': State)
    requires CalmOf(c)(s) && Leads(c, s, s')
    ensures CalmOf(c)(s')
  {
    forall p, q | CalmOf(c)(p) && SteadyOf(c)(p, q) ensures CalmOf(c)(q) {
      NextKeepsCalm(c, p, q);
    }
    var k :| Reaches(s, SteadyOf(c), k, s');
    Invariance(s, SteadyOf(c), CalmOf(c), k, s');
  }

  lemma CalmStrandsNothing(c: Config, s: State)
    requires CalmOf(c)(s)
    ensures !Stranded(s) && (Drained(s.loop) ==> s.ch == [])
  {
  }

  ghost predicate Reached(c: Config, s: State) {
    exists k :: Reaches(Init(), NextOf(c), k, s)
  }

  ghost function ReachedOf(c: Config): State -> bool {
    s => Reached(c, s)
  }

  lemma SteadyIsNext(c: Config, s: State, s': State)
    requires SteadyOf(c)(s, s')
    ensures NextOf(c)(s, s')
  {
  }

  /** A crash-free run is a run. */
  lemma SteadyReaches(c: Config, s: State, k: nat, s': State)
    requires Reaches(s, SteadyOf(c), k, s')
    ensures Reaches(s, NextOf(c), k, s')
  {
    forall p, q | SteadyOf(c)(p, q) ensures NextOf(c)(p, q) {
      SteadyIsNext(c, p, q);
    }
    Widen(s, SteadyOf(c), NextOf(c), k, s');
  }
}
