/** Exactly when an accepted event is lost to the process: at any moment after
    Shutdown has set the flag, and at the moment it sets it, for a queue in any
    stage of starting. */
module PipelineStranding {
  import opened Events
  import opened Machines
  import opened Pipeline
  import opened PipelineShutdown
  import opened PipelineStragglers
  import Depth = PipelineDepth

  // ---- Before the loop exists ------------------------------------------------------

  /** `Start` has sent nothing. */
  predicate Early(s: State) {
    s.start.NotStarted? || s.start.Recovering? || s.start.StartFailed?
  }

  /** Then whatever is in the channel was sent by a call. */
  ghost predicate Sourced(s: State) {
    Early(s) && s.ch != [] ==> exists p :: HasSent(s, p)
  }

  predicate HasSent(s: State, p: nat) {
    p in s.calls && AfterSend(s.calls[p].pc)
  }

  /** The loop exists once `Start` is done. */
  predicate Spawned(s: State) {
    s.start.Running? <==> !s.loop.Off?
  }

  ghost function SourcedOf(): State -> bool {
    s => Sourced(s) && Spawned(s)
  }

  lemma CallKeepsSourced(c: Config, s: State, p: nat, a: CallStep, s': State)
    requires Sourced(s) && ApplyCall(c, s, p, a) == Some(s')
    ensures Sourced(s')
  {
    if s'.ch == s.ch {
      CallLeaves(c, s, p, a, s');
      CallMoves(c, s, p, a, s');
      if Early(s) && s.ch != [] {
        var q :| HasSent(s, q);
        assert HasSent(s', q);
      }
    } else {
      CallSends(c, s, p, a, s');
      assert HasSent(s', p);
    }
  }

  lemma SameKeepsSourced(s: State, s': State)
    requires Sourced(s) && s'.ch == s.ch && (Early(s') ==> Early(s))
    requires forall p :: p in s.calls ==> p in s'.calls && s'.calls[p] == s.calls[p]
    ensures Sourced(s')
  {
    if Early(s') && s.ch != [] {
      var q :| HasSent(s, q);
      assert HasSent(s', q);
    }
  }

  lemma StepKeepsSourced(c: Config, s: State, step: Step, s': State)
    requires Sourced(s) && Spawned(s) && Apply(c, s, step) == Some(s')
    ensures Sourced(s')
  {
    match step
    case NewCall(p, e) => SameKeepsSourced(s, s');
    case CallStep(p, a) => CallKeepsSourced(c, s, p, a, s');
    case StartStep(st) =>
      StartLeaves(c, s, st, s');
      if Early(s') {
        SameKeepsSourced(s, s');
      }
    case LoopStep(l) =>
      if s.loop.Flushing? { FlushLeaves(c, s, l, s'); } else { SelectLeaves(c, s, l, s'); }
      assert s.start.Running?;
    case WriterStep(w) =>
      WriterLeaves(s, w, s');
      SameKeepsSourced(s, s');
    case DownStep(d) =>
      DownLeaves(s, d, s');
      SameKeepsSourced(s, s');
    case Crash =>
  }

  lemma StepKeepsSpawned(c: Config, s: State, step: Step, s': State)
    requires Spawned(s) && Apply(c, s, step) == Some(s')
    ensures Spawned(s')
  {
    match step
    case NewCall(p, e) =>
    case CallStep(p, a) =>
      if s'.ch == s.ch { CallLeaves(c, s, p, a, s'); } else { CallSends(c, s, p, a, s'); }
    case StartStep(st) => StartLeaves(c, s, st, s');
    case LoopStep(l) =>
      if s.loop.Flushing? { FlushLeaves(c, s, l, s'); } else { SelectLeaves(c, s, l, s'); }
    case WriterStep(w) => WriterLeaves(s, w, s');
    case DownStep(d) => DownLeaves(s, d, s');
    case Crash =>
  }

  lemma ReachableSourced(c: Config, k: nat, s: State)
    requires Reaches(Init(), NextOf(c), k, s)
    ensures SourcedOf()(s)
  {
    forall p, q | SourcedOf()(p) && NextOf(c)(p, q) ensures SourcedOf()(q) {
      var step :| Apply(c, p, step) == Some(q);
      StepKeepsSourced(c, p, step, q);
      StepKeepsSpawned(c, p, step, q);
    }
    Invariance(Init(), NextOf(c), SourcedOf(), k, s);
  }

  // ---- When `Start` can fail -----------------------------------------------------------

  lemma EarlyFacts(c: Config, s: State)
    requires FullOf(c)(s) && Early(s)
    ensures s.loop.Off? && Depth.Taking(s) == 0
    ensures s.lock.ByCall? ==> s.lock.p in s.calls && Depth.Critical(s.calls[s.lock.p].pc)
    ensures forall p :: p in s.calls && Depth.Critical(s.calls[p].pc) ==> s.lock == ByCall(p)
    ensures s.lock.ByShutdown? ==> s.down.DownLocked?
  {
    FullParts(c, s);
    LocksHeld(c, s);
  }

  /** With the lock free or held by a call: a call that is not refused leads to an
      accepted one. */
  lemma SomeoneAccepted(c: Config, s0: State, s: State, p: nat) returns (s': State, q: nat)
    requires ValidConfig(c) && LedOf(c, s0)(s) && Early(s) && Sourced(s) && !s.lock.ByShutdown?
    requires p in s.calls && !s.calls[p].pc.Refused?
    ensures LedOf(c, s0)(s') && s'.start == s.start && IsAccepted(s', q)
  {
    LedFull(c, s0, s);
    EarlyFacts(c, s);
    if r :| HasSent(s, r) {
      q := r;
      s' := s;
      if !s.calls[r].pc.Accepted? {
        s' := FinishHolder(c, s0, s, r);
      }
    } else {
      assert s.ch == [] && BeforeSend(s.calls[p].pc) by { assert HasSent(s, p) <==> AfterSend(s.calls[p].pc); }
      if s.lock.ByCall? {
        q := s.lock.p;
        assert !HasSent(s, q);
        s' := SendAndFinish(c, s0, s, q);
      } else {
        q := p;
        var m := Approaches(c, s0, s, p);
        s' := SendAndFinish(c, s0, m, p);
      }
    }
  }

  lemma SignalFirst(c: Config, s0: State, s: State) returns (s': State)
    requires LedOf(c, s0)(s) && Early(s)
    ensures LedOf(c, s0)(s') && !s'.lock.ByShutdown? && s'.start == s.start && s'.calls == s.calls && s'.ch == s.ch
  {
    s' := s;
    LedFull(c, s0, s);
    EarlyFacts(c, s);
    if s.lock.ByShutdown? {
      Do(c, s0, s, DownStep(Signal));
      s' := ApplyDown(s, Signal).value;
    }
  }

  lemma FailsToStart(c: Config, s0: State, s: State) returns (s': State)
    requires LedOf(c, s0)(s) && MayFail(c, s)
    ensures LedOf(c, s0)(s') && s'.start.StartFailed? && s'.calls == s.calls
  {
    s' := s;
    if s'.start.NotStarted? {
      Do(c, s0, s', StartStep(Begin));
      s' := ApplyStart(c, s', Begin).value;
    }
    if s'.start.Recovering? {
      Do(c, s0, s', StartStep(RecoverFails));
      s' := ApplyStart(c, s', RecoverFails).value;
    }
  }

  /** So an event is stranded unless every call was refused. */
  lemma FailureStrands(c: Config, s: State, p: nat) returns (s': State)
    requires ValidConfig(c) && FullOf(c)(s) && MayFail(c, s) && Sourced(s)
    requires p in s.calls && !s.calls[p].pc.Refused?
    ensures LedOf(c, s)(s') && Stranded(s')
  {
    Here(c, s);
    var s1 := SignalFirst(c, s, s);
    assert Sourced(s1) by { SameKeepsSourced(s, s1); }
    var s2, q := SomeoneAccepted(c, s, s1, p);
    s' := FailsToStart(c, s, s2);
    assert IsAccepted(s', q);
  }

  ghost predicate AllRefused(s: State) {
    forall p :: p in s.calls ==> s.calls[p].pc.Refused?
  }

  ghost function RefusingOf(): State -> bool {
    s => AllRefused(s) && s.stopped
  }

  /** Nobody is accepted any more. */
  lemma StepKeepsRefusing(c: Config, s: State, step: Step, s': State)
    requires AllRefused(s) && s.stopped && !step.Crash? && Apply(c, s, step) == Some(s')
    ensures AllRefused(s') && s'.stopped
  {
    match step
    case NewCall(p, e) =>
    case CallStep(p, a) =>
    case StartStep(st) => StartLeaves(c, s, st, s');
    case LoopStep(l) =>
      if s.loop.Flushing? { FlushLeaves(c, s, l, s'); } else { SelectLeaves(c, s, l, s'); }
    case WriterStep(w) => WriterLeaves(s, w, s');
    case DownStep(d) => DownLeaves(s, d, s');
  }

  lemma RefusingForever(c: Config, s: State, s': State)
    requires AllRefused(s) && s.stopped && Leads(c, s, s')
    ensures !Stranded(s')
  {
    forall p, q | RefusingOf()(p) && SteadyOf(c)(p, q) ensures RefusingOf()(q) {
      var step: Step :| !step.Crash? && Apply(c, p, step) == Some(q);
      StepKeepsRefusing(c, p, step, q);
    }
    var k :| Reaches(s, SteadyOf(c), k, s');
    Invariance(s, SteadyOf(c), RefusingOf(), k, s');
    assert AllRefused(s');
  }

  // ---- When it cannot -------------------------------------------------------------------

  /** What `Start` does not touch. */
  predicate SameFlag(s: State, s': State) {
    SameCalls(s, s') && s'.stopped == s.stopped
  }

  lemma Feeds(c: Config, s0: State, s: State) returns (s': State)
    requires LedOf(c, s0)(s) && s.start.Feeding?
    ensures LedOf(c, s0)(s') && SameFlag(s, s') && s'.loop.Select?
    decreases |s.start.rest|
  {
    if s.start.rest == [] {
      Do(c, s0, s, StartStep(Spawn));
      s' := ApplyStart(c, s, Spawn).value;
    } else {
      var m := FeedsOne(c, s0, s);
      s' := Feeds(c, s0, m);
    }
  }

  lemma FeedShape(c: Config, s: State)
    requires s.start.Feeding? && s.start.rest != []
    ensures var m := ApplyStart(c, s, Feed);
      && m.Some? && SameFlag(s, m.value)
      && (m.value.start == Feeding(s.start.rest[1..]) || m.value.start == Fed(s.start.rest[1..]))
  {
  }

  lemma FeedsOne(c: Config, s0: State, s: State) returns (m: State)
    requires LedOf(c, s0)(s) && s.start.Feeding? && s.start.rest != []
    ensures LedOf(c, s0)(m) && SameFlag(s, m) && m.start == Feeding(s.start.rest[1..])
  {
    FeedShape(c, s);
    Do(c, s0, s, StartStep(Feed));
    m := ApplyStart(c, s, Feed).value;
    if m.start.Fed? {
      m := Counts(c, s0, m);
    }
  }

  lemma Counts(c: Config, s0: State, s: State) returns (s': State)
    requires LedOf(c, s0)(s) && s.start.Fed?
    ensures LedOf(c, s0)(s') && SameFlag(s, s') && s'.start == Feeding(s.start.rest)
  {
    Do(c, s0, s, StartStep(CountFed));
    s' := ApplyStart(c, s, CountFed).value;
  }

  /** A `Start` that cannot fail can be brought to spawn the loop. */
  lemma Spawns(c: Config, s0: State, s: State) returns (s': State)
    requires LedOf(c, s0)(s) && !MayFail(c, s) && !s.start.Running?
    ensures LedOf(c, s0)(s') && SameFlag(s, s') && s'.loop.Select?
  {
    var m := s;
    if m.start.NotStarted? {
      Do(c, s0, m, StartStep(Begin));
      m := ApplyStart(c, m, Begin).value;
    }
    if m.start.Recovering? {
      Do(c, s0, m, StartStep(Recover([])));
      m := ApplyStart(c, m, Recover([])).value;
    }
    if m.start.Fed? {
      m := Counts(c, s0, m);
    }
    s' := Feeds(c, s0, m);
  }

  // ---- Main results -------------------------------------------------------------------------

  /** No crash-free continuation leaves an accepted event behind. */
  ghost predicate NeverStrands(c: Config, s: State) {
    forall s' :: Leads(c, s, s') ==> !Stranded(s')
  }

  ghost function StrandsNothing(c: Config): State -> bool {
    s => NeverStrands(c, s)
  }

  lemma LeftBehindIsStranded(s: State, q: nat)
    requires LeftBehind(s, q)
    ensures Stranded(s) && s.ch != []
  {
    assert IsAccepted(s, s.log.late[|s.log.late| - 1]);
  }

  lemma LedLeads(c: Config, s: State, s': State)
    requires LedOf(c, s)(s')
    ensures Leads(c, s, s')
  {
  }

  /** A late event's call has succeeded or will. */
  lemma LateEndsStranded(c: Config, s: State) returns (s': State)
    requires FullOf(c)(s) && Drained(s.loop) && s.ch != []
    ensures LedOf(c, s)(s') && Stranded(s')
  {
    Here(c, s);
    LateFacts(c, s);
    FullParts(c, s);
    LocksHeld(c, s);
    var q := s.log.late[0];
    assert SentLate(s, q, s.ch[0]);
    s' := s;
    if !s.calls[q].pc.Accepted? {
      s' := FinishHolder(c, s, s, q);
    }
    assert IsAccepted(s', s'.log.late[0]);
  }

  /** The loop has been spawned. */
  lemma NotCalmStrands(c: Config, s: State) returns (s': State)
    requires ValidConfig(c) && FullOf(c)(s) && s.stopped && !s.loop.Off?
    requires (exists p :: Threat(s, p)) || (Drained(s.loop) && s.ch != [])
    ensures LedOf(c, s)(s') && Stranded(s')
  {
    Here(c, s);
    if Drained(s.loop) && s.ch != [] {
      s' := LateEndsStranded(c, s);
    } else {
      var p :| Threat(s, p);
      var q;
      if Drained(s.loop) {
        s', q := Strands(c, s, s, p);
      } else {
        s', q := ThreatStrands(c, s, s, p);
      }
      LeftBehindIsStranded(s', q);
    }
  }

  lemma CalmWhen(c: Config, s: State)
    requires FullOf(c)(s) && s.stopped && !MayFail(c, s)
    requires (forall p :: !Threat(s, p)) && (Drained(s.loop) ==> s.ch == [])
    ensures CalmOf(c)(s)
  {
    if Drained(s.loop) {
      LateFacts(c, s);
    }
  }

  /** The loop has yet to be spawned, and will be. */
  lemma UnspawnedStrands(c: Config, s: State, p: nat) returns (s': State)
    requires ValidConfig(c) && FullOf(c)(s) && s.stopped && s.loop.Off? && Spawned(s) && !MayFail(c, s) && Threat(s, p)
    ensures LedOf(c, s)(s') && Stranded(s')
  {
    Here(c, s);
    var m := Spawns(c, s, s);
    assert Threat(m, p);
    var q;
    s', q := ThreatStrands(c, s, m, p);
    LeftBehindIsStranded(s', q);
  }

  /** What it takes for nothing to be stranded: where `Start` has failed or may
      fail, that no call was or will be accepted; elsewhere, that every call that
      has yet to send holds the lock Shutdown is waiting for and, once the drain is
      over, that the channel is empty. */
  ghost predicate Harmless(c: Config, s: State) {
    if MayFail(c, s) then AllRefused(s)
    else (forall p :: !Threat(s, p)) && (Drained(s.loop) ==> s.ch == [])
  }

  lemma HarmfulStrands(c: Config, s: State) returns (s': State)
    requires ValidConfig(c) && FullOf(c)(s) && SourcedOf()(s) && s.stopped && !Harmless(c, s)
    ensures LedOf(c, s)(s') && Stranded(s')
  {
    if MayFail(c, s) {
      var p :| p in s.calls && !s.calls[p].pc.Refused?;
      s' := FailureStrands(c, s, p);
    } else if s.loop.Off? {
      var p :| Threat(s, p);
      s' := UnspawnedStrands(c, s, p);
    } else {
      s' := NotCalmStrands(c, s);
    }
  }

  lemma HarmlessNeverStrands(c: Config, s: State)
    requires FullOf(c)(s) && s.stopped && Harmless(c, s)
    ensures NeverStrands(c, s)
  {
    forall s' | Leads(c, s, s') ensures !Stranded(s') {
      if MayFail(c, s) {
        RefusingForever(c, s, s');
      } else {
        CalmWhen(c, s);
        CalmForever(c, s, s');
        CalmStrandsNothing(c, s');
      }
    }
  }

  /** At any moment after Shutdown has set the flag, whatever the stage of starting:
      no crash-free continuation strands an accepted event if and only if the state
      is harmless. */
  lemma StrandsNothingIff(c: Config, k: nat, s: State)
    requires ValidConfig(c) && Reaches(Init(), NextOf(c), k, s) && s.stopped
    ensures StrandsNothing(c)(s) <==> Harmless(c, s)
  {
    ReachableInv(c, k, s);
    ReachableSourced(c, k, s);
    if Harmless(c, s) {
      HarmlessNeverStrands(c, s);
    } else {
      var s' := HarmfulStrands(c, s);
      LedLeads(c, s, s');
    }
  }

  /** Once the drain has found the channel empty, the channel stays empty in every
      crash-free continuation if and only if no call is before its send. */
  lemma StaysEmptyIff(c: Config, k: nat, s: State)
    requires ValidConfig(c) && Reaches(Init(), NextOf(c), k, s) && Drained(s.loop) && s.ch == []
    ensures (forall s' :: Leads(c, s, s') ==> s'.ch == [])
       <==> (forall p :: p in s.calls ==> !BeforeSend(s.calls[p].pc))
  {
    ReachableInv(c, k, s);
    DrainedFacts(c, s);
    FullParts(c, s);
    if forall p :: p in s.calls ==> !BeforeSend(s.calls[p].pc) {
      CalmWhen(c, s);
      forall s' | Leads(c, s, s') ensures s'.ch == [] {
        DrainedForever(c, s, s');
        CalmForever(c, s, s');
        CalmStrandsNothing(c, s');
      }
    } else {
      var p :| p in s.calls && BeforeSend(s.calls[p].pc);
      Here(c, s);
      var s', q := Strands(c, s, s, p);
      LeftBehindIsStranded(s', q);
      LedLeads(c, s, s');
    }
  }

  ghost function DrainedOf(): State -> bool {
    (s: State) => Drained(s.loop) && s.start.Running?
  }

  lemma StepKeepsDrained(c: Config, s: State, step: Step, s': State)
    requires Drained(s.loop) && s.start.Running? && !step.Crash? && Apply(c, s, step) == Some(s')
    ensures Drained(s'.loop) && s'.start.Running?
  {
    match step
    case NewCall(p, e) =>
    case CallStep(p, a) => assert s'.loop == s.loop && s'.start == s.start;
    case StartStep(st) =>
    case LoopStep(l) =>
      if s.loop.Flushing? {
        FlushLeaves(c, s, l, s');
      }
    case WriterStep(w) => WriterLeaves(s, w, s');
    case DownStep(d) => DownLeaves(s, d, s');
  }

  lemma DrainedForever(c: Config, s: State, s': State)
    requires FullOf(c)(s) && Drained(s.loop) && Leads(c, s, s')
    ensures Drained(s'.loop)
  {
    forall p, q | DrainedOf()(p) && SteadyOf(c)(p, q) ensures DrainedOf()(q) {
      var step: Step :| !step.Crash? && Apply(c, p, step) == Some(q);
      StepKeepsDrained(c, p, step, q);
    }
    var k :| Reaches(s, SteadyOf(c), k, s');
    Invariance(s, SteadyOf(c), DrainedOf(), k, s');
  }

  // ---- At the moment of Shutdown --------------------------------------------------------

  /** The same, before the flag is set. */
  ghost predicate HarmlessToStop(c: Config, s: State) {
    if MayFail(c, s) then AllRefused(s) else forall p :: p in s.calls ==> !BeforeLock(s.calls[p].pc)
  }

  lemma StopHarmless(c: Config, k: nat, s: State)
    requires Reaches(Init(), NextOf(c), k, s) && s.down.NotDown?
    ensures var s1 := ApplyDown(s, Stop).value;
      s1.stopped && (Harmless(c, s1) <==> HarmlessToStop(c, s))
  {
    ReachableInv(c, k, s);
    FullParts(c, s);
    LocksHeld(c, s);
    var s1 := ApplyDown(s, Stop).value;
    assert forall p :: Threat(s1, p) <==> p in s.calls && BeforeLock(s.calls[p].pc);
  }

  lemma StrandsNothingAt(c: Config, s: State)
    requires ValidConfig(c) && ReachedOf(c)(s) && s.stopped
    ensures StrandsNothing(c)(s) <==> Harmless(c, s)
  {
    var k :| Reaches(Init(), NextOf(c), k, s);
    StrandsNothingIff(c, k, s);
  }

  /** Before Shutdown sets the flag: setting it now can strand nothing if and only
      if no call is between its read of the flag and the lock or, where `Start` has
      failed or may fail, no call was or will be accepted. */
  lemma ShutdownStrandsNothingIff(c: Config, k: nat, s: State)
    requires ValidConfig(c) && Reaches(Init(), NextOf(c), k, s) && s.down.NotDown?
    ensures StrandsNothing(c)(ApplyDown(s, Stop).value) <==> HarmlessToStop(c, s)
  {
    StopHarmless(c, k, s);
    StopReaches(c, k, s);
    StrandsNothingAt(c, ApplyDown(s, Stop).value);
  }

  lemma StopReaches(c: Config, k: nat, s: State)
    requires Reaches(Init(), NextOf(c), k, s) && s.down.NotDown?
    ensures ReachedOf(c)(ApplyDown(s, Stop).value)
  {
    var s1 := ApplyDown(s, Stop).value;
    assert Apply(c, s, DownStep(Stop)) == Some(s1);
    assert Next(c, s, s1);
    Extend(Init(), NextOf(c), k, s, s1);
  }
}
