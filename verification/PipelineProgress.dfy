/** The flush loop is never held up: from every reachable state it can flush all
    that has been sent, with no other goroutine moving. */
module PipelineProgress {
  import opened Events
  import opened Machines
  import opened Pipeline
  import opened FlushRemoval
  import opened PipelineFifo
  import opened PipelineAccounts
  import S = PipelineStragglers
  import D = PipelineShutdown

  /** In its select, or in something it entered from there. */
  predicate InService(loop: LoopPc) {
    loop.Select? || loop.Took? || (loop.Flushing? && !loop.cause.ByDrain?)
  }

  predicate Idle(s: State) {
    s.loop.Select? && s.batch == [] && s.ch == []
  }

  predicate OnlyLoopMoved(s: State, s': State) {
    s'.calls == s.calls && s'.down == s.down && s'.start == s.start && s'.log.sent == s.log.sent
  }

  function Distance(s: State): nat {
    match s.loop
    case Took => 9
    case Select => if s.batch == [] then 1 else 8
    case _ => S.Phase(s.loop)
  }

  ghost predicate Nearer(s': State, s: State) {
    || |s'.ch| < |s.ch|
    || (|s'.ch| == |s.ch| &&
        (Distance(s') < Distance(s) || (Distance(s') == Distance(s) && S.Minor(s') < S.Minor(s))))
  }

  /** Outside a flush: the next event is received, or what is there is flushed. */
  lemma SelectCan(c: Config, s: State) returns (l: LoopStep)
    requires (s.loop.Select? || s.loop.Took?) && !Idle(s)
    ensures var s' := ApplySelect(c, s, l);
      s'.Some? && InService(s'.value.loop) && OnlyLoopMoved(s, s'.value) && Nearer(s'.value, s)
  {
    l := if s.loop.Took? then Uncount else if s.ch != [] then Take else Tick;
  }

  lemma FlushCan(c: Config, s: State) returns (l: LoopStep)
    requires s.loop.Flushing? && InService(s.loop)
    ensures var s' := ApplyFlush(c, s, l);
      s'.Some? && InService(s'.value.loop) && OnlyLoopMoved(s, s'.value) && Nearer(s'.value, s)
  {
    var e: Event := Event(0, 0, "", "");
    if s.loop.f.Trying? && s.loop.f.left != multiset{} {
      e := S.SomeEvent(s.loop.f.left);
    }
    l := S.FlushChoice(s.loop.f, e);
    S.FlushLowers(c, s, e);
    FlushLeaves(c, s, l, ApplyFlush(c, s, l).value);
  }

  lemma LoopCan(c: Config, s: State) returns (l: LoopStep)
    requires InService(s.loop) && !Idle(s)
    ensures var s' := ApplyLoop(c, s, l);
      s'.Some? && InService(s'.value.loop) && OnlyLoopMoved(s, s'.value) && Nearer(s'.value, s)
  {
    if s.loop.Flushing? {
      l := FlushCan(c, s);
    } else {
      l := SelectCan(c, s);
    }
  }

  lemma {:induction false} Empties(c: Config, s0: State, s: State) returns (s': State)
    requires S.LedOf(c, s0)(s) && InService(s.loop)
    ensures S.LedOf(c, s0)(s') && Idle(s') && OnlyLoopMoved(s, s')
    decreases |s.ch|, Distance(s), S.Minor(s)
  {
    s' := s;
    if !Idle(s) {
      var l := LoopCan(c, s);
      S.Do(c, s0, s, LoopStep(l));
      s' := Empties(c, s0, ApplyLoop(c, s, l).value);
    }
  }

  // ---- All that was sent can be settled -----------------------------------------------

  /** Everything sent has been inserted or dead-lettered, each event as often as it
      was sent. */
  ghost predicate AllSettled(s: State) {
    multiset(Models(s.log.sent)) == multiset(s.log.stored) + multiset(EventsOf(s.log.buried))
  }

  lemma IdleIsSettled(c: Config, s: State)
    requires ValidConfig(c) && S.ReachedOf(c)(s) && Idle(s)
    ensures AllSettled(s)
  {
    var k :| Reaches(Init(), NextOf(c), k, s);
    FifoConservation(c, k, s);
    FlushConservation(c, k, s);
    assert s.log.sent == FlushedEvents(s.log.flushed);
  }

  lemma ComposeReached(c: Config, k: nat, s: State, l: nat, s': State)
    requires Reaches(Init(), NextOf(c), k, s) && Reaches(s, NextOf(c), l, s')
    ensures S.ReachedOf(c)(s')
  {
    Compose(Init(), NextOf(c), k, s, l, s');
  }

  lemma SteadyReached(c: Config, s: State, l: nat, s': State)
    requires S.ReachedOf(c)(s) && Reaches(s, S.SteadyOf(c), l, s')
    ensures S.ReachedOf(c)(s')
  {
    var k :| Reaches(Init(), NextOf(c), k, s);
    S.SteadyReaches(c, s, l, s');
    ComposeReached(c, k, s, l, s');
  }

  /** The end of a crash-free run from a reachable state is reachable. */
  lemma LedReached(c: Config, s: State, s': State)
    requires S.ReachedOf(c)(s) && S.LedOf(c, s)(s')
    ensures S.ReachedOf(c)(s')
  {
    var l :| Reaches(s, S.SteadyOf(c), l, s');
    SteadyReached(c, s, l, s');
  }

  lemma ReachedLed(c: Config, k: nat, s: State)
    requires Reaches(Init(), NextOf(c), k, s)
    ensures S.ReachedOf(c)(s) && S.LedOf(c, s)(s)
  {
    D.ReachableInv(c, k, s);
    S.Here(c, s);
  }

  /** In every reachable state whose loop is in service, however the queue is used:
      with nobody else moving, the loop can take and flush all that has been sent. */
  lemma CanSettleAll(c: Config, k: nat, s: State) returns (s': State)
    requires ValidConfig(c) && Reaches(Init(), NextOf(c), k, s) && InService(s.loop)
    ensures S.Leads(c, s, s') && OnlyLoopMoved(s, s')
    ensures s'.ch == [] && s'.batch == [] && AllSettled(s')
  {
    ReachedLed(c, k, s);
    s' := Empties(c, s, s);
    LedReached(c, s, s');
    IdleIsSettled(c, s');
  }

  // ---- Every call can return ----------------------------------------------------------------

  /** The call has returned, or has the lock free before it. */
  predicate Clear(s: State, p: nat) {
    p in s.calls && (S.HasReturned(s.calls[p].pc) || (BeforeLock(s.calls[p].pc) && s.lock.Free?))
  }

  lemma HolderKnown(c: Config, s: State)
    requires D.FullOf(c)(s)
    ensures s.lock.ByShutdown? ==> s.down.DownLocked?
    ensures s.lock.ByCall? ==> s.lock.p in s.calls
    ensures s.lock.Free? ==> forall p :: p in s.calls ==> S.HasReturned(s.calls[p].pc) || BeforeLock(s.calls[p].pc)
    ensures s.lock.ByShutdown? ==> forall p :: p in s.calls ==> S.HasReturned(s.calls[p].pc) || BeforeLock(s.calls[p].pc)
    ensures s.lock.ByCall? ==>
      forall p :: p in s.calls && p != s.lock.p ==> S.HasReturned(s.calls[p].pc) || BeforeLock(s.calls[p].pc)
  {
    D.FullParts(c, s);
    D.LocksHeld(c, s);
  }

  /** Whoever has the lock can be brought to give it back. */
  lemma Clears(c: Config, s0: State, s: State, p: nat) returns (s': State)
    requires S.LedOf(c, s0)(s) && p in s.calls
    ensures S.LedOf(c, s0)(s') && Clear(s', p)
  {
    S.LedFull(c, s0, s);
    HolderKnown(c, s);
    if s.lock.ByShutdown? {
      S.Do(c, s0, s, DownStep(Signal));
      s' := ApplyDown(s, Signal).value;
    } else if s.lock.ByCall? {
      s' := S.FreeLock(c, s0, s, s.lock.p);
    } else {
      s' := s;
    }
  }

  lemma LocksAndReturns(c: Config, s0: State, s: State, p: nat) returns (s': State)
    requires S.LedOf(c, s0)(s) && p in s.calls && s.lock == ByCall(p)
    ensures S.LedOf(c, s0)(s') && p in s'.calls && S.HasReturned(s'.calls[p].pc)
  {
    s' := S.FreeLock(c, s0, s, p);
  }

  lemma GoesThrough(c: Config, s0: State, s: State, p: nat) returns (s': State)
    requires S.LedOf(c, s0)(s) && s.lock.Free? && p in s.calls && (s.calls[p].pc.SawRoom? || s.calls[p].pc.WantLock?)
    ensures S.LedOf(c, s0)(s') && p in s'.calls && S.HasReturned(s'.calls[p].pc)
  {
    if s.calls[p].pc.SawRoom? {
      s' := S.Persists(c, s0, s, p);
    } else {
      s' := S.TakesLock(c, s0, s, p);
    }
    s' := LocksAndReturns(c, s0, s', p);
  }

  lemma Returns(c: Config, s0: State, s: State, p: nat) returns (s': State)
    requires S.LedOf(c, s0)(s) && Clear(s, p)
    ensures S.LedOf(c, s0)(s') && p in s'.calls && S.HasReturned(s'.calls[p].pc)
  {
    s' := s;
    if s.calls[p].pc.SawRunning? {
      S.Do(c, s0, s, CallStep(p, ReadDepth));
      s' := ApplyCall(c, s, p, ReadDepth).value;
    }
    if !S.HasReturned(s'.calls[p].pc) {
      s' := GoesThrough(c, s0, s', p);
    }
  }

  /** In every reachable state, shutting down or not, every `Enqueue` call in
      progress can return: nobody keeps the lock for good. */
  lemma CallCanReturn(c: Config, k: nat, s: State, p: nat) returns (s': State)
    requires Reaches(Init(), NextOf(c), k, s) && p in s.calls
    ensures S.Leads(c, s, s') && p in s'.calls && (s'.calls[p].pc.Accepted? || s'.calls[p].pc.Refused?)
  {
    ReachedLed(c, k, s);
    var m := Clears(c, s, s, p);
    s' := Returns(c, s, m, p);
  }

  // ---- Restart ------------------------------------------------------------------------------

  lemma FirstThenRest<T>(a: seq<T>, list: seq<T>)
    requires list != []
    ensures a + [list[0]] + list[1..] == a + list
  {
  }

  /** `Start` feeds a list that fits and spawns the loop. */
  lemma {:induction false} FeedsAll(c: Config, s0: State, s: State, list: seq<PendingEvent>) returns (s': State)
    requires S.LedOf(c, s0)(s) && s.start == Feeding(list) && |s.ch| + |list| <= c.maxSize
    ensures S.LedOf(c, s0)(s') && s'.loop.Select? && s'.log.sent == s.log.sent + list
    decreases |list|
  {
    if list == [] {
      s' := Spawns(c, s0, s);
    } else {
      var m := FeedsOne(c, s0, s, list);
      s' := FeedsAll(c, s0, m, list[1..]);
      FirstThenRest(s.log.sent, list);
    }
  }

  lemma Spawns(c: Config, s0: State, s: State) returns (s': State)
    requires S.LedOf(c, s0)(s) && s.start == Feeding([])
    ensures S.LedOf(c, s0)(s') && s'.loop.Select? && s'.log.sent == s.log.sent
  {
    S.Do(c, s0, s, StartStep(Spawn));
    s' := ApplyStart(c, s, Spawn).value;
  }

  lemma FeedsOne(c: Config, s0: State, s: State, list: seq<PendingEvent>) returns (s': State)
    requires S.LedOf(c, s0)(s) && s.start == Feeding(list) && |s.ch| < c.maxSize && list != []
    ensures S.LedOf(c, s0)(s') && s'.start == Feeding(list[1..])
    ensures |s'.ch| == |s.ch| + 1 && s'.log.sent == s.log.sent + [list[0]]
  {
    S.Do(c, s0, s, StartStep(Feed));
    var m := ApplyStart(c, s, Feed).value;
    S.Do(c, s0, m, StartStep(CountFed));
    s' := ApplyStart(c, m, CountFed).value;
  }

  /** A new process goes through `Start`. */
  lemma Starts(c: Config, disk: Disk, committed: set<int>, list: seq<PendingEvent>) returns (s': State)
    requires c.persistent && Lists(list, disk.bolt) && |list| <= c.maxSize
    ensures S.LedOf(c, Boot(disk, committed))(s') && s'.loop.Select? && s'.log.sent == list
  {
    var s := Boot(disk, committed);
    D.BootFull(c, disk, committed);
    S.Here(c, s);
    S.Do(c, s, s, StartStep(Begin));
    var m := ApplyStart(c, s, Begin).value;
    S.Do(c, s, m, StartStep(Recover(list)));
    s' := FeedsAll(c, s, ApplyStart(c, m, Recover(list)).value, list);
  }

  lemma CrashReached(c: Config, k: nat, s: State)
    requires Reaches(Init(), NextOf(c), k, s)
    ensures S.ReachedOf(c)(Boot(s.disk, s.log.committed))
  {
    assert Apply(c, s, Crash) == Some(Boot(s.disk, s.log.committed));
    Extend(Init(), NextOf(c), k, s, Boot(s.disk, s.log.committed));
  }

  /** After a crash at any moment, for every listing of the bucket that the channel
      has room for: the new process can bring exactly the listed events, once each,
      to the events table or the dead-letter queue. */
  lemma RestartSettlesAll(c: Config, k: nat, s: State, list: seq<PendingEvent>) returns (s': State)
    requires ValidConfig(c) && c.persistent && Reaches(Init(), NextOf(c), k, s)
    requires Lists(list, s.disk.bolt) && |list| <= c.maxSize
    ensures S.Leads(c, Boot(s.disk, s.log.committed), s')
    ensures multiset(Models(list)) == multiset(s'.log.stored) + multiset(EventsOf(s'.log.buried))
  {
    CrashReached(c, k, s);
    s' := StartSettlesAll(c, s.disk, s.log.committed, list);
  }

  lemma StartSettlesAll(c: Config, disk: Disk, committed: set<int>, list: seq<PendingEvent>) returns (s': State)
    requires ValidConfig(c) && c.persistent && S.ReachedOf(c)(Boot(disk, committed))
    requires Lists(list, disk.bolt) && |list| <= c.maxSize
    ensures S.Leads(c, Boot(disk, committed), s')
    ensures multiset(Models(list)) == multiset(s'.log.stored) + multiset(EventsOf(s'.log.buried))
  {
    var m := Starts(c, disk, committed, list);
    s' := Empties(c, Boot(disk, committed), m);
    LedReached(c, Boot(disk, committed), s');
    IdleIsSettled(c, s');
  }
}
