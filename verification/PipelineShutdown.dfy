/** What the drain at shutdown guarantees, in every interleaving. */
module PipelineShutdown {
  import opened Events
  import opened Machines
  import opened FlushRemoval
  import opened Pipeline
  import opened PipelineFifo
  import Depth = PipelineDepth
  import Accounts = PipelineAccounts

  predicate BeforeSend(pc: CallPc) {
    BeforeLock(pc) || pc.Locked?
  }

  predicate AfterSend(pc: CallPc) {
    pc.Sent? || pc.Counted? || pc.Deep? || pc.Loaded? || pc.Accepted?
  }

  /** The loop has seen the shutdown signal. */
  predicate Leaving(loop: LoopPc) {
    loop.Draining? || loop.DrainTook? || Drained(loop)
  }

  /** The drain has found the channel empty; the loop will not receive again. */
  predicate Drained(loop: LoopPc) {
    loop.Exited? || (loop.Flushing? && loop.cause.ByDrain?)
  }

  /** The call holds the lock that Shutdown needs before it can signal, so its
      event will be in the channel when the drain begins. */
  predicate WillBeDrained(s: State, p: nat) {
    s.down.StopSet? && s.lock == ByCall(p)
  }

  /** Once the flag is set, only calls in flight at that moment can still send,
      and the one that had the lock, before the signal. */
  ghost predicate Fenced(s: State) {
    && (s.stopped <==> !s.down.NotDown?)
    && (s.stopped ==> forall p :: p in s.calls && BeforeSend(s.calls[p].pc) ==>
          p in s.log.inFlight || WillBeDrained(s, p))
    && (Leaving(s.loop) ==> IsSignalled(s))
  }

  /** The call sent the event at this position of the channel, after having been
      in flight when Shutdown set the flag. */
  ghost predicate SentLate(s: State, p: nat, e: PendingEvent) {
    p in s.calls && p in s.log.inFlight && AfterSend(s.calls[p].pc) && s.calls[p].e == e
  }

  /** After the drain, the channel holds exactly the events of the late calls. */
  ghost predicate LateOnly(s: State) {
    Drained(s.loop) ==>
      && |s.log.late| == |s.ch|
      && (forall i :: 0 <= i < |s.ch| ==> SentLate(s, s.log.late[i], s.ch[i]))
      && (forall i, j :: 0 <= i < j < |s.log.late| ==> s.log.late[i] != s.log.late[j])
  }

  ghost predicate AcceptedSent(s: State) {
    forall p :: p in s.calls && AfterSend(s.calls[p].pc) ==> s.calls[p].e in s.log.sent
  }

  ghost predicate Inv(s: State) {
    Fenced(s) && LateOnly(s) && AcceptedSent(s) && Depth.LoopAfterStart(s)
  }

  ghost function InvOf(): State -> bool {
    s => Inv(s)
  }

  /** The part of a step's effect on the calls that matters here. */
  predicate CallsGrow(s: State, s': State) {
    forall p :: p in s.calls ==> p in s'.calls && s'.calls[p].e == s.calls[p].e
  }

  lemma SameKeeps(s: State, s': State)
    requires InvOf()(s)
    requires s'.calls == s.calls && s'.ch == s.ch && s'.start == s.start && s'.stopped == s.stopped
    requires s'.down == s.down && s'.lock == s.lock
    requires s'.log.sent == s.log.sent && s'.log.late == s.log.late && s'.log.inFlight == s.log.inFlight
    requires !s'.loop.Off? ==> !s.loop.Off?
    requires Leaving(s'.loop) ==> Leaving(s.loop)
    requires Drained(s'.loop) ==> Drained(s.loop)
    ensures InvOf()(s')
  {
  }

  /** A call moves without sending. */
  lemma QuietCallKeeps(s: State, p: nat, pc: CallPc, s': State)
    requires InvOf()(s) && Depth.Locks(s) && p in s.calls
    requires s'.calls == s.calls[p := s.calls[p].(pc := pc)]
    requires BeforeSend(pc) ==> BeforeLock(s.calls[p].pc)
    requires AfterSend(pc) <==> AfterSend(s.calls[p].pc)
    requires s'.lock == s.lock || s.lock.Free? || s.lock == ByCall(p)
    requires s'.ch == s.ch && s'.start == s.start && s'.stopped == s.stopped && s'.down == s.down && s'.loop == s.loop
    requires s'.log.sent == s.log.sent && s'.log.late == s.log.late && s'.log.inFlight == s.log.inFlight
    ensures InvOf()(s')
  {
    assert CallsGrow(s, s');
  }

  lemma SendKeeps(c: Config, s: State, p: nat, s': State)
    requires InvOf()(s) && IsSend(c, s, p, s')
    ensures InvOf()(s')
  {
    assert CallsGrow(s, s');
    assert Drained(s.loop) ==> s.stopped && p in s.log.inFlight;
    forall q | q in s'.calls && AfterSend(s'.calls[q].pc) ensures s'.calls[q].e in s'.log.sent {
      assert s'.log.sent[|s.log.sent|] == s.calls[p].e;
      assert q != p ==> s.calls[q].e in s.log.sent;
    }
  }

  lemma CallMoves(c: Config, s: State, p: nat, a: CallStep, s': State)
    requires ApplyCall(c, s, p, a) == Some(s') && s'.ch == s.ch
    ensures p in s.calls && p in s'.calls && s'.calls == s.calls[p := s.calls[p].(pc := s'.calls[p].pc)]
    ensures BeforeSend(s'.calls[p].pc) ==> BeforeLock(s.calls[p].pc)
    ensures AfterSend(s'.calls[p].pc) <==> AfterSend(s.calls[p].pc)
    ensures s'.lock == s.lock || s.lock.Free? || Depth.Critical(s.calls[p].pc)
  {
  }

  lemma CallKeeps(c: Config, s: State, p: nat, a: CallStep, s': State)
    requires InvOf()(s) && Depth.Locks(s) && ApplyCall(c, s, p, a) == Some(s')
    ensures InvOf()(s')
  {
    if s'.ch == s.ch {
      CallLeaves(c, s, p, a, s');
      CallMoves(c, s, p, a, s');
      QuietCallKeeps(s, p, s'.calls[p].pc, s');
    } else {
      CallSends(c, s, p, a, s');
      SendKeeps(c, s, p, s');
    }
  }

  lemma NewCallKeeps(s: State, p: nat, e: PendingEvent, s': State)
    requires InvOf()(s) && ApplyNewCall(s, p, e) == Some(s')
    ensures InvOf()(s')
  {
    assert CallsGrow(s, s');
  }

  lemma StartKeeps(c: Config, s: State, st: StartStep, s': State)
    requires InvOf()(s) && ApplyStart(c, s, st) == Some(s')
    ensures InvOf()(s')
  {
    StartLeaves(c, s, st, s');
    assert s.loop.Off?;
    assert s'.loop.Off? || (s'.loop.Select? && s'.start.Running?);
    assert s.log.sent <= s'.log.sent;
  }

  lemma SelectKeeps(c: Config, s: State, l: LoopStep, s': State)
    requires InvOf()(s) && !s.loop.Flushing? && ApplySelect(c, s, l) == Some(s')
    ensures InvOf()(s')
  {
    SelectLeaves(c, s, l, s');
    assert Leaving(s'.loop) ==> IsSignalled(s);
    assert Drained(s'.loop) ==> s'.ch == [] && s'.log.late == [];
  }

  lemma DownKeeps(s: State, d: DownStep, s': State)
    requires InvOf()(s) && Depth.Locks(s) && ApplyDown(s, d) == Some(s')
    ensures InvOf()(s')
  {
    DownLeaves(s, d, s');
    if d.Stop? {
      assert !Leaving(s.loop);
    } else {
      assert s'.log == s.log && s'.stopped == s.stopped;
    }
  }

  lemma StepKeeps(c: Config, s: State, step: Step, s': State)
    requires InvOf()(s) && Depth.Locks(s) && Apply(c, s, step) == Some(s')
    ensures InvOf()(s')
  {
    match step
    case NewCall(p, e) => NewCallKeeps(s, p, e, s');
    case CallStep(p, a) => CallKeeps(c, s, p, a, s');
    case StartStep(st) => StartKeeps(c, s, st, s');
    case LoopStep(l) =>
      if s.loop.Flushing? {
        FlushLeaves(c, s, l, s');
        SameKeeps(s, s');
      } else {
        SelectKeeps(c, s, l, s');
      }
    case WriterStep(w) =>
      WriterLeaves(s, w, s');
      SameKeeps(s, s');
    case DownStep(d) => DownKeeps(s, d, s');
    case Crash => BootInv(s.disk, s.log.committed);
  }

  lemma BootInv(disk: Disk, committed: set<int>)
    ensures InvOf()(Boot(disk, committed))
  {
  }

  ghost function FullOf(c: Config): State -> bool {
    s => Inv(s) && Depth.Inv(c, s)
  }

  lemma FullParts(c: Config, s: State)
    requires FullOf(c)(s)
    ensures InvOf()(s) && Depth.FullOf(c)(s)
  {
  }

  lemma FullFrom(c: Config, s: State)
    requires InvOf()(s) && Depth.FullOf(c)(s)
    ensures FullOf(c)(s)
  {
  }

  lemma LocksHeld(c: Config, s: State)
    requires Depth.FullOf(c)(s)
    ensures Depth.Locks(s)
  {
  }

  lemma NextKeeps(c: Config, s: State, s': State)
    requires FullOf(c)(s) && NextOf(c)(s, s')
    ensures FullOf(c)(s')
  {
    FullParts(c, s);
    LocksHeld(c, s);
    Depth.NextKeepsFull(c, s, s');
    var step :| Apply(c, s, step) == Some(s');
    StepKeeps(c, s, step, s');
    FullFrom(c, s');
  }

  lemma BootFull(c: Config, disk: Disk, committed: set<int>)
    ensures FullOf(c)(Boot(disk, committed))
  {
    BootInv(disk, committed);
    Depth.BootKeeps(c, disk, committed);
  }

  lemma ReachableInv(c: Config, k: nat, s: State)
    requires Reaches(Init(), NextOf(c), k, s)
    ensures FullOf(c)(s)
  {
    forall p, q | FullOf(c)(p) && NextOf(c)(p, q) ensures FullOf(c)(q) {
      NextKeeps(c, p, q);
    }
    BootFull(c, Disk(map[], {}), {});
    Invariance(Init(), NextOf(c), FullOf(c), k, s);
  }

  // ---- Main results ------------------------------------------------------------

  predicate Flags(s: State) {
    (s.stopped <==> !s.down.NotDown?) && (s.closed <==> s.down.Closed?)
  }

  ghost function FlagsOf(): State -> bool {
    s => Flags(s)
  }

  lemma StepKeepsFlags(c: Config, s: State, step: Step, s': State)
    requires FlagsOf()(s) && Apply(c, s, step) == Some(s')
    ensures FlagsOf()(s')
  {
    match step
    case NewCall(p, e) =>
    case CallStep(p, a) =>
      if s'.ch == s.ch { CallLeaves(c, s, p, a, s'); } else { CallSends(c, s, p, a, s'); }
    case StartStep(st) => StartLeaves(c, s, st, s');
    case LoopStep(l) =>
      if s.loop.Flushing? { FlushLeaves(c, s, l, s'); } else { SelectLeaves(c, s, l, s'); }
    case WriterStep(w) => WriterLeaves(s, w, s');
    case DownStep(d) =>
    case Crash =>
  }

  /** In every reachable state the queue refuses new calls exactly from the first
      step of Shutdown on, and the write-ahead store is closed exactly when
      Shutdown has come to its end. */
  lemma ClosedIffShutDown(c: Config, k: nat, s: State)
    requires Reaches(Init(), NextOf(c), k, s)
    ensures (s.stopped <==> !s.down.NotDown?) && (s.closed <==> s.down.Closed?)
  {
    forall p, q | FlagsOf()(p) && NextOf(c)(p, q) ensures FlagsOf()(q) {
      var step :| Apply(c, p, step) == Some(q);
      StepKeepsFlags(c, p, step, q);
    }
    Invariance(Init(), NextOf(c), FlagsOf(), k, s);
  }

  lemma LateFacts(c: Config, s: State)
    requires FullOf(c)(s) && Drained(s.loop)
    ensures LateOnly(s)
  {
  }

  lemma LeftoverHasStraggler(s: State)
    requires LateOnly(s) && Drained(s.loop)
    ensures s.log.inFlight == {} ==> s.ch == []
  {
    if s.ch != [] {
      assert SentLate(s, s.log.late[0], s.ch[0]);
    }
  }

  /** Once the drain has found the channel empty, what is in it again was sent,
      position by position, by different calls that had read the flag as false
      and did not have the lock when Shutdown set it; with no such call it stays
      empty. */
  lemma OnlyStragglersRemain(c: Config, k: nat, s: State)
    requires Reaches(Init(), NextOf(c), k, s) && Drained(s.loop)
    ensures |s.log.late| == |s.ch|
    ensures forall i :: 0 <= i < |s.ch| ==> SentLate(s, s.log.late[i], s.ch[i])
    ensures forall i, j :: 0 <= i < j < |s.log.late| ==> s.log.late[i] != s.log.late[j]
    ensures s.log.inFlight == {} ==> s.ch == []
  {
    ReachableInv(c, k, s);
    LateFacts(c, s);
    LeftoverHasStraggler(s);
  }

  lemma SentAfterDrain(c: Config, s: State)
    requires FifoOf(c)(s) && s.loop.Exited?
    ensures s.log.sent == FlushedEvents(s.log.flushed) + s.ch
  {
    assert InHand(s) == [];
    assert FlushedEvents(s.log.flushed) + [] == FlushedEvents(s.log.flushed);
  }

  lemma ModelsConcat(a: seq<PendingEvent>, b: seq<PendingEvent>)
    ensures multiset(Models(a + b)) == multiset(Models(a)) + multiset(Models(b))
  {
    assert Models(a + b) == Models(a) + Models(b);
  }

  lemma DrainFacts(c: Config, s: State)
    requires FifoOf(c)(s) && Accounts.AcctOf(c)(s) && s.loop.Exited?
    ensures multiset(Models(s.log.sent))
         == multiset(s.log.stored) + multiset(EventsOf(s.log.buried)) + multiset(Models(s.ch))
  {
    Accounts.ConservationFacts(c, s);
    SentAfterDrain(c, s);
    ModelsConcat(FlushedEvents(s.log.flushed), s.ch);
  }

  /** Once the flush loop has exited, everything ever sent was inserted or
      dead-lettered, except what the stragglers left in the channel. */
  lemma DrainConservation(c: Config, k: nat, s: State)
    requires ValidConfig(c) && Reaches(Init(), NextOf(c), k, s) && s.loop.Exited?
    ensures multiset(Models(s.log.sent))
         == multiset(s.log.stored) + multiset(EventsOf(s.log.buried)) + multiset(Models(s.ch))
  {
    ReachableFifo(c, k, s);
    Accounts.ReachableBooks(c, k, s);
    DrainFacts(c, s);
  }

  lemma AcceptedFacts(s: State, p: nat)
    requires InvOf()(s) && p in s.calls && s.calls[p].pc.Accepted?
    ensures s.calls[p].e in s.log.sent
  {
  }

  /** With no call between its read of the flag and the lock at the moment of
      Shutdown, every event whose `Enqueue` succeeded has been inserted or
      dead-lettered. */
  lemma NoAcceptedEventLeft(c: Config, k: nat, s: State, p: nat)
    requires ValidConfig(c) && Reaches(Init(), NextOf(c), k, s) && s.loop.Exited? && s.log.inFlight == {}
    requires p in s.calls && s.calls[p].pc.Accepted?
    ensures ToModel(s.calls[p].e) in s.log.stored || ToModel(s.calls[p].e) in EventsOf(s.log.buried)
  {
    OnlyStragglersRemain(c, k, s);
    DrainConservation(c, k, s);
    ReachableInv(c, k, s);
    AcceptedFacts(s, p);
    InModels(s.log.sent, s.calls[p].e);
    assert multiset(Models(s.ch)) == multiset{};
    assert ToModel(s.calls[p].e) in multiset(Models(s.log.sent));
  }

  lemma InModels(es: seq<PendingEvent>, e: PendingEvent)
    requires e in es
    ensures ToModel(e) in Models(es)
  {
    var i :| 0 <= i < |es| && es[i] == e;
    assert Models(es)[i] == ToModel(e);
  }
}
