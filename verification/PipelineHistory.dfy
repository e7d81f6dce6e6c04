/** Why a call ended as it did, and what became of its hand-over to the write loop,
    over all runs of the pipeline. */
module PipelineHistory {
  import opened Events
  import opened Machines
  import opened Pipeline
  import opened PipelineStragglers

  /** The states of one process, from its start to its end or to any moment before. */
  ghost predicate IsProcess(c: Config, trace: seq<State>) {
    && |trace| > 0 && trace[0] == Boot(trace[0].disk, trace[0].log.committed)
    && IsTrace(trace[0], SteadyOf(c), trace)
  }

  ghost function ProcessOf(c: Config): seq<State> -> bool {
    trace => IsProcess(c, trace)
  }

  lemma ProcessStep(c: Config, trace: seq<State>, n: nat)
    requires ProcessOf(c)(trace) && n + 1 < |trace|
    ensures SteadyOf(c)(trace[n], trace[n + 1])
  {
    TraceStep(trace[0], SteadyOf(c), trace, n);
  }

  // ---- What a call can find --------------------------------------------------------------

  /** The call begins. */
  predicate Begins(s: State, p: nat, s': State) {
    p !in s.calls && p in s'.calls
  }

  predicate Leaves(s: State, p: nat, s': State) {
    p in s.calls && p in s'.calls && s'.calls[p].pc != s.calls[p].pc
  }

  /** With this step it reads the depth. */
  predicate ReadsDepth(s: State, p: nat, s': State) {
    Leaves(s, p, s') && s.calls[p].pc.SawRunning?
  }

  /** With this step it turns to the write-ahead store. */
  predicate Persists(s: State, p: nat, s': State) {
    Leaves(s, p, s') && s.calls[p].pc.SawRoom?
  }

  /** With this step, holding the lock, it tries to send. */
  predicate TriesSend(s: State, p: nat, s': State) {
    Leaves(s, p, s') && s.calls[p].pc.Locked?
  }

  /** There is a write-ahead store, it is open, and its buffer is not full. */
  predicate HasRoom(c: Config, s: State) {
    c.persistent && !s.closed && |s.writeCh| < 1000
  }

  datatype Sight = Stopped | Going | Deep_ | Shallow | Full | Room | Open | Shut

  predicate Finds(c: Config, s: State, p: nat, s': State, x: Sight) {
    match x
    case Stopped => Begins(s, p, s') && s.stopped
    case Going => Begins(s, p, s') && !s.stopped
    case Deep_ => ReadsDepth(s, p, s') && s.depth >= c.maxSize
    case Shallow => ReadsDepth(s, p, s') && s.depth < c.maxSize
    case Full => TriesSend(s, p, s') && |s.ch| >= c.maxSize
    case Room => TriesSend(s, p, s') && |s.ch| < c.maxSize
    case Open => Persists(s, p, s') && HasRoom(c, s)
    case Shut => Persists(s, p, s') && !HasRoom(c, s)
  }

  predicate FindsAt(c: Config, trace: seq<State>, t: nat, p: nat, x: Sight) {
    t + 1 < |trace| && Finds(c, trace[t], p, trace[t + 1], x)
  }

  /** The call found it so on its way to the n-th state. */
  ghost predicate Found(c: Config, trace: seq<State>, n: nat, p: nat, x: Sight) {
    exists t: nat :: t < n && FindsAt(c, trace, t, p, x)
  }

  datatype Seen = Seen(
    stopped: bool, going: bool, deep: bool, shallow: bool, full: bool, room: bool, open: bool, shut: bool)

  ghost function SeenBefore(c: Config, trace: seq<State>, n: nat, p: nat): Seen {
    Seen(Found(c, trace, n, p, Stopped), Found(c, trace, n, p, Going), Found(c, trace, n, p, Deep_),
         Found(c, trace, n, p, Shallow), Found(c, trace, n, p, Full), Found(c, trace, n, p, Room),
         Found(c, trace, n, p, Open), Found(c, trace, n, p, Shut))
  }

  predicate More(x: Seen, y: Seen) {
    && (x.stopped ==> y.stopped) && (x.going ==> y.going) && (x.deep ==> y.deep) && (x.shallow ==> y.shallow)
    && (x.full ==> y.full) && (x.room ==> y.room) && (x.open ==> y.open) && (x.shut ==> y.shut)
  }

  /** What the step shows the call is among what it has found. */
  predicate Includes(c: Config, s: State, p: nat, s': State, y: Seen) {
    && (Begins(s, p, s') ==> if s.stopped then y.stopped else y.going)
    && (ReadsDepth(s, p, s') ==> if s.depth >= c.maxSize then y.deep else y.shallow)
    && (TriesSend(s, p, s') ==> if |s.ch| >= c.maxSize then y.full else y.room)
    && (Persists(s, p, s') ==> if HasRoom(c, s) then y.open else y.shut)
  }

  lemma FoundGrows(c: Config, trace: seq<State>, n: nat, p: nat, x: Sight)
    requires n + 1 < |trace|
    ensures Found(c, trace, n, p, x) ==> Found(c, trace, n + 1, p, x)
    ensures Finds(c, trace[n], p, trace[n + 1], x) ==> Found(c, trace, n + 1, p, x)
  {
    if Finds(c, trace[n], p, trace[n + 1], x) {
      assert FindsAt(c, trace, n, p, x);
    }
  }

  lemma SeenGrows(c: Config, trace: seq<State>, n: nat, p: nat)
    requires n + 1 < |trace|
    ensures More(SeenBefore(c, trace, n, p), SeenBefore(c, trace, n + 1, p))
    ensures Includes(c, trace[n], p, trace[n + 1], SeenBefore(c, trace, n + 1, p))
  {
    FoundGrows(c, trace, n, p, Stopped);
    FoundGrows(c, trace, n, p, Going);
    FoundGrows(c, trace, n, p, Deep_);
    FoundGrows(c, trace, n, p, Shallow);
    FoundGrows(c, trace, n, p, Full);
    FoundGrows(c, trace, n, p, Room);
    FoundGrows(c, trace, n, p, Open);
    FoundGrows(c, trace, n, p, Shut);
  }

  // ---- Where a call stands -------------------------------------------------------------

  predicate PastPersist(x: Seen, handed: bool) {
    x.going && x.shallow && (if handed then x.open else x.shut)
  }

  /** Where a call stands is explained by what it has found. */
  predicate Explained(x: Seen, pc: CallPc, handed: bool) {
    match pc
    case SawRunning => x.going && !handed
    case SawRoom => x.going && x.shallow && !handed
    case Refused(why) =>
      (match why
       case QueueStopped => x.stopped && !handed
       case QueueFull => x.going && x.deep && !handed
       case ChannelFull => PastPersist(x, handed) && x.full)
    case WantLock => PastPersist(x, handed)
    case Locked => PastPersist(x, handed)
    case _ => PastPersist(x, handed) && x.room
  }

  lemma ExplainedGrows(x: Seen, y: Seen, pc: CallPc, handed: bool)
    requires Explained(x, pc, handed) && More(x, y)
    ensures Explained(y, pc, handed)
  {
  }

  ghost predicate Stands(x: Seen, p: nat, s: State) {
    && multiset(s.log.handed)[p] <= 1
    && if p in s.calls then Explained(x, s.calls[p].pc, p in s.log.handed) else p !in s.log.handed
  }

  ghost function StandsOf(x: Seen, p: nat): State -> bool {
    s => Stands(x, p, s)
  }

  /** What a call's step leaves alone. */
  lemma CallFrameHere(c: Config, s: State, p: nat, a: CallStep)
    requires ApplyCall(c, s, p, a).Some?
    ensures var s' := ApplyCall(c, s, p, a).value;
      && p in s.calls && s'.calls == s.calls[p := s.calls[p].(pc := s'.calls[p].pc)] && s'.writer == s.writer
      && s'.log.handed == if a.Persist? && HasRoom(c, s) then s.log.handed + [p] else s.log.handed
  {
  }

  lemma CallMovesOn(c: Config, s: State, p: nat, a: CallStep)
    requires ApplyCall(c, s, p, a).Some?
    ensures ApplyCall(c, s, p, a).value.calls[p].pc != s.calls[p].pc
  {
  }

  lemma PersistExplained(c: Config, s: State, p: nat, y: Seen)
    requires p in s.calls && Explained(y, s.calls[p].pc, p in s.log.handed) && ApplyCall(c, s, p, Persist).Some?
    requires if HasRoom(c, s) then y.open else y.shut
    ensures var s' := ApplyCall(c, s, p, Persist).value;
      p in s'.calls && Explained(y, s'.calls[p].pc, p in s'.log.handed)
  {
  }

  lemma OwnStepExplained(c: Config, s: State, p: nat, a: CallStep, y: Seen)
    requires p in s.calls && Explained(y, s.calls[p].pc, p in s.log.handed) && ApplyCall(c, s, p, a).Some?
    requires s.calls[p].pc.SawRunning? ==> if s.depth >= c.maxSize then y.deep else y.shallow
    requires s.calls[p].pc.Locked? ==> if |s.ch| >= c.maxSize then y.full else y.room
    requires !a.Persist?
    ensures p in ApplyCall(c, s, p, a).value.calls
    ensures Explained(y, ApplyCall(c, s, p, a).value.calls[p].pc, p in s.log.handed)
  {
  }

  /** A call's own step. */
  lemma CallExplained(c: Config, s: State, p: nat, a: CallStep, x: Seen, y: Seen)
    requires StandsOf(x, p)(s) && More(x, y) && ApplyCall(c, s, p, a).Some?
    requires Includes(c, s, p, ApplyCall(c, s, p, a).value, y)
    ensures StandsOf(y, p)(ApplyCall(c, s, p, a).value)
  {
    ExplainedGrows(x, y, s.calls[p].pc, p in s.log.handed);
    CallFrameHere(c, s, p, a);
    CallMovesOn(c, s, p, a);
    if a.Persist? {
      PersistExplained(c, s, p, y);
    } else {
      OwnStepExplained(c, s, p, a, y);
    }
  }

  lemma SameKeepsExplained(s: State, s': State, p: nat, x: Seen, y: Seen)
    requires StandsOf(x, p)(s) && More(x, y) && multiset(s'.log.handed)[p] == multiset(s.log.handed)[p]
    requires p in s'.calls <==> p in s.calls
    requires p in s.calls ==> s'.calls[p] == s.calls[p]
    ensures StandsOf(y, p)(s')
  {
    if p in s.calls {
      ExplainedGrows(x, y, s.calls[p].pc, p in s.log.handed);
    }
  }

  lemma CallStepExplained(c: Config, s: State, q: nat, a: CallStep, p: nat, x: Seen, y: Seen)
    requires StandsOf(x, p)(s) && More(x, y) && ApplyCall(c, s, q, a).Some?
    requires Includes(c, s, p, ApplyCall(c, s, q, a).value, y)
    ensures StandsOf(y, p)(ApplyCall(c, s, q, a).value)
  {
    if q == p {
      CallExplained(c, s, p, a, x, y);
    } else {
      CallFrameHere(c, s, q, a);
      SameKeepsExplained(s, ApplyCall(c, s, q, a).value, p, x, y);
    }
  }

  lemma StepExplained(c: Config, s: State, step: Step, s': State, p: nat, x: Seen, y: Seen)
    requires StandsOf(x, p)(s) && More(x, y) && !step.Crash? && Apply(c, s, step) == Some(s') && Includes(c, s, p, s', y)
    ensures StandsOf(y, p)(s')
  {
    match step
    case NewCall(q, e) => if q != p { SameKeepsExplained(s, s', p, x, y); }
    case CallStep(q, a) => CallStepExplained(c, s, q, a, p, x, y);
    case StartStep(st) =>
      StartLeaves(c, s, st, s');
      SameKeepsExplained(s, s', p, x, y);
    case LoopStep(l) =>
      if s.loop.Flushing? { FlushLeaves(c, s, l, s'); } else { SelectLeaves(c, s, l, s'); }
      SameKeepsExplained(s, s', p, x, y);
    case WriterStep(w) =>
      WriterLeaves(s, w, s');
      SameKeepsExplained(s, s', p, x, y);
    case DownStep(d) =>
      DownLeaves(s, d, s');
      SameKeepsExplained(s, s', p, x, y);
  }

  lemma NextExplained(c: Config, s: State, s': State, p: nat, x: Seen, y: Seen)
    requires StandsOf(x, p)(s) && More(x, y) && SteadyOf(c)(s, s') && Includes(c, s, p, s', y)
    ensures StandsOf(y, p)(s')
  {
    var step: Step :| !step.Crash? && Apply(c, s, step) == Some(s');
    StepExplained(c, s, step, s', p, x, y);
  }

  lemma ExplainedNext(c: Config, trace: seq<State>, n: nat, p: nat)
    requires ProcessOf(c)(trace) && n + 1 < |trace| && StandsOf(SeenBefore(c, trace, n, p), p)(trace[n])
    ensures StandsOf(SeenBefore(c, trace, n + 1, p), p)(trace[n + 1])
  {
    ProcessStep(c, trace, n);
    SeenGrows(c, trace, n, p);
    NextExplained(c, trace[n], trace[n + 1], p, SeenBefore(c, trace, n, p), SeenBefore(c, trace, n + 1, p));
  }

  lemma NoneYet(c: Config, trace: seq<State>, p: nat)
    requires ProcessOf(c)(trace)
    ensures StandsOf(SeenBefore(c, trace, 0, p), p)(trace[0])
  {
  }

  lemma {:induction false} RunExplained(c: Config, trace: seq<State>, n: nat, p: nat)
    requires ProcessOf(c)(trace) && n < |trace|
    ensures StandsOf(SeenBefore(c, trace, n, p), p)(trace[n])
  {
    if n == 0 {
      NoneYet(c, trace, p);
    } else {
      RunExplained(c, trace, n - 1, p);
      ExplainedNext(c, trace, n - 1, p);
    }
  }

  lemma CallSeen(c: Config, trace: seq<State>, n: nat, p: nat)
    requires ProcessOf(c)(trace) && n < |trace| && p in trace[n].calls
    ensures Explained(SeenBefore(c, trace, n, p), trace[n].calls[p].pc, p in trace[n].log.handed)
    ensures multiset(trace[n].log.handed)[p] <= 1
  {
    RunExplained(c, trace, n, p);
  }

  lemma FoundAt(c: Config, trace: seq<State>, n: nat, p: nat, x: Sight) returns (t: nat)
    requires Found(c, trace, n, p, x)
    ensures t < n && t + 1 < |trace| && Finds(c, trace[t], p, trace[t + 1], x)
  {
    t :| t < n && FindsAt(c, trace, t, p, x);
  }

  // ---- Main results ----------------------------------------------------------------------

  /** In every run of a process an `Enqueue` that succeeded had begun with the flag
      unset, read a depth below MaxSize, and found room in the channel under the
      lock. */
  lemma AcceptedWithReason(c: Config, trace: seq<State>, n: nat, p: nat) returns (t: nat, u: nat, v: nat)
    requires ProcessOf(c)(trace) && n < |trace| && p in trace[n].calls && trace[n].calls[p].pc.Accepted?
    ensures t < n && t + 1 < |trace| && Begins(trace[t], p, trace[t + 1]) && !trace[t].stopped
    ensures u < n && u + 1 < |trace| && ReadsDepth(trace[u], p, trace[u + 1]) && trace[u].depth < c.maxSize
    ensures v < n && v + 1 < |trace| && TriesSend(trace[v], p, trace[v + 1]) && |trace[v].ch| < c.maxSize
  {
    CallSeen(c, trace, n, p);
    t := FoundAt(c, trace, n, p, Going);
    u := FoundAt(c, trace, n, p, Shallow);
    v := FoundAt(c, trace, n, p, Room);
  }

  function ReasonFor(why: Refusal): Sight {
    match why
    case QueueStopped => Stopped
    case QueueFull => Deep_
    case ChannelFull => Full
  }

  /** And one that was refused had found what its error says: the flag set when it
      began, a depth of MaxSize or more, or the channel full under the lock. */
  lemma RefusedWithReason(c: Config, trace: seq<State>, n: nat, p: nat) returns (t: nat)
    requires ProcessOf(c)(trace) && n < |trace| && p in trace[n].calls && trace[n].calls[p].pc.Refused?
    ensures t < n && t + 1 < |trace|
    ensures match trace[n].calls[p].pc.why
      case QueueStopped => Begins(trace[t], p, trace[t + 1]) && trace[t].stopped
      case QueueFull => ReadsDepth(trace[t], p, trace[t + 1]) && trace[t].depth >= c.maxSize
      case ChannelFull => TriesSend(trace[t], p, trace[t + 1]) && |trace[t].ch| >= c.maxSize
  {
    CallSeen(c, trace, n, p);
    t := FoundAt(c, trace, n, p, ReasonFor(trace[n].calls[p].pc.why));
  }

  /** The call is past its hand-over to the write-ahead store. */
  predicate AfterPersist(pc: CallPc) {
    !pc.SawRunning? && !pc.SawRoom? && (pc.Refused? ==> pc.why.ChannelFull?)
  }

  /** A call past that point handed its event over exactly once if, when it came to
      it, there was a write-ahead store, it was open, and fewer than 1000 events
      were waiting; and not at all otherwise. */
  lemma HandedUnlessFull(c: Config, trace: seq<State>, n: nat, p: nat) returns (t: nat)
    requires ProcessOf(c)(trace) && n < |trace| && p in trace[n].calls && AfterPersist(trace[n].calls[p].pc)
    ensures t < n && t + 1 < |trace| && Persists(trace[t], p, trace[t + 1])
    ensures multiset(trace[n].log.handed)[p] == if c.persistent && !trace[t].closed && |trace[t].writeCh| < 1000 then 1 else 0
  {
    CallSeen(c, trace, n, p);
    t := FoundAt(c, trace, n, p, if p in trace[n].log.handed then Open else Shut);
  }

  lemma OthersLeaveWriter(c: Config, s: State, step: Step, s': State)
    requires !step.Crash? && !step.WriterStep? && Apply(c, s, step) == Some(s')
    ensures s'.writer == s.writer
  {
    match step
    case NewCall(p, e) =>
    case CallStep(p, a) => CallFrameHere(c, s, p, a);
    case StartStep(st) => StartLeaves(c, s, st, s');
    case LoopStep(l) =>
      if s.loop.Flushing? { FlushLeaves(c, s, l, s'); } else { SelectLeaves(c, s, l, s'); }
    case DownStep(d) => DownLeaves(s, d, s');
  }

  /** An event the write loop has taken is put unless the store is closed when the
      loop reads the flag; then it is passed over. */
  lemma PutUnlessClosed(c: Config, trace: seq<State>, n: nat, e: PendingEvent)
    requires ProcessOf(c)(trace) && n + 1 < |trace| && trace[n].writer == Got(e) && trace[n + 1].writer != Got(e)
    ensures trace[n + 1].writer == if trace[n].closed then Waiting else Putting(e)
  {
    ProcessStep(c, trace, n);
    var step: Step :| !step.Crash? && Apply(c, trace[n], step) == Some(trace[n + 1]);
    if !step.WriterStep? {
      OthersLeaveWriter(c, trace[n], step, trace[n + 1]);
    }
  }

  // ---- The write loop's queue ---------------------------------------------------------------

  ghost predicate Known(calls: map<nat, Call>, ps: seq<nat>) {
    forall i :: 0 <= i < |ps| ==> ps[i] in calls
  }

  ghost function EventsOfCalls(calls: map<nat, Call>, ps: seq<nat>): seq<PendingEvent>
    requires Known(calls, ps)
  {
    seq(|ps|, i requires 0 <= i < |ps| => calls[ps[i]].e)
  }

  /** What was handed over is what the write loop has taken and then what waits, in
      order; the event in its hand is the last it took. */
  ghost predicate InOrder(s: State) {
    && Known(s.calls, s.log.handed)
    && EventsOfCalls(s.calls, s.log.handed) == s.log.fetched + s.writeCh
    && (!s.writer.Waiting? ==> |s.log.fetched| > 0 && s.writer.e == s.log.fetched[|s.log.fetched| - 1])
  }

  ghost function InOrderOf(): State -> bool {
    s => InOrder(s)
  }

  predicate SameEvents(s: State, s': State) {
    forall p :: p in s.calls ==> p in s'.calls && s'.calls[p].e == s.calls[p].e
  }

  lemma SameKeepsOrder(s: State, s': State)
    requires InOrder(s) && SameEvents(s, s')
    requires s'.log.handed == s.log.handed && s'.log.fetched == s.log.fetched && s'.writeCh == s.writeCh
    requires s'.writer.Waiting? || (!s.writer.Waiting? && s'.writer.e == s.writer.e)
    ensures InOrderOf()(s')
  {
    assert EventsOfCalls(s'.calls, s'.log.handed) == EventsOfCalls(s.calls, s.log.handed);
  }

  lemma CallHands(c: Config, s: State, p: nat, a: CallStep)
    requires ApplyCall(c, s, p, a).Some?
    ensures var s' := ApplyCall(c, s, p, a).value;
      && p in s.calls && SameEvents(s, s') && s'.writer == s.writer && s'.log.fetched == s.log.fetched
      && ((s'.log.handed == s.log.handed && s'.writeCh == s.writeCh)
          || (s'.log.handed == s.log.handed + [p] && s'.writeCh == s.writeCh + [s.calls[p].e]))
  {
    CallFrameHere(c, s, p, a);
    if !a.Persist? {
      CallKeepsWriteCh(c, s, p, a);
    }
  }

  lemma CallKeepsWriteCh(c: Config, s: State, p: nat, a: CallStep)
    requires !a.Persist? && ApplyCall(c, s, p, a).Some?
    ensures ApplyCall(c, s, p, a).value.writeCh == s.writeCh && ApplyCall(c, s, p, a).value.log.fetched == s.log.fetched
  {
  }

  lemma CallKeepsOrder(c: Config, s: State, p: nat, a: CallStep)
    requires InOrder(s) && ApplyCall(c, s, p, a).Some?
    ensures InOrderOf()(ApplyCall(c, s, p, a).value)
  {
    CallHands(c, s, p, a);
    var s' := ApplyCall(c, s, p, a).value;
    if s'.log.handed == s.log.handed {
      SameKeepsOrder(s, s');
    } else {
      assert EventsOfCalls(s'.calls, s'.log.handed) == EventsOfCalls(s.calls, s.log.handed) + [s.calls[p].e];
    }
  }

  lemma FetchKeepsOrder(s: State, s': State)
    requires InOrder(s) && s.writeCh != [] && s'.calls == s.calls && s'.log.handed == s.log.handed
    requires s'.log.fetched == s.log.fetched + [s.writeCh[0]] && s'.writeCh == s.writeCh[1..]
    requires s'.writer == Got(s.writeCh[0])
    ensures InOrderOf()(s')
  {
    assert s.writeCh == [s.writeCh[0]] + s.writeCh[1..];
    assert s.log.fetched + s.writeCh == s'.log.fetched + s'.writeCh;
  }

  lemma WriterKeepsOrder(s: State, w: WriterStep, s': State)
    requires InOrder(s) && ApplyWriter(s, w) == Some(s')
    ensures InOrderOf()(s')
  {
    if w.Fetch? {
      FetchKeepsOrder(s, s');
    } else {
      SameKeepsOrder(s, s');
    }
  }

  lemma StepKeepsOrder(c: Config, s: State, step: Step, s': State)
    requires InOrderOf()(s) && Apply(c, s, step) == Some(s')
    ensures InOrderOf()(s')
  {
    match step
    case NewCall(p, e) => SameKeepsOrder(s, s');
    case CallStep(p, a) => CallKeepsOrder(c, s, p, a);
    case StartStep(st) =>
      StartLeaves(c, s, st, s');
      SameKeepsOrder(s, s');
    case LoopStep(l) =>
      if s.loop.Flushing? { FlushLeaves(c, s, l, s'); } else { SelectLeaves(c, s, l, s'); }
      SameKeepsOrder(s, s');
    case WriterStep(w) => WriterKeepsOrder(s, w, s');
    case DownStep(d) =>
      DownLeaves(s, d, s');
      SameKeepsOrder(s, s');
    case Crash => assert EventsOfCalls(map[], []) == [];
  }

  /** In every state of every run the events handed over to the write loop are, in
      order, those it has taken and then those that wait. */
  lemma WriteQueueIsFifo(c: Config, k: nat, s: State)
    requires Reaches(Init(), NextOf(c), k, s)
    ensures Known(s.calls, s.log.handed)
    ensures EventsOfCalls(s.calls, s.log.handed) == s.log.fetched + s.writeCh
    ensures !s.writer.Waiting? ==> |s.log.fetched| > 0 && s.writer.e == s.log.fetched[|s.log.fetched| - 1]
  {
    forall p, q | InOrderOf()(p) && NextOf(c)(p, q) ensures InOrderOf()(q) {
      var step :| Apply(c, p, step) == Some(q);
      StepKeepsOrder(c, p, step, q);
    }
    assert EventsOfCalls(map[], []) == [];
    Invariance(Init(), NextOf(c), InOrderOf(), k, s);
  }
}
