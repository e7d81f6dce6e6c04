/** The enqueue lock and the depth counters, in every interleaving. */
module PipelineDepth {
  import opened Events
  import opened Machines
  import opened Pipeline

  predicate Critical(pc: CallPc) {
    pc.Locked? || pc.Sent? || pc.Counted? || pc.Deep? || pc.Loaded?
  }

  /** Mutual exclusion: a call is in its critical section exactly when it holds
      the lock. */
  ghost predicate Locks(s: State) {
    && (forall p :: p in s.calls ==> (Critical(s.calls[p].pc) <==> s.lock == ByCall(p)))
    && (s.lock.ByCall? ==> s.lock.p in s.calls)
    && (s.lock.ByShutdown? <==> s.down.DownLocked?)
  }

  /** Where the lock holder is. */
  function HolderPc(s: State): Option<CallPc> {
    if s.lock.ByCall? && s.lock.p in s.calls then Some(s.calls[s.lock.p].pc) else None
  }

  /** 1 while a call has sent its event and not yet raised the depth. */
  function Uncounted(h: Option<CallPc>): int {
    if h.Some? && (h.value.Sent? || h.value.Counted?) then 1 else 0
  }

  /** 1 while the loop has received an event and not yet lowered the depth. */
  function Taking(s: State): int {
    if s.loop.Took? || s.loop.DrainTook? then 1 else 0
  }

  /** The largest of 0 and the given depths. */
  function Peak(depths: seq<int>): int {
    if |depths| == 0 then 0 else Max(Peak(depths[..|depths| - 1]), depths[|depths| - 1])
  }

  lemma PeakSnoc(depths: seq<int>, n: int)
    ensures Peak(depths + [n]) == Max(Peak(depths), n)
  {
    assert (depths + [n])[..|depths|] == depths;
  }

  lemma {:induction false} PeakIsMax(depths: seq<int>)
    ensures Peak(depths) >= 0
    ensures forall i :: 0 <= i < |depths| ==> depths[i] <= Peak(depths)
    ensures Peak(depths) == 0 || Peak(depths) in depths
  {
    if |depths| > 0 {
      var d := depths[..|depths| - 1];
      PeakIsMax(d);
      assert depths == d + [depths[|depths| - 1]];
    }
  }

  /** maxDepth against the depths so far, given where the lock holder is. */
  predicate PeakOk(h: Option<CallPc>, maxDepth: int, depths: seq<int>) {
    if h.Some? && (h.value.Deep? || h.value.Loaded?) then
      && |depths| > 0 && depths[|depths| - 1] == h.value.n
      && maxDepth == Peak(depths[..|depths| - 1])
      && (h.value.Loaded? ==> h.value.m == maxDepth)
    else maxDepth == Peak(depths)
  }

  ghost predicate Depths(c: Config, s: State) {
    && |s.ch| <= c.maxSize
    && s.depth == |s.ch| - s.log.recovered - Uncounted(HolderPc(s)) + Taking(s)
    && PeakOk(HolderPc(s), s.maxDepth, s.log.depths)
    && (forall i :: 0 <= i < |s.log.depths| ==> s.log.depths[i] <= c.maxSize + 1)
  }

  ghost predicate Inv(c: Config, s: State) {
    Locks(s) && Depths(c, s)
  }

  ghost function InvOf(c: Config): State -> bool {
    s => Inv(c, s)
  }

  /** Steps of others that leave lock, calls, channel and counters alone. */
  lemma SameKeeps(c: Config, s: State, s': State)
    requires InvOf(c)(s)
    requires s'.calls == s.calls && s'.lock == s.lock && s'.down == s.down
    requires s'.ch == s.ch && s'.depth == s.depth && s'.maxDepth == s.maxDepth
    requires s'.log.recovered == s.log.recovered && s'.log.depths == s.log.depths
    requires Taking(s') == Taking(s)
    ensures InvOf(c)(s')
  {
    assert HolderPc(s') == HolderPc(s);
  }

  lemma NewCallKeeps(c: Config, s: State, p: nat, e: PendingEvent, s': State)
    requires InvOf(c)(s) && ApplyNewCall(s, p, e) == Some(s')
    ensures InvOf(c)(s')
  {
    assert HolderPc(s') == HolderPc(s);
  }

  /** What a call's step does to the lock. */
  lemma CallShape(c: Config, s: State, p: nat, a: CallStep, s': State)
    requires ApplyCall(c, s, p, a) == Some(s')
    requires Critical(s.calls[p].pc) <==> s.lock == ByCall(p)
    ensures p in s.calls && p in s'.calls && s'.calls == s.calls[p := s'.calls[p]] && s'.down == s.down
    ensures Critical(s'.calls[p].pc) <==> s'.lock == ByCall(p)
    ensures s'.lock == s.lock || (s.lock.Free? && s'.lock == ByCall(p)) || (s.lock == ByCall(p) && s'.lock.Free?)
  {
  }

  lemma CallKeepsLocks(s: State, p: nat, s': State)
    requires Locks(s) && p in s.calls && p in s'.calls
    requires s'.calls == s.calls[p := s'.calls[p]] && s'.down == s.down
    requires Critical(s'.calls[p].pc) <==> s'.lock == ByCall(p)
    requires s'.lock == s.lock || (s.lock.Free? && s'.lock == ByCall(p)) || (s.lock == ByCall(p) && s'.lock.Free?)
    ensures Locks(s')
  {
  }

  /** A call outside its critical section, before and after. */
  lemma OutsideKeepsHolder(c: Config, s: State, p: nat, a: CallStep, s': State)
    requires Locks(s) && ApplyCall(c, s, p, a) == Some(s')
    requires !Critical(s.calls[p].pc)
    ensures s'.ch == s.ch && s'.depth == s.depth && s'.maxDepth == s.maxDepth && s'.log == s.log.(handed := s'.log.handed) && s'.loop == s.loop
    ensures a.Lock? ==> HolderPc(s') == Some(Locked) && HolderPc(s).None?
    ensures !a.Lock? ==> HolderPc(s') == HolderPc(s)
  {
    assert s.lock != ByCall(p);
  }

  /** The lock holder's own step, as seen by the counters. */
  lemma InsideSteps(c: Config, s: State, p: nat, a: CallStep, s': State)
    requires Locks(s) && ApplyCall(c, s, p, a) == Some(s')
    requires Critical(s.calls[p].pc)
    ensures s'.loop == s.loop && s'.log.recovered == s.log.recovered && HolderPc(s) == Some(s.calls[p].pc)
    ensures HolderPc(s') == if s'.lock.Free? then None else Some(s'.calls[p].pc)
    ensures match a
            case Send => if s'.ch == s.ch then s'.lock.Free? && s' == s.(calls := s'.calls, lock := Free)
                         else HolderPc(s') == Some(Sent) && IsSend(c, s, p, s')
            case Count => s' == s.(calls := s'.calls, enqueued := s'.enqueued) && HolderPc(s') == Some(Counted) && HolderPc(s) == Some(Sent)
            case Deepen => s' == s.(calls := s'.calls, depth := s.depth + 1, log := s.log.(depths := s.log.depths + [s.depth + 1]))
                         && HolderPc(s') == Some(Deep(s.depth + 1)) && HolderPc(s) == Some(Counted)
            case LoadMax => s' == s.(calls := s'.calls) && HolderPc(s).value.Deep?
                         && HolderPc(s') == Some(Loaded(HolderPc(s).value.n, s.maxDepth))
            case StoreMax => s' == s.(calls := s'.calls, lock := s'.lock, maxDepth := s'.maxDepth) && HolderPc(s).value.Loaded?
                         && var h := HolderPc(s).value;
                            if h.n <= h.m then HolderPc(s').None? && s'.maxDepth == s.maxDepth
                            else if h.m == s.maxDepth then HolderPc(s').None? && s'.maxDepth == h.n
                            else HolderPc(s') == Some(Deep(h.n)) && s'.maxDepth == s.maxDepth
            case _ => false
  {
    assert s.lock == ByCall(p);
  }

  lemma InsideKeepsDepths(c: Config, s: State, p: nat, a: CallStep, s': State)
    requires Locks(s) && Depths(c, s) && ApplyCall(c, s, p, a) == Some(s')
    requires Critical(s.calls[p].pc)
    ensures Depths(c, s')
  {
    InsideSteps(c, s, p, a, s');
    var d := s.log.depths;
    if a.Deepen? {
      assert s'.log.depths[..|d|] == d;
    } else if a.StoreMax? {
      assert d == d[..|d| - 1] + [d[|d| - 1]];
      PeakSnoc(d[..|d| - 1], d[|d| - 1]);
    }
  }

  lemma CallKeeps(c: Config, s: State, p: nat, a: CallStep, s': State)
    requires InvOf(c)(s) && ApplyCall(c, s, p, a) == Some(s')
    ensures InvOf(c)(s')
  {
    CallShape(c, s, p, a, s');
    CallKeepsLocks(s, p, s');
    if Critical(s.calls[p].pc) {
      InsideKeepsDepths(c, s, p, a, s');
    } else {
      OutsideKeepsHolder(c, s, p, a, s');
      assert Depths(c, s');
    }
  }

  lemma StartKeeps(c: Config, s: State, st: StartStep, s': State)
    requires InvOf(c)(s) && ApplyStart(c, s, st) == Some(s') && (s.loop.Off? || s.start.Running?)
    ensures InvOf(c)(s')
  {
    StartLeaves(c, s, st, s');
    assert HolderPc(s') == HolderPc(s);
    assert Taking(s') == Taking(s);
    assert (s'.ch == s.ch && s'.log.recovered == s.log.recovered)
        || (|s'.ch| == |s.ch| + 1 <= c.maxSize && s'.log.recovered == s.log.recovered + 1);
  }

  lemma SelectKeeps(c: Config, s: State, l: LoopStep, s': State)
    requires InvOf(c)(s) && ApplySelect(c, s, l) == Some(s')
    ensures InvOf(c)(s')
  {
    SelectLeaves(c, s, l, s');
    assert HolderPc(s') == HolderPc(s);
    assert |s'.ch| <= |s.ch| && s'.depth - s.depth == |s'.ch| - |s.ch| + Taking(s') - Taking(s);
  }

  lemma DownKeeps(c: Config, s: State, d: DownStep, s': State)
    requires InvOf(c)(s) && ApplyDown(s, d) == Some(s')
    ensures InvOf(c)(s')
  {
    DownLeaves(s, d, s');
    assert HolderPc(s') == HolderPc(s);
  }

  lemma StepKeeps(c: Config, s: State, step: Step, s': State)
    requires InvOf(c)(s) && Apply(c, s, step) == Some(s') && (s.loop.Off? || s.start.Running?)
    ensures InvOf(c)(s')
  {
    match step
    case NewCall(p, e) => NewCallKeeps(c, s, p, e, s');
    case CallStep(p, a) => CallKeeps(c, s, p, a, s');
    case StartStep(st) => StartKeeps(c, s, st, s');
    case LoopStep(l) =>
      if s.loop.Flushing? {
        FlushLeaves(c, s, l, s');
        SameKeeps(c, s, s');
      } else {
        SelectKeeps(c, s, l, s');
      }
    case WriterStep(w) =>
      WriterLeaves(s, w, s');
      SameKeeps(c, s, s');
    case DownStep(d) => DownKeeps(c, s, d, s');
    case Crash =>
  }

  ghost predicate LoopAfterStart(s: State) {
    s.loop.Off? || s.start.Running?
  }

  lemma StepKeepsLoopAfterStart(c: Config, s: State, step: Step, s': State)
    requires LoopAfterStart(s) && Apply(c, s, step) == Some(s')
    ensures LoopAfterStart(s')
  {
    match step
    case NewCall(p, e) =>
    case CallStep(p, a) => assert s'.loop == s.loop && s'.start == s.start;
    case StartStep(st) => StartLeaves(c, s, st, s');
    case LoopStep(l) =>
      if s.loop.Flushing? { FlushLeaves(c, s, l, s'); } else { SelectLeaves(c, s, l, s'); }
    case WriterStep(w) => WriterLeaves(s, w, s');
    case DownStep(d) => DownLeaves(s, d, s');
    case Crash =>
  }

  ghost function FullOf(c: Config): State -> bool {
    s => Inv(c, s) && LoopAfterStart(s)
  }

  lemma NextKeepsFull(c: Config, s: State, s': State)
    requires FullOf(c)(s) && NextOf(c)(s, s')
    ensures FullOf(c)(s')
  {
    var step :| Apply(c, s, step) == Some(s');
    StepKeeps(c, s, step, s');
    StepKeepsLoopAfterStart(c, s, step, s');
  }

  lemma ReachableDepth(c: Config, k: nat, s: State)
    requires Reaches(Init(), NextOf(c), k, s)
    ensures FullOf(c)(s)
  {
    forall p, q | FullOf(c)(p) && NextOf(c)(p, q) ensures FullOf(c)(q) {
      NextKeepsFull(c, p, q);
    }
    BootKeeps(c, Disk(map[], {}), {});
    Invariance(Init(), NextOf(c), FullOf(c), k, s);
  }

  lemma BootKeeps(c: Config, disk: Disk, committed: set<int>)
    ensures FullOf(c)(Boot(disk, committed))
  {
    var s := Boot(disk, committed);
    assert HolderPc(s) == None;
  }

  predicate Publishing(h: Option<CallPc>) {
    h.Some? && (h.value.Deep? || h.value.Loaded?)
  }

  /** The depths that maxDepth should reflect: all but the one the lock holder
      is about to publish. */
  function Published(s: State): seq<int> {
    if Publishing(HolderPc(s)) then s.log.depths[..Max(0, |s.log.depths| - 1)] else s.log.depths
  }

  lemma DepthFacts(c: Config, s: State)
    requires FullOf(c)(s)
    ensures s.depth == |s.ch| - s.log.recovered - Uncounted(HolderPc(s)) + Taking(s)
    ensures s.log.recovered == 0 ==> -1 <= s.depth <= c.maxSize + 1
    ensures s.maxDepth == Peak(Published(s))
    ensures 0 <= s.maxDepth <= c.maxSize + 1
  {
    PeakIsMax(Published(s));
    assert forall i :: 0 <= i < |Published(s)| ==> Published(s)[i] == s.log.depths[i];
  }

  lemma LockFacts(c: Config, s: State, p: nat)
    requires FullOf(c)(s) && p in s.calls && Critical(s.calls[p].pc)
    ensures s.lock == ByCall(p)
    ensures s.calls[p].pc.Loaded? ==> s.calls[p].pc.m == s.maxDepth
  {
  }

  /** In every interleaving currentDepth is the channel length, less what
      recovery sent, less 1 while a call has sent but not counted, plus 1 while
      the loop has received but not counted. */
  lemma DepthCounter(c: Config, k: nat, s: State)
    requires Reaches(Init(), NextOf(c), k, s)
    ensures s.depth == |s.ch| - s.log.recovered - Uncounted(HolderPc(s)) + Taking(s)
    ensures s.log.recovered == 0 ==> -1 <= s.depth <= c.maxSize + 1
  {
    ReachableDepth(c, k, s);
    DepthFacts(c, s);
  }

  /** maxDepth is the largest of 0 and the depths computed after sends, and at
      most MaxSize + 1. */
  lemma MaxDepthIsPeak(c: Config, k: nat, s: State)
    requires Reaches(Init(), NextOf(c), k, s)
    ensures s.maxDepth == Peak(Published(s))
    ensures 0 <= s.maxDepth <= c.maxSize + 1
  {
    ReachableDepth(c, k, s);
    DepthFacts(c, s);
  }

  /** The compare-and-swap on maxDepth never loses a race: the lock makes the
      retry loop run once. */
  lemma MaxDepthSwapSucceeds(c: Config, k: nat, s: State, p: nat)
    requires Reaches(Init(), NextOf(c), k, s)
    requires p in s.calls && s.calls[p].pc.Loaded?
    ensures s.calls[p].pc.m == s.maxDepth
  {
    ReachableDepth(c, k, s);
    LockFacts(c, s, p);
  }

  /** At most one call is inside the critical section. */
  lemma MutualExclusion(c: Config, k: nat, s: State, p: nat, q: nat)
    requires Reaches(Init(), NextOf(c), k, s)
    requires p in s.calls && q in s.calls && Critical(s.calls[p].pc) && Critical(s.calls[q].pc)
    ensures p == q
  {
    ReachableDepth(c, k, s);
    LockFacts(c, s, p);
    LockFacts(c, s, q);
  }
}
