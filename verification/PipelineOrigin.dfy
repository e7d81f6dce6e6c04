/** Where events come from: whatever is in the channel, the bucket, the events
    table or the dead-letter queue, crashes and restarts in between, was given to
    an `Enqueue` call. */
module PipelineOrigin {
  import opened Events
  import opened Machines
  import opened FlushRemoval
  import opened Pipeline
  import opened PipelineFifo
  import opened PipelineAccounts
  import H = PipelineHistory

  ghost predicate IsRun(c: Config, trace: seq<State>) {
    IsTrace(Init(), NextOf(c), trace)
  }

  /** Some call up to the n-th state of the run was given e. */
  ghost predicate Given(trace: seq<State>, n: nat, e: PendingEvent) {
    exists t: nat, p: nat :: GivenAt(trace, n, t, p, e)
  }

  ghost predicate GivenAt(trace: seq<State>, n: nat, t: nat, p: nat, e: PendingEvent) {
    t <= n && t < |trace| && p in trace[t].calls && trace[t].calls[p].e == e
  }

  ghost function GivenTo(trace: seq<State>, n: nat): iset<PendingEvent> {
    iset e | Given(trace, n, e)
  }

  lemma GivenGrows(trace: seq<State>, n: nat)
    requires n + 1 < |trace|
    ensures GivenTo(trace, n) <= GivenTo(trace, n + 1)
    ensures CallsFrom(GivenTo(trace, n + 1), trace[n + 1])
  {
    forall e | e in GivenTo(trace, n) ensures e in GivenTo(trace, n + 1) {
      var t: nat, p: nat :| GivenAt(trace, n, t, p, e);
      assert GivenAt(trace, n + 1, t, p, e);
    }
    CallsGiven(trace, n + 1);
  }

  lemma CallsGiven(trace: seq<State>, n: nat)
    requires n < |trace|
    ensures CallsFrom(GivenTo(trace, n), trace[n])
  {
    forall p | p in trace[n].calls ensures trace[n].calls[p].e in GivenTo(trace, n) {
      assert GivenAt(trace, n, n, p, trace[n].calls[p].e);
    }
  }

  // ---- Events from a given set -------------------------------------------------------

  ghost predicate From(x: iset<PendingEvent>, es: seq<PendingEvent>) {
    forall i :: 0 <= i < |es| ==> es[i] in x
  }

  ghost predicate CallsFrom(x: iset<PendingEvent>, s: State) {
    forall p :: p in s.calls ==> s.calls[p].e in x
  }

  /** Every entry of the bucket is under its own id. */
  ghost predicate BucketFrom(x: iset<PendingEvent>, bolt: map<int, PendingEvent>) {
    forall id :: id in bolt ==> bolt[id].eventID == id && bolt[id] in x
  }

  ghost predicate StartFrom(x: iset<PendingEvent>, start: StartPc) {
    start.Feeding? || start.Fed? ==> From(x, start.rest)
  }

  ghost predicate WriterFrom(x: iset<PendingEvent>, s: State) {
    From(x, s.writeCh) && (!s.writer.Waiting? ==> s.writer.e in x)
  }

  ghost predicate AllFrom(x: iset<PendingEvent>, s: State) {
    && CallsFrom(x, s) && WriterFrom(x, s) && StartFrom(x, s.start)
    && BucketFrom(x, s.disk.bolt) && From(x, s.log.sent)
  }

  ghost function AllFromOf(x: iset<PendingEvent>): State -> bool {
    s => AllFrom(x, s)
  }

  lemma FromMore(x: iset<PendingEvent>, y: iset<PendingEvent>, s: State)
    requires AllFromOf(x)(s) && x <= y
    ensures AllFromOf(y)(s)
  {
  }

  // ---- Steps -----------------------------------------------------------------------------

  lemma CallKeepsFrom(x: iset<PendingEvent>, c: Config, s: State, p: nat, a: CallStep)
    requires AllFromOf(x)(s) && ApplyCall(c, s, p, a).Some?
    ensures AllFromOf(x)(ApplyCall(c, s, p, a).value)
  {
    var s' := ApplyCall(c, s, p, a).value;
    H.CallHands(c, s, p, a);
    H.CallFrameHere(c, s, p, a);
    if s'.ch == s.ch { CallLeaves(c, s, p, a, s'); } else { CallSends(c, s, p, a, s'); }
  }

  lemma StartKeepsFrom(x: iset<PendingEvent>, c: Config, s: State, st: StartStep)
    requires AllFromOf(x)(s) && ApplyStart(c, s, st).Some?
    ensures AllFromOf(x)(ApplyStart(c, s, st).value)
  {
    StartLeaves(c, s, st, ApplyStart(c, s, st).value);
    if st.Recover? && c.persistent {
      forall i | 0 <= i < |st.list| ensures st.list[i] in x {
        var e := st.list[i];
        assert e in st.list;
      }
    }
  }

  lemma FlushShrinks(c: Config, s: State, l: LoopStep)
    requires s.loop.Flushing? && ApplyFlush(c, s, l).Some?
    ensures var s' := ApplyFlush(c, s, l).value;
      forall id :: id in s'.disk.bolt ==> id in s.disk.bolt && s'.disk.bolt[id] == s.disk.bolt[id]
  {
  }

  lemma FlushKeepsFrom(x: iset<PendingEvent>, c: Config, s: State, l: LoopStep)
    requires AllFromOf(x)(s) && s.loop.Flushing? && ApplyFlush(c, s, l).Some?
    ensures AllFromOf(x)(ApplyFlush(c, s, l).value)
  {
    FlushLeaves(c, s, l, ApplyFlush(c, s, l).value);
    FlushShrinks(c, s, l);
  }

  lemma WriterKeepsFrom(x: iset<PendingEvent>, s: State, w: WriterStep)
    requires AllFromOf(x)(s) && ApplyWriter(s, w).Some?
    ensures AllFromOf(x)(ApplyWriter(s, w).value)
  {
    WriterLeaves(s, w, ApplyWriter(s, w).value);
  }

  lemma StepKeepsFrom(x: iset<PendingEvent>, c: Config, s: State, step: Step, s': State)
    requires AllFromOf(x)(s) && CallsFrom(x, s') && Apply(c, s, step) == Some(s')
    ensures AllFromOf(x)(s')
  {
    match step
    case NewCall(p, e) =>
    case CallStep(p, a) => CallKeepsFrom(x, c, s, p, a);
    case StartStep(st) => StartKeepsFrom(x, c, s, st);
    case LoopStep(l) =>
      if s.loop.Flushing? { FlushKeepsFrom(x, c, s, l); } else { SelectLeaves(c, s, l, s'); }
    case WriterStep(w) => WriterKeepsFrom(x, s, w);
    case DownStep(d) => DownLeaves(s, d, s');
    case Crash =>
  }

  lemma NextKeepsFrom(x: iset<PendingEvent>, c: Config, s: State, s': State)
    requires AllFromOf(x)(s) && CallsFrom(x, s') && NextOf(c)(s, s')
    ensures AllFromOf(x)(s')
  {
    var step :| Apply(c, s, step) == Some(s');
    StepKeepsFrom(x, c, s, step, s');
  }

  lemma {:induction false} RunFrom(c: Config, trace: seq<State>, n: nat)
    requires IsRun(c, trace) && n < |trace|
    ensures AllFromOf(GivenTo(trace, n))(trace[n])
  {
    if n > 0 {
      RunFrom(c, trace, n - 1);
      GivenGrows(trace, n - 1);
      TraceStep(Init(), NextOf(c), trace, n - 1);
      FromMore(GivenTo(trace, n - 1), GivenTo(trace, n), trace[n - 1]);
      NextKeepsFrom(GivenTo(trace, n), c, trace[n - 1], trace[n]);
    }
  }

  // ---- Main results ------------------------------------------------------------------------

  /** In every state of every run, crashes and restarts included: everything sent to
      the channel by this process, recovered events too, was given to `Enqueue`, and
      so was every entry of the bucket, unchanged and under its own id. */
  lemma NothingInvented(c: Config, trace: seq<State>, n: nat)
    requires IsRun(c, trace) && n < |trace|
    ensures forall e :: e in trace[n].log.sent ==> Given(trace, n, e)
    ensures forall id :: id in trace[n].disk.bolt ==>
      trace[n].disk.bolt[id].eventID == id && Given(trace, n, trace[n].disk.bolt[id])
  {
    RunFrom(c, trace, n);
    assert From(GivenTo(trace, n), trace[n].log.sent);
  }

  /** An event of the database layer carries a given event's id, user, type and
      metadata. */
  ghost predicate ModelGiven(trace: seq<State>, n: nat, e: Event) {
    exists g :: Given(trace, n, g) && CarriesOver(g, e)
  }

  predicate CarriesOver(g: PendingEvent, e: Event) {
    e == Event(g.eventID, g.userID, g.eventType, g.metadata)
  }

  /** What is inserted or dead-lettered was sent. */
  lemma SettledWasSent(c: Config, k: nat, s: State, e: Event) returns (g: PendingEvent)
    requires ValidConfig(c) && Reaches(Init(), NextOf(c), k, s)
    requires e in s.log.stored || e in EventsOf(s.log.buried)
    ensures g in s.log.sent && CarriesOver(g, e)
  {
    FlushConservation(c, k, s);
    FifoConservation(c, k, s);
    var fs := FlushedEvents(s.log.flushed);
    assert e in multiset(Models(fs));
    var i :| 0 <= i < |fs| && Models(fs)[i] == e;
    g := fs[i];
    assert g == s.log.sent[i];
  }

  /** So was everything inserted or dead-lettered. */
  lemma SettledWasGiven(c: Config, trace: seq<State>, n: nat, e: Event)
    requires ValidConfig(c) && IsRun(c, trace) && n < |trace|
    requires e in trace[n].log.stored || e in EventsOf(trace[n].log.buried)
    ensures ModelGiven(trace, n, e)
  {
    TraceReaches(Init(), NextOf(c), trace, n);
    var g := SettledWasSent(c, n, trace[n], e);
    NothingInvented(c, trace, n);
  }

  /** Some given event has this id. */
  ghost predicate IdGiven(trace: seq<State>, n: nat, id: int) {
    exists g :: Given(trace, n, g) && g.eventID == id
  }

  /** The table gains only what the queue inserts. */
  lemma RowsFromStored(c: Config, s: State, step: Step, s': State, id: int)
    requires Apply(c, s, step) == Some(s') && id in s'.disk.rows && id !in s.disk.rows
    ensures exists e :: e in s'.log.stored && e.id == id
  {
    match step
    case LoopStep(l) =>
      if s.loop.Flushing? { FlushAddsStored(c, s, l, id); } else { SelectLeaves(c, s, l, s'); }
    case CallStep(p, a) =>
      if s'.ch == s.ch { CallLeaves(c, s, p, a, s'); } else { CallSends(c, s, p, a, s'); }
    case StartStep(st) => StartLeaves(c, s, st, s');
    case WriterStep(w) => WriterLeaves(s, w, s');
    case DownStep(d) => DownLeaves(s, d, s');
    case _ =>
  }

  lemma FlushAddsStored(c: Config, s: State, l: LoopStep, id: int)
    requires s.loop.Flushing? && ApplyFlush(c, s, l).Some?
    requires id in ApplyFlush(c, s, l).value.disk.rows && id !in s.disk.rows
    ensures exists e :: e in ApplyFlush(c, s, l).value.log.stored && e.id == id
  {
    if l.InsertItem? {
      assert l.e in s.log.stored + [l.e];
    } else {
      var e :| e in Models(s.batch) && e.id == id;
      assert e in s.log.stored + Models(s.batch);
    }
  }

  lemma IdGoesOn(trace: seq<State>, n: nat, id: int)
    requires IdGiven(trace, n, id) && n + 1 < |trace|
    ensures IdGiven(trace, n + 1, id)
  {
    var g :| Given(trace, n, g) && g.eventID == id;
    GivenGrows(trace, n);
    assert g in GivenTo(trace, n + 1);
  }

  lemma NewRowGiven(c: Config, trace: seq<State>, n: nat, id: int)
    requires ValidConfig(c) && IsRun(c, trace) && n + 1 < |trace|
    requires id in trace[n + 1].disk.rows && id !in trace[n].disk.rows
    ensures IdGiven(trace, n + 1, id)
  {
    TraceStep(Init(), NextOf(c), trace, n);
    assert Next(c, trace[n], trace[n + 1]);
    var step :| Apply(c, trace[n], step) == Some(trace[n + 1]);
    RowsFromStored(c, trace[n], step, trace[n + 1], id);
    var e :| e in trace[n + 1].log.stored && e.id == id;
    SettledWasGiven(c, trace, n + 1, e);
  }

  /** And every row of the table. */
  lemma {:induction false} RowsWereGiven(c: Config, trace: seq<State>, n: nat, id: int)
    requires ValidConfig(c) && IsRun(c, trace) && n < |trace| && id in trace[n].disk.rows
    ensures IdGiven(trace, n, id)
  {
    if n > 0 {
      if id in trace[n - 1].disk.rows {
        RowsWereGiven(c, trace, n - 1, id);
        IdGoesOn(trace, n - 1, id);
      } else {
        NewRowGiven(c, trace, n - 1, id);
      }
    }
  }
}
