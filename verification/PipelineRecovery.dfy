/** What becomes of the events `Start` reads from the write-ahead store, between
    the read and the start of the flush loop, with producers running meanwhile. */
module PipelineRecovery {
  import opened Events
  import opened Machines
  import opened Pipeline
  import opened PipelineStragglers
  import Depth = PipelineDepth

  /** The states of a crash-free run, from any state on. */
  ghost predicate IsSteadyRun(c: Config, trace: seq<State>) {
    |trace| > 0 && IsTrace(trace[0], SteadyOf(c), trace)
  }

  ghost function SteadyRunOf(c: Config): seq<State> -> bool {
    trace => IsSteadyRun(c, trace)
  }

  lemma RunSteps(c: Config, trace: seq<State>, i: nat)
    requires SteadyRunOf(c)(trace) && i + 1 < |trace|
    ensures SteadyOf(c)(trace[i], trace[i + 1])
  {
    TraceStep(trace[0], SteadyOf(c), trace, i);
  }

  // ---- What a step does while Start feeds the channel ----------------------------------

  /** Event e enters the channel, behind what is there. */
  predicate Sends(s: State, e: PendingEvent, s': State) {
    && s'.ch == s.ch + [e] && s'.log.sent == s.log.sent + [e]
    && s'.log.recovered == s.log.recovered + 1 && s'.loop == s.loop
  }

  /** No event enters the channel. */
  predicate Skips(s: State, s': State) {
    s'.ch == s.ch && s'.log.sent == s.log.sent && s'.log.recovered == s.log.recovered && s'.loop == s.loop
  }

  /** The first of `rest` is dealt with: sent if there is room, dropped if the
      channel is full. */
  predicate Feeds(c: Config, s: State, rest: seq<PendingEvent>, s': State)
    requires rest != []
  {
    if |s.ch| < c.maxSize
    then s'.start == Fed(rest[1..]) && Sends(s, rest[0], s')
    else s'.start == Feeding(rest[1..]) && Skips(s, s')
  }

  /** `rest` is still to be dealt with. */
  predicate Pending(s: State, rest: seq<PendingEvent>) {
    s.start == Feeding(rest) || s.start == Fed(rest)
  }

  lemma StartFeeds(c: Config, s: State, rest: seq<PendingEvent>, st: StartStep)
    requires Pending(s, rest) && ApplyStart(c, s, st).Some?
    ensures var s' := ApplyStart(c, s, st).value;
      || (s.start == Feeding(rest) && rest != [] && Feeds(c, s, rest, s'))
      || (s.start == Fed(rest) && s'.start == Feeding(rest) && Skips(s, s'))
      || (s.start == Feeding([]) && s'.start == Running && s'.ch == s.ch && s'.log == s.log)
  {
  }

  /** The other goroutines: they can send, but not recovered events, and while
      there is no flush loop nobody receives. */
  lemma OthersWait(c: Config, s: State, step: Step, s': State)
    requires !step.Crash? && !step.StartStep? && Apply(c, s, step) == Some(s')
    ensures s'.start == s.start && s'.log.recovered == s.log.recovered
    ensures s.loop.Off? ==> s'.loop.Off? && (s'.log.sent == s.log.sent ==> s'.ch == s.ch)
  {
    match step
    case NewCall(p, e) =>
    case CallStep(p, a) =>
      if s'.ch == s.ch { CallLeaves(c, s, p, a, s'); } else { CallSends(c, s, p, a, s'); }
    case LoopStep(l) =>
      if s.loop.Flushing? { FlushLeaves(c, s, l, s'); } else { SelectLeaves(c, s, l, s'); }
    case WriterStep(w) => WriterLeaves(s, w, s');
    case DownStep(d) => DownLeaves(s, d, s');
  }

  /** A step while `rest` is pending. */
  ghost predicate Moves(c: Config, s: State, rest: seq<PendingEvent>, s': State) {
    || (s'.start == s.start && s'.log.recovered == s.log.recovered
        && (s.loop.Off? ==> s'.loop.Off? && (s'.log.sent == s.log.sent ==> s'.ch == s.ch)))
    || (s.start == Feeding(rest) && rest != [] && Feeds(c, s, rest, s'))
    || (s.start == Fed(rest) && s'.start == Feeding(rest) && Skips(s, s'))
    || (s.start == Feeding([]) && s'.start == Running && s'.ch == s.ch && s'.log == s.log)
  }

  lemma StepMoves(c: Config, s: State, rest: seq<PendingEvent>, s': State)
    requires Pending(s, rest) && SteadyOf(c)(s, s')
    ensures Moves(c, s, rest, s')
  {
    var step: Step :| !step.Crash? && Apply(c, s, step) == Some(s');
    if step.StartStep? {
      StartFeeds(c, s, rest, step.st);
    } else {
      OthersWait(c, s, step, s');
    }
  }

  // ---- Every event of the list ------------------------------------------------------------

  ghost function FeedsOf(c: Config): (State, seq<PendingEvent>, State) -> bool {
    (s: State, rest: seq<PendingEvent>, s': State) => rest != [] && s.start == Feeding(rest) && Feeds(c, s, rest, s')
  }

  ghost function PendingOf(): (State, seq<PendingEvent>) -> bool {
    (s, rest) => Pending(s, rest)
  }

  /** A step leaves the pending events as they are, or deals with the first. */
  lemma StaysOrFeeds(c: Config, trace: seq<State>, i: nat, rest: seq<PendingEvent>)
    requires SteadyRunOf(c)(trace) && i < |trace| && trace[|trace| - 1].start.Running?
    requires PendingOf()(trace[i], rest) && rest != []
    ensures i + 1 < |trace|
    ensures PendingOf()(trace[i + 1], rest) || (FeedsOf(c)(trace[i], rest, trace[i + 1]) && PendingOf()(trace[i + 1], rest[1..]))
  {
    RunSteps(c, trace, i);
    StepMoves(c, trace[i], rest, trace[i + 1]);
  }

  /** The step that deals with the j-th of the events still pending. */
  lemma {:induction false} DealtWith(c: Config, trace: seq<State>, i: nat, rest: seq<PendingEvent>, j: nat) returns (t: nat)
    requires SteadyRunOf(c)(trace) && i < |trace| && trace[|trace| - 1].start.Running?
    requires PendingOf()(trace[i], rest) && j < |rest|
    ensures i <= t < |trace| - 1 && FeedsOf(c)(trace[t], rest[j..], trace[t + 1])
    decreases |trace| - i
  {
    StaysOrFeeds(c, trace, i, rest);
    if PendingOf()(trace[i + 1], rest) {
      t := DealtWith(c, trace, i + 1, rest, j);
    } else if j == 0 {
      t := i;
      assert rest[0..] == rest;
    } else {
      t := DealtWith(c, trace, i + 1, rest[1..], j - 1);
      assert rest[1..][j - 1..] == rest[j..];
    }
  }

  /** What was sent stays in the log. */
  lemma StepKeepsSent(c: Config, s: State, s': State, e: PendingEvent)
    requires SteadyOf(c)(s, s') && e in s.log.sent
    ensures e in s'.log.sent
  {
    var step: Step :| !step.Crash? && Apply(c, s, step) == Some(s');
    match step
    case NewCall(p, e) =>
    case CallStep(p, a) =>
      if s'.ch == s.ch { CallLeaves(c, s, p, a, s'); } else { CallSends(c, s, p, a, s'); }
    case StartStep(st) =>
    case LoopStep(l) =>
      if s.loop.Flushing? { FlushLeaves(c, s, l, s'); } else { SelectLeaves(c, s, l, s'); }
    case WriterStep(w) => WriterLeaves(s, w, s');
    case DownStep(d) => DownLeaves(s, d, s');
  }

  lemma {:induction false} SentStays(c: Config, trace: seq<State>, i: nat, n: nat, e: PendingEvent)
    requires SteadyRunOf(c)(trace) && i <= n < |trace| && e in trace[i].log.sent
    ensures e in trace[n].log.sent
  {
    if i < n {
      SentStays(c, trace, i, n - 1, e);
      RunSteps(c, trace, n - 1);
      StepKeepsSent(c, trace[n - 1], trace[n], e);
    }
  }

  /** In every run from the moment `Start` has read `list` until the flush loop is
      spawned, whatever producers do meanwhile: each event of the list is put at the
      end of the channel at some moment when there is room, or passed over at a
      moment when the channel holds MaxSize events. */
  lemma EveryEventSentOrFull(c: Config, trace: seq<State>, list: seq<PendingEvent>, j: nat) returns (t: nat)
    requires SteadyRunOf(c)(trace) && trace[|trace| - 1].start.Running?
    requires trace[0].start == Feeding(list) && j < |list|
    ensures t < |trace| - 1 && trace[t].start == Feeding(list[j..]) && !Pending(trace[t + 1], list[j..])
    ensures |trace[t].ch| < c.maxSize ==>
      && trace[t + 1].ch == trace[t].ch + [list[j]]
      && trace[t + 1].log.sent == trace[t].log.sent + [list[j]] && list[j] in trace[|trace| - 1].log.sent
    ensures |trace[t].ch| >= c.maxSize ==>
      trace[t + 1].ch == trace[t].ch && trace[t + 1].log.sent == trace[t].log.sent
  {
    t := DealtWith(c, trace, 0, list, j);
    var e := list[j..][0];
    if |trace[t].ch| < c.maxSize {
      assert trace[t + 1].log.sent[|trace[t].log.sent|] == e;
      SentStays(c, trace, t + 1, |trace| - 1, e);
    }
  }

  // ---- With nobody else sending -------------------------------------------------------------

  /** Only `Start` adds to what was sent. */
  ghost predicate Alone(trace: seq<State>) {
    forall t :: 0 <= t < |trace| - 1 && trace[t + 1].start == trace[t].start ==> trace[t + 1].log.sent == trace[t].log.sent
  }

  function FreeSlots(c: Config, s: State): nat {
    if |s.ch| <= c.maxSize then c.maxSize - |s.ch| else 0
  }

  /** From s0 on, the first m events of the list were sent and nothing else. */
  predicate SentFirst(s0: State, list: seq<PendingEvent>, m: nat, s: State) {
    && m <= |list| && s.ch == s0.ch + list[..m] && s.log.sent == s0.log.sent + list[..m]
    && s.log.recovered == s0.log.recovered + m
  }

  /** The first d events of the list are dealt with. */
  predicate Through(c: Config, s0: State, list: seq<PendingEvent>, d: nat, s: State) {
    d <= |list| && s.loop.Off? && Pending(s, list[d..]) && SentFirst(s0, list, Min(d, FreeSlots(c, s0)), s)
  }

  lemma FeedGoesOn(c: Config, s0: State, list: seq<PendingEvent>, d: nat, s: State, s': State)
    requires Through(c, s0, list, d, s) && d < |list| && Feeds(c, s, list[d..], s')
    ensures Through(c, s0, list, d + 1, s')
  {
    assert list[d..][1..] == list[d + 1..];
    assert list[..d + 1] == list[..d] + [list[d]];
  }

  /** One step: one event further, or not, or the loop is spawned. */
  lemma ThroughMoves(c: Config, s0: State, list: seq<PendingEvent>, d: nat, s: State, s': State) returns (d': nat)
    requires Through(c, s0, list, d, s) && SteadyOf(c)(s, s')
    requires s'.start == s.start ==> s'.log.sent == s.log.sent
    ensures s'.start.Running? ==> SentFirst(s0, list, Min(|list|, FreeSlots(c, s0)), s')
    ensures !s'.start.Running? ==> Through(c, s0, list, d', s')
  {
    StepMoves(c, s, list[d..], s');
    d' := d;
    if d < |list| && s.start == Feeding(list[d..]) && s'.start != s.start {
      FeedGoesOn(c, s0, list, d, s, s');
      d' := d + 1;
    }
  }

  lemma {:induction false} ThroughRun(c: Config, trace: seq<State>, list: seq<PendingEvent>, i: nat) returns (d: nat)
    requires SteadyRunOf(c)(trace) && Alone(trace) && trace[0].start == Feeding(list) && trace[0].loop.Off?
    requires i < |trace| && forall t :: 0 <= t <= i ==> !trace[t].start.Running?
    ensures Through(c, trace[0], list, d, trace[i])
  {
    if i == 0 {
      d := 0;
      assert list[0..] == list;
    } else {
      var d0 := ThroughRun(c, trace, list, i - 1);
      RunSteps(c, trace, i - 1);
      d := ThroughMoves(c, trace[0], list, d0, trace[i - 1], trace[i]);
    }
  }

  lemma LoopIsOff(c: Config, k: nat, s: State)
    requires Reaches(Init(), NextOf(c), k, s) && !s.start.Running?
    ensures s.loop.Off?
  {
    Depth.ReachableDepth(c, k, s);
    assert Depth.LoopAfterStart(s);
  }

  /** With nobody else sending, the events sent by the time the loop is spawned are
      the first of the list, as many as there are free slots, in order, behind what
      was in the channel; nobody has received one. */
  lemma FirstOnesSent(c: Config, k: nat, trace: seq<State>, list: seq<PendingEvent>)
    requires SteadyRunOf(c)(trace) && Reaches(Init(), NextOf(c), k, trace[0])
    requires Alone(trace) && trace[0].start == Feeding(list)
    requires trace[|trace| - 1].start.Running? && forall t :: 0 <= t < |trace| - 1 ==> !trace[t].start.Running?
    ensures var first, last := trace[0], trace[|trace| - 1];
      var m := Min(|list|, FreeSlots(c, first));
      && last.ch == first.ch + list[..m] && last.log.sent == first.log.sent + list[..m]
      && last.log.recovered == first.log.recovered + m
  {
    LoopIsOff(c, k, trace[0]);
    var n := |trace| - 2;
    var d := ThroughRun(c, trace, list, n);
    RunSteps(c, trace, n);
    var _ := ThroughMoves(c, trace[0], list, d, trace[n], trace[n + 1]);
  }

  /** So a list that fits is sent whole. */
  lemma FittingListIsSent(c: Config, k: nat, trace: seq<State>, list: seq<PendingEvent>)
    requires SteadyRunOf(c)(trace) && Reaches(Init(), NextOf(c), k, trace[0])
    requires Alone(trace) && trace[0].start == Feeding(list)
    requires trace[|trace| - 1].start.Running? && forall t :: 0 <= t < |trace| - 1 ==> !trace[t].start.Running?
    requires |trace[0].ch| + |list| <= c.maxSize
    ensures trace[|trace| - 1].ch == trace[0].ch + list
    ensures trace[|trace| - 1].log.sent == trace[0].log.sent + list
  {
    FirstOnesSent(c, k, trace, list);
    assert list[..|list|] == list;
  }

  // ---- What Start reads -----------------------------------------------------------------------

  /** `Start` goes on with a list exactly when it is empty and there is no
      write-ahead store, or when that is open and the list has entries of the
      bucket, none twice. */
  lemma ReadsBucketIff(c: Config, s: State, list: seq<PendingEvent>)
    requires s.start.Recovering?
    ensures (exists s' :: SteadyOf(c)(s, s') && s'.start == Feeding(list))
      <==> if !c.persistent then list == [] else
        && !s.closed
        && (forall e :: e in list ==> e.eventID in s.disk.bolt && s.disk.bolt[e.eventID] == e)
        && (forall i, j :: 0 <= i < j < |list| ==> list[i].eventID != list[j].eventID)
  {
    if exists s' :: SteadyOf(c)(s, s') && s'.start == Feeding(list) {
      var s' :| SteadyOf(c)(s, s') && s'.start == Feeding(list);
      var step: Step :| !step.Crash? && Apply(c, s, step) == Some(s');
      if !step.StartStep? {
        OthersWait(c, s, step, s');
      }
    }
    if if c.persistent then !s.closed && Lists(list, s.disk.bolt) else list == [] {
      var s' := s.(start := Feeding(list));
      assert Apply(c, s, StartStep(Recover(list))) == Some(s');
      assert Steady(c, s, s');
      assert SteadyOf(c)(s, s');
    }
  }
}
