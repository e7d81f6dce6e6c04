/** The two views of `WithRetry`: the loop with its backoff delays, and the small
    steps that `BatchRetry` interleaves. What one can do the other can. */
module RetryTraces {
  import opened Events
  import opened Retry
  import R = BatchRetrying

  /** A small step, and whether the context was cancelled when it was taken. */
  datatype Tick = Tick(cancelled: bool, m: R.Move)

  /** A call in progress, and how many waits it has begun. */
  datatype Progress = Progress(t: R.Try, waits: nat)

  function Go(max: int, p: Progress, tick: Tick): Option<Progress> {
    var t' := R.Advance(max, tick.cancelled, p.t, tick.m);
    if t'.None? then None else Some(Progress(t'.value, if t'.value.Wait? then p.waits + 1 else p.waits))
  }

  /** Where the steps lead from the start of the call. */
  function Trace(max: int, ts: seq<Tick>): Option<Progress> {
    if |ts| == 0 then Some(Progress(R.Loop(0), 0))
    else
      var p := Trace(max, ts[..|ts| - 1]);
      if p.None? then None else Go(max, p.value, ts[|ts| - 1])
  }

  lemma TraceSnoc(max: int, ts: seq<Tick>, tick: Tick)
    ensures var p := Trace(max, ts);
      Trace(max, ts + [tick]) == if p.None? then None else Go(max, p.value, tick)
  {
    assert (ts + [tick])[..|ts|] == ts;
  }

  predicate Final(t: R.Try) {
    t.Won? || t.Lost?
  }

  /** The waits begun by the time the call is at t. */
  function WaitsAt(max: int, t: R.Try): nat {
    match t
    case Loop(k) => if k < max then k else Max(0, k - 1)
    case Wait(k) => k
    case _ => Max(0, t.k - 1)
  }

  ghost predicate Underway(max: int, p: Progress) {
    && p.t.k <= Max(0, max) && (!p.t.Loop? ==> p.t.k > 0) && (p.t.Wait? ==> p.t.k < max)
    && p.waits == WaitsAt(max, p.t)
  }

  lemma {:induction false} TraceInv(max: int, ts: seq<Tick>)
    requires Trace(max, ts).Some? && !Final(Trace(max, ts).value.t)
    ensures Underway(max, Trace(max, ts).value)
  {
    if |ts| > 0 {
      TraceInv(max, ts[..|ts| - 1]);
    }
  }

  /** All attempts but the last fail without a cancellation. */
  function Env(k: nat, last: Attempt): nat -> Attempt {
    i => if i + 1 == k then last else Attempt(false, false, false)
  }

  /** What the last step of a complete trace says about the loop. */
  function LastAttempt(p: Progress, m: R.Move): Attempt {
    if m.CallOk? then Attempt(true, false, false)
    else if m.GiveUp? then Attempt(false, false, false)
    else if p.t.Check? then Attempt(false, true, false)
    else Attempt(false, false, true)
  }

  function ResultOf(max: int, p: Progress, m: R.Move, k: nat): Result {
    if m.CallOk? then Result(true, k, None)
    else if m.GiveUp? then Result(false, max, Some(MaxRetriesExceeded))
    else if p.t.Check? then Result(false, k, Some(Cancelled))
    else Result(false, k, Some(CancelledInBackoff))
  }

  lemma LastTick(c: Config, p: Progress, tick: Tick)
    requires Underway(c.maxAttempts, p) && !Final(p.t)
    requires var q := Go(c.maxAttempts, p, tick); q.Some? && Final(q.value.t)
    ensures var q := Go(c.maxAttempts, p, tick).value;
      var r := ResultOf(c.maxAttempts, p, tick.m, q.t.k);
      && RetryOutcome(c, Env(q.t.k, LastAttempt(p, tick.m)), r, q.t.k, Delays(c, q.waits))
      && (r.success <==> q.t.Won?)
  {
  }

  /** Every complete trace is an outcome of the loop in some environment: the
      same number of calls, the same success, and as many waits. */
  lemma TraceIsOutcome(c: Config, ts: seq<Tick>) returns (env: nat -> Attempt, r: Result, waits: seq<int>)
    requires Trace(c.maxAttempts, ts).Some? && Final(Trace(c.maxAttempts, ts).value.t)
    ensures var q := Trace(c.maxAttempts, ts).value;
      RetryOutcome(c, env, r, q.t.k, waits) && (r.success <==> q.t.Won?) && |waits| == q.waits
  {
    var p, tick := Trace(c.maxAttempts, ts[..|ts| - 1]).value, ts[|ts| - 1];
    TraceInv(c.maxAttempts, ts[..|ts| - 1]);
    LastTick(c, p, tick);
    var q := Trace(c.maxAttempts, ts).value;
    env, r, waits := Env(q.t.k, LastAttempt(p, tick.m)), ResultOf(c.maxAttempts, p, tick.m, q.t.k), Delays(c, q.waits);
  }

  // ---- The other way -------------------------------------------------------------

  const FAIL := Tick(false, R.CallFail)
  const GO_ON := Tick(false, R.GoOn)
  const FIRE := Tick(false, R.TimerFires)

  /** k failed attempts and the waits after them, up to the next test of the loop
      condition; no wait follows the last attempt allowed. */
  function Failing(max: int, k: nat): seq<Tick> {
    if k == 0 then []
    else Failing(max, k - 1) + Round(max, k)
  }

  lemma FailsOnce(max: int, a: seq<Tick>, k: nat)
    requires k < max && Trace(max, a) == Some(Progress(R.Loop(k), k))
    ensures Trace(max, a + [FAIL]) == Some(Progress(R.Check(k + 1), k))
    ensures Trace(max, a + [FAIL] + [GO_ON]) == Some(if k + 1 < max then Progress(R.Wait(k + 1), k + 1) else Progress(R.Loop(k + 1), k))
  {
    TraceSnoc(max, a, FAIL);
    TraceSnoc(max, a + [FAIL], GO_ON);
  }

  function Round(max: int, k: nat): seq<Tick> {
    [FAIL] + [GO_ON] + (if k < max then [FIRE] else [])
  }

  lemma RoundLeads(max: int, a: seq<Tick>, k: nat)
    requires k < max && Trace(max, a) == Some(Progress(R.Loop(k), k))
    ensures Trace(max, a + Round(max, k + 1)) == Some(Progress(R.Loop(k + 1), WaitsAt(max, R.Loop(k + 1))))
  {
    var b := a + [FAIL] + [GO_ON];
    FailsOnce(max, a, k);
    if k + 1 < max {
      assert a + Round(max, k + 1) == b + [FIRE];
      TraceSnoc(max, b, FIRE);
    } else {
      assert a + Round(max, k + 1) == b;
    }
  }

  lemma {:induction false} FailingLeads(max: int, k: nat)
    requires k <= Max(0, max)
    ensures Trace(max, Failing(max, k)) == Some(Progress(R.Loop(k), WaitsAt(max, R.Loop(k))))
  {
    if k > 0 {
      FailingLeads(max, k - 1);
      RoundLeads(max, Failing(max, k - 1), k - 1);
    }
  }

  /** Where an outcome stands in the small steps. */
  function EndOf(calls: nat, success: bool): R.Try {
    if success then R.Won(calls) else R.Lost(calls)
  }

  /** The trace of an outcome. */
  function Ticks(max: int, calls: nat, r: Result): seq<Tick> {
    if r.success then Failing(max, Max(0, calls - 1)) + [Tick(false, R.CallOk)]
    else if r.err == Some(MaxRetriesExceeded) then Failing(max, calls) + [Tick(false, R.GiveUp)]
    else if r.err == Some(Cancelled) then Failing(max, Max(0, calls - 1)) + [FAIL] + [Tick(true, R.SeeCancel)]
    else Failing(max, Max(0, calls - 1)) + [FAIL] + [GO_ON] + [Tick(true, R.SeeCancel)]
  }

  lemma EndsWell(max: int, k: nat)
    requires k < max
    ensures Trace(max, Failing(max, k) + [Tick(false, R.CallOk)]) == Some(Progress(R.Won(k + 1), k))
  {
    FailingLeads(max, k);
    TraceSnoc(max, Failing(max, k), Tick(false, R.CallOk));
  }

  lemma EndsGivingUp(max: int)
    ensures var k := Max(0, max);
      Trace(max, Failing(max, k) + [Tick(false, R.GiveUp)]) == Some(Progress(R.Lost(k), Max(0, k - 1)))
  {
    FailingLeads(max, Max(0, max));
    TraceSnoc(max, Failing(max, Max(0, max)), Tick(false, R.GiveUp));
  }

  lemma EndsCancelled(max: int, k: nat)
    requires k < max
    ensures Trace(max, Failing(max, k) + [FAIL] + [Tick(true, R.SeeCancel)]) == Some(Progress(R.Lost(k + 1), k))
  {
    FailingLeads(max, k);
    FailsOnce(max, Failing(max, k), k);
    TraceSnoc(max, Failing(max, k) + [FAIL], Tick(true, R.SeeCancel));
  }

  lemma EndsInBackoff(max: int, k: nat)
    requires k + 1 < max
    ensures Trace(max, Failing(max, k) + [FAIL] + [GO_ON] + [Tick(true, R.SeeCancel)]) == Some(Progress(R.Lost(k + 1), k + 1))
  {
    FailingLeads(max, k);
    FailsOnce(max, Failing(max, k), k);
    TraceSnoc(max, Failing(max, k) + [FAIL] + [GO_ON], Tick(true, R.SeeCancel));
  }

  /** Every outcome of the loop, in every environment, is a trace of small steps
      with the same number of calls and waits and the same success. */
  lemma OutcomeIsTrace(c: Config, env: nat -> Attempt, r: Result, calls: nat, waits: seq<int>)
    requires RetryOutcome(c, env, r, calls, waits)
    ensures Trace(c.maxAttempts, Ticks(c.maxAttempts, calls, r)) == Some(Progress(EndOf(calls, r.success), |waits|))
  {
    if r.success {
      EndsWell(c.maxAttempts, calls - 1);
    } else if r.err == Some(MaxRetriesExceeded) {
      EndsGivingUp(c.maxAttempts);
    } else if r.err == Some(Cancelled) {
      EndsCancelled(c.maxAttempts, calls - 1);
    } else {
      EndsInBackoff(c.maxAttempts, calls - 1);
    }
  }
}
