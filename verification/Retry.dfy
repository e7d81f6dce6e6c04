/** `WithRetry`: bounded attempts with exponential backoff.

    What the environment decides (whether a call succeeds, whether the context
    is found cancelled after it or while waiting) is given per attempt, so a
    statement about all of these functions is one about every failure pattern
    and every cancellation point. */
module Retry {
  import opened Events

  datatype Config = Config(maxAttempts: int, baseDelay: int, maxDelay: int, multiplier: real)

  /** How attempt number i goes. */
  datatype Attempt = Attempt(succeeds: bool, cancelledAfterCall: bool, cancelledInWait: bool)

  datatype Error = Cancelled | CancelledInBackoff | MaxRetriesExceeded
  datatype Result = Result(success: bool, attempts: int, err: Option<Error>)

  /** Conversion of a real to a duration: towards zero. */
  function Truncate(x: real): (n: int)
    ensures x >= 0.0 ==> n as real <= x < n as real + 1.0
    ensures x <= 0.0 ==> n as real - 1.0 < x <= n as real
  {
    if x >= 0.0 then x.Floor else -((-x).Floor)
  }

  function NextDelay(c: Config, delay: int): int {
    var grown := delay as real * c.multiplier;
    var cap := c.maxDelay as real;
    Truncate(if grown <= cap then grown else cap)
  }

  /** The wait after the k-th failure, counting from 0. */
  function Delay(c: Config, k: nat): int {
    if k == 0 then c.baseDelay else NextDelay(c, Delay(c, k - 1))
  }

  lemma LongestBelow(grown: real, cap: int, d: int)
    requires 0.0 <= grown && 0 <= cap
    ensures d <= Truncate(if grown <= cap as real then grown else cap as real) <==> d as real <= grown && d <= cap
  {
  }

  /** For every multiplier: the wait after one of `delay` is the longest whole
      duration that exceeds neither the multiplied one nor MaxDelay. */
  lemma NextWait(c: Config, delay: int, d: int)
    requires 0.0 <= delay as real * c.multiplier && 0 <= c.maxDelay
    ensures d <= NextDelay(c, delay) <==> d as real <= delay as real * c.multiplier && d <= c.maxDelay
  {
    LongestBelow(delay as real * c.multiplier, c.maxDelay, d);
  }

  function Delays(c: Config, n: nat): seq<int> {
    seq(n, k requires 0 <= k => Delay(c, k))
  }

  /** Attempt i failed and neither cancellation check fired after it. */
  predicate Continues(a: Attempt) {
    !a.succeeds && !a.cancelledAfterCall && !a.cancelledInWait
  }

  /** What `calls` calls of the function, the result and the waits begun must
      look like. Nothing here mentions the loop: it says the function is tried
      until the first success, the first cancellation or the attempt limit. */
  ghost predicate RetryOutcome(c: Config, env: nat -> Attempt, r: Result, calls: nat, waits: seq<int>) {
    && calls == Max(0, r.attempts)
    && (c.maxAttempts >= 0 ==> r.attempts == calls)
    && calls <= Max(0, c.maxAttempts)
    && (calls == 0 <==> c.maxAttempts <= 0)
    && (forall i :: 0 <= i < calls - 1 ==> Continues(env(i)))
    && (r.success <==> calls > 0 && env(calls - 1).succeeds)
    && (r.success <==> r.err.None?)
    && (!r.success && calls > 0 && env(calls - 1).cancelledAfterCall ==> r.err == Some(Cancelled))
    && (!r.success && calls > 0 && !env(calls - 1).cancelledAfterCall && calls < c.maxAttempts ==>
          env(calls - 1).cancelledInWait && r.err == Some(CancelledInBackoff))
    && (!r.success && (calls == 0 || !env(calls - 1).cancelledAfterCall) && calls >= c.maxAttempts ==>
          r.err == Some(MaxRetriesExceeded) && r.attempts == c.maxAttempts)
    && waits == Delays(c, if r.err == Some(CancelledInBackoff) then calls else Max(0, calls - 1))
  }

  /** The retry loop. `calls` counts invocations of the function and `waits`
      lists the backoff periods begun, in order. */
  method WithRetry(c: Config, env: nat -> Attempt) returns (r: Result, calls: nat, waits: seq<int>)
    ensures RetryOutcome(c, env, r, calls, waits)
  {
    var delay := c.baseDelay;
    calls, waits := 0, [];
    var attempt := 0;
    while attempt < c.maxAttempts
      invariant 0 <= attempt <= Max(0, c.maxAttempts)
      invariant calls == attempt
      invariant forall i :: 0 <= i < attempt - 1 ==> Continues(env(i))
      invariant 0 < attempt ==> !env(attempt - 1).succeeds && !env(attempt - 1).cancelledAfterCall
      invariant 0 < attempt < c.maxAttempts ==> Continues(env(attempt - 1))
      invariant waits == Delays(c, if attempt < c.maxAttempts then attempt else Max(0, attempt - 1))
      invariant attempt < c.maxAttempts ==> delay == Delay(c, attempt)
    {
      calls := calls + 1;
      if env(attempt).succeeds {
        return Result(true, attempt + 1, None), calls, waits;
      }
      if env(attempt).cancelledAfterCall {
        return Result(false, attempt + 1, Some(Cancelled)), calls, waits;
      }
      if attempt < c.maxAttempts - 1 {
        waits := waits + [delay];
        if env(attempt).cancelledInWait {
          return Result(false, attempt + 1, Some(CancelledInBackoff)), calls, waits;
        }
        delay := NextDelay(c, delay);
      }
      attempt := attempt + 1;
    }
    r := Result(false, c.maxAttempts, Some(MaxRetriesExceeded));
  }

  /** The outcome is determined: no two behaviours meet the specification. */
  lemma OutcomeUnique(c: Config, env: nat -> Attempt,
                      r: Result, calls: nat, waits: seq<int>,
                      r': Result, calls': nat, waits': seq<int>)
    requires RetryOutcome(c, env, r, calls, waits)
    requires RetryOutcome(c, env, r', calls', waits')
    ensures r == r' && calls == calls' && waits == waits'
  {
    var last, last' := env(Max(0, calls - 1)), env(Max(0, calls' - 1));
    assert 0 < calls < calls' ==> Continues(last);
    assert 0 < calls' < calls ==> Continues(last');
  }

  function Pow(m: nat, k: nat): nat {
    if k == 0 then 1 else m * Pow(m, k - 1)
  }

  lemma {:induction false} MulReal(x: nat, m: nat)
    ensures x as real * m as real == (x * m) as real
  {
    if m > 0 {
      MulReal(x, m - 1);
      assert x as real * m as real == x as real * (m - 1) as real + x as real;
      assert x * m == x * (m - 1) + x;
    }
  }

  /** With an integer multiplier m >= 1 the k-th wait is min(base * m^k, max). */
  lemma {:induction false} DelayClosedForm(c: Config, m: nat, k: nat)
    requires m >= 1 && c.multiplier == m as real
    requires 0 <= c.baseDelay <= c.maxDelay
    ensures Delay(c, k) == Min(c.baseDelay * Pow(m, k), c.maxDelay)
  {
    if k > 0 {
      DelayClosedForm(c, m, k - 1);
      var p := c.baseDelay * Pow(m, k - 1);
      NextDelayInt(c, m, Delay(c, k - 1));
      CapGrowth(p, m, c.maxDelay);
      assert c.baseDelay * Pow(m, k) == p * m by {
        MulAssoc(c.baseDelay, Pow(m, k - 1), m);
      }
    }
  }

  lemma MulAssoc(x: nat, y: nat, m: nat)
    ensures x * (m * y) == (x * y) * m
  {
  }

  lemma NextDelayInt(c: Config, m: nat, d: nat)
    requires c.multiplier == m as real && c.maxDelay >= 0
    ensures NextDelay(c, d) == Min(d * m, c.maxDelay)
  {
    MulReal(d, m);
    var n := d * m;
    assert d as real * c.multiplier == n as real;
    assert (n as real).Floor == n;
  }

  /** Capping before growing by m makes no difference once the cap applies after. */
  lemma CapGrowth(p: nat, m: nat, cap: nat)
    requires m >= 1
    ensures Min(Min(p, cap) * m, cap) == Min(p * m, cap)
  {
    MulAtLeast(p, m);
    MulAtLeast(cap, m);
  }

  lemma MulAtLeast(x: nat, m: nat)
    requires m >= 1
    ensures x * m >= x
  {
    assert x * m == x * (m - 1) + x;
  }

  /** With any real multiplier of at least 1 the waits never decrease and never
      pass the cap. */
  lemma {:induction false} DelaysNeverDecrease(c: Config, k: nat)
    requires c.multiplier >= 1.0
    requires 0 <= c.baseDelay <= c.maxDelay
    ensures 0 <= Delay(c, k) <= Delay(c, k + 1) <= c.maxDelay
  {
    if k > 0 {
      DelaysNeverDecrease(c, k - 1);
    }
    NextDelayGrows(c, Delay(c, k));
  }

  lemma NextDelayGrows(c: Config, d: int)
    requires c.multiplier >= 1.0 && 0 <= d <= c.maxDelay
    ensures d <= NextDelay(c, d) <= c.maxDelay
  {
    var grown := d as real * c.multiplier;
    assert grown >= d as real by { GrowsBy(d as real, c.multiplier); }
    FloorAtLeast(grown, d);
  }

  lemma FloorAtLeast(x: real, d: int)
    requires x >= d as real
    ensures x.Floor >= d
  {
  }

  lemma GrowsBy(x: real, m: real)
    requires x >= 0.0 && m >= 1.0
    ensures x * m >= x
  {
    assert x * (m - 1.0) >= 0.0;
    assert x * m == x * (m - 1.0) + x;
  }

  function Sum(s: seq<int>): int {
    if |s| == 0 then 0 else s[0] + Sum(s[1..])
  }

  lemma {:induction false} SumBound(s: seq<int>, cap: nat)
    requires forall x :: x in s ==> x <= cap
    ensures Sum(s) <= |s| * cap
  {
    if |s| > 0 {
      var rest := s[1..];
      assert forall x :: x in rest ==> x in s;
      SumBound(rest, cap);
      assert s[0] in s;
      MulSnoc(|rest|, cap);
    }
  }

  lemma MulSnoc(n: nat, cap: nat)
    ensures (n + 1) * cap == n * cap + cap
  {
  }

  lemma MulMono(n: nat, n': nat, cap: nat)
    requires n <= n'
    ensures n * cap <= n' * cap
  {
    assert n' * cap == n * cap + (n' - n) * cap;
  }

  /** However a run goes, it waits at most (maxAttempts - 1) * maxDelay. */
  lemma TotalWaitBound(c: Config, env: nat -> Attempt, r: Result, calls: nat, waits: seq<int>)
    requires RetryOutcome(c, env, r, calls, waits)
    requires c.maxAttempts >= 1 && c.multiplier >= 1.0
    requires 0 <= c.baseDelay <= c.maxDelay
    ensures Sum(waits) <= (c.maxAttempts - 1) * c.maxDelay
  {
    forall x | x in waits ensures x <= c.maxDelay {
      var k :| 0 <= k < |waits| && waits[k] == x;
      DelaysNeverDecrease(c, k);
    }
    SumBound(waits, c.maxDelay);
    MulMono(|waits|, c.maxAttempts - 1, c.maxDelay);
  }
}
