/** Runs of a transition system and the induction over them. */
module Machines {

  /** Some run of k steps leads from `init` to s. */
  ghost predicate Reaches<S(!new)>(init: S, next: (S, S) -> bool, k: nat, s: S) {
    if k == 0 then s == init
    else exists p :: Reaches(init, next, k - 1, p) && next(p, s)
  }

  /** What holds at the start and survives every step holds in every state of
      every run. */
  lemma {:induction false} Invariance<S(!new)>(init: S, next: (S, S) -> bool, inv: S -> bool, k: nat, s: S)
    requires inv(init)
    requires forall p, q :: inv(p) && next(p, q) ==> inv(q)
    requires Reaches(init, next, k, s)
    ensures inv(s)
  {
    if k > 0 {
      var p :| Reaches(init, next, k - 1, p) && next(p, s);
      Invariance(init, next, inv, k - 1, p);
    }
  }

  lemma Extend<S(!new)>(init: S, next: (S, S) -> bool, k: nat, p: S, s: S)
    requires Reaches(init, next, k, p) && next(p, s)
    ensures Reaches(init, next, k + 1, s)
  {
  }

  lemma LastStep<S(!new)>(init: S, next: (S, S) -> bool, k: nat, s: S) returns (p: S)
    requires k > 0 && Reaches(init, next, k, s)
    ensures Reaches(init, next, k - 1, p) && next(p, s)
  {
    p :| Reaches(init, next, k - 1, p) && next(p, s);
  }

  /** More steps allow more runs. */
  lemma {:induction false} Widen<S(!new)>(init: S, few: (S, S) -> bool, many: (S, S) -> bool, k: nat, s: S)
    requires forall p, q :: few(p, q) ==> many(p, q)
    requires Reaches(init, few, k, s)
    ensures Reaches(init, many, k, s)
  {
    if k > 0 {
      var p := LastStep(init, few, k, s);
      Widen(init, few, many, k - 1, p);
      Extend(init, many, k - 1, p, s);
    }
  }

  /** Runs compose. */
  lemma {:induction false} Compose<S(!new)>(init: S, next: (S, S) -> bool, k: nat, m: S, l: nat, s: S)
    requires Reaches(init, next, k, m) && Reaches(m, next, l, s)
    ensures Reaches(init, next, k + l, s)
  {
    if l > 0 {
      var p :| Reaches(m, next, l - 1, p) && next(p, s);
      Compose(init, next, k, m, l - 1, p);
      Extend(init, next, k + l - 1, p, s);
    }
  }

  ghost predicate StepsAt<S(!new)>(next: (S, S) -> bool, trace: seq<S>, t: nat) {
    t + 1 < |trace| && next(trace[t], trace[t + 1])
  }

  /** A run written out: the states it goes through, from the start on. */
  ghost predicate IsTrace<S(!new)>(init: S, next: (S, S) -> bool, trace: seq<S>) {
    && |trace| > 0 && trace[0] == init
    && forall t: nat :: t < |trace| - 1 ==> StepsAt(next, trace, t)
  }

  lemma TraceStep<S(!new)>(init: S, next: (S, S) -> bool, trace: seq<S>, t: nat)
    requires IsTrace(init, next, trace) && t + 1 < |trace|
    ensures next(trace[t], trace[t + 1])
  {
    assert StepsAt(next, trace, t);
  }

  lemma {:induction false} TraceReaches<S(!new)>(init: S, next: (S, S) -> bool, trace: seq<S>, t: nat)
    requires IsTrace(init, next, trace) && t < |trace|
    ensures Reaches(init, next, t, trace[t])
  {
    if t > 0 {
      TraceReaches(init, next, trace, t - 1);
      TraceStep(init, next, trace, t - 1);
      Extend(init, next, t - 1, trace[t - 1], trace[t]);
    }
  }

  /** What a step cannot end stays. */
  lemma {:induction false} Stays<S(!new)>(init: S, next: (S, S) -> bool, trace: seq<S>, q: S -> bool, i: nat, j: nat)
    requires IsTrace(init, next, trace) && i <= j < |trace| && q(trace[i])
    requires forall t :: i <= t < j && q(trace[t]) ==> q(trace[t + 1])
    ensures q(trace[j])
  {
    if i < j {
      Stays(init, next, trace, q, i, j - 1);
    }
  }
}
