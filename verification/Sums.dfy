/** Sums over sequences, and sequences compared as multisets. */
module Sums {

  function SumBy<T>(s: seq<T>, f: T -> nat): nat {
    if |s| == 0 then 0 else f(s[0]) + SumBy(s[1..], f)
  }

  lemma {:induction false} SumByUpdate<T>(s: seq<T>, f: T -> nat, i: nat, x: T)
    requires i < |s|
    ensures SumBy(s[i := x], f) == SumBy(s, f) - f(s[i]) + f(x)
  {
    var u := s[i := x];
    if i == 0 {
      assert u[1..] == s[1..];
    } else {
      assert u[1..] == s[1..][i - 1 := x];
      SumByUpdate(s[1..], f, i - 1, x);
    }
  }

  lemma {:induction false} SumByBound<T>(s: seq<T>, f: T -> nat, cap: nat)
    requires forall x :: x in s ==> f(x) <= cap
    ensures SumBy(s, f) <= cap * |s|
  {
    if |s| > 0 {
      var rest := s[1..];
      assert forall x :: x in rest ==> x in s;
      SumByBound(rest, f, cap);
      assert f(s[0]) <= cap;
      assert cap * (|rest| + 1) == cap * |rest| + cap;
    }
  }

  predicate AllBelow(idx: seq<nat>, n: nat) {
    forall k :: 0 <= k < |idx| ==> idx[k] < n
  }

  /** The elements of `s` at the positions `idx`, in that order. */
  function Pick<T>(s: seq<T>, idx: seq<nat>): (r: seq<T>)
    requires AllBelow(idx, |s|)
    ensures |r| == |idx|
  {
    seq(|idx|, k requires 0 <= k < |idx| => s[idx[k]])
  }

  lemma PickSnoc<T>(s: seq<T>, idx: seq<nat>, i: nat)
    requires AllBelow(idx + [i], |s|)
    ensures i < |s| && AllBelow(idx, |s|)
    ensures Pick(s, idx + [i]) == Pick(s, idx) + [s[i]]
  {
    var all := idx + [i];
    assert all[|idx|] == i;
    assert forall k :: 0 <= k < |idx| ==> all[k] == idx[k];
  }

  function Indices(n: nat): (r: seq<nat>)
    ensures |r| == n && forall i :: 0 <= i < n ==> r[i] == i
  {
    seq(n, i requires 0 <= i => i)
  }

  lemma {:induction false} IndicesOnce(n: nat, i: nat)
    requires i < n
    ensures multiset(Indices(n))[i] == 1
  {
    var s := Indices(n);
    assert s == s[..i] + [i] + s[i + 1..];
    assert i !in s[..i] && i !in s[i + 1..];
  }

  lemma PickSplit<T>(s: seq<T>, a: seq<nat>, b: seq<nat>)
    requires AllBelow(a, |s|)
    requires AllBelow(b, |s|)
    ensures AllBelow(a + b, |s|)
    ensures Pick(s, a + b) == Pick(s, a) + Pick(s, b)
  {
  }

  function Without<T>(s: seq<T>, j: nat): seq<T>
    requires j < |s|
  {
    s[..j] + s[j + 1..]
  }

  /** Taking one occurrence out of the middle of an index sequence. */
  lemma PickWithout<T>(s: seq<T>, b: seq<nat>, j: nat)
    requires j < |b| && AllBelow(b, |s|)
    ensures b[j] < |s| && AllBelow(Without(b, j), |s|)
    ensures multiset(Without(b, j)) == multiset(b) - multiset{b[j]}
    ensures multiset(Pick(s, b)) == multiset(Pick(s, Without(b, j))) + multiset{s[b[j]]}
  {
    var l, r := b[..j], b[j + 1..];
    assert b == l + [b[j]] + r;
    PickSplit(s, l, r);
    var p := Pick(s, b);
    assert p == Pick(s, l) + [s[b[j]]] + Pick(s, r);
  }

  /** Two index sequences that agree as multisets pick the same elements,
      counted with multiplicity. */
  lemma {:induction false} PickPermutation<T>(s: seq<T>, a: seq<nat>, b: seq<nat>)
    requires multiset(a) == multiset(b)
    requires AllBelow(a, |s|)
    requires AllBelow(b, |s|)
    ensures multiset(Pick(s, a)) == multiset(Pick(s, b))
    decreases |a|
  {
    if |a| == 0 {
      assert |multiset(b)| == 0;
      assert b == [];
    } else {
      assert a[0] in multiset(b);
      var j :| 0 <= j < |b| && b[j] == a[0];
      PickWithout(s, a, 0);
      PickWithout(s, b, j);
      var a', b' := Without(a, 0), Without(b, j);
      PickPermutation(s, a', b');
    }
  }

  /** Index sequences that together run through every position once pick every
      element once. */
  lemma PickAll<T>(s: seq<T>, a: seq<nat>, b: seq<nat>)
    requires multiset(a + b) == multiset(Indices(|s|))
    requires AllBelow(a, |s|)
    requires AllBelow(b, |s|)
    ensures multiset(Pick(s, a)) + multiset(Pick(s, b)) == multiset(s)
  {
    PickSplit(s, a, b);
    PickPermutation(s, a + b, Indices(|s|));
    assert Pick(s, Indices(|s|)) == s;
  }
}
