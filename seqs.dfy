/** Sequence helpers shared by the orchestrator and the noise-precision node. */
module Seqs {

  /** Sum of a sequence of reals, accumulated front to back as a running total is. */
  function Sum(s: seq<real>): real
  {
    if |s| == 0 then 0.0 else Sum(s[..|s| - 1]) + s[|s| - 1]
  }

  /** Elementwise sum and difference of two vectors of the same length. */
  function Plus(a: seq<real>, b: seq<real>): (r: seq<real>)
    requires |a| == |b|
    ensures |r| == |a| && forall i :: 0 <= i < |a| ==> r[i] == a[i] + b[i]
  {
    seq(|a|, i requires 0 <= i < |a| => a[i] + b[i])
  }

  function Minus(a: seq<real>, b: seq<real>): (r: seq<real>)
    requires |a| == |b|
    ensures |r| == |a| && forall i :: 0 <= i < |a| ==> r[i] == a[i] - b[i]
  {
    seq(|a|, i requires 0 <= i < |a| => a[i] - b[i])
  }

  function Scale(c: real, a: seq<real>): (r: seq<real>)
    ensures |r| == |a| && forall i :: 0 <= i < |a| ==> r[i] == c * a[i]
  {
    seq(|a|, i requires 0 <= i < |a| => c * a[i])
  }

  /** Elementwise product of two vectors of the same length. */
  function Times(a: seq<real>, b: seq<real>): (r: seq<real>)
    requires |a| == |b|
    ensures |r| == |a| && forall i :: 0 <= i < |a| ==> r[i] == a[i] * b[i]
  {
    seq(|a|, i requires 0 <= i < |a| => a[i] * b[i])
  }

  /** A constant added to every element. */
  function Offset(c: real, a: seq<real>): (r: seq<real>)
    ensures |r| == |a| && forall i :: 0 <= i < |a| ==> r[i] == a[i] + c
  {
    seq(|a|, i requires 0 <= i < |a| => a[i] + c)
  }

  /** A function applied to every element. */
  function Apply(f: real -> real, a: seq<real>): (r: seq<real>)
    ensures |r| == |a| && forall i :: 0 <= i < |a| ==> r[i] == f(a[i])
  {
    seq(|a|, i requires 0 <= i < |a| => f(a[i]))
  }

  /** Sum distributes over elementwise addition. */
  lemma {:induction false} SumPlus(a: seq<real>, b: seq<real>)
    requires |a| == |b|
    ensures Sum(Plus(a, b)) == Sum(a) + Sum(b)
  {
    if |a| > 0 {
      var n := |a| - 1;
      assert Plus(a, b)[..n] == Plus(a[..n], b[..n]);
      SumPlus(a[..n], b[..n]);
    }
  }

  /** Sum distributes over elementwise subtraction. */
  lemma {:induction false} SumMinus(a: seq<real>, b: seq<real>)
    requires |a| == |b|
    ensures Sum(Minus(a, b)) == Sum(a) - Sum(b)
  {
    if |a| > 0 {
      var n := |a| - 1;
      assert Minus(a, b)[..n] == Minus(a[..n], b[..n]);
      SumMinus(a[..n], b[..n]);
    }
  }

  /** A constant factor comes out of a sum. */
  lemma {:induction false} SumScale(c: real, a: seq<real>)
    ensures Sum(Scale(c, a)) == c * Sum(a)
  {
    if |a| > 0 {
      var n := |a| - 1;
      var sa := Scale(c, a);
      forall i | 0 <= i < n
        ensures sa[..n][i] == Scale(c, a[..n])[i]
      {
        assert a[..n][i] == a[i];
      }
      assert sa[..n] == Scale(c, a[..n]);
      SumScale(c, a[..n]);
      var t := Sum(a[..n]);
      assert Sum(sa) == c * t + c * a[n];
      assert c * t + c * a[n] == c * (t + a[n]);
    }
  }

  /** A sum of zeros is zero. */
  lemma {:induction false} SumZeros(a: seq<real>)
    requires forall i :: 0 <= i < |a| ==> a[i] == 0.0
    ensures Sum(a) == 0.0
  {
    if |a| > 0 {
      SumZeros(a[..|a| - 1]);
    }
  }

  /** A sum of non-negative terms is non-negative. */
  lemma {:induction false} SumNonNegative(a: seq<real>)
    requires forall i :: 0 <= i < |a| ==> a[i] >= 0.0
    ensures Sum(a) >= 0.0
  {
    if |a| > 0 {
      SumNonNegative(a[..|a| - 1]);
    }
  }

  /** The elements of `s` that satisfy `keep`, in their original order. */
  function Filter<T(!new)>(s: seq<T>, keep: T -> bool): (r: seq<T>)
    ensures |r| <= |s|
    ensures forall x :: x in r <==> x in s && keep(x)
  {
    if |s| == 0 then []
    else Filter(s[..|s| - 1], keep) + (if keep(s[|s| - 1]) then [s[|s| - 1]] else [])
  }

  /** Filtering with a test every element passes changes nothing. */
  lemma {:induction false} FilterKeepsAll<T(!new)>(s: seq<T>, keep: T -> bool)
    requires forall i :: 0 <= i < |s| ==> keep(s[i])
    ensures Filter(s, keep) == s
  {
    if |s| > 0 {
      var n := |s| - 1;
      assert forall i :: 0 <= i < n ==> s[..n][i] == s[i];
      FilterKeepsAll(s[..n], keep);
      assert s[n..] == [s[n]];
    }
  }

  /** No element occurs twice. */
  predicate Distinct<T(==)>(s: seq<T>)
  {
    forall i, j :: 0 <= i < j < |s| ==> s[i] != s[j]
  }

  /** Filtering a sequence without repetitions yields one without repetitions. */
  lemma {:induction false} FilterDistinct<T(!new)>(s: seq<T>, keep: T -> bool)
    requires Distinct(s)
    ensures Distinct(Filter(s, keep))
  {
    if |s| > 0 {
      var n := |s| - 1;
      var front := Filter(s[..n], keep);
      FilterDistinct(s[..n], keep);
      assert s[n] !in s[..n];
      assert s[n] !in front;
    }
  }

  /** parts(1) + parts(2) + ... + parts(done). */
  function Concat<T>(parts: nat -> seq<T>, done: nat): seq<T>
  {
    if done == 0 then [] else Concat(parts, done - 1) + parts(done)
  }

  /** Parts that agree on 1..n concatenate to the same sequence, however the count n is written. */
  lemma {:induction false} ConcatAgrees<T>(p: nat -> seq<T>, q: nat -> seq<T>, n: nat, m: nat)
    requires n == m
    requires forall j :: 1 <= j <= n ==> p(j) == q(j)
    ensures Concat(p, n) == Concat(q, m)
  {
    if n > 0 {
      ConcatAgrees(p, q, n - 1, m - 1);
      assert p(n) == q(m);
    }
  }

  /** One more part extends the concatenation of parts that agree on 1..n. */
  lemma ConcatSnoc<T>(p: nat -> seq<T>, q: nat -> seq<T>, n: nat, m: nat)
    requires m == n + 1
    requires forall j :: 1 <= j <= n ==> p(j) == q(j)
    ensures Concat(p, m) == Concat(q, n) + p(m)
  {
    ConcatAgrees(p, q, m - 1, n);
  }

  /** Concatenation regroups freely. */
  lemma AppendAssoc3<T>(a: seq<T>, b: seq<T>, c: seq<T>)
    ensures a + b + c == a + (b + c)
  {
  }

  lemma AppendAssoc<T>(a: seq<T>, b: seq<T>, c: seq<T>, d: seq<T>)
    ensures a + b + c + d == a + (b + (c + d))
  {
  }

  /** The sequence 0, 1, ..., n - 1. */
  function Range(n: nat): (r: seq<nat>)
    ensures |r| == n && forall i :: 0 <= i < n ==> r[i] == i
  {
    seq(n, i requires 0 <= i < n => i)
  }
}
