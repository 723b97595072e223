/** How many distinct numbers fit below a bound. */
module Counting {

  function Below(n: nat): (s: set<nat>)
    ensures |s| == n && forall k: nat :: k in s <==> k < n
  {
    if n == 0 then {} else Below(n - 1) + {n - 1}
  }

  function Elements(q: seq<nat>): (s: set<nat>)
    ensures forall k: nat :: k in s <==> k in q
  {
    if q == [] then {} else {q[|q| - 1]} + Elements(q[..|q| - 1])
  }

  predicate DistinctBelow(q: seq<nat>, n: nat) {
    && (forall k :: 0 <= k < |q| ==> q[k] < n)
    && (forall j, k :: 0 <= j < k < |q| ==> q[j] != q[k])
  }

  lemma {:induction false} DistinctElements(q: seq<nat>)
    requires forall j, k :: 0 <= j < k < |q| ==> q[j] != q[k]
    ensures |Elements(q)| == |q|
  {
    if q != [] {
      DistinctElements(q[..|q| - 1]);
      assert q[|q| - 1] !in q[..|q| - 1];
    }
  }

  lemma {:induction false} SubsetFits<T>(a: set<T>, b: set<T>)
    requires a <= b
    ensures |a| <= |b| && (|a| == |b| ==> a == b)
  {
    if a != {} {
      var x :| x in a;
      SubsetFits(a - {x}, b - {x});
    }
  }

  /** Distinct numbers below n are at most n, and when there are n of them they are all. */
  lemma DistinctFit(q: seq<nat>, n: nat)
    requires DistinctBelow(q, n)
    ensures |q| <= n && (|q| == n ==> forall k: nat :: k < n ==> k in q)
  {
    DistinctElements(q);
    SubsetFits(Elements(q), Below(n));
  }
}
