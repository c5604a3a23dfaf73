/** Counting arguments on sequences of small numbers. */
module Pigeonhole {
  function Elems(q: seq<nat>): (r: set<nat>)
    ensures |r| <= |q|
    ensures forall x :: x in q <==> x in r
  {
    if q == [] then {}
    else
      var n := |q| - 1;
      assert q == q[..n] + [q[n]];
      Elems(q[..n]) + {q[n]}
  }

  /** The numbers 1 to n. */
  function UpTo(n: nat): (r: set<nat>)
    ensures |r| == n
    ensures forall x :: x in r <==> 1 <= x <= n
  {
    if n == 0 then {} else UpTo(n - 1) + {n}
  }

  lemma {:induction false} Subset(a: set<nat>, b: set<nat>)
    requires a <= b
    ensures |a| <= |b|
  {
    if a != {} {
      var x :| x in a;
      Subset(a - {x}, b - {x});
    }
  }

  predicate Distinct(q: seq<nat>) { forall i, j :: 0 <= i < j < |q| ==> q[i] != q[j] }

  lemma {:induction false} DistinctCount(q: seq<nat>)
    requires Distinct(q)
    ensures |Elems(q)| == |q|
  {
    if q != [] {
      var n := |q| - 1;
      DistinctCount(q[..n]);
      assert q[n] !in q[..n];
    }
  }

  /** Distinct numbers from a set are at most as many as the set has. */
  lemma DistinctWithin(q: seq<nat>, a: set<nat>)
    requires Distinct(q) && forall i :: 0 <= i < |q| ==> q[i] in a
    ensures |q| <= |a|
  {
    hide Elems;
    DistinctCount(q);
    forall x | x in Elems(q) ensures x in a {
      var i :| 0 <= i < |q| && q[i] == x;
    }
    Subset(Elems(q), a);
  }

  /** Distinct numbers below n are at most n. */
  lemma DistinctShort(q: seq<nat>, n: nat)
    requires Distinct(q) && forall i :: 0 <= i < |q| ==> q[i] < n
    ensures |q| <= n
  {
    hide UpTo, Elems, Distinct;
    assert n in UpTo(n) + {0};
    DistinctWithin(q, UpTo(n) + {0} - {n});
  }
}
