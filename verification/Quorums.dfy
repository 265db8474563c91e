/** Counting facts about sets of replicas. */
module Quorums {
  /** The replicas of a group of n, numbered from 0. */
  function Group(n: nat): (g: set<nat>)
    ensures forall r :: r in g <==> 0 <= r < n
  {
    if n == 0 then {} else Group(n - 1) + {n - 1}
  }

  lemma {:induction false} GroupSize(n: nat)
    ensures |Group(n)| == n
  {
    if n > 0 {
      GroupSize(n - 1);
    }
  }

  lemma {:induction false} SubsetSize<T>(a: set<T>, b: set<T>)
    requires a <= b
    ensures |a| <= |b|
    ensures |a| == |b| ==> a == b
    decreases a
  {
    if a != {} {
      var x :| x in a;
      SubsetSize(a - {x}, b - {x});
    }
  }

  /** Two sets of replicas that together outnumber the group share a member. */
  lemma Intersect(n: nat, a: set<nat>, b: set<nat>) returns (r: nat)
    requires a <= Group(n) && b <= Group(n) && |a| + |b| > n
    ensures r in a && r in b
  {
    GroupSize(n);
    SubsetSize(a + b, Group(n));
    assert |a + b| == |a| + |b| - |a * b|;
    r :| r in a * b;
  }
}
