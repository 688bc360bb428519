/** Node sets and majorities of a group. */
module Quorums {

  /** The nodes 0, 1, ..., n - 1. */
  function Nodes(n: nat): (s: set<nat>)
    ensures forall i :: i in s <==> 0 <= i < n
    ensures |s| == n
  {
    if n == 0 then {} else Nodes(n - 1) + {n - 1}
  }

  predicate IsMajority(group: nat, nodes: set<nat>)
  {
    nodes <= Nodes(group) && |nodes| >= group / 2 + 1
  }

  lemma SubsetSize<T>(a: set<T>, b: set<T>)
    requires a <= b
    ensures |a| <= |b|
  {
    assert b == a + (b - a);
  }

  /** Any two majorities share a node. */
  lemma MajoritiesMeet(group: nat, a: set<nat>, b: set<nat>)
    requires IsMajority(group, a) && IsMajority(group, b)
    ensures exists n :: n in a && n in b
  {
    SubsetSize(a + b, Nodes(group));
    assert |a| + |b| == |a + b| + |a * b|;
    assert a * b != {};
    var n :| n in a * b;
    assert n in a && n in b;
  }
}
