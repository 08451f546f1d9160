/** Walks and cycles of a finite directed graph given by its set of arcs. */
module Digraph {

  type Arcs<V(==)> = set<(V, V)>

  ghost predicate IsWalk<V>(arcs: Arcs<V>, p: seq<V>) {
    |p| > 0 && forall i :: 0 <= i < |p| - 1 ==> (p[i], p[i + 1]) in arcs
  }

  ghost predicate Joins<V>(arcs: Arcs<V>, p: seq<V>, u: V, v: V) {
    IsWalk(arcs, p) && p[0] == u && p[|p| - 1] == v
  }

  /** A closed walk: the arc from its last node leads back to its first. */
  ghost predicate IsCycle<V>(arcs: Arcs<V>, p: seq<V>) {
    IsWalk(arcs, p) && (p[|p| - 1], p[0]) in arcs
  }

  ghost predicate Acyclic<V(!new)>(arcs: Arcs<V>) {
    forall p: seq<V> :: !IsCycle(arcs, p)
  }

  ghost predicate Distinct<V>(s: seq<V>) {
    forall i, j :: 0 <= i < j < |s| ==> s[i] != s[j]
  }

  ghost predicate Reaches<V(!new)>(arcs: Arcs<V>, u: V, v: V) {
    exists p :: Joins(arcs, p, u, v)
  }

  /** Every arc leads from a node of the list to one that stands earlier in it, except the arcs in `free`. */
  ghost predicate ArcsGoBack<V(!new)>(arcs: Arcs<V>, order: seq<V>, free: Arcs<V>) {
    forall u, v :: (u, v) in arcs && (u, v) !in free ==>
      exists i, j :: 0 <= j < i < |order| && order[i] == u && order[j] == v
  }

  lemma PositionsAgree<V>(order: seq<V>, i: nat, j: nat)
    requires Distinct(order) && i < |order| && j < |order| && order[i] == order[j]
    ensures i == j
  {
  }

  /** Along a walk without free arcs the position falls at every step. */
  lemma {:induction false} WalkGoesBack<V(!new)>(arcs: Arcs<V>, order: seq<V>, free: Arcs<V>, p: seq<V>, at: nat) returns (end: nat)
    requires Distinct(order) && ArcsGoBack(arcs, order, free) && IsWalk(arcs, p)
    requires forall i :: 0 <= i < |p| - 1 ==> (p[i], p[i + 1]) !in free
    requires at < |order| && order[at] == p[0]
    ensures end < |order| && order[end] == p[|p| - 1] && end + |p| <= at + 1
    decreases |p|
  {
    if |p| == 1 {
      end := at;
    } else {
      assert (p[0], p[1]) in arcs && (p[0], p[1]) !in free;
      var i, j :| 0 <= j < i < |order| && order[i] == p[0] && order[j] == p[1];
      PositionsAgree(order, i, at);
      assert IsWalk(arcs, p[1..]);
      end := WalkGoesBack(arcs, order, free, p[1..], j);
    }
  }

  ghost predicate UsesArc<V>(p: seq<V>, some: Arcs<V>) {
    |p| > 0 && ((p[|p| - 1], p[0]) in some || exists i :: 0 <= i < |p| - 1 && (p[i], p[i + 1]) in some)
  }

  /** When all other arcs lead backward in a list, every cycle uses a free arc. */
  lemma CycleUsesFreeArc<V(!new)>(arcs: Arcs<V>, order: seq<V>, free: Arcs<V>, p: seq<V>)
    requires Distinct(order) && ArcsGoBack(arcs, order, free) && IsCycle(arcs, p)
    ensures UsesArc(p, free)
  {
    if !UsesArc(p, free) {
      var last := p[|p| - 1];
      assert (last, p[0]) in arcs && (last, p[0]) !in free;
      var i, j :| 0 <= j < i < |order| && order[i] == last && order[j] == p[0];
      var end := WalkGoesBack(arcs, order, free, p, j);
    }
  }

  /** Every node of the set has a predecessor in it. */
  ghost predicate Fed<V>(arcs: Arcs<V>, nodes: set<V>) {
    forall v :: v in nodes ==> HasPredecessor(arcs, nodes, v)
  }

  ghost predicate HasPredecessor<V>(arcs: Arcs<V>, nodes: set<V>, v: V) {
    exists u :: u in nodes && (u, v) in arcs
  }

  ghost predicate Within<V>(p: seq<V>, nodes: set<V>) {
    forall i :: 0 <= i < |p| ==> p[i] in nodes
  }

  lemma WalkPrepend<V>(arcs: Arcs<V>, u: V, p: seq<V>)
    requires IsWalk(arcs, p) && (u, p[0]) in arcs
    ensures IsWalk(arcs, [u] + p)
  {
    var q := [u] + p;
    forall i | 0 <= i < |q| - 1
      ensures (q[i], q[i + 1]) in arcs
    {
      if i > 0 {
        assert q[i] == p[i - 1] && q[i + 1] == p[i - 1 + 1];
      }
    }
  }

  lemma PrefixIsCycle<V>(arcs: Arcs<V>, p: seq<V>, k: nat)
    requires IsWalk(arcs, p) && k < |p| && (p[k], p[0]) in arcs
    ensures IsCycle(arcs, p[..k + 1])
  {
  }

  /** Walking backward in a set in which every node has a predecessor runs into a cycle. */
  lemma {:induction false} BackwardWalkCloses<V>(arcs: Arcs<V>, nodes: set<V>, p: seq<V>) returns (c: seq<V>)
    requires Fed(arcs, nodes) && IsWalk(arcs, p) && Distinct(p) && Within(p, nodes)
    ensures IsCycle(arcs, c)
    decreases |nodes| - |p|
  {
    hide IsCycle;
    assert HasPredecessor(arcs, nodes, p[0]);
    var u :| u in nodes && (u, p[0]) in arcs;
    if k :| 0 <= k < |p| && p[k] == u {
      PrefixIsCycle(arcs, p, k);
      c := p[..k + 1];
    } else {
      WalkPrepend(arcs, u, p);
      DistinctFits([u] + p, nodes);
      c := BackwardWalkCloses(arcs, nodes, [u] + p);
    }
  }

  lemma {:induction false} DistinctFits<V>(p: seq<V>, nodes: set<V>)
    requires Distinct(p) && Within(p, nodes)
    ensures |p| <= |nodes|
    decreases |p|
  {
    if p != [] {
      var n := |p| - 1;
      DistinctFits(p[..n], nodes - {p[n]});
    }
  }

  lemma NoSourceMeansCycle<V(!new)>(arcs: Arcs<V>, nodes: set<V>)
    requires nodes != {} && Fed(arcs, nodes)
    ensures !Acyclic(arcs)
  {
    var v :| v in nodes;
    var c := BackwardWalkCloses(arcs, nodes, [v]);
  }

  lemma WalkExtends<V>(arcs: Arcs<V>, p: seq<V>, v: V)
    requires IsWalk(arcs, p) && (p[|p| - 1], v) in arcs
    ensures IsWalk(arcs, p + [v])
  {
  }

  /** A walk never leaves a set that is closed under successors. */
  lemma {:induction false} WalkStaysIn<V>(arcs: Arcs<V>, nodes: set<V>, p: seq<V>)
    requires IsWalk(arcs, p) && p[0] in nodes
    requires forall a :: a in arcs && a.0 in nodes ==> a.1 in nodes
    ensures p[|p| - 1] in nodes
  {
    if |p| > 1 {
      assert (p[0], p[1]) in arcs;
      assert IsWalk(arcs, p[1..]);
      WalkStaysIn(arcs, nodes, p[1..]);
    }
  }

  /** A cycle may be entered at any of its nodes. */
  lemma CycleRotates<V>(arcs: Arcs<V>, c: seq<V>, i: nat)
    requires IsCycle(arcs, c) && i < |c|
    ensures IsCycle(arcs, c[i..] + c[..i]) && (c[i..] + c[..i])[0] == c[i]
  {
    var d := c[i..] + c[..i];
    forall k | 0 <= k < |d| - 1
      ensures (d[k], d[k + 1]) in arcs
    {
      if k < |c| - i - 1 {
        assert d[k] == c[i + k] && d[k + 1] == c[i + k + 1];
      } else if k == |c| - i - 1 {
        assert d[k] == c[|c| - 1] && d[k + 1] == c[0];
      } else {
        assert d[k] == c[k - (|c| - i)] && d[k + 1] == c[k - (|c| - i) + 1];
      }
    }
    assert i > 0 ==> d[|d| - 1] == c[i - 1];
  }
}
