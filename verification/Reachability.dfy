/** The host's check that every node of a workflow can be reached from a root. */
module Reachability {
  import opened Digraph
  import opened Sequences
  import opened Workflow
  import Topo

  ghost predicate IsRoot(arcs: Arcs<Id>, v: Id) {
    forall u :: (u, v) !in arcs
  }

  ghost predicate FromRoot(ids: seq<Id>, arcs: Arcs<Id>, v: Id) {
    exists r :: r in ids && IsRoot(arcs, r) && Reaches(arcs, r, v)
  }

  lemma RootIffNoPending(ids: seq<Id>, links: seq<Topo.Edge>, v: Id)
    ensures Topo.Pending(links, [], v) == 0 <==> IsRoot(Topo.ArcsIn(links), v)
  {
    Topo.PendingZero(links, [], v);
    assert forall i :: 0 <= i < |links| ==> (links[i].0, links[i].1) in Topo.ArcsIn(links);
  }

  /** Between two rounds of the search: what is seen or queued comes from a root, and seen nodes have passed on their successors. */
  ghost predicate Searching(ids: seq<Id>, arcs: Arcs<Id>, seen: set<Id>, q: seq<Id>) {
    && (forall v :: v in ids && IsRoot(arcs, v) ==> v in seen || v in q)
    && (forall v :: v in seen || v in q ==> v in ids && FromRoot(ids, arcs, v))
    && (forall a :: a in arcs && a.0 in seen ==> a.1 in seen || a.1 in q)
  }

  lemma SearchStarts(ids: seq<Id>, arcs: Arcs<Id>, roots: seq<Id>)
    requires forall v :: v in roots <==> v in ids && IsRoot(arcs, v)
    ensures Searching(ids, arcs, {}, roots)
  {
    forall v | v in roots
      ensures FromRoot(ids, arcs, v)
    {
      assert Joins(arcs, [v], v, v);
    }
  }

  lemma SearchSkips(ids: seq<Id>, arcs: Arcs<Id>, seen: set<Id>, q: seq<Id>)
    requires Searching(ids, arcs, seen, q) && q != [] && q[0] in seen
    ensures Searching(ids, arcs, seen, q[1..])
  {
    hide IsRoot, FromRoot;
    assert q == [q[0]] + q[1..];
  }

  lemma SearchVisits(ids: seq<Id>, links: seq<Topo.Edge>, seen: set<Id>, q: seq<Id>)
    requires Topo.Between(ids, links) && Searching(ids, Topo.ArcsIn(links), seen, q) && q != []
    ensures q[0] in ids
    ensures Searching(ids, Topo.ArcsIn(links), seen + {q[0]}, q[1..] + Topo.Targets(links, q[0]))
  {
    hide IsRoot, FromRoot, Topo.Targets;
    var u, arcs, next := q[0], Topo.ArcsIn(links), Topo.Targets(links, q[0]);
    assert q == [u] + q[1..] && u in q;
    forall v | v in next
      ensures v in ids && FromRoot(ids, arcs, v)
    {
      Topo.TargetsListed(links, u, v);
      StepFromRoot(ids, arcs, u, v);
    }
    forall a | a in arcs && a.0 == u
      ensures a.1 in next
    {
      Topo.TargetsListed(links, u, a.1);
    }
  }

  lemma SearchEnds(ids: seq<Id>, arcs: Arcs<Id>, seen: set<Id>)
    requires Searching(ids, arcs, seen, [])
    ensures forall v :: v in seen <==> FromRoot(ids, arcs, v)
  {
    hide IsRoot;
    forall v | FromRoot(ids, arcs, v)
      ensures v in seen
    {
      var r :| r in ids && IsRoot(arcs, r) && Reaches(arcs, r, v);
      var p :| Joins(arcs, p, r, v);
      WalkStaysIn(arcs, seen, p);
    }
  }

  /** Breadth-first from the roots; a node may wait in the queue several times. */
  method Reached(ids: seq<Id>, links: seq<Topo.Edge>, adj: map<Id, seq<Id>>, roots: seq<Id>) returns (seen: set<Id>)
    requires Topo.Between(ids, links) && adj == Adjacency(ids, links)
    requires forall v :: v in roots <==> v in ids && IsRoot(Topo.ArcsIn(links), v)
    ensures forall v :: v in seen <==> FromRoot(ids, Topo.ArcsIn(links), v)
  {
    hide IsRoot, FromRoot, Topo.Targets, Searching;
    ghost var arcs := Topo.ArcsIn(links);
    var q := roots;
    seen := {};
    SearchStarts(ids, arcs, roots);
    while q != []
      invariant Searching(ids, arcs, seen, q)
      decreases Elems(ids) - seen, |q|
    {
      SearchVisits(ids, links, seen, q);
      var u := q[0];
      if u in seen {
        SearchSkips(ids, arcs, seen, q);
        q := q[1..];
      } else {
        assert u in Elems(ids);
        seen := seen + {u};
        q := q[1..] + adj[u];
      }
    }
    SearchEnds(ids, arcs, seen);
  }

  lemma StepFromRoot(ids: seq<Id>, arcs: Arcs<Id>, u: Id, v: Id)
    requires FromRoot(ids, arcs, u) && (u, v) in arcs
    ensures FromRoot(ids, arcs, v)
  {
    var r :| r in ids && IsRoot(arcs, r) && Reaches(arcs, r, u);
    var p :| Joins(arcs, p, r, u);
    WalkExtends(arcs, p, v);
    assert Joins(arcs, p + [v], r, v);
  }

  /** No root at all, or the nodes that no root reaches. */
  datatype Reach = Reach(noRoot: bool, unreachable: set<Id>)

  ghost function ReachabilityErrors(ids: seq<Id>, arcs: Arcs<Id>, loops: set<Id>): Reach {
    if ids != [] && !exists v :: v in ids && IsRoot(arcs, v) then Reach(|loops| != |Elems(ids)|, {})
    else Reach(false, set v | v in ids && !FromRoot(ids, arcs, v))
  }

  method ReachabilityPass(ids: seq<Id>, links: seq<Topo.Edge>, adj: map<Id, seq<Id>>, loops: set<Id>) returns (r: Reach)
    requires Distinct(ids) && Topo.Between(ids, links) && adj == Adjacency(ids, links)
    ensures r == ReachabilityErrors(ids, Topo.ArcsIn(links), loops)
  {
    hide IsRoot, FromRoot;
    var indeg, targets := Topo.CountIndegrees(ids, links);
    var roots := Topo.Roots(ids, indeg);
    Topo.RootsListed(ids, indeg);
    forall v | v in ids
      ensures v in roots <==> IsRoot(Topo.ArcsIn(links), v)
    {
      RootIffNoPending(ids, links, v);
    }
    if roots == [] && ids != [] {
      assert forall v :: v in ids ==> v !in roots;
      r := Reach(|loops| != |Elems(ids)|, {});
    } else {
      assert ids != [] ==> roots[0] in roots;
      var seen := Reached(ids, links, adj, roots);
      r := Reach(false, set v | v in ids && v !in seen);
    }
  }

  lemma {:induction false} OrderedIsReached(ids: seq<Id>, links: seq<Topo.Edge>, order: seq<Id>, k: nat)
    requires Topo.Between(ids, links) && Topo.Topological(ids, links, order) && k < |order|
    ensures FromRoot(ids, Topo.ArcsIn(links), order[k])
    decreases k
  {
    hide IsRoot;
    var arcs, v := Topo.ArcsIn(links), order[k];
    assert v in order;
    if IsRoot(arcs, v) {
      assert Joins(arcs, [v], v, v);
    } else {
      var u := Predecessor(arcs, v);
      var i :| 0 <= i < |links| && links[i] == (u, v);
      var l :| 0 <= l < k && order[..k][l] == u;
      OrderedIsReached(ids, links, order, l);
      StepFromRoot(ids, arcs, u, v);
    }
  }

  lemma Predecessor(arcs: Arcs<Id>, v: Id) returns (u: Id)
    requires !IsRoot(arcs, v)
    ensures (u, v) in arcs
  {
    u :| (u, v) in arcs;
  }

  /** The reachability pass never rejects an acyclic workflow. */
  lemma AcyclicPassesReachability(ids: seq<Id>, links: seq<Topo.Edge>, loops: set<Id>)
    requires Distinct(ids) && Topo.Between(ids, links) && Acyclic(Topo.ArcsIn(links))
    ensures ReachabilityErrors(ids, Topo.ArcsIn(links), loops) == Reach(false, {})
  {
    hide IsRoot, FromRoot, Acyclic, Topo.Forward;
    var arcs, order := Topo.ArcsIn(links), Topo.TopoOrder(ids, links);
    Topo.TopoOrderIsTopological(ids, links);
    forall v | v in ids
      ensures FromRoot(ids, arcs, v)
    {
      assert v in order;
      var k :| 0 <= k < |order| && order[k] == v;
      OrderedIsReached(ids, links, order, k);
    }
    if ids != [] {
      RootExists(ids, arcs, ids[0]);
    }
  }

  lemma RootExists(ids: seq<Id>, arcs: Arcs<Id>, v: Id)
    requires FromRoot(ids, arcs, v)
    ensures exists r :: r in ids && IsRoot(arcs, r)
  {
  }
}
