/** Kahn's ordering of a workflow's nodes, with its fall-back to declaration order. */
module Topo {
  import opened Digraph
  import opened Sequences

  type Id = string
  type Edge = (Id, Id)

  function ArcsIn(edges: seq<Edge>): Arcs<Id> {
    set e | e in edges
  }

  /** Every edge joins two listed nodes. */
  ghost predicate Between(ids: seq<Id>, edges: seq<Edge>) {
    forall i :: 0 <= i < |edges| ==> edges[i].0 in ids && edges[i].1 in ids
  }

  /** The successor list of a node: one entry per edge, in edge order. */
  function Targets(edges: seq<Edge>, u: Id): seq<Id> {
    if edges == [] then []
    else
      var n := |edges| - 1;
      Targets(edges[..n], u) + if edges[n].0 == u then [edges[n].1] else []
  }

  function Count(s: seq<Id>, v: Id): nat {
    if s == [] then 0 else (if s[0] == v then 1 else 0) + Count(s[1..], v)
  }

  /** How many edges into `v` start at a node that is not yet ordered. */
  function Pending(edges: seq<Edge>, done: seq<Id>, v: Id): nat {
    if edges == [] then 0
    else
      var n := |edges| - 1;
      Pending(edges[..n], done, v) + if edges[n].1 == v && edges[n].0 !in done then 1 else 0
  }

  // ---------------------------------------------------------------- the algorithm as a function

  datatype Kahn = Kahn(indeg: map<Id, int>, q: seq<Id>, order: seq<Id>)

  /** One released successor after another: its count falls, and at zero it joins the queue. */
  function Relax(indeg: map<Id, int>, q: seq<Id>, vs: seq<Id>): (map<Id, int>, seq<Id>)
    requires forall i :: 0 <= i < |vs| ==> vs[i] in indeg
    decreases |vs|
  {
    if vs == [] then (indeg, q)
    else
      var v := vs[0];
      var next := indeg[v := indeg[v] - 1];
      Relax(next, if next[v] == 0 then q + [v] else q, vs[1..])
  }

  lemma {:induction false} CountPositive(s: seq<Id>, v: Id)
    ensures Count(s, v) > 0 <==> v in s
  {
    if s != [] {
      CountPositive(s[1..], v);
      assert s == [s[0]] + s[1..];
    }
  }

  /** The net effect of releasing a list of successors. */
  lemma {:induction false} RelaxEffect(indeg: map<Id, int>, q: seq<Id>, vs: seq<Id>)
    requires forall i :: 0 <= i < |vs| ==> vs[i] in indeg
    requires forall v :: v in indeg ==> indeg[v] >= Count(vs, v)
    requires Distinct(q) && forall v :: v in q ==> v in indeg && indeg[v] == 0
    ensures var (after, q') := Relax(indeg, q, vs);
      && after.Keys == indeg.Keys && (forall v :: v in indeg ==> after[v] == indeg[v] - Count(vs, v))
      && q <= q' && Distinct(q')
      && (forall v :: v in q' <==> v in q || (v in indeg && indeg[v] > 0 && after[v] == 0))
    decreases |vs|
  {
    if vs != [] {
      var v := vs[0];
      var next := indeg[v := indeg[v] - 1];
      var q1 := if next[v] == 0 then q + [v] else q;
      assert vs == [v] + vs[1..];
      assert v !in q;
      forall x | x in next
        ensures next[x] >= Count(vs[1..], x)
      {
        assert indeg[x] >= Count(vs, x);
      }
      forall x | x in q1
        ensures x in next && next[x] == 0
      {
        if x in q {
          assert indeg[x] >= Count(vs, x);
        }
      }
      RelaxEffect(next, q1, vs[1..]);
    }
  }

  /** What holds between two rounds. */
  ghost predicate Inv(ids: seq<Id>, edges: seq<Edge>, s: Kahn) {
    && s.indeg.Keys == Elems(ids)
    && Distinct(s.order) && Distinct(s.q)
    && (forall v :: v in s.order ==> v in ids && v !in s.q)
    && (forall v :: v in ids ==> s.indeg[v] == Pending(edges, s.order, v))
    && (forall v :: v in ids ==> (v in s.order || v in s.q <==> s.indeg[v] == 0))
    && (forall v :: v in s.q ==> v in ids)
    && Forward(edges, s.order)
  }

  /** Every edge into an ordered node comes from an earlier one. */
  ghost predicate Forward(edges: seq<Edge>, order: seq<Id>) {
    forall k, i :: 0 <= k < |order| && 0 <= i < |edges| && edges[i].1 == order[k] ==> edges[i].0 in order[..k]
  }

  lemma {:induction false} TargetsListed(edges: seq<Edge>, u: Id, v: Id)
    ensures v in Targets(edges, u) <==> (u, v) in edges
  {
    if edges != [] {
      var n := |edges| - 1;
      TargetsListed(edges[..n], u, v);
      assert edges == edges[..n] + [edges[n]];
    }
  }

  lemma {:induction false} CountSnoc(s: seq<Id>, x: Id, v: Id)
    ensures Count(s + [x], v) == Count(s, v) + if x == v then 1 else 0
  {
    if s == [] {
      assert s + [x] == [x];
    } else {
      CountSnoc(s[1..], x, v);
      assert (s + [x])[1..] == s[1..] + [x];
    }
  }

  /** Ordering one more node releases exactly its edges. */
  lemma {:induction false} PendingStep(edges: seq<Edge>, done: seq<Id>, u: Id, v: Id)
    requires u !in done
    ensures Pending(edges, done + [u], v) == Pending(edges, done, v) - Count(Targets(edges, u), v)
  {
    if edges != [] {
      var n := |edges| - 1;
      PendingStep(edges[..n], done, u, v);
      if edges[n].0 == u {
        CountSnoc(Targets(edges[..n], u), edges[n].1, v);
      } else {
        assert Targets(edges[..n], u) + [] == Targets(edges[..n], u);
      }
      assert edges[n].0 in done + [u] <==> edges[n].0 in done || edges[n].0 == u;
    }
  }

  lemma {:induction false} PendingZero(edges: seq<Edge>, done: seq<Id>, v: Id)
    ensures Pending(edges, done, v) == 0 <==> forall i :: 0 <= i < |edges| && edges[i].1 == v ==> edges[i].0 in done
  {
    if edges != [] {
      var n := |edges| - 1;
      PendingZero(edges[..n], done, v);
      assert forall i :: 0 <= i < n ==> edges[..n][i] == edges[i];
      if forall i :: 0 <= i < n && edges[..n][i].1 == v ==> edges[..n][i].0 in done {
        assert forall i :: 0 <= i < n && edges[i].1 == v ==> edges[i].0 in done;
      }
    }
  }

  function Pop(edges: seq<Edge>, s: Kahn): Kahn
    requires s.q != [] && forall v :: (s.q[0], v) in edges ==> v in s.indeg
  {
    var u := s.q[0];
    assert forall i :: 0 <= i < |Targets(edges, u)| ==> Targets(edges, u)[i] in s.indeg by {
      forall i | 0 <= i < |Targets(edges, u)|
        ensures Targets(edges, u)[i] in s.indeg
      {
        TargetsListed(edges, u, Targets(edges, u)[i]);
      }
    }
    var (indeg, q) := Relax(s.indeg, s.q[1..], Targets(edges, u));
    Kahn(indeg, q, s.order + [u])
  }

  lemma EndsListed(ids: seq<Id>, edges: seq<Edge>, indeg: map<Id, int>, u: Id)
    requires Between(ids, edges) && indeg.Keys == Elems(ids)
    ensures forall v :: (u, v) in edges ==> v in indeg
  {
  }

  lemma PopKeepsInv(ids: seq<Id>, edges: seq<Edge>, s: Kahn)
    requires Between(ids, edges) && Inv(ids, edges, s) && s.q != []
    ensures forall v :: (s.q[0], v) in edges ==> v in s.indeg
    ensures Inv(ids, edges, Pop(edges, s)) && |Pop(edges, s).order| == |s.order| + 1
  {
    hide Pending, Relax, Targets;
    var u, rest := s.q[0], s.q[1..];
    EndsListed(ids, edges, s.indeg, u);
    var vs, t := Targets(edges, u), Pop(edges, s);
    assert u in s.q && u !in rest && s.q == [u] + rest;
    forall v
      ensures Pending(edges, t.order, v) == Pending(edges, s.order, v) - Count(vs, v)
    {
      PendingStep(edges, s.order, u, v);
    }
    forall i | 0 <= i < |vs|
      ensures vs[i] in s.indeg
    {
      TargetsListed(edges, u, vs[i]);
    }
    RelaxEffect(s.indeg, rest, vs);
    forall v | v in ids
      ensures v in t.order || v in t.q <==> t.indeg[v] == 0
    {
      assert s.indeg[v] >= Count(vs, v);
      assert v in t.order <==> v in s.order || v == u;
    }
    forall v | v in t.order
      ensures v in ids && v !in t.q
    {
      assert v in s.order || v == u;
      assert s.indeg[v] == 0;
    }
    ForwardStep(edges, s.order, u);
  }

  lemma ForwardStep(edges: seq<Edge>, order: seq<Id>, u: Id)
    requires Forward(edges, order) && Pending(edges, order, u) == 0
    ensures Forward(edges, order + [u])
  {
    PendingZero(edges, order, u);
    var after := order + [u];
    forall k, i | 0 <= k < |after| && 0 <= i < |edges| && edges[i].1 == after[k]
      ensures edges[i].0 in after[..k]
    {
      if k < |order| {
        assert after[..k] == order[..k];
      } else {
        assert after[..k] == order;
      }
    }
  }

  lemma OrderFits(ids: seq<Id>, order: seq<Id>)
    requires Distinct(ids) && Distinct(order) && forall v :: v in order ==> v in ids
    ensures |order| <= |ids|
    ensures |order| == |ids| ==> forall v :: v in ids ==> v in order
  {
    DistinctSize(ids);
    DistinctSize(order);
    if exists v :: v in ids && v !in order {
      var v :| v in ids && v !in order;
      assert Elems(order) <= Elems(ids) - {v};
      SubsetSize(Elems(order), Elems(ids) - {v});
    } else {
      SubsetSize(Elems(order), Elems(ids));
    }
  }

  lemma SubsetSize(a: set<Id>, b: set<Id>)
    requires a <= b
    ensures |a| <= |b|
  {
    assert b == a + (b - a);
  }

  lemma {:induction false} DistinctSize(s: seq<Id>)
    requires Distinct(s)
    ensures |Elems(s)| == |s|
  {
    if s != [] {
      var n := |s| - 1;
      DistinctSize(s[..n]);
      assert s == s[..n] + [s[n]];
      assert Elems(s) == Elems(s[..n]) + {s[n]};
      assert s[n] !in s[..n];
    }
  }

  function Run(ids: seq<Id>, edges: seq<Edge>, s: Kahn): (t: Kahn)
    requires Distinct(ids) && Between(ids, edges) && Inv(ids, edges, s)
    ensures Inv(ids, edges, t) && t.q == []
    decreases |ids| - |s.order|
  {
    if s.q == [] then s
    else
      PopKeepsInv(ids, edges, s);
      OrderFits(ids, Pop(edges, s).order);
      Run(ids, edges, Pop(edges, s))
  }

  function Indegrees(ids: seq<Id>, edges: seq<Edge>): map<Id, int> {
    map v | v in ids :: Pending(edges, [], v)
  }

  function Roots(ids: seq<Id>, indeg: map<Id, int>): seq<Id>
    requires forall v :: v in ids ==> v in indeg
  {
    if ids == [] then []
    else
      var n := |ids| - 1;
      assert ids[n] in ids;
      Roots(ids[..n], indeg) + if indeg[ids[n]] == 0 then [ids[n]] else []
  }

  lemma {:induction false} RootsListed(ids: seq<Id>, indeg: map<Id, int>)
    requires Distinct(ids) && forall v :: v in ids ==> v in indeg
    ensures Distinct(Roots(ids, indeg))
    ensures forall v :: v in Roots(ids, indeg) <==> v in ids && indeg[v] == 0
  {
    if ids != [] {
      var n := |ids| - 1;
      assert ids == ids[..n] + [ids[n]];
      RootsListed(ids[..n], indeg);
      assert ids[n] !in ids[..n];
    }
  }

  function Start(ids: seq<Id>, edges: seq<Edge>): (s: Kahn)
    requires Distinct(ids) && Between(ids, edges)
    ensures Inv(ids, edges, s)
  {
    var indeg := Indegrees(ids, edges);
    RootsListed(ids, indeg);
    Kahn(indeg, Roots(ids, indeg), [])
  }

  /** The order in which the executor walks the nodes. */
  function TopoOrder(ids: seq<Id>, edges: seq<Edge>): seq<Id>
    requires Distinct(ids) && Between(ids, edges)
  {
    var order := Run(ids, edges, Start(ids, edges)).order;
    if |order| != |ids| then ids else order
  }

  // ---------------------------------------------------------------- correctness

  /** A list of exactly these nodes, each once, with every edge pointing forward. */
  ghost predicate Topological(ids: seq<Id>, edges: seq<Edge>, order: seq<Id>) {
    && Distinct(order) && (forall v :: v in order <==> v in ids)
    && Forward(edges, order)
  }

  lemma TopologicalIsAcyclic(ids: seq<Id>, edges: seq<Edge>, order: seq<Id>)
    requires Between(ids, edges) && Topological(ids, edges, order)
    ensures Acyclic(ArcsIn(edges))
  {
    var arcs, back := ArcsIn(edges), Reversed(order);
    ReversedIs(order);
    forall u, v | (u, v) in arcs && (u, v) !in {}
      ensures exists i, j :: 0 <= j < i < |back| && back[i] == u && back[j] == v
    {
      var e :| 0 <= e < |edges| && edges[e] == (u, v);
      var k :| 0 <= k < |order| && order[k] == v;
      var l :| 0 <= l < k && order[..k][l] == u;
      assert back[|order| - 1 - l] == u && back[|order| - 1 - k] == v;
    }
    forall p | IsCycle(arcs, p)
      ensures false
    {
      CycleUsesFreeArc(arcs, back, {}, p);
    }
  }

  lemma ReversedIs(s: seq<Id>)
    requires Distinct(s)
    ensures Distinct(Reversed(s))
  {
  }

  lemma StuckMeansCycle(ids: seq<Id>, edges: seq<Edge>, s: Kahn)
    requires Between(ids, edges) && Inv(ids, edges, s) && s.q == [] && exists v :: v in ids && v !in s.order
    ensures !Acyclic(ArcsIn(edges))
  {
    var arcs, left := ArcsIn(edges), set v | v in ids && v !in s.order;
    forall v | v in left
      ensures HasPredecessor(arcs, left, v)
    {
      PendingZero(edges, s.order, v);
      assert s.indeg[v] != 0;
      var i :| 0 <= i < |edges| && edges[i].1 == v && edges[i].0 !in s.order;
      assert edges[i] in arcs && edges[i].0 in left;
    }
    var v :| v in ids && v !in s.order;
    assert v in left;
    NoSourceMeansCycle(arcs, left);
  }

  /** The order is topological exactly on acyclic graphs; on the others it is the declaration order. */
  lemma TopoOrderIsTopological(ids: seq<Id>, edges: seq<Edge>)
    requires Distinct(ids) && Between(ids, edges)
    ensures Topological(ids, edges, TopoOrder(ids, edges)) <==> Acyclic(ArcsIn(edges))
    ensures !Acyclic(ArcsIn(edges)) ==> TopoOrder(ids, edges) == ids
    ensures |Run(ids, edges, Start(ids, edges)).order| == |ids| <==> Acyclic(ArcsIn(edges))
  {
    hide Acyclic, Pending;
    var t := Run(ids, edges, Start(ids, edges));
    OrderFits(ids, t.order);
    if |t.order| == |ids| {
      TopologicalIsAcyclic(ids, edges, t.order);
    } else {
      if forall v :: v in ids ==> v in t.order {
        OrderFits(t.order, ids);
      }
      StuckMeansCycle(ids, edges, t);
      if Topological(ids, edges, ids) {
        TopologicalIsAcyclic(ids, edges, ids);
      }
    }
  }

  // ---------------------------------------------------------------- the loops

  lemma EdgeAdds(edges: seq<Edge>, k: nat, x: Id)
    requires k < |edges|
    ensures Pending(edges[..k + 1], [], x) == Pending(edges[..k], [], x) + if edges[k].1 == x then 1 else 0
    ensures Targets(edges[..k + 1], x) == Targets(edges[..k], x) + if edges[k].0 == x then [edges[k].1] else []
  {
    assert edges[..k + 1][..k] == edges[..k];
  }

  ghost predicate Counted(ids: seq<Id>, edges: seq<Edge>, indeg: map<Id, int>, adj: map<Id, seq<Id>>) {
    && indeg.Keys == Elems(ids) == adj.Keys
    && forall v :: v in indeg ==> indeg[v] == Pending(edges, [], v) && adj[v] == Targets(edges, v)
  }

  lemma CountOne(ids: seq<Id>, edges: seq<Edge>, k: nat, indeg: map<Id, int>, adj: map<Id, seq<Id>>)
    requires Between(ids, edges) && k < |edges| && Counted(ids, edges[..k], indeg, adj)
    ensures edges[k].0 in adj && edges[k].1 in indeg
    ensures var (u, v) := edges[k];
      Counted(ids, edges[..k + 1], indeg[v := indeg[v] + 1], adj[u := adj[u] + [v]])
  {
    hide Pending, Targets;
    var (u, v) := edges[k];
    assert u in Elems(ids) && v in Elems(ids);
    var indeg', adj' := indeg[v := indeg[v] + 1], adj[u := adj[u] + [v]];
    forall x | x in indeg'
      ensures indeg'[x] == Pending(edges[..k + 1], [], x) && adj'[x] == Targets(edges[..k + 1], x)
    {
      EdgeAdds(edges, k, x);
      assert adj[x] + [] == adj[x];
    }
  }

  method CountIndegrees(ids: seq<Id>, edges: seq<Edge>) returns (indeg: map<Id, int>, adj: map<Id, seq<Id>>)
    requires Between(ids, edges)
    ensures indeg == Indegrees(ids, edges)
    ensures adj.Keys == Elems(ids) && forall u :: u in ids ==> adj[u] == Targets(edges, u)
  {
    indeg := map v | v in ids :: 0;
    adj := map v | v in ids :: [];
    NoneCounted(ids, edges, indeg, adj);
    hide Counted;
    for k := 0 to |edges|
      invariant Counted(ids, edges[..k], indeg, adj)
    {
      CountOne(ids, edges, k, indeg, adj);
      var (u, v) := edges[k];
      adj := adj[u := adj[u] + [v]];
      indeg := indeg[v := indeg[v] + 1];
    }
    assert edges[..|edges|] == edges;
    AllCounted(ids, edges, indeg, adj);
  }

  lemma NoneCounted(ids: seq<Id>, edges: seq<Edge>, indeg: map<Id, int>, adj: map<Id, seq<Id>>)
    requires indeg == (map v | v in ids :: 0) && adj == map v | v in ids :: []
    ensures Counted(ids, edges[..0], indeg, adj)
  {
  }

  lemma AllCounted(ids: seq<Id>, edges: seq<Edge>, indeg: map<Id, int>, adj: map<Id, seq<Id>>)
    requires Counted(ids, edges, indeg, adj)
    ensures indeg == Indegrees(ids, edges)
    ensures adj.Keys == Elems(ids) && forall u :: u in ids ==> adj[u] == Targets(edges, u)
  {
  }

  method RelaxAll(before: map<Id, int>, queue: seq<Id>, vs: seq<Id>) returns (indeg: map<Id, int>, q: seq<Id>)
    requires forall j :: 0 <= j < |vs| ==> vs[j] in before
    ensures (indeg, q) == Relax(before, queue, vs)
  {
    indeg, q := before, queue;
    assert vs[0..] == vs;
    for i := 0 to |vs|
      invariant forall j :: i <= j < |vs| ==> vs[j] in indeg
      invariant Relax(before, queue, vs) == Relax(indeg, q, vs[i..])
    {
      assert vs[i..][1..] == vs[i + 1..];
      indeg := indeg[vs[i] := indeg[vs[i]] - 1];
      if indeg[vs[i]] == 0 {
        q := q + [vs[i]];
      }
    }
  }

  method TopoLayers(ids: seq<Id>, edges: seq<Edge>) returns (order: seq<Id>)
    requires Distinct(ids) && Between(ids, edges)
    ensures order == TopoOrder(ids, edges)
    ensures Topological(ids, edges, order) <==> Acyclic(ArcsIn(edges))
  {
    hide Inv, Acyclic, Topological;
    var indeg, adj := CountIndegrees(ids, edges);
    var q := Roots(ids, indeg);
    order := [];
    while q != []
      invariant Inv(ids, edges, Kahn(indeg, q, order))
      invariant Run(ids, edges, Kahn(indeg, q, order)) == Run(ids, edges, Start(ids, edges))
      decreases |ids| - |order|
    {
      ghost var s := Kahn(indeg, q, order);
      PopKeepsInv(ids, edges, s);
      OrderFitsInv(ids, edges, Pop(edges, s));
      var u := q[0];
      QueuedIsListed(ids, edges, s);
      q := q[1..];
      order := order + [u];
      indeg, q := RelaxAll(indeg, q, adj[u]);
      assert Kahn(indeg, q, order) == Pop(edges, s);
    }
    if |order| != |ids| {
      order := ids;
    }
    TopoOrderIsTopological(ids, edges);
  }

  lemma QueuedIsListed(ids: seq<Id>, edges: seq<Edge>, s: Kahn)
    requires Between(ids, edges) && Inv(ids, edges, s) && s.q != []
    ensures s.q[0] in ids && forall i :: 0 <= i < |Targets(edges, s.q[0])| ==> Targets(edges, s.q[0])[i] in s.indeg
  {
    assert s.q[0] in s.q;
    var vs := Targets(edges, s.q[0]);
    forall i | 0 <= i < |vs|
      ensures vs[i] in s.indeg
    {
      TargetsListed(edges, s.q[0], vs[i]);
    }
  }

  lemma OrderFitsInv(ids: seq<Id>, edges: seq<Edge>, s: Kahn)
    requires Distinct(ids) && Inv(ids, edges, s)
    ensures |s.order| <= |ids|
  {
    OrderFits(ids, s.order);
  }
}
