/** In which order Kahn's algorithm releases the nodes: the queue is first in, first out. */
module KahnOrder {
  import opened Digraph
  import opened Sequences
  import opened Topo

  // ---------------------------------------------------------------- successors by edge

  ghost function FromPlaces(edges: seq<Edge>, u: Id): set<nat> {
    set i | 0 <= i < |edges| && edges[i].0 == u
  }

  lemma FromPlacesSnoc(edges: seq<Edge>, e: Edge, u: Id)
    ensures FromPlaces(edges + [e], u) == if e.0 == u then FromPlaces(edges, u) + {|edges|} else FromPlaces(edges, u)
    ensures forall i :: i in FromPlaces(edges, u) ==> i < |edges|
  {
    var all := edges + [e];
    assert all[|edges|] == e && forall i :: 0 <= i < |edges| ==> all[i] == edges[i];
  }

  /** The successors of a node stand in the order of its edges. */
  lemma {:induction false} TargetsAt(edges: seq<Edge>, u: Id) returns (at: seq<nat>)
    ensures Places(at, FromPlaces(edges, u))
    ensures |at| == |Targets(edges, u)| && forall k :: 0 <= k < |at| ==> at[k] < |edges| && Targets(edges, u)[k] == edges[at[k]].1
  {
    at := [];
    if edges != [] {
      var n := |edges| - 1;
      at := TargetsAt(edges[..n], u);
      FromPlacesSnoc(edges[..n], edges[n], u);
      assert edges == edges[..n] + [edges[n]];
      if edges[n].0 == u {
        PlacesSnoc(at, FromPlaces(edges[..n], u), n);
        at := at + [n];
      }
    }
  }

  /** Every successor is known and has edges left for all its places in the list. */
  ghost predicate Enough(indeg: map<Id, int>, vs: seq<Id>) {
    (forall i :: 0 <= i < |vs| ==> vs[i] in indeg) && forall v :: v in indeg ==> indeg[v] >= Count(vs, v)
  }

  ghost function QueueAfter(indeg: map<Id, int>, q: seq<Id>, vs: seq<Id>): seq<Id>
    requires Enough(indeg, vs)
  {
    Relax(indeg, q, vs).1
  }

  /** Of the nodes that a round adds to the queue, each is added at its last place among the released successors. */
  lemma {:induction false} RelaxAddsAt(indeg: map<Id, int>, q: seq<Id>, vs: seq<Id>) returns (at: seq<nat>)
    requires Enough(indeg, vs)
    ensures Adds(q, QueueAfter(indeg, q, vs), vs, at) && Ascending(at)
    decreases |vs|
  {
    hide Adds, QueueAfter, Enough, Ascending;
    if vs == [] {
      at := [];
      NoneReleased(indeg, q);
    } else {
      OneReleased(indeg, q, vs);
      var next := indeg[vs[0] := indeg[vs[0]] - 1];
      var joins := next[vs[0]] == 0;
      var added := if joins then q + [vs[0]] else q;
      var rest := RelaxAddsAt(next, added, vs[1..]);
      at := if joins then [0] + Shifted(rest) else Shifted(rest);
      ShiftedAscends(rest);
      if joins {
        AddsFirst(q, QueueAfter(next, added, vs[1..]), vs, rest);
      } else {
        AddsLater(q, QueueAfter(next, added, vs[1..]), vs, rest);
      }
    }
  }

  lemma NoneReleased(indeg: map<Id, int>, q: seq<Id>)
    requires Enough(indeg, [])
    ensures Adds(q, QueueAfter(indeg, q, []), [], []) && Ascending([])
  {
  }

  ghost predicate Ascending(at: seq<nat>) {
    forall i, j :: 0 <= i < j < |at| ==> at[i] < at[j]
  }

  lemma ShiftedAscends(at: seq<nat>)
    requires Ascending(at)
    ensures Ascending(Shifted(at)) && Ascending([0] + Shifted(at))
  {
  }

  lemma OneReleased(indeg: map<Id, int>, q: seq<Id>, vs: seq<Id>)
    requires vs != [] && Enough(indeg, vs)
    ensures vs[0] in indeg
    ensures var v := vs[0];
      var next := indeg[v := indeg[v] - 1];
      && Enough(next, vs[1..]) && (next[v] == 0 ==> v !in vs[1..])
      && QueueAfter(indeg, q, vs) == QueueAfter(next, if next[v] == 0 then q + [v] else q, vs[1..])
  {
    var v := vs[0];
    CountCons(vs);
    CountPositive(vs[1..], v);
  }

  lemma CountCons(vs: seq<Id>)
    requires vs != []
    ensures forall x :: Count(vs, x) == (if vs[0] == x then 1 else 0) + Count(vs[1..], x)
  {
  }

  function Shifted(rest: seq<nat>): seq<nat> {
    seq(|rest|, k requires 0 <= k < |rest| => rest[k] + 1)
  }

  /** What joins the queue, told by places among the released successors. */
  ghost predicate Adds(q: seq<Id>, after: seq<Id>, vs: seq<Id>, at: seq<nat>) {
    && |after| == |q| + |at| && after[..|q|] == q
    && forall k :: 0 <= k < |at| ==> at[k] < |vs| && after[|q| + k] == vs[at[k]] && vs[at[k]] !in vs[at[k] + 1..]
  }

  lemma AddsLater(q: seq<Id>, after: seq<Id>, vs: seq<Id>, rest: seq<nat>)
    requires vs != [] && Adds(q, after, vs[1..], rest)
    ensures Adds(q, after, vs, Shifted(rest))
  {
    forall k | 0 <= k < |rest|
      ensures vs[1..][rest[k]] == vs[rest[k] + 1] && vs[1..][rest[k] + 1..] == vs[rest[k] + 2..]
    {
    }
  }

  lemma AddsFirst(q: seq<Id>, after: seq<Id>, vs: seq<Id>, rest: seq<nat>)
    requires vs != [] && vs[0] !in vs[1..] && Adds(q + [vs[0]], after, vs[1..], rest)
    ensures Adds(q, after, vs, [0] + Shifted(rest))
  {
    AddsLater(q + [vs[0]], after, vs, rest);
    var at := [0] + Shifted(rest);
    assert after[..|q|] == after[..|q| + 1][..|q|];
    assert after[|q|] == after[..|q| + 1][|q|];
    forall k | 0 < k < |at|
      ensures at[k] == Shifted(rest)[k - 1] && after[|q| + k] == after[|q + [vs[0]]| + (k - 1)]
    {
    }
  }

  // ---------------------------------------------------------------- first come, first served

  ghost predicate Source(edges: seq<Edge>, v: Id) {
    forall f :: 0 <= f < |edges| ==> edges[f].1 != v
  }

  /** The node waits for the edge `e` from the node at place `p` last: all other edges to it come from earlier nodes, or from the same
      node and stand earlier among the edges. */
  ghost predicate ReleasedBy(edges: seq<Edge>, order: seq<Id>, v: Id, p: nat, e: nat) {
    && p < |order| && e < |edges| && edges[e] == (order[p], v)
    && forall f :: 0 <= f < |edges| && edges[f].1 == v ==> edges[f].0 in order[..p] || (edges[f].0 == order[p] && f <= e)
  }

  ghost predicate DeclaredBefore(ids: seq<Id>, u: Id, v: Id) {
    exists a, b :: 0 <= a < b < |ids| && ids[a] == u && ids[b] == v
  }

  /** The sources come first, as they are declared; the others follow in the order in which they are released. */
  ghost predicate Served(ids: seq<Id>, edges: seq<Edge>, order: seq<Id>, line: seq<Id>) {
    forall i, j :: 0 <= i < j < |line| ==>
      && (Source(edges, line[j]) ==> Source(edges, line[i]) && DeclaredBefore(ids, line[i], line[j]))
      && forall p, e, p', e' :: ReleasedBy(edges, order, line[i], p, e) && ReleasedBy(edges, order, line[j], p', e') ==> p < p' || (p == p' && e < e')
  }

  lemma OldKey(ids: seq<Id>, edges: seq<Edge>, s: Kahn, v: Id, p: nat, e: nat)
    requires Inv(ids, edges, s) && s.q != [] && (v in s.order || v in s.q) && ReleasedBy(edges, s.order + [s.q[0]], v, p, e)
    ensures p < |s.order| && ReleasedBy(edges, s.order, v, p, e)
  {
    var u, more := s.q[0], s.order + [s.q[0]];
    assert u in s.q;
    PendingZero(edges, s.order, v);
    assert edges[e].0 in s.order;
    assert p < |s.order|;
    assert more[..p] == s.order[..p];
  }

  lemma NewKey(ids: seq<Id>, edges: seq<Edge>, s: Kahn, edgesAt: seq<nat>, k: nat, p: nat, e: nat)
    requires Inv(ids, edges, s) && s.q != []
    requires var vs := Targets(edges, s.q[0]);
      && Places(edgesAt, FromPlaces(edges, s.q[0])) && |edgesAt| == |vs|
      && (forall x :: 0 <= x < |vs| ==> edgesAt[x] < |edges| && vs[x] == edges[edgesAt[x]].1)
      && k < |vs| && vs[k] !in vs[k + 1..] && ReleasedBy(edges, s.order + [s.q[0]], vs[k], p, e)
    ensures p == |s.order| && e == edgesAt[k]
  {
    var u, vs, more := s.q[0], Targets(edges, s.q[0]), s.order + [s.q[0]];
    assert u in s.q && u !in s.order;
    assert edgesAt[k] in edgesAt;
    assert edges[edgesAt[k]] == (u, vs[k]);
    assert p == |s.order|;
    assert more[..p] == s.order;
    assert e in edgesAt;
    var x :| 0 <= x < |edgesAt| && edgesAt[x] == e;
    LaterDiffer(vs, k);
  }

  lemma LaterDiffer(vs: seq<Id>, k: nat)
    requires k < |vs| && vs[k] !in vs[k + 1..]
    ensures forall x :: k < x < |vs| ==> vs[x] != vs[k]
  {
    forall x | k < x < |vs|
      ensures vs[x] != vs[k]
    {
      assert vs[k + 1..][x - k - 1] == vs[x];
    }
  }

  /** One round: where the released successors stand among the edges, and which of them join the queue. */
  ghost predicate Round(edges: seq<Edge>, s: Kahn, t: Kahn, edgesAt: seq<nat>, at: seq<nat>)
    requires s.q != []
  {
    var vs := Targets(edges, s.q[0]);
      && Places(edgesAt, FromPlaces(edges, s.q[0])) && |edgesAt| == |vs|
      && (forall x :: 0 <= x < |vs| ==> edgesAt[x] < |edges| && vs[x] == edges[edgesAt[x]].1)
      && t.order == s.order + [s.q[0]] && Adds(s.q[1..], t.q, vs, at)
      && Ascending(at)
  }

  lemma NewcomersAre(ids: seq<Id>, edges: seq<Edge>, s: Kahn) returns (edgesAt: seq<nat>, at: seq<nat>)
    requires Between(ids, edges) && Inv(ids, edges, s) && s.q != []
    ensures forall v :: (s.q[0], v) in edges ==> v in s.indeg
    ensures Round(edges, s, Pop(edges, s), edgesAt, at)
  {
    hide Pending, Relax, Targets;
    var u := s.q[0];
    EndsListed(ids, edges, s.indeg, u);
    edgesAt := TargetsAt(edges, u);
    var vs := Targets(edges, u);
    forall i | 0 <= i < |vs|
      ensures vs[i] in s.indeg
    {
      TargetsListed(edges, u, vs[i]);
    }
    assert u in s.q;
    forall v | v in s.indeg
      ensures s.indeg[v] >= Count(vs, v)
    {
      PendingStep(edges, s.order, u, v);
    }
    at := RelaxAddsAt(s.indeg, s.q[1..], vs);
  }

  /** What is in line, and what joins it when the next node is taken. */
  lemma LineGrows(s: Kahn, t: Kahn, n: nat)
    requires s.q != [] && t.order == s.order + [s.q[0]] && |t.q| == |s.q| - 1 + n && t.q[..|s.q| - 1] == s.q[1..]
    ensures var line, longer := s.order + s.q, t.order + t.q;
      |longer| == |line| + n && longer[..|line|] == line && longer[|line|..] == t.q[|s.q| - 1..]
  {
    var line, longer := s.order + s.q, t.order + t.q;
    forall i | 0 <= i < |line|
      ensures longer[i] == line[i]
    {
      if i > |s.order| {
        assert t.q[..|s.q| - 1][i - |s.order| - 1] == s.q[1..][i - |s.order| - 1];
      }
    }
    assert longer[|line|..] == t.q[|s.q| - 1..];
  }

  lemma KeyOf(ids: seq<Id>, edges: seq<Edge>, s: Kahn, t: Kahn, edgesAt: seq<nat>, at: seq<nat>, i: nat, p: nat, e: nat)
    requires Inv(ids, edges, s) && s.q != [] && Round(edges, s, t, edgesAt, at)
    requires i < |t.order + t.q| && ReleasedBy(edges, t.order, (t.order + t.q)[i], p, e)
    ensures var line := s.order + s.q;
      if i < |line| then p < |s.order| && ReleasedBy(edges, s.order, line[i], p, e)
      else i - |line| < |at| && p == |s.order| && e == edgesAt[at[i - |line|]]
  {
    hide Inv, ReleasedBy, Places, Targets;
    LineGrows(s, t, |at|);
    var line, longer := s.order + s.q, t.order + t.q;
    if i < |line| {
      assert longer[i] == longer[..|line|][i] == line[i];
      OldKey(ids, edges, s, line[i], p, e);
    } else {
      assert longer[i] == longer[|line|..][i - |line|] == t.q[|s.q| - 1 + (i - |line|)];
      NewKey(ids, edges, s, edgesAt, at[i - |line|], p, e);
    }
  }

  lemma NewIsNoSource(edges: seq<Edge>, s: Kahn, t: Kahn, edgesAt: seq<nat>, at: seq<nat>, k: nat)
    requires s.q != [] && Round(edges, s, t, edgesAt, at) && k < |at|
    ensures |t.order + t.q| == |s.order + s.q| + |at| && !Source(edges, (t.order + t.q)[|s.order + s.q| + k])
  {
    LineGrows(s, t, |at|);
    hide Places, Targets;
    assert (t.order + t.q)[|s.order + s.q| + k] == (t.order + t.q)[|s.order + s.q|..][k] == t.q[|s.q| - 1 + k];
    assert edges[edgesAt[at[k]]].1 == (t.order + t.q)[|s.order + s.q| + k];
  }

  lemma PopKeepsServed(ids: seq<Id>, edges: seq<Edge>, s: Kahn)
    requires Between(ids, edges) && Inv(ids, edges, s) && s.q != [] && Served(ids, edges, s.order, s.order + s.q)
    ensures forall v :: (s.q[0], v) in edges ==> v in s.indeg
    ensures var t := Pop(edges, s); Served(ids, edges, t.order, t.order + t.q)
  {
    var edgesAt, at := NewcomersAre(ids, edges, s);
    RoundKeepsServed(ids, edges, s, Pop(edges, s), edgesAt, at);
  }

  lemma RoundKeepsServed(ids: seq<Id>, edges: seq<Edge>, s: Kahn, t: Kahn, edgesAt: seq<nat>, at: seq<nat>)
    requires Inv(ids, edges, s) && s.q != [] && Served(ids, edges, s.order, s.order + s.q) && Round(edges, s, t, edgesAt, at)
    ensures Served(ids, edges, t.order, t.order + t.q)
  {
    var line, longer := s.order + s.q, t.order + t.q;
    RoundAscends(edges, s, t, edgesAt, at);
    LineGrows(s, t, |at|);
    hide Inv, Places, ReleasedBy, Source, DeclaredBefore, Round;
    forall i, j | 0 <= i < j < |longer|
      ensures Source(edges, longer[j]) ==> Source(edges, longer[i]) && DeclaredBefore(ids, longer[i], longer[j])
      ensures forall p, e, p', e' :: ReleasedBy(edges, t.order, longer[i], p, e) && ReleasedBy(edges, t.order, longer[j], p', e') ==>
        p < p' || (p == p' && e < e')
    {
      assert i < |line| ==> longer[i] == longer[..|line|][i] == line[i];
      assert j < |line| ==> longer[j] == longer[..|line|][j] == line[j];
      forall p, e, p', e' | ReleasedBy(edges, t.order, longer[i], p, e) && ReleasedBy(edges, t.order, longer[j], p', e')
        ensures p < p' || (p == p' && e < e')
      {
        KeyOf(ids, edges, s, t, edgesAt, at, i, p, e);
        KeyOf(ids, edges, s, t, edgesAt, at, j, p', e');
      }
      if j >= |line| {
        NewIsNoSource(edges, s, t, edgesAt, at, j - |line|);
      }
    }
  }

  lemma RoundAscends(edges: seq<Edge>, s: Kahn, t: Kahn, edgesAt: seq<nat>, at: seq<nat>)
    requires s.q != [] && Round(edges, s, t, edgesAt, at)
    ensures t.order == s.order + [s.q[0]] && |t.q| == |s.q| - 1 + |at| && t.q[..|s.q| - 1] == s.q[1..]
    ensures forall k :: 0 <= k < |at| ==> at[k] < |edgesAt|
    ensures forall i, j :: 0 <= i < j < |at| ==> edgesAt[at[i]] < edgesAt[at[j]]
  {
    hide Targets;
  }

  // ---------------------------------------------------------------- the whole order

  lemma {:induction false} RootsServed(ids: seq<Id>, edges: seq<Edge>, n: nat)
    requires Distinct(ids) && n <= |ids| && forall v :: v in ids[..n] ==> v in Indegrees(ids, edges)
    ensures forall i :: 0 <= i < |Roots(ids[..n], Indegrees(ids, edges))| ==>
      Source(edges, Roots(ids[..n], Indegrees(ids, edges))[i]) && Roots(ids[..n], Indegrees(ids, edges))[i] in ids[..n]
    ensures forall i, j :: 0 <= i < j < |Roots(ids[..n], Indegrees(ids, edges))| ==>
      DeclaredBefore(ids, Roots(ids[..n], Indegrees(ids, edges))[i], Roots(ids[..n], Indegrees(ids, edges))[j])
  {
    hide Pending, Source;
    if n != 0 {
      assert ids[..n][..n - 1] == ids[..n - 1] && ids[..n][n - 1] == ids[n - 1];
      RootsServed(ids, edges, n - 1);
      var v, front := ids[n - 1], Roots(ids[..n - 1], Indegrees(ids, edges));
      NoPendingIsSource(edges, v);
      forall i | 0 <= i < |front|
        ensures front[i] in ids[..n] && DeclaredBefore(ids, front[i], v)
      {
        var a :| 0 <= a < n - 1 && ids[..n - 1][a] == front[i];
        assert ids[a] == front[i] && ids[..n][a] == front[i];
      }
    }
  }

  lemma NoPendingIsSource(edges: seq<Edge>, v: Id)
    ensures Pending(edges, [], v) == 0 <==> Source(edges, v)
  {
    PendingZero(edges, [], v);
  }

  lemma StartServed(ids: seq<Id>, edges: seq<Edge>)
    requires Distinct(ids) && Between(ids, edges)
    ensures var s := Start(ids, edges); Served(ids, edges, s.order, s.order + s.q)
  {
    hide Roots, Indegrees, Source, DeclaredBefore;
    assert ids[..|ids|] == ids;
    IndegreesKeys(ids, edges);
    RootsServed(ids, edges, |ids|);
    var s := Start(ids, edges);
    assert s.order + s.q == s.q;
  }

  lemma IndegreesKeys(ids: seq<Id>, edges: seq<Edge>)
    ensures forall v :: v in ids ==> v in Indegrees(ids, edges)
  {
  }

  lemma {:induction false} RunServed(ids: seq<Id>, edges: seq<Edge>, s: Kahn)
    requires Distinct(ids) && Between(ids, edges) && Inv(ids, edges, s) && Served(ids, edges, s.order, s.order + s.q)
    ensures var t := Run(ids, edges, s); Served(ids, edges, t.order, t.order)
    decreases |ids| - |s.order|
  {
    hide Served, Pop;
    if s.q == [] {
      assert s.order + s.q == s.order;
    } else {
      PopKeepsInv(ids, edges, s);
      OrderFitsInv(ids, edges, Pop(edges, s));
      PopKeepsServed(ids, edges, s);
      RunServed(ids, edges, Pop(edges, s));
    }
  }

  /** The order of an acyclic workflow: the nodes without predecessors as they are declared, then the others as they are released, that is
      by the place of the last predecessor and, below one predecessor, by the last edge from it. */
  lemma TopoOrderServes(ids: seq<Id>, edges: seq<Edge>)
    requires Distinct(ids) && Between(ids, edges) && Acyclic(ArcsIn(edges))
    ensures Served(ids, edges, TopoOrder(ids, edges), TopoOrder(ids, edges))
  {
    hide Served, Run, Start, Acyclic, Topological;
    TopoOrderIsTopological(ids, edges);
    StartServed(ids, edges);
    RunServed(ids, edges, Start(ids, edges));
  }

  /** Every node with a predecessor has such a release. */
  lemma {:induction false} IsReleased(edges: seq<Edge>, order: seq<Id>, v: Id) returns (p: nat, e: nat)
    requires !Source(edges, v) && forall f :: 0 <= f < |edges| && edges[f].1 == v ==> edges[f].0 in order
    requires Distinct(order)
    ensures ReleasedBy(edges, order, v, p, e)
  {
    var n := |edges| - 1;
    var front := edges[..n];
    assert forall f :: 0 <= f < n ==> front[f] == edges[f];
    if edges[n].1 != v {
      var f :| 0 <= f < |edges| && edges[f].1 == v;
      assert front[f].1 == v;
      p, e := IsReleased(front, order, v);
    } else {
      var last := IndexOf(order, edges[n].0);
      p, e := last, n;
      if !Source(front, v) {
        var before, at := IsReleased(front, order, v);
        if before > last {
          p, e := before, at;
          assert order[..before][last] == edges[n].0;
        } else {
          EarlierPlaces(order, before, last);
        }
      }
    }
  }

  lemma EarlierPlaces(order: seq<Id>, p: nat, q: nat)
    requires p <= q < |order|
    ensures forall v :: v in order[..p] ==> v in order[..q]
    ensures p < q ==> order[p] in order[..q]
  {
    assert order[..q][..p] == order[..p];
    assert p < q ==> order[..q][p] == order[p];
  }
}
