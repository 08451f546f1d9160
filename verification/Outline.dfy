/** The outline of a graph view: breadth-first from the nodes without incoming edges, then everything else. */
module Outline {
  import opened Wrappers
  import opened Digraph
  import opened Ordering
  import opened GraphModel
  import opened Sequences

  datatype OutlineItem = OutlineItem(id: Id, caption: string, nodeType: NodeType, depth: nat, children: seq<Id>)

  function ArcsOf(edges: seq<Edge>): Arcs<Id> {
    set e | e in edges :: (e.from, e.to)
  }

  /** The targets of a node's edges, in edge order. */
  function Children(edges: seq<Edge>, u: Id): seq<Id> {
    if edges == [] then []
    else
      var n := |edges| - 1;
      Children(edges[..n], u) + if edges[n].from == u then [edges[n].to] else []
  }

  function Indegree(edges: seq<Edge>, v: Id): nat {
    if edges == [] then 0
    else
      var n := |edges| - 1;
      Indegree(edges[..n], v) + if edges[n].to == v then 1 else 0
  }

  function Ids(nodes: seq<Node>): set<Id> {
    set n | n in nodes :: n.id
  }

  function NodeAt(nodes: seq<Node>, id: Id): Node
    requires Lists(nodes, id)
  {
    if nodes[|nodes| - 1].id == id then nodes[|nodes| - 1] else NodeAt(nodes[..|nodes| - 1], id)
  }

  function RootSet(g: Graph): set<Id> {
    set id | id in Ids(g.nodes) && Indegree(g.edges, id) == 0
  }

  lemma {:induction false} ChildrenAreArcs(edges: seq<Edge>, u: Id, v: Id)
    ensures v in Children(edges, u) <==> (u, v) in ArcsOf(edges)
  {
    if edges != [] {
      var n := |edges| - 1;
      ChildrenAreArcs(edges[..n], u, v);
      assert edges == edges[..n] + [edges[n]];
    }
  }

  lemma {:induction false} IndegreeZero(edges: seq<Edge>, v: Id)
    ensures Indegree(edges, v) == 0 <==> forall a :: a in ArcsOf(edges) ==> a.1 != v
  {
    if edges != [] {
      var n := |edges| - 1;
      IndegreeZero(edges[..n], v);
      assert edges == edges[..n] + [edges[n]];
      assert ArcsOf(edges) == ArcsOf(edges[..n]) + {(edges[n].from, edges[n].to)};
    }
  }

  // ---------------------------------------------------------------- distance from the roots

  /** A walk of d edges from some root to x. */
  ghost predicate RootWalk(g: Graph, p: seq<Id>, x: Id) {
    IsWalk(ArcsOf(g.edges), p) && p[0] in RootSet(g) && p[|p| - 1] == x
  }

  ghost predicate AtDepth(g: Graph, x: Id, d: nat) {
    exists p :: RootWalk(g, p, x) && |p| == d + 1
  }

  ghost predicate FromRoot(g: Graph, x: Id) {
    exists p :: RootWalk(g, p, x)
  }

  /** d is the length of a shortest walk from any root to x. */
  ghost predicate ShortestDepth(g: Graph, x: Id, d: nat) {
    AtDepth(g, x, d) && forall p :: RootWalk(g, p, x) ==> d + 1 <= |p|
  }

  lemma AtDepthStep(g: Graph, x: Id, d: nat, y: Id)
    requires AtDepth(g, x, d) && (x, y) in ArcsOf(g.edges)
    ensures AtDepth(g, y, d + 1)
  {
    var p :| RootWalk(g, p, x) && |p| == d + 1;
    WalkExtends(ArcsOf(g.edges), p, y);
    assert RootWalk(g, p + [y], y);
  }

  // ---------------------------------------------------------------- the search invariant

  type Queue = seq<(Id, nat)>

  /** y is already listed at depth at most d, or waits in the queue with such a depth. */
  ghost predicate Covered(q: Queue, depth: map<Id, nat>, y: Id, d: nat) {
    (y in depth && depth[y] <= d) || exists i :: 0 <= i < |q| && q[i].0 == y && q[i].1 <= d
  }

  /** Queued depths are ascending and span at most two levels; nothing listed is deeper than the head. */
  ghost predicate Layered(q: Queue, depth: map<Id, nat>) {
    && (forall i, j :: 0 <= i < j < |q| ==> q[i].1 <= q[j].1)
    && (forall i :: 0 <= i < |q| ==> q[i].1 <= q[0].1 + 1)
    && (q != [] ==> forall x :: x in depth ==> depth[x] <= q[0].1)
  }

  ghost predicate Real(g: Graph, q: Queue, depth: map<Id, nat>) {
    && (forall x :: x in depth ==> x in Ids(g.nodes) && AtDepth(g, x, depth[x]))
    && (forall i :: 0 <= i < |q| ==> q[i].0 in Ids(g.nodes) && AtDepth(g, q[i].0, q[i].1))
  }

  ghost predicate Complete(g: Graph, q: Queue, depth: map<Id, nat>) {
    && (forall r :: r in RootSet(g) ==> Covered(q, depth, r, 0))
    && (forall x, y :: x in depth && (x, y) in ArcsOf(g.edges) ==> Covered(q, depth, y, depth[x] + 1))
  }

  lemma SkipKeeps(g: Graph, q: Queue, depth: map<Id, nat>)
    requires q != [] && q[0].0 in depth && Layered(q, depth) && Real(g, q, depth) && Complete(g, q, depth)
    ensures Layered(q[1..], depth) && Real(g, q[1..], depth) && Complete(g, q[1..], depth)
  {
    hide AtDepth;
    forall y, d | Covered(q, depth, y, d)
      ensures Covered(q[1..], depth, y, d)
    {
      CoveredAfterPop(q, depth, y, d);
    }
  }

  lemma CoveredAfterPop(q: Queue, depth: map<Id, nat>, y: Id, d: nat)
    requires q != [] && q[0].0 in depth && depth[q[0].0] <= q[0].1 && Covered(q, depth, y, d)
    ensures Covered(q[1..], depth, y, d)
  {
    if !(y in depth && depth[y] <= d) {
      var i :| 0 <= i < |q| && q[i].0 == y && q[i].1 <= d;
      assert q[1..][i - 1] == q[i];
    }
  }

  function At(ids: seq<Id>, d: nat): Queue {
    seq(|ids|, i requires 0 <= i < |ids| => (ids[i], d))
  }

  lemma CoveredGrows(q: Queue, more: Queue, depth: map<Id, nat>, y: Id, d: nat)
    requires Covered(q, depth, y, d)
    ensures Covered(q + more, depth, y, d)
  {
    if !(y in depth && depth[y] <= d) {
      var i :| 0 <= i < |q| && q[i].0 == y && q[i].1 <= d;
      assert (q + more)[i] == q[i];
    }
  }

  lemma VisitLayered(q: Queue, depth: map<Id, nat>, kids: seq<Id>)
    requires q != [] && q[0].0 !in depth && Layered(q, depth)
    ensures Layered(q[1..] + At(kids, q[0].1 + 1), depth[q[0].0 := q[0].1])
  {
  }

  lemma VisitReal(g: Graph, q: Queue, depth: map<Id, nat>)
    requires Joined(g) && q != [] && Real(g, q, depth)
    ensures Real(g, q[1..] + At(Children(g.edges, q[0].0), q[0].1 + 1), depth[q[0].0 := q[0].1])
  {
    hide AtDepth;
    var kids := Children(g.edges, q[0].0);
    forall i | 0 <= i < |kids|
      ensures kids[i] in Ids(g.nodes) && AtDepth(g, kids[i], q[0].1 + 1)
    {
      ChildrenAreArcs(g.edges, q[0].0, kids[i]);
      AtDepthStep(g, q[0].0, q[0].1, kids[i]);
      ArcListed(g, q[0].0, kids[i]);
    }
  }

  lemma ArcListed(g: Graph, u: Id, v: Id)
    requires Joined(g) && (u, v) in ArcsOf(g.edges)
    ensures v in Ids(g.nodes)
  {
    var e :| e in g.edges && (e.from, e.to) == (u, v);
    var i :| 0 <= i < |g.edges| && g.edges[i] == e;
    var j :| 0 <= j < |g.nodes| && g.nodes[j].id == v;
    assert g.nodes[j] in g.nodes;
  }

  lemma VisitComplete(g: Graph, q: Queue, depth: map<Id, nat>)
    requires q != [] && q[0].0 !in depth && Complete(g, q, depth)
    ensures Complete(g, q[1..] + At(Children(g.edges, q[0].0), q[0].1 + 1), depth[q[0].0 := q[0].1])
  {
    hide Covered, Children;
    var (u, du) := q[0];
    var kids, far := Children(g.edges, u), depth[u := du];
    forall y, d | Covered(q, depth, y, d)
      ensures Covered(q[1..] + At(kids, du + 1), far, y, d)
    {
      CoveredFar(q, depth, y, d);
      CoveredAfterPop(q, far, y, d);
      CoveredGrows(q[1..], At(kids, du + 1), far, y, d);
    }
    forall y | (u, y) in ArcsOf(g.edges)
      ensures Covered(q[1..] + At(kids, du + 1), far, y, du + 1)
    {
      ChildrenAreArcs(g.edges, u, y);
      KidCovered(q[1..], kids, du + 1, far, y);
    }
  }

  lemma CoveredFar(q: Queue, depth: map<Id, nat>, y: Id, d: nat)
    requires q != [] && q[0].0 !in depth && Covered(q, depth, y, d)
    ensures Covered(q, depth[q[0].0 := q[0].1], y, d)
  {
  }

  lemma KidCovered(q: Queue, kids: seq<Id>, d: nat, depth: map<Id, nat>, y: Id)
    requires y in kids
    ensures Covered(q + At(kids, d), depth, y, d)
  {
    var i :| 0 <= i < |kids| && kids[i] == y;
    assert (q + At(kids, d))[|q| + i] == (y, d);
  }

  lemma {:induction false} FinishedWalk(g: Graph, depth: map<Id, nat>, p: seq<Id>, x: Id, i: nat)
    requires Complete(g, [], depth) && RootWalk(g, p, x) && i < |p|
    ensures p[i] in depth && depth[p[i]] <= i
  {
    if i == 0 {
      assert Covered([], depth, p[0], 0);
    } else {
      FinishedWalk(g, depth, p, x, i - 1);
      assert (p[i - 1], p[i]) in ArcsOf(g.edges);
      assert Covered([], depth, p[i], depth[p[i - 1]] + 1);
    }
  }

  /** With an empty queue the listed depths are the shortest distances, and exactly the reachable nodes are listed. */
  lemma FinishedIsShortest(g: Graph, depth: map<Id, nat>, x: Id)
    requires Real(g, [], depth) && Complete(g, [], depth)
    ensures x in depth <==> FromRoot(g, x)
    ensures x in depth ==> ShortestDepth(g, x, depth[x])
  {
    forall p | RootWalk(g, p, x)
      ensures x in depth && depth[x] + 1 <= |p|
    {
      FinishedWalk(g, depth, p, x, |p| - 1);
    }
    if x in depth {
      var p :| RootWalk(g, p, x) && |p| == depth[x] + 1;
    }
  }

  // ---------------------------------------------------------------- the outline

  /** The items so far: one per listed node, with its depth, label, type and children. */
  ghost predicate Itemised(g: Graph, out: seq<OutlineItem>, depth: map<Id, nat>) {
    && (forall i, j :: 0 <= i < j < |out| ==> out[i].id != out[j].id)
    && (forall x :: x in depth ==> exists i :: 0 <= i < |out| && out[i].id == x)
    && (forall i :: 0 <= i < |out| ==> out[i].id in depth && ItemFor(g, out[i], depth[out[i].id], Children(g.edges, out[i].id)))
  }

  ghost predicate ItemFor(g: Graph, item: OutlineItem, d: nat, children: seq<Id>) {
    Lists(g.nodes, item.id) && item.caption == NodeAt(g.nodes, item.id).caption && item.nodeType == NodeAt(g.nodes, item.id).nodeType
    && item.depth == d && item.children == children
  }

  function Orphans(nodes: seq<Node>, seen: set<Id>): seq<OutlineItem> {
    if nodes == [] then []
    else
      var n := |nodes| - 1;
      Orphans(nodes[..n], seen) + if nodes[n].id in seen then [] else [OutlineItem(nodes[n].id, nodes[n].caption, nodes[n].nodeType, 0, [])]
  }

  lemma IdsListed(nodes: seq<Node>, id: Id)
    ensures id in Ids(nodes) <==> Lists(nodes, id)
  {
    if Lists(nodes, id) {
      var i :| 0 <= i < |nodes| && nodes[i].id == id;
      assert nodes[i] in nodes;
    }
  }

  lemma ItemisedStep(g: Graph, out: seq<OutlineItem>, depth: map<Id, nat>, item: OutlineItem)
    requires Itemised(g, out, depth) && item.id !in depth && ItemFor(g, item, item.depth, Children(g.edges, item.id))
    ensures Itemised(g, out + [item], depth[item.id := item.depth])
  {
    hide ItemFor, Children;
    var all, far := out + [item], depth[item.id := item.depth];
    forall x | x in far
      ensures exists i :: 0 <= i < |all| && all[i].id == x
    {
      if x == item.id {
        assert all[|out|].id == x;
      } else {
        var i :| 0 <= i < |out| && out[i].id == x;
        assert all[i].id == x;
      }
    }
  }

  lemma SearchStarts(g: Graph, roots: seq<Id>)
    requires forall x :: x in roots <==> x in RootSet(g)
    ensures Layered(At(roots, 0), map[]) && Real(g, At(roots, 0), map[]) && Complete(g, At(roots, 0), map[])
  {
    forall i | 0 <= i < |roots|
      ensures AtDepth(g, roots[i], 0)
    {
      assert roots[i] in roots;
      assert RootWalk(g, [roots[i]], roots[i]);
    }
    forall r | r in RootSet(g)
      ensures Covered(At(roots, 0), map[], r, 0)
    {
      KidCovered([], roots, 0, map[], r);
      assert [] + At(roots, 0) == At(roots, 0);
    }
  }

  // ---------------------------------------------------------------- the order of the outline

  /** The children of a node stand in the order of its edges. */
  lemma {:induction false} ChildrenAt(edges: seq<Edge>, u: Id) returns (at: seq<nat>)
    ensures Places(at, set i | 0 <= i < |edges| && edges[i].from == u)
    ensures |at| == |Children(edges, u)| && forall k :: 0 <= k < |at| ==> at[k] < |edges| && Children(edges, u)[k] == edges[at[k]].to
  {
    at := [];
    if edges != [] {
      var n := |edges| - 1;
      at := ChildrenAt(edges[..n], u);
      var before := set i | 0 <= i < n && edges[..n][i].from == u;
      assert (set i | 0 <= i < |edges| && edges[i].from == u) == before + if edges[n].from == u then {n} else {};
      if edges[n].from == u {
        PlacesSnoc(at, before, n);
        at := at + [n];
      } else {
        assert before + {} == before;
      }
    }
  }

  function IdsOf(out: seq<OutlineItem>): seq<Id> {
    seq(|out|, i requires 0 <= i < |out| => out[i].id)
  }

  /** Every value at its first place only. */
  function Firsts(s: seq<Id>): seq<Id> {
    if s == [] then []
    else
      var front := Firsts(s[..|s| - 1]);
      if s[|s| - 1] in front then front else front + [s[|s| - 1]]
  }

  function ChildrenOfAll(edges: seq<Edge>, ids: seq<Id>): seq<Id> {
    if ids == [] then [] else ChildrenOfAll(edges, ids[..|ids| - 1]) + Children(edges, ids[|ids| - 1])
  }

  /** Whom the listed nodes let in: the roots in ascending order, then the children of each listed node in turn. */
  function Line(g: Graph, ids: seq<Id>): seq<Id> {
    Sorted(RootSet(g)) + ChildrenOfAll(g.edges, ids)
  }

  /** The first `k` in line have had their turn: they are listed, each once, and the others wait. */
  ghost predicate InTurn(g: Graph, ids: seq<Id>, q: Queue, k: nat) {
    && k <= |Line(g, ids)| && ids == Firsts(Line(g, ids)[..k])
    && |q| == |Line(g, ids)| - k && forall i :: 0 <= i < |q| ==> q[i].0 == Line(g, ids)[k + i]
  }

  lemma TurnsStart(g: Graph)
    ensures InTurn(g, [], At(Sorted(RootSet(g)), 0), 0)
  {
    hide RootSet, Sorted;
    assert Sorted(RootSet(g)) + [] == Sorted(RootSet(g));
  }

  lemma TurnSkipped(g: Graph, ids: seq<Id>, q: Queue, k: nat)
    requires InTurn(g, ids, q, k) && q != [] && q[0].0 in ids
    ensures InTurn(g, ids, q[1..], k + 1)
  {
    hide Line;
    var line := Line(g, ids);
    assert line[..k + 1][..k] == line[..k];
  }

  lemma TurnTaken(g: Graph, ids: seq<Id>, q: Queue, k: nat, d: nat)
    requires InTurn(g, ids, q, k) && q != [] && q[0].0 !in ids
    ensures InTurn(g, ids + [q[0].0], q[1..] + At(Children(g.edges, q[0].0), d), k + 1)
  {
    hide Children, RootSet, Sorted;
    var u := q[0].0;
    var line, kids := Line(g, ids), Children(g.edges, u);
    assert (ids + [u])[..|ids|] == ids;
    assert Line(g, ids + [u]) == line + kids;
    hide Line;
    var longer := line + kids;
    assert longer[..k + 1] == line[..k] + [u];
    assert longer[..k + 1][..k] == line[..k];
  }

  /** The listed ids are, in order, the first of each in line. */
  ghost predicate BreadthFirst(g: Graph, ids: seq<Id>) {
    ids == Firsts(Line(g, ids))
  }

  lemma TurnsEnd(g: Graph, ids: seq<Id>, k: nat)
    requires InTurn(g, ids, [], k)
    ensures BreadthFirst(g, ids)
  {
    hide Line;
    assert Line(g, ids)[..k] == Line(g, ids);
  }

  lemma ItemisedIds(g: Graph, out: seq<OutlineItem>, depth: map<Id, nat>)
    requires Itemised(g, out, depth)
    ensures forall x :: x in IdsOf(out) <==> x in depth
  {
    hide ItemFor, Children;
    forall x | x in depth
      ensures x in IdsOf(out)
    {
      var i :| 0 <= i < |out| && out[i].id == x;
      assert IdsOf(out)[i] == x;
    }
  }

  lemma IdsSnoc(out: seq<OutlineItem>, item: OutlineItem)
    ensures IdsOf(out + [item]) == IdsOf(out) + [item.id]
  {
  }

  /** The breadth-first part. An id may wait several times; only its first turn lists it. */
  method ListReachable(g: Graph) returns (out: seq<OutlineItem>, seen: set<Id>, ghost depth: map<Id, nat>)
    requires Joined(g)
    ensures Itemised(g, out, depth) && seen == depth.Keys && BreadthFirst(g, IdsOf(out))
    ensures Real(g, [], depth) && Complete(g, [], depth)
  {
    hide Layered, Real, Complete, Itemised, Children, RootSet, ItemFor, InTurn, BreadthFirst;
    var roots := Sorted(RootSet(g));
    var q := At(roots, 0);
    out, seen, depth := [], {}, map[];
    SearchStarts(g, roots);
    NothingItemised(g);
    TurnsStart(g);
    assert IdsOf([]) == [];
    ghost var k := 0;
    while q != []
      invariant Layered(q, depth) && Real(g, q, depth) && Complete(g, q, depth)
      invariant Itemised(g, out, depth) && seen == depth.Keys && InTurn(g, IdsOf(out), q, k)
      decreases Ids(g.nodes) - seen, |q|
    {
      var (id, d) := q[0];
      RealHead(g, q, depth);
      ItemisedIds(g, out, depth);
      if id in seen {
        SkipKeeps(g, q, depth);
        TurnSkipped(g, IdsOf(out), q, k);
        q := q[1..];
      } else {
        IdsListed(g.nodes, id);
        var node, kids := NodeAt(g.nodes, id), Children(g.edges, id);
        var item := OutlineItem(id, node.caption, node.nodeType, d, kids);
        MakesItem(g, item);
        ItemisedStep(g, out, depth, item);
        VisitLayered(q, depth, kids);
        VisitReal(g, q, depth);
        VisitComplete(g, q, depth);
        TurnTaken(g, IdsOf(out), q, k, d + 1);
        IdsSnoc(out, item);
        out := out + [item];
        seen := seen + {id};
        depth := depth[id := d];
        q := q[1..] + At(kids, d + 1);
      }
      k := k + 1;
    }
    TurnsEnd(g, IdsOf(out), k);
  }

  lemma NothingItemised(g: Graph)
    ensures Itemised(g, [], map[])
  {
  }

  lemma RealHead(g: Graph, q: Queue, depth: map<Id, nat>)
    requires Real(g, q, depth) && q != []
    ensures q[0].0 in Ids(g.nodes)
  {
  }

  lemma MakesItem(g: Graph, item: OutlineItem)
    requires Lists(g.nodes, item.id)
    requires item == OutlineItem(item.id, NodeAt(g.nodes, item.id).caption, NodeAt(g.nodes, item.id).nodeType, item.depth, Children(g.edges, item.id))
    ensures ItemFor(g, item, item.depth, Children(g.edges, item.id))
  {
  }

  /** What an item says about its node: depth and children if a root reaches it, depth zero and no children if none does. */
  ghost predicate Describes(g: Graph, item: OutlineItem) {
    if FromRoot(g, item.id) then ShortestDepth(g, item.id, item.depth) && item.children == Children(g.edges, item.id)
    else item.depth == 0 && item.children == []
  }

  lemma {:induction false} OrphanItems(g: Graph, nodes: seq<Node>, seen: set<Id>)
    requires forall x :: x in seen <==> FromRoot(g, x)
    ensures forall i :: 0 <= i < |Orphans(nodes, seen)| ==> Describes(g, Orphans(nodes, seen)[i]) && Orphans(nodes, seen)[i].id !in seen
  {
    hide FromRoot;
    if nodes != [] {
      OrphanItems(g, nodes[..|nodes| - 1], seen);
    }
  }

  lemma {:induction false} OrphansCover(nodes: seq<Node>, seen: set<Id>)
    ensures forall i :: 0 <= i < |nodes| && nodes[i].id !in seen ==> exists j :: 0 <= j < |Orphans(nodes, seen)| && Orphans(nodes, seen)[j].id == nodes[i].id
    ensures forall j :: 0 <= j < |Orphans(nodes, seen)| ==> Lists(nodes, Orphans(nodes, seen)[j].id)
  {
    if nodes != [] {
      var n := |nodes| - 1;
      OrphansCover(nodes[..n], seen);
      var front, all := Orphans(nodes[..n], seen), Orphans(nodes, seen);
      forall i | 0 <= i < |nodes| && nodes[i].id !in seen
        ensures exists j :: 0 <= j < |all| && all[j].id == nodes[i].id
      {
        if i < n {
          assert nodes[..n][i] == nodes[i];
          var j :| 0 <= j < |front| && front[j].id == nodes[..n][i].id;
          assert all[j] == front[j];
        } else {
          assert all[|front|].id == nodes[n].id;
        }
      }
      forall j | 0 <= j < |all|
        ensures Lists(nodes, all[j].id)
      {
        if j < |front| {
          var i :| 0 <= i < n && nodes[..n][i].id == front[j].id;
          assert nodes[i].id == all[j].id;
        }
      }
    }
  }

  lemma {:induction false} OrphansDistinct(nodes: seq<Node>, seen: set<Id>)
    requires UniqueIds(nodes)
    ensures forall i, j :: 0 <= i < j < |Orphans(nodes, seen)| ==> Orphans(nodes, seen)[i].id != Orphans(nodes, seen)[j].id
    ensures forall j :: 0 <= j < |Orphans(nodes, seen)| ==> Lists(nodes, Orphans(nodes, seen)[j].id)
  {
    if nodes != [] {
      var n := |nodes| - 1;
      OrphansDistinct(nodes[..n], seen);
      var front := Orphans(nodes[..n], seen);
      forall j | 0 <= j < |front|
        ensures Lists(nodes, front[j].id) && front[j].id != nodes[n].id
      {
        var i :| 0 <= i < n && nodes[..n][i].id == front[j].id;
        assert nodes[i].id == front[j].id;
      }
    }
  }

  ghost predicate HasItem(out: seq<OutlineItem>, id: Id) {
    exists j :: 0 <= j < |out| && out[j].id == id
  }

  function Unreached(n: Node): OutlineItem {
    OutlineItem(n.id, n.caption, n.nodeType, 0, [])
  }

  lemma {:induction false} OrphansAt(nodes: seq<Node>, seen: set<Id>) returns (at: seq<nat>)
    ensures Places(at, set i | 0 <= i < |nodes| && nodes[i].id !in seen)
    ensures |at| == |Orphans(nodes, seen)|
    ensures forall k :: 0 <= k < |at| ==> at[k] < |nodes| && Orphans(nodes, seen)[k] == Unreached(nodes[at[k]])
  {
    at := [];
    if nodes != [] {
      var n := |nodes| - 1;
      at := OrphansAt(nodes[..n], seen);
      var before := set i | 0 <= i < n && nodes[..n][i].id !in seen;
      assert (set i | 0 <= i < |nodes| && nodes[i].id !in seen) == before + if nodes[n].id !in seen then {n} else {};
      if nodes[n].id !in seen {
        PlacesSnoc(at, before, n);
        at := at + [n];
      } else {
        assert before + {} == before;
      }
    }
  }

  /** The item shows caption and type of a node with its id; of several such nodes, the last one when a root reaches them. */
  ghost predicate Labelled(g: Graph, item: OutlineItem) {
    exists i :: 0 <= i < |g.nodes| && ShowsNode(g, item, i)
  }

  ghost predicate ShowsNode(g: Graph, item: OutlineItem, i: nat) {
    && i < |g.nodes| && g.nodes[i].id == item.id && item.caption == g.nodes[i].caption && item.nodeType == g.nodes[i].nodeType
    && (FromRoot(g, item.id) ==> LastWith(g.nodes, i, item.id))
  }

  lemma {:induction false} NodeAtIsLast(nodes: seq<Node>, id: Id) returns (i: nat)
    requires Lists(nodes, id)
    ensures LastWith(nodes, i, id) && nodes[i] == NodeAt(nodes, id)
  {
    var n := |nodes| - 1;
    if nodes[n].id == id {
      i := n;
    } else {
      i := NodeAtIsLast(nodes[..n], id);
    }
  }

  lemma ItemsLabelled(g: Graph, reached: seq<OutlineItem>, depth: map<Id, nat>)
    requires Itemised(g, reached, depth) && Real(g, [], depth) && Complete(g, [], depth)
    ensures var out := reached + Orphans(g.nodes, depth.Keys); forall i :: 0 <= i < |out| ==> Labelled(g, out[i])
  {
    hide ShortestDepth, FromRoot, Real, Complete, Children, Orphans;
    var at := OrphansAt(g.nodes, depth.Keys);
    var out := reached + Orphans(g.nodes, depth.Keys);
    forall i | 0 <= i < |out|
      ensures Labelled(g, out[i])
    {
      FinishedIsShortest(g, depth, out[i].id);
      if i < |reached| {
        assert ItemFor(g, reached[i], depth[reached[i].id], Children(g.edges, reached[i].id));
        var k := NodeAtIsLast(g.nodes, out[i].id);
        assert ShowsNode(g, out[i], k);
      } else {
        var k := at[i - |reached|];
        assert k in at;
        assert out[i] == Unreached(g.nodes[k]);
        assert ShowsNode(g, out[i], k);
      }
    }
  }

  /** Exactly the ids of the view, each with the label, depth and children it should have; each once if ids are unique. */
  ghost predicate IsOutline(g: Graph, out: seq<OutlineItem>) {
    && (forall i :: 0 <= i < |out| ==> Lists(g.nodes, out[i].id) && Describes(g, out[i]))
    && (forall i :: 0 <= i < |out| ==> Labelled(g, out[i]))
    && (forall i :: 0 <= i < |g.nodes| ==> HasItem(out, g.nodes[i].id))
    && (UniqueIds(g.nodes) ==> forall i, j :: 0 <= i < j < |out| ==> out[i].id != out[j].id)
  }

  lemma NothingMissing(g: Graph, reached: seq<OutlineItem>, depth: map<Id, nat>)
    requires Itemised(g, reached, depth)
    ensures forall i :: 0 <= i < |g.nodes| ==> HasItem(reached + Orphans(g.nodes, depth.Keys), g.nodes[i].id)
  {
    hide Children, Orphans;
    var rest := Orphans(g.nodes, depth.Keys);
    OrphansCover(g.nodes, depth.Keys);
    forall i | 0 <= i < |g.nodes|
      ensures HasItem(reached + rest, g.nodes[i].id)
    {
      var id := g.nodes[i].id;
      if id in depth {
        var j :| 0 <= j < |reached| && reached[j].id == id;
        assert (reached + rest)[j].id == id;
      } else {
        var j :| 0 <= j < |rest| && rest[j].id == id;
        assert (reached + rest)[|reached| + j].id == id;
      }
    }
  }

  /** Every item lists a node and describes it. */
  lemma ItemsDescribe(g: Graph, reached: seq<OutlineItem>, depth: map<Id, nat>)
    requires Itemised(g, reached, depth) && Real(g, [], depth) && Complete(g, [], depth)
    ensures var out := reached + Orphans(g.nodes, depth.Keys);
      forall i :: 0 <= i < |out| ==> Lists(g.nodes, out[i].id) && Describes(g, out[i])
  {
    hide ShortestDepth, FromRoot, Real, Complete, Children, Orphans, Lists;
    forall x
      ensures x in depth <==> FromRoot(g, x)
      ensures x in depth ==> ShortestDepth(g, x, depth[x])
    {
      FinishedIsShortest(g, depth, x);
    }
    OrphanItems(g, g.nodes, depth.Keys);
    OrphansCover(g.nodes, depth.Keys);
  }

  lemma ItemsDiffer(g: Graph, reached: seq<OutlineItem>, depth: map<Id, nat>)
    requires Itemised(g, reached, depth) && Real(g, [], depth) && Complete(g, [], depth) && UniqueIds(g.nodes)
    ensures var out := reached + Orphans(g.nodes, depth.Keys);
      forall i, j :: 0 <= i < j < |out| ==> out[i].id != out[j].id
  {
    hide ShortestDepth, FromRoot, Real, Complete, Children, Orphans, Lists;
    OrphansUnseen(g.nodes, depth.Keys);
    OrphansDistinct(g.nodes, depth.Keys);
  }

  lemma {:induction false} OrphansUnseen(nodes: seq<Node>, seen: set<Id>)
    ensures forall i :: 0 <= i < |Orphans(nodes, seen)| ==> Orphans(nodes, seen)[i].id !in seen
  {
    if nodes != [] {
      OrphansUnseen(nodes[..|nodes| - 1], seen);
    }
  }

  lemma OutlineOf(g: Graph, reached: seq<OutlineItem>, depth: map<Id, nat>)
    requires Itemised(g, reached, depth) && Real(g, [], depth) && Complete(g, [], depth)
    ensures IsOutline(g, reached + Orphans(g.nodes, depth.Keys))
  {
    hide Itemised, Describes, Real, Complete, Orphans, Lists, UniqueIds, HasItem, Labelled;
    ItemsDescribe(g, reached, depth);
    ItemsLabelled(g, reached, depth);
    NothingMissing(g, reached, depth);
    if UniqueIds(g.nodes) {
      ItemsDiffer(g, reached, depth);
    }
  }

  /** First the nodes that roots reach, breadth first; then, at depth zero and as the graph lists them, the nodes that no root reaches. */
  ghost predicate OutlineOrder(g: Graph, out: seq<OutlineItem>, n: nat, at: seq<nat>) {
    && n <= |out| && BreadthFirst(g, IdsOf(out[..n]))
    && Places(at, set i | 0 <= i < |g.nodes| && !FromRoot(g, g.nodes[i].id)) && |at| == |out| - n
    && forall k :: 0 <= k < |at| ==> at[k] < |g.nodes| && out[n + k] == Unreached(g.nodes[at[k]])
  }

  lemma OutlineIsOrdered(g: Graph, reached: seq<OutlineItem>, depth: map<Id, nat>) returns (at: seq<nat>)
    requires BreadthFirst(g, IdsOf(reached)) && Real(g, [], depth) && Complete(g, [], depth)
    ensures OutlineOrder(g, reached + Orphans(g.nodes, depth.Keys), |reached|, at)
  {
    hide BreadthFirst, Real, Complete, Orphans, FromRoot;
    at := OrphansAt(g.nodes, depth.Keys);
    var out := reached + Orphans(g.nodes, depth.Keys);
    assert out[..|reached|] == reached;
    forall x
      ensures x in depth <==> FromRoot(g, x)
    {
      FinishedIsShortest(g, depth, x);
    }
    assert (set i | 0 <= i < |g.nodes| && g.nodes[i].id !in depth.Keys) == set i | 0 <= i < |g.nodes| && !FromRoot(g, g.nodes[i].id);
  }

  method OutlineFrom(g: Graph) returns (out: seq<OutlineItem>)
    requires Joined(g)
    ensures IsOutline(g, out) && exists n, at :: OutlineOrder(g, out, n, at)
  {
    hide IsOutline, Itemised, Real, Complete, OutlineOrder, BreadthFirst;
    var seen;
    ghost var depth;
    out, seen, depth := ListReachable(g);
    OutlineOf(g, out, depth);
    ghost var at := OutlineIsOrdered(g, out, depth);
    ghost var reached := out;
    assert g.nodes[..0] == [];
    for k := 0 to |g.nodes|
      invariant out == reached + Orphans(g.nodes[..k], seen)
    {
      assert g.nodes[..k + 1][..k] == g.nodes[..k];
      var n := g.nodes[k];
      if n.id !in seen {
        out := out + [OutlineItem(n.id, n.caption, n.nodeType, 0, [])];
      }
    }
    assert g.nodes[..|g.nodes|] == g.nodes;
    assert OutlineOrder(g, out, |reached|, at);
  }
}
