/** Shortest paths between two nodes of the graph view: breadth-first along the edges, then ignoring their direction. */
module PathTracing {
  import opened Wrappers
  import opened Digraph
  import opened Sequences

  type Id = string

  datatype Edge = Edge(id: string, from: Id, to: Id)

  datatype Step = Step(to: Id, edgeId: string)
  datatype Via = Via(via: Id, edgeId: string)
  datatype PathTrace = PathTrace(found: bool, nodeIds: seq<Id>, edgeIds: seq<string>)

  function Forward(edges: seq<Edge>): Arcs<Id> {
    set e | e in edges :: (e.from, e.to)
  }

  function Backward(edges: seq<Edge>): Arcs<Id> {
    set e | e in edges :: (e.to, e.from)
  }

  function ArcsFor(edges: seq<Edge>, directed: bool): Arcs<Id> {
    if directed then Forward(edges) else Forward(edges) + Backward(edges)
  }

  /** An edge with this id leads from u to v, or, when direction does not count, from v to u. */
  predicate EdgeJoins(edges: seq<Edge>, directed: bool, edgeId: string, u: Id, v: Id) {
    Edge(edgeId, u, v) in edges || (!directed && Edge(edgeId, v, u) in edges)
  }

  /** A real path: the i-th edge joins the i-th node to the next. */
  ghost predicate IsTrace(edges: seq<Edge>, directed: bool, fromId: Id, toId: Id, nodeIds: seq<Id>, edgeIds: seq<string>) {
    && |nodeIds| == |edgeIds| + 1 && nodeIds[0] == fromId && nodeIds[|edgeIds|] == toId
    && forall i :: 0 <= i < |edgeIds| ==> EdgeJoins(edges, directed, edgeIds[i], nodeIds[i], nodeIds[i + 1])
  }

  /** No walk between the two nodes has fewer nodes. */
  ghost predicate NoShorter(arcs: Arcs<Id>, fromId: Id, toId: Id, n: nat) {
    forall p :: Joins(arcs, p, fromId, toId) ==> n <= |p|
  }

  lemma TraceIsWalk(edges: seq<Edge>, directed: bool, fromId: Id, toId: Id, nodeIds: seq<Id>, edgeIds: seq<string>)
    requires IsTrace(edges, directed, fromId, toId, nodeIds, edgeIds)
    ensures Joins(ArcsFor(edges, directed), nodeIds, fromId, toId)
  {
    forall i | 0 <= i < |nodeIds| - 1
      ensures (nodeIds[i], nodeIds[i + 1]) in ArcsFor(edges, directed)
    {
      assert EdgeJoins(edges, directed, edgeIds[i], nodeIds[i], nodeIds[i + 1]);
    }
  }

  // ---------------------------------------------------------------- successor lists

  function StepsAt(adj: map<Id, seq<Step>>, u: Id): seq<Step> {
    if u in adj then adj[u] else []
  }

  function AddStep(adj: map<Id, seq<Step>>, u: Id, s: Step): map<Id, seq<Step>> {
    adj[u := StepsAt(adj, u) + [s]]
  }

  /** The lists hold exactly the steps that the edges allow. */
  ghost predicate AdjOk(edges: seq<Edge>, directed: bool, adj: map<Id, seq<Step>>) {
    forall u, s :: s in StepsAt(adj, u) <==> EdgeJoins(edges, directed, s.edgeId, u, s.to)
  }

  lemma AdjSnoc(edges: seq<Edge>, directed: bool, adj: map<Id, seq<Step>>, e: Edge)
    requires AdjOk(edges, directed, adj)
    ensures var one := AddStep(adj, e.from, Step(e.to, e.id));
      AdjOk(edges + [e], directed, if directed then one else AddStep(one, e.to, Step(e.from, e.id)))
  {
    hide AdjOk;
    var one := AddStep(adj, e.from, Step(e.to, e.id));
    var all := if directed then one else AddStep(one, e.to, Step(e.from, e.id));
    forall u, s
      ensures s in StepsAt(all, u) <==> EdgeJoins(edges + [e], directed, s.edgeId, u, s.to)
    {
      AdjAt(edges, directed, adj, u, s);
      assert s in StepsAt(one, u) <==> s in StepsAt(adj, u) || (u == e.from && s == Step(e.to, e.id));
    }
    AdjAll(edges + [e], directed, all);
  }

  lemma AdjAt(edges: seq<Edge>, directed: bool, adj: map<Id, seq<Step>>, u: Id, s: Step)
    requires AdjOk(edges, directed, adj)
    ensures s in StepsAt(adj, u) <==> EdgeJoins(edges, directed, s.edgeId, u, s.to)
  {
  }

  lemma AdjAll(edges: seq<Edge>, directed: bool, adj: map<Id, seq<Step>>)
    requires forall u, s :: s in StepsAt(adj, u) <==> EdgeJoins(edges, directed, s.edgeId, u, s.to)
    ensures AdjOk(edges, directed, adj)
  {
  }

  method BuildAdj(edges: seq<Edge>, directed: bool) returns (adj: map<Id, seq<Step>>)
    ensures AdjOk(edges, directed, adj)
  {
    adj := map[];
    for k := 0 to |edges|
      invariant AdjOk(edges[..k], directed, adj)
    {
      hide AdjOk;
      var e := edges[k];
      AdjSnoc(edges[..k], directed, adj, e);
      assert edges[..k + 1] == edges[..k] + [e];
      adj := AddStep(adj, e.from, Step(e.to, e.id));
      if !directed {
        adj := AddStep(adj, e.to, Step(e.from, e.id));
      }
    }
    assert edges[..|edges|] == edges;
  }

  // ---------------------------------------------------------------- the search invariant

  datatype Search = Search(q: seq<Id>, prev: map<Id, Via>, seen: set<Id>)

  /** Each seen node but the start was first reached over a real edge from a seen node one level nearer. */
  ghost predicate Rooted(edges: seq<Edge>, directed: bool, fromId: Id, s: Search, dist: map<Id, nat>) {
    && dist.Keys == s.seen && fromId in dist && dist[fromId] == 0
    && s.prev.Keys == s.seen - {fromId}
    && forall x :: x in s.prev ==>
         s.prev[x].via in dist && dist[x] == dist[s.prev[x].via] + 1 && EdgeJoins(edges, directed, s.prev[x].edgeId, s.prev[x].via, x)
  }

  /** The queue holds distinct seen nodes of level d or d + 1, the nearer ones first. */
  ghost predicate Levelled(s: Search, dist: map<Id, nat>, d: nat) {
    && Distinct(s.q)
    && (forall i :: 0 <= i < |s.q| ==> s.q[i] in dist && d <= dist[s.q[i]] <= d + 1)
    && (forall i, j :: 0 <= i < j < |s.q| && s.q[i] in dist && s.q[j] in dist ==> dist[s.q[i]] <= dist[s.q[j]])
  }

  /** A finished node: neither waiting nor being expanded. Its successors are seen, at most one level further. */
  ghost predicate Expanded(arcs: Arcs<Id>, s: Search, dist: map<Id, nat>, cur: Option<Id>, d: nat) {
    forall x :: x in dist && x !in s.q && cur != Some(x) ==>
      dist[x] <= d && forall a :: a in arcs && a.0 == x ==> a.1 in dist && dist[a.1] <= dist[x] + 1
  }

  /** Every walk from the start stays, for its first d steps, on seen nodes no further than their place in the walk. */
  lemma {:induction false} WalkIsSeen(arcs: Arcs<Id>, fromId: Id, s: Search, dist: map<Id, nat>, cur: Id, d: nat, p: seq<Id>, i: nat)
    requires fromId in dist && dist[fromId] == 0 && cur in dist && dist[cur] == d
    requires Levelled(s, dist, d) && Expanded(arcs, s, dist, Some(cur), d)
    requires IsWalk(arcs, p) && p[0] == fromId && i < |p| && i <= d
    ensures p[i] in dist && dist[p[i]] <= i
  {
    if i > 0 {
      WalkIsSeen(arcs, fromId, s, dist, cur, d, p, i - 1);
      assert (p[i - 1], p[i]) in arcs;
      assert p[i - 1] !in s.q && p[i - 1] != cur;
    }
  }

  lemma NothingShorter(arcs: Arcs<Id>, fromId: Id, toId: Id, s: Search, dist: map<Id, nat>, cur: Id, d: nat)
    requires fromId in dist && dist[fromId] == 0 && cur in dist && dist[cur] == d && toId !in dist
    requires Levelled(s, dist, d) && Expanded(arcs, s, dist, Some(cur), d)
    ensures NoShorter(arcs, fromId, toId, d + 2)
  {
    forall p | Joins(arcs, p, fromId, toId)
      ensures d + 2 <= |p|
    {
      if |p| - 1 <= d {
        WalkIsSeen(arcs, fromId, s, dist, cur, d, p, |p| - 1);
      }
    }
  }

  lemma {:induction false} ClosedWalks(arcs: Arcs<Id>, s: Search, dist: map<Id, nat>, d: nat, p: seq<Id>)
    requires s.q == [] && Expanded(arcs, s, dist, None, d) && IsWalk(arcs, p) && p[0] in dist
    ensures p[|p| - 1] in dist
    decreases |p|
  {
    if |p| > 1 {
      assert (p[0], p[1]) in arcs;
      assert IsWalk(arcs, p[1..]);
      ClosedWalks(arcs, s, dist, d, p[1..]);
    }
  }

  // ---------------------------------------------------------------- the search

  /** The chain of `prev` links from the target back to the start, turned around. */
  method WalkBack(edges: seq<Edge>, directed: bool, fromId: Id, toId: Id, s: Search, ghost dist: map<Id, nat>)
    returns (nodeIds: seq<Id>, edgeIds: seq<string>)
    requires Rooted(edges, directed, fromId, s, dist) && toId in dist
    ensures IsTrace(edges, directed, fromId, toId, nodeIds, edgeIds) && |nodeIds| == dist[toId] + 1
  {
    var nodes, links, walk := [toId], [], toId;
    while walk != fromId
      invariant walk in dist && |nodes| == |links| + 1 && nodes[0] == toId && nodes[|links|] == walk
      invariant dist[walk] + |links| == dist[toId]
      invariant forall i :: 0 <= i < |links| ==> EdgeJoins(edges, directed, links[i], nodes[i + 1], nodes[i])
      decreases dist[walk]
    {
      var p := s.prev[walk];
      links := links + [p.edgeId];
      nodes := nodes + [p.via];
      walk := p.via;
    }
    nodeIds, edgeIds := Reversed(nodes), Reversed(links);
    forall i | 0 <= i < |edgeIds|
      ensures EdgeJoins(edges, directed, edgeIds[i], nodeIds[i], nodeIds[i + 1])
    {
      var k := |links| - 1 - i;
      assert edgeIds[i] == links[k] && nodeIds[i] == nodes[k + 1] && nodeIds[i + 1] == nodes[k];
    }
  }

  function Discover(s: Search, cur: Id, step: Step): Search {
    Search(s.q + [step.to], s.prev[step.to := Via(cur, step.edgeId)], s.seen + {step.to})
  }

  lemma DiscoverRooted(edges: seq<Edge>, directed: bool, fromId: Id, s: Search, dist: map<Id, nat>, cur: Id, step: Step)
    requires Rooted(edges, directed, fromId, s, dist) && cur in dist && step.to !in s.seen
    requires EdgeJoins(edges, directed, step.edgeId, cur, step.to)
    ensures Rooted(edges, directed, fromId, Discover(s, cur, step), dist[step.to := dist[cur] + 1])
  {
    hide EdgeJoins;
  }

  lemma DiscoverLevelled(s: Search, dist: map<Id, nat>, cur: Id, step: Step)
    requires cur in dist && Levelled(s, dist, dist[cur]) && step.to !in dist
    ensures Levelled(Discover(s, cur, step), dist[step.to := dist[cur] + 1], dist[cur])
  {
  }

  lemma DiscoverExpanded(arcs: Arcs<Id>, s: Search, dist: map<Id, nat>, cur: Id, step: Step)
    requires cur in dist && Expanded(arcs, s, dist, Some(cur), dist[cur]) && step.to !in dist
    ensures Expanded(arcs, Discover(s, cur, step), dist[step.to := dist[cur] + 1], Some(cur), dist[cur])
  {
    var t, far := Discover(s, cur, step), dist[step.to := dist[cur] + 1];
    forall x | x in far && x !in t.q && x != cur
      ensures x in dist && x !in s.q && far[x] == dist[x]
    {
      assert t.q[|s.q|] == step.to;
      assert forall y :: y in s.q ==> y in t.q;
    }
  }

  lemma PopKeeps(arcs: Arcs<Id>, s: Search, dist: map<Id, nat>, d: nat)
    requires s.q != [] && Levelled(s, dist, d) && Expanded(arcs, s, dist, None, d)
    ensures s.q[0] in dist
    ensures var t := s.(q := s.q[1..]);
      Levelled(t, dist, dist[s.q[0]]) && Expanded(arcs, t, dist, Some(s.q[0]), dist[s.q[0]]) && s.q[0] !in t.q
  {
    var head, rest := s.q[0], s.q[1..];
    assert s.q == [head] + rest;
    assert forall i :: 0 <= i < |rest| ==> rest[i] == s.q[i + 1];
  }

  lemma ExpandedNow(edges: seq<Edge>, directed: bool, adj: map<Id, seq<Step>>, s: Search, dist: map<Id, nat>, cur: Id)
    requires AdjOk(edges, directed, adj) && cur in dist
    requires Expanded(ArcsFor(edges, directed), s, dist, Some(cur), dist[cur])
    requires forall i :: 0 <= i < |StepsAt(adj, cur)| ==> StepsAt(adj, cur)[i].to in dist && dist[StepsAt(adj, cur)[i].to] <= dist[cur] + 1
    ensures Expanded(ArcsFor(edges, directed), s, dist, None, dist[cur])
  {
    var arcs := ArcsFor(edges, directed);
    forall a | a in arcs && a.0 == cur
      ensures a.1 in dist && dist[a.1] <= dist[cur] + 1
    {
      var e :| e in edges && ((e.from, e.to) == a || (!directed && (e.to, e.from) == a));
      var step := Step(a.1, e.id);
      assert EdgeJoins(edges, directed, step.edgeId, cur, step.to);
      AdjAt(edges, directed, adj, cur, step);
      var i :| 0 <= i < |StepsAt(adj, cur)| && StepsAt(adj, cur)[i] == step;
    }
  }

  /** All the nodes that edges mention; it bounds the search. */
  function Ends(edges: seq<Edge>): set<Id> {
    (set e | e in edges :: e.from) + (set e | e in edges :: e.to)
  }

  /** The target was found while expanding `cur`: its trace is real, and no walk is shorter. */
  ghost predicate Shortest(edges: seq<Edge>, directed: bool, fromId: Id, toId: Id, t: PathTrace) {
    t.found && IsTrace(edges, directed, fromId, toId, t.nodeIds, t.edgeIds)
    && NoShorter(ArcsFor(edges, directed), fromId, toId, |t.nodeIds|)
  }

  /** While `cur` is being expanded: everything holds, and the target has not been seen. */
  ghost predicate Exploring(edges: seq<Edge>, directed: bool, fromId: Id, toId: Id, s: Search, dist: map<Id, nat>, cur: Id) {
    && cur in dist && Rooted(edges, directed, fromId, s, dist) && Levelled(s, dist, dist[cur])
    && Expanded(ArcsFor(edges, directed), s, dist, Some(cur), dist[cur])
    && s.seen <= Ends(edges) + {fromId} && toId !in s.seen
  }

  lemma ExploreStep(edges: seq<Edge>, directed: bool, fromId: Id, toId: Id, s: Search, dist: map<Id, nat>, cur: Id, step: Step)
    requires Exploring(edges, directed, fromId, toId, s, dist, cur) && EdgeJoins(edges, directed, step.edgeId, cur, step.to)
    ensures step.to in s.seen ==> step.to in dist && dist[step.to] <= dist[cur] + 1
    ensures NoShorter(ArcsFor(edges, directed), fromId, toId, dist[cur] + 2)
    ensures step.to !in s.seen ==>
      var t, far := Discover(s, cur, step), dist[step.to := dist[cur] + 1];
      Rooted(edges, directed, fromId, t, far) && (step.to != toId ==> Exploring(edges, directed, fromId, toId, t, far, cur))
  {
    hide Rooted, Levelled, Expanded, NoShorter, EdgeJoins, Ends;
    NothingShorterHere(edges, directed, fromId, toId, s, dist, cur);
    RootedKeys(edges, directed, fromId, s, dist);
    if step.to in s.seen {
      SeenIsNear(edges, directed, fromId, s, dist, cur, step.to);
    } else {
      DiscoverRooted(edges, directed, fromId, s, dist, cur, step);
      DiscoverLevelled(s, dist, cur, step);
      DiscoverExpanded(ArcsFor(edges, directed), s, dist, cur, step);
      StepEnds(edges, directed, cur, step);
    }
  }

  lemma RootedKeys(edges: seq<Edge>, directed: bool, fromId: Id, s: Search, dist: map<Id, nat>)
    requires Rooted(edges, directed, fromId, s, dist)
    ensures dist.Keys == s.seen && fromId in dist
  {
  }

  /** The successors of one node: either one of them is the target, or all of them are seen afterwards. */
  method ExpandNode(edges: seq<Edge>, directed: bool, adj: map<Id, seq<Step>>, fromId: Id, toId: Id, s0: Search, ghost dist0: map<Id, nat>, cur: Id)
    returns (s: Search, hit: Option<PathTrace>, ghost dist: map<Id, nat>)
    requires AdjOk(edges, directed, adj) && Exploring(edges, directed, fromId, toId, s0, dist0, cur)
    ensures hit.Some? ==> Shortest(edges, directed, fromId, toId, hit.value)
    ensures hit.None? ==> Exploring(edges, directed, fromId, toId, s, dist, cur) && Expanded(ArcsFor(edges, directed), s, dist, None, dist[cur])
    ensures s0.seen <= s.seen && (s.seen == s0.seen ==> s.q == s0.q)
  {
    hide AdjOk, EdgeJoins, ArcsFor, Exploring, Rooted, Expanded, NoShorter, IsTrace;
    s, dist, hit := s0, dist0, None;
    var steps := StepsAt(adj, cur);
    ExploringFacts(edges, directed, fromId, toId, s, dist, cur);
    for i := 0 to |steps|
      invariant Exploring(edges, directed, fromId, toId, s, dist, cur) && cur in dist && dist.Keys == s.seen
      invariant s0.seen <= s.seen && (s.seen == s0.seen ==> s.q == s0.q)
      invariant forall j :: 0 <= j < i ==> steps[j].to in dist && dist[steps[j].to] <= dist[cur] + 1
    {
      var step := steps[i];
      assert step in steps;
      AdjAt(edges, directed, adj, cur, step);
      ExploreStep(edges, directed, fromId, toId, s, dist, cur, step);
      if step.to in s.seen {
        continue;
      }
      s := Discover(s, cur, step);
      dist := dist[step.to := dist[cur] + 1];
      if step.to == toId {
        var nodeIds, edgeIds := WalkBack(edges, directed, fromId, toId, s, dist);
        hit := Some(PathTrace(true, nodeIds, edgeIds));
        return;
      }
    }
    ExploringFacts(edges, directed, fromId, toId, s, dist, cur);
    ExpandedNow(edges, directed, adj, s, dist, cur);
  }

  lemma ExploringFacts(edges: seq<Edge>, directed: bool, fromId: Id, toId: Id, s: Search, dist: map<Id, nat>, cur: Id)
    requires Exploring(edges, directed, fromId, toId, s, dist, cur)
    ensures cur in dist && dist.Keys == s.seen && Expanded(ArcsFor(edges, directed), s, dist, Some(cur), dist[cur])
  {
  }

  method TryBfs(edges: seq<Edge>, fromId: Id, toId: Id, directed: bool) returns (r: Option<PathTrace>)
    requires fromId != toId
    ensures r.Some? ==> Shortest(edges, directed, fromId, toId, r.value)
    ensures r.None? ==> !Reaches(ArcsFor(edges, directed), fromId, toId)
  {
    hide AdjOk, EdgeJoins, ArcsFor, Rooted, Levelled, Expanded, Shortest, Ends;
    ghost var arcs := ArcsFor(edges, directed);
    var adj := BuildAdj(edges, directed);
    var s := Search([fromId], map[], {fromId});
    ghost var dist, d := map[fromId := 0], 0;
    StartOk(edges, directed, fromId);
    while s.q != []
      invariant Rooted(edges, directed, fromId, s, dist) && Levelled(s, dist, d) && Expanded(arcs, s, dist, None, d)
      invariant s.seen <= Ends(edges) + {fromId} && toId !in s.seen
      decreases Ends(edges) + {fromId} - s.seen, |s.q|
    {
      PopKeeps(arcs, s, dist, d);
      QueueIrrelevant(edges, directed, fromId, s, s.q[1..], dist);
      var cur := s.q[0];
      var hit;
      s, hit, dist := ExpandNode(edges, directed, adj, fromId, toId, s.(q := s.q[1..]), dist, cur);
      if hit.Some? {
        return hit;
      }
      d := dist[cur];
    }
    RootedKeys(edges, directed, fromId, s, dist);
    forall p | Joins(arcs, p, fromId, toId)
      ensures false
    {
      ClosedWalks(arcs, s, dist, d, p);
    }
    r := None;
  }

  lemma StartOk(edges: seq<Edge>, directed: bool, fromId: Id)
    ensures var s, dist := Search([fromId], map[], {fromId}), map[fromId := 0];
      Rooted(edges, directed, fromId, s, dist) && Levelled(s, dist, 0) && Expanded(ArcsFor(edges, directed), s, dist, None, 0)
  {
    assert [fromId][0] == fromId;
  }

  lemma QueueIrrelevant(edges: seq<Edge>, directed: bool, fromId: Id, s: Search, q: seq<Id>, dist: map<Id, nat>)
    requires Rooted(edges, directed, fromId, s, dist)
    ensures Rooted(edges, directed, fromId, s.(q := q), dist)
  {
  }

  /** A seen neighbour of the node being expanded is at most one level further. */
  lemma SeenIsNear(edges: seq<Edge>, directed: bool, fromId: Id, s: Search, dist: map<Id, nat>, cur: Id, x: Id)
    requires Rooted(edges, directed, fromId, s, dist) && cur in dist && x in s.seen
    requires Levelled(s, dist, dist[cur]) && Expanded(ArcsFor(edges, directed), s, dist, Some(cur), dist[cur])
    ensures x in dist && dist[x] <= dist[cur] + 1
  {
    if x in s.q {
      var i :| 0 <= i < |s.q| && s.q[i] == x;
    }
  }

  lemma NothingShorterHere(edges: seq<Edge>, directed: bool, fromId: Id, toId: Id, s: Search, dist: map<Id, nat>, cur: Id)
    requires Rooted(edges, directed, fromId, s, dist) && cur in dist && toId !in s.seen
    requires Levelled(s, dist, dist[cur]) && Expanded(ArcsFor(edges, directed), s, dist, Some(cur), dist[cur])
    ensures NoShorter(ArcsFor(edges, directed), fromId, toId, dist[cur] + 2)
  {
    NothingShorter(ArcsFor(edges, directed), fromId, toId, s, dist, cur, dist[cur]);
  }

  lemma StepEnds(edges: seq<Edge>, directed: bool, u: Id, step: Step)
    requires EdgeJoins(edges, directed, step.edgeId, u, step.to)
    ensures step.to in Ends(edges)
  {
    if Edge(step.edgeId, u, step.to) in edges {
      assert Edge(step.edgeId, u, step.to).to in Ends(edges);
    } else {
      assert Edge(step.edgeId, step.to, u).from in Ends(edges);
    }
  }

  /** A shortest directed path if there is one, else a shortest path ignoring direction, else nothing. */
  method ShortestPath(edges: seq<Edge>, fromId: Id, toId: Id) returns (t: PathTrace)
    ensures t.found <==> Reaches(ArcsFor(edges, false), fromId, toId)
    ensures Reaches(ArcsFor(edges, true), fromId, toId) ==> Shortest(edges, true, fromId, toId, t)
    ensures t.found && !Reaches(ArcsFor(edges, true), fromId, toId) ==> Shortest(edges, false, fromId, toId, t)
    ensures !t.found ==> t.nodeIds == [] && t.edgeIds == []
  {
    hide IsTrace, NoShorter, ArcsFor;
    if fromId == toId {
      t := PathTrace(true, [fromId], []);
      SelfIsShortest(edges, fromId, t);
      return;
    }
    var first := TryBfs(edges, fromId, toId, true);
    if first.Some? {
      FoundReaches(edges, true, fromId, toId, first.value);
      DirectedIsUndirected(edges, fromId, toId);
      return first.value;
    }
    var second := TryBfs(edges, fromId, toId, false);
    if second.Some? {
      FoundReaches(edges, false, fromId, toId, second.value);
      return second.value;
    }
    DirectedIsUndirected(edges, fromId, toId);
    t := PathTrace(false, [], []);
  }

  lemma SelfIsShortest(edges: seq<Edge>, fromId: Id, t: PathTrace)
    requires t == PathTrace(true, [fromId], [])
    ensures Shortest(edges, true, fromId, fromId, t) && Reaches(ArcsFor(edges, true), fromId, fromId) && Reaches(ArcsFor(edges, false), fromId, fromId)
  {
    assert Joins(ArcsFor(edges, true), [fromId], fromId, fromId);
    assert Joins(ArcsFor(edges, false), [fromId], fromId, fromId);
  }

  lemma FoundReaches(edges: seq<Edge>, directed: bool, fromId: Id, toId: Id, t: PathTrace)
    requires Shortest(edges, directed, fromId, toId, t)
    ensures Reaches(ArcsFor(edges, directed), fromId, toId)
  {
    TraceIsWalk(edges, directed, fromId, toId, t.nodeIds, t.edgeIds);
  }

  lemma DirectedIsUndirected(edges: seq<Edge>, fromId: Id, toId: Id)
    ensures Reaches(ArcsFor(edges, true), fromId, toId) ==> Reaches(ArcsFor(edges, false), fromId, toId)
  {
    if Reaches(ArcsFor(edges, true), fromId, toId) {
      var p :| Joins(ArcsFor(edges, true), p, fromId, toId);
      assert Joins(ArcsFor(edges, false), p, fromId, toId);
    }
  }
}
