/** In which order a collapsed or clustered view lists its nodes, members and edges. */
module ViewOrder {
  import opened Wrappers
  import opened Digraph
  import opened Quotient
  import opened Sequences
  import Collapse
  import Cluster

  // ---------------------------------------------------------------- collapsing

  /** The places of the nodes that belong to a group. */
  ghost function MemberPlaces(nodes: seq<Node>, g: string): set<nat> {
    set i | 0 <= i < |nodes| && nodes[i].groupId == Some(g)
  }

  ghost predicate FirstOf(nodes: seq<Node>, g: string, i: nat) {
    i < |nodes| && nodes[i].groupId == Some(g) && forall j :: 0 <= j < i ==> nodes[j].groupId != Some(g)
  }

  /** The members of a group are the ids of its nodes, in the order of the nodes. */
  ghost predicate MembersListed(nodes: seq<Node>, ids: seq<Id>, g: string, at: seq<nat>) {
    Places(at, MemberPlaces(nodes, g)) && |at| == |ids| && forall k :: 0 <= k < |at| ==> at[k] < |nodes| && ids[k] == nodes[at[k]].id
  }

  lemma MemberPlacesSnoc(nodes: seq<Node>, n: Node, g: string)
    ensures MemberPlaces(nodes + [n], g) == if n.groupId == Some(g) then MemberPlaces(nodes, g) + {|nodes|} else MemberPlaces(nodes, g)
  {
    var all := nodes + [n];
    assert all[|nodes|] == n && forall i :: 0 <= i < |nodes| ==> all[i] == nodes[i];
  }

  function MembersOf(m: Collapse.Membership, g: string): seq<Id> {
    if g in m.members then m.members[g] else []
  }

  lemma InferStep(nodes: seq<Node>, collapsed: set<string>, g: string)
    requires nodes != [] && g in collapsed
    ensures var k := |nodes| - 1;
      MembersOf(Collapse.Infer(nodes, collapsed), g) ==
        MembersOf(Collapse.Infer(nodes[..k], collapsed), g) + if nodes[k].groupId == Some(g) then [nodes[k].id] else []
  {
    var k := |nodes| - 1;
    var front := Collapse.Infer(nodes[..k], collapsed);
    assert MembersOf(front, g) + [] == MembersOf(front, g);
  }

  lemma {:induction false} MembersInOrder(nodes: seq<Node>, collapsed: set<string>, g: string) returns (at: seq<nat>)
    requires g in collapsed
    ensures MembersListed(nodes, MembersOf(Collapse.Infer(nodes, collapsed), g), g, at)
  {
    hide Collapse.Infer, MemberPlaces;
    at := [];
    if nodes == [] {
      NoMembers(collapsed, g);
    } else {
      var k := |nodes| - 1;
      at := MembersInOrder(nodes[..k], collapsed, g);
      InferStep(nodes, collapsed, g);
      MemberPlacesSnoc(nodes[..k], nodes[k], g);
      assert nodes == nodes[..k] + [nodes[k]];
      if nodes[k].groupId == Some(g) {
        PlacesBelow(nodes[..k], g);
        PlacesSnoc(at, MemberPlaces(nodes[..k], g), k);
        at := at + [k];
      }
    }
  }

  lemma PlacesBelow(nodes: seq<Node>, g: string)
    ensures forall i :: i in MemberPlaces(nodes, g) ==> i < |nodes|
  {
  }

  lemma NoMembers(collapsed: set<string>, g: string)
    ensures MembersOf(Collapse.Infer([], collapsed), g) == [] && MemberPlaces([], g) == {}
  {
  }

  ghost predicate Occurs(nodes: seq<Node>, g: string) {
    exists p: nat :: FirstOf(nodes, g, p)
  }

  ghost predicate Sooner(nodes: seq<Node>, g: string, h: string) {
    forall p: nat, q: nat :: FirstOf(nodes, g, p) && FirstOf(nodes, h, q) ==> p < q
  }

  /** The groups stand in the order of their first nodes. */
  ghost predicate GroupsListed(nodes: seq<Node>, order: seq<string>) {
    && (forall a :: 0 <= a < |order| ==> Occurs(nodes, order[a]))
    && forall a, b :: 0 <= a < b < |order| ==> Sooner(nodes, order[a], order[b])
  }

  lemma FirstSnoc(nodes: seq<Node>, n: Node, g: string, p: nat)
    ensures FirstOf(nodes + [n], g, p) <==>
      FirstOf(nodes, g, p) || (p == |nodes| && n.groupId == Some(g) && forall i :: 0 <= i < |nodes| ==> nodes[i].groupId != Some(g))
  {
    var all := nodes + [n];
    assert all[|nodes|] == n && forall i :: 0 <= i < |nodes| ==> all[i] == nodes[i];
  }

  lemma {:induction false} GroupsInOrder(nodes: seq<Node>, collapsed: set<string>)
    ensures GroupsListed(nodes, Collapse.Infer(nodes, collapsed).order)
    ensures forall g :: g in collapsed ==>
      (g in Collapse.Infer(nodes, collapsed).order <==> exists i :: 0 <= i < |nodes| && nodes[i].groupId == Some(g))
  {
    hide FirstOf;
    if nodes != [] {
      var k := |nodes| - 1;
      var n, front, all := nodes[k], Collapse.Infer(nodes[..k], collapsed), Collapse.Infer(nodes, collapsed);
      GroupsInOrder(nodes[..k], collapsed);
      assert nodes == nodes[..k] + [n];
      assert forall i :: 0 <= i < k ==> nodes[..k][i] == nodes[i];
      if Collapse.IsCollapsed(n, collapsed) && n.groupId.value !in front.members {
        assert all.order == front.order + [n.groupId.value];
        NewGroupLast(nodes[..k], n, front.order, n.groupId.value);
      } else {
        assert all.order == front.order;
        SameGroupsListed(nodes[..k], n, front.order);
      }
    }
  }

  lemma OldFirst(nodes: seq<Node>, n: Node, g: string)
    requires Occurs(nodes, g)
    ensures Occurs(nodes + [n], g) && forall p: nat :: FirstOf(nodes + [n], g, p) <==> FirstOf(nodes, g, p)
  {
    var p: nat :| FirstOf(nodes, g, p);
    forall q: nat
      ensures FirstOf(nodes + [n], g, q) <==> FirstOf(nodes, g, q)
    {
      FirstSnoc(nodes, n, g, q);
    }
    assert FirstOf(nodes + [n], g, p);
  }

  lemma OldSooner(nodes: seq<Node>, n: Node, g: string, h: string)
    requires Occurs(nodes, g) && Occurs(nodes, h) && Sooner(nodes, g, h)
    ensures Sooner(nodes + [n], g, h)
  {
    hide FirstOf;
    OldFirst(nodes, n, g);
    OldFirst(nodes, n, h);
  }

  lemma SameGroupsListed(nodes: seq<Node>, n: Node, order: seq<string>)
    requires GroupsListed(nodes, order)
    ensures GroupsListed(nodes + [n], order)
  {
    hide FirstOf, Occurs, Sooner;
    forall a | 0 <= a < |order|
      ensures Occurs(nodes + [n], order[a])
    {
      OldFirst(nodes, n, order[a]);
    }
    forall a, b | 0 <= a < b < |order|
      ensures Sooner(nodes + [n], order[a], order[b])
    {
      OldSooner(nodes, n, order[a], order[b]);
    }
  }

  lemma NewGroupLast(nodes: seq<Node>, n: Node, order: seq<string>, g: string)
    requires GroupsListed(nodes, order) && n.groupId == Some(g) && forall i :: 0 <= i < |nodes| ==> nodes[i].groupId != Some(g)
    ensures GroupsListed(nodes + [n], order + [g])
  {
    SameGroupsListed(nodes, n, order);
    NewFirst(nodes, n, g);
    forall a | 0 <= a < |order|
      ensures Sooner(nodes + [n], order[a], g)
    {
      OldFirst(nodes, n, order[a]);
    }
    hide FirstOf, Occurs, Sooner;
    var longer := order + [g];
    assert forall a :: 0 <= a < |order| ==> longer[a] == order[a];
  }

  lemma NewFirst(nodes: seq<Node>, n: Node, g: string)
    requires n.groupId == Some(g) && forall i :: 0 <= i < |nodes| ==> nodes[i].groupId != Some(g)
    ensures Occurs(nodes + [n], g) && forall p: nat :: FirstOf(nodes + [n], g, p) <==> p == |nodes|
  {
    forall p: nat
      ensures FirstOf(nodes + [n], g, p) <==> p == |nodes|
    {
      FirstSnoc(nodes, n, g, p);
    }
    assert FirstOf(nodes + [n], g, |nodes|);
  }

  // ---------------------------------------------------------------- the collapsed view

  lemma {:induction false} UngroupedAt(nodes: seq<Node>, groupOf: map<Id, string>) returns (at: seq<nat>)
    ensures Places(at, set i | 0 <= i < |nodes| && nodes[i].id !in groupOf)
    ensures var kept := Collapse.Ungrouped(nodes, groupOf);
      |at| == |kept| && forall k :: 0 <= k < |at| ==> at[k] < |nodes| && kept[k] == nodes[at[k]]
  {
    at := [];
    if nodes != [] {
      var n := |nodes| - 1;
      at := UngroupedAt(nodes[..n], groupOf);
      var before := set i | 0 <= i < n && nodes[..n][i].id !in groupOf;
      assert (set i | 0 <= i < |nodes| && nodes[i].id !in groupOf) == before + if nodes[n].id !in groupOf then {n} else {};
      if nodes[n].id !in groupOf {
        PlacesSnoc(at, before, n);
        at := at + [n];
      } else {
        assert before + {} == before;
      }
    }
  }

  /** One stand-in for a group: its id, and the ids of its nodes in the order of the nodes. */
  ghost predicate StandsFor(nodes: seq<Node>, n: Node, g: string) {
    && n.id == "group:" + g && n.groupId == Some(g) && n.members.Some?
    && exists at :: MembersListed(nodes, n.members.value, g, at)
  }

  /** The edge keeps its type and is moved to its new ends; the first one keeps its id, the others get a suffix. */
  function Moved(e: Edge, f: Id -> Id, first: bool): Edge {
    Edge(if first then e.id else e.id + "-c", f(e.from), f(e.to), e.edgeType)
  }

  /** A collapsed view lists the nodes that are in no collapsed group, then one stand-in for each group in the order of the groups' first
      nodes; and of the edges that survive, in their order, the first under its own id and the others with a suffix. */
  lemma CollapsedOrder(view: View, collapsed: set<string>) returns (nodesAt: seq<nat>, groups: seq<string>, edgesAt: seq<nat>)
    requires UniqueIds(view.nodes) && exists i :: 0 <= i < |view.nodes| && Collapse.IsCollapsed(view.nodes[i], collapsed)
    ensures var out, f := Collapse.CollapseView(view, collapsed, []), Collapse.Contraction(view.nodes, collapsed);
      && Places(nodesAt, set i | 0 <= i < |view.nodes| && !Collapse.Grouped(view.nodes, collapsed, view.nodes[i].id))
      && |out.nodes| == |nodesAt| + |groups| && GroupsListed(view.nodes, groups)
      && (forall g :: g in groups <==> g in collapsed && exists i :: 0 <= i < |view.nodes| && view.nodes[i].groupId == Some(g))
      && (forall k :: 0 <= k < |nodesAt| ==> nodesAt[k] < |view.nodes| && out.nodes[k] == view.nodes[nodesAt[k]])
      && (forall k :: 0 <= k < |groups| ==> StandsFor(view.nodes, out.nodes[|nodesAt| + k], groups[k]))
      && Places(edgesAt, set i | 0 <= i < |view.edges| && Collapse.Survives(view.edges, f, i)) && |out.edges| == |edgesAt|
      && forall k :: 0 <= k < |edgesAt| ==> edgesAt[k] < |view.edges| && out.edges[k] == Moved(view.edges[edgesAt[k]], f, k == 0)
  {
    hide Collapse.Infer, Collapse.GroupOf, Collapse.Ungrouped, Collapse.Renamed, Collapse.Resolve, Kept, Places, Collapse.Survives, GroupsListed,
      MembersListed, MembersOf, Collapse.Grouped;
    var m, f := Collapse.Infer(view.nodes, collapsed), Collapse.Contraction(view.nodes, collapsed);
    var groupOf := Collapse.Groups(view.nodes, collapsed);
    SomeGroup(view.nodes, collapsed);
    Collapse.MembersAreExact(view.nodes, collapsed);
    nodesAt := UngroupedAt(view.nodes, groupOf);
    assert (set i | 0 <= i < |view.nodes| && view.nodes[i].id !in groupOf)
        == set i | 0 <= i < |view.nodes| && !Collapse.Grouped(view.nodes, collapsed, view.nodes[i].id);
    groups := m.order;
    GroupsInOrder(view.nodes, collapsed);
    MadeStandFor(view.nodes, collapsed);
    edgesAt := Collapse.Places(view.edges, f);
    EdgesMoved(view.edges, f);
    var made := Collapse.GroupNodes(m);
    assert Collapse.Override(m, [], collapsed) == m;
  }

  lemma SomeGroup(nodes: seq<Node>, collapsed: set<string>)
    requires exists i :: 0 <= i < |nodes| && Collapse.IsCollapsed(nodes[i], collapsed)
    ensures Collapse.Infer(nodes, collapsed).order != [] && collapsed != {}
    ensures forall g :: g in Collapse.Infer(nodes, collapsed).order ==> g in collapsed
  {
    hide Collapse.Infer;
    var i :| 0 <= i < |nodes| && Collapse.IsCollapsed(nodes[i], collapsed);
    GroupsInOrder(nodes, collapsed);
    Collapse.InferFacts(nodes, collapsed);
    assert nodes[i].groupId.value in Collapse.Infer(nodes, collapsed).order;
  }

  lemma MadeStandFor(nodes: seq<Node>, collapsed: set<string>)
    ensures var m := Collapse.Infer(nodes, collapsed);
      forall k :: 0 <= k < |m.order| ==> StandsFor(nodes, Collapse.GroupNodes(m)[k], m.order[k])
  {
    hide Collapse.Infer, MembersListed;
    var m := Collapse.Infer(nodes, collapsed);
    Collapse.InferFacts(nodes, collapsed);
    forall k | 0 <= k < |m.order|
      ensures StandsFor(nodes, Collapse.GroupNodes(m)[k], m.order[k])
    {
      var g := m.order[k];
      assert g in m.order;
      var at := MembersInOrder(nodes, collapsed, g);
      assert MembersListed(nodes, Collapse.GroupNodes(m)[k].members.value, g, at);
    }
  }

  lemma EdgesMoved(edges: seq<Edge>, f: Id -> Id)
    ensures var at, out := Collapse.Places(edges, f), Collapse.Renamed(Kept(edges, f, BarKey), f);
      && Places(at, set i | 0 <= i < |edges| && Collapse.Survives(edges, f, i)) && |out| == |at|
      && forall k :: 0 <= k < |at| ==> at[k] < |edges| && out[k] == Moved(edges[at[k]], f, k == 0)
  {
    hide Kept, Collapse.Places, Collapse.Survives;
    Collapse.PlacesFacts(edges, f);
    var at := Collapse.Places(edges, f);
    forall i
      ensures i in at <==> i in set i | 0 <= i < |edges| && Collapse.Survives(edges, f, i)
    {
      if i < |edges| {
        assert i >= 0 ==> (i in at <==> Collapse.Survives(edges, f, i));
      }
    }
  }

  // ---------------------------------------------------------------- the clustered view

  /** Every k-th of the remaining nodes, starting at number i, in order. */
  lemma {:induction false} BucketAt(left: seq<Node>, i: nat, k: nat) returns (at: seq<nat>)
    requires k > 0
    ensures Places(at, set j | 0 <= j < |left| && j % k == i)
    ensures var ids := Cluster.Bucket(left, i, k); |at| == |ids| && forall b :: 0 <= b < |at| ==> at[b] < |left| && ids[b] == left[at[b]].id
  {
    at := [];
    if left != [] {
      var n := |left| - 1;
      at := BucketAt(left[..n], i, k);
      var before := set j | 0 <= j < n && j % k == i;
      assert (set j | 0 <= j < |left| && j % k == i) == before + if n % k == i then {n} else {};
      if n % k == i {
        PlacesSnoc(at, before, n);
        at := at + [n];
      } else {
        assert before + {} == before;
      }
    }
  }

  lemma {:induction false} ClusterAt(left: seq<Node>, k: nat, i: nat)
    requires i <= k && 0 < k <= |left|
    ensures |Cluster.Clusters(left, k, i)| == i
    ensures forall j :: 0 <= j < i ==>
      Cluster.Clusters(left, k, i)[j] == Node(Cluster.ClusterId(j), None, Some(Cluster.Bucket(left, j, k)))
  {
    hide Cluster.Bucket, Cluster.ClusterId;
    Cluster.NoneSkipped(left, k, i);
    if i != 0 {
      ClusterAt(left, k, i - 1);
      Cluster.NoneSkipped(left, k, i - 1);
    }
  }

  /** One cluster for every fifty nodes or part of fifty, but at least one and at most twelve. */
  lemma BucketCountIs(n: nat)
    ensures var k := Cluster.BucketCount(n); 1 <= k <= 12 && (0 < n <= 600 ==> 50 * (k - 1) < n <= 50 * k) && (n > 600 ==> k == 12)
  {
  }

  ghost predicate IsBucket(left: seq<Node>, c: Node, j: nat, k: nat)
    requires k > 0
  {
    && c.id == "cluster-" + Decimal(j) && c.groupId == None && c.members.Some?
    && exists at :: Places(at, set i | 0 <= i < |left| && i % k == j) && |at| == |c.members.value|
         && forall b :: 0 <= b < |at| ==> at[b] < |left| && c.members.value[b] == left[at[b]].id
  }

  ghost predicate BucketsListed(left: seq<Node>, clusters: seq<Node>) {
    var k := Cluster.BucketCount(|left|);
    |clusters| == k && forall j :: 0 <= j < k ==> IsBucket(left, clusters[j], j, k)
  }

  lemma KeptStep(edges: seq<Edge>, f: Id -> Id, key: Triple -> string)
    requires edges != []
    ensures var n := |edges| - 1; Kept(edges, f, key) == Kept(edges[..n], f, key) || Kept(edges, f, key) == Kept(edges[..n], f, key) + [edges[n]]
  {
  }

  lemma {:induction false} KeptInOrder(edges: seq<Edge>, f: Id -> Id, key: Triple -> string) returns (at: seq<nat>)
    ensures var kept := Kept(edges, f, key);
      |at| == |kept| && (forall i, j :: 0 <= i < j < |at| ==> at[i] < at[j]) && forall i :: 0 <= i < |at| ==> at[i] < |edges| && kept[i] == edges[at[i]]
  {
    KeptOfNone(f, key);
    hide Kept;
    at := [];
    if edges != [] {
      var n := |edges| - 1;
      at := KeptInOrder(edges[..n], f, key);
      KeptStep(edges, f, key);
      if |Kept(edges, f, key)| > |at| {
        at := at + [n];
      }
    }
  }

  lemma KeptOfNone(f: Id -> Id, key: Triple -> string)
    ensures Kept([], f, key) == []
  {
  }

  /** A clustered view lists the hubs in the order of their ranks, then the clusters by number, each with every k-th of the remaining nodes;
      its edges are numbered in the order in which they are first met. */
  lemma ClusteredOrder(view: View, keep: nat) returns (edgesAt: seq<nat>)
    requires keep < |view.nodes|
    ensures var out, ranked, f := Cluster.ClusterView(view, keep), Cluster.Rank(view.nodes, view.edges), Cluster.Target(view.nodes, view.edges, keep);
      && |ranked| == |view.nodes| && keep <= |out.nodes| && out.nodes[..keep] == ranked[..keep]
      && BucketsListed(ranked[keep..], out.nodes[keep..])
      && |edgesAt| == |out.edges| && (forall i, j :: 0 <= i < j < |edgesAt| ==> edgesAt[i] < edgesAt[j])
      && forall i :: 0 <= i < |edgesAt| ==> edgesAt[i] < |view.edges| && out.edges[i] == Numbered(view.edges[edgesAt[i]], f, i + 1)
  {
    hide Cluster.Rank, Cluster.Target, Cluster.Bucket, Cluster.Clusters, Kept, Cluster.Ranked, Cluster.OfDegree;
    var ranked, f := Cluster.Rank(view.nodes, view.edges), Cluster.Target(view.nodes, view.edges, keep);
    Cluster.RankIsStableSort(view.nodes, view.edges);
    var left := ranked[keep..];
    var k := Cluster.BucketCount(|left|);
    BucketCountIs(|left|);
    ClusterAt(left, k, k);
    var out := Cluster.ClusterView(view, keep);
    var clusters := out.nodes[keep..];
    assert clusters == Cluster.AllClusters(left);
    forall j | 0 <= j < k
      ensures IsBucket(left, clusters[j], j, k)
    {
      var at := BucketAt(left, j, k);
    }
    edgesAt := KeptInOrder(view.edges, f, ArrowKey);
  }

  function Numbered(e: Edge, f: Id -> Id, i: nat): Edge {
    Edge("agg-" + Decimal(i), f(e.from), f(e.to), e.edgeType)
  }
}
