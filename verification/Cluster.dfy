/** Clustering a large graph view: the nodes of highest degree stay, the others go into a few synthetic cluster nodes. */
module Cluster {
  import opened Wrappers
  import opened Digraph
  import opened Quotient
  import opened Sequences

  // ---------------------------------------------------------------- ranking by degree

  /** How many edge ends meet a node; an edge from a node to itself counts twice. */
  function Degree(edges: seq<Edge>, id: Id): nat {
    if edges == [] then 0
    else
      var e := edges[|edges| - 1];
      Degree(edges[..|edges| - 1], id) + (if e.from == id then 1 else 0) + (if e.to == id then 1 else 0)
  }

  /** The places of the edges that leave the node, or that lead to it. */
  function Meeting(edges: seq<Edge>, id: Id, leaving: bool): set<nat> {
    set i | 0 <= i < |edges| && (if leaving then edges[i].from else edges[i].to) == id
  }

  lemma MeetingSnoc(edges: seq<Edge>, e: Edge, id: Id, leaving: bool)
    ensures |Meeting(edges + [e], id, leaving)| == |Meeting(edges, id, leaving)| + if (if leaving then e.from else e.to) == id then 1 else 0
  {
    var n, all := |edges|, edges + [e];
    assert all[n] == e && forall i :: 0 <= i < n ==> all[i] == edges[i];
    if (if leaving then e.from else e.to) == id {
      assert Meeting(all, id, leaving) == Meeting(edges, id, leaving) + {n};
    } else {
      assert Meeting(all, id, leaving) == Meeting(edges, id, leaving);
    }
  }

  /** The degree is the number of edges that leave the node and the number of edges that lead to it, added up. */
  lemma {:induction false} DegreeCounts(edges: seq<Edge>, id: Id)
    ensures Degree(edges, id) == |Meeting(edges, id, true)| + |Meeting(edges, id, false)|
  {
    hide Meeting;
    if edges == [] {
      NothingMeets(id);
    } else {
      var n := |edges| - 1;
      DegreeCounts(edges[..n], id);
      MeetingSnoc(edges[..n], edges[n], id, true);
      MeetingSnoc(edges[..n], edges[n], id, false);
      assert edges == edges[..n] + [edges[n]];
    }
  }

  lemma NothingMeets(id: Id)
    ensures Meeting([], id, true) == {} == Meeting([], id, false)
  {
  }

  /** Where a node goes among ranked nodes: behind all nodes of its own degree or more. */
  function Insert(ranked: seq<Node>, n: Node, edges: seq<Edge>): seq<Node> {
    if ranked != [] && Degree(edges, ranked[|ranked| - 1].id) < Degree(edges, n.id)
    then Insert(ranked[..|ranked| - 1], n, edges) + [ranked[|ranked| - 1]]
    else ranked + [n]
  }

  function Rank(nodes: seq<Node>, edges: seq<Edge>): seq<Node> {
    if nodes == [] then [] else Insert(Rank(nodes[..|nodes| - 1], edges), nodes[|nodes| - 1], edges)
  }

  ghost predicate Ranked(s: seq<Node>, edges: seq<Edge>) {
    forall i, j :: 0 <= i < j < |s| ==> Degree(edges, s[i].id) >= Degree(edges, s[j].id)
  }

  /** The nodes of one degree, in order. */
  function OfDegree(s: seq<Node>, edges: seq<Edge>, d: nat): seq<Node> {
    if s == [] then []
    else OfDegree(s[..|s| - 1], edges, d) + if Degree(edges, s[|s| - 1].id) == d then [s[|s| - 1]] else []
  }

  lemma RankedFront(ranked: seq<Node>, edges: seq<Edge>)
    requires Ranked(ranked, edges)
    ensures ranked != [] ==> Ranked(ranked[..|ranked| - 1], edges)
  {
  }

  lemma RankedSnoc(ranked: seq<Node>, n: Node, edges: seq<Edge>)
    requires Ranked(ranked, edges) && forall x :: x in ranked ==> Degree(edges, x.id) >= Degree(edges, n.id)
    ensures Ranked(ranked + [n], edges)
  {
  }

  /** The last of a ranked list has the least degree. */
  lemma LastIsLeast(ranked: seq<Node>, edges: seq<Edge>)
    requires Ranked(ranked, edges) && ranked != []
    ensures forall x :: x in ranked ==> Degree(edges, x.id) >= Degree(edges, ranked[|ranked| - 1].id)
  {
  }

  lemma {:induction false} InsertFacts(ranked: seq<Node>, n: Node, edges: seq<Edge>)
    requires Ranked(ranked, edges)
    ensures Ranked(Insert(ranked, n, edges), edges) && |Insert(ranked, n, edges)| == |ranked| + 1
    ensures forall x :: x in Insert(ranked, n, edges) <==> x in ranked || x == n
  {
    hide Degree, Ranked;
    RankedFront(ranked, edges);
    if ranked != [] {
      LastIsLeast(ranked, edges);
      var k := |ranked| - 1;
      assert ranked == ranked[..k] + [ranked[k]];
      if Degree(edges, ranked[k].id) < Degree(edges, n.id) {
        InsertFacts(ranked[..k], n, edges);
        RankedSnoc(Insert(ranked[..k], n, edges), ranked[k], edges);
      } else {
        RankedSnoc(ranked, n, edges);
      }
    } else {
      RankedSnoc(ranked, n, edges);
    }
  }

  lemma OfDegreeSnoc(s: seq<Node>, n: Node, edges: seq<Edge>, d: nat)
    ensures OfDegree(s + [n], edges, d) == OfDegree(s, edges, d) + if Degree(edges, n.id) == d then [n] else []
  {
    hide Degree;
    assert (s + [n])[..|s|] == s;
  }

  lemma {:induction false} InsertKeepsOrder(ranked: seq<Node>, n: Node, edges: seq<Edge>, d: nat)
    ensures OfDegree(Insert(ranked, n, edges), edges, d) == OfDegree(ranked, edges, d) + if Degree(edges, n.id) == d then [n] else []
  {
    hide Degree, OfDegree;
    OfDegreeSnoc(ranked, n, edges, d);
    if ranked != [] && Degree(edges, ranked[|ranked| - 1].id) < Degree(edges, n.id) {
      var k := |ranked| - 1;
      InsertKeepsOrder(ranked[..k], n, edges, d);
      OfDegreeSnoc(Insert(ranked[..k], n, edges), ranked[k], edges, d);
      OfDegreeSnoc(ranked[..k], ranked[k], edges, d);
      assert ranked == ranked[..k] + [ranked[k]];
    }
  }

  /** Ranking sorts by falling degree and keeps the order of nodes of equal degree, losing none. */
  lemma {:induction false} RankIsStableSort(nodes: seq<Node>, edges: seq<Edge>)
    ensures Ranked(Rank(nodes, edges), edges) && |Rank(nodes, edges)| == |nodes|
    ensures forall x :: x in Rank(nodes, edges) <==> x in nodes
    ensures forall d: nat :: OfDegree(Rank(nodes, edges), edges, d) == OfDegree(nodes, edges, d)
  {
    if nodes != [] {
      hide Ranked, OfDegree, Degree, Insert;
      var k := |nodes| - 1;
      var front := Rank(nodes[..k], edges);
      RankIsStableSort(nodes[..k], edges);
      InsertFacts(front, nodes[k], edges);
      assert nodes == nodes[..k] + [nodes[k]];
      forall d: nat
        ensures OfDegree(Rank(nodes, edges), edges, d) == OfDegree(nodes, edges, d)
      {
        InsertKeepsOrder(front, nodes[k], edges, d);
        OfDegreeSnoc(nodes[..k], nodes[k], edges, d);
      }
    }
  }

  // ---------------------------------------------------------------- buckets

  /** One cluster for every fifty nodes, at least one and at most twelve. */
  function BucketCount(n: nat): nat {
    var wanted := (n + 49) / 50;
    if wanted < 1 then 1 else if wanted > 12 then 12 else wanted
  }

  /** Every k-th node, starting with number i. */
  function Bucket(left: seq<Node>, i: nat, k: nat): seq<Id>
    requires k > 0
  {
    if left == [] then []
    else Bucket(left[..|left| - 1], i, k) + if (|left| - 1) % k == i then [left[|left| - 1].id] else []
  }

  function ClusterId(i: nat): Id {
    "cluster-" + Decimal(i)
  }

  /** The clusters numbered below i; empty ones are skipped. */
  function Clusters(left: seq<Node>, k: nat, i: nat): seq<Node>
    requires k > 0
  {
    if i == 0 then []
    else
      var ids := Bucket(left, i - 1, k);
      Clusters(left, k, i - 1) + if ids == [] then [] else [Node(ClusterId(i - 1), None, Some(ids))]
  }

  function ClusterOf(clusters: seq<Node>): map<Id, Id> {
    if clusters == [] then map[]
    else
      var c, front := clusters[|clusters| - 1], ClusterOf(clusters[..|clusters| - 1]);
      if c.members.Some? then AddMembers(front, c.members.value, c.id) else front
  }

  function MapId(hubs: set<Id>, clusterOf: map<Id, Id>, id: Id): Id {
    if id in hubs then id else if id in clusterOf then clusterOf[id] else id
  }

  function EdgeId(i: nat): string {
    "agg-" + Decimal(i)
  }

  /** The edges get ids that number them. */
  function Aggregated(kept: seq<Edge>, f: Id -> Id): (r: seq<Edge>)
    ensures |r| == |kept|
    ensures forall i :: 0 <= i < |r| ==> Triple(r[i].from, r[i].to, r[i].edgeType) == Image(kept[i], f)
  {
    seq(|kept|, i requires 0 <= i < |kept| => Edge(EdgeId(i + 1), f(kept[i].from), f(kept[i].to), kept[i].edgeType))
  }

  function Hubs(nodes: seq<Node>, edges: seq<Edge>, keep: nat): seq<Node> {
    var ranked := Rank(nodes, edges);
    if keep < |ranked| then ranked[..keep] else ranked
  }

  function Leftover(nodes: seq<Node>, edges: seq<Edge>, keep: nat): seq<Node> {
    var ranked := Rank(nodes, edges);
    if keep < |ranked| then ranked[keep..] else []
  }

  function AllClusters(left: seq<Node>): seq<Node> {
    Clusters(left, BucketCount(|left|), BucketCount(|left|))
  }

  /** Where each node goes. */
  function Target(nodes: seq<Node>, edges: seq<Edge>, keep: nat): Id -> Id {
    var hubs, clusterOf := NodeIds(Hubs(nodes, edges, keep)), ClusterOf(AllClusters(Leftover(nodes, edges, keep)));
    (id: Id) => MapId(hubs, clusterOf, id)
  }

  function ClusterView(view: View, keep: nat): View {
    var f := Target(view.nodes, view.edges, keep);
    View(Hubs(view.nodes, view.edges, keep) + AllClusters(Leftover(view.nodes, view.edges, keep)),
         Aggregated(Kept(view.edges, f, ArrowKey), f))
  }

  // ---------------------------------------------------------------- every node has one place

  lemma {:induction false} BucketFacts(left: seq<Node>, i: nat, k: nat)
    requires k > 0
    ensures forall id :: id in Bucket(left, i, k) <==> exists j :: 0 <= j < |left| && j % k == i && left[j].id == id
  {
    if left != [] {
      var n := |left| - 1;
      BucketFacts(left[..n], i, k);
      forall id
        ensures id in Bucket(left, i, k) <==> exists j :: 0 <= j < |left| && j % k == i && left[j].id == id
      {
        if j :| 0 <= j < |left| && j % k == i && left[j].id == id {
          assert j < n ==> left[..n][j] == left[j];
        }
        if id in Bucket(left[..n], i, k) {
          var j :| 0 <= j < n && j % k == i && left[..n][j].id == id;
          assert left[j].id == id;
        }
      }
    }
  }

  lemma {:induction false} InsertUnique(ranked: seq<Node>, n: Node, edges: seq<Edge>)
    requires UniqueIds(ranked) && Ranked(ranked, edges) && n.id !in NodeIds(ranked)
    ensures UniqueIds(Insert(ranked, n, edges))
  {
    hide Degree, Ranked;
    RankedFront(ranked, edges);
    if ranked != [] && Degree(edges, ranked[|ranked| - 1].id) < Degree(edges, n.id) {
      var k := |ranked| - 1;
      assert forall x :: x in ranked[..k] ==> x in ranked;
      InsertUnique(ranked[..k], n, edges);
      InsertFacts(ranked[..k], n, edges);
      var front := Insert(ranked[..k], n, edges);
      forall i | 0 <= i < |front|
        ensures front[i].id != ranked[k].id
      {
        assert front[i] in front && ranked[k] in ranked;
        if front[i] != n {
          var j :| 0 <= j < k && ranked[..k][j] == front[i];
        }
      }
    } else {
      forall i | 0 <= i < |ranked|
        ensures ranked[i].id != n.id
      {
        assert ranked[i] in ranked;
      }
    }
  }

  lemma {:induction false} RankUnique(nodes: seq<Node>, edges: seq<Edge>)
    requires UniqueIds(nodes)
    ensures UniqueIds(Rank(nodes, edges))
  {
    hide Ranked, OfDegree, Degree, Insert;
    if nodes != [] {
      var k := |nodes| - 1;
      RankUnique(nodes[..k], edges);
      RankIsStableSort(nodes[..k], edges);
      forall x | x in Rank(nodes[..k], edges)
        ensures x.id != nodes[k].id
      {
        var j :| 0 <= j < k && nodes[..k][j] == x;
      }
      InsertUnique(Rank(nodes[..k], edges), nodes[k], edges);
    }
  }

  lemma CutUnique(hubs: seq<Node>, left: seq<Node>)
    requires UniqueIds(hubs + left)
    ensures UniqueIds(hubs) && UniqueIds(left)
    ensures forall x, y :: x in hubs && y in left ==> x.id != y.id
  {
    var all := hubs + left;
    assert forall i :: 0 <= i < |hubs| ==> all[i] == hubs[i];
    assert forall i :: 0 <= i < |left| ==> all[|hubs| + i] == left[i];
  }

  lemma HubsAndLeftover(nodes: seq<Node>, edges: seq<Edge>, keep: nat)
    requires UniqueIds(nodes)
    ensures var hubs, left := Hubs(nodes, edges, keep), Leftover(nodes, edges, keep);
      && hubs + left == Rank(nodes, edges) && |hubs| == (if keep < |nodes| then keep else |nodes|)
      && UniqueIds(hubs) && UniqueIds(left)
      && (forall x :: x in nodes <==> x in hubs || x in left)
      && (forall x, y :: x in hubs && y in left ==> x.id != y.id)
  {
    hide Rank, Ranked, OfDegree, UniqueIds;
    RankIsStableSort(nodes, edges);
    RankUnique(nodes, edges);
    var hubs, left := Hubs(nodes, edges, keep), Leftover(nodes, edges, keep);
    assert hubs + left == Rank(nodes, edges);
    CutUnique(hubs, left);
    assert forall x :: x in hubs + left <==> x in hubs || x in left;
  }

  /** No clustered node has a higher degree than a hub. */
  lemma HubsHaveHighestDegree(nodes: seq<Node>, edges: seq<Edge>, keep: nat, hub: Node, other: Node)
    requires hub in Hubs(nodes, edges, keep) && other in Leftover(nodes, edges, keep)
    ensures Degree(edges, hub.id) >= Degree(edges, other.id)
  {
    RankIsStableSort(nodes, edges);
    var ranked, hubs, left := Rank(nodes, edges), Hubs(nodes, edges, keep), Leftover(nodes, edges, keep);
    var i :| 0 <= i < |hubs| && hubs[i] == hub;
    var j :| 0 <= j < |left| && left[j] == other;
    assert ranked[i] == hub && ranked[keep + j] == other;
  }

  lemma BucketsDisjoint(left: seq<Node>, k: nat, b: nat, c: nat, id: Id)
    requires UniqueIds(left) && k > 0 && id in Bucket(left, b, k) && id in Bucket(left, c, k)
    ensures b == c
  {
    BucketFacts(left, b, k);
    BucketFacts(left, c, k);
  }

  lemma BucketsCover(left: seq<Node>, k: nat, n: Node)
    requires k > 0 && n in left
    ensures exists b: nat :: b < k && n.id in Bucket(left, b, k)
  {
    var j :| 0 <= j < |left| && left[j] == n;
    BucketFacts(left, j % k, k);
    assert n.id in Bucket(left, j % k, k);
  }

  lemma ClusterOfNone(left: seq<Node>, k: nat)
    requires k > 0
    ensures ClusterOf(Clusters(left, k, 0)) == map[]
  {
  }

  lemma ClusterOfStep(left: seq<Node>, k: nat, i: nat)
    requires k > 0 && i > 0
    ensures ClusterOf(Clusters(left, k, i)) == AddMembers(ClusterOf(Clusters(left, k, i - 1)), Bucket(left, i - 1, k), ClusterId(i - 1))
  {
    var front, all := Clusters(left, k, i - 1), Clusters(left, k, i);
    var ids := Bucket(left, i - 1, k);
    if ids == [] {
      assert all == front;
    } else {
      assert all == front + [Node(ClusterId(i - 1), None, Some(ids))] && all[..|all| - 1] == front;
    }
  }

  ghost predicate OnlyBuckets(m: map<Id, string>, left: seq<Node>, k: nat, i: nat)
    requires k > 0
  {
    forall id :: id in m ==> exists b: nat :: b < i && id in Bucket(left, b, k)
  }

  lemma OnlyBucketsStep(m: map<Id, string>, left: seq<Node>, k: nat, i: nat, c: string)
    requires k > 0 && i > 0 && OnlyBuckets(m, left, k, i - 1)
    ensures OnlyBuckets(AddMembers(m, Bucket(left, i - 1, k), c), left, k, i)
  {
    hide Bucket, AddMembers;
    var out := AddMembers(m, Bucket(left, i - 1, k), c);
    AddMembersFacts(m, Bucket(left, i - 1, k), c);
    forall id | id in out
      ensures exists b: nat :: b < i && id in Bucket(left, b, k)
    {
      var b: nat := i - 1;
      if id !in Bucket(left, i - 1, k) {
        b :| b < i - 1 && id in Bucket(left, b, k);
      }
    }
  }

  /** After the clusters below i, exactly the nodes in their buckets have a cluster, and it is the right one. */
  lemma {:induction false} ClusterOfFacts(left: seq<Node>, k: nat, i: nat)
    requires UniqueIds(left) && k > 0
    ensures forall b: nat, id :: b < i && id in Bucket(left, b, k) ==>
      id in ClusterOf(Clusters(left, k, i)) && ClusterOf(Clusters(left, k, i))[id] == ClusterId(b)
    ensures OnlyBuckets(ClusterOf(Clusters(left, k, i)), left, k, i)
  {
    hide Bucket, ClusterOf, Clusters, ClusterId, AddMembers, UniqueIds, OnlyBuckets;
    if i == 0 {
      ClusterOfNone(left, k);
      OnlyBucketsNone(left, k);
    } else {
      ClusterOfFacts(left, k, i - 1);
      ClusterOfStep(left, k, i);
      var ids := Bucket(left, i - 1, k);
      var before := ClusterOf(Clusters(left, k, i - 1));
      AddMembersFacts(before, ids, ClusterId(i - 1));
      OnlyBucketsStep(before, left, k, i, ClusterId(i - 1));
      forall b: nat, id | b < i && id in Bucket(left, b, k)
        ensures id in ids <==> b == i - 1
      {
        if id in ids {
          BucketsDisjoint(left, k, b, i - 1, id);
        }
      }
    }
  }

  lemma OnlyBucketsNone(left: seq<Node>, k: nat)
    requires k > 0
    ensures OnlyBuckets(map[], left, k, 0)
  {
  }

  lemma {:induction false} ClustersFacts(left: seq<Node>, k: nat, i: nat)
    requires k > 0
    ensures forall j: nat :: j < i && Bucket(left, j, k) != [] ==> Node(ClusterId(j), None, Some(Bucket(left, j, k))) in Clusters(left, k, i)
    ensures forall c :: c in Clusters(left, k, i) ==> c.members.Some? && exists j: nat :: IsCluster(left, j, k, c) && j < i
  {
    hide Bucket, Decimal;
    if i != 0 {
      ClustersFacts(left, k, i - 1);
      var ids, front, all := Bucket(left, i - 1, k), Clusters(left, k, i - 1), Clusters(left, k, i);
      if ids != [] {
        assert all == front + [Node(ClusterId(i - 1), None, Some(ids))];
        assert IsCluster(left, i - 1, k, all[|front|]);
      }
      forall c | c in all
        ensures c.members.Some? && exists j: nat :: IsCluster(left, j, k, c) && j < i
      {
        if c in front {
          var j: nat :| IsCluster(left, j, k, c) && j < i - 1;
        }
      }
    }
  }

  ghost predicate IsCluster(left: seq<Node>, j: nat, k: nat, c: Node) {
    k > 0 && Bucket(left, j, k) != [] && c == Node(ClusterId(j), None, Some(Bucket(left, j, k)))
  }

  lemma {:induction false} DecimalFacts(m: nat, n: nat)
    ensures Decimal(m) == Decimal(n) ==> m == n
    ensures Decimal(m) != "" && '>' !in Decimal(m)
  {
    var s, t := Decimal(m), Decimal(n);
    if m >= 10 {
      DecimalFacts(m / 10, n / 10);
      assert s[..|s| - 1] == Decimal(m / 10) && s[|s| - 1] == Digit(m % 10);
    }
    if n >= 10 {
      DecimalNotEmpty(n / 10);
      assert t[..|t| - 1] == Decimal(n / 10) && t[|t| - 1] == Digit(n % 10);
    }
    if m < 10 && n < 10 && s == t {
      assert s[0] == t[0];
    }
    if s == t {
      assert s[|s| - 1] == t[|t| - 1];
    }
  }

  lemma DecimalNotEmpty(n: nat)
    ensures Decimal(n) != ""
  {
  }

  lemma ClusterIdFacts(i: nat, j: nat)
    ensures ClusterId(i) == ClusterId(j) ==> i == j
    ensures Free(ClusterId(i), '>')
  {
    DecimalFacts(i, j);
    assert ClusterId(i)[8..] == Decimal(i) && ClusterId(j)[8..] == Decimal(j);
  }

  // ---------------------------------------------------------------- the clustered view

  lemma TargetOfHub(nodes: seq<Node>, edges: seq<Edge>, keep: nat, n: Node)
    requires n in Hubs(nodes, edges, keep)
    ensures Target(nodes, edges, keep)(n.id) == n.id
  {
    hide Hubs;
  }

  lemma TargetOfOther(nodes: seq<Node>, edges: seq<Edge>, keep: nat, n: Node)
    requires UniqueIds(nodes) && n in Leftover(nodes, edges, keep)
    ensures var left := Leftover(nodes, edges, keep);
      exists b: nat :: b < BucketCount(|left|) && n.id in Bucket(left, b, BucketCount(|left|)) && Target(nodes, edges, keep)(n.id) == ClusterId(b)
  {
    hide Hubs, Leftover, BucketCount, ClusterId, Bucket, Clusters, ClusterOf, UniqueIds;
    var left := Leftover(nodes, edges, keep);
    CountPositive(|left|);
    var k := BucketCount(|left|);
    HubsAndLeftover(nodes, edges, keep);
    BucketsCover(left, k, n);
    var b: nat :| b < k && n.id in Bucket(left, b, k);
    ClusterOfFacts(left, k, k);
  }

  lemma CountPositive(n: nat)
    ensures 1 <= BucketCount(n) <= 12
  {
  }

  ghost predicate HoldsNode(c: Node, target: Id, id: Id) {
    c.id == target && c.members.Some? && id in c.members.value
  }

  /** Every node is either a hub, which stays where it is, or a member of the cluster that it is mapped to; never both. */
  lemma NodesArePartitioned(view: View, keep: nat, n: Node)
    requires UniqueIds(view.nodes) && n in view.nodes
    ensures var hubs, left := Hubs(view.nodes, view.edges, keep), Leftover(view.nodes, view.edges, keep);
      var f, out := Target(view.nodes, view.edges, keep), ClusterView(view, keep).nodes;
      && (n in hubs <==> n !in left)
      && (n in hubs ==> n in out && f(n.id) == n.id)
      && (n in left ==> exists c :: c in out && c in AllClusters(left) && HoldsNode(c, f(n.id), n.id))
  {
    hide Hubs, Leftover, BucketCount, ClusterId, Bucket, Clusters, ClusterOf, UniqueIds, Target;
    var left := Leftover(view.nodes, view.edges, keep);
    HubsAndLeftover(view.nodes, view.edges, keep);
    if n in left {
      var k := BucketCount(|left|);
      CountPositive(|left|);
      TargetOfOther(view.nodes, view.edges, keep, n);
      var b: nat :| b < k && n.id in Bucket(left, b, k) && Target(view.nodes, view.edges, keep)(n.id) == ClusterId(b);
      ClustersFacts(left, k, k);
      var c := Node(ClusterId(b), None, Some(Bucket(left, b, k)));
      assert c in AllClusters(left) && HoldsNode(c, ClusterId(b), n.id);
    } else {
      TargetOfHub(view.nodes, view.edges, keep, n);
    }
  }

  /** A cluster is never empty, and its members are exactly the nodes that are mapped to it. */
  lemma MembersAreExact(view: View, keep: nat, c: Node, id: Id)
    requires UniqueIds(view.nodes) && c in AllClusters(Leftover(view.nodes, view.edges, keep))
    ensures c.members.Some? && c.members.value != []
    ensures var left, f := Leftover(view.nodes, view.edges, keep), Target(view.nodes, view.edges, keep);
      id in c.members.value <==> id in NodeIds(left) && f(id) == c.id
  {
    hide Hubs, Leftover, BucketCount, ClusterId, Bucket, Clusters, ClusterOf, UniqueIds, Target;
    var left, f := Leftover(view.nodes, view.edges, keep), Target(view.nodes, view.edges, keep);
    var k := BucketCount(|left|);
    CountPositive(|left|);
    HubsAndLeftover(view.nodes, view.edges, keep);
    ClustersFacts(left, k, k);
    var j: nat :| IsCluster(left, j, k, c) && j < k;
    if id in c.members.value {
      BucketFacts(left, j, k);
      var x :| 0 <= x < |left| && x % k == j && left[x].id == id;
      assert left[x] in left;
    }
    if n :| n in left && n.id == id {
      TargetOfOther(view.nodes, view.edges, keep, n);
      var b: nat :| b < k && n.id in Bucket(left, b, k) && f(n.id) == ClusterId(b);
      ClusterIdFacts(b, j);
      if id in c.members.value {
        BucketsDisjoint(left, k, b, j, id);
      }
    }
  }

  lemma TargetFree(nodes: seq<Node>, edges: seq<Edge>, keep: nat, id: Id)
    requires UniqueIds(nodes) && Free(id, '>')
    ensures Free(Target(nodes, edges, keep)(id), '>')
  {
    hide Hubs, Leftover, BucketCount, ClusterId, Bucket, Clusters, ClusterOf, UniqueIds, Free;
    var left := Leftover(nodes, edges, keep);
    var k := BucketCount(|left|);
    CountPositive(|left|);
    HubsAndLeftover(nodes, edges, keep);
    ClusterOfFacts(left, k, k);
    if id in ClusterOf(AllClusters(left)) {
      var b: nat :| b < k && id in Bucket(left, b, k);
      ClusterIdFacts(b, b);
    }
  }

  lemma AggregatedTriples(kept: seq<Edge>, f: Id -> Id)
    ensures TriplesOf(Aggregated(kept, f)) == Triples(kept, f)
  {
    var r := Aggregated(kept, f);
    forall t | t in Triples(kept, f)
      ensures t in TriplesOf(r)
    {
      var e :| e in kept && Image(e, f) == t;
      var i :| 0 <= i < |kept| && kept[i] == e;
      assert r[i] in r;
    }
  }

  lemma AggregatedIds(kept: seq<Edge>, f: Id -> Id, i: nat, j: nat)
    requires i < j < |kept|
    ensures Aggregated(kept, f)[i].id != Aggregated(kept, f)[j].id
  {
    DecimalFacts(i + 1, j + 1);
    var a, b := EdgeId(i + 1), EdgeId(j + 1);
    assert a[4..] == Decimal(i + 1) && b[4..] == Decimal(j + 1);
  }

  /** The separators of the edge keys do not occur in the edges. */
  ghost predicate NoArrows(edges: seq<Edge>) {
    forall e :: e in edges ==> Free(e.from, '>') && Free(e.to, '>') && Free(e.edgeType, ':')
  }

  /** The keys tell the edges of the clustered view apart. */
  ghost predicate KeysApart(view: View, keep: nat) {
    InjectiveOn(ArrowKey, Images(view.edges, Target(view.nodes, view.edges, keep)))
  }

  lemma NoArrowsKeepKeysApart(view: View, keep: nat)
    requires UniqueIds(view.nodes) && NoArrows(view.edges)
    ensures KeysApart(view, keep)
  {
    hide UniqueIds, Free, Target;
    var f := Target(view.nodes, view.edges, keep);
    forall t | t in Images(view.edges, f)
      ensures Free(t.from, '>') && Free(t.edgeType, ':')
    {
      var e :| e in view.edges && f(e.from) != f(e.to) && Image(e, f) == t;
      TargetFree(view.nodes, view.edges, keep, e.from);
    }
    ArrowKeyInjective(Images(view.edges, f));
  }

  /** No two edges have the same ends and type, or the same id, and all are images of edges, loops dropped; they are exactly these images
      if and only if the keys tell them apart. */
  lemma EdgesAreExactImages(view: View, keep: nat)
    ensures var out, f := ClusterView(view, keep), Target(view.nodes, view.edges, keep);
      && TriplesDiffer(out.edges) && TriplesOf(out.edges) <= Images(view.edges, f)
      && (TriplesOf(out.edges) == Images(view.edges, f) <==> KeysApart(view, keep))
      && forall i, j :: 0 <= i < j < |out.edges| ==> out.edges[i].id != out.edges[j].id
  {
    hide Target, Aggregated, Kept, InjectiveOn;
    var f := Target(view.nodes, view.edges, keep);
    var kept := Kept(view.edges, f, ArrowKey);
    KeptAreExactlyTheImages(view.edges, f, ArrowKey);
    KeptAreUnique(view.edges, f, ArrowKey);
    AggregatedTriples(kept, f);
    forall i, j | 0 <= i < j < |kept|
      ensures Aggregated(kept, f)[i].id != Aggregated(kept, f)[j].id
    {
      AggregatedIds(kept, f, i, j);
    }
  }

  /** Edges between listed nodes lead between listed nodes of the clustered view. */
  lemma EdgesStayListed(view: View, keep: nat, id: Id)
    requires UniqueIds(view.nodes) && id in NodeIds(view.nodes)
    ensures Target(view.nodes, view.edges, keep)(id) in NodeIds(ClusterView(view, keep).nodes)
  {
    var n :| n in view.nodes && n.id == id;
    NodesArePartitioned(view, keep, n);
    HubsAndLeftover(view.nodes, view.edges, keep);
  }

  /** Every path of the view is kept, between the nodes that stand for its ends, and does not get longer. */
  lemma PathsSurviveClustering(view: View, keep: nat, p: seq<Id>)
    requires KeysApart(view, keep) && IsWalk(ArcsOf(view.edges), p)
    ensures var out, f := ClusterView(view, keep), Target(view.nodes, view.edges, keep);
      exists q :: Joins(ArcsOf(out.edges), q, f(p[0]), f(p[|p| - 1])) && |q| <= |p|
  {
    hide Target, ClusterView;
    EdgesAreExactImages(view, keep);
    PathsSurvive(view.edges, Target(view.nodes, view.edges, keep), p);
    ArcsOfTriples(ClusterView(view, keep).edges);
  }

  lemma {:induction false} ClusterIdsUnique(left: seq<Node>, k: nat, i: nat)
    requires k > 0
    ensures UniqueIds(Clusters(left, k, i))
  {
    hide Bucket, ClusterId;
    if i != 0 {
      ClusterIdsUnique(left, k, i - 1);
      ClustersFacts(left, k, i - 1);
      var front := Clusters(left, k, i - 1);
      forall x | 0 <= x < |front|
        ensures front[x].id != ClusterId(i - 1)
      {
        assert front[x] in front;
        var j: nat :| IsCluster(left, j, k, front[x]) && j < i - 1;
        ClusterIdFacts(j, i - 1);
      }
    }
  }

  /** Synthetic ids that no node has yet keep the ids unique. */
  lemma ClusteredIdsUnique(view: View, keep: nat)
    requires UniqueIds(view.nodes) && forall i: nat :: i < 12 ==> ClusterId(i) !in NodeIds(view.nodes)
    ensures UniqueIds(ClusterView(view, keep).nodes)
  {
    hide Hubs, Leftover, BucketCount, ClusterId, Bucket, Clusters, ClusterOf, Target;
    var hubs, left := Hubs(view.nodes, view.edges, keep), Leftover(view.nodes, view.edges, keep);
    var k := BucketCount(|left|);
    CountPositive(|left|);
    HubsAndLeftover(view.nodes, view.edges, keep);
    ClusterIdsUnique(left, k, k);
    ClustersFacts(left, k, k);
    var clusters := AllClusters(left);
    forall i, j | 0 <= i < |hubs| && 0 <= j < |clusters|
      ensures hubs[i].id != clusters[j].id
    {
      assert hubs[i] in hubs && clusters[j] in clusters;
      var b: nat :| IsCluster(left, b, k, clusters[j]) && b < k;
      assert hubs[i].id in NodeIds(view.nodes);
    }
  }

  // ---------------------------------------------------------------- sizes

  lemma TimesGrows(d: int, k: nat)
    ensures d >= 1 ==> d * k >= k
    ensures d >= 0 ==> d * k >= 0
  {
  }

  /** A number lies in bucket i exactly when it is the next one due there. */
  lemma NextInBucket(n: nat, b: nat, i: nat, k: nat)
    requires i < k && n <= i + b * k && (b > 0 ==> i + (b - 1) * k < n)
    ensures n % k == i <==> n == i + b * k
  {
    var q, r := n / k, n % k;
    assert n == q * k + r;
    if r == i {
      TimesGrows(q - b, k);
      TimesGrows(b - 1 - q, k);
      assert (q - b) * k == q * k - b * k && (b - 1 - q) * k == (b - 1) * k - q * k;
    } else if n == i + b * k {
      TimesGrows(q - b, k);
      TimesGrows(b - q, k);
    }
  }

  /** Bucket i gets nodes number i, i + k, i + 2 * k and so on, as far as there are nodes. */
  lemma {:induction false} BucketSize(left: seq<Node>, i: nat, k: nat)
    requires i < k
    ensures var b := |Bucket(left, i, k)|; |left| <= i + b * k && (b > 0 ==> i + (b - 1) * k < |left|)
  {
    if left != [] {
      var n := |left| - 1;
      BucketSize(left[..n], i, k);
      var b := |Bucket(left[..n], i, k)|;
      NextInBucket(n, b, i, k);
      assert (b + 1) * k == b * k + k;
    }
  }

  lemma {:induction false} NoneSkipped(left: seq<Node>, k: nat, i: nat)
    requires i <= k && 0 < k <= |left|
    ensures |Clusters(left, k, i)| == i
  {
    if i != 0 {
      NoneSkipped(left, k, i - 1);
      BucketSize(left, i - 1, k);
    }
  }

  /** As many clusters as planned are made, unless there is nothing to cluster, and their sizes differ by at most one. */
  lemma ClustersAreBalanced(left: seq<Node>, i: nat, j: nat)
    requires i <= j < BucketCount(|left|)
    ensures |AllClusters(left)| == if left == [] then 0 else BucketCount(|left|)
    ensures var k := BucketCount(|left|);
      |Bucket(left, j, k)| <= |Bucket(left, i, k)| <= |Bucket(left, j, k)| + 1
  {
    var k := BucketCount(|left|);
    AllClustersCount(left);
    BucketSize(left, i, k);
    BucketSize(left, j, k);
    BalancedShares(|left|, i, j, k, |Bucket(left, i, k)|, |Bucket(left, j, k)|);
  }

  lemma AllClustersCount(left: seq<Node>)
    ensures |AllClusters(left)| == if left == [] then 0 else BucketCount(|left|)
  {
    if left == [] {
      assert Clusters(left, 1, 1) == Clusters(left, 1, 0) + [];
    } else {
      NoneSkipped(left, BucketCount(|left|), BucketCount(|left|));
    }
  }

  lemma BalancedShares(n: nat, i: nat, j: nat, k: nat, a: nat, b: nat)
    requires i <= j < k
    requires n <= i + a * k && (a > 0 ==> i + (a - 1) * k < n)
    requires n <= j + b * k && (b > 0 ==> j + (b - 1) * k < n)
    ensures b <= a <= b + 1
  {
    TimesGrows(b - 1 - a, k);
    TimesGrows(a - 1 - b, k);
    assert (b - 1 - a) * k == (b - 1) * k - a * k && (a - 1 - b) * k == (a - 1) * k - b * k;
  }

  // ---------------------------------------------------------------- pages

  function PageCount(n: nat, size: nat): nat
    requires size > 0
  {
    if n == 0 then 1 else (n + size - 1) / size
  }

  /** The nodes of one page; a page number out of range is moved to the nearest page. */
  function PageOf(nodes: seq<Node>, page: int, size: nat): seq<Node>
    requires size > 0
  {
    var last := PageCount(|nodes|, size) - 1;
    var p := if page < 0 then 0 else if page > last then last else page;
    var from := p * size;
    if from >= |nodes| then [] else if from + size > |nodes| then nodes[from..] else nodes[from..from + size]
  }

  function EdgesWithin(edges: seq<Edge>, ids: set<Id>): seq<Edge> {
    if edges == [] then []
    else
      var e := edges[|edges| - 1];
      EdgesWithin(edges[..|edges| - 1], ids) + if e.from in ids && e.to in ids then [e] else []
  }

  function PageSlice(view: View, page: int, size: nat): View
    requires size > 0
  {
    var nodes := PageOf(view.nodes, page, size);
    View(nodes, EdgesWithin(view.edges, NodeIds(nodes)))
  }

  function FirstPages(view: View, size: nat, k: nat): seq<Node>
    requires size > 0
  {
    if k == 0 then [] else FirstPages(view, size, k - 1) + PageSlice(view, k - 1, size).nodes
  }

  lemma PageBounds(n: nat, size: nat)
    requires size > 0
    ensures PageCount(n, size) >= 1 && n <= PageCount(n, size) * size && (PageCount(n, size) - 1) * size <= n
  {
    var a := n + size - 1;
    assert a == (a / size) * size + a % size;
    if n > 0 {
      TimesGrows(-(a / size), size);
    }
  }

  lemma PageFits(n: nat, size: nat, k: nat)
    requires size > 0 && k < PageCount(n, size)
    ensures k * size <= n
    ensures k + 1 < PageCount(n, size) ==> k * size + size <= n
    ensures k + 1 == PageCount(n, size) ==> n <= k * size + size
  {
    hide PageCount;
    var last := PageCount(n, size) - 1;
    PageBounds(n, size);
    TimesGrows(last - k, size);
    TimesGrows(last - 1 - k, size);
    assert (last - k) * size == last * size - k * size && (last - 1 - k) * size == last * size - k * size - size;
    assert (last + 1) * size == last * size + size;
  }

  lemma WholePage(view: View, size: nat, k: nat)
    requires size > 0 && k < PageCount(|view.nodes|, size)
    ensures var n, from, page := |view.nodes|, k * size, PageSlice(view, k, size).nodes;
      && from <= n
      && (k + 1 < PageCount(n, size) ==> from + size <= n && page == view.nodes[from..from + size])
      && (k + 1 == PageCount(n, size) ==> page == view.nodes[from..])
  {
    hide PageCount, EdgesWithin;
    PageFits(|view.nodes|, size, k);
  }

  lemma {:induction false} FirstPagesFacts(view: View, size: nat, k: nat)
    requires size > 0 && k < PageCount(|view.nodes|, size)
    ensures k * size <= |view.nodes| && FirstPages(view, size, k) == view.nodes[..k * size]
  {
    hide PageCount, PageSlice;
    WholePage(view, size, k);
    if k != 0 {
      FirstPagesFacts(view, size, k - 1);
      WholePage(view, size, k - 1);
      assert k * size == (k - 1) * size + size;
    }
  }

  /** The pages, put one behind the other, give back all nodes in order, so none is shown twice or never. */
  lemma PagesCoverAll(view: View, size: nat)
    requires size > 0
    ensures FirstPages(view, size, PageCount(|view.nodes|, size)) == view.nodes
  {
    hide PageCount, PageSlice;
    PageBounds(|view.nodes|, size);
    var last := PageCount(|view.nodes|, size) - 1;
    FirstPagesFacts(view, size, last);
    WholePage(view, size, last);
  }

  // ---------------------------------------------------------------- the loops

  function Lookup(degree: map<Id, nat>, id: Id): nat {
    if id in degree then degree[id] else 0
  }

  method CountDegrees(nodes: seq<Node>, edges: seq<Edge>) returns (degree: map<Id, nat>)
    ensures forall id :: Lookup(degree, id) == Degree(edges, id)
  {
    degree := map[];
    for i := 0 to |nodes|
      invariant forall id :: id in degree ==> degree[id] == 0
    {
      degree := degree[nodes[i].id := 0];
    }
    for i := 0 to |edges|
      invariant forall id :: Lookup(degree, id) == Degree(edges[..i], id)
    {
      assert edges[..i + 1][..i] == edges[..i];
      degree := degree[edges[i].from := Lookup(degree, edges[i].from) + 1];
      degree := degree[edges[i].to := Lookup(degree, edges[i].to) + 1];
    }
    assert edges[..|edges|] == edges;
  }

  method InsertByDegree(ranked: seq<Node>, n: Node, degree: map<Id, nat>, ghost edges: seq<Edge>) returns (r: seq<Node>)
    requires forall id :: Lookup(degree, id) == Degree(edges, id)
    ensures r == Insert(ranked, n, edges)
  {
    hide Degree, Lookup;
    var k: nat := |ranked|;
    assert ranked[..k] == ranked && ranked[k..] == [];
    while k > 0 && Lookup(degree, ranked[k - 1].id) < Lookup(degree, n.id)
      invariant k <= |ranked| && Insert(ranked, n, edges) == Insert(ranked[..k], n, edges) + ranked[k..]
    {
      InsertStep(ranked, n, edges, k);
      k := k - 1;
    }
    r := ranked[..k] + [n] + ranked[k..];
  }

  lemma InsertStep(ranked: seq<Node>, n: Node, edges: seq<Edge>, k: nat)
    requires 0 < k <= |ranked| && Degree(edges, ranked[k - 1].id) < Degree(edges, n.id)
    ensures Insert(ranked[..k], n, edges) + ranked[k..] == Insert(ranked[..k - 1], n, edges) + ranked[k - 1..]
  {
    hide Degree;
    assert ranked[..k][..k - 1] == ranked[..k - 1];
    assert [ranked[k - 1]] + ranked[k..] == ranked[k - 1..];
  }

  /** A stable sort by falling degree. */
  method SortByDegree(nodes: seq<Node>, degree: map<Id, nat>, ghost edges: seq<Edge>) returns (ranked: seq<Node>)
    requires forall id :: Lookup(degree, id) == Degree(edges, id)
    ensures ranked == Rank(nodes, edges)
  {
    ranked := [];
    for i := 0 to |nodes|
      invariant ranked == Rank(nodes[..i], edges)
    {
      assert nodes[..i + 1][..i] == nodes[..i];
      ranked := InsertByDegree(ranked, nodes[i], degree, edges);
    }
    assert nodes[..|nodes|] == nodes;
  }

  method FillBucket(left: seq<Node>, i: nat, k: nat) returns (ids: seq<Id>)
    requires k > 0
    ensures ids == Bucket(left, i, k)
  {
    ids := [];
    for j := 0 to |left|
      invariant ids == Bucket(left[..j], i, k)
    {
      assert left[..j + 1][..j] == left[..j];
      if j % k == i {
        ids := ids + [left[j].id];
      }
    }
    assert left[..|left|] == left;
  }

  method MakeClusters(left: seq<Node>) returns (clusters: seq<Node>, clusterOf: map<Id, Id>)
    ensures clusters == AllClusters(left) && clusterOf == ClusterOf(clusters)
  {
    hide Bucket, Decimal;
    var k := BucketCount(|left|);
    clusters := [];
    for i := 0 to k
      invariant clusters == Clusters(left, k, i)
    {
      var ids := FillBucket(left, i, k);
      if ids != [] {
        clusters := clusters + [Node(ClusterId(i), None, Some(ids))];
      }
    }
    clusterOf := map[];
    for c := 0 to |clusters|
      invariant clusterOf == ClusterOf(clusters[..c])
    {
      assert clusters[..c + 1][..c] == clusters[..c];
      var ids := if clusters[c].members.Some? then clusters[c].members.value else [];
      for j := 0 to |ids|
        invariant clusterOf == AddMembers(ClusterOf(clusters[..c]), ids[..j], clusters[c].id)
      {
        assert ids[..j + 1][..j] == ids[..j];
        clusterOf := clusterOf[ids[j] := clusters[c].id];
      }
      assert ids[..|ids|] == ids;
    }
    assert clusters[..|clusters|] == clusters;
  }

  lemma AggregatedOfNone(f: Id -> Id)
    ensures Aggregated([], f) == []
  {
  }

  lemma AggregatedSnoc(kept: seq<Edge>, e: Edge, f: Id -> Id)
    ensures Aggregated(kept + [e], f) == Aggregated(kept, f) + [Edge(EdgeId(|kept| + 1), f(e.from), f(e.to), e.edgeType)]
  {
    hide EdgeId;
  }

  method AggregateEdges(edges: seq<Edge>, hubs: set<Id>, clusterOf: map<Id, Id>) returns (out: seq<Edge>)
    ensures var f := (id: Id) => MapId(hubs, clusterOf, id); out == Aggregated(Kept(edges, f, ArrowKey), f)
  {
    hide Keys, Aggregated, ArrowKey, MapId, EdgeId;
    ghost var f := (id: Id) => MapId(hubs, clusterOf, id);
    KeysOfNone(f, ArrowKey);
    AggregatedOfNone(f);
    ghost var kept: seq<Edge> := [];
    var seen: set<string> := {};
    out := [];
    for i := 0 to |edges|
      invariant kept == Kept(edges[..i], f, ArrowKey) && out == Aggregated(kept, f)
      invariant seen == Keys(kept, f, ArrowKey) && |seen| == |out|
    {
      assert edges[..i + 1][..i] == edges[..i];
      var e := edges[i];
      var t := Triple(MapId(hubs, clusterOf, e.from), MapId(hubs, clusterOf, e.to), e.edgeType);
      assert t == Image(e, f);
      if t.from != t.to && ArrowKey(t) !in seen {
        KeysSnoc(kept, e, f, ArrowKey);
        AggregatedSnoc(kept, e, f);
        seen := seen + {ArrowKey(t)};
        out := out + [Edge(EdgeId(|seen|), t.from, t.to, t.edgeType)];
        kept := kept + [e];
      }
    }
    assert edges[..|edges|] == edges;
  }

  method ClusterByDegree(view: View, keep: nat) returns (out: View)
    ensures out == ClusterView(view, keep)
  {
    var degree := CountDegrees(view.nodes, view.edges);
    var ranked := SortByDegree(view.nodes, degree, view.edges);
    var cut := if keep < |ranked| then keep else |ranked|;
    var hubs, left := ranked[..cut], ranked[cut..];
    assert hubs == Hubs(view.nodes, view.edges, keep) && left == Leftover(view.nodes, view.edges, keep);
    var clusters, clusterOf := MakeClusters(left);
    var edges := AggregateEdges(view.edges, NodeIds(hubs), clusterOf);
    out := View(hubs + clusters, edges);
  }
}
