/** Collapsing node groups of the graph view into one synthetic node each. */
module Collapse {
  import opened Wrappers
  import opened Digraph
  import opened Quotient

  datatype Group = Group(id: string, memberIds: seq<Id>)

  /** Group members in the order in which the groups were first met. */
  datatype Membership = Membership(order: seq<string>, members: map<string, seq<Id>>)

  ghost predicate WellFormed(m: Membership) {
    Distinct(m.order) && forall g :: g in m.order <==> g in m.members
  }

  function Append(m: Membership, g: string, id: Id): Membership {
    if g in m.members then Membership(m.order, m.members[g := m.members[g] + [id]])
    else Membership(m.order + [g], m.members[g := [id]])
  }

  predicate IsCollapsed(n: Node, collapsed: set<string>) {
    n.groupId.Some? && n.groupId.value in collapsed
  }

  function Infer(nodes: seq<Node>, collapsed: set<string>): (m: Membership)
    ensures WellFormed(m)
  {
    if nodes == [] then Membership([], map[])
    else
      var n := nodes[|nodes| - 1];
      var front := Infer(nodes[..|nodes| - 1], collapsed);
      if IsCollapsed(n, collapsed) then Append(front, n.groupId.value, n.id) else front
  }

  /** Explicit groups replace the inferred members of the same group. */
  function Override(m: Membership, groups: seq<Group>, collapsed: set<string>): (r: Membership)
    requires WellFormed(m)
    ensures WellFormed(r)
  {
    if groups == [] then m
    else
      var front, g := Override(m, groups[..|groups| - 1], collapsed), groups[|groups| - 1];
      if g.id in collapsed then
        Membership(if g.id in front.members then front.order else front.order + [g.id], front.members[g.id := g.memberIds])
      else front
  }

  /** The group of each member; a later group takes over a shared member. */
  function GroupOf(m: Membership, k: nat): map<Id, string>
    requires WellFormed(m) && k <= |m.order|
  {
    if k == 0 then map[]
    else
      assert m.order[k - 1] in m.order;
      AddMembers(GroupOf(m, k - 1), m.members[m.order[k - 1]], m.order[k - 1])
  }

  function GroupId(g: string): Id {
    "group:" + g
  }

  function Resolve(groupOf: map<Id, string>, id: Id): Id {
    if id in groupOf && groupOf[id] != "" then GroupId(groupOf[id]) else id
  }

  function Ungrouped(nodes: seq<Node>, groupOf: map<Id, string>): seq<Node> {
    if nodes == [] then []
    else Ungrouped(nodes[..|nodes| - 1], groupOf) + if nodes[|nodes| - 1].id in groupOf then [] else [nodes[|nodes| - 1]]
  }

  function GroupNode(m: Membership, g: string): Node
    requires g in m.members
  {
    Node(GroupId(g), Some(g), Some(m.members[g]))
  }

  function GroupNodes(m: Membership): (r: seq<Node>)
    requires WellFormed(m)
    ensures |r| == |m.order|
  {
    seq(|m.order|, i requires 0 <= i < |m.order| => assert m.order[i] in m.order; GroupNode(m, m.order[i]))
  }

  /** The first remaining edge keeps its id, the others get a suffix; all are moved to their new ends. */
  function Renamed(kept: seq<Edge>, f: Id -> Id): (r: seq<Edge>)
    ensures |r| == |kept|
    ensures forall i :: 0 <= i < |r| ==> Triple(r[i].from, r[i].to, r[i].edgeType) == Image(kept[i], f)
  {
    seq(|kept|, i requires 0 <= i < |kept| =>
      Edge(if i == 0 then kept[i].id else kept[i].id + "-c", f(kept[i].from), f(kept[i].to), kept[i].edgeType))
  }

  function CollapseWith(m: Membership, view: View): View
    requires WellFormed(m)
  {
    if m.order == [] then view
    else
      var groupOf := GroupOf(m, |m.order|);
      var f := (id: Id) => Resolve(groupOf, id);
      View(Ungrouped(view.nodes, groupOf) + GroupNodes(m), Renamed(Kept(view.edges, f, BarKey), f))
  }

  function CollapseView(view: View, collapsed: set<string>, groups: seq<Group>): View {
    if collapsed == {} then view else CollapseWith(Override(Infer(view.nodes, collapsed), groups, collapsed), view)
  }

  // ---------------------------------------------------------------- who is in which group

  /** Some node with this id has this group, which is collapsed. */
  ghost predicate InGroup(nodes: seq<Node>, collapsed: set<string>, id: Id, g: string) {
    exists i :: 0 <= i < |nodes| && nodes[i].id == id && nodes[i].groupId == Some(g) && g in collapsed
  }

  ghost predicate Grouped(nodes: seq<Node>, collapsed: set<string>, id: Id) {
    exists g :: InGroup(nodes, collapsed, id, g)
  }

  lemma {:induction false} InferFacts(nodes: seq<Node>, collapsed: set<string>)
    ensures var m := Infer(nodes, collapsed);
      && (forall g :: g in m.members ==> g in collapsed && m.members[g] != [])
      && (forall g, id :: InGroup(nodes, collapsed, id, g) <==> g in m.members && id in m.members[g])
  {
    if nodes != [] {
      var k := |nodes| - 1;
      var n, front, all := nodes[k], Infer(nodes[..k], collapsed), Infer(nodes, collapsed);
      InferFacts(nodes[..k], collapsed);
      forall g, id
        ensures InGroup(nodes, collapsed, id, g) <==> g in all.members && id in all.members[g]
      {
        InGroupSnoc(nodes, collapsed, id, g);
        if IsCollapsed(n, collapsed) && n.groupId.value == g && g in front.members {
          assert all.members[g] == front.members[g] + [n.id];
        }
      }
    }
  }

  lemma InGroupSnoc(nodes: seq<Node>, collapsed: set<string>, id: Id, g: string)
    requires nodes != []
    ensures var n := nodes[|nodes| - 1];
      InGroup(nodes, collapsed, id, g) <==> InGroup(nodes[..|nodes| - 1], collapsed, id, g) || (n.id == id && n.groupId == Some(g) && g in collapsed)
  {
    var k := |nodes| - 1;
    if InGroup(nodes, collapsed, id, g) {
      var i :| 0 <= i < |nodes| && nodes[i].id == id && nodes[i].groupId == Some(g) && g in collapsed;
      assert i < k ==> nodes[..k][i] == nodes[i];
    }
    if InGroup(nodes[..k], collapsed, id, g) {
      var i :| 0 <= i < k && nodes[..k][i].id == id && nodes[..k][i].groupId == Some(g) && g in collapsed;
      assert nodes[i] == nodes[..k][i];
    }
  }

  lemma {:induction false} GroupOfFacts(m: Membership, k: nat)
    requires WellFormed(m) && k <= |m.order|
    ensures forall id :: id in GroupOf(m, k) ==> GroupOf(m, k)[id] in m.members && id in m.members[GroupOf(m, k)[id]]
    ensures forall i, id :: 0 <= i < k && m.order[i] in m.members && id in m.members[m.order[i]] ==> id in GroupOf(m, k)
  {
    if k != 0 {
      GroupOfFacts(m, k - 1);
      assert m.order[k - 1] in m.order;
      AddMembersFacts(GroupOf(m, k - 1), m.members[m.order[k - 1]], m.order[k - 1]);
    }
  }

  function Groups(nodes: seq<Node>, collapsed: set<string>): map<Id, string> {
    var m := Infer(nodes, collapsed);
    GroupOf(m, |m.order|)
  }

  /** With unique ids a node is a member of exactly the collapsed group it names. */
  lemma MembersAreExact(nodes: seq<Node>, collapsed: set<string>)
    requires UniqueIds(nodes)
    ensures forall id, g :: id in Groups(nodes, collapsed) && Groups(nodes, collapsed)[id] == g <==> InGroup(nodes, collapsed, id, g)
    ensures forall id :: id in Groups(nodes, collapsed) <==> Grouped(nodes, collapsed, id)
  {
    var m := Infer(nodes, collapsed);
    InferFacts(nodes, collapsed);
    GroupOfFacts(m, |m.order|);
    forall id, g | InGroup(nodes, collapsed, id, g)
      ensures id in Groups(nodes, collapsed) && Groups(nodes, collapsed)[id] == g
    {
      assert g in m.order;
      var i :| 0 <= i < |m.order| && m.order[i] == g;
      var h := Groups(nodes, collapsed)[id];
      assert InGroup(nodes, collapsed, id, h);
      SameGroup(nodes, collapsed, id, g, h);
    }
  }

  lemma SameGroup(nodes: seq<Node>, collapsed: set<string>, id: Id, g: string, h: string)
    requires UniqueIds(nodes) && InGroup(nodes, collapsed, id, g) && InGroup(nodes, collapsed, id, h)
    ensures g == h
  {
    var i :| 0 <= i < |nodes| && nodes[i].id == id && nodes[i].groupId == Some(g) && g in collapsed;
    var j :| 0 <= j < |nodes| && nodes[j].id == id && nodes[j].groupId == Some(h) && h in collapsed;
  }

  // ---------------------------------------------------------------- groups as discovered

  function Named(m: Membership, k: nat): seq<Group>
    requires WellFormed(m) && k <= |m.order|
  {
    if k == 0 then []
    else
      assert m.order[k - 1] in m.order;
      Named(m, k - 1) + [Group(m.order[k - 1], m.members[m.order[k - 1]])]
  }

  function AllGroups(nodes: seq<Node>): set<string> {
    set n | n in nodes && n.groupId.Some? :: n.groupId.value
  }

  /** All groups present on the nodes. */
  function DiscoverGroups(nodes: seq<Node>): seq<Group> {
    var m := Infer(nodes, AllGroups(nodes));
    Named(m, |m.order|)
  }

  /** Fewer collapsed groups infer the same members for the groups that remain. */
  lemma {:induction false} InferRestricts(nodes: seq<Node>, collapsed: set<string>, more: set<string>)
    ensures var m, w := Infer(nodes, collapsed), Infer(nodes, more);
      forall g :: g in collapsed && g in more ==> (g in m.members <==> g in w.members) && (g in m.members ==> m.members[g] == w.members[g])
  {
    if nodes != [] {
      InferRestricts(nodes[..|nodes| - 1], collapsed, more);
    }
  }

  lemma {:induction false} NamedFacts(m: Membership, k: nat)
    requires WellFormed(m) && k <= |m.order|
    ensures |Named(m, k)| == k
    ensures forall i :: 0 <= i < k ==> m.order[i] in m.members && Named(m, k)[i] == Group(m.order[i], m.members[m.order[i]])
  {
    if k != 0 {
      NamedFacts(m, k - 1);
      assert m.order[k - 1] in m.order;
    }
  }

  /** The discovered groups have distinct ids, are never empty, and hold exactly the nodes that name them. */
  lemma DiscoveredGroupsAreExact(nodes: seq<Node>)
    ensures var groups := DiscoverGroups(nodes);
      && (forall i, j :: 0 <= i < j < |groups| ==> groups[i].id != groups[j].id)
      && (forall g :: g in groups ==> g.memberIds != [])
      && (forall g, id :: g in groups ==> (id in g.memberIds <==> InGroup(nodes, AllGroups(nodes), id, g.id)))
      && (forall n :: n in nodes && n.groupId.Some? ==> exists g :: g in groups && g.id == n.groupId.value && n.id in g.memberIds)
  {
    var all, groups := AllGroups(nodes), DiscoverGroups(nodes);
    var m := Infer(nodes, all);
    InferFacts(nodes, all);
    NamedFacts(m, |m.order|);
    forall n | n in nodes && n.groupId.Some?
      ensures exists g :: g in groups && g.id == n.groupId.value && n.id in g.memberIds
    {
      assert InGroup(nodes, all, n.id, n.groupId.value);
      assert n.groupId.value in m.order;
      var i :| 0 <= i < |m.order| && m.order[i] == n.groupId.value;
      assert groups[i] in groups;
    }
  }

  lemma {:induction false} OverrideByNamed(m: Membership, w: Membership, k: nat, collapsed: set<string>)
    requires WellFormed(m) && WellFormed(w) && k <= |w.order|
    requires forall g :: g in w.members && g in collapsed ==> g in m.members && m.members[g] == w.members[g]
    ensures Override(m, Named(w, k), collapsed) == m
  {
    if k != 0 {
      OverrideByNamed(m, w, k - 1, collapsed);
      var gs := Named(w, k);
      assert gs[..|gs| - 1] == Named(w, k - 1);
      assert w.order[k - 1] in w.order;
    }
  }

  /** Passing the discovered groups explicitly changes nothing. */
  lemma DiscoveredGroupsAreInferred(view: View, collapsed: set<string>)
    ensures CollapseView(view, collapsed, DiscoverGroups(view.nodes)) == CollapseView(view, collapsed, [])
  {
    var m, all := Infer(view.nodes, collapsed), AllGroups(view.nodes);
    var w := Infer(view.nodes, all);
    InferRestricts(view.nodes, collapsed, all);
    InferFacts(view.nodes, collapsed);
    InferFacts(view.nodes, all);
    OverrideByNamed(m, w, |w.order|, collapsed);
  }

  // ---------------------------------------------------------------- partition

  lemma {:induction false} UngroupedFacts(nodes: seq<Node>, groupOf: map<Id, string>)
    ensures forall n :: n in Ungrouped(nodes, groupOf) <==> n in nodes && n.id !in groupOf
  {
    if nodes != [] {
      var k := |nodes| - 1;
      UngroupedFacts(nodes[..k], groupOf);
      assert nodes == nodes[..k] + [nodes[k]];
    }
  }

  /** A synthetic node whose members are exactly the nodes of one collapsed group, of which there are some. */
  ghost predicate StandsForGroup(n: Node, nodes: seq<Node>, collapsed: set<string>) {
    && n.groupId.Some? && n.groupId.value in collapsed && n.id == GroupId(n.groupId.value) && n.members.Some? && n.members.value != []
    && forall id :: id in n.members.value <==> InGroup(nodes, collapsed, id, n.groupId.value)
  }

  /** The collapsed view keeps exactly the nodes outside collapsed groups, and has one node per collapsed group in use,
      whose members are exactly that group's nodes. */
  lemma NodesArePartitioned(view: View, collapsed: set<string>)
    requires UniqueIds(view.nodes)
    ensures var out := CollapseView(view, collapsed, []);
      && (forall n :: n in view.nodes && !IsCollapsed(n, collapsed) ==> n in out.nodes)
      && (forall n :: n in out.nodes ==> (n in view.nodes && !IsCollapsed(n, collapsed)) || StandsForGroup(n, view.nodes, collapsed))
      && (forall n :: n in view.nodes && IsCollapsed(n, collapsed) ==>
            exists s :: s in out.nodes && s.id == GroupId(n.groupId.value) && s.members.Some? && n.id in s.members.value)
  {
    var m, out := Infer(view.nodes, collapsed), CollapseView(view, collapsed, []);
    forall n: Node
      ensures n in out.nodes <==> (n in view.nodes && n.id !in Groups(view.nodes, collapsed)) || Made(m, n)
    {
      NodesAfter(view, collapsed, n);
    }
    hide CollapseView, Infer;
    InferFacts(view.nodes, collapsed);
    MembersAreExact(view.nodes, collapsed);
    NodesInGroups(view.nodes, collapsed);
    hide UniqueIds, InGroup, Groups, Grouped;
    if collapsed != {} && m.order != [] {
      forall n | n in view.nodes && IsCollapsed(n, collapsed)
        ensures exists s :: s in out.nodes && s.id == GroupId(n.groupId.value) && s.members.Some? && n.id in s.members.value
      {
        assert Made(m, GroupNode(m, n.groupId.value));
      }
    }
  }

  lemma NodesInGroups(nodes: seq<Node>, collapsed: set<string>)
    requires UniqueIds(nodes)
    ensures forall n :: n in nodes ==> (IsCollapsed(n, collapsed) <==> Grouped(nodes, collapsed, n.id))
    ensures forall n :: n in nodes && IsCollapsed(n, collapsed) ==> InGroup(nodes, collapsed, n.id, n.groupId.value)
  {
    forall n | n in nodes
      ensures IsCollapsed(n, collapsed) <==> Grouped(nodes, collapsed, n.id)
      ensures IsCollapsed(n, collapsed) ==> InGroup(nodes, collapsed, n.id, n.groupId.value)
    {
      var i :| 0 <= i < |nodes| && nodes[i] == n;
      if Grouped(nodes, collapsed, n.id) {
        var g :| InGroup(nodes, collapsed, n.id, g);
        var j :| 0 <= j < |nodes| && nodes[j].id == n.id && nodes[j].groupId == Some(g) && g in collapsed;
        assert i == j;
      }
      if IsCollapsed(n, collapsed) {
        assert InGroup(nodes, collapsed, n.id, n.groupId.value);
      }
    }
  }

  // ---------------------------------------------------------------- when anything changes

  ghost predicate Fresh(view: View, g: string) {
    GroupId(g) !in NodeIds(view.nodes)
  }

  /** Some group of the set occurs, so that collapsing it changes the view. */
  ghost predicate Occurs(nodes: seq<Node>, collapsed: set<string>) {
    exists n :: n in nodes && IsCollapsed(n, collapsed)
  }

  ghost predicate Made(m: Membership, n: Node) {
    exists g :: g in m.members && n == GroupNode(m, g)
  }

  lemma GroupNodesFacts(m: Membership)
    requires WellFormed(m)
    ensures forall n :: n in GroupNodes(m) <==> Made(m, n)
  {
    var made := GroupNodes(m);
    forall n | Made(m, n)
      ensures n in made
    {
      var g :| g in m.members && n == GroupNode(m, g);
      var i :| 0 <= i < |m.order| && m.order[i] == g;
      assert made[i] == n;
    }
    forall n | n in made
      ensures Made(m, n)
    {
      var i :| 0 <= i < |made| && made[i] == n;
      assert m.order[i] in m.order;
    }
  }

  lemma NodesAfter(view: View, collapsed: set<string>, n: Node)
    ensures n in CollapseView(view, collapsed, []).nodes
        <==> (n in view.nodes && n.id !in Groups(view.nodes, collapsed)) || Made(Infer(view.nodes, collapsed), n)
  {
    var m := Infer(view.nodes, collapsed);
    InferFacts(view.nodes, collapsed);
    GroupNodesFacts(m);
    UngroupedFacts(view.nodes, Groups(view.nodes, collapsed));
  }

  lemma NothingToCollapse(view: View, collapsed: set<string>)
    requires !Occurs(view.nodes, collapsed)
    ensures CollapseView(view, collapsed, []) == view
  {
    var m := Infer(view.nodes, collapsed);
    InferFacts(view.nodes, collapsed);
    if m.order != [] {
      var g := m.order[0];
      assert g in m.order && g in m.members;
      assert g in collapsed && |m.members[g]| > 0;
      var id := m.members[g][0];
      assert InGroup(view.nodes, collapsed, id, g);
      var i :| 0 <= i < |view.nodes| && view.nodes[i].id == id && view.nodes[i].groupId == Some(g) && g in collapsed;
      assert IsCollapsed(view.nodes[i], collapsed);
    }
  }

  // ---------------------------------------------------------------- edges

  function Contraction(nodes: seq<Node>, collapsed: set<string>): Id -> Id {
    var groupOf := Groups(nodes, collapsed);
    (id: Id) => Resolve(groupOf, id)
  }

  lemma RenamedTriples(kept: seq<Edge>, f: Id -> Id)
    ensures TriplesOf(Renamed(kept, f)) == Triples(kept, f)
  {
    var r := Renamed(kept, f);
    forall t | t in Triples(kept, f)
      ensures t in TriplesOf(r)
    {
      var e :| e in kept && Image(e, f) == t;
      var i :| 0 <= i < |kept| && kept[i] == e;
      assert r[i] in r;
    }
  }

  ghost predicate NoBars(view: View, collapsed: set<string>) {
    && (forall e :: e in view.edges ==> Free(e.from, '|') && Free(e.to, '|'))
    && (forall g :: g in collapsed ==> Free(g, '|'))
  }

  lemma ResolveFree(nodes: seq<Node>, collapsed: set<string>, id: Id)
    requires UniqueIds(nodes) && Free(id, '|') && forall g :: g in collapsed ==> Free(g, '|')
    ensures Free(Contraction(nodes, collapsed)(id), '|')
  {
    MembersAreExact(nodes, collapsed);
    var groupOf := Groups(nodes, collapsed);
    if id in groupOf {
      assert InGroup(nodes, collapsed, id, groupOf[id]);
      assert Free("group:", '|');
    }
  }

  /** The keys tell the edges of the collapsed view apart. */
  ghost predicate KeysApart(view: View, collapsed: set<string>) {
    InjectiveOn(BarKey, Images(view.edges, Contraction(view.nodes, collapsed)))
  }

  lemma NoBarsKeepKeysApart(view: View, collapsed: set<string>)
    requires UniqueIds(view.nodes) && NoBars(view, collapsed)
    ensures KeysApart(view, collapsed)
  {
    hide UniqueIds, Free;
    var f := Contraction(view.nodes, collapsed);
    forall t | t in Images(view.edges, f)
      ensures Free(t.from, '|') && Free(t.to, '|')
    {
      var e :| e in view.edges && f(e.from) != f(e.to) && Image(e, f) == t;
      ResolveFree(view.nodes, collapsed, e.from);
      ResolveFree(view.nodes, collapsed, e.to);
    }
    BarKeyInjective(Images(view.edges, f));
  }

  /** When some group is collapsed, no two edges have the same ends and type, and all are images of edges, loops dropped; they are
      exactly these images if and only if the keys tell them apart. */
  lemma EdgesAreExactImages(view: View, collapsed: set<string>)
    requires UniqueIds(view.nodes) && Occurs(view.nodes, collapsed)
    ensures var out, f := CollapseView(view, collapsed, []), Contraction(view.nodes, collapsed);
      && TriplesDiffer(out.edges) && TriplesOf(out.edges) <= Images(view.edges, f)
      && (TriplesOf(out.edges) == Images(view.edges, f) <==> KeysApart(view, collapsed))
  {
    hide UniqueIds, Contraction, InjectiveOn;
    var f := Contraction(view.nodes, collapsed);
    CollapsesEdges(view, collapsed);
    KeptAreExactlyTheImages(view.edges, f, BarKey);
    KeptAreUnique(view.edges, f, BarKey);
    RenamedTriples(Kept(view.edges, f, BarKey), f);
  }

  lemma CollapsesEdges(view: View, collapsed: set<string>)
    requires UniqueIds(view.nodes) && Occurs(view.nodes, collapsed)
    ensures var f := Contraction(view.nodes, collapsed);
      CollapseView(view, collapsed, []).edges == Renamed(Kept(view.edges, f, BarKey), f)
    ensures Infer(view.nodes, collapsed).order != []
  {
    var n :| n in view.nodes && IsCollapsed(n, collapsed);
    NodesInGroups(view.nodes, collapsed);
    InferFacts(view.nodes, collapsed);
    assert InGroup(view.nodes, collapsed, n.id, n.groupId.value);
    assert n.groupId.value in Infer(view.nodes, collapsed).order;
  }

  lemma AbsentMovesNothing(nodes: seq<Node>, collapsed: set<string>, id: Id)
    requires UniqueIds(nodes) && !Occurs(nodes, collapsed)
    ensures Contraction(nodes, collapsed)(id) == id
  {
    MembersAreExact(nodes, collapsed);
    if id in Groups(nodes, collapsed) {
      var g := Groups(nodes, collapsed)[id];
      assert InGroup(nodes, collapsed, id, g);
      var i :| 0 <= i < |nodes| && nodes[i].id == id && nodes[i].groupId == Some(g) && g in collapsed;
      assert IsCollapsed(nodes[i], collapsed);
    }
  }

  /** With fresh synthetic ids, the node that stands for a listed node is listed if and only if the node is not in a collapsed group with
      the empty id. */
  lemma StaysListedIff(view: View, collapsed: set<string>, id: Id)
    requires UniqueIds(view.nodes) && (forall g :: g in collapsed ==> Fresh(view, g)) && id in NodeIds(view.nodes)
    ensures Contraction(view.nodes, collapsed)(id) in NodeIds(CollapseView(view, collapsed, []).nodes)
       <==> !InGroup(view.nodes, collapsed, id, "")
  {
    hide CollapseView, UniqueIds, Infer, Groups;
    var n :| n in view.nodes && n.id == id;
    var out, m, groupOf := CollapseView(view, collapsed, []), Infer(view.nodes, collapsed), Groups(view.nodes, collapsed);
    MembersAreExact(view.nodes, collapsed);
    InferFacts(view.nodes, collapsed);
    NodesAfter(view, collapsed, n);
    if id in groupOf {
      var g := groupOf[id];
      assert InGroup(view.nodes, collapsed, id, g);
      hide InGroup;
      if g == "" {
        GroupNodesAreFresh(view, collapsed, id);
      } else {
        NodesAfter(view, collapsed, GroupNode(m, g));
        assert Made(m, GroupNode(m, g));
      }
    } else {
      assert !InGroup(view.nodes, collapsed, id, "");
    }
  }

  lemma GroupNodesAreFresh(view: View, collapsed: set<string>, id: Id)
    requires (forall g :: g in collapsed ==> Fresh(view, g)) && id in NodeIds(view.nodes) && id in Groups(view.nodes, collapsed)
    ensures id !in NodeIds(CollapseView(view, collapsed, []).nodes)
  {
    hide CollapseView, Infer, Groups;
    InferFacts(view.nodes, collapsed);
    forall n | n in CollapseView(view, collapsed, []).nodes
      ensures n.id != id
    {
      NodesAfter(view, collapsed, n);
    }
  }

  ghost predicate EndsListed(view: View) {
    forall e :: e in view.edges ==> e.from in NodeIds(view.nodes) && e.to in NodeIds(view.nodes)
  }

  /** Of the edges that are not drawn into one group, none has an end in a collapsed group with the empty id. */
  ghost predicate NoEndUnnamed(view: View, collapsed: set<string>) {
    forall e :: e in view.edges && Contraction(view.nodes, collapsed)(e.from) != Contraction(view.nodes, collapsed)(e.to) ==>
      !InGroup(view.nodes, collapsed, e.from, "") && !InGroup(view.nodes, collapsed, e.to, "")
  }

  /** The remaining edges all join listed nodes if and only if, where the keys tell edges apart, no edge that is not drawn into one group
      has an end in a collapsed group with the empty id. */
  lemma EdgesStayListedIff(view: View, collapsed: set<string>)
    requires UniqueIds(view.nodes) && (forall g :: g in collapsed ==> Fresh(view, g)) && EndsListed(view) && KeysApart(view, collapsed)
    ensures EndsListed(CollapseView(view, collapsed, [])) <==> NoEndUnnamed(view, collapsed)
  {
    hide UniqueIds, CollapseView, InGroup, Contraction, Kept, InjectiveOn, Images;
    var f, ids := Contraction(view.nodes, collapsed), NodeIds(CollapseView(view, collapsed, []).nodes);
    KeptStayListedIff(view, collapsed);
    KeptFacts(view.edges, f, BarKey);
    KeptAreExactlyTheImages(view.edges, f, BarKey);
    forall e | e in view.edges
      ensures f(e.from) in ids <==> !InGroup(view.nodes, collapsed, e.from, "")
      ensures f(e.to) in ids <==> !InGroup(view.nodes, collapsed, e.to, "")
    {
      StaysListedIff(view, collapsed, e.from);
      StaysListedIff(view, collapsed, e.to);
    }
    forall e | e in view.edges && f(e.from) != f(e.to)
      ensures exists x :: x in Kept(view.edges, f, BarKey) && f(x.from) == f(e.from) && f(x.to) == f(e.to)
    {
      KeptStandIn(view.edges, f, e);
    }
  }

  lemma KeptStandIn(edges: seq<Edge>, f: Id -> Id, e: Edge)
    requires e in edges && f(e.from) != f(e.to) && Triples(Kept(edges, f, BarKey), f) == Images(edges, f)
    ensures exists x :: x in Kept(edges, f, BarKey) && f(x.from) == f(e.from) && f(x.to) == f(e.to)
  {
    assert Image(e, f) in Images(edges, f);
    var x :| x in Kept(edges, f, BarKey) && Image(x, f) == Image(e, f);
    assert Image(x, f).from == f(x.from) && Image(e, f).from == f(e.from);
    assert Image(x, f).to == f(x.to) && Image(e, f).to == f(e.to);
  }

  /** Whatever the keys: the remaining edges all join listed nodes if and only if none of those that are kept has such an end. */
  lemma KeptStayListedIff(view: View, collapsed: set<string>)
    requires UniqueIds(view.nodes) && (forall g :: g in collapsed ==> Fresh(view, g)) && EndsListed(view)
    ensures EndsListed(CollapseView(view, collapsed, [])) <==>
      forall e :: e in Kept(view.edges, Contraction(view.nodes, collapsed), BarKey) ==>
        !InGroup(view.nodes, collapsed, e.from, "") && !InGroup(view.nodes, collapsed, e.to, "")
  {
    hide UniqueIds, CollapseView, InGroup;
    var f, out := Contraction(view.nodes, collapsed), CollapseView(view, collapsed, []);
    var kept := Kept(view.edges, f, BarKey);
    KeptFacts(view.edges, f, BarKey);
    forall e | e in kept
      ensures f(e.from) in NodeIds(out.nodes) <==> !InGroup(view.nodes, collapsed, e.from, "")
      ensures f(e.to) in NodeIds(out.nodes) <==> !InGroup(view.nodes, collapsed, e.to, "")
    {
      StaysListedIff(view, collapsed, e.from);
      StaysListedIff(view, collapsed, e.to);
    }
    if Occurs(view.nodes, collapsed) {
      CollapsesEdges(view, collapsed);
      hide Contraction, Kept;
      RenamedEnds(kept, f, NodeIds(out.nodes));
    } else {
      NothingToCollapse(view, collapsed);
      NobodyGrouped(view.nodes, collapsed);
    }
  }

  lemma RenamedEnds(kept: seq<Edge>, f: Id -> Id, ids: set<Id>)
    ensures (forall e :: e in Renamed(kept, f) ==> e.from in ids && e.to in ids) <==> (forall e :: e in kept ==> f(e.from) in ids && f(e.to) in ids)
  {
    var r := Renamed(kept, f);
    forall i | 0 <= i < |kept|
      ensures r[i].from == f(kept[i].from) && r[i].to == f(kept[i].to) && r[i] in r && kept[i] in kept
    {
      assert Triple(r[i].from, r[i].to, r[i].edgeType) == Image(kept[i], f);
    }
  }

  lemma NobodyGrouped(nodes: seq<Node>, collapsed: set<string>)
    requires !Occurs(nodes, collapsed)
    ensures forall id, g :: !InGroup(nodes, collapsed, id, g)
  {
    forall id, g
      ensures !InGroup(nodes, collapsed, id, g)
    {
      if InGroup(nodes, collapsed, id, g) {
        var i :| 0 <= i < |nodes| && nodes[i].id == id && nodes[i].groupId == Some(g) && g in collapsed;
        assert IsCollapsed(nodes[i], collapsed);
      }
    }
  }

  // ---------------------------------------------------------------- edge ids

  ghost predicate EdgeIdsDiffer(edges: seq<Edge>) {
    forall i, j :: 0 <= i < j < |edges| ==> edges[i].id != edges[j].id
  }

  /** The edge survives: it is not drawn into one group, and is the first of its key that is not. */
  ghost predicate Survives(edges: seq<Edge>, f: Id -> Id, i: nat) {
    && i < |edges| && f(edges[i].from) != f(edges[i].to)
    && forall j :: 0 <= j < i && f(edges[j].from) != f(edges[j].to) ==> BarKey(Image(edges[j], f)) != BarKey(Image(edges[i], f))
  }

  lemma SurvivesEarlier(edges: seq<Edge>, f: Id -> Id, n: nat, i: nat)
    requires i < n <= |edges|
    ensures Survives(edges[..n], f, i) <==> Survives(edges, f, i)
  {
    hide BarKey;
    assert forall j :: 0 <= j <= i ==> edges[..n][j] == edges[j];
  }

  lemma KeptSnoc(edges: seq<Edge>, f: Id -> Id)
    requires edges != []
    ensures var n := |edges| - 1;
      Kept(edges, f, BarKey) == Kept(edges[..n], f, BarKey) + if Survives(edges, f, n) then [edges[n]] else []
  {
    hide BarKey;
    var n := |edges| - 1;
    var front, t := Kept(edges[..n], f, BarKey), BarKey(Image(edges[n], f));
    KeptFacts(edges[..n], f, BarKey);
    assert forall j :: 0 <= j < n ==> edges[..n][j] == edges[j];
    if t in Keys(front, f, BarKey) {
      var e :| e in front && BarKey(Image(e, f)) == t;
      assert e in edges[..n];
    } else {
      forall j | 0 <= j < n && f(edges[j].from) != f(edges[j].to)
        ensures BarKey(Image(edges[j], f)) != t
      {
        assert edges[j] in edges[..n];
      }
    }
  }

  /** The places of the edges that survive, in order. */
  ghost function Places(edges: seq<Edge>, f: Id -> Id): seq<nat> {
    if edges == [] then []
    else
      var n: nat := |edges| - 1;
      Places(edges[..n], f) + if Survives(edges, f, n) then [n] else []
  }

  ghost predicate Ascending(places: seq<nat>, n: nat) {
    && (forall i :: 0 <= i < |places| ==> places[i] < n)
    && (forall i, j :: 0 <= i < j < |places| ==> places[i] < places[j])
  }

  lemma AscendingSnoc(places: seq<nat>, n: nat)
    requires Ascending(places, n)
    ensures Ascending(places, n + 1) && Ascending(places + [n], n + 1)
  {
  }

  lemma {:induction false} PlacesAscend(edges: seq<Edge>, f: Id -> Id)
    ensures Ascending(Places(edges, f), |edges|)
  {
    hide Survives, Ascending;
    if edges == [] {
      NoPlaces(f);
    } else {
      var n: nat := |edges| - 1;
      PlacesAscend(edges[..n], f);
      AscendingSnoc(Places(edges[..n], f), n);
      assert Places(edges[..n], f) + [] == Places(edges[..n], f);
    }
  }

  lemma NoPlaces(f: Id -> Id)
    ensures Ascending(Places([], f), 0)
  {
  }

  lemma {:induction false} PlacesSurvive(edges: seq<Edge>, f: Id -> Id, p: nat)
    ensures p in Places(edges, f) <==> Survives(edges, f, p)
  {
    hide Survives;
    if edges == [] {
      NothingKept(f);
    } else {
      var n: nat := |edges| - 1;
      PlacesSurvive(edges[..n], f, p);
      if p < n {
        SurvivesEarlier(edges, f, n, p);
      } else {
        Beyond(edges[..n], f, p);
        if p > n {
          Beyond(edges, f, p);
        }
      }
    }
  }

  lemma {:induction false} KeptAtPlaces(edges: seq<Edge>, f: Id -> Id)
    requires Ascending(Places(edges, f), |edges|)
    ensures var places, kept := Places(edges, f), Kept(edges, f, BarKey);
      |places| == |kept| && forall i :: 0 <= i < |places| ==> kept[i] == edges[places[i]]
  {
    hide BarKey, Kept, Survives;
    if edges == [] {
      NothingKept(f);
    } else {
      var n: nat := |edges| - 1;
      PlacesAscend(edges[..n], f);
      KeptAtPlaces(edges[..n], f);
      KeptSnoc(edges, f);
    }
  }

  lemma PlacesFacts(edges: seq<Edge>, f: Id -> Id)
    ensures var places, kept := Places(edges, f), Kept(edges, f, BarKey);
      && |places| == |kept| && Ascending(places, |edges|) && (forall i :: 0 <= i < |places| ==> kept[i] == edges[places[i]])
      && (forall p: nat :: p in places <==> Survives(edges, f, p))
  {
    hide Kept, Survives, Places;
    PlacesAscend(edges, f);
    KeptAtPlaces(edges, f);
    forall p: nat
      ensures p in Places(edges, f) <==> Survives(edges, f, p)
    {
      PlacesSurvive(edges, f, p);
    }
  }

  lemma NothingKept(f: Id -> Id)
    ensures Kept([], f, BarKey) == [] && forall p: nat :: !Survives([], f, p)
  {
  }

  lemma Beyond(edges: seq<Edge>, f: Id -> Id, p: nat)
    requires p >= |edges|
    ensures !Survives(edges, f, p)
  {
  }

  /** A later survivor is renamed to the id that the first survivor keeps. */
  ghost predicate Clash(edges: seq<Edge>, f: Id -> Id, p: nat, q: nat) {
    && Survives(edges, f, p) && Survives(edges, f, q) && p < q && (forall k: nat :: k < p ==> !Survives(edges, f, k))
    && edges[p].id == edges[q].id + "-c"
  }

  /** When some group is collapsed, edge ids stay different if and only if no surviving edge is renamed to the id of the first one, which
      keeps its own. */
  lemma EdgeIdsDifferIff(view: View, collapsed: set<string>)
    requires UniqueIds(view.nodes) && Occurs(view.nodes, collapsed) && EdgeIdsDiffer(view.edges)
    ensures EdgeIdsDiffer(CollapseView(view, collapsed, []).edges)
       <==> !exists p: nat, q: nat :: Clash(view.edges, Contraction(view.nodes, collapsed), p, q)
  {
    hide UniqueIds, Contraction, CollapseView, Kept, Places, Survives;
    var f := Contraction(view.nodes, collapsed);
    CollapsesEdges(view, collapsed);
    PlacesFacts(view.edges, f);
    var places, kept := Places(view.edges, f), Kept(view.edges, f, BarKey);
    var out := Renamed(kept, f);
    if p: nat, q: nat :| Clash(view.edges, f, p, q) {
      FirstPlace(view.edges, f, p);
      var j :| 0 <= j < |places| && places[j] == q;
      assert out[0].id == out[j].id;
    } else {
      forall i, j | 0 <= i < j < |out|
        ensures out[i].id != out[j].id
      {
        assert kept[i].id != kept[j].id;
        if i == 0 {
          LaterPlaces(view.edges, f, j);
          assert !Clash(view.edges, f, places[0], places[j]);
        } else {
          SuffixInjective(kept[i].id, kept[j].id);
        }
      }
    }
  }

  lemma FirstPlace(edges: seq<Edge>, f: Id -> Id, p: nat)
    requires Survives(edges, f, p) && forall k: nat :: k < p ==> !Survives(edges, f, k)
    ensures Places(edges, f) != [] && Places(edges, f)[0] == p
  {
    hide Survives, Kept;
    PlacesFacts(edges, f);
    var i :| 0 <= i < |Places(edges, f)| && Places(edges, f)[i] == p;
    assert Places(edges, f)[0] in Places(edges, f);
  }

  lemma LaterPlaces(edges: seq<Edge>, f: Id -> Id, j: nat)
    requires 0 < j < |Places(edges, f)|
    ensures var places := Places(edges, f);
      && Survives(edges, f, places[0]) && Survives(edges, f, places[j]) && places[0] < places[j]
      && forall k: nat :: k < places[0] ==> !Survives(edges, f, k)
  {
    hide Survives, Kept;
    PlacesFacts(edges, f);
    var places := Places(edges, f);
    assert places[0] in places && places[j] in places;
    forall k: nat | k < places[0]
      ensures !Survives(edges, f, k)
    {
      assert k !in places;
    }
  }

  lemma SuffixInjective(x: string, y: string)
    ensures x + "-c" == y + "-c" ==> x == y
  {
    if x + "-c" == y + "-c" {
      assert x == (x + "-c")[..|x|] && y == (y + "-c")[..|y|];
    }
  }

  const CLASHING := View([Node("x", Some("g"), None), Node("a", None, None), Node("b", None, None)],
                         [Edge("1-c", "a", "b", "t"), Edge("1", "b", "a", "t")])

  lemma UngroupedStays(nodes: seq<Node>, collapsed: set<string>, id: Id)
    requires UniqueIds(nodes) && forall i :: 0 <= i < |nodes| && nodes[i].id == id ==> nodes[i].groupId == None
    ensures Contraction(nodes, collapsed)(id) == id
  {
    MembersAreExact(nodes, collapsed);
  }

  /** Two edges with different ids can get the same id. */
  lemma EdgeIdsCanClash()
    ensures UniqueIds(CLASHING.nodes) && EdgeIdsDiffer(CLASHING.edges) && !EdgeIdsDiffer(CollapseView(CLASHING, {"g"}, []).edges)
  {
    var f, edges := Contraction(CLASHING.nodes, {"g"}), CLASHING.edges;
    UngroupedStays(CLASHING.nodes, {"g"}, "a");
    UngroupedStays(CLASHING.nodes, {"g"}, "b");
    assert CLASHING.nodes[0] in CLASHING.nodes && IsCollapsed(CLASHING.nodes[0], {"g"});
    hide Contraction, CollapseView;
    assert BarKey(Image(edges[0], f))[0] == 'a' && BarKey(Image(edges[1], f))[0] == 'b';
    assert Clash(edges, f, 0, 1);
    EdgeIdsDifferIff(CLASHING, {"g"});
  }

  lemma OnlyEmptyGroup(nodes: seq<Node>, id: Id)
    requires UniqueIds(nodes)
    ensures Contraction(nodes, {""})(id) == id
  {
    MembersAreExact(nodes, {""});
    var groupOf := Groups(nodes, {""});
    assert id in groupOf ==> InGroup(nodes, {""}, id, groupOf[id]);
  }

  const DANGLING := View([Node("a", Some(""), None), Node("b", None, None)], [Edge("1", "a", "b", "t")])

  lemma DanglingFacts()
    ensures UniqueIds(DANGLING.nodes) && Fresh(DANGLING, "") && "a" in NodeIds(DANGLING.nodes) && InGroup(DANGLING.nodes, {""}, "a", "")
    ensures Occurs(DANGLING.nodes, {""})
  {
    var nodes := DANGLING.nodes;
    assert nodes[0] in nodes && nodes[0].id == "a" && IsCollapsed(nodes[0], {""});
    assert |GroupId("")| > 1;
  }

  lemma OneKept(e: Edge, f: Id -> Id, key: Triple -> string)
    requires f(e.from) != f(e.to)
    ensures Kept([e], f, key) == [e]
  {
    assert [e][..0] == [];
  }

  /** A group with the empty id leaves edges whose end is no longer listed. */
  lemma EmptyGroupIdDangles()
    ensures CollapseView(DANGLING, {""}, []).edges == DANGLING.edges && "a" !in NodeIds(CollapseView(DANGLING, {""}, []).nodes)
  {
    hide Kept, CollapseView, Contraction, NodeIds, UniqueIds, Fresh, InGroup, Occurs;
    var f, e := Contraction(DANGLING.nodes, {""}), DANGLING.edges[0];
    DanglingFacts();
    CollapsesEdges(DANGLING, {""});
    OnlyEmptyGroup(DANGLING.nodes, "a");
    OnlyEmptyGroup(DANGLING.nodes, "b");
    StaysListedIff(DANGLING, {""}, "a");
    OneKept(e, f, BarKey);
    assert DANGLING.edges == [e] && Renamed([e], f) == [e];
  }

  /** Every path of the view is kept, between the nodes that stand for its ends, and does not get longer. */
  lemma PathsSurviveCollapse(view: View, collapsed: set<string>, p: seq<Id>)
    requires UniqueIds(view.nodes) && KeysApart(view, collapsed) && IsWalk(ArcsOf(view.edges), p)
    ensures var out, f := CollapseView(view, collapsed, []), Contraction(view.nodes, collapsed);
      exists q :: Joins(ArcsOf(out.edges), q, f(p[0]), f(p[|p| - 1])) && |q| <= |p|
  {
    var out, f := CollapseView(view, collapsed, []), Contraction(view.nodes, collapsed);
    if Occurs(view.nodes, collapsed) {
      EdgesAreExactImages(view, collapsed);
      PathsSurvive(view.edges, f, p);
      ArcsOfTriples(out.edges);
    } else {
      NothingToCollapse(view, collapsed);
      AbsentMovesNothing(view.nodes, collapsed, p[0]);
      AbsentMovesNothing(view.nodes, collapsed, p[|p| - 1]);
      assert Joins(ArcsOf(out.edges), p, f(p[0]), f(p[|p| - 1]));
    }
  }

  // ---------------------------------------------------------------- explicit groups

  /** The i-th explicit group is collapsed and the last one with its id. */
  ghost predicate Counts(groups: seq<Group>, i: nat, collapsed: set<string>) {
    i < |groups| && groups[i].id in collapsed && forall j :: i < j < |groups| ==> groups[j].id != groups[i].id
  }

  ghost predicate Explicit(groups: seq<Group>, g: string, collapsed: set<string>) {
    exists i: nat :: Counts(groups, i, collapsed) && groups[i].id == g
  }

  /** Explicit groups win over inferred ones, and the last explicit group with an id wins over the others. */
  lemma {:induction false} ExplicitGroupsWin(m: Membership, groups: seq<Group>, collapsed: set<string>)
    requires WellFormed(m)
    ensures var r := Override(m, groups, collapsed);
      && (forall g :: g in r.members <==> g in m.members || Explicit(groups, g, collapsed))
      && (forall g :: g in m.members && !Explicit(groups, g, collapsed) ==> r.members[g] == m.members[g])
      && (forall i: nat :: Counts(groups, i, collapsed) ==> r.members[groups[i].id] == groups[i].memberIds)
  {
    if groups != [] {
      hide WellFormed;
      var n := |groups| - 1;
      ExplicitGroupsWin(m, groups[..n], collapsed);
      forall g: string
        ensures Explicit(groups, g, collapsed) <==> Explicit(groups[..n], g, collapsed) || (groups[n].id == g && g in collapsed)
      {
        ExplicitSnoc(groups, g, collapsed);
      }
      forall i: nat | Counts(groups, i, collapsed)
        ensures Override(m, groups, collapsed).members[groups[i].id] == groups[i].memberIds
      {
        if i < n {
          assert Counts(groups[..n], i, collapsed) && groups[n].id != groups[i].id;
        }
      }
    }
  }

  lemma ExplicitSnoc(groups: seq<Group>, g: string, collapsed: set<string>)
    requires groups != []
    ensures var n := |groups| - 1;
      Explicit(groups, g, collapsed) <==> Explicit(groups[..n], g, collapsed) || (groups[n].id == g && g in collapsed)
  {
    var n := |groups| - 1;
    if groups[n].id == g {
      assert g in collapsed ==> Counts(groups, n, collapsed);
    } else {
      forall i: nat
        ensures i < n ==> (Counts(groups, i, collapsed) && groups[i].id == g <==> Counts(groups[..n], i, collapsed) && groups[..n][i].id == g)
      {
        if i < n {
          assert forall j :: i < j < n ==> groups[..n][j] == groups[j];
        }
      }
    }
  }

  ghost predicate IsMember(m: Membership, id: Id) {
    exists g :: g in m.members && id in m.members[g]
  }

  lemma MembersHaveGroups(m: Membership)
    requires WellFormed(m)
    ensures forall id :: id in GroupOf(m, |m.order|) <==> IsMember(m, id)
  {
    GroupOfFacts(m, |m.order|);
    forall id | IsMember(m, id)
      ensures id in GroupOf(m, |m.order|)
    {
      var g :| g in m.members && id in m.members[g];
      assert g in m.order;
      var i :| 0 <= i < |m.order| && m.order[i] == g;
    }
  }

  lemma CollapsedNodes(m: Membership, view: View, n: Node)
    requires WellFormed(m)
    ensures n in CollapseWith(m, view).nodes <==> (n in view.nodes && !IsMember(m, n.id)) || Made(m, n)
  {
    hide GroupOf, Kept, Renamed;
    MembersHaveGroups(m);
    UngroupedFacts(view.nodes, GroupOf(m, |m.order|));
    GroupNodesFacts(m);
    if m.order == [] {
      assert forall g :: g in m.members ==> g in m.order;
    }
  }

  /** With explicit groups too: a node stays exactly when no group counts it as a member, and there is one synthetic node for each group,
      with the members that count. */
  lemma ExplicitNodes(view: View, collapsed: set<string>, groups: seq<Group>, n: Node)
    requires collapsed != {}
    ensures var m := Override(Infer(view.nodes, collapsed), groups, collapsed);
      n in CollapseView(view, collapsed, groups).nodes <==> (n in view.nodes && !IsMember(m, n.id)) || Made(m, n)
  {
    hide Infer, Override, CollapseWith;
    CollapsedNodes(Override(Infer(view.nodes, collapsed), groups, collapsed), view, n);
  }

  // ---------------------------------------------------------------- two groups in turn

  lemma GroupIdInjective(g: string, h: string)
    requires GroupId(g) == GroupId(h)
    ensures g == h
  {
    assert g == GroupId(g)[6..] && h == GroupId(h)[6..];
  }

  lemma {:induction false} UngroupedUnique(nodes: seq<Node>, groupOf: map<Id, string>)
    requires UniqueIds(nodes)
    ensures UniqueIds(Ungrouped(nodes, groupOf))
  {
    if nodes != [] {
      var k := |nodes| - 1;
      UngroupedUnique(nodes[..k], groupOf);
      UngroupedFacts(nodes[..k], groupOf);
      var front := Ungrouped(nodes[..k], groupOf);
      forall i | 0 <= i < |front|
        ensures front[i].id != nodes[k].id
      {
        assert front[i] in front;
        var j :| 0 <= j < k && nodes[..k][j] == front[i];
      }
    }
  }

  /** Synthetic ids that no node has yet keep the ids unique. */
  lemma CollapsedIdsUnique(view: View, collapsed: set<string>)
    requires UniqueIds(view.nodes) && forall g :: g in collapsed ==> Fresh(view, g)
    ensures UniqueIds(CollapseView(view, collapsed, []).nodes)
  {
    var m := Infer(view.nodes, collapsed);
    if collapsed != {} && m.order != [] {
      InferFacts(view.nodes, collapsed);
      var kept, made := Ungrouped(view.nodes, Groups(view.nodes, collapsed)), GroupNodes(m);
      UngroupedUnique(view.nodes, Groups(view.nodes, collapsed));
      UngroupedFacts(view.nodes, Groups(view.nodes, collapsed));
      forall i, j | 0 <= i < j < |made|
        ensures made[i].id != made[j].id
      {
        if made[i].id == made[j].id {
          GroupIdInjective(m.order[i], m.order[j]);
        }
      }
      forall i, j | 0 <= i < |kept| && 0 <= j < |made|
        ensures kept[i].id != made[j].id
      {
        assert kept[i] in kept && m.order[j] in m.order;
        assert kept[i].id in NodeIds(view.nodes) && Fresh(view, m.order[j]);
      }
    }
  }

  /** Dropping nodes outside the collapsed groups does not change what is inferred. */
  lemma {:induction false} InferSkips(nodes: seq<Node>, groupOf: map<Id, string>, collapsed: set<string>)
    requires forall n :: n in nodes && n.id in groupOf ==> !IsCollapsed(n, collapsed)
    ensures Infer(Ungrouped(nodes, groupOf), collapsed) == Infer(nodes, collapsed)
  {
    if nodes != [] {
      var k := |nodes| - 1;
      InferSkips(nodes[..k], groupOf, collapsed);
      var front, all := Ungrouped(nodes[..k], groupOf), Ungrouped(nodes, groupOf);
      if nodes[k].id in groupOf {
        assert all == front;
      } else {
        assert all == front + [nodes[k]] && all[..|all| - 1] == front;
      }
    }
  }

  lemma {:induction false} InferIgnores(nodes: seq<Node>, more: seq<Node>, collapsed: set<string>)
    requires forall n :: n in more ==> !IsCollapsed(n, collapsed)
    ensures Infer(nodes + more, collapsed) == Infer(nodes, collapsed)
  {
    if more == [] {
      assert nodes + more == nodes;
    } else {
      var k := |more| - 1;
      InferIgnores(nodes, more[..k], collapsed);
      assert (nodes + more)[..|nodes + more| - 1] == nodes + more[..k];
    }
  }

  /** Collapsing one group leaves the members of another as they were. */
  lemma OtherGroupIntact(view: View, g: string, h: string)
    requires UniqueIds(view.nodes) && g != h
    ensures Infer(CollapseView(view, {g}, []).nodes, {h}) == Infer(view.nodes, {h})
  {
    var m, groupOf := Infer(view.nodes, {g}), Groups(view.nodes, {g});
    if m.order != [] {
      InferFacts(view.nodes, {g});
      MembersAreExact(view.nodes, {g});
      NodesInGroups(view.nodes, {g});
      GroupNodesFacts(m);
      InferSkips(view.nodes, groupOf, {h});
      InferIgnores(Ungrouped(view.nodes, groupOf), GroupNodes(m), {h});
    }
  }

  lemma BothGroups(nodes: seq<Node>, g: string, h: string, id: Id)
    requires UniqueIds(nodes) && g != h
    ensures var both, one, other := Groups(nodes, {g, h}), Groups(nodes, {g}), Groups(nodes, {h});
      && (id in both <==> id in one || id in other)
      && (id in one ==> one[id] == g && both[id] == g && id !in other)
      && (id in other ==> other[id] == h && both[id] == h)
  {
    MembersAreExact(nodes, {g, h});
    MembersAreExact(nodes, {g});
    MembersAreExact(nodes, {h});
    forall x: string
      ensures InGroup(nodes, {g, h}, id, x) <==> InGroup(nodes, {g}, id, x) || InGroup(nodes, {h}, id, x)
      ensures (InGroup(nodes, {g}, id, x) ==> x == g) && (InGroup(nodes, {h}, id, x) ==> x == h)
    {
    }
    if InGroup(nodes, {g}, id, g) && InGroup(nodes, {h}, id, h) {
      SameGroup(nodes, {g, h}, id, g, h);
    }
  }

  lemma BothMade(nodes: seq<Node>, g: string, h: string, n: Node)
    ensures Made(Infer(nodes, {g, h}), n) <==> Made(Infer(nodes, {g}), n) || Made(Infer(nodes, {h}), n)
  {
    var both, one, other := Infer(nodes, {g, h}), Infer(nodes, {g}), Infer(nodes, {h});
    InferRestricts(nodes, {g, h}, {g});
    InferRestricts(nodes, {g, h}, {h});
    InferFacts(nodes, {g});
    InferFacts(nodes, {h});
    InferFacts(nodes, {g, h});
    assert forall x :: x in one.members ==> x in both.members && GroupNode(one, x) == GroupNode(both, x);
    assert forall x :: x in other.members ==> x in both.members && GroupNode(other, x) == GroupNode(both, x);
    assert forall x :: x in both.members ==> (x == g && x in one.members) || (x == h && x in other.members);
  }

  lemma FreshIsUngrouped(view: View, g: string, h: string)
    requires UniqueIds(view.nodes) && Fresh(view, g)
    ensures GroupId(g) !in Groups(view.nodes, {h})
  {
    MembersAreExact(view.nodes, {h});
    assert forall x :: InGroup(view.nodes, {h}, GroupId(g), x) ==> GroupId(g) in NodeIds(view.nodes);
  }

  lemma SameNodesInTurn(view: View, g: string, h: string, n: Node)
    requires UniqueIds(view.nodes) && g != h && Fresh(view, g)
    ensures n in CollapseView(CollapseView(view, {g}, []), {h}, []).nodes <==> n in CollapseView(view, {g, h}, []).nodes
  {
    hide CollapseView, Infer, Groups, UniqueIds;
    var first := CollapseView(view, {g}, []);
    NodesAfter(view, {g}, n);
    NodesAfter(view, {g, h}, n);
    NodesAfter(first, {h}, n);
    OtherGroupIntact(view, g, h);
    SameGroups(first.nodes, view.nodes, {h});
    BothGroups(view.nodes, g, h, n.id);
    BothMade(view.nodes, g, h, n);
    FreshIsUngrouped(view, g, h);
    MadeOfOne(view.nodes, g, n);
  }

  lemma SameGroups(nodes: seq<Node>, others: seq<Node>, collapsed: set<string>)
    requires Infer(nodes, collapsed) == Infer(others, collapsed)
    ensures Groups(nodes, collapsed) == Groups(others, collapsed)
  {
  }

  lemma MadeOfOne(nodes: seq<Node>, g: string, n: Node)
    ensures Made(Infer(nodes, {g}), n) ==> n.id == GroupId(g)
  {
    InferFacts(nodes, {g});
  }

  lemma ContractionsCompose(view: View, g: string, h: string, id: Id)
    requires UniqueIds(view.nodes) && g != h && Fresh(view, g)
    ensures Contraction(view.nodes, {h})(Contraction(view.nodes, {g})(id)) == Contraction(view.nodes, {g, h})(id)
  {
    hide Groups, UniqueIds;
    BothGroups(view.nodes, g, h, id);
    FreshIsUngrouped(view, g, h);
  }

  lemma ImagesOfTriples(edges: seq<Edge>, f: Id -> Id)
    ensures Images(edges, f) == set t | t in TriplesOf(edges) && f(t.from) != f(t.to) :: Triple(f(t.from), f(t.to), t.edgeType)
  {
    var moved := set t | t in TriplesOf(edges) && f(t.from) != f(t.to) :: Triple(f(t.from), f(t.to), t.edgeType);
    forall t | t in Images(edges, f)
      ensures t in moved
    {
      var e :| e in edges && f(e.from) != f(e.to) && Image(e, f) == t;
      assert Triple(e.from, e.to, e.edgeType) in TriplesOf(edges);
    }
  }

  lemma OccursInTurn(view: View, g: string, h: string)
    requires UniqueIds(view.nodes) && g != h
    ensures Occurs(CollapseView(view, {g}, []).nodes, {h}) <==> Occurs(view.nodes, {h})
  {
    var first := CollapseView(view, {g}, []);
    NodesInGroups(view.nodes, {g});
    MembersAreExact(view.nodes, {g});
    if Occurs(view.nodes, {h}) {
      var n :| n in view.nodes && IsCollapsed(n, {h});
      NodesAfter(view, {g}, n);
    }
    if Occurs(first.nodes, {h}) {
      var n :| n in first.nodes && IsCollapsed(n, {h});
      NodesAfter(view, {g}, n);
      InferFacts(view.nodes, {g});
    }
  }

  lemma SameImages(edges: seq<Edge>, f: Id -> Id, g: Id -> Id)
    requires forall id :: f(id) == g(id)
    ensures Images(edges, f) == Images(edges, g)
  {
    forall t
      ensures t in Images(edges, f) <==> t in Images(edges, g)
    {
      if t in Images(edges, f) {
        var e :| e in edges && f(e.from) != f(e.to) && Image(e, f) == t;
        assert Image(e, g) == t;
      }
      if t in Images(edges, g) {
        var e :| e in edges && g(e.from) != g(e.to) && Image(e, g) == t;
        assert Image(e, f) == t;
      }
    }
  }

  lemma SameEdgesInTurn(view: View, g: string, h: string)
    requires UniqueIds(view.nodes) && g != h && Fresh(view, g) && KeysApart(view, {g}) && KeysApart(view, {g, h})
    ensures TriplesOf(CollapseView(CollapseView(view, {g}, []), {h}, []).edges) == TriplesOf(CollapseView(view, {g, h}, []).edges)
  {
    hide CollapseView, UniqueIds, InjectiveOn, Infer, Images, Contraction;
    var first, fg, fh, fgh := CollapseView(view, {g}, []), Contraction(view.nodes, {g}), Contraction(view.nodes, {h}), Contraction(view.nodes, {g, h});
    forall id
      ensures fh(fg(id)) == fgh(id)
    {
      ContractionsCompose(view, g, h, id);
    }
    OccursInTurn(view, g, h);
    OtherGroupIntact(view, g, h);
    SameContraction(first.nodes, view.nodes, {h});
    OccursEither(view.nodes, g, h);
    if Occurs(view.nodes, {g}) {
      EdgesAreExactImages(view, {g});
      CollapsedIdsUnique(view, {g});
    } else {
      NothingToCollapse(view, {g});
      forall id
        ensures fg(id) == id
      {
        AbsentMovesNothing(view.nodes, {g}, id);
      }
    }
    if Occurs(view.nodes, {h}) {
      EdgesAreExactImages(first, {h});
      ImagesOfTriples(first.edges, fh);
    } else {
      NothingToCollapse(first, {h});
      forall id
        ensures fh(id) == id
      {
        AbsentMovesNothing(view.nodes, {h}, id);
      }
    }
    if Occurs(view.nodes, {g, h}) {
      EdgesAreExactImages(view, {g, h});
      if !Occurs(view.nodes, {g}) {
        SameImages(view.edges, fh, fgh);
      } else if !Occurs(view.nodes, {h}) {
        SameImages(view.edges, fg, fgh);
      } else {
        ImagesCompose(view.edges, TriplesOf(first.edges), fg, fh, fgh);
      }
    } else {
      NothingToCollapse(view, {g, h});
    }
  }

  lemma SameContraction(nodes: seq<Node>, others: seq<Node>, collapsed: set<string>)
    requires Infer(nodes, collapsed) == Infer(others, collapsed)
    ensures forall id :: Contraction(nodes, collapsed)(id) == Contraction(others, collapsed)(id)
    ensures Contraction(nodes, collapsed) == Contraction(others, collapsed)
  {
  }

  lemma OccursEither(nodes: seq<Node>, g: string, h: string)
    ensures Occurs(nodes, {g, h}) <==> Occurs(nodes, {g}) || Occurs(nodes, {h})
  {
    assert forall n :: IsCollapsed(n, {g, h}) <==> IsCollapsed(n, {g}) || IsCollapsed(n, {h});
  }

  /** Collapsing two groups one after the other gives the same nodes, and edges with the same ends and types, as collapsing
      both at once. */
  lemma CollapsingInTurn(view: View, g: string, h: string)
    requires UniqueIds(view.nodes) && g != h && Fresh(view, g) && KeysApart(view, {g}) && KeysApart(view, {g, h})
    ensures var inTurn, atOnce := CollapseView(CollapseView(view, {g}, []), {h}, []), CollapseView(view, {g, h}, []);
      (forall n :: n in inTurn.nodes <==> n in atOnce.nodes) && TriplesOf(inTurn.edges) == TriplesOf(atOnce.edges)
  {
    forall n: Node
      ensures n in CollapseView(CollapseView(view, {g}, []), {h}, []).nodes <==> n in CollapseView(view, {g, h}, []).nodes
    {
      SameNodesInTurn(view, g, h, n);
    }
    SameEdgesInTurn(view, g, h);
  }

  // ---------------------------------------------------------------- the loops

  method AppendMember(m: Membership, g: string, id: Id) returns (r: Membership)
    requires WellFormed(m)
    ensures r == Append(m, g, id) && WellFormed(r)
  {
    var list := if g in m.members then m.members[g] else [];
    assert [] + [id] == [id];
    r := Membership(if g in m.members then m.order else m.order + [g], m.members[g := list + [id]]);
  }

  method InferMembers(nodes: seq<Node>, collapsed: set<string>) returns (m: Membership)
    ensures m == Infer(nodes, collapsed)
  {
    m := Membership([], map[]);
    for i := 0 to |nodes|
      invariant m == Infer(nodes[..i], collapsed)
    {
      assert nodes[..i + 1][..i] == nodes[..i];
      if nodes[i].groupId.Some? && nodes[i].groupId.value in collapsed {
        m := AppendMember(m, nodes[i].groupId.value, nodes[i].id);
      }
    }
    assert nodes[..|nodes|] == nodes;
  }

  method OverrideMembers(m: Membership, groups: seq<Group>, collapsed: set<string>) returns (r: Membership)
    requires WellFormed(m)
    ensures r == Override(m, groups, collapsed)
  {
    r := m;
    for i := 0 to |groups|
      invariant r == Override(m, groups[..i], collapsed)
    {
      assert groups[..i + 1][..i] == groups[..i];
      var g := groups[i];
      if g.id in collapsed {
        r := Membership(if g.id in r.members then r.order else r.order + [g.id], r.members[g.id := g.memberIds]);
      }
    }
    assert groups[..|groups|] == groups;
  }

  method AssignMembers(m: Membership) returns (groupOf: map<Id, string>, made: seq<Node>)
    requires WellFormed(m)
    ensures groupOf == GroupOf(m, |m.order|) && made == GroupNodes(m)
  {
    groupOf, made := map[], [];
    for k := 0 to |m.order|
      invariant groupOf == GroupOf(m, k) && made == GroupNodes(m)[..k]
    {
      var g := m.order[k];
      assert g in m.order;
      var ids := m.members[g];
      for j := 0 to |ids|
        invariant groupOf == AddMembers(GroupOf(m, k), ids[..j], g)
      {
        assert ids[..j + 1][..j] == ids[..j];
        groupOf := groupOf[ids[j] := g];
      }
      assert ids[..|ids|] == ids;
      made := made + [Node(GroupId(g), Some(g), Some(ids))];
    }
  }

  method KeepUngrouped(nodes: seq<Node>, groupOf: map<Id, string>) returns (kept: seq<Node>)
    ensures kept == Ungrouped(nodes, groupOf)
  {
    kept := [];
    for i := 0 to |nodes|
      invariant kept == Ungrouped(nodes[..i], groupOf)
    {
      assert nodes[..i + 1][..i] == nodes[..i];
      if nodes[i].id !in groupOf {
        kept := kept + [nodes[i]];
      }
    }
    assert nodes[..|nodes|] == nodes;
  }

  lemma RenamedOfNone(f: Id -> Id)
    ensures Renamed([], f) == []
  {
  }

  lemma RenamedSnoc(kept: seq<Edge>, e: Edge, f: Id -> Id)
    ensures var id := if kept == [] then e.id else e.id + "-c";
      Renamed(kept + [e], f) == Renamed(kept, f) + [Edge(id, f(e.from), f(e.to), e.edgeType)]
  {
  }

  method RerouteEdges(edges: seq<Edge>, groupOf: map<Id, string>) returns (out: seq<Edge>)
    ensures var f := (id: Id) => Resolve(groupOf, id); out == Renamed(Kept(edges, f, BarKey), f)
  {
    hide Keys, Renamed, BarKey, Resolve;
    ghost var f := (id: Id) => Resolve(groupOf, id);
    KeysOfNone(f, BarKey);
    RenamedOfNone(f);
    ghost var kept: seq<Edge> := [];
    var seen: set<string> := {};
    out := [];
    for i := 0 to |edges|
      invariant kept == Kept(edges[..i], f, BarKey) && out == Renamed(kept, f)
      invariant seen == Keys(kept, f, BarKey) && |seen| == |out|
    {
      assert edges[..i + 1][..i] == edges[..i];
      var e := edges[i];
      var t := Triple(Resolve(groupOf, e.from), Resolve(groupOf, e.to), e.edgeType);
      assert t == Image(e, f);
      if t.from != t.to && BarKey(t) !in seen {
        KeysSnoc(kept, e, f, BarKey);
        RenamedSnoc(kept, e, f);
        seen := seen + {BarKey(t)};
        out := out + [Edge(if |seen| == 1 then e.id else e.id + "-c", t.from, t.to, t.edgeType)];
        kept := kept + [e];
      }
    }
    assert edges[..|edges|] == edges;
  }

  method CollapseGroups(view: View, collapsed: set<string>, groups: seq<Group>) returns (out: View)
    ensures out == CollapseView(view, collapsed, groups)
  {
    if collapsed == {} {
      return view;
    }
    var m := InferMembers(view.nodes, collapsed);
    m := OverrideMembers(m, groups, collapsed);
    if m.order == [] {
      return view;
    }
    var groupOf, made := AssignMembers(m);
    var kept := KeepUngrouped(view.nodes, groupOf);
    var edges := RerouteEdges(view.edges, groupOf);
    out := View(kept + made, edges);
  }

  method ListGroups(nodes: seq<Node>) returns (groups: seq<Group>)
    ensures groups == DiscoverGroups(nodes)
  {
    var m := Membership([], map[]);
    for i := 0 to |nodes|
      invariant m == Infer(nodes[..i], AllGroups(nodes))
    {
      assert nodes[..i + 1][..i] == nodes[..i] && nodes[i] in nodes;
      if nodes[i].groupId.Some? {
        m := AppendMember(m, nodes[i].groupId.value, nodes[i].id);
      }
    }
    assert nodes[..|nodes|] == nodes;
    groups := [];
    for k := 0 to |m.order|
      invariant groups == Named(m, k)
    {
      assert m.order[k] in m.order;
      groups := groups + [Group(m.order[k], m.members[m.order[k]])];
    }
  }
}
