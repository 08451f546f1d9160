/** The typed property graph: validation, and the projections that feed the outline. */
module GraphModel {
  import opened Wrappers
  import opened Digraph
  import opened Sequences

  type Id = string

  datatype NodeType = File | Note | Block | Entity | Goal | Constraint | Task | Decision | Question | Evidence | Artifact | WorkflowStep | Person
  datatype EdgeType = LinksTo | DerivedFrom | Supports | Contradicts | DependsOn | Produces | AssignedTo | Precedes | Mentions
  datatype ViewKind = WorkflowDag | MindMap | TreeOutline | Knowledge | Lineage

  datatype Node = Node(id: Id, nodeType: NodeType, caption: string)
  datatype Edge = Edge(edgeType: EdgeType, from: Id, to: Id)
  datatype Graph = Graph(nodes: seq<Node>, edges: seq<Edge>)

  datatype GraphError = DanglingEndpoint(id: Id) | IncompatibleEdge(edgeType: EdgeType, fromType: NodeType, toType: NodeType)

  predicate EdgeCompatible(e: EdgeType, from: NodeType, to: NodeType) {
    match e
    case LinksTo => from in {Note, Block, File} && to in {Note, Block, File}
    case DerivedFrom => from in {Artifact, Evidence, WorkflowStep, Note}
    case Supports => from in {Evidence, Note, Entity} && to in {Decision, Question, Entity, Goal}
    case Contradicts => from in {Evidence, Note, Entity} && to in {Decision, Question, Entity, Goal}
    case DependsOn => Sequenced(from, to)
    case Precedes => Sequenced(from, to)
    case Produces => from in {WorkflowStep, Task} && to in {Artifact, Note}
    case AssignedTo => from == Task && to == Person
    case Mentions => true
  }

  predicate Sequenced(from: NodeType, to: NodeType) {
    (from, to) in {(Task, Task), (WorkflowStep, WorkflowStep), (Goal, Goal), (Goal, Task), (Goal, WorkflowStep), (Task, WorkflowStep), (WorkflowStep, Task)}
  }

  /** The type of each node id; of several nodes with one id the last counts. */
  function TypeOf(nodes: seq<Node>): (m: map<Id, NodeType>)
    ensures forall id :: id in m <==> exists i :: 0 <= i < |nodes| && nodes[i].id == id
  {
    if nodes == [] then map[]
    else
      var n := |nodes| - 1;
      var front := TypeOf(nodes[..n]);
      assert nodes == nodes[..n] + [nodes[n]];
      front[nodes[n].id := nodes[n].nodeType]
  }

  function EdgeError(types: map<Id, NodeType>, e: Edge): Option<GraphError> {
    if e.from !in types then Some(DanglingEndpoint(e.from))
    else if e.to !in types then Some(DanglingEndpoint(e.to))
    else if !EdgeCompatible(e.edgeType, types[e.from], types[e.to]) then Some(IncompatibleEdge(e.edgeType, types[e.from], types[e.to]))
    else None
  }

  ghost predicate FirstErrorAt(g: Graph, i: nat) {
    i < |g.edges| && EdgeError(TypeOf(g.nodes), g.edges[i]).Some? && forall j :: 0 <= j < i ==> EdgeError(TypeOf(g.nodes), g.edges[j]).None?
  }

  method Validate(g: Graph) returns (r: Option<GraphError>)
    ensures r.None? <==> forall i :: 0 <= i < |g.edges| ==> EdgeError(TypeOf(g.nodes), g.edges[i]).None?
    ensures r.Some? ==> exists i: nat :: FirstErrorAt(g, i) && EdgeError(TypeOf(g.nodes), g.edges[i]) == r
  {
    var types := TypeOf(g.nodes);
    for i := 0 to |g.edges|
      invariant forall j :: 0 <= j < i ==> EdgeError(types, g.edges[j]).None?
    {
      r := EdgeError(types, g.edges[i]);
      if r.Some? {
        assert FirstErrorAt(g, i);
        return;
      }
    }
    r := None;
  }

  /** The last node with this id is of this type. */
  ghost predicate HasType(nodes: seq<Node>, id: Id, t: NodeType) {
    exists i :: 0 <= i < |nodes| && LastWith(nodes, i, id) && nodes[i].nodeType == t
  }

  ghost predicate LastWith(nodes: seq<Node>, i: nat, id: Id) {
    i < |nodes| && nodes[i].id == id && forall j :: i < j < |nodes| ==> nodes[j].id != id
  }

  lemma {:induction false} TypesAre(nodes: seq<Node>, id: Id, t: NodeType)
    ensures id in TypeOf(nodes) && TypeOf(nodes)[id] == t <==> HasType(nodes, id, t)
  {
    if nodes != [] {
      var n := |nodes| - 1;
      TypesAre(nodes[..n], id, t);
      TypesSnoc(nodes[..n], nodes[n], id, t);
      assert nodes == nodes[..n] + [nodes[n]];
    }
  }

  lemma LastSnoc(nodes: seq<Node>, last: Node, i: nat, id: Id)
    ensures LastWith(nodes + [last], i, id) <==> if last.id == id then i == |nodes| else LastWith(nodes, i, id)
  {
    var all := nodes + [last];
    assert all[|nodes|] == last && forall j :: 0 <= j < |nodes| ==> nodes[j] == all[j];
    assert i < |nodes| && LastWith(all, i, id) ==> forall j :: i < j < |nodes| ==> all[j].id != id;
  }

  lemma TypesSnoc(nodes: seq<Node>, last: Node, id: Id, t: NodeType)
    ensures HasType(nodes + [last], id, t) <==> if last.id == id then last.nodeType == t else HasType(nodes, id, t)
  {
    var all := nodes + [last];
    forall i: nat
      ensures LastWith(all, i, id) <==> if last.id == id then i == |nodes| else LastWith(nodes, i, id)
    {
      LastSnoc(nodes, last, i, id);
    }
    if last.id == id {
      assert LastWith(all, |nodes|, id);
    }
    IsWithin(nodes, id);
    hide LastWith;
    if last.id != id && HasType(nodes, id, t) {
      var i :| 0 <= i < |nodes| && LastWith(nodes, i, id) && nodes[i].nodeType == t;
      assert LastWith(all, i, id) && all[i] == nodes[i];
    }
  }

  lemma IsWithin(nodes: seq<Node>, id: Id)
    ensures forall i: nat :: LastWith(nodes, i, id) ==> i < |nodes|
  {
  }

  /** An edge passes validation exactly when both ends are ids of nodes, of types that the edge's type may join. */
  lemma EdgePassesIff(g: Graph, e: Edge)
    ensures EdgeError(TypeOf(g.nodes), e).None? <==>
      exists from, to :: HasType(g.nodes, e.from, from) && HasType(g.nodes, e.to, to) && EdgeCompatible(e.edgeType, from, to)
  {
    hide TypeOf, HasType, EdgeCompatible;
    var types := TypeOf(g.nodes);
    forall t
      ensures HasType(g.nodes, e.from, t) <==> e.from in types && types[e.from] == t
      ensures HasType(g.nodes, e.to, t) <==> e.to in types && types[e.to] == t
    {
      TypesAre(g.nodes, e.from, t);
      TypesAre(g.nodes, e.to, t);
    }
    if EdgeError(types, e).None? {
      assert HasType(g.nodes, e.from, types[e.from]) && HasType(g.nodes, e.to, types[e.to]);
    }
  }

  // ---------------------------------------------------------------- projections

  predicate KeepsNode(view: ViewKind, t: NodeType) {
    match view
    case WorkflowDag => t in {WorkflowStep, Task, Goal}
    case MindMap => t in {Goal, Question, Entity, Task, Note}
    case TreeOutline => t in {Goal, Question, Entity, Task, Note}
    case Knowledge => true
    case Lineage => t in {File, Evidence, WorkflowStep, Artifact, Note}
  }

  predicate KeepsEdgeType(view: ViewKind, t: EdgeType) {
    match view
    case WorkflowDag => t in {Precedes, DependsOn}
    case Lineage => t in {DerivedFrom, Produces, Supports}
    case _ => true
  }

  function KeptNodes(view: ViewKind, nodes: seq<Node>): seq<Node> {
    if nodes == [] then []
    else
      var n := |nodes| - 1;
      KeptNodes(view, nodes[..n]) + if KeepsNode(view, nodes[n].nodeType) then [nodes[n]] else []
  }

  predicate Lists(nodes: seq<Node>, id: Id) {
    exists i :: 0 <= i < |nodes| && nodes[i].id == id
  }

  /** The knowledge view keeps all edges; the other views those between kept nodes, of the types they show. */
  function KeptEdges(view: ViewKind, nodes: seq<Node>, edges: seq<Edge>): seq<Edge> {
    if edges == [] then []
    else
      var n := |edges| - 1;
      KeptEdges(view, nodes, edges[..n])
      + if view.Knowledge? || (Lists(nodes, edges[n].from) && Lists(nodes, edges[n].to) && KeepsEdgeType(view, edges[n].edgeType))
        then [edges[n]] else []
  }

  function Project(view: ViewKind, g: Graph): Graph {
    var nodes := KeptNodes(view, g.nodes);
    Graph(nodes, KeptEdges(view, nodes, g.edges))
  }

  /** Every edge joins two listed nodes. */
  ghost predicate Joined(g: Graph) {
    forall i :: 0 <= i < |g.edges| ==> Lists(g.nodes, g.edges[i].from) && Lists(g.nodes, g.edges[i].to)
  }

  ghost predicate UniqueIds(nodes: seq<Node>) {
    forall i, j :: 0 <= i < j < |nodes| ==> nodes[i].id != nodes[j].id
  }

  lemma {:induction false} KeptEdgesJoined(view: ViewKind, nodes: seq<Node>, edges: seq<Edge>)
    requires view.Knowledge? ==> Joined(Graph(nodes, edges))
    ensures Joined(Graph(nodes, KeptEdges(view, nodes, edges)))
  {
    hide Lists;
    if edges != [] {
      var n := |edges| - 1;
      if view.Knowledge? {
        assert forall i :: 0 <= i < n ==> edges[..n][i] == edges[i];
      }
      KeptEdgesJoined(view, nodes, edges[..n]);
    }
  }

  lemma {:induction false} KnowledgeKeepsAll(nodes: seq<Node>)
    ensures KeptNodes(Knowledge, nodes) == nodes
  {
    if nodes != [] {
      var n := |nodes| - 1;
      KnowledgeKeepsAll(nodes[..n]);
      assert nodes == nodes[..n] + [nodes[n]];
    }
  }

  lemma ValidatedIsJoined(g: Graph)
    requires forall i :: 0 <= i < |g.edges| ==> EdgeError(TypeOf(g.nodes), g.edges[i]).None?
    ensures Joined(g)
  {
    hide EdgeCompatible;
    forall i | 0 <= i < |g.edges|
      ensures Lists(g.nodes, g.edges[i].from) && Lists(g.nodes, g.edges[i].to)
    {
      assert EdgeError(TypeOf(g.nodes), g.edges[i]).None?;
    }
  }

  lemma KeptIdsUnique(view: ViewKind, nodes: seq<Node>)
    requires UniqueIds(nodes)
    ensures UniqueIds(KeptNodes(view, nodes))
  {
    var at := KeptNodesAt(view, nodes);
    var kept := KeptNodes(view, nodes);
    forall i, j | 0 <= i < j < |kept|
      ensures kept[i].id != kept[j].id
    {
      assert nodes[at[i]] == kept[i] && nodes[at[j]] == kept[j];
    }
  }

  /** Every view of a validated graph has edges between listed nodes only, and unique ids if the graph has. */
  lemma ProjectionIsJoined(view: ViewKind, g: Graph)
    requires forall i :: 0 <= i < |g.edges| ==> EdgeError(TypeOf(g.nodes), g.edges[i]).None?
    ensures Joined(Project(view, g))
    ensures UniqueIds(g.nodes) ==> UniqueIds(Project(view, g).nodes)
  {
    hide EdgeError, KeptNodes, KeptEdges, Joined, UniqueIds;
    ValidatedIsJoined(g);
    KnowledgeKeepsAll(g.nodes);
    assert Graph(g.nodes, g.edges) == g;
    KeptEdgesJoined(view, KeptNodes(view, g.nodes), g.edges);
    if UniqueIds(g.nodes) {
      KeptIdsUnique(view, g.nodes);
    }
  }

  // ---------------------------------------------------------------- what a view shows

  lemma {:induction false} KeptNodesAt(view: ViewKind, nodes: seq<Node>) returns (at: seq<nat>)
    ensures Places(at, set i | 0 <= i < |nodes| && KeepsNode(view, nodes[i].nodeType))
    ensures |at| == |KeptNodes(view, nodes)| && forall i :: 0 <= i < |at| ==> at[i] < |nodes| && KeptNodes(view, nodes)[i] == nodes[at[i]]
  {
    hide KeepsNode;
    at := [];
    if nodes != [] {
      var n := |nodes| - 1;
      at := KeptNodesAt(view, nodes[..n]);
      var before := set i | 0 <= i < n && KeepsNode(view, nodes[..n][i].nodeType);
      assert (set i | 0 <= i < |nodes| && KeepsNode(view, nodes[i].nodeType)) == before + if KeepsNode(view, nodes[n].nodeType) then {n} else {};
      if KeepsNode(view, nodes[n].nodeType) {
        PlacesSnoc(at, before, n);
        at := at + [n];
      } else {
        assert before + {} == before;
      }
    }
  }

  /** The view shows a node with this id. */
  ghost predicate Shown(view: ViewKind, nodes: seq<Node>, id: Id) {
    exists i :: 0 <= i < |nodes| && nodes[i].id == id && KeepsNode(view, nodes[i].nodeType)
  }

  lemma ShownIsListed(view: ViewKind, nodes: seq<Node>, id: Id)
    ensures Lists(KeptNodes(view, nodes), id) <==> Shown(view, nodes, id)
  {
    hide KeepsNode, KeptNodes;
    var at := KeptNodesAt(view, nodes);
    var kept := KeptNodes(view, nodes);
    if Lists(kept, id) {
      var i :| 0 <= i < |kept| && kept[i].id == id;
      assert at[i] in at;
    }
    if Shown(view, nodes, id) {
      var j :| 0 <= j < |nodes| && nodes[j].id == id && KeepsNode(view, nodes[j].nodeType);
      assert j in at;
      var i :| 0 <= i < |at| && at[i] == j;
      assert kept[i].id == id;
    }
  }

  ghost predicate ShowsEdge(view: ViewKind, nodes: seq<Node>, e: Edge) {
    view.Knowledge? || (Shown(view, nodes, e.from) && Shown(view, nodes, e.to) && KeepsEdgeType(view, e.edgeType))
  }

  lemma {:induction false} KeptEdgesAt(view: ViewKind, nodes: seq<Node>, edges: seq<Edge>) returns (at: seq<nat>)
    ensures Places(at, set i | 0 <= i < |edges| && ShowsEdge(view, nodes, edges[i]))
    ensures var kept := KeptEdges(view, KeptNodes(view, nodes), edges);
      |at| == |kept| && forall i :: 0 <= i < |at| ==> at[i] < |edges| && kept[i] == edges[at[i]]
  {
    hide KeepsEdgeType, Lists, Shown, KeptNodes;
    at := [];
    if edges != [] {
      var n := |edges| - 1;
      at := KeptEdgesAt(view, nodes, edges[..n]);
      ShownIsListed(view, nodes, edges[n].from);
      ShownIsListed(view, nodes, edges[n].to);
      var before := set i | 0 <= i < n && ShowsEdge(view, nodes, edges[..n][i]);
      assert (set i | 0 <= i < |edges| && ShowsEdge(view, nodes, edges[i])) == before + if ShowsEdge(view, nodes, edges[n]) then {n} else {};
      if ShowsEdge(view, nodes, edges[n]) {
        PlacesSnoc(at, before, n);
        at := at + [n];
      } else {
        assert before + {} == before;
      }
    }
  }

  /** A view shows, in the graph's order, exactly the nodes of its types, and exactly the edges of its types between ids that it shows; the
      knowledge view shows everything. */
  lemma ProjectionIsExact(view: ViewKind, g: Graph) returns (nodesAt: seq<nat>, edgesAt: seq<nat>)
    ensures Places(nodesAt, set i | 0 <= i < |g.nodes| && KeepsNode(view, g.nodes[i].nodeType))
    ensures Places(edgesAt, set i | 0 <= i < |g.edges| && ShowsEdge(view, g.nodes, g.edges[i]))
    ensures var v := Project(view, g);
      && |nodesAt| == |v.nodes| && (forall i :: 0 <= i < |nodesAt| ==> nodesAt[i] < |g.nodes| && v.nodes[i] == g.nodes[nodesAt[i]])
      && |edgesAt| == |v.edges| && (forall i :: 0 <= i < |edgesAt| ==> edgesAt[i] < |g.edges| && v.edges[i] == g.edges[edgesAt[i]])
  {
    hide KeepsNode, ShowsEdge, KeptNodes, KeptEdges;
    nodesAt := KeptNodesAt(view, g.nodes);
    edgesAt := KeptEdgesAt(view, g.nodes, g.edges);
  }
}
