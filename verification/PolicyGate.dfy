/** The two workflow policy gates, each with its own reading of the JSON document: the worker's, and the host's with its extra
    reachability pass. */
module PolicyGate {
  import opened Wrappers
  import opened Digraph
  import opened Sequences
  import opened Workflow
  import opened Permissions
  import opened CycleGate
  import opened Reachability
  import Topo

  datatype GateError =
    | UnsupportedSchema
    | NodesRequired
    | NonObjectNode
    | MissingId
    | UnknownClass(id: string)
    | BadLoop(id: string)
    | ToolClash(id: string, tool: string)
    | StepsOverCap
    | JobsOverCap
    | UnboundedCycle(cycle: seq<string>)

  /** A node whose permission class needs an approval. */
  datatype Need = Need(id: string, permissionClass: string)

  datatype Report = Report(errors: seq<GateError>, approvals: seq<Need>)

  /** An entry of the node list need not be an object, and its id need not be a text; the node holds the text Python makes of it. */
  datatype Entry = NonObject | Object(node: Node, idIsText: bool)

  datatype Doc = Doc(schemaOk: bool, nodes: seq<Entry>, edges: seq<RawEdge>, maxSteps: Raw, maxParallelJobs: Raw)

  function Nodes(entries: seq<Entry>): seq<Node> {
    if entries == [] then []
    else
      var n := |entries| - 1;
      Nodes(entries[..n]) + if entries[n].Object? then [entries[n].node] else []
  }

  predicate IsNamed(e: Entry) {
    e.Object? && e.idIsText && e.node.id != ""
  }

  /** Nodes the host accepts as such: objects with a non-empty text as id. */
  function NamedNodes(entries: seq<Entry>): seq<Node> {
    if entries == [] then []
    else
      var n := |entries| - 1;
      NamedNodes(entries[..n]) + if IsNamed(entries[n]) then [entries[n].node] else []
  }

  /** To Python a truth value is an integer; to Rust it is not. */
  predicate PythonBounded(loop: ReviewLoop) {
    && loop.LoopWith?
    && match loop.maxIterations
       case Truth(b) => b
       case Whole(n) => 1 <= n <= 10
       case _ => false
  }

  predicate RustBounded(loop: ReviewLoop) {
    loop.LoopWith? && 1 <= RustCount(loop.maxIterations) <= 10
  }

  function WorkerEntryErrors(e: Entry): seq<GateError> {
    if e.NonObject? then [NonObjectNode]
    else
      var n := e.node;
      (if Normalize(n.permissionClass) !in KNOWN_CLASSES then [UnknownClass(n.id)] else [])
      + (if n.reviewLoop.LoopWith? && !PythonBounded(n.reviewLoop) then [BadLoop(n.id)] else [])
  }

  function HostEntryErrors(e: Entry): seq<GateError> {
    if !IsNamed(e) then [MissingId]
    else
      var n := e.node;
      (if n.permissionClass !in KNOWN_CLASSES then [UnknownClass(n.id)] else [])
      + (if !n.reviewLoop.NoLoop? && !RustBounded(n.reviewLoop) then [BadLoop(n.id)] else [])
      + ToolErrors(n, n.tools)
  }

  function ToolErrors(n: Node, tools: seq<string>): seq<GateError> {
    if tools == [] then []
    else (if tools[0] in {"shell", "git", "publish", "delete_source"} && MayAutoApply(n.permissionClass)
          then [ToolClash(n.id, tools[0])] else []) + ToolErrors(n, tools[1..])
  }

  function EntryErrors(entries: seq<Entry>, host: bool): seq<GateError> {
    if entries == [] then []
    else
      var n := |entries| - 1;
      EntryErrors(entries[..n], host) + if host then HostEntryErrors(entries[n]) else WorkerEntryErrors(entries[n])
  }

  /** The approval that one entry needs: its class is known and does not apply automatically. */
  function EntryNeed(e: Entry, host: bool): seq<Need> {
    if (if host then !IsNamed(e) else e.NonObject?) then []
    else
      var cls := e.node.permissionClass;
      if Normalize(cls) in KNOWN_CLASSES && !MayAutoApply(cls) then [Need(e.node.id, Normalize(cls))] else []
  }

  function Needs(entries: seq<Entry>, host: bool): seq<Need> {
    if entries == [] then [] else Needs(entries[..|entries| - 1], host) + EntryNeed(entries[|entries| - 1], host)
  }

  /** The walk over the node list with which both gates begin. */
  method ScanEntries(entries: seq<Entry>, host: bool) returns (errors: seq<GateError>, approvals: seq<Need>)
    ensures errors == EntryErrors(entries, host) && approvals == Needs(entries, host)
  {
    hide HostEntryErrors, WorkerEntryErrors, EntryNeed;
    errors, approvals := [], [];
    for i := 0 to |entries|
      invariant errors == EntryErrors(entries[..i], host) && approvals == Needs(entries[..i], host)
    {
      assert entries[..i + 1][..i] == entries[..i];
      errors := errors + if host then HostEntryErrors(entries[i]) else WorkerEntryErrors(entries[i]);
      approvals := approvals + EntryNeed(entries[i], host);
    }
    assert entries[..|entries|] == entries;
  }

  const STEPS_CAP := 500
  const JOBS_CAP := 32

  function WorkerBudgetErrors(doc: Doc): seq<GateError>
    requires PythonCount(doc.maxSteps).Some? && PythonCount(doc.maxParallelJobs).Some?
  {
    (if PythonCount(doc.maxSteps).value > STEPS_CAP then [StepsOverCap] else [])
    + (if PythonCount(doc.maxParallelJobs).value > JOBS_CAP then [JobsOverCap] else [])
  }

  function HostBudgetErrors(doc: Doc): seq<GateError> {
    (if RustCount(doc.maxSteps) > STEPS_CAP then [StepsOverCap] else [])
    + (if RustCount(doc.maxParallelJobs) > JOBS_CAP then [JobsOverCap] else [])
  }

  function LoopIds(nodes: seq<Node>, host: bool): set<Id> {
    set i | 0 <= i < |nodes| && (if host then RustBounded(nodes[i].reviewLoop) else nodes[i].reviewLoop.LoopWith?) :: nodes[i].id
  }

  function CycleErrors(cycles: seq<seq<Id>>): seq<GateError> {
    seq(|cycles|, i requires 0 <= i < |cycles| => UnboundedCycle(cycles[i]))
  }

  // ---------------------------------------------------------------- the graph of a document

  /** Successor lists built from the edges of the document. */
  function GraphOf(nodes: seq<Node>, edges: seq<NamedEdge>): (adj: map<Id, seq<Id>>)
    ensures Closed(adj) && forall id :: id in adj <==> id in DictIds(nodes)
  {
    var ids := DictIds(nodes);
    AdjacencyClosed(ids, Links(ids, edges));
    Adjacency(ids, Links(ids, edges))
  }

  lemma AdjacencyClosed(ids: seq<Id>, links: seq<Topo.Edge>)
    requires Topo.Between(ids, links)
    ensures Closed(Adjacency(ids, links))
    ensures ArcsOf(Adjacency(ids, links)) == Topo.ArcsIn(links)
  {
    var adj := Adjacency(ids, links);
    forall u, i | u in adj && 0 <= i < |adj[u]|
      ensures adj[u][i] in adj && (u, adj[u][i]) in links
    {
      Topo.TargetsListed(links, u, adj[u][i]);
    }
    forall e | e in links
      ensures e in ArcsOf(adj)
    {
      Topo.TargetsListed(links, e.0, e.1);
      var i :| 0 <= i < |adj[e.0]| && adj[e.0][i] == e.1;
    }
  }

  function WorkerGraph(doc: Doc): (adj: map<Id, seq<Id>>)
    ensures Closed(adj)
  {
    GraphOf(Nodes(doc.nodes), PythonEdges(doc.edges))
  }

  function HostGraph(doc: Doc): (adj: map<Id, seq<Id>>)
    ensures Closed(adj)
  {
    GraphOf(NamedNodes(doc.nodes), RustEdges(doc.edges))
  }

  /** The ids of the nodes that a gate sees. */
  ghost function Declared(entries: seq<Entry>, host: bool): set<Id> {
    set i | 0 <= i < |entries| && entries[i].Object? && (host ==> entries[i].idIsText && entries[i].node.id != "") :: entries[i].node.id
  }

  /** An edge of the document names the first node as its source and the second as its target. */
  ghost predicate Named(doc: Doc, host: bool, u: Id, v: Id) {
    exists i :: 0 <= i < |doc.edges| && EndNames(doc.edges[i].from, u, host) && EndNames(doc.edges[i].to, v, host)
  }

  ghost predicate EndNames(end: Raw, id: Id, host: bool) {
    NamesNode(if host then RustText(end) else PythonText(end), id)
  }

  /** The edges of the workflow between declared nodes, as one gate sees them. */
  ghost function ArrowsSeen(doc: Doc, host: bool): Arcs<Id> {
    set u, v | u in Declared(doc.nodes, host) && v in Declared(doc.nodes, host) && Named(doc, host, u, v) :: (u, v)
  }

  /** The edges as the worker's gate and the executor both see them. */
  ghost function Arrows(doc: Doc): Arcs<Id> {
    ArrowsSeen(doc, false)
  }

  ghost function HostArrows(doc: Doc): Arcs<Id> {
    ArrowsSeen(doc, true)
  }

  ghost predicate Seen(entries: seq<Entry>, host: bool, id: Id) {
    exists i :: 0 <= i < |entries| && entries[i].Object? && (host ==> IsNamed(entries[i])) && entries[i].node.id == id
  }

  lemma {:induction false} DeclaredIds(entries: seq<Entry>, host: bool, id: Id)
    ensures Declares(if host then NamedNodes(entries) else Nodes(entries), id) <==> Seen(entries, host, id)
  {
    if entries != [] {
      var n := |entries| - 1;
      DeclaredIds(entries[..n], host, id);
      assert entries == entries[..n] + [entries[n]];
      SeenSnoc(entries[..n], entries[n], host, id);
      var front := if host then NamedNodes(entries[..n]) else Nodes(entries[..n]);
      DeclaresSnoc(front, entries[n], id);
      assert front + [] == front;
    }
  }

  lemma SeenSnoc(entries: seq<Entry>, e: Entry, host: bool, id: Id)
    ensures Seen(entries + [e], host, id) <==>
      Seen(entries, host, id) || (e.Object? && (host ==> IsNamed(e)) && e.node.id == id)
  {
    var all := entries + [e];
    assert all[|entries|] == e && forall i :: 0 <= i < |entries| ==> all[i] == entries[i];
  }

  lemma DeclaresSnoc(nodes: seq<Node>, e: Entry, id: Id)
    ensures e.Object? ==> (Declares(nodes + [e.node], id) <==> Declares(nodes, id) || e.node.id == id)
  {
    if e.Object? {
      var all := nodes + [e.node];
      assert all[|nodes|] == e.node && forall i :: 0 <= i < |nodes| ==> all[i] == nodes[i];
    }
  }

  /** The links of both gates, told on the document. */
  lemma LinksAreArrows(doc: Doc)
    ensures Topo.ArcsIn(Links(DictIds(Nodes(doc.nodes)), PythonEdges(doc.edges))) == Arrows(doc)
    ensures Topo.ArcsIn(Links(DictIds(NamedNodes(doc.nodes)), RustEdges(doc.edges))) == HostArrows(doc)
  {
    hide Links, DictIds, Nodes, NamedNodes, PythonEdges, RustEdges, ArrowsSeen, Topo.ArcsIn;
    LinksAre(doc, false);
    LinksAre(doc, true);
  }

  lemma LinksAre(doc: Doc, host: bool)
    ensures Topo.ArcsIn(Links(DictIds(if host then NamedNodes(doc.nodes) else Nodes(doc.nodes)), if host then RustEdges(doc.edges) else PythonEdges(doc.edges)))
      == ArrowsSeen(doc, host)
  {
    hide Links, DictIds, Nodes, NamedNodes, PythonEdges, RustEdges, ArrowsSeen;
    var links := Links(DictIds(if host then NamedNodes(doc.nodes) else Nodes(doc.nodes)), if host then RustEdges(doc.edges) else PythonEdges(doc.edges));
    forall e: Topo.Edge
      ensures e in links <==> e in ArrowsSeen(doc, host)
    {
      LinkIsArrow(doc, host, e.0, e.1);
    }
  }

  lemma LinkIsArrow(doc: Doc, host: bool, u: Id, v: Id)
    ensures var ids := DictIds(if host then NamedNodes(doc.nodes) else Nodes(doc.nodes));
      (u, v) in Links(ids, if host then RustEdges(doc.edges) else PythonEdges(doc.edges)) <==> (u, v) in ArrowsSeen(doc, host)
  {
    hide NamesNode, Links, DictIds, Nodes, NamedNodes, Declares, Named;
    var nodes, edges := if host then NamedNodes(doc.nodes) else Nodes(doc.nodes), if host then RustEdges(doc.edges) else PythonEdges(doc.edges);
    LinksHold(DictIds(nodes), edges, u, v);
    DeclaredIds(doc.nodes, host, u);
    DeclaredIds(doc.nodes, host, v);
    SeenIsDeclared(doc.nodes, host, u);
    SeenIsDeclared(doc.nodes, host, v);
    NamedEdges(doc, host, u, v);
  }

  lemma SeenIsDeclared(entries: seq<Entry>, host: bool, id: Id)
    ensures Seen(entries, host, id) <==> id in Declared(entries, host)
  {
  }

  lemma NamedEdges(doc: Doc, host: bool, u: Id, v: Id)
    ensures var edges := if host then RustEdges(doc.edges) else PythonEdges(doc.edges);
      Named(doc, host, u, v) <==> exists i :: 0 <= i < |edges| && NamesNode(edges[i].from, u) && NamesNode(edges[i].to, v)
  {
    hide NamesNode, PythonText, RustText;
    var edges := if host then RustEdges(doc.edges) else PythonEdges(doc.edges);
    if i :| 0 <= i < |edges| && NamesNode(edges[i].from, u) && NamesNode(edges[i].to, v) {
      assert EndNames(doc.edges[i].from, u, host) && EndNames(doc.edges[i].to, v, host);
    }
    if Named(doc, host, u, v) {
      var i :| 0 <= i < |doc.edges| && EndNames(doc.edges[i].from, u, host) && EndNames(doc.edges[i].to, v, host);
      assert NamesNode(edges[i].from, u) && NamesNode(edges[i].to, v);
    }
  }

  lemma GraphArcs(nodes: seq<Node>, edges: seq<NamedEdge>)
    ensures ArcsOf(GraphOf(nodes, edges)) == Topo.ArcsIn(Links(DictIds(nodes), edges))
  {
    AdjacencyClosed(DictIds(nodes), Links(DictIds(nodes), edges));
  }

  // ---------------------------------------------------------------- the worker's gate

  /** Python reads both budgets as integers; a document without nodes is turned away before they are read. */
  predicate BudgetsReadable(doc: Doc) {
    doc.nodes == [] || (PythonCount(doc.maxSteps).Some? && PythonCount(doc.maxParallelJobs).Some?)
  }

  function WorkerCycles(doc: Doc, order: seq<Id>): seq<seq<Id>>
    requires Lists(order, WorkerGraph(doc))
  {
    Gate(WorkerGraph(doc), LoopIds(Nodes(doc.nodes), false), order)
  }

  /** All errors of the worker's gate when the nodes are tried in the given order. */
  function WorkerErrors(doc: Doc, order: seq<Id>): seq<GateError>
    requires Lists(order, WorkerGraph(doc)) && BudgetsReadable(doc)
  {
    if doc.nodes == [] then [NodesRequired]
    else EntryErrors(doc.nodes, false) + CycleErrors(WorkerCycles(doc, order)) + WorkerBudgetErrors(doc)
  }

  /** The gate raises no exception and reports no error. */
  ghost predicate WorkerAccepts(doc: Doc, order: seq<Id>)
    requires Lists(order, WorkerGraph(doc))
  {
    BudgetsReadable(doc) && WorkerErrors(doc, order) == []
  }

  method BuildAdjacency(ids: seq<Id>, edges: seq<NamedEdge>) returns (adj: map<Id, seq<Id>>)
    ensures adj == Adjacency(ids, Links(ids, edges))
  {
    hide Topo.Targets;
    adj := map u | u in ids :: [];
    AdjacencyEmpty(ids);
    for k := 0 to |edges|
      invariant adj == Adjacency(ids, Links(ids, edges[..k]))
    {
      assert edges[..k + 1][..k] == edges[..k];
      var u, v := Endpoint(edges[k].from), Endpoint(edges[k].to);
      AdjacencyStep(ids, Links(ids, edges[..k]), u, v);
      if u in ids && v in ids {
        adj := adj[u := adj[u] + [v]];
      }
    }
    assert edges[..|edges|] == edges;
  }

  lemma AdjacencyEmpty(ids: seq<Id>)
    ensures Adjacency(ids, []) == map u | u in ids :: []
  {
  }

  lemma AdjacencyStep(ids: seq<Id>, links: seq<Topo.Edge>, u: Id, v: Id)
    ensures Adjacency(ids, links + []) == Adjacency(ids, links)
    ensures u in ids ==> Adjacency(ids, links + [(u, v)]) == Adjacency(ids, links)[u := Adjacency(ids, links)[u] + [v]]
  {
    assert links + [] == links;
    assert (links + [(u, v)])[..|links|] == links;
    forall x | x in ids
      ensures Topo.Targets(links + [(u, v)], x) == Topo.Targets(links, x) + if x == u then [v] else []
    {
    }
    assert forall x :: x in ids ==> Topo.Targets(links, x) + [] == Topo.Targets(links, x);
  }

  /** The report, absent when Python raises on a budget that is no number. */
  method WorkerGate(doc: Doc) returns (report: Option<Report>, ghost order: seq<Id>)
    ensures Distinct(order) && Lists(order, WorkerGraph(doc))
    ensures report.Some? <==> BudgetsReadable(doc)
    ensures report.Some? ==> report.value == Report(WorkerErrors(doc, order), Needs(doc.nodes, false))
  {
    hide Gate, EntryErrors, LoopIds;
    var nodes, edges := Nodes(doc.nodes), PythonEdges(doc.edges);
    var ids := DictIds(nodes);
    if doc.nodes == [] {
      order := [];
      return Some(Report([NodesRequired], [])), order;
    }
    var errors, approvals := ScanEntries(doc.nodes, false);
    var adj := BuildAdjacency(ids, edges);
    AdjacencyClosed(ids, Links(ids, edges));
    var cycles;
    cycles, order := CheckCycles(adj, LoopIds(nodes, false));
    if PythonCount(doc.maxSteps).None? || PythonCount(doc.maxParallelJobs).None? {
      return None, order;
    }
    report := Some(Report(errors + CycleErrors(cycles) + WorkerBudgetErrors(doc), approvals));
  }

  // ---------------------------------------------------------------- the host's gate

  function HostCycles(doc: Doc, order: seq<Id>): seq<seq<Id>>
    requires Lists(order, HostGraph(doc))
  {
    Gate(HostGraph(doc), LoopIds(NamedNodes(doc.nodes), true), order)
  }

  /** The errors found before the reachability pass. */
  function HostErrors(doc: Doc, order: seq<Id>): seq<GateError>
    requires Lists(order, HostGraph(doc))
  {
    if !doc.schemaOk then [UnsupportedSchema]
    else if doc.nodes == [] then [NodesRequired]
    else EntryErrors(doc.nodes, true) + HostBudgetErrors(doc) + CycleErrors(HostCycles(doc, order))
  }

  /** What the reachability pass finds. */
  ghost function HostReach(doc: Doc): Reach {
    var nodes := NamedNodes(doc.nodes);
    var ids := DictIds(nodes);
    ReachabilityErrors(ids, HostArrows(doc), LoopIds(nodes, true))
  }

  ghost predicate HostAccepts(doc: Doc, order: seq<Id>)
    requires Lists(order, HostGraph(doc))
  {
    HostErrors(doc, order) == [] && HostReach(doc) == Reach(false, {})
  }

  method HostGate(doc: Doc) returns (ok: bool, report: Report, reach: Reach, ghost order: seq<Id>)
    ensures Distinct(order) && Lists(order, HostGraph(doc)) && (ok <==> HostAccepts(doc, order))
    ensures report.errors == HostErrors(doc, order)
    ensures report.approvals == if doc.schemaOk then Needs(doc.nodes, true) else []
    ensures doc.schemaOk && doc.nodes != [] ==> reach == HostReach(doc)
  {
    hide Gate, ReachabilityErrors, EntryErrors, LoopIds;
    var nodes, edges := NamedNodes(doc.nodes), RustEdges(doc.edges);
    var ids := DictIds(nodes);
    var adj := BuildAdjacency(ids, edges);
    AdjacencyClosed(ids, Links(ids, edges));
    var cycles;
    cycles, order := CheckCycles(adj, LoopIds(nodes, true));
    reach := Reach(false, {});
    if !doc.schemaOk {
      return false, Report([UnsupportedSchema], []), reach, order;
    }
    if doc.nodes == [] {
      return false, Report([NodesRequired], []), reach, order;
    }
    var errors, approvals := ScanEntries(doc.nodes, true);
    errors := errors + HostBudgetErrors(doc) + CycleErrors(cycles);
    LinksAreArrows(doc);
    reach := ReachabilityPass(ids, Links(ids, edges), adj, LoopIds(nodes, true));
    report := Report(errors, approvals);
    ok := errors == [] && !reach.noRoot && reach.unreachable == {};
  }

  // ---------------------------------------------------------------- what acceptance by the worker means

  ghost predicate CleanEntry(e: Entry, host: bool) {
    e.Object? && (if host then HostEntryErrors(e) == [] else WorkerEntryErrors(e) == [])
  }

  ghost predicate AllClean(entries: seq<Entry>, host: bool) {
    forall i :: 0 <= i < |entries| ==> CleanEntry(entries[i], host)
  }

  lemma AllCleanSnoc(entries: seq<Entry>, host: bool)
    requires entries != []
    ensures var n := |entries| - 1; AllClean(entries, host) <==> AllClean(entries[..n], host) && CleanEntry(entries[n], host)
  {
    hide CleanEntry;
    var n := |entries| - 1;
    assert forall i :: 0 <= i < n ==> entries[..n][i] == entries[i];
  }

  lemma {:induction false} EntriesAllClean(entries: seq<Entry>, host: bool)
    ensures EntryErrors(entries, host) == [] <==> AllClean(entries, host)
  {
    hide CleanEntry, HostEntryErrors, WorkerEntryErrors, EntryErrors, AllClean;
    if entries == [] {
      NoErrorsInNone(host);
    } else {
      var n := |entries| - 1;
      EntriesAllClean(entries[..n], host);
      CleanMeansNoErrors(entries[n], host);
      ErrorsSnoc(entries, host);
      AllCleanSnoc(entries, host);
    }
  }

  lemma NoErrorsInNone(host: bool)
    ensures EntryErrors([], host) == [] && AllClean([], host)
  {
  }

  lemma EntriesClean(entries: seq<Entry>, host: bool)
    ensures EntryErrors(entries, host) == [] <==> forall i :: 0 <= i < |entries| ==> CleanEntry(entries[i], host)
  {
    hide CleanEntry, EntryErrors;
    EntriesAllClean(entries, host);
  }

  lemma ErrorsSnoc(entries: seq<Entry>, host: bool)
    requires entries != []
    ensures var n := |entries| - 1;
      EntryErrors(entries, host) == [] <==>
        EntryErrors(entries[..n], host) == [] && (if host then HostEntryErrors(entries[n]) else WorkerEntryErrors(entries[n])) == []
  {
    hide HostEntryErrors, WorkerEntryErrors;
  }

  lemma CleanMeansNoErrors(e: Entry, host: bool)
    ensures CleanEntry(e, host) <==> (if host then HostEntryErrors(e) else WorkerEntryErrors(e)) == []
  {
  }

  ghost predicate ComesFrom(n: Node, entries: seq<Entry>) {
    exists i :: 0 <= i < |entries| && entries[i].Object? && entries[i].node == n
  }

  lemma {:induction false} NodesComeFromEntries(entries: seq<Entry>)
    ensures forall i :: 0 <= i < |Nodes(entries)| ==> ComesFrom(Nodes(entries)[i], entries)
  {
    if entries != [] {
      var n, nodes := |entries| - 1, Nodes(entries);
      NodesComeFromEntries(entries[..n]);
      forall i | 0 <= i < |nodes|
        ensures ComesFrom(nodes[i], entries)
      {
        if i < |Nodes(entries[..n])| {
          assert ComesFrom(nodes[i], entries[..n]);
          var j :| 0 <= j < n && entries[..n][j].Object? && entries[..n][j].node == nodes[i];
          assert entries[j].node == nodes[i];
        } else {
          assert entries[n].node == nodes[i];
        }
      }
    }
  }

  ghost predicate LoopsBounded(nodes: seq<Node>) {
    forall i :: 0 <= i < |nodes| && nodes[i].reviewLoop.LoopWith? ==> PythonBounded(nodes[i].reviewLoop)
  }

  lemma CleanLoopsAreBounded(entries: seq<Entry>)
    requires EntryErrors(entries, false) == []
    ensures LoopsBounded(Nodes(entries))
  {
    var nodes := Nodes(entries);
    EntriesClean(entries, false);
    NodesComeFromEntries(entries);
    hide Nodes, EntryErrors;
    forall i | 0 <= i < |nodes| && nodes[i].reviewLoop.LoopWith?
      ensures PythonBounded(nodes[i].reviewLoop)
    {
      assert ComesFrom(nodes[i], entries);
      var j :| 0 <= j < |entries| && entries[j].Object? && entries[j].node == nodes[i];
      assert CleanEntry(entries[j], false);
    }
  }

  /** Some node with this id carries a review loop that the gate counts: for the host only one of 1 to 10 iterations. */
  ghost predicate Looped(entries: seq<Entry>, host: bool, id: Id) {
    exists i :: 0 <= i < |entries| && LoopedEntry(entries[i], host, id)
  }

  ghost predicate LoopedEntry(e: Entry, host: bool, id: Id) {
    && e.Object? && e.node.id == id && e.node.reviewLoop.LoopWith?
    && (host ==> e.idIsText && id != "" && OneToTen(e.node.reviewLoop.maxIterations, true))
  }

  /** Python counts the truth value as one. */
  ghost predicate OneToTen(x: Raw, host: bool) {
    (x.Whole? && 1 <= x.n <= 10) || (!host && x == Truth(true))
  }

  lemma {:induction false} LoopIdsAre(entries: seq<Entry>, host: bool, id: Id)
    ensures id in LoopIds(if host then NamedNodes(entries) else Nodes(entries), host) <==> Looped(entries, host, id)
  {
    if entries != [] {
      var n := |entries| - 1;
      LoopIdsAre(entries[..n], host, id);
      assert entries == entries[..n] + [entries[n]];
      LoopedSnoc(entries[..n], entries[n], host, id);
      var front := if host then NamedNodes(entries[..n]) else Nodes(entries[..n]);
      LoopIdsSnoc(front, entries[n], host, id);
      assert front + [] == front;
    }
  }

  lemma LoopedSnoc(entries: seq<Entry>, e: Entry, host: bool, id: Id)
    ensures Looped(entries + [e], host, id) <==> Looped(entries, host, id) || LoopedEntry(e, host, id)
  {
    var all := entries + [e];
    assert all[|entries|] == e && forall i :: 0 <= i < |entries| ==> all[i] == entries[i];
  }

  lemma LoopIdsSnoc(nodes: seq<Node>, e: Entry, host: bool, id: Id)
    ensures e.Object? && (host ==> IsNamed(e)) ==>
      (id in LoopIds(nodes + [e.node], host) <==> id in LoopIds(nodes, host) || LoopedEntry(e, host, id))
  {
    if e.Object? && (host ==> IsNamed(e)) {
      var all := nodes + [e.node];
      assert all[|nodes|] == e.node && forall i :: 0 <= i < |nodes| ==> all[i] == nodes[i];
    }
  }

  /** Every node of every cycle carries a review loop that the gate counts. */
  ghost predicate CyclesBounded(doc: Doc, host: bool) {
    forall c, u :: IsCycle(ArrowsSeen(doc, host), c) && u in c ==> Looped(doc.nodes, host, u)
  }

  lemma CyclesBoundedIff(doc: Doc, host: bool)
    ensures CyclesBounded(doc, host) <==>
      CyclesLooped(ArrowsSeen(doc, host), LoopIds(if host then NamedNodes(doc.nodes) else Nodes(doc.nodes), host))
  {
    hide IsCycle, LoopIds, ArrowsSeen, Looped;
    var loops := LoopIds(if host then NamedNodes(doc.nodes) else Nodes(doc.nodes), host);
    forall c | IsCycle(ArrowsSeen(doc, host), c)
      ensures AllIn(c, loops) <==> forall u :: u in c ==> Looped(doc.nodes, host, u)
    {
      forall u {
        LoopIdsAre(doc.nodes, host, u);
      }
      assert forall i :: 0 <= i < |c| ==> c[i] in c;
    }
  }

  /** What a gate asks of one entry: the worker an object of a known class whose review loop, if it is an object, takes 1 to 10 iterations;
      the host moreover a text for an id, no other thing for a review loop, and no strong tool under a class that applies automatically. */
  ghost predicate FineEntry(e: Entry, host: bool) {
    && e.Object?
    && e.node.permissionClass in {"read", "safe_overlay", "vault_mutate", "source_mutate", "network_egress", "network", "publish", "shell",
         "credentials", "approval_required"}
    && (e.node.reviewLoop.LoopWith? ==> OneToTen(e.node.reviewLoop.maxIterations, host))
    && (host ==> e.idIsText && e.node.id != "" && !e.node.reviewLoop.NotAnObject?)
    && (host && e.node.permissionClass in {"read", "safe_overlay"} ==> NoStrongTool(e.node.tools))
  }

  ghost predicate NoStrongTool(tools: seq<string>) {
    forall t :: t in tools ==> t !in {"shell", "git", "publish", "delete_source"}
  }

  lemma {:induction false} ToolErrorsNone(n: Node, tools: seq<string>)
    ensures ToolErrors(n, tools) == [] <==> (n.permissionClass in {"read", "safe_overlay"} ==> NoStrongTool(tools))
  {
    if tools != [] {
      ToolErrorsNone(n, tools[1..]);
      StrongToolsCons(tools);
    }
  }

  lemma StrongToolsCons(tools: seq<string>)
    requires tools != []
    ensures NoStrongTool(tools) <==> tools[0] !in {"shell", "git", "publish", "delete_source"} && NoStrongTool(tools[1..])
  {
    assert tools[0] in tools && forall t :: t in tools[1..] ==> t in tools;
    if NoStrongTool(tools[1..]) && tools[0] !in {"shell", "git", "publish", "delete_source"} {
      forall t | t in tools
        ensures t !in {"shell", "git", "publish", "delete_source"}
      {
        if t != tools[0] {
          assert tools == [tools[0]] + tools[1..];
          assert t in tools[1..];
        }
      }
    }
  }

  lemma ClassesKnown(cls: string)
    ensures Normalize(cls) in KNOWN_CLASSES <==> cls in KNOWN_CLASSES
    ensures cls in KNOWN_CLASSES <==> cls in {"read", "safe_overlay", "vault_mutate", "source_mutate", "network_egress", "network", "publish",
      "shell", "credentials", "approval_required"}
  {
    hide Normalize;
    NormalizeKnown(cls);
  }

  lemma NormalizeKnown(cls: string)
    ensures Normalize(cls) in KNOWN_CLASSES <==> cls in KNOWN_CLASSES
  {
    assert "network_egress" in APPROVAL_REQUIRED && "vault_mutate" in APPROVAL_REQUIRED;
    assert "network" in APPROVAL_REQUIRED && "approval_required" in APPROVAL_REQUIRED;
  }

  lemma FineEntryIff(e: Entry, host: bool)
    ensures FineEntry(e, host) <==> CleanEntry(e, host)
  {
    hide ToolErrors, NoStrongTool, Normalize;
    if e.Object? {
      ClassesKnown(e.node.permissionClass);
      ToolErrorsNone(e.node, e.node.tools);
      if host {
        assert FineEntry(e, host) <==> HostEntryErrors(e) == [];
      } else {
        assert FineEntry(e, host) <==> WorkerEntryErrors(e) == [];
      }
    }
  }

  ghost predicate FineEntries(entries: seq<Entry>, host: bool) {
    entries != [] && forall i :: 0 <= i < |entries| ==> FineEntry(entries[i], host)
  }

  lemma FineEntriesIff(entries: seq<Entry>, host: bool)
    ensures FineEntries(entries, host) <==> entries != [] && EntryErrors(entries, host) == []
  {
    hide FineEntry, CleanEntry, EntryErrors;
    EntriesClean(entries, host);
    forall i | 0 <= i < |entries|
      ensures FineEntry(entries[i], host) <==> CleanEntry(entries[i], host)
    {
      FineEntryIff(entries[i], host);
    }
  }

  /** What a gate says against an entry: the worker that it is no object, the host that it has no text for an id; and, of the others, that the
      class is unknown, that the review loop is not bounded by 1 to 10 iterations, or, the host alone, that a strong tool stands under a class
      that applies automatically. */
  ghost predicate Faults(e: Entry, host: bool, x: GateError) {
    var seen := e.Object? && (host ==> e.idIsText && e.node.id != "");
    match x
    case NonObjectNode => !host && !e.Object?
    case MissingId => host && !seen
    case UnknownClass(id) =>
      seen && id == e.node.id && e.node.permissionClass !in {"read", "safe_overlay", "vault_mutate", "source_mutate", "network_egress",
        "network", "publish", "shell", "credentials", "approval_required"}
    case BadLoop(id) =>
      && seen && id == e.node.id
      && if e.node.reviewLoop.LoopWith? then !OneToTen(e.node.reviewLoop.maxIterations, host) else host && e.node.reviewLoop.NotAnObject?
    case ToolClash(id, tool) =>
      && host && seen && id == e.node.id && tool in e.node.tools && tool in {"shell", "git", "publish", "delete_source"}
      && e.node.permissionClass in {"read", "safe_overlay"}
    case _ => false
  }

  lemma {:induction false} ToolClashesListed(n: Node, tools: seq<string>, x: GateError)
    ensures x in ToolErrors(n, tools) <==>
      && x.ToolClash? && x.id == n.id && x.tool in tools && x.tool in {"shell", "git", "publish", "delete_source"}
      && n.permissionClass in {"read", "safe_overlay"}
  {
    if tools != [] {
      ToolClashesListed(n, tools[1..], x);
      assert tools == [tools[0]] + tools[1..];
    }
  }

  lemma EntryFaults(e: Entry, host: bool, x: GateError)
    ensures x in (if host then HostEntryErrors(e) else WorkerEntryErrors(e)) <==> Faults(e, host, x)
  {
    hide ToolErrors, Normalize;
    if e.Object? {
      ClassesKnown(e.node.permissionClass);
      ToolClashesListed(e.node, e.node.tools, x);
    }
  }

  /** Exactly these faults are reported. */
  lemma {:induction false} FaultsListed(entries: seq<Entry>, host: bool, x: GateError)
    ensures x in EntryErrors(entries, host) <==> exists i :: 0 <= i < |entries| && Faults(entries[i], host, x)
  {
    hide Faults, HostEntryErrors, WorkerEntryErrors;
    if entries != [] {
      var n := |entries| - 1;
      FaultsListed(entries[..n], host, x);
      EntryFaults(entries[n], host, x);
      assert entries == entries[..n] + [entries[n]];
    }
  }

  /** The entry asks for this approval: its class, with the two legacy names replaced, is one of the six that never apply automatically. */
  ghost predicate Asks(e: Entry, host: bool, n: Need) {
    && e.Object? && (host ==> e.idIsText && e.node.id != "") && n.id == e.node.id
    && n.permissionClass in {"vault_mutate", "source_mutate", "network_egress", "publish", "shell", "credentials"}
    && (|| e.node.permissionClass == n.permissionClass
        || (e.node.permissionClass == "network" && n.permissionClass == "network_egress")
        || (e.node.permissionClass == "approval_required" && n.permissionClass == "vault_mutate"))
  }

  lemma EntryNeedIs(e: Entry, host: bool, n: Need)
    ensures EntryNeed(e, host) == [n] <==> Asks(e, host, n)
    ensures EntryNeed(e, host) == [] || |EntryNeed(e, host)| == 1
  {
    var needed := EntryNeed(e, host);
    if e.Object? {
      NeverAutomatic(e.node.permissionClass);
    }
    assert needed != [] ==> needed == [needed[0]];
  }

  lemma NeverAutomatic(cls: string)
    ensures Normalize(cls) in KNOWN_CLASSES && !MayAutoApply(cls) <==>
      Normalize(cls) in {"vault_mutate", "source_mutate", "network_egress", "publish", "shell", "credentials"}
  {
    assert Normalize(cls) != "network" && Normalize(cls) != "approval_required";
  }

  /** Exactly the approvals that some entry asks for are listed. */
  lemma {:induction false} NeedsListed(entries: seq<Entry>, host: bool, n: Need)
    ensures n in Needs(entries, host) <==> exists i :: 0 <= i < |entries| && Asks(entries[i], host, n)
  {
    hide EntryNeed, Asks;
    if entries != [] {
      var k := |entries| - 1;
      NeedsListed(entries[..k], host, n);
      EntryNeedIs(entries[k], host, n);
      assert entries == entries[..k] + [entries[k]];
    }
  }

  /** The edges between two nodes with review loops. */
  ghost function LoopArrows(doc: Doc): Arcs<Id> {
    set a | a in Arrows(doc) && Looped(doc.nodes, false, a.0) && Looped(doc.nodes, false, a.1) :: a
  }

  lemma WorkerArcs(doc: Doc)
    ensures ArcsOf(WorkerGraph(doc)) == Arrows(doc)
  {
    GraphArcs(Nodes(doc.nodes), PythonEdges(doc.edges));
    LinksAreArrows(doc);
  }

  lemma HostArcs(doc: Doc)
    ensures ArcsOf(HostGraph(doc)) == HostArrows(doc)
  {
    GraphArcs(NamedNodes(doc.nodes), RustEdges(doc.edges));
    LinksAreArrows(doc);
  }

  lemma WorkerLoopArcs(doc: Doc)
    ensures LoopArcs(WorkerGraph(doc), LoopIds(Nodes(doc.nodes), false)) == LoopArrows(doc)
  {
    hide LoopIds, WorkerGraph, Arrows, Looped;
    WorkerArcs(doc);
    forall id {
      LoopIdsAre(doc.nodes, false, id);
    }
  }

  lemma AcceptedPieces(doc: Doc, order: seq<Id>)
    requires Lists(order, WorkerGraph(doc))
    ensures WorkerAccepts(doc, order) <==>
      doc.nodes != [] && EntryErrors(doc.nodes, false) == [] && WorkerCycles(doc, order) == [] && WorkerBudgetsPass(doc)
  {
    hide EntryErrors, WorkerCycles, WorkerGraph;
  }

  /** Python reads both budgets, and neither is over its cap. */
  predicate WorkerBudgetsPass(doc: Doc) {
    && PythonCount(doc.maxSteps).Some? && PythonCount(doc.maxParallelJobs).Some?
    && PythonCount(doc.maxSteps).value <= 500 && PythonCount(doc.maxParallelJobs).value <= 32
  }

  /** Accepted: every entry is fine, every review loop is bounded by 1 to 10 iterations, and every cycle has an arc between two such nodes. */
  lemma AcceptedCyclesAreBounded(doc: Doc, order: seq<Id>)
    requires Lists(order, WorkerGraph(doc)) && WorkerAccepts(doc, order)
    ensures LoopsBounded(Nodes(doc.nodes)) && FineEntries(doc.nodes, false) && WorkerBudgetsPass(doc)
    ensures forall c :: IsCycle(Arrows(doc), c) ==> UsesArc(c, LoopArrows(doc))
  {
    hide Gate, LoopIds, EntryErrors, LoopArcs, LoopArrows, Arrows, WorkerGraph, WorkerAccepts, IsCycle, UsesArc, LoopsBounded, FineEntries,
      WorkerBudgetsPass;
    AcceptedPieces(doc, order);
    FineEntriesIff(doc.nodes, false);
    CleanLoopsAreBounded(doc.nodes);
    WorkerArcs(doc);
    WorkerLoopArcs(doc);
    GateIsSound(WorkerGraph(doc), LoopIds(Nodes(doc.nodes), false), order);
  }

  ghost predicate WorkerAlwaysAccepts(doc: Doc) {
    forall order :: Distinct(order) && Lists(order, WorkerGraph(doc)) ==> WorkerAccepts(doc, order)
  }

  lemma AlwaysAcceptsPieces(doc: Doc)
    ensures WorkerAlwaysAccepts(doc) <==>
      && doc.nodes != [] && EntryErrors(doc.nodes, false) == [] && WorkerBudgetsPass(doc)
      && CyclesLooped(Arrows(doc), LoopIds(Nodes(doc.nodes), false))
  {
    hide LoopIds, EntryErrors, Arrows, WorkerGraph, WorkerAccepts, CyclesLooped, Gate, Lists, WorkerBudgetsPass;
    var adj, loops := WorkerGraph(doc), LoopIds(Nodes(doc.nodes), false);
    WorkerArcs(doc);
    AcceptsAnyOrderIff(adj, loops);
    SomeOrder(adj);
    forall order | Distinct(order) && Lists(order, adj)
      ensures WorkerAccepts(doc, order) <==>
        doc.nodes != [] && EntryErrors(doc.nodes, false) == [] && Gate(adj, loops, order) == [] && WorkerBudgetsPass(doc)
    {
      AcceptedPieces(doc, order);
    }
  }

  /** The worker's gate accepts a workflow in whatever order its node set is iterated if and only if entries and budgets are in order
      and every node of every cycle carries a review loop. */
  lemma WorkerAlwaysAcceptsIff(doc: Doc)
    ensures WorkerAlwaysAccepts(doc) <==> FineEntries(doc.nodes, false) && WorkerBudgetsPass(doc) && CyclesBounded(doc, false)
  {
    hide WorkerAlwaysAccepts, FineEntries, WorkerBudgetsPass, CyclesBounded, EntryErrors, ArrowsSeen, LoopIds, CyclesLooped;
    AlwaysAcceptsPieces(doc);
    FineEntriesIff(doc.nodes, false);
    CyclesBoundedIff(doc, false);
  }

  lemma SomeOrder(adj: map<Id, seq<Id>>)
    ensures exists order :: Distinct(order) && Lists(order, adj)
  {
    var order := ListOf(adj.Keys);
    assert Lists(order, adj);
  }

  ghost predicate NoLoops(nodes: seq<Node>) {
    forall i :: 0 <= i < |nodes| ==> !nodes[i].reviewLoop.LoopWith?
  }

  /** Without review loops the gate's cycle check accepts exactly the workflows that the executor can order. */
  lemma LooplessGateAgreesWithOrdering(doc: Doc, order: seq<Id>)
    requires Lists(order, WorkerGraph(doc)) && NoLoops(Nodes(doc.nodes))
    ensures var ids := DictIds(Nodes(doc.nodes));
      WorkerCycles(doc, order) == [] <==>
        Topo.Topological(ids, Links(ids, PythonEdges(doc.edges)), Topo.TopoOrder(ids, Links(ids, PythonEdges(doc.edges))))
  {
    hide Gate, GraphOf, Acyclic, Topo.Topological, Topo.TopoOrder;
    var nodes, edges := Nodes(doc.nodes), PythonEdges(doc.edges);
    var ids := DictIds(nodes);
    GraphArcs(nodes, edges);
    assert LoopIds(nodes, false) == {};
    assert LoopArcs(WorkerGraph(doc), {}) == {};
    GateAcceptsIffAcyclic(WorkerGraph(doc), {}, order);
    Topo.TopoOrderIsTopological(ids, Links(ids, edges));
  }
}
