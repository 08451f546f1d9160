/** How the verdicts of the two workflow policy gates compare. */
module GateComparison {
  import opened Wrappers
  import opened Digraph
  import opened Sequences
  import opened Workflow
  import opened Permissions
  import opened CycleGate
  import opened Reachability
  import opened PolicyGate
  import Topo

  // ---------------------------------------------------------------- entries

  /** An entry without fault for the host is without fault for the worker, and needs the same approval. */
  lemma HostCleanIsWorkerClean(e: Entry)
    requires CleanEntry(e, true)
    ensures IsNamed(e) && CleanEntry(e, false) && EntryNeed(e, true) == EntryNeed(e, false)
    ensures RustBounded(e.node.reviewLoop) <==> e.node.reviewLoop.LoopWith?
  {
    assert HostEntryErrors(e) == [];
  }

  lemma {:induction false} NamedAreNodes(entries: seq<Entry>)
    requires forall i :: 0 <= i < |entries| ==> CleanEntry(entries[i], true)
    ensures NamedNodes(entries) == Nodes(entries) && Needs(entries, true) == Needs(entries, false)
  {
    hide CleanEntry, EntryNeed;
    if entries != [] {
      NamedAreNodes(entries[..|entries| - 1]);
      HostCleanIsWorkerClean(entries[|entries| - 1]);
    }
  }

  lemma SameLoops(entries: seq<Entry>)
    requires forall i :: 0 <= i < |entries| ==> CleanEntry(entries[i], true)
    ensures LoopIds(Nodes(entries), true) == LoopIds(Nodes(entries), false)
  {
    var nodes := Nodes(entries);
    NodesComeFromEntries(entries);
    hide Nodes, CleanEntry, RustBounded;
    forall i | 0 <= i < |nodes|
      ensures RustBounded(nodes[i].reviewLoop) <==> nodes[i].reviewLoop.LoopWith?
    {
      assert ComesFrom(nodes[i], entries);
      var j :| 0 <= j < |entries| && entries[j].Object? && entries[j].node == nodes[i];
      HostCleanIsWorkerClean(entries[j]);
    }
  }

  /** When the host finds no fault in any entry, both gates see the same nodes, loops and approvals. */
  lemma HostEntriesSuffice(doc: Doc)
    requires EntryErrors(doc.nodes, true) == []
    ensures NamedNodes(doc.nodes) == Nodes(doc.nodes) && EntryErrors(doc.nodes, false) == []
    ensures LoopIds(NamedNodes(doc.nodes), true) == LoopIds(Nodes(doc.nodes), false)
    ensures Needs(doc.nodes, true) == Needs(doc.nodes, false)
  {
    hide LoopIds, CleanEntry;
    EntriesClean(doc.nodes, true);
    EntriesClean(doc.nodes, false);
    NamedAreNodes(doc.nodes);
    SameLoops(doc.nodes);
    forall i | 0 <= i < |doc.nodes|
      ensures CleanEntry(doc.nodes[i], false)
    {
      HostCleanIsWorkerClean(doc.nodes[i]);
    }
  }

  // ---------------------------------------------------------------- when one gate accepts what the other accepted

  /** Python and Rust read the same text from both ends of every edge. */
  predicate EdgesReadAlike(doc: Doc) {
    forall i :: 0 <= i < |doc.edges| ==>
      PythonText(doc.edges[i].from) == RustText(doc.edges[i].from) && PythonText(doc.edges[i].to) == RustText(doc.edges[i].to)
  }

  lemma SameEdges(doc: Doc)
    requires EdgesReadAlike(doc)
    ensures PythonEdges(doc.edges) == RustEdges(doc.edges)
  {
  }

  lemma BudgetsForBoth(doc: Doc)
    requires WorkerBudgetsPass(doc)
    ensures HostBudgetErrors(doc) == []
  {
  }

  lemma HostPieces(doc: Doc, order: seq<Id>)
    requires Lists(order, HostGraph(doc))
    ensures HostAccepts(doc, order) <==>
      && doc.schemaOk && doc.nodes != [] && EntryErrors(doc.nodes, true) == [] && HostBudgetErrors(doc) == []
      && HostCycles(doc, order) == [] && HostReach(doc) == Reach(false, {})
  {
    hide EntryErrors, HostCycles, HostGraph, HostReach;
  }

  /** What the host accepts, tried in the same order, is what the worker accepts and the host finds no fault with on its own: in the
      schema, in an entry, or in reaching every node from a root. The worker alone reads budgets that are no natural numbers. */
  lemma HostAcceptsIff(doc: Doc, order: seq<Id>)
    requires EdgesReadAlike(doc) && Lists(order, HostGraph(doc))
    ensures HostAccepts(doc, order) && WorkerBudgetsPass(doc) <==>
      && Lists(order, WorkerGraph(doc)) && WorkerAccepts(doc, order)
      && doc.schemaOk && EntryErrors(doc.nodes, true) == [] && HostReach(doc) == Reach(false, {})
  {
    hide EntryErrors, GraphOf, HostReach, WorkerAccepts, HostAccepts, HostBudgetErrors, WorkerBudgetsPass, LoopIds, Gate, EdgesReadAlike, Lists;
    HostPieces(doc, order);
    SameEdges(doc);
    if EntryErrors(doc.nodes, true) == [] {
      HostEntriesSuffice(doc);
      assert HostGraph(doc) == WorkerGraph(doc);
      AcceptedPieces(doc, order);
      if WorkerBudgetsPass(doc) {
        BudgetsForBoth(doc);
      }
    }
  }

  /** A workflow that the host accepted in some order is accepted by the worker in every order if and only if Python finds both budgets
      within their caps and every node of every cycle of the edges as Python reads them carries a review loop. */
  lemma HostAcceptanceCarriesOverIff(doc: Doc, order: seq<Id>)
    requires Lists(order, HostGraph(doc)) && HostAccepts(doc, order)
    ensures WorkerAlwaysAccepts(doc) <==> WorkerBudgetsPass(doc) && CyclesBounded(doc, false)
    ensures Needs(doc.nodes, true) == Needs(doc.nodes, false)
  {
    hide EntryErrors, HostReach, HostAccepts, WorkerAlwaysAccepts, WorkerBudgetsPass, CyclesBounded, FineEntries, Nodes, Lists, HostGraph;
    HostPieces(doc, order);
    HostEntriesSuffice(doc);
    FineEntriesIff(doc.nodes, false);
    WorkerAlwaysAcceptsIff(doc);
  }

  ghost predicate HostAlwaysAccepts(doc: Doc) {
    forall order :: Distinct(order) && Lists(order, HostGraph(doc)) ==> HostAccepts(doc, order)
  }

  /** Every declared node is reached from one that no edge leads to; or there is none of those and every node carries a review loop. */
  ghost predicate AllReached(doc: Doc) {
    var ids, arcs := Declared(doc.nodes, true), HostArrows(doc);
    || (forall v :: v in ids ==> exists r :: r in ids && IsRoot(arcs, r) && Reaches(arcs, r, v))
    || ((forall v :: v in ids ==> !IsRoot(arcs, v)) && forall v :: v in ids ==> Looped(doc.nodes, true, v))
  }

  lemma HostIds(doc: Doc)
    ensures forall id :: id in DictIds(NamedNodes(doc.nodes)) <==> id in Declared(doc.nodes, true)
    ensures forall id :: id in LoopIds(NamedNodes(doc.nodes), true) <==> Looped(doc.nodes, true, id)
    ensures forall id :: Looped(doc.nodes, true, id) ==> id in Declared(doc.nodes, true)
  {
    hide LoopIds, LoopedEntry, Seen, NamedNodes, Nodes, Declared, Looped;
    forall id
      ensures id in DictIds(NamedNodes(doc.nodes)) <==> id in Declared(doc.nodes, true)
      ensures id in LoopIds(NamedNodes(doc.nodes), true) <==> Looped(doc.nodes, true, id)
      ensures Looped(doc.nodes, true, id) ==> id in Declared(doc.nodes, true)
    {
      DeclaredIds(doc.nodes, true, id);
      SeenIsDeclared(doc.nodes, true, id);
      LoopIdsAre(doc.nodes, true, id);
      LoopedIsDeclared(doc.nodes, id);
    }
  }

  lemma LoopedIsDeclared(entries: seq<Entry>, id: Id)
    ensures Looped(entries, true, id) ==> id in Declared(entries, true)
  {
    if Looped(entries, true, id) {
      var i :| 0 <= i < |entries| && LoopedEntry(entries[i], true, id);
      assert entries[i].Object?;
    }
  }

  lemma SameSize<T>(s: set<T>, t: set<T>)
    requires s <= t
    ensures |s| == |t| <==> s == t
  {
    assert t == s + (t - s);
  }

  lemma AllReachedIff(doc: Doc)
    requires doc.nodes != [] && FineEntries(doc.nodes, true)
    ensures HostReach(doc) == Reach(false, {}) <==> AllReached(doc)
  {
    hide LoopIds, ArrowsSeen, IsRoot, FineEntry, Looped, NamedNodes, Declared, Reaches;
    HostIds(doc);
    SomeId(doc);
    var ids, loops := DictIds(NamedNodes(doc.nodes)), LoopIds(NamedNodes(doc.nodes), true);
    var some :| some in Declared(doc.nodes, true);
    assert some in ids;
    if forall v :: v in ids ==> !IsRoot(HostArrows(doc), v) {
      assert loops <= Elems(ids);
      SameSize(loops, Elems(ids));
      assert loops == Elems(ids) <==> forall v :: v in ids ==> Looped(doc.nodes, true, v);
      assert HostReach(doc) == Reach(|loops| != |Elems(ids)|, {});
    } else {
      var root :| root in ids && IsRoot(HostArrows(doc), root);
      NotReachedIff(ids, HostArrows(doc), Declared(doc.nodes, true));
    }
  }

  lemma NotReachedIff(ids: seq<Id>, arcs: Arcs<Id>, all: set<Id>)
    requires forall id :: id in ids <==> id in all
    ensures (set v | v in ids && !FromRoot(ids, arcs, v)) == {} <==>
      forall v :: v in all ==> exists r :: r in all && IsRoot(arcs, r) && Reaches(arcs, r, v)
  {
    hide IsRoot, Reaches;
    var lost := set v | v in ids && !FromRoot(ids, arcs, v);
    assert forall v :: v in lost <==> v in all && !FromRoot(ids, arcs, v);
    assert lost == {} <==> forall v :: v in all ==> FromRoot(ids, arcs, v);
  }

  lemma SomeId(doc: Doc)
    requires doc.nodes != [] && FineEntries(doc.nodes, true)
    ensures exists id :: id in Declared(doc.nodes, true)
  {
    assert FineEntry(doc.nodes[0], true);
    assert doc.nodes[0].node.id in Declared(doc.nodes, true);
  }

  /** The host's gate accepts a workflow in whatever order its nodes are tried if and only if schema, entries and budgets are in order, every
      node of every cycle carries a review loop of 1 to 10 iterations, and every node is reached. */
  lemma HostAlwaysAcceptsIff(doc: Doc)
    ensures HostAlwaysAccepts(doc) <==>
      && doc.schemaOk && FineEntries(doc.nodes, true) && RustCount(doc.maxSteps) <= 500 && RustCount(doc.maxParallelJobs) <= 32
      && CyclesBounded(doc, true) && AllReached(doc)
  {
    hide FineEntries, CyclesBounded, EntryErrors, ArrowsSeen, LoopIds, CyclesLooped, Gate, Lists, HostReach, AllReached, HostAccepts, HostGraph;
    var adj, loops := HostGraph(doc), LoopIds(NamedNodes(doc.nodes), true);
    HostArcs(doc);
    FineEntriesIff(doc.nodes, true);
    CyclesBoundedIff(doc, true);
    AcceptsAnyOrderIff(adj, loops);
    SomeOrder(adj);
    if FineEntries(doc.nodes, true) {
      AllReachedIff(doc);
    }
    forall order | Distinct(order) && Lists(order, adj)
      ensures HostAccepts(doc, order) <==>
        && doc.schemaOk && doc.nodes != [] && EntryErrors(doc.nodes, true) == [] && HostBudgetErrors(doc) == []
        && Gate(adj, loops, order) == [] && HostReach(doc) == Reach(false, {})
    {
      HostPieces(doc, order);
    }
  }

  /** Over all orders the host is the stricter gate, provided that both read edges and budgets alike. */
  lemma HostAlwaysImpliesWorkerAlways(doc: Doc)
    requires HostAlwaysAccepts(doc) && EdgesReadAlike(doc) && WorkerBudgetsPass(doc)
    ensures WorkerAlwaysAccepts(doc)
  {
    hide HostAccepts, WorkerAccepts, EdgesReadAlike, WorkerBudgetsPass, HostGraph, WorkerGraph, Lists, HostReach;
    SomeOrder(HostGraph(doc));
    var some :| Distinct(some) && Lists(some, HostGraph(doc));
    assert HostAccepts(doc, some);
    HostPieces(doc, some);
    SameGraphs(doc);
    forall order | Distinct(order) && Lists(order, WorkerGraph(doc))
      ensures WorkerAccepts(doc, order)
    {
      assert HostAccepts(doc, order);
      HostAcceptsIff(doc, order);
    }
  }

  lemma SameGraphs(doc: Doc)
    requires EdgesReadAlike(doc) && EntryErrors(doc.nodes, true) == []
    ensures HostGraph(doc) == WorkerGraph(doc)
  {
    hide GraphOf, EdgesReadAlike, EntryErrors;
    SameEdges(doc);
    HostEntriesSuffice(doc);
  }

  // ---------------------------------------------------------------- documents written with texts only

  function Entries(nodes: seq<Node>): seq<Entry> {
    if nodes == [] then [] else Entries(nodes[..|nodes| - 1]) + [Object(nodes[|nodes| - 1], true)]
  }

  function IdsOf(nodes: seq<Node>): seq<Id> {
    seq(|nodes|, i requires 0 <= i < |nodes| => nodes[i].id)
  }

  function TextEdges(links: seq<Topo.Edge>): seq<RawEdge> {
    seq(|links|, i requires 0 <= i < |links| => RawEdge(Text(links[i].0, None), Text(links[i].1, None)))
  }

  function TextDoc(nodes: seq<Node>, links: seq<Topo.Edge>): Doc {
    Doc(true, Entries(nodes), TextEdges(links), Missing, Missing)
  }

  ghost predicate Written(nodes: seq<Node>, links: seq<Topo.Edge>) {
    && nodes != [] && Distinct(IdsOf(nodes)) && Topo.Between(IdsOf(nodes), links)
    && forall i :: 0 <= i < |nodes| ==> CleanEntry(Object(nodes[i], true), true) && ':' !in nodes[i].id
  }

  lemma {:induction false} EntriesFacts(nodes: seq<Node>)
    requires forall i :: 0 <= i < |nodes| ==> CleanEntry(Object(nodes[i], true), true)
    ensures Nodes(Entries(nodes)) == nodes && EntryErrors(Entries(nodes), true) == [] && (nodes != [] ==> Entries(nodes) != [])
  {
    hide HostEntryErrors;
    if nodes != [] {
      var n, all := |nodes| - 1, Entries(nodes);
      EntriesFacts(nodes[..n]);
      assert all[..|all| - 1] == Entries(nodes[..n]);
    }
  }

  lemma {:induction false} DistinctIds(nodes: seq<Node>)
    requires Distinct(IdsOf(nodes))
    ensures DictIds(nodes) == IdsOf(nodes)
  {
    if nodes != [] {
      var n := |nodes| - 1;
      assert IdsOf(nodes) == IdsOf(nodes[..n]) + [nodes[n].id];
      forall i, j | 0 <= i < j < n
        ensures IdsOf(nodes[..n])[i] != IdsOf(nodes[..n])[j]
      {
        assert IdsOf(nodes)[i] != IdsOf(nodes)[j];
      }
      DistinctIds(nodes[..n]);
      forall i | 0 <= i < n
        ensures IdsOf(nodes[..n])[i] != nodes[n].id
      {
        assert IdsOf(nodes)[i] != IdsOf(nodes)[n];
      }
    }
  }

  lemma {:induction false} EndpointOf(s: string)
    requires ':' !in s
    ensures Endpoint(s) == s
  {
    if s != "" {
      EndpointOf(s[1..]);
      assert s == [s[0]] + s[1..];
    }
  }

  lemma {:induction false} LinksOf(ids: seq<Id>, links: seq<Topo.Edge>)
    requires Topo.Between(ids, links) && forall id :: id in ids ==> ':' !in id
    ensures Links(ids, PythonEdges(TextEdges(links))) == links
  {
    if links != [] {
      var n, edges := |links| - 1, PythonEdges(TextEdges(links));
      LinksOf(ids, links[..n]);
      assert edges[..n] == PythonEdges(TextEdges(links[..n]));
      EndpointOf(links[n].0);
      EndpointOf(links[n].1);
    }
  }

  /** Both gates read such a document as it is written. */
  lemma TextDocFacts(nodes: seq<Node>, links: seq<Topo.Edge>)
    requires Written(nodes, links)
    ensures var doc := TextDoc(nodes, links);
      && doc.nodes != [] && EntryErrors(doc.nodes, true) == [] && EntryErrors(doc.nodes, false) == []
      && Nodes(doc.nodes) == nodes && EdgesReadAlike(doc) && WorkerBudgetsPass(doc) && HostBudgetErrors(doc) == []
      && WorkerGraph(doc) == HostGraph(doc) == Adjacency(IdsOf(nodes), links)
      && LoopIds(NamedNodes(doc.nodes), true) == LoopIds(nodes, false)
      && HostReach(doc) == ReachabilityErrors(IdsOf(nodes), Topo.ArcsIn(links), LoopIds(nodes, false))
      && Arrows(doc) == Topo.ArcsIn(links)
  {
    hide Adjacency, ReachabilityErrors, EntryErrors, LoopIds, Nodes, NamedNodes, Entries, Links, DictIds, Needs, CleanEntry, PythonEdges, RustEdges,
      ArrowsSeen;
    var doc := TextDoc(nodes, links);
    EntriesFacts(nodes);
    HostEntriesSuffice(doc);
    TextLinks(nodes, links);
    TextsReadAlike(links);
    SameEdges(doc);
    LinksAreArrows(doc);
  }

  lemma TextLinks(nodes: seq<Node>, links: seq<Topo.Edge>)
    requires Written(nodes, links)
    ensures DictIds(nodes) == IdsOf(nodes) && Links(IdsOf(nodes), PythonEdges(TextEdges(links))) == links
  {
    hide Links, DictIds, CleanEntry;
    DistinctIds(nodes);
    assert forall id :: id in IdsOf(nodes) ==> ':' !in id;
    LinksOf(IdsOf(nodes), links);
  }

  lemma TextsReadAlike(links: seq<Topo.Edge>)
    ensures forall i :: 0 <= i < |links| ==>
      PythonText(TextEdges(links)[i].from) == RustText(TextEdges(links)[i].from) && PythonText(TextEdges(links)[i].to) == RustText(TextEdges(links)[i].to)
  {
  }

  // ---------------------------------------------------------------- documents that split the gates

  const BOUNDED := LoopWith(Whole(3))

  function Reader(id: Id, loop: ReviewLoop): Node {
    Node(id, "read", loop, [], 0)
  }

  const SPLIT_NODES := [Reader("x", BOUNDED), Reader("y", BOUNDED), Reader("z", NoLoop), Reader("r", NoLoop)]
  const SPLIT_LINKS: seq<Topo.Edge> := [("x", "y"), ("x", "z"), ("y", "x"), ("z", "y"), ("r", "x")]

  lemma ReaderIsClean(id: Id, loop: ReviewLoop)
    requires id != "" && loop in {BOUNDED, NoLoop}
    ensures CleanEntry(Object(Reader(id, loop), true), true)
  {
    assert ToolErrors(Reader(id, loop), []) == [];
  }

  lemma SplitIsWritten()
    ensures Written(SPLIT_NODES, SPLIT_LINKS) && IdsOf(SPLIT_NODES) == ["x", "y", "z", "r"]
  {
    hide CleanEntry;
    ReaderIsClean("x", BOUNDED);
    ReaderIsClean("y", BOUNDED);
    ReaderIsClean("z", NoLoop);
    ReaderIsClean("r", NoLoop);
    var ids := IdsOf(SPLIT_NODES);
    assert ids == ["x", "y", "z", "r"];
    assert ids[0] == "x" && ids[1] == "y" && ids[2] == "z" && ids[3] == "r";
  }

  lemma TargetsUpTo(links: seq<Topo.Edge>, k: nat, u: Id)
    requires k < |links|
    ensures Topo.Targets(links[..k + 1], u) == Topo.Targets(links[..k], u) + if links[k].0 == u then [links[k].1] else []
  {
    assert links[..k + 1][..k] == links[..k];
  }

  lemma NoTargets(u: Id)
    ensures Topo.Targets([], u) == []
  {
  }

  lemma SplitTargets(u: Id)
    ensures Topo.Targets(SPLIT_LINKS, u) ==
      if u == "x" then ["y", "z"] else if u == "y" then ["x"] else if u == "z" then ["y"] else if u == "r" then ["x"] else []
  {
    hide Topo.Targets;
    NoTargets(u);
    assert SPLIT_LINKS[..0] == [] && SPLIT_LINKS[..5] == SPLIT_LINKS;
    TargetsUpTo(SPLIT_LINKS, 0, u);
    TargetsUpTo(SPLIT_LINKS, 1, u);
    TargetsUpTo(SPLIT_LINKS, 2, u);
    TargetsUpTo(SPLIT_LINKS, 3, u);
    TargetsUpTo(SPLIT_LINKS, 4, u);
  }

  lemma SplitGraph()
    ensures Adjacency(["x", "y", "z", "r"], SPLIT_LINKS) == MISSED
    ensures LoopIds(SPLIT_NODES, false) == {"x", "y"}
  {
    hide Topo.Targets;
    forall u: Id
      ensures u in ["x", "y", "z", "r"] <==> u in MISSED
      ensures u in MISSED ==> Topo.Targets(SPLIT_LINKS, u) == MISSED[u]
    {
      SplitTargets(u);
      var ids := ["x", "y", "z", "r"];
      assert ids[0] in ids && ids[1] in ids && ids[2] in ids && ids[3] in ids;
    }
    assert SPLIT_NODES[0].id == "x" && SPLIT_NODES[1].id == "y";
  }

  lemma SplitReaches()
    ensures ReachabilityErrors(["x", "y", "z", "r"], Topo.ArcsIn(SPLIT_LINKS), {"x", "y"}) == Reach(false, {})
  {
    var ids, links := ["x", "y", "z", "r"], SPLIT_LINKS;
    var arcs := Topo.ArcsIn(links);
    assert links[0] in links && links[1] in links && links[4] in links && ids[3] in ids;
    assert IsRoot(arcs, "r");
    assert Joins(arcs, ["r"], "r", "r") && Joins(arcs, ["r", "x"], "r", "x");
    assert Joins(arcs, ["r", "x", "y"], "r", "y") && Joins(arcs, ["r", "x", "z"], "r", "z");
    forall v | v in ids
      ensures FromRoot(ids, arcs, v)
    {
      assert Reaches(arcs, "r", v);
    }
  }

  lemma SplitFacts()
    ensures var doc := TextDoc(SPLIT_NODES, SPLIT_LINKS);
      && doc.schemaOk && doc.nodes != [] && EntryErrors(doc.nodes, true) == [] && EntryErrors(doc.nodes, false) == []
      && HostBudgetErrors(doc) == [] && WorkerGraph(doc) == HostGraph(doc) == MISSED && HostReach(doc) == Reach(false, {})
      && LoopIds(NamedNodes(doc.nodes), true) == {"x", "y"} == LoopIds(Nodes(doc.nodes), false)
  {
    hide EntryErrors, LoopIds, WorkerGraph, HostGraph, HostReach, ReachabilityErrors, Adjacency, Written, EdgesReadAlike, WorkerBudgetsPass;
    SplitIsWritten();
    TextDocFacts(SPLIT_NODES, SPLIT_LINKS);
    SplitGraph();
    SplitReaches();
  }

  /** The order in which a gate tries the nodes can split the gates: the host accepts this workflow in one order, and the worker rejects
      it in every order that starts at z. */
  lemma OrderSplitsTheGates(order: seq<Id>)
    requires Lists(order, MISSED) && order != [] && order[0] == "z"
    ensures var doc, first := TextDoc(SPLIT_NODES, SPLIT_LINKS), ["x", "y", "z", "r"];
      && Distinct(first) && Lists(first, HostGraph(doc)) && HostAccepts(doc, first)
      && Lists(order, WorkerGraph(doc)) && !WorkerAccepts(doc, order)
  {
    hide EntryErrors, LoopIds, WorkerGraph, HostGraph, HostReach, ReachabilityErrors, Adjacency, Written, EdgesReadAlike, HostAccepts, WorkerAccepts,
      WorkerBudgetsPass, Gate;
    var doc := TextDoc(SPLIT_NODES, SPLIT_LINKS);
    SplitFacts();
    UnboundedCycleCanPass(order);
    hide TextDoc, IsCycle, AllIn, Lists;
    HostPieces(doc, ["x", "y", "z", "r"]);
    AcceptedPieces(doc, order);
  }

  const ISLAND_NODES := [Reader("a", NoLoop), Reader("b", BOUNDED), Reader("c", BOUNDED)]
  const ISLAND_LINKS: seq<Topo.Edge> := [("b", "c"), ("c", "b")]

  lemma IslandIsWritten()
    ensures Written(ISLAND_NODES, ISLAND_LINKS) && IdsOf(ISLAND_NODES) == ["a", "b", "c"]
    ensures LoopIds(ISLAND_NODES, false) == {"b", "c"}
  {
    hide CleanEntry;
    ReaderIsClean("a", NoLoop);
    ReaderIsClean("b", BOUNDED);
    ReaderIsClean("c", BOUNDED);
    var ids := IdsOf(ISLAND_NODES);
    assert ids == ["a", "b", "c"];
    assert ids[0] == "a" && ids[1] == "b" && ids[2] == "c";
    assert ISLAND_NODES[1].id == "b" && ISLAND_NODES[2].id == "c";
  }

  lemma IslandUnreachable()
    ensures ReachabilityErrors(["a", "b", "c"], Topo.ArcsIn(ISLAND_LINKS), {"b", "c"}) == Reach(false, {"b", "c"})
    ensures CyclesLooped(Topo.ArcsIn(ISLAND_LINKS), {"b", "c"})
  {
    var ids, links := ["a", "b", "c"], ISLAND_LINKS;
    var arcs := Topo.ArcsIn(links);
    assert links[0] in links && links[1] in links && ids[0] in ids && ids[1] in ids && ids[2] in ids;
    forall c | IsCycle(arcs, c)
      ensures AllIn(c, {"b", "c"})
    {
      forall i | 0 <= i < |c|
        ensures c[i] in {"b", "c"}
      {
        assert (c[i], if i == |c| - 1 then c[0] else c[i + 1]) in arcs;
      }
    }
    assert IsRoot(arcs, "a") && !IsRoot(arcs, "b") && !IsRoot(arcs, "c") by {
      assert ("c", "b") in arcs && ("b", "c") in arcs;
    }
    assert Joins(arcs, ["a"], "a", "a");
    forall v | FromRoot(ids, arcs, v)
      ensures v == "a"
    {
      var r :| r in ids && IsRoot(arcs, r) && Reaches(arcs, r, v);
      var p :| Joins(arcs, p, r, v);
      WalkStaysIn(arcs, {"a"}, p);
    }
  }

  /** Reachability splits the gates: beside a lone node, a cycle of two nodes with review loops is accepted by the worker in every order
      and rejected by the host in every order. */
  lemma LoopedIslandSplitsTheGates(order: seq<Id>)
    requires Lists(order, HostGraph(TextDoc(ISLAND_NODES, ISLAND_LINKS)))
    ensures WorkerAlwaysAccepts(TextDoc(ISLAND_NODES, ISLAND_LINKS))
    ensures HostReach(TextDoc(ISLAND_NODES, ISLAND_LINKS)) == Reach(false, {"b", "c"})
    ensures !HostAccepts(TextDoc(ISLAND_NODES, ISLAND_LINKS), order)
  {
    hide EntryErrors, LoopIds, WorkerGraph, HostGraph, HostReach, ReachabilityErrors, Adjacency, Written, EdgesReadAlike, HostAccepts,
      WorkerAlwaysAccepts, WorkerBudgetsPass, CyclesLooped, Arrows, Lists;
    var doc := TextDoc(ISLAND_NODES, ISLAND_LINKS);
    IslandIsWritten();
    TextDocFacts(ISLAND_NODES, ISLAND_LINKS);
    IslandUnreachable();
    AlwaysAcceptsPieces(doc);
    HostPieces(doc, order);
  }

  /** A budget given as a text with a large number: the host reads nothing, the worker reads the number. */
  lemma TextBudgetSplitsTheGates(doc: Doc, order: seq<Id>, cap: int)
    requires Lists(order, HostGraph(doc)) && HostAccepts(doc, order) && cap > STEPS_CAP
    ensures var other := doc.(maxSteps := Text(Integer(cap), Some(cap)));
      && Lists(order, HostGraph(other)) && HostAccepts(other, order)
      && forall o :: Lists(o, WorkerGraph(other)) ==> !WorkerAccepts(other, o)
  {
    hide EntryErrors, GraphOf, HostReach, Gate, Lists, WorkerAccepts, HostAccepts;
    var other := doc.(maxSteps := Text(Integer(cap), Some(cap)));
    HostPieces(doc, order);
    assert HostGraph(other) == HostGraph(doc);
    HostPieces(other, order);
    SameReach(doc, other);
    IntegerNotEmpty(cap);
    forall o | Lists(o, WorkerGraph(other))
      ensures !WorkerAccepts(other, o)
    {
      AcceptedPieces(other, o);
    }
  }

  lemma SameReach(doc: Doc, other: Doc)
    requires doc.nodes == other.nodes && doc.edges == other.edges
    ensures HostReach(doc) == HostReach(other)
  {
    LinksAreArrows(doc);
    LinksAreArrows(other);
  }

  lemma IntegerNotEmpty(n: int)
    ensures Integer(n) != ""
  {
  }

  const NUMBERED_NODES := [Reader("a", NoLoop), Reader("5", NoLoop)]

  /** Beside the edge from a to 5 one back from the number 5: the host drops it. */
  const NUMBERED := Doc(true, Entries(NUMBERED_NODES), TextEdges([("a", "5")]) + [RawEdge(Whole(5), Text("a", None))], Missing, Missing)

  lemma NumberedIsWritten()
    ensures Written(NUMBERED_NODES, [("a", "5")]) && IdsOf(NUMBERED_NODES) == ["a", "5"] && LoopIds(NUMBERED_NODES, false) == {}
  {
    hide CleanEntry;
    ReaderIsClean("a", NoLoop);
    ReaderIsClean("5", NoLoop);
    var ids := IdsOf(NUMBERED_NODES);
    assert ids == ["a", "5"] && ids[0] == "a" && ids[1] == "5";
  }

  lemma NumberedIsRead()
    ensures Written(NUMBERED_NODES, [("a", "5")]) && IdsOf(NUMBERED_NODES) == ["a", "5"] && LoopIds(NUMBERED_NODES, false) == {}
    ensures Links(["a", "5"], RustEdges(NUMBERED.edges)) == [("a", "5")]
    ensures Links(["a", "5"], PythonEdges(NUMBERED.edges)) == [("a", "5"), ("5", "a")]
  {
    hide CleanEntry, Entries, LoopIds;
    NumberedIsWritten();
    var ids, links, edges := IdsOf(NUMBERED_NODES), [("a", "5")], TextEdges([("a", "5")]);
    LinksOf(ids, links);
    TextsReadAlike(links);
    var python, rust := PythonEdges(NUMBERED.edges), RustEdges(NUMBERED.edges);
    assert python[..1] == PythonEdges(edges) == RustEdges(edges) == rust[..1];
    assert Integer(5) == "5" && python[1] == NamedEdge("5", "a") && rust[1] == NamedEdge("", "a");
    hide PythonEdges, RustEdges, Written, IdsOf;
    EndpointOf("5");
    EndpointOf("a");
    EndpointOf("");
  }

  /** Edge ends that are no texts split the gates: the host accepts this workflow in every order and the worker rejects it in every order. */
  lemma NumberedEndSplitsTheGates(order: seq<Id>, other: seq<Id>)
    requires Lists(order, HostGraph(NUMBERED)) && Lists(other, WorkerGraph(NUMBERED))
    ensures HostAccepts(NUMBERED, order) && !WorkerAccepts(NUMBERED, other)
  {
    hide EntryErrors, LoopIds, HostAccepts, WorkerAccepts, Adjacency, ReachabilityErrors, Links, Nodes, NamedNodes, DictIds, Lists, Gate, Written, CleanEntry;
    NumberedIsRead();
    NumberedEntries();
    HostPieces(NUMBERED, order);
    NumberedHost(order);
    NumberedWorker(other);
  }

  lemma NumberedEntries()
    requires Written(NUMBERED_NODES, [("a", "5")])
    ensures EntryErrors(NUMBERED.nodes, true) == [] && NUMBERED.nodes != []
    ensures NamedNodes(NUMBERED.nodes) == NUMBERED_NODES == Nodes(NUMBERED.nodes)
    ensures LoopIds(NamedNodes(NUMBERED.nodes), true) == LoopIds(NUMBERED_NODES, false)
  {
    hide CleanEntry, EntryErrors, LoopIds, Nodes, NamedNodes;
    EntriesFacts(NUMBERED_NODES);
    HostEntriesSuffice(NUMBERED);
  }

  lemma NumberedHost(order: seq<Id>)
    requires Lists(order, HostGraph(NUMBERED))
    ensures HostCycles(NUMBERED, order) == [] && HostReach(NUMBERED) == Reach(false, {})
  {
    hide EntryErrors, LoopIds, Adjacency, ReachabilityErrors, Links, Nodes, NamedNodes, DictIds, Lists, Gate, CleanEntry, RustEdges, Acyclic, LoopArcs;
    NumberedIsRead();
    NumberedEntries();
    TextLinks(NUMBERED_NODES, [("a", "5")]);
    GraphArcs(NUMBERED_NODES, RustEdges(NUMBERED.edges));
    LinksAreArrows(NUMBERED);
    OneArcIsAcyclic();
    NoLoopArcs(HostGraph(NUMBERED));
    GateAcceptsIffAcyclic(HostGraph(NUMBERED), {}, order);
    AcyclicPassesReachability(["a", "5"], [("a", "5")], {});
  }

  lemma NoLoopArcs(adj: map<Id, seq<Id>>)
    ensures LoopArcs(adj, {}) == {}
  {
  }

  lemma OneArcIsAcyclic()
    ensures Acyclic(Topo.ArcsIn([("a", "5")])) && Topo.Between(["a", "5"], [("a", "5")]) && Distinct(["a", "5"])
  {
    var ids := ["a", "5"];
    assert ids[0] in ids && ids[1] in ids && ids[..1][0] == "a";
    Topo.TopologicalIsAcyclic(ids, [("a", "5")], ids);
  }

  lemma NumberedWorker(order: seq<Id>)
    requires Lists(order, WorkerGraph(NUMBERED))
    ensures !WorkerAccepts(NUMBERED, order)
  {
    hide EntryErrors, LoopIds, Adjacency, Links, Nodes, NamedNodes, DictIds, Lists, Gate, CleanEntry, PythonEdges, WorkerAccepts, LoopArcs;
    NumberedIsRead();
    NumberedEntries();
    TextLinks(NUMBERED_NODES, [("a", "5")]);
    WorkerArcs(NUMBERED);
    LinksAreArrows(NUMBERED);
    NoLoopArcs(WorkerGraph(NUMBERED));
    AcceptedPieces(NUMBERED, order);
    GateAcceptsIffAcyclic(WorkerGraph(NUMBERED), {}, order);
    var links := [("a", "5"), ("5", "a")];
    assert links[0] in links && links[1] in links;
    assert IsCycle(Topo.ArcsIn(links), ["a", "5"]);
  }
}
