/** The depth-first cycle check of the workflow policy gate. */
module CycleGate {
  import opened Digraph
  import opened Sequences

  type Id = string

  /** Successor lists; every successor is itself a node. */
  ghost predicate Closed(adj: map<Id, seq<Id>>) {
    forall u :: u in adj ==> forall i :: 0 <= i < |adj[u]| ==> adj[u][i] in adj
  }

  function ArcsOf(adj: map<Id, seq<Id>>): Arcs<Id> {
    set u, i | u in adj && 0 <= i < |adj[u]| :: (u, adj[u][i])
  }

  /** The search state. `stack` is the path from the start to the node being visited, which is what `visiting` holds;
      `visited` lists the finished nodes, oldest first; `errors` collects the reported cycles. */
  datatype Search = Search(stack: seq<Id>, visited: seq<Id>, errors: seq<seq<Id>>)

  function Open(adj: map<Id, seq<Id>>, s: Search): set<Id> {
    adj.Keys - Elems(s.stack) - Elems(s.visited)
  }

  predicate AllIn(s: seq<Id>, nodes: set<Id>) {
    forall i :: 0 <= i < |s| ==> s[i] in nodes
  }

  function Dfs(adj: map<Id, seq<Id>>, loops: set<Id>, s: Search, u: Id): (t: Search)
    requires Closed(adj) && u in adj
    ensures t.stack == s.stack && s.visited <= t.visited && s.errors <= t.errors
    decreases Open(adj, s), 0
  {
    if u in s.stack then
      var cycle := s.stack[IndexOf(s.stack, u)..];
      if AllIn(cycle, loops) then s else s.(errors := s.errors + [cycle])
    else if u in s.visited then s
    else
      var inside := s.(stack := s.stack + [u]);
      assert u in inside.stack && Open(adj, inside) <= Open(adj, s) && u in Open(adj, s) && u !in Open(adj, inside);
      var t := DfsAll(adj, loops, inside, adj[u]);
      Search(s.stack, t.visited + [u], t.errors)
  }

  /** The search from each node of a list in turn. */
  function DfsAll(adj: map<Id, seq<Id>>, loops: set<Id>, s: Search, us: seq<Id>): (t: Search)
    requires Closed(adj) && forall i :: 0 <= i < |us| ==> us[i] in adj
    ensures t.stack == s.stack && s.visited <= t.visited && s.errors <= t.errors
    decreases Open(adj, s), 1, |us|
  {
    if us == [] then s
    else
      var t := Dfs(adj, loops, s, us[0]);
      assert Open(adj, t) <= Open(adj, s);
      DfsAll(adj, loops, t, us[1..])
  }

  // ---------------------------------------------------------------- what the search establishes

  /** The stack is a path, and nothing on it is finished. */
  ghost predicate OnPath(adj: map<Id, seq<Id>>, s: Search) {
    && Distinct(s.stack) && Distinct(s.visited)
    && (forall i :: 0 <= i < |s.stack| ==> s.stack[i] in adj && s.stack[i] !in s.visited)
    && (forall i :: 0 <= i < |s.visited| ==> s.visited[i] in adj)
    && (s.stack != [] ==> IsWalk(ArcsOf(adj), s.stack))
  }

  /** A reported cycle is a closed walk with a node that has no review loop. */
  ghost predicate Genuine(adj: map<Id, seq<Id>>, loops: set<Id>, c: seq<Id>) {
    IsCycle(ArcsOf(adj), c) && !AllIn(c, loops)
  }

  ghost predicate AllGenuine(adj: map<Id, seq<Id>>, loops: set<Id>, errors: seq<seq<Id>>) {
    forall i :: 0 <= i < |errors| ==> Genuine(adj, loops, errors[i])
  }

  ghost predicate BothLoop(loops: set<Id>, u: Id, v: Id) {
    u in loops && v in loops
  }

  /** Each successor of the k-th finished node finished before it, or both nodes have a review loop. */
  ghost predicate Settled(adj: map<Id, seq<Id>>, loops: set<Id>, visited: seq<Id>, k: nat)
    requires k < |visited| && visited[k] in adj
  {
    forall i :: 0 <= i < |adj[visited[k]]| ==>
      adj[visited[k]][i] in visited[..k] || BothLoop(loops, visited[k], adj[visited[k]][i])
  }

  ghost predicate AllSettled(adj: map<Id, seq<Id>>, loops: set<Id>, visited: seq<Id>) {
    forall k :: 0 <= k < |visited| ==> visited[k] in adj && Settled(adj, loops, visited, k)
  }

  ghost predicate Good(adj: map<Id, seq<Id>>, loops: set<Id>, s: Search) {
    && OnPath(adj, s) && AllGenuine(adj, loops, s.errors)
    && (s.errors == [] ==> AllSettled(adj, loops, s.visited))
  }

  ghost predicate Follows(adj: map<Id, seq<Id>>, s: Search, u: Id) {
    s.stack != [] ==> (s.stack[|s.stack| - 1], u) in ArcsOf(adj)
  }

  lemma BackArc(adj: map<Id, seq<Id>>, loops: set<Id>, s: Search, u: Id)
    requires Closed(adj) && u in adj && Good(adj, loops, s) && Follows(adj, s, u) && u in s.stack
    ensures IsCycle(ArcsOf(adj), s.stack[IndexOf(s.stack, u)..])
    ensures AllIn(s.stack[IndexOf(s.stack, u)..], loops) ==> BothLoop(loops, s.stack[|s.stack| - 1], u)
  {
    var k := IndexOf(s.stack, u);
    var c := s.stack[k..];
    assert c[0] == u && c[|c| - 1] == s.stack[|s.stack| - 1];
    forall i | 0 <= i < |c| - 1
      ensures (c[i], c[i + 1]) in ArcsOf(adj)
    {
      assert c[i] == s.stack[k + i] && c[i + 1] == s.stack[k + i + 1];
    }
  }

  lemma {:induction false} DfsIsGood(adj: map<Id, seq<Id>>, loops: set<Id>, s: Search, u: Id)
    requires Closed(adj) && u in adj && Good(adj, loops, s) && Follows(adj, s, u)
    ensures Good(adj, loops, Dfs(adj, loops, s, u))
    ensures var t := Dfs(adj, loops, s, u);
      u in t.visited || (u in s.stack && (t.errors == [] ==> BothLoop(loops, s.stack[|s.stack| - 1], u)))
    decreases Open(adj, s), 0
  {
    hide IsWalk, IsCycle, Settled;
    if u in s.stack {
      BackArc(adj, loops, s, u);
    } else if u !in s.visited {
      var inside := s.(stack := s.stack + [u]);
      assert u in inside.stack && Open(adj, inside) <= Open(adj, s) && u in Open(adj, s) && u !in Open(adj, inside);
      PushIsGood(adj, loops, s, u);
      DfsAllIsGood(adj, loops, inside, u, adj[u]);
      var t := DfsAll(adj, loops, inside, adj[u]);
      FinishIsGood(adj, loops, s, t, u);
    }
  }

  lemma PushIsGood(adj: map<Id, seq<Id>>, loops: set<Id>, s: Search, u: Id)
    requires Closed(adj) && u in adj && Good(adj, loops, s) && Follows(adj, s, u) && u !in s.stack && u !in s.visited
    ensures Good(adj, loops, s.(stack := s.stack + [u]))
  {
    if s.stack != [] {
      WalkExtends(ArcsOf(adj), s.stack, u);
    } else {
      assert s.stack + [u] == [u];
    }
  }

  lemma FinishIsGood(adj: map<Id, seq<Id>>, loops: set<Id>, s: Search, t: Search, u: Id)
    requires Closed(adj) && u in adj && Good(adj, loops, s) && u !in s.stack
    requires Good(adj, loops, t) && t.stack == s.stack + [u]
    requires t.errors == [] ==> forall i :: 0 <= i < |adj[u]| ==> adj[u][i] in t.visited || BothLoop(loops, u, adj[u][i])
    ensures Good(adj, loops, Search(s.stack, t.visited + [u], t.errors))
  {
    assert t.stack[|s.stack|] == u;
    var after := t.visited + [u];
    forall i | 0 <= i < |s.stack|
      ensures s.stack[i] in adj && s.stack[i] !in after
    {
      assert t.stack[i] == s.stack[i];
    }
    if t.errors == [] {
      forall k | 0 <= k < |after|
        ensures after[k] in adj && Settled(adj, loops, after, k)
      {
        if k < |t.visited| {
          assert Settled(adj, loops, t.visited, k);
          assert after[..k] == t.visited[..k];
        } else {
          assert after[..k] == t.visited;
        }
      }
    }
  }

  lemma {:induction false} DfsAllIsGood(adj: map<Id, seq<Id>>, loops: set<Id>, s: Search, u: Id, us: seq<Id>)
    requires Closed(adj) && Good(adj, loops, s) && forall i :: 0 <= i < |us| ==> us[i] in adj && Follows(adj, s, us[i])
    requires s.stack != [] ==> s.stack[|s.stack| - 1] == u
    ensures Good(adj, loops, DfsAll(adj, loops, s, us))
    ensures var t := DfsAll(adj, loops, s, us);
      t.errors == [] ==> forall i :: 0 <= i < |us| ==> us[i] in t.visited || (s.stack != [] && BothLoop(loops, u, us[i]))
    decreases Open(adj, s), 1, |us|
  {
    hide Good, Follows;
    if us != [] {
      var t := Dfs(adj, loops, s, us[0]);
      assert Open(adj, t) <= Open(adj, s);
      DfsIsGood(adj, loops, s, us[0]);
      forall i | 0 <= i < |us[1..]|
        ensures us[1..][i] in adj && Follows(adj, t, us[1..][i])
      {
        FollowsSame(adj, s, t, us[i + 1]);
      }
      DfsAllIsGood(adj, loops, t, u, us[1..]);
      var end := DfsAll(adj, loops, t, us[1..]);
      if end.errors == [] {
        assert t.errors == [];
        forall i | 0 <= i < |us|
          ensures us[i] in end.visited || (s.stack != [] && BothLoop(loops, u, us[i]))
        {
          if i == 0 {
            assert t.visited <= end.visited;
          } else {
            assert us[i] == us[1..][i - 1];
          }
        }
      }
    }
  }

  lemma FollowsSame(adj: map<Id, seq<Id>>, s: Search, t: Search, u: Id)
    requires t.stack == s.stack && Follows(adj, s, u)
    ensures Follows(adj, t, u)
  {
  }

  // ---------------------------------------------------------------- what an accepting or rejecting gate means

  ghost predicate Lists(order: seq<Id>, adj: map<Id, seq<Id>>) {
    forall u :: u in order <==> u in adj
  }

  /** The arcs whose two ends both carry a review loop. */
  function LoopArcs(adj: map<Id, seq<Id>>, loops: set<Id>): Arcs<Id> {
    set a | a in ArcsOf(adj) && a.0 in loops && a.1 in loops :: a
  }

  function Gate(adj: map<Id, seq<Id>>, loops: set<Id>, order: seq<Id>): seq<seq<Id>>
    requires Closed(adj) && Lists(order, adj)
  {
    assert forall i :: 0 <= i < |order| ==> order[i] in order;
    DfsAll(adj, loops, Search([], [], []), order).errors
  }

  /** Accepted: every cycle has an arc whose two ends both carry a review loop. Rejected: each report is a real
      cycle with a node that carries none. The nodes may be tried in any order. */
  lemma GateIsSound(adj: map<Id, seq<Id>>, loops: set<Id>, order: seq<Id>)
    requires Closed(adj) && Lists(order, adj)
    ensures Gate(adj, loops, order) == [] ==> forall c :: IsCycle(ArcsOf(adj), c) ==> UsesArc(c, LoopArcs(adj, loops))
    ensures AllGenuine(adj, loops, Gate(adj, loops, order))
  {
    hide IsWalk, IsCycle, UsesArc, Settled;
    assert forall i :: 0 <= i < |order| ==> order[i] in order;
    var s := Search([], [], []);
    DfsAllIsGood(adj, loops, s, "", order);
    var t := DfsAll(adj, loops, s, order);
    if t.errors == [] {
      forall u | u in adj
        ensures u in t.visited
      {
        assert u in order;
        var i :| 0 <= i < |order| && order[i] == u;
      }
      SettledGoesBack(adj, loops, t.visited);
      forall c | IsCycle(ArcsOf(adj), c)
        ensures UsesArc(c, LoopArcs(adj, loops))
      {
        CycleUsesFreeArc(ArcsOf(adj), t.visited, LoopArcs(adj, loops), c);
      }
    }
  }

  lemma SettledGoesBack(adj: map<Id, seq<Id>>, loops: set<Id>, visited: seq<Id>)
    requires AllSettled(adj, loops, visited) && forall u :: u in adj ==> u in visited
    ensures ArcsGoBack(ArcsOf(adj), visited, LoopArcs(adj, loops))
  {
    forall u, v | (u, v) in ArcsOf(adj) && (u, v) !in LoopArcs(adj, loops)
      ensures exists i, j :: 0 <= j < i < |visited| && visited[i] == u && visited[j] == v
    {
      var n :| u in adj && 0 <= n < |adj[u]| && adj[u][n] == v;
      var i :| 0 <= i < |visited| && visited[i] == u;
      assert Settled(adj, loops, visited, i);
      assert v in visited[..i];
      var j :| 0 <= j < i && visited[..i][j] == v;
    }
  }

  /** Where no arc joins two nodes with review loops, the gate accepts exactly the acyclic graphs. */
  lemma GateAcceptsIffAcyclic(adj: map<Id, seq<Id>>, loops: set<Id>, order: seq<Id>)
    requires Closed(adj) && Lists(order, adj) && LoopArcs(adj, loops) == {}
    ensures Gate(adj, loops, order) == [] <==> Acyclic(ArcsOf(adj))
  {
    hide IsWalk, IsCycle;
    GateIsSound(adj, loops, order);
    var errors := Gate(adj, loops, order);
    assert errors != [] ==> Genuine(adj, loops, errors[0]);
  }

  /** Where every node of every cycle carries a review loop, the gate accepts. */
  lemma GateAcceptsLoopedCycles(adj: map<Id, seq<Id>>, loops: set<Id>, order: seq<Id>)
    requires Closed(adj) && Lists(order, adj)
    requires forall c :: IsCycle(ArcsOf(adj), c) ==> AllIn(c, loops)
    ensures Gate(adj, loops, order) == []
  {
    GateIsSound(adj, loops, order);
    var errors := Gate(adj, loops, order);
    assert errors != [] ==> Genuine(adj, loops, errors[0]);
  }

  // ---------------------------------------------------------------- when the gate accepts whatever the order

  /** What a finished node leads to is finished or still on the stack. */
  ghost predicate HandsOn(adj: map<Id, seq<Id>>, s: Search) {
    forall u, i :: u in s.visited && u in adj && 0 <= i < |adj[u]| ==> adj[u][i] in s.visited || adj[u][i] in s.stack
  }

  lemma {:induction false} DfsHandsOn(adj: map<Id, seq<Id>>, loops: set<Id>, s: Search, u: Id)
    requires Closed(adj) && u in adj && HandsOn(adj, s)
    ensures var t := Dfs(adj, loops, s, u); HandsOn(adj, t) && (u in t.visited || u in t.stack)
    decreases Open(adj, s), 0
  {
    if u !in s.stack && u !in s.visited {
      var inside := s.(stack := s.stack + [u]);
      assert u in inside.stack && Open(adj, inside) <= Open(adj, s) && u in Open(adj, s) && u !in Open(adj, inside);
      DfsAllHandsOn(adj, loops, inside, adj[u]);
    }
  }

  lemma {:induction false} DfsAllHandsOn(adj: map<Id, seq<Id>>, loops: set<Id>, s: Search, us: seq<Id>)
    requires Closed(adj) && HandsOn(adj, s) && forall i :: 0 <= i < |us| ==> us[i] in adj
    ensures var t := DfsAll(adj, loops, s, us);
      HandsOn(adj, t) && forall i :: 0 <= i < |us| ==> us[i] in t.visited || us[i] in t.stack
    decreases Open(adj, s), 1, |us|
  {
    hide HandsOn;
    if us != [] {
      var t := Dfs(adj, loops, s, us[0]);
      assert Open(adj, t) <= Open(adj, s);
      DfsHandsOn(adj, loops, s, us[0]);
      DfsAllHandsOn(adj, loops, t, us[1..]);
      var end := DfsAll(adj, loops, t, us[1..]);
      assert t.visited <= end.visited && t.stack == end.stack;
      forall i | 0 <= i < |us|
        ensures us[i] in end.visited || us[i] in end.stack
      {
        assert i > 0 ==> us[i] == us[1..][i - 1];
      }
    }
  }

  /** From a node without a review loop that lies on a cycle the search reports an error: the node finishes after everything it
      reaches, so its predecessor on the cycle finished with the arc to it still open. */
  lemma LooplessStartReports(adj: map<Id, seq<Id>>, loops: set<Id>, c: seq<Id>)
    requires Closed(adj) && IsCycle(ArcsOf(adj), c) && c[0] in adj && c[0] !in loops
    ensures Dfs(adj, loops, Search([], [], []), c[0]).errors != []
  {
    var start, v, u := Search([], [], []), c[0], c[|c| - 1];
    hide Dfs, IsWalk;
    var t := Dfs(adj, loops, start, v);
    DfsIsGood(adj, loops, start, v);
    DfsHandsOn(adj, loops, start, v);
    FinishesLast(adj, loops, v);
    var reached := Elems(t.visited);
    forall a | a in ArcsOf(adj) && a.0 in reached
      ensures a.1 in reached
    {
      var i :| 0 <= i < |adj[a.0]| && adj[a.0][i] == a.1;
    }
    WalkStaysIn(ArcsOf(adj), reached, c);
    if t.errors == [] {
      LastHasLoop(adj, loops, t.visited, u);
    }
  }

  /** In a settled list an arc into the last node joins two nodes with review loops. */
  lemma LastHasLoop(adj: map<Id, seq<Id>>, loops: set<Id>, visited: seq<Id>, u: Id)
    requires AllSettled(adj, loops, visited) && Distinct(visited) && u in visited && (u, visited[|visited| - 1]) in ArcsOf(adj)
    ensures BothLoop(loops, u, visited[|visited| - 1])
  {
    var v := visited[|visited| - 1];
    var k :| 0 <= k < |visited| && visited[k] == u;
    var i :| 0 <= i < |adj[u]| && adj[u][i] == v;
    assert Settled(adj, loops, visited, k);
    NotBeforeLast(visited, k);
  }

  lemma NotBeforeLast(s: seq<Id>, k: nat)
    requires Distinct(s) && k < |s|
    ensures s[|s| - 1] !in s[..k]
  {
  }

  lemma FinishesLast(adj: map<Id, seq<Id>>, loops: set<Id>, v: Id)
    requires Closed(adj) && v in adj
    ensures var t := Dfs(adj, loops, Search([], [], []), v); t.visited != [] && t.visited[|t.visited| - 1] == v
  {
  }

  /** The gate rejects in every order that starts with a node without a review loop on some cycle. */
  lemma LooplessStartRejects(adj: map<Id, seq<Id>>, loops: set<Id>, order: seq<Id>, c: seq<Id>, i: nat)
    requires Closed(adj) && Lists(order, adj) && order != []
    requires IsCycle(ArcsOf(adj), c) && i < |c| && c[i] == order[0] && order[0] !in loops
    ensures Gate(adj, loops, order) != []
  {
    hide IsCycle, Closed, Dfs;
    CycleRotates(ArcsOf(adj), c, i);
    assert order[0] in order;
    LooplessStartReports(adj, loops, c[i..] + c[..i]);
    assert order == [order[0]] + order[1..];
  }

  /** Some list of the given nodes, each once. */
  lemma {:induction false} ListOf(nodes: set<Id>) returns (order: seq<Id>)
    ensures Distinct(order) && forall u :: u in order <==> u in nodes
    decreases nodes
  {
    if nodes == {} {
      order := [];
    } else {
      var u :| u in nodes;
      var rest := ListOf(nodes - {u});
      order := [u] + rest;
      assert forall x :: x in order <==> x == u || x in rest;
    }
  }

  ghost predicate AcceptsAnyOrder(adj: map<Id, seq<Id>>, loops: set<Id>)
    requires Closed(adj)
  {
    forall order :: Distinct(order) && Lists(order, adj) ==> Gate(adj, loops, order) == []
  }

  ghost predicate CyclesLooped(arcs: Arcs<Id>, loops: set<Id>) {
    forall c :: IsCycle(arcs, c) ==> AllIn(c, loops)
  }

  /** The gate accepts whatever the order if and only if every node of every cycle carries a review loop. */
  lemma AcceptsAnyOrderIff(adj: map<Id, seq<Id>>, loops: set<Id>)
    requires Closed(adj)
    ensures AcceptsAnyOrder(adj, loops) <==> CyclesLooped(ArcsOf(adj), loops)
  {
    hide IsCycle, AllIn, Gate, Closed;
    if CyclesLooped(ArcsOf(adj), loops) {
      forall order | Distinct(order) && Lists(order, adj)
        ensures Gate(adj, loops, order) == []
      {
        GateAcceptsLoopedCycles(adj, loops, order);
      }
    } else {
      var c :| IsCycle(ArcsOf(adj), c) && !AllIn(c, loops);
      var i := LooplessNode(adj, loops, c);
      var rest := ListOf(adj.Keys - {c[i]});
      var order := [c[i]] + rest;
      assert forall x :: x in order <==> x == c[i] || x in rest;
      LooplessStartRejects(adj, loops, order, c, i);
    }
  }

  lemma LooplessNode(adj: map<Id, seq<Id>>, loops: set<Id>, c: seq<Id>) returns (i: nat)
    requires IsCycle(ArcsOf(adj), c) && !AllIn(c, loops)
    ensures i < |c| && c[i] !in loops && c[i] in adj
  {
    i :| 0 <= i < |c| && c[i] !in loops;
    assert (c[i], if i == |c| - 1 then c[0] else c[i + 1]) in ArcsOf(adj);
  }

  const MISSED: map<Id, seq<Id>> := map["x" := ["y", "z"], "y" := ["x"], "z" := ["y"], "r" := ["x"]]

  /** Acceptance can depend on the order: the cycle x, z, y passes through z, which has no review loop, and is not reported when the
      search starts at x, because y is already finished when z is visited. Every order that starts at z is rejected. */
  lemma UnboundedCycleCanPass(order: seq<Id>)
    requires Lists(order, MISSED) && order != [] && order[0] == "z"
    ensures Closed(MISSED) && Lists(["x", "y", "z", "r"], MISSED)
    ensures IsCycle(ArcsOf(MISSED), ["x", "z", "y"]) && !AllIn(["x", "z", "y"], {"x", "y"})
    ensures Gate(MISSED, {"x", "y"}, ["x", "y", "z", "r"]) == []
    ensures Gate(MISSED, {"x", "y"}, order) != []
  {
    var c := ["x", "z", "y"];
    assert MISSED["x"][1] == "z" && MISSED["z"][0] == "y" && MISSED["y"][0] == "x";
    assert c[1] == "z";
    AcceptedFromX();
    LooplessStartRejects(MISSED, {"x", "y"}, order, c, 1);
  }

  lemma AcceptedFromX()
    requires Closed(MISSED) && Lists(["x", "y", "z", "r"], MISSED)
    ensures Gate(MISSED, {"x", "y"}, ["x", "y", "z", "r"]) == []
  {
    var adj, loops := MISSED, {"x", "y"};
    var start, atX, doneX := Search([], [], []), Search(["x"], [], []), Search([], ["y", "z", "x"], []);
    BelowX();
    assert start.(stack := start.stack + ["x"]) == atX && adj["x"] == ["y", "z"];
    assert Dfs(adj, loops, start, "x") == doneX;
    AlreadyVisited();
  }

  /** Below y the arc back to x closes a cycle of two nodes with review loops. */
  lemma BelowY()
    requires Closed(MISSED)
    ensures Dfs(MISSED, {"x", "y"}, Search(["x"], [], []), "y") == Search(["x"], ["y"], [])
  {
    var adj, loops, atX, atXY := MISSED, {"x", "y"}, Search(["x"], [], []), Search(["x", "y"], [], []);
    assert Dfs(adj, loops, atXY, "x") == atXY;
    assert DfsAll(adj, loops, atXY, ["x"]) == atXY;
    assert atX.(stack := atX.stack + ["y"]) == atXY && adj["y"] == ["x"];
  }

  /** Below z the finished y is not entered again. */
  lemma BelowZ()
    requires Closed(MISSED)
    ensures Dfs(MISSED, {"x", "y"}, Search(["x"], ["y"], []), "z") == Search(["x"], ["y", "z"], [])
  {
    var adj, loops, doneY, atXZ := MISSED, {"x", "y"}, Search(["x"], ["y"], []), Search(["x", "z"], ["y"], []);
    assert Dfs(adj, loops, atXZ, "y") == atXZ;
    assert DfsAll(adj, loops, atXZ, ["y"]) == atXZ;
    assert doneY.(stack := doneY.stack + ["z"]) == atXZ && adj["z"] == ["y"];
  }

  lemma BelowX()
    requires Closed(MISSED)
    ensures DfsAll(MISSED, {"x", "y"}, Search(["x"], [], []), ["y", "z"]) == Search(["x"], ["y", "z"], [])
  {
    hide Dfs;
    BelowY();
    BelowZ();
    assert ["y", "z"][1..] == ["z"] && ["z"][1..] == [];
  }

  lemma AlreadyVisited()
    requires Closed(MISSED)
    ensures DfsAll(MISSED, {"x", "y"}, Search([], ["y", "z", "x"], []), ["y", "z", "r"]).errors == []
  {
    var adj, loops, doneX := MISSED, {"x", "y"}, Search([], ["y", "z", "x"], []);
    var atR := Search(["r"], ["y", "z", "x"], []);
    assert Dfs(adj, loops, doneX, "y") == doneX && Dfs(adj, loops, doneX, "z") == doneX;
    assert Dfs(adj, loops, atR, "x") == atR && DfsAll(adj, loops, atR, ["x"]) == atR;
    assert doneX.(stack := doneX.stack + ["r"]) == atR && adj["r"] == ["x"];
    assert Dfs(adj, loops, doneX, "r").errors == [];
    assert DfsAll(adj, loops, doneX, ["r"]).errors == [];
    assert ["y", "z", "r"][1..] == ["z", "r"] && ["z", "r"][1..] == ["r"];
    assert DfsAll(adj, loops, doneX, ["z", "r"]).errors == [];
  }

  // ---------------------------------------------------------------- the recursive search over shared state

  class CycleChecker {
    const adj: map<Id, seq<Id>>
    const loops: set<Id>
    var visiting: set<Id>
    var visited: set<Id>
    var stack: seq<Id>
    var errors: seq<seq<Id>>
    ghost var finished: seq<Id>

    ghost predicate Valid()
      reads this
    {
      Closed(adj) && visiting == Elems(stack) && visited == Elems(finished) && Distinct(stack)
    }

    ghost function State(): Search
      reads this
    {
      Search(stack, finished, errors)
    }

    constructor (adj: map<Id, seq<Id>>, loops: set<Id>)
      requires Closed(adj)
      ensures Valid() && this.adj == adj && this.loops == loops && State() == Search([], [], [])
    {
      this.adj, this.loops := adj, loops;
      visiting, visited, stack, errors, finished := {}, {}, [], [], [];
    }

    method Visit(u: Id)
      requires Valid() && u in adj
      modifies this
      ensures Valid() && State() == Dfs(adj, loops, old(State()), u)
      decreases Open(adj, State()), 0
    {
      ghost var s := State();
      if u in visiting {
        var cycle := stack[IndexOf(stack, u)..];
        if !AllIn(cycle, loops) {
          errors := errors + [cycle];
        }
        return;
      }
      if u in visited {
        return;
      }
      visiting := visiting + {u};
      stack := stack + [u];
      ghost var inside := State();
      assert u in inside.stack && Open(adj, inside) <= Open(adj, s) && u in Open(adj, s) && u !in Open(adj, inside);
      for i := 0 to |adj[u]|
        invariant Valid() && stack == inside.stack && Open(adj, State()) <= Open(adj, inside)
        invariant DfsAll(adj, loops, inside, adj[u]) == DfsAll(adj, loops, State(), adj[u][i..])
      {
        ghost var before := State();
        Visit(adj[u][i]);
        assert before.visited <= State().visited;
        assert adj[u][i..][1..] == adj[u][i + 1..];
      }
      stack := stack[..|stack| - 1];
      assert stack == s.stack;
      visiting := visiting - {u};
      visited := visited + {u};
      finished := finished + [u];
    }
  }

  /** The gate, trying the nodes in the order in which the node set happens to be iterated. */
  method CheckCycles(adj: map<Id, seq<Id>>, loops: set<Id>) returns (errors: seq<seq<Id>>, ghost order: seq<Id>)
    requires Closed(adj)
    ensures Distinct(order) && Lists(order, adj) && errors == Gate(adj, loops, order)
    ensures AllGenuine(adj, loops, errors)
    ensures errors == [] ==> forall c :: IsCycle(ArcsOf(adj), c) ==> UsesArc(c, LoopArcs(adj, loops))
  {
    var checker := new CycleChecker(adj, loops);
    var todo := adj.Keys;
    ghost var s := checker.State();
    order := [];
    while todo != {}
      invariant todo <= adj.Keys && checker.Valid() && checker.adj == adj && checker.loops == loops
      invariant forall u :: u in order <==> u in adj.Keys - todo
      invariant Distinct(order)
      invariant forall i :: 0 <= i < |order| ==> order[i] in adj
      invariant checker.State() == DfsAll(adj, loops, s, order)
      decreases todo
    {
      var u :| u in todo;
      assert u !in order && forall i :: 0 <= i < |order| ==> order[i] in order;
      DfsAllSnoc(adj, loops, s, order, u);
      checker.Visit(u);
      todo := todo - {u};
      order := order + [u];
    }
    errors := checker.errors;
    GateIsSound(adj, loops, order);
  }

  lemma {:induction false} DfsAllSnoc(adj: map<Id, seq<Id>>, loops: set<Id>, s: Search, us: seq<Id>, u: Id)
    requires Closed(adj) && u in adj && forall i :: 0 <= i < |us| ==> us[i] in adj
    ensures DfsAll(adj, loops, s, us + [u]) == Dfs(adj, loops, DfsAll(adj, loops, s, us), u)
    decreases |us|
  {
    if us == [] {
      assert us + [u] == [u] && [u][1..] == [];
    } else {
      DfsAllSnoc(adj, loops, Dfs(adj, loops, s, us[0]), us[1..], u);
      assert (us + [u])[1..] == us[1..] + [u];
    }
  }
}
