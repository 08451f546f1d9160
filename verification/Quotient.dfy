/** Contracting a graph along a map of its nodes: the edges that remain, and the paths that they preserve. */
module Quotient {
  import opened Wrappers
  import opened Digraph

  type Id = string

  datatype Edge = Edge(id: string, from: Id, to: Id, edgeType: string)

  /** A node may carry a group id; a synthetic node also lists its members. */
  datatype Node = Node(id: Id, groupId: Option<string>, members: Option<seq<Id>>)

  datatype View = View(nodes: seq<Node>, edges: seq<Edge>)

  function NodeIds(nodes: seq<Node>): set<Id> {
    set n | n in nodes :: n.id
  }

  ghost predicate UniqueIds(nodes: seq<Node>) {
    forall i, j :: 0 <= i < j < |nodes| ==> nodes[i].id != nodes[j].id
  }

  /** What identifies an edge of the contracted graph. */
  datatype Triple = Triple(from: Id, to: Id, edgeType: string)

  function Image(e: Edge, f: Id -> Id): Triple {
    Triple(f(e.from), f(e.to), e.edgeType)
  }

  /** The images of all edges, without those that become loops. */
  function Images(edges: seq<Edge>, f: Id -> Id): set<Triple> {
    set e | e in edges && f(e.from) != f(e.to) :: Image(e, f)
  }

  /** The edges that are kept: the first of each key, loops dropped. Keys are strings made from the triple. */
  function Kept(edges: seq<Edge>, f: Id -> Id, key: Triple -> string): seq<Edge> {
    if edges == [] then []
    else
      var n := |edges| - 1;
      var front := Kept(edges[..n], f, key);
      if f(edges[n].from) == f(edges[n].to) || key(Image(edges[n], f)) in Keys(front, f, key) then front else front + [edges[n]]
  }

  function Keys(edges: seq<Edge>, f: Id -> Id, key: Triple -> string): set<string> {
    set e | e in edges :: key(Image(e, f))
  }

  function Triples(edges: seq<Edge>, f: Id -> Id): set<Triple> {
    set e | e in edges :: Image(e, f)
  }

  ghost predicate InjectiveOn(key: Triple -> string, ts: set<Triple>) {
    forall s, t :: s in ts && t in ts && key(s) == key(t) ==> s == t
  }

  lemma KeysOfNone(f: Id -> Id, key: Triple -> string)
    ensures Keys([], f, key) == {}
  {
  }

  lemma KeysSnoc(kept: seq<Edge>, e: Edge, f: Id -> Id, key: Triple -> string)
    ensures Keys(kept + [e], f, key) == Keys(kept, f, key) + {key(Image(e, f))}
  {
    assert forall x :: x in kept + [e] <==> x in kept || x == e;
  }

  lemma {:induction false} KeptFacts(edges: seq<Edge>, f: Id -> Id, key: Triple -> string)
    ensures forall e :: e in Kept(edges, f, key) ==> e in edges && f(e.from) != f(e.to)
    ensures forall e :: e in edges && f(e.from) != f(e.to) ==> key(Image(e, f)) in Keys(Kept(edges, f, key), f, key)
    ensures forall i, j :: 0 <= i < j < |Kept(edges, f, key)| ==> key(Image(Kept(edges, f, key)[i], f)) != key(Image(Kept(edges, f, key)[j], f))
  {
    if edges != [] {
      var n := |edges| - 1;
      KeptFacts(edges[..n], f, key);
      var front, all, e := Kept(edges[..n], f, key), Kept(edges, f, key), edges[n];
      assert edges == edges[..n] + [e];
      if |all| > |front| {
        assert all == front + [e] && all[|front|] == e;
        assert Keys(all, f, key) == Keys(front, f, key) + {key(Image(e, f))} by {
          assert forall x :: x in all <==> x in front || x == e;
        }
        forall i | 0 <= i < |front|
          ensures key(Image(all[i], f)) != key(Image(e, f))
        {
          assert front[i] in front;
        }
      }
    }
  }

  /** No two kept edges have the same ends and type. */
  lemma KeptAreUnique(edges: seq<Edge>, f: Id -> Id, key: Triple -> string)
    ensures forall i, j :: 0 <= i < j < |Kept(edges, f, key)| ==> Image(Kept(edges, f, key)[i], f) != Image(Kept(edges, f, key)[j], f)
  {
    KeptFacts(edges, f, key);
  }

  /** The kept edges are exactly the images of all edges, loops dropped, if and only if the keys tell those images apart. */
  lemma KeptAreExactlyTheImages(edges: seq<Edge>, f: Id -> Id, key: Triple -> string)
    ensures Triples(Kept(edges, f, key), f) <= Images(edges, f)
    ensures Triples(Kept(edges, f, key), f) == Images(edges, f) <==> InjectiveOn(key, Images(edges, f))
  {
    var kept := Kept(edges, f, key);
    KeptFacts(edges, f, key);
    if InjectiveOn(key, Images(edges, f)) {
      forall t | t in Images(edges, f)
        ensures t in Triples(kept, f)
      {
        var e :| e in edges && f(e.from) != f(e.to) && Image(e, f) == t;
        var x :| x in kept && key(Image(x, f)) == key(t);
        assert Image(x, f) in Images(edges, f);
      }
    }
    if Triples(kept, f) == Images(edges, f) {
      forall s, t | s in Images(edges, f) && t in Images(edges, f) && key(s) == key(t)
        ensures s == t
      {
        assert s in Triples(kept, f) && t in Triples(kept, f);
        var x :| x in kept && Image(x, f) == s;
        var y :| y in kept && Image(y, f) == t;
        var i :| 0 <= i < |kept| && kept[i] == x;
        var j :| 0 <= j < |kept| && kept[j] == y;
      }
    }
  }

  /** The ends and types of a list of edges. */
  function TriplesOf(edges: seq<Edge>): set<Triple> {
    set e | e in edges :: Triple(e.from, e.to, e.edgeType)
  }

  ghost predicate TriplesDiffer(edges: seq<Edge>) {
    forall i, j :: 0 <= i < j < |edges| ==>
      Triple(edges[i].from, edges[i].to, edges[i].edgeType) != Triple(edges[j].from, edges[j].to, edges[j].edgeType)
  }

  function ArcsOf(edges: seq<Edge>): Arcs<Id> {
    set e | e in edges :: (e.from, e.to)
  }

  function ArcsIn(ts: set<Triple>): Arcs<Id> {
    set t | t in ts :: (t.from, t.to)
  }

  lemma ArcsOfTriples(edges: seq<Edge>)
    ensures ArcsIn(TriplesOf(edges)) == ArcsOf(edges)
  {
    forall e | e in edges
      ensures (e.from, e.to) in ArcsIn(TriplesOf(edges))
    {
      assert Triple(e.from, e.to, e.edgeType) in TriplesOf(edges);
    }
  }

  /** Along any path, the images of neighbouring nodes are equal or joined by a remaining edge. */
  lemma {:induction false} PathsSurvive(edges: seq<Edge>, f: Id -> Id, p: seq<Id>)
    requires IsWalk(ArcsOf(edges), p)
    ensures exists q :: Joins(ArcsIn(Images(edges, f)), q, f(p[0]), f(p[|p| - 1])) && |q| <= |p|
  {
    var arcs := ArcsIn(Images(edges, f));
    if |p| == 1 {
      assert Joins(arcs, [f(p[0])], f(p[0]), f(p[0]));
    } else {
      var n := |p| - 1;
      assert IsWalk(ArcsOf(edges), p[..n]);
      PathsSurvive(edges, f, p[..n]);
      var q :| Joins(arcs, q, f(p[0]), f(p[n - 1])) && |q| <= n;
      if f(p[n - 1]) != f(p[n]) {
        assert (p[n - 1], p[n]) in ArcsOf(edges);
        var e :| e in edges && (e.from, e.to) == (p[n - 1], p[n]);
        assert Image(e, f) in Images(edges, f);
        WalkExtends(arcs, q, f(p[n]));
        assert Joins(arcs, q + [f(p[n])], f(p[0]), f(p[n]));
      }
    }
  }

  /** Contracting twice gives the images of contracting once along the composed map. */
  lemma ImagesCompose(edges: seq<Edge>, once: set<Triple>, f: Id -> Id, g: Id -> Id, h: Id -> Id)
    requires once == Images(edges, f)
    requires forall e :: e in edges ==> h(e.from) == g(f(e.from)) && h(e.to) == g(f(e.to))
    ensures (set t | t in once && g(t.from) != g(t.to) :: Triple(g(t.from), g(t.to), t.edgeType)) == Images(edges, h)
  {
    var twice := set t | t in once && g(t.from) != g(t.to) :: Triple(g(t.from), g(t.to), t.edgeType);
    forall t | t in twice
      ensures t in Images(edges, h)
    {
      var s :| s in once && g(s.from) != g(s.to) && t == Triple(g(s.from), g(s.to), s.edgeType);
      var e :| e in edges && f(e.from) != f(e.to) && Image(e, f) == s;
      assert Image(e, h) == t;
    }
    forall t | t in Images(edges, h)
      ensures t in twice
    {
      var e :| e in edges && h(e.from) != h(e.to) && Image(e, h) == t;
      assert Image(e, f) in once;
    }
  }

  // ---------------------------------------------------------------- members

  /** Each of the ids is now a member of `g`, whatever it was a member of before. */
  function AddMembers(m: map<Id, string>, ids: seq<Id>, g: string): map<Id, string> {
    if ids == [] then m else AddMembers(m, ids[..|ids| - 1], g)[ids[|ids| - 1] := g]
  }

  lemma {:induction false} AddMembersFacts(m: map<Id, string>, ids: seq<Id>, g: string)
    ensures forall id :: id in AddMembers(m, ids, g) <==> id in m || id in ids
    ensures forall id :: id in AddMembers(m, ids, g) ==> AddMembers(m, ids, g)[id] == if id in ids then g else m[id]
  {
    if ids != [] {
      var n := |ids| - 1;
      AddMembersFacts(m, ids[..n], g);
      assert ids == ids[..n] + [ids[n]];
    }
  }

  // ---------------------------------------------------------------- keys

  /** A separator occurs nowhere in a string. */
  predicate Free(s: string, c: char) {
    c !in s
  }

  lemma {:induction false} SplitsOnce(a: string, b: string, x: string, y: string, c: char)
    requires Free(a, c) && Free(b, c) && a + [c] + x == b + [c] + y
    ensures a == b && x == y
  {
    var s, t := a + [c] + x, b + [c] + y;
    assert s[0] == if a == "" then c else a[0];
    assert t[0] == if b == "" then c else b[0];
    if a == "" {
      assert s[1..] == x && t[1..] == y;
    } else {
      assert s[1..] == a[1..] + [c] + x && t[1..] == b[1..] + [c] + y;
      SplitsOnce(a[1..], b[1..], x, y, c);
      assert a == [a[0]] + a[1..] && b == [b[0]] + b[1..];
    }
  }

  lemma SplitsLast(a: string, b: string, x: string, y: string, c: char)
    requires Free(x, c) && Free(y, c) && a + [c] + x == b + [c] + y
    ensures a == b && x == y
  {
    var s, t := a + [c] + x, b + [c] + y;
    assert s[|b|] == c && t[|a|] == c;
    assert forall k :: |a| < k < |s| ==> s[k] == x[k - |a| - 1] && s[k] != c;
    assert forall k :: |b| < k < |t| ==> t[k] == y[k - |b| - 1] && t[k] != c;
    assert a == s[..|a|] && b == t[..|b|] && x == s[|a| + 1..] && y == t[|b| + 1..];
  }

  /** The key of the group view: ends and type separated by bars. */
  function BarKey(t: Triple): string {
    t.from + "|" + t.to + "|" + t.edgeType
  }

  lemma BarKeyInjective(ts: set<Triple>)
    requires forall t :: t in ts ==> Free(t.from, '|') && Free(t.to, '|')
    ensures InjectiveOn(BarKey, ts)
  {
    forall s, t | s in ts && t in ts && BarKey(s) == BarKey(t)
      ensures s == t
    {
      assert BarKey(s) == s.from + ['|'] + (s.to + ['|'] + s.edgeType);
      assert BarKey(t) == t.from + ['|'] + (t.to + ['|'] + t.edgeType);
      SplitsOnce(s.from, t.from, s.to + ['|'] + s.edgeType, t.to + ['|'] + t.edgeType, '|');
      SplitsOnce(s.to, t.to, s.edgeType, t.edgeType, '|');
    }
  }

  /** With bars inside ids two different edges can share a key, and the second is lost. */
  lemma BarKeyCollision()
    ensures BarKey(Triple("a|b", "c", "t")) == BarKey(Triple("a", "b|c", "t"))
    ensures Kept([Edge("1", "a|b", "c", "t"), Edge("2", "a", "b|c", "t")], x => x, BarKey) == [Edge("1", "a|b", "c", "t")]
  {
    var e1, e2, f := Edge("1", "a|b", "c", "t"), Edge("2", "a", "b|c", "t"), (x: Id) => x;
    assert BarKey(Image(e1, f)) == "a|b|c|t" == BarKey(Image(e2, f));
    assert [e1, e2][..1] == [e1] && [e1][..0] == [];
    assert Kept([e1], f, BarKey) == [] + [e1];
    assert BarKey(Image(e1, f)) in Keys([e1], f, BarKey);
  }

  /** The key of the cluster view: an arrow between the ends, a colon before the type. */
  function ArrowKey(t: Triple): string {
    t.from + "->" + t.to + ":" + t.edgeType
  }

  lemma {:induction false} ArrowSplitsOnce(a: string, b: string, x: string, y: string)
    requires Free(a, '>') && Free(b, '>') && a + "->" + x == b + "->" + y
    ensures a == b && x == y
  {
    assert a + "->" + x == (a + "-") + ['>'] + x && b + "->" + y == (b + "-") + ['>'] + y;
    assert Free(a + "-", '>') && Free(b + "-", '>');
    SplitsOnce(a + "-", b + "-", x, y, '>');
    assert a == (a + "-")[..|a + "-"| - 1] && b == (b + "-")[..|b + "-"| - 1];
  }

  lemma ArrowKeyInjective(ts: set<Triple>)
    requires forall t :: t in ts ==> Free(t.from, '>') && Free(t.edgeType, ':')
    ensures InjectiveOn(ArrowKey, ts)
  {
    forall s, t | s in ts && t in ts && ArrowKey(s) == ArrowKey(t)
      ensures s == t
    {
      assert ArrowKey(s) == s.from + "->" + (s.to + [':'] + s.edgeType);
      assert ArrowKey(t) == t.from + "->" + (t.to + [':'] + t.edgeType);
      ArrowSplitsOnce(s.from, t.from, s.to + [':'] + s.edgeType, t.to + [':'] + t.edgeType);
      SplitsLast(s.to, t.to, s.edgeType, t.edgeType, ':');
    }
  }
}
