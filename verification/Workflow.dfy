/** Workflow documents: nodes, and edges whose ends name a node and optionally a port. */
module Workflow {
  import opened Wrappers
  import opened Digraph
  import opened Sequences
  import Topo

  type Id = string

  /** A JSON value where a text or a number is expected. Beside a number with a fraction and beside an array or object stands the
      text that Python makes of it, and beside a text the integer that Python's `int` reads from it, if it can. */
  datatype Raw =
    | Missing
    | Truth(b: bool)
    | Whole(n: int)
    | Fraction(value: real, shown: string)
    | Text(s: string, number: Option<int>)
    | Compound(empty: bool, shown: string)

  function Integer(n: int): string {
    if n < 0 then "-" + Decimal(-n) else Decimal(n)
  }

  /** Python's `str(x or "")`. */
  function PythonText(x: Raw): string {
    match x
    case Missing => ""
    case Truth(b) => if b then "True" else ""
    case Whole(n) => if n == 0 then "" else Integer(n)
    case Fraction(value, shown) => if value == 0.0 then "" else shown
    case Text(s, _) => s
    case Compound(empty, shown) => if empty then "" else shown
  }

  function Truncated(value: real): int {
    if value < 0.0 then -(-value).Floor else value.Floor
  }

  /** Python's `int(x or 0)`, absent when it raises. */
  function PythonCount(x: Raw): Option<int> {
    match x
    case Missing => Some(0)
    case Truth(b) => Some(if b then 1 else 0)
    case Whole(n) => Some(n)
    case Fraction(value, _) => Some(Truncated(value))
    case Text(s, number) => if s == "" then Some(0) else number
    case Compound(empty, _) => if empty then Some(0) else None
  }

  /** Rust's `as_str`, with nothing for everything but a text. */
  function RustText(x: Raw): string {
    if x.Text? then x.s else ""
  }

  /** Rust's `as_u64`, with zero for everything but a natural number of 64 bits. */
  function RustCount(x: Raw): nat {
    if x.Whole? && 0 <= x.n < 0x1_0000_0000_0000_0000 then x.n else 0
  }

  /** The `review_loop` field: absent, something that is not an object, or an object and its `max_iterations`. */
  datatype ReviewLoop = NoLoop | NotAnObject | LoopWith(maxIterations: Raw)

  /** An empty permission class stands for a missing one. */
  datatype Node = Node(id: Id, permissionClass: string, reviewLoop: ReviewLoop, tools: seq<string>, retryMax: int)

  datatype RawEdge = RawEdge(from: Raw, to: Raw)

  /** An edge as one of the two gates reads its ends. */
  datatype NamedEdge = NamedEdge(from: string, to: string)

  function PythonEdges(edges: seq<RawEdge>): seq<NamedEdge> {
    seq(|edges|, i requires 0 <= i < |edges| => NamedEdge(PythonText(edges[i].from), PythonText(edges[i].to)))
  }

  function RustEdges(edges: seq<RawEdge>): seq<NamedEdge> {
    seq(|edges|, i requires 0 <= i < |edges| => NamedEdge(RustText(edges[i].from), RustText(edges[i].to)))
  }

  /** The node part of an edge end: everything before the first colon. */
  function Endpoint(s: string): string {
    if s == "" || s[0] == ':' then "" else [s[0]] + Endpoint(s[1..])
  }

  /** This end of an edge names the node: the node's id, which holds no colon, alone or with a port after a colon. */
  predicate NamesNode(end: string, id: Id) {
    ':' !in id && (end == id || id + ":" <= end)
  }

  /** An edge end is read as the one node that it names. */
  lemma {:induction false} EndpointNames(end: string, id: Id)
    ensures Endpoint(end) == id <==> NamesNode(end, id)
  {
    if end != "" && end[0] != ':' {
      if id != "" && id[0] == end[0] {
        EndpointNames(end[1..], id[1..]);
        assert id == [id[0]] + id[1..] && end == [end[0]] + end[1..];
        assert id + ":" == [id[0]] + (id[1..] + ":");
        assert id + ":" <= end <==> id[1..] + ":" <= end[1..];
        assert ':' in id <==> ':' in id[1..];
      }
    }
  }

  predicate Declares(nodes: seq<Node>, id: Id) {
    exists i :: 0 <= i < |nodes| && nodes[i].id == id
  }

  /** Node ids as the keys of a dictionary filled in order: each once, at its first place. */
  function DictIds(nodes: seq<Node>): (ids: seq<Id>)
    ensures Distinct(ids)
    ensures forall id :: id in ids <==> Declares(nodes, id)
  {
    if nodes == [] then []
    else
      var n := |nodes| - 1;
      var front := DictIds(nodes[..n]);
      assert forall id :: Declares(nodes, id) <==> Declares(nodes[..n], id) || nodes[n].id == id by {
        assert nodes == nodes[..n] + [nodes[n]];
      }
      if nodes[n].id in front then front else front + [nodes[n].id]
  }

  /** The edges between listed nodes, without their ports, in document order. */
  function Links(ids: seq<Id>, edges: seq<NamedEdge>): (links: seq<Topo.Edge>)
    ensures Topo.Between(ids, links)
  {
    if edges == [] then []
    else
      var n := |edges| - 1;
      var (u, v) := (Endpoint(edges[n].from), Endpoint(edges[n].to));
      Links(ids, edges[..n]) + if u in ids && v in ids then [(u, v)] else []
  }

  lemma {:induction false} LinksHold(ids: seq<Id>, edges: seq<NamedEdge>, u: Id, v: Id)
    ensures (u, v) in Links(ids, edges) <==>
      u in ids && v in ids && exists i :: 0 <= i < |edges| && NamesNode(edges[i].from, u) && NamesNode(edges[i].to, v)
  {
    hide Endpoint, NamesNode;
    if edges != [] {
      var n := |edges| - 1;
      LinksHold(ids, edges[..n], u, v);
      EndpointNames(edges[n].from, u);
      EndpointNames(edges[n].to, v);
      assert edges == edges[..n] + [edges[n]];
    }
  }

  /** Successor lists of all nodes. */
  function Adjacency(ids: seq<Id>, links: seq<Topo.Edge>): map<Id, seq<Id>> {
    map u | u in ids :: Topo.Targets(links, u)
  }
}
