/**
 * The directed graph the RR-set engine reads: an ordered node list (the order of
 * `graph.nodes()`) and an ordered edge list (insertion order), each edge carrying the
 * two numeric attributes the engine looks at.
 */
module Graphs {
  import opened Wrappers

  type Node = int

  /** The attributes of an edge that the engine reads: `influence_prob` and `weight`. */
  datatype EdgeData = EdgeData(influenceProb: Option<real>, weight: Option<real>)

  datatype Edge = Edge(src: Node, dst: Node, data: EdgeData)

  datatype RawGraph = RawGraph(nodes: seq<Node>, edges: seq<Edge>)

  predicate Distinct<T(==)>(s: seq<T>) {
    forall i, j :: 0 <= i < j < |s| ==> s[i] != s[j]
  }

  function Elems<T>(s: seq<T>): set<T> {
    set x | x in s
  }

  /** What a DiGraph guarantees: nodes are unique, edge endpoints are nodes, and a (source, target) pair occurs once. */
  predicate WellFormed(g: RawGraph) {
    && Distinct(g.nodes)
    && (forall e :: e in g.edges ==> e.src in g.nodes && e.dst in g.nodes)
    && UniquePairs(g.edges)
  }

  type Graph = g: RawGraph | WellFormed(g) witness RawGraph([], [])

  predicate HasEdge(g: Graph, u: Node, v: Node) {
    exists e :: e in g.edges && e.src == u && e.dst == v
  }

  /** Sources of the edges into `v`, in edge order (networkx `predecessors(v)`). */
  function Predecessors(g: Graph, v: Node): (ps: seq<Node>)
    ensures forall p :: p in ps <==> HasEdge(g, p, v)
    ensures forall p :: p in ps ==> p in g.nodes
  {
    SourcesInto(g.edges, v)
  }

  function SourcesInto(edges: seq<Edge>, v: Node): (ps: seq<Node>)
    ensures forall p :: p in ps <==> exists e :: e in edges && e.src == p && e.dst == v
    ensures |ps| <= |edges|
  {
    if edges == [] then []
    else
      var rest := SourcesInto(edges[1..], v);
      assert forall e :: e in edges <==> e == edges[0] || e in edges[1..];
      if edges[0].dst == v then [edges[0].src] + rest else rest
  }

  /** No two edges of `edges` join the same (source, target) pair. */
  predicate UniquePairs(edges: seq<Edge>) {
    forall i, j :: 0 <= i < j < |edges| ==> edges[i].src != edges[j].src || edges[i].dst != edges[j].dst
  }

  lemma {:induction false} SourcesIntoDistinct(edges: seq<Edge>, v: Node)
    requires UniquePairs(edges)
    ensures Distinct(SourcesInto(edges, v))
    decreases |edges|
  {
    if edges != [] {
      var tail := edges[1..];
      assert UniquePairs(tail) by {
        forall i, j | 0 <= i < j < |tail| ensures tail[i].src != tail[j].src || tail[i].dst != tail[j].dst {
          assert tail[i] == edges[i + 1] && tail[j] == edges[j + 1];
        }
      }
      SourcesIntoDistinct(tail, v);
      var rest := SourcesInto(tail, v);
      if edges[0].dst == v {
        forall e | e in tail && e.dst == v ensures e.src != edges[0].src {
          var k :| 0 <= k < |tail| && tail[k] == e;
          assert edges[k + 1] == e;
        }
        assert edges[0].src !in rest;
        var ps := [edges[0].src] + rest;
        forall i, j | 0 <= i < j < |ps| ensures ps[i] != ps[j] {
          assert ps[j] == rest[j - 1];
          if i > 0 { assert ps[i] == rest[i - 1]; }
        }
      }
    }
  }

  /** networkx lists each predecessor once: a (source, target) pair is a single edge. */
  lemma PredecessorsDistinct(g: Graph, v: Node)
    ensures Distinct(Predecessors(g, v))
  {
    SourcesIntoDistinct(g.edges, v);
  }

  /** A distinct sequence has as many elements as its set. */
  lemma {:induction false} DistinctCard<T>(s: seq<T>)
    requires Distinct(s)
    ensures |Elems(s)| == |s|
  {
    if s != [] {
      DistinctCard(s[1..]);
      assert Elems(s) == {s[0]} + Elems(s[1..]);
      assert s[0] !in Elems(s[1..]);
    }
  }

  /** A subset of a finite set is no larger. */
  lemma SubsetCard<T>(a: set<T>, b: set<T>)
    requires a <= b
    ensures |a| <= |b|
  {
    assert b == a + (b - a);
  }

  lemma ElemsAppend<T>(s: seq<T>, x: T)
    ensures Elems(s + [x]) == Elems(s) + {x}
  {
    assert forall y :: y in s + [x] <==> y in s || y == x;
  }

  lemma AppendSlices<T>(s: seq<T>, x: T, lo: nat, hi: nat)
    requires lo <= |s| && hi <= |s|
    ensures (s + [x])[lo..] == s[lo..] + [x]
    ensures (s + [x])[..hi] == s[..hi]
  {
  }

  /** A tail of an extension of `t` is the tail of `t` followed by the extension. */
  lemma ExtendedTail<T>(s: seq<T>, t: seq<T>, lo: nat)
    requires lo <= |t| <= |s| && s[..|t|] == t
    ensures s[lo..] == t[lo..] + s[|t|..]
  {
    assert s == t + s[|t|..];
  }

  /** Appending to a queue that is `front` followed by a tail of `s` keeps that shape. */
  lemma AppendTail<T>(front: seq<T>, s: seq<T>, lo: nat, x: T)
    requires lo <= |s|
    ensures front + s[lo..] + [x] == front + (s + [x])[lo..]
  {
    AppendSlices(s, x, lo, lo);
  }
}
