/**
 * The edge-probability table the generator builds once from its graph
 * (`_precompute_edge_probabilities`) and the lookup the kernels use.
 */
module EdgeProbabilities {
  import opened Wrappers
  import opened Graphs

  /** Probability used when neither attribute is present, and for a pair missing from the table. */
  const DefaultProbability: real := 0.1

  /** Every value of the table lies in [0, 1]. */
  type ProbTable = m: map<(Node, Node), real> | forall k :: k in m ==> 0.0 <= m[k] <= 1.0
    witness map[]

  /** `influence_prob` if present, else `weight`, else 0.1, before clamping. */
  function RawProbability(d: EdgeData): (p: real)
    ensures d.influenceProb.Some? ==> p == d.influenceProb.value
    ensures d.influenceProb.None? && d.weight.Some? ==> p == d.weight.value
    ensures d.influenceProb.None? && d.weight.None? ==> p == DefaultProbability
  {
    d.influenceProb.GetOr(d.weight.GetOr(DefaultProbability))
  }

  /** `min(max(x, 0.0), 1.0)`. */
  function Clamp(x: real): (r: real)
    ensures 0.0 <= r <= 1.0
    ensures 0.0 <= x <= 1.0 ==> r == x
    ensures x < 0.0 ==> r == 0.0
    ensures x > 1.0 ==> r == 1.0
  {
    var lo := if 0.0 > x then 0.0 else x;
    if 1.0 < lo then 1.0 else lo
  }

  /** The (source, target) pairs of the edges of `g`. */
  function EdgeKeys(g: Graph): set<(Node, Node)> {
    PairKeys(g.edges)
  }

  /** Sanitised probability of one edge. */
  function EdgeProbability(e: Edge): (p: real)
    ensures 0.0 <= p <= 1.0
    ensures e.data.influenceProb.Some? ==> p == Clamp(e.data.influenceProb.value)
    ensures e.data.influenceProb.None? && e.data.weight.Some? ==> p == Clamp(e.data.weight.value)
    ensures e.data.influenceProb.None? && e.data.weight.None? ==> p == DefaultProbability
  {
    Clamp(RawProbability(e.data))
  }

  /** The (source, target) pairs of the edges in `es`. */
  function PairKeys(es: seq<Edge>): set<(Node, Node)> {
    set e | e in es :: (e.src, e.dst)
  }

  lemma PairKeysStep(es: seq<Edge>, i: nat)
    requires i < |es|
    ensures PairKeys(es[..i + 1]) == PairKeys(es[..i]) + {(es[i].src, es[i].dst)}
  {
    assert es[..i + 1] == es[..i] + [es[i]];
  }

  /** Entering edge i keeps the entries of the earlier edges, whose pairs differ from its own. */
  lemma TableStep(g: Graph, table: map<(Node, Node), real>, i: nat)
    requires i < |g.edges|
    requires table.Keys == PairKeys(g.edges[..i])
    requires forall j :: 0 <= j < i ==> table[(g.edges[j].src, g.edges[j].dst)] == EdgeProbability(g.edges[j])
    ensures var e := g.edges[i];
      var next := table[(e.src, e.dst) := EdgeProbability(e)];
      && next.Keys == PairKeys(g.edges[..i + 1])
      && forall j :: 0 <= j < i + 1 ==> next[(g.edges[j].src, g.edges[j].dst)] == EdgeProbability(g.edges[j])
  {
    PairKeysStep(g.edges, i);
    var e := g.edges[i];
    forall j | 0 <= j < i ensures (g.edges[j].src, g.edges[j].dst) != (e.src, e.dst) {
      assert g.edges[j].src != g.edges[i].src || g.edges[j].dst != g.edges[i].dst;
    }
  }

  lemma TableComplete(g: Graph, table: map<(Node, Node), real>)
    requires table.Keys == PairKeys(g.edges[..|g.edges|])
    requires forall j :: 0 <= j < |g.edges| ==> table[(g.edges[j].src, g.edges[j].dst)] == EdgeProbability(g.edges[j])
    ensures table.Keys == EdgeKeys(g)
    ensures forall e :: e in g.edges ==> table[(e.src, e.dst)] == EdgeProbability(e)
  {
    assert g.edges[..|g.edges|] == g.edges;
    forall e | e in g.edges ensures table[(e.src, e.dst)] == EdgeProbability(e) {
      var j :| 0 <= j < |g.edges| && g.edges[j] == e;
    }
  }

  /** Fills the table edge by edge, as the source's loop over `graph.edges(data=True)` does. */
  method PrecomputeEdgeProbabilities(g: Graph) returns (table: ProbTable)
    ensures table.Keys == EdgeKeys(g)
    ensures forall e :: e in g.edges ==> table[(e.src, e.dst)] == EdgeProbability(e)
  {
    table := map[];
    for i := 0 to |g.edges|
      invariant table.Keys == PairKeys(g.edges[..i])
      invariant forall j :: 0 <= j < i ==> table[(g.edges[j].src, g.edges[j].dst)] == EdgeProbability(g.edges[j])
    {
      var e := g.edges[i];
      TableStep(g, table, i);
      table := table[(e.src, e.dst) := EdgeProbability(e)];
    }
    TableComplete(g, table);
  }

  /** `_edge_probs.get((u, v), 0.1)`. */
  function Lookup(table: ProbTable, u: Node, v: Node): (p: real)
    ensures 0.0 <= p <= 1.0
    ensures (u, v) in table ==> p == table[(u, v)]
    ensures (u, v) !in table ==> p == DefaultProbability
  {
    if (u, v) in table then table[(u, v)] else DefaultProbability
  }

  /** For a table built from `g`, looking up an edge of `g` gives that edge's sanitised probability. */
  lemma LookupEdge(g: Graph, table: ProbTable, e: Edge)
    requires table.Keys == EdgeKeys(g)
    requires forall e' :: e' in g.edges ==> table[(e'.src, e'.dst)] == EdgeProbability(e')
    requires e in g.edges
    ensures Lookup(table, e.src, e.dst) == EdgeProbability(e)
  {
  }
}
