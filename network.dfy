/**
 * The health network wrapper: per-node and per-edge attribute records with dataclass
 * defaults, kept beside an abstract directed graph, and the grouping of recorded nodes
 * by demographic group.
 */
module Network {
  import opened Wrappers
  import opened Graphs

  const DefaultCost: real := 1.0
  const DefaultGroup: string := "general"
  const DefaultInfluenceProb: real := 0.1

  /** `NodeAttributes`: one record per node added through `add_node`. */
  datatype NodeAttributes = NodeAttributes(
    nodeId: Node,
    cost: real,
    demographicGroup: string,
    healthLiteracy: real,
    trustLevel: real,
    reachPotential: real)

  /** `EdgeAttributes`: one record per (source, target) pair added through `add_edge`. */
  datatype EdgeAttributes = EdgeAttributes(
    source: Node,
    target: Node,
    influenceProb: real,
    trustStrength: real,
    interactionFrequency: real)

  /** The keyword arguments `add_node` accepts; None is a keyword left out. */
  datatype NodeKeywords = NodeKeywords(
    cost: Option<real>,
    demographicGroup: Option<string>,
    healthLiteracy: Option<real>,
    trustLevel: Option<real>,
    reachPotential: Option<real>)

  /** The keyword arguments `add_edge` accepts; None is a keyword left out. */
  datatype EdgeKeywords = EdgeKeywords(
    influenceProb: Option<real>,
    trustStrength: Option<real>,
    interactionFrequency: Option<real>)

  /** The dataclass constructor: a given keyword wins, otherwise the field default. */
  function MakeNodeAttributes(n: Node, kw: NodeKeywords): (a: NodeAttributes)
    ensures a.nodeId == n
    ensures a.cost == (if kw.cost.Some? then kw.cost.value else DefaultCost)
    ensures a.demographicGroup == (if kw.demographicGroup.Some? then kw.demographicGroup.value else DefaultGroup)
    ensures a.healthLiteracy == (if kw.healthLiteracy.Some? then kw.healthLiteracy.value else 0.5)
    ensures a.trustLevel == (if kw.trustLevel.Some? then kw.trustLevel.value else 0.5)
    ensures a.reachPotential == (if kw.reachPotential.Some? then kw.reachPotential.value else 1.0)
  {
    NodeAttributes(n, kw.cost.GetOr(DefaultCost), kw.demographicGroup.GetOr(DefaultGroup),
      kw.healthLiteracy.GetOr(0.5), kw.trustLevel.GetOr(0.5), kw.reachPotential.GetOr(1.0))
  }

  function MakeEdgeAttributes(s: Node, t: Node, kw: EdgeKeywords): (a: EdgeAttributes)
    ensures a.source == s && a.target == t
    ensures a.influenceProb == (if kw.influenceProb.Some? then kw.influenceProb.value else DefaultInfluenceProb)
    ensures a.trustStrength == (if kw.trustStrength.Some? then kw.trustStrength.value else 0.5)
    ensures a.interactionFrequency == (if kw.interactionFrequency.Some? then kw.interactionFrequency.value else 1.0)
  {
    EdgeAttributes(s, t, kw.influenceProb.GetOr(DefaultInfluenceProb), kw.trustStrength.GetOr(0.5),
      kw.interactionFrequency.GetOr(1.0))
  }

  /** The nodes of `order` whose record names group `g`, in the order of `order`. */
  function Members(order: seq<Node>, attrs: map<Node, NodeAttributes>, g: string): (m: seq<Node>)
    requires forall i :: 0 <= i < |order| ==> order[i] in attrs
    ensures forall i :: 0 <= i < |m| ==> m[i] in order && attrs[m[i]].demographicGroup == g
    ensures |m| <= |order|
  {
    if order == [] then []
    else
      var last := order[|order| - 1];
      Members(order[..|order| - 1], attrs, g) + (if attrs[last].demographicGroup == g then [last] else [])
  }

  class HealthNetwork {
    /** The wrapped directed graph, seen only as its node and edge sets. */
    var nodes: set<Node>
    var edges: set<(Node, Node)>
    /** `_node_attrs`, with `nodeOrder` its key order (dict insertion order). */
    var nodeAttrs: map<Node, NodeAttributes>
    var nodeOrder: seq<Node>
    /** `_edge_attrs`, keyed by the directed pair. */
    var edgeAttrs: map<(Node, Node), EdgeAttributes>

    ghost predicate Valid()
      reads this
    {
      && Distinct(nodeOrder)
      && (forall i :: 0 <= i < |nodeOrder| ==> nodeOrder[i] in nodeAttrs)
      && (forall n :: n in nodeAttrs ==> n in nodeOrder && nodeAttrs[n].nodeId == n && n in nodes)
      && (forall k :: k in edgeAttrs ==> edgeAttrs[k].source == k.0 && edgeAttrs[k].target == k.1 && k in edges)
      && (forall k :: k in edges ==> k.0 in nodes && k.1 in nodes)
    }

    /** `HealthNetwork(graph)`: the given graph (an empty one by default) and no attribute records. */
    constructor (graphNodes: set<Node>, graphEdges: set<(Node, Node)>)
      requires forall k :: k in graphEdges ==> k.0 in graphNodes && k.1 in graphNodes
      ensures Valid()
      ensures nodes == graphNodes && edges == graphEdges
      ensures nodeAttrs == map[] && nodeOrder == [] && edgeAttrs == map[]
    {
      nodes, edges := graphNodes, graphEdges;
      nodeAttrs, nodeOrder, edgeAttrs := map[], [], map[];
    }

    /** `get_node_cost`: the recorded cost, and the default 1.0 for a node without a record. */
    function NodeCost(n: Node): (c: real)
      reads this
      ensures n in nodeAttrs ==> c == nodeAttrs[n].cost
      ensures n !in nodeAttrs ==> c == DefaultCost
    {
      if n in nodeAttrs then nodeAttrs[n].cost else DefaultCost
    }

    /** `get_edge_probability`: the recorded probability of the directed pair, and 0.1 without a record. */
    function EdgeProbability(s: Node, t: Node): (p: real)
      reads this
      ensures (s, t) in edgeAttrs ==> p == edgeAttrs[(s, t)].influenceProb
      ensures (s, t) !in edgeAttrs ==> p == DefaultInfluenceProb
    {
      if (s, t) in edgeAttrs then edgeAttrs[(s, t)].influenceProb else DefaultInfluenceProb
    }

    /**
     * `add_node(n, **kw)`: adds `n` to the graph and replaces the record of `n`, and only
     * that record; a first record for `n` goes last in the key order.
     */
    method AddNode(n: Node, kw: NodeKeywords)
      requires Valid()
      modifies this
      ensures Valid()
      ensures nodes == old(nodes) + {n} && edges == old(edges)
      ensures nodeAttrs == old(nodeAttrs)[n := MakeNodeAttributes(n, kw)]
      ensures nodeOrder == if n in old(nodeAttrs) then old(nodeOrder) else old(nodeOrder) + [n]
      ensures edgeAttrs == old(edgeAttrs)
      ensures NodeCost(n) == MakeNodeAttributes(n, kw).cost
      ensures forall m :: m != n ==> NodeCost(m) == old(NodeCost(m))
      ensures forall s, t :: EdgeProbability(s, t) == old(EdgeProbability(s, t))
    {
      nodes := nodes + {n};
      if n !in nodeAttrs {
        assert n !in nodeOrder;
        nodeOrder := nodeOrder + [n];
      }
      nodeAttrs := nodeAttrs[n := MakeNodeAttributes(n, kw)];
    }

    /**
     * `add_edge(s, t, **kw)`: adds the edge (and its endpoints) to the graph and replaces
     * the record of the pair (s, t), and only that record; node records are untouched.
     */
    method AddEdge(s: Node, t: Node, kw: EdgeKeywords)
      requires Valid()
      modifies this
      ensures Valid()
      ensures nodes == old(nodes) + {s, t} && edges == old(edges) + {(s, t)}
      ensures edgeAttrs == old(edgeAttrs)[(s, t) := MakeEdgeAttributes(s, t, kw)]
      ensures nodeAttrs == old(nodeAttrs) && nodeOrder == old(nodeOrder)
      ensures EdgeProbability(s, t) == MakeEdgeAttributes(s, t, kw).influenceProb
      ensures forall u, v :: (u, v) != (s, t) ==> EdgeProbability(u, v) == old(EdgeProbability(u, v))
      ensures forall m :: NodeCost(m) == old(NodeCost(m))
    {
      nodes := nodes + {s, t};
      edges := edges + {(s, t)};
      edgeAttrs := edgeAttrs[(s, t) := MakeEdgeAttributes(s, t, kw)];
    }

    /**
     * `get_demographic_groups`: one list per group that some record names, holding the
     * recorded nodes of that group in record insertion order.
     */
    method GetDemographicGroups() returns (groups: map<string, seq<Node>>)
      requires Valid()
      ensures forall g :: g in groups <==> Members(nodeOrder, nodeAttrs, g) != []
      ensures forall g :: g in groups ==> groups[g] == Members(nodeOrder, nodeAttrs, g)
    {
      groups := map[];
      for i := 0 to |nodeOrder|
        invariant forall g :: g in groups <==> Members(nodeOrder[..i], nodeAttrs, g) != []
        invariant forall g :: g in groups ==> groups[g] == Members(nodeOrder[..i], nodeAttrs, g)
      {
        var nodeId := nodeOrder[i];
        var group := nodeAttrs[nodeId].demographicGroup;
        assert nodeOrder[..i + 1][..i] == nodeOrder[..i];
        if group !in groups {
          groups := groups[group := []];
        }
        groups := groups[group := groups[group] + [nodeId]];
      }
      assert nodeOrder[..|nodeOrder|] == nodeOrder;
    }
  }

  // ------------------------------------------------------ grouping facts

  lemma {:induction false} MembersHas(order: seq<Node>, attrs: map<Node, NodeAttributes>, g: string, n: Node)
    requires forall i :: 0 <= i < |order| ==> order[i] in attrs
    ensures n in Members(order, attrs, g) <==> n in order && attrs[n].demographicGroup == g
    decreases |order|
  {
    if order != [] {
      var front := order[..|order| - 1];
      MembersHas(front, attrs, g, n);
      assert order == front + [order[|order| - 1]];
    }
  }

  lemma {:induction false} MembersDistinct(order: seq<Node>, attrs: map<Node, NodeAttributes>, g: string)
    requires forall i :: 0 <= i < |order| ==> order[i] in attrs
    requires Distinct(order)
    ensures Distinct(Members(order, attrs, g))
    decreases |order|
  {
    if order != [] {
      var front := order[..|order| - 1];
      var last := order[|order| - 1];
      MembersDistinct(front, attrs, g);
      MembersHas(front, attrs, g, last);
    }
  }

  /**
   * The grouping is a partition of the recorded nodes: a recorded node lies in exactly
   * the list of its own group, once, and a node without a record lies in no list.
   */
  lemma GroupsPartition(order: seq<Node>, attrs: map<Node, NodeAttributes>, n: Node, g: string)
    requires Distinct(order)
    requires forall i :: 0 <= i < |order| ==> order[i] in attrs
    requires forall m :: m in attrs ==> m in order
    ensures n in Members(order, attrs, g) <==> n in attrs && attrs[n].demographicGroup == g
    ensures Distinct(Members(order, attrs, g))
  {
    MembersHas(order, attrs, g, n);
    MembersDistinct(order, attrs, g);
  }

  /** A node added without a group keyword is filed under "general". */
  lemma AddedWithoutGroup(order: seq<Node>, attrs: map<Node, NodeAttributes>, n: Node, kw: NodeKeywords)
    requires kw.demographicGroup.None?
    requires Distinct(order) && n in order
    requires forall i :: 0 <= i < |order| ==> order[i] in attrs
    requires forall m :: m in attrs ==> m in order
    ensures n in Members(order, attrs[n := MakeNodeAttributes(n, kw)], DefaultGroup)
  {
    MembersHas(order, attrs[n := MakeNodeAttributes(n, kw)], DefaultGroup, n);
  }
}
