/** The RR-set value object. */
module RRSets {
  import opened Graphs

  /** One reverse-reachable set: its nodes, the root it was grown from, and its size. */
  datatype RRSet = RRSet(nodes: set<Node>, root: Node, size: int)

  /**
   * The dataclass constructor: whatever size the caller passes, `__post_init__`
   * replaces it by the number of nodes.
   */
  function MakeRRSet(nodes: set<Node>, root: Node, size: int): (r: RRSet)
    ensures r.nodes == nodes && r.root == root
    ensures r.size == |nodes|
  {
    RRSet(nodes, root, |nodes|)
  }

  /** What every RR set produced by a kernel on graph nodes `vs` satisfies. */
  predicate Sound(r: RRSet, vs: set<Node>) {
    r.root in r.nodes && r.nodes <= vs && r.size == |r.nodes|
  }
}
