/**
 * The diffusion kernel: one reverse breadth-first traversal from a root, with one
 * coin flip per not-yet-visited predecessor (`_generate_single_rr_set_ic`, and the
 * identical `_generate_single_rr_set_lt`).
 *
 * The traversal is specified by functions over its discovery order: `order` lists
 * every node ever enqueued, in enqueue order, and `head` is the number of pops so
 * far, so the source's queue is `order[head..]` and its visited set is the set of
 * `order`.
 */
module Kernel {
  import opened Wrappers
  import opened Graphs
  import opened EdgeProbabilities
  import opened RRSets

  /** `draw(seed, k)` is the k-th value of `np.random.random()` after seeding with `seed`. */
  type DrawStream = (int, nat) -> real

  datatype KernelError = WorkerSeedOutOfRange(seed: int) | NodeNotInGraph(node: Node)

  /** numpy's legacy `np.random.seed` accepts seeds in [0, 2^32) only. */
  const NumpySeedLimit: int := 0x1_0000_0000

  predicate SeedInRange(seed: int) {
    0 <= seed < NumpySeedLimit
  }

  /** Discovery order so far and the number of draws consumed from the stream. */
  datatype Progress = Progress(order: seq<Node>, draws: nat)

  /** The inner loop: the predecessors `preds` of `current`, examined in order. */
  function Scan(probs: ProbTable, draw: DrawStream, seed: int, current: Node,
                preds: seq<Node>, order: seq<Node>, draws: nat): (p: Progress)
    ensures |order| <= |p.order| && p.order[..|order|] == order
    ensures |p.order| > |order| ==> p.order[|order|] in preds && p.order[|order|] !in order
    ensures draws + (|p.order| - |order|) <= p.draws <= draws + |preds|
    decreases |preds|
  {
    if preds == [] then Progress(order, draws)
    else
      var pred := preds[0];
      var edgeProb := Lookup(probs, pred, current);
      // The visited test comes first: a visited predecessor consumes no draw.
      if pred in order then Scan(probs, draw, seed, current, preds[1..], order, draws)
      else if draw(seed, draws) < edgeProb then Scan(probs, draw, seed, current, preds[1..], order + [pred], draws + 1)
      else Scan(probs, draw, seed, current, preds[1..], order, draws + 1)
  }

  /** The outer loop: pop `order[head]`, scan its predecessors, until the queue is empty. */
  function Explore(g: Graph, probs: ProbTable, draw: DrawStream, seed: int,
                   order: seq<Node>, head: nat, draws: nat): (p: Progress)
    requires head <= |order|
    requires forall x :: x in order ==> x in g.nodes
    ensures |order| <= |p.order| && p.order[..|order|] == order
    ensures forall x :: x in p.order ==> x in g.nodes
    decreases Elems(g.nodes) - Elems(order), |order| - head
  {
    if head == |order| then Progress(order, draws)
    else
      var current := order[head];
      var step := Scan(probs, draw, seed, current, Predecessors(g, current), order, draws);
      assert forall x :: x in step.order ==> x in g.nodes by {
        ScanAppends(probs, draw, seed, current, Predecessors(g, current), order, draws, step);
        forall x | x in step.order ensures x in g.nodes {
          var i :| 0 <= i < |step.order| && step.order[i] == x;
          if i < |order| { assert step.order[..|order|][i] == x; }
          else { assert x in Predecessors(g, current); }
        }
      }
      assert |step.order| > |order| ==> step.order[|order|] in Elems(g.nodes) - Elems(order);
      assert |step.order| == |order| ==> step.order == order;
      Explore(g, probs, draw, seed, step.order, head + 1, step.draws)
  }

  /** The whole traversal from `root`: visited = {root}, queue = [root], no draws yet. */
  function Traverse(g: Graph, probs: ProbTable, draw: DrawStream, root: Node, seed: int): (p: Progress)
    requires root in g.nodes
    ensures |p.order| >= 1 && p.order[0] == root
  {
    var p := Explore(g, probs, draw, seed, [root], 0, 0);
    assert p.order[..1] == [root];
    p
  }

  /**
   * The RR set a kernel returns for `root` and `seed`: seeding numpy fails first for a
   * seed outside [0, 2^32); then networkx raises for a missing root.
   */
  function KernelResult(g: Graph, probs: ProbTable, draw: DrawStream, root: Node, seed: int): (r: Result<RRSet, KernelError>)
    ensures r.Success? <==> SeedInRange(seed) && root in g.nodes
    ensures !SeedInRange(seed) ==> r == Failure(WorkerSeedOutOfRange(seed))
    ensures SeedInRange(seed) && root !in g.nodes ==> r == Failure(NodeNotInGraph(root))
    ensures r.Success? ==> r.value.root == root && Sound(r.value, Elems(g.nodes))
  {
    if !SeedInRange(seed) then Failure(WorkerSeedOutOfRange(seed))
    else if root !in g.nodes then Failure(NodeNotInGraph(root))
    else
      var p := Traverse(g, probs, draw, root, seed);
      Success(MakeRRSet(Elems(p.order), root, |p.order|))
  }

  /** Every node after the first was discovered as a predecessor of an earlier node. */
  predicate Grounded(g: Graph, order: seq<Node>) {
    forall i :: 0 < i < |order| ==> exists j :: 0 <= j < i && HasEdge(g, order[i], order[j])
  }

  /** Sum of the in-degrees of the nodes of `s`: the number of edges into them. */
  function InDegreeSum(g: Graph, s: seq<Node>): nat {
    if s == [] then 0 else |Predecessors(g, s[0])| + InDegreeSum(g, s[1..])
  }

  /** Every node a scan appends is one of the scanned predecessors, and new to the order. */
  lemma {:induction false} ScanAppends(probs: ProbTable, draw: DrawStream, seed: int, current: Node,
                                       preds: seq<Node>, order: seq<Node>, draws: nat, p: Progress)
    requires p == Scan(probs, draw, seed, current, preds, order, draws)
    ensures forall i :: |order| <= i < |p.order| ==> p.order[i] in preds && p.order[i] !in p.order[..i]
    decreases |preds|
  {
    if preds != [] {
      var pred := preds[0];
      assert forall x :: x in preds[1..] ==> x in preds;
      if pred in order {
        ScanAppends(probs, draw, seed, current, preds[1..], order, draws, p);
      } else if draw(seed, draws) < Lookup(probs, pred, current) {
        ScanAppends(probs, draw, seed, current, preds[1..], order + [pred], draws + 1, p);
        assert p.order[..|order| + 1] == order + [pred];
        forall i | |order| <= i < |p.order| ensures p.order[i] in preds && p.order[i] !in p.order[..i] {
          if i == |order| {
            assert p.order[i] == (order + [pred])[i] == pred;
            assert p.order[..i] == order;
          }
        }
      } else {
        ScanAppends(probs, draw, seed, current, preds[1..], order, draws + 1, p);
      }
    }
  }

  lemma ScanKeepsDistinct(probs: ProbTable, draw: DrawStream, seed: int, current: Node,
                          preds: seq<Node>, order: seq<Node>, draws: nat)
    requires Distinct(order)
    ensures Distinct(Scan(probs, draw, seed, current, preds, order, draws).order)
  {
    var p := Scan(probs, draw, seed, current, preds, order, draws);
    ScanAppends(probs, draw, seed, current, preds, order, draws, p);
    forall i, j | 0 <= i < j < |p.order| ensures p.order[i] != p.order[j] {
      if j < |order| {
        assert p.order[i] == p.order[..|order|][i] && p.order[j] == p.order[..|order|][j];
      } else {
        assert p.order[i] == p.order[..j][i];
      }
    }
  }

  lemma ScanKeepsGrounded(g: Graph, probs: ProbTable, draw: DrawStream, seed: int, current: Node,
                          preds: seq<Node>, order: seq<Node>, draws: nat, c: nat)
    requires c < |order| && order[c] == current
    requires forall x :: x in preds ==> HasEdge(g, x, current)
    requires Grounded(g, order)
    ensures Grounded(g, Scan(probs, draw, seed, current, preds, order, draws).order)
  {
    var p := Scan(probs, draw, seed, current, preds, order, draws);
    ScanAppends(probs, draw, seed, current, preds, order, draws, p);
    forall i | 0 < i < |p.order| ensures exists j :: 0 <= j < i && HasEdge(g, p.order[i], p.order[j]) {
      if i < |order| {
        assert p.order[i] == p.order[..|order|][i];
        var j :| 0 <= j < i && HasEdge(g, order[i], order[j]);
        assert p.order[j] == p.order[..|order|][j];
      } else {
        assert p.order[c] == p.order[..|order|][c];
        assert HasEdge(g, p.order[i], p.order[c]);
      }
    }
  }

  /** Each node is enqueued at most once. */
  lemma {:induction false} ExploreKeepsDistinct(g: Graph, probs: ProbTable, draw: DrawStream, seed: int,
                                                order: seq<Node>, head: nat, draws: nat)
    requires head <= |order| && (forall x :: x in order ==> x in g.nodes)
    requires Distinct(order)
    ensures Distinct(Explore(g, probs, draw, seed, order, head, draws).order)
    decreases Elems(g.nodes) - Elems(order), |order| - head
  {
    if head < |order| {
      var step := Scan(probs, draw, seed, order[head], Predecessors(g, order[head]), order, draws);
      ScanKeepsDistinct(probs, draw, seed, order[head], Predecessors(g, order[head]), order, draws);
      ExploreFirst(g, probs, draw, seed, order, head, draws);
      ExploreKeepsDistinct(g, probs, draw, seed, step.order, head + 1, step.draws);
    }
  }

  /** Every non-root member was added along an edge into an earlier member. */
  lemma {:induction false} ExploreKeepsGrounded(g: Graph, probs: ProbTable, draw: DrawStream, seed: int,
                                                order: seq<Node>, head: nat, draws: nat)
    requires head <= |order| && (forall x :: x in order ==> x in g.nodes)
    requires Grounded(g, order)
    ensures Grounded(g, Explore(g, probs, draw, seed, order, head, draws).order)
    decreases Elems(g.nodes) - Elems(order), |order| - head
  {
    if head < |order| {
      var step := Scan(probs, draw, seed, order[head], Predecessors(g, order[head]), order, draws);
      ScanKeepsGrounded(g, probs, draw, seed, order[head], Predecessors(g, order[head]), order, draws, head);
      ExploreFirst(g, probs, draw, seed, order, head, draws);
      ExploreKeepsGrounded(g, probs, draw, seed, step.order, head + 1, step.draws);
    }
  }

  /**
   * Every newly enqueued node cost exactly one draw, and every pop of `x` costs at most
   * one draw per edge into `x`.
   */
  lemma {:induction false} ExploreDraws(g: Graph, probs: ProbTable, draw: DrawStream, seed: int,
                                        order: seq<Node>, head: nat, draws: nat)
    requires head <= |order| && (forall x :: x in order ==> x in g.nodes)
    ensures var p := Explore(g, probs, draw, seed, order, head, draws);
      draws + (|p.order| - |order|) <= p.draws <= draws + InDegreeSum(g, p.order[head..])
    decreases Elems(g.nodes) - Elems(order), |order| - head
  {
    var p := Explore(g, probs, draw, seed, order, head, draws);
    if head == |order| {
      assert p.order[head..] == [];
    } else {
      var step := Scan(probs, draw, seed, order[head], Predecessors(g, order[head]), order, draws);
      ExploreFirst(g, probs, draw, seed, order, head, draws);
      ExploreDraws(g, probs, draw, seed, step.order, head + 1, step.draws);
      assert p == Explore(g, probs, draw, seed, step.order, head + 1, step.draws);
      assert p.order[head] == p.order[..|order|][head] == order[head];
      assert p.order[head..][1..] == p.order[head + 1..];
    }
  }

  /** One step of the inner loop, on the suffix `preds[i..]`. */
  lemma ScanFirst(probs: ProbTable, draw: DrawStream, seed: int, current: Node,
                  preds: seq<Node>, i: nat, order: seq<Node>, draws: nat)
    requires i < |preds|
    ensures var pred := preds[i];
      Scan(probs, draw, seed, current, preds[i..], order, draws) ==
        if pred in order then Scan(probs, draw, seed, current, preds[i + 1..], order, draws)
        else if draw(seed, draws) < Lookup(probs, pred, current) then
          Scan(probs, draw, seed, current, preds[i + 1..], order + [pred], draws + 1)
        else Scan(probs, draw, seed, current, preds[i + 1..], order, draws + 1)
  {
    assert preds[i..][0] == preds[i] && preds[i..][1..] == preds[i + 1..];
  }

  /** The outer loop stops once every enqueued node has been popped. */
  lemma ExploreDone(g: Graph, probs: ProbTable, draw: DrawStream, seed: int,
                    order: seq<Node>, head: nat, draws: nat)
    requires head == |order| && (forall x :: x in order ==> x in g.nodes)
    ensures Explore(g, probs, draw, seed, order, head, draws) == Progress(order, draws)
  {
  }

  /** One step of the outer loop: popping `order[head]` and scanning its predecessors. */
  lemma ExploreFirst(g: Graph, probs: ProbTable, draw: DrawStream, seed: int,
                     order: seq<Node>, head: nat, draws: nat)
    requires head < |order| && (forall x :: x in order ==> x in g.nodes)
    ensures var step := Scan(probs, draw, seed, order[head], Predecessors(g, order[head]), order, draws);
      && (forall x :: x in step.order ==> x in g.nodes)
      && Explore(g, probs, draw, seed, order, head, draws) == Explore(g, probs, draw, seed, step.order, head + 1, step.draws)
      && (Elems(g.nodes) - Elems(step.order) < Elems(g.nodes) - Elems(order) || step.order == order)
  {
    var step := Scan(probs, draw, seed, order[head], Predecessors(g, order[head]), order, draws);
    ScanAppends(probs, draw, seed, order[head], Predecessors(g, order[head]), order, draws, step);
    assert forall x :: x in step.order ==> x in g.nodes by {
      forall x | x in step.order ensures x in g.nodes {
        var i :| 0 <= i < |step.order| && step.order[i] == x;
        if i < |order| { assert step.order[..|order|][i] == x; }
      }
    }
    assert |step.order| > |order| ==> step.order[|order|] in Elems(g.nodes) - Elems(order);
    assert |step.order| == |order| ==> step.order == order;
  }

  /** A scan whose predecessors are all visited changes nothing and consumes no draw. */
  lemma {:induction false} ScanVisitedOnly(probs: ProbTable, draw: DrawStream, seed: int, current: Node,
                                           preds: seq<Node>, order: seq<Node>, draws: nat)
    requires forall x :: x in preds ==> x in order
    ensures Scan(probs, draw, seed, current, preds, order, draws) == Progress(order, draws)
    decreases |preds|
  {
    if preds != [] {
      ScanVisitedOnly(probs, draw, seed, current, preds[1..], order, draws);
    }
  }

  /** How many of `preds` are not in `order`. */
  function CountNotIn(order: seq<Node>, preds: seq<Node>): (c: nat)
    ensures c <= |preds|
  {
    if preds == [] then 0 else (if preds[0] in order then 0 else 1) + CountNotIn(order, preds[1..])
  }

  /** Enqueueing a node that is not among `preds` does not change how many of them are unvisited. */
  lemma {:induction false} CountNotInAppend(order: seq<Node>, x: Node, preds: seq<Node>)
    requires x !in preds
    ensures CountNotIn(order + [x], preds) == CountNotIn(order, preds)
    decreases |preds|
  {
    if preds != [] {
      assert preds[0] in order + [x] <==> preds[0] in order;
      CountNotInAppend(order, x, preds[1..]);
    }
  }

  /**
   * The inner loop consumes exactly one draw per predecessor that was unvisited when the
   * scan began, and none for the visited ones, whatever the outcomes of the draws.
   */
  lemma {:induction false} ScanDrawsExact(probs: ProbTable, draw: DrawStream, seed: int, current: Node,
                                          preds: seq<Node>, order: seq<Node>, draws: nat)
    requires Distinct(preds)
    ensures Scan(probs, draw, seed, current, preds, order, draws).draws == draws + CountNotIn(order, preds)
    decreases |preds|
  {
    if preds != [] {
      var pred, tail := preds[0], preds[1..];
      assert Distinct(tail) by {
        forall i, j | 0 <= i < j < |tail| ensures tail[i] != tail[j] {
          assert tail[i] == preds[i + 1] && tail[j] == preds[j + 1];
        }
      }
      assert pred !in tail;
      ScanDrawsExact(probs, draw, seed, current, tail, order, draws + 1);
      ScanDrawsExact(probs, draw, seed, current, tail, order + [pred], draws + 1);
      ScanDrawsExact(probs, draw, seed, current, tail, order, draws);
      CountNotInAppend(order, pred, tail);
    }
  }

  /**
   * One pop of the outer loop consumes exactly one draw per predecessor of the popped node
   * that is unvisited at that moment, and the traversal continues from the scanned state.
   */
  lemma ExploreStepDraws(g: Graph, probs: ProbTable, draw: DrawStream, seed: int,
                         order: seq<Node>, head: nat, draws: nat)
    requires head < |order| && (forall x :: x in order ==> x in g.nodes)
    ensures var preds := Predecessors(g, order[head]);
      var step := Scan(probs, draw, seed, order[head], preds, order, draws);
      && step.draws == draws + CountNotIn(order, preds)
      && Explore(g, probs, draw, seed, order, head, draws) == Explore(g, probs, draw, seed, step.order, head + 1, step.draws)
  {
    PredecessorsDistinct(g, order[head]);
    ScanDrawsExact(probs, draw, seed, order[head], Predecessors(g, order[head]), order, draws);
    ExploreFirst(g, probs, draw, seed, order, head, draws);
  }

  /** The traversal pops each member once, and there are at most |V| members. */
  lemma TraverseSize(g: Graph, probs: ProbTable, draw: DrawStream, root: Node, seed: int)
    requires root in g.nodes
    ensures var p := Traverse(g, probs, draw, root, seed);
      |Elems(p.order)| == |p.order| <= |g.nodes|
  {
    var p := Traverse(g, probs, draw, root, seed);
    ExploreKeepsDistinct(g, probs, draw, seed, [root], 0, 0);
    DistinctCard(p.order);
    DistinctCard(g.nodes);
    SubsetCard(Elems(p.order), Elems(g.nodes));
  }

  /**
   * What the traversal from `root` produces: its discovery order starts at the root,
   * lists each member once, is grounded in edges of the graph, holds at most |V| nodes
   * (so the loop pops at most |V| times), its set is the RR set, and the draws consumed
   * lie between |RR set| - 1 and the number of edges into the RR set.
   */
  lemma TraverseFacts(g: Graph, probs: ProbTable, draw: DrawStream, root: Node, seed: int)
    requires root in g.nodes
    ensures var p := Traverse(g, probs, draw, root, seed);
      && p.order[0] == root
      && Distinct(p.order)
      && Grounded(g, p.order)
      && Elems(p.order) <= Elems(g.nodes)
      && |p.order| <= |g.nodes|
      && (SeedInRange(seed) ==> KernelResult(g, probs, draw, root, seed).value.nodes == Elems(p.order))
      && (SeedInRange(seed) ==> KernelResult(g, probs, draw, root, seed).value.size == |p.order|)
      && |p.order| - 1 <= p.draws <= InDegreeSum(g, p.order)
  {
    var p := Traverse(g, probs, draw, root, seed);
    ExploreKeepsDistinct(g, probs, draw, seed, [root], 0, 0);
    ExploreKeepsGrounded(g, probs, draw, seed, [root], 0, 0);
    ExploreDraws(g, probs, draw, seed, [root], 0, 0);
    assert p.order[0..] == p.order;
    DistinctCard(p.order);
    DistinctCard(g.nodes);
    SubsetCard(Elems(p.order), Elems(g.nodes));
  }

  /**
   * The inner loop of both kernels: every predecessor of `current` not yet in the RR
   * set flips one coin with the edge's probability and, on success, joins the set and
   * the back of the queue.
   */
  method ScanPredecessors(probs: ProbTable, draw: DrawStream, seed: int, current: Node, preds: seq<Node>,
                          rrSet0: set<Node>, queue0: seq<Node>, k0: nat, ghost order0: seq<Node>)
    returns (rrSet: set<Node>, queue: seq<Node>, k: nat, ghost order: seq<Node>)
    requires rrSet0 == Elems(order0)
    ensures Progress(order, k) == Scan(probs, draw, seed, current, preds, order0, k0)
    ensures rrSet == Elems(order) && queue == queue0 + order[|order0|..]
  {
    rrSet, queue, k, order := rrSet0, queue0, k0, order0;
    var i := 0;
    while i < |preds|
      invariant i <= |preds|
      invariant |order0| <= |order| && order[..|order0|] == order0
      invariant rrSet == Elems(order) && queue == queue0 + order[|order0|..]
      invariant Scan(probs, draw, seed, current, preds[i..], order, k) == Scan(probs, draw, seed, current, preds, order0, k0)
    {
      var predecessor := preds[i];
      var edgeProb := Lookup(probs, predecessor, current);
      ScanFirst(probs, draw, seed, current, preds, i, order, k);
      if predecessor !in rrSet {
        var u := draw(seed, k);
        k := k + 1;
        if u < edgeProb {
          ElemsAppend(order, predecessor);
          AppendSlices(order, predecessor, |order0|, |order0|);
          AppendTail(queue0, order, |order0|, predecessor);
          rrSet := rrSet + {predecessor};
          queue := queue + [predecessor];
          order := order + [predecessor];
        }
      }
      i := i + 1;
    }
    assert preds[i..] == [];
  }

  /**
   * One RR set for `root`, grown with the private draw stream of `seed`: a FIFO queue
   * and a visited set updated in place. This is the body of both the IC and the LT
   * kernel. `pops` counts the queue pops.
   */
  method Sample(g: Graph, probs: ProbTable, draw: DrawStream, root: Node, seed: int)
    returns (r: Result<RRSet, KernelError>, ghost pops: nat)
    ensures r == KernelResult(g, probs, draw, root, seed)
    ensures r.Success? ==> pops == r.value.size <= |g.nodes|
  {
    if !SeedInRange(seed) {
      // np.random.seed raises ValueError
      return Failure(WorkerSeedOutOfRange(seed)), 0;
    }
    if root !in g.nodes {
      // networkx raises for the predecessors of a node it does not hold
      return Failure(NodeNotInGraph(root)), 0;
    }
    var rrSet: set<Node> := {root};
    var queue: seq<Node> := [root];
    var k: nat := 0;
    ghost var order: seq<Node> := [root];
    pops := 0;
    while queue != []
      invariant pops <= |order| && queue == order[pops..] && rrSet == Elems(order)
      invariant forall x :: x in order ==> x in g.nodes
      invariant Explore(g, probs, draw, seed, order, pops, k) == Explore(g, probs, draw, seed, [root], 0, 0)
      decreases Elems(g.nodes) - rrSet, |queue|
    {
      var current := queue[0];
      queue := queue[1..];
      ghost var order0, k0 := order, k;
      rrSet, queue, k, order := ScanPredecessors(probs, draw, seed, current, Predecessors(g, current), rrSet, queue, k, order);
      ExploreFirst(g, probs, draw, seed, order0, pops, k0);
      ExtendedTail(order, order0, pops + 1);
      pops := pops + 1;
    }
    ExploreDone(g, probs, draw, seed, order, pops, k);
    TraverseSize(g, probs, draw, root, seed);
    r := Success(MakeRRSet(rrSet, root, |rrSet|));
  }
}
