/**
 * Queries over a pool of RR sets: `estimate_influence_spread`, `get_node_coverage`
 * and `get_statistics`.
 */
module Estimation {
  import opened Wrappers
  import opened Graphs
  import opened RRSets
  import opened Generation

  // ---------------------------------------------------------------- spread

  /** Number of RR sets in `pool` that share a node with `seeds`. */
  function Covered(pool: seq<RRSet>, seeds: set<Node>): (c: nat)
    ensures c <= |pool|
  {
    if pool == [] then 0
    else Covered(pool[..|pool| - 1], seeds) + (if pool[|pool| - 1].nodes * seeds != {} then 1 else 0)
  }

  /** `(covered / total) * n` over the reals. */
  function Scale(covered: nat, total: nat, n: nat): (e: real)
    requires 0 < total && covered <= total
    ensures 0.0 <= e <= n as real
  {
    var ratio := covered as real / total as real;
    assert 0.0 <= ratio <= 1.0;
    ScaleBound(ratio, n as real);
    ratio * n as real
  }

  lemma ScaleBound(x: real, n: real)
    requires 0.0 <= x <= 1.0 && 0.0 <= n
    ensures 0.0 <= x * n <= n
  {
  }

  /** covered / |pool| * n, and 0 for an empty pool. */
  function Spread(pool: seq<RRSet>, seeds: set<Node>, numNodes: nat): (e: real)
    ensures 0.0 <= e <= numNodes as real
    ensures pool == [] ==> e == 0.0
  {
    if |pool| == 0 then 0.0 else Scale(Covered(pool, seeds), |pool|, numNodes)
  }

  /** `estimate_influence_spread(seed_set, rr_sets)`: counts covered RR sets in a loop. */
  method EstimateInfluenceSpread(gen: Generator, seedSet: set<Node>, rrSets: seq<RRSet>) returns (e: real)
    ensures e == Spread(rrSets, seedSet, gen.numNodes)
    ensures 0.0 <= e <= gen.numNodes as real
  {
    if |rrSets| == 0 {
      return 0.0;
    }
    var coveredSets := 0;
    for i := 0 to |rrSets|
      invariant coveredSets == Covered(rrSets[..i], seedSet)
    {
      assert rrSets[..i + 1][..i] == rrSets[..i];
      if rrSets[i].nodes * seedSet != {} {
        coveredSets := coveredSets + 1;
      }
    }
    assert rrSets[..|rrSets|] == rrSets;
    e := (coveredSets as real / |rrSets| as real) * gen.numNodes as real;
  }

  /** A larger seed set intersects every RR set the smaller one does. */
  lemma {:induction false} CoveredMonotone(pool: seq<RRSet>, small: set<Node>, large: set<Node>)
    requires small <= large
    ensures Covered(pool, small) <= Covered(pool, large)
    decreases |pool|
  {
    if pool != [] {
      CoveredMonotone(pool[..|pool| - 1], small, large);
    }
  }

  /** For a fixed pool the estimate does not decrease when the seed set grows. */
  lemma SpreadMonotone(pool: seq<RRSet>, small: set<Node>, large: set<Node>, numNodes: nat)
    requires small <= large
    ensures Spread(pool, small, numNodes) <= Spread(pool, large, numNodes)
  {
    if |pool| > 0 {
      CoveredMonotone(pool, small, large);
      ScaleMonotone(Covered(pool, small), Covered(pool, large), |pool|, numNodes);
    }
  }

  lemma ScaleMonotone(a: nat, b: nat, total: nat, n: nat)
    requires a <= b <= total && 0 < total
    ensures Scale(a, total, n) <= Scale(b, total, n)
  {
    var t, m := total as real, n as real;
    var x, y := a as real / t, b as real / t;
    DivMonotone(a as real, b as real, t);
    MulMonotone(x, y, m);
    calc {
      Scale(a, total, n);
    ==
      x * m;
    <=
      y * m;
    ==
      Scale(b, total, n);
    }
  }

  lemma ScaleFull(total: nat, n: nat)
    requires 0 < total
    ensures Scale(total, total, n) == n as real
  {
    var t := total as real;
    assert Scale(total, total, n) == (t / t) * n as real;
    assert t / t == 1.0;
  }

  lemma DivMonotone(x: real, y: real, t: real)
    requires x <= y && t > 0.0
    ensures x / t <= y / t
  {
  }

  lemma MulMonotone(x: real, y: real, n: real)
    requires x <= y && n >= 0.0
    ensures x * n <= y * n
  {
  }

  /** A seed set meeting every RR set of a non-empty pool is estimated to reach all n nodes. */
  lemma {:induction false} SpreadOfFullCover(pool: seq<RRSet>, seeds: set<Node>, numNodes: nat)
    requires pool != []
    requires forall i :: 0 <= i < |pool| ==> pool[i].nodes * seeds != {}
    ensures Spread(pool, seeds, numNodes) == numNodes as real
  {
    CoveredAll(pool, seeds);
    ScaleFull(|pool|, numNodes);
  }

  lemma {:induction false} CoveredAll(pool: seq<RRSet>, seeds: set<Node>)
    requires forall i :: 0 <= i < |pool| ==> pool[i].nodes * seeds != {}
    ensures Covered(pool, seeds) == |pool|
    decreases |pool|
  {
    if pool != [] {
      CoveredAll(pool[..|pool| - 1], seeds);
    }
  }

  // -------------------------------------------------------------- coverage

  /** Number of RR sets in `pool` that contain `v`. */
  function Coverage(pool: seq<RRSet>, v: Node): (c: nat)
    ensures c <= |pool|
  {
    if pool == [] then 0
    else Coverage(pool[..|pool| - 1], v) + (if v in pool[|pool| - 1].nodes then 1 else 0)
  }

  /** Every RR set of `pool` lies inside the node set `vs`. */
  predicate Within(pool: seq<RRSet>, vs: set<Node>) {
    forall i :: 0 <= i < |pool| ==> pool[i].nodes <= vs
  }

  datatype CoverageError = UnknownNode(node: Node)

  /**
   * `get_node_coverage(rr_sets)`: a counter per graph node starting at 0, bumped once
   * for every RR set holding the node; a node outside the graph raises KeyError.
   */
  method GetNodeCoverage(gen: Generator, rrSets: seq<RRSet>) returns (r: Result<map<Node, nat>, CoverageError>)
    ensures r.Success? <==> Within(rrSets, Elems(gen.nodes))
    ensures r.Success? ==> r.value.Keys == Elems(gen.nodes)
    ensures r.Success? ==> forall v :: v in r.value ==> r.value[v] == Coverage(rrSets, v)
    ensures r.Failure? ==> r.error.node !in gen.nodes && exists i :: 0 <= i < |rrSets| && r.error.node in rrSets[i].nodes
  {
    var coverage: map<Node, nat> := map node | node in gen.nodes :: 0;
    for i := 0 to |rrSets|
      invariant coverage.Keys == Elems(gen.nodes)
      invariant Within(rrSets[..i], Elems(gen.nodes))
      invariant forall v :: v in coverage ==> coverage[v] == Coverage(rrSets[..i], v)
    {
      var remaining := rrSets[i].nodes;
      while remaining != {}
        invariant remaining <= rrSets[i].nodes
        invariant coverage.Keys == Elems(gen.nodes)
        invariant rrSets[i].nodes - remaining <= Elems(gen.nodes)
        invariant forall v :: v in coverage ==>
          coverage[v] == Coverage(rrSets[..i], v) + (if v in rrSets[i].nodes - remaining then 1 else 0)
        decreases remaining
      {
        NonEmptyHasElement(remaining);
        var node :| node in remaining;
        if node !in coverage {
          return Failure(UnknownNode(node));
        }
        coverage := coverage[node := coverage[node] + 1];
        remaining := remaining - {node};
      }
      assert rrSets[..i + 1][..i] == rrSets[..i];
      assert Within(rrSets[..i + 1], Elems(gen.nodes)) by {
        forall j | 0 <= j < i + 1 ensures rrSets[j].nodes <= Elems(gen.nodes) {
          if j < i { assert rrSets[j] == rrSets[..i][j]; }
        }
      }
    }
    assert rrSets[..|rrSets|] == rrSets;
    r := Success(coverage);
  }

  lemma NonEmptyHasElement(s: set<Node>)
    requires s != {}
    ensures exists x :: x in s
  {
    if forall x :: x !in s {
      assert false;
    }
  }

  /** Sum of the counts of the nodes of `vs`. */
  function CoverageSum(pool: seq<RRSet>, vs: seq<Node>): nat {
    if vs == [] then 0 else Coverage(pool, vs[0]) + CoverageSum(pool, vs[1..])
  }

  /** Sum of the `size` fields of the pool. */
  function SizeSum(pool: seq<RRSet>): int {
    if pool == [] then 0 else SizeSum(pool[..|pool| - 1]) + pool[|pool| - 1].size
  }

  /** How many nodes of `vs` lie in `s`. */
  function CountIn(s: set<Node>, vs: seq<Node>): nat {
    if vs == [] then 0 else (if vs[0] in s then 1 else 0) + CountIn(s, vs[1..])
  }

  lemma {:induction false} CountInDistinct(s: set<Node>, vs: seq<Node>)
    requires Distinct(vs)
    ensures CountIn(s, vs) == |s * Elems(vs)|
    decreases |vs|
  {
    if vs != [] {
      DistinctCons(vs);
      CountInDistinct(s, vs[1..]);
      IntersectCons(s, vs[0], Elems(vs[1..]));
    }
  }

  /** A duplicate-free list has a duplicate-free tail that does not hold its head. */
  lemma DistinctCons(vs: seq<Node>)
    requires Distinct(vs) && vs != []
    ensures Distinct(vs[1..]) && vs[0] !in Elems(vs[1..]) && Elems(vs) == {vs[0]} + Elems(vs[1..])
  {
    assert vs == [vs[0]] + vs[1..];
  }

  lemma IntersectCons(s: set<Node>, x: Node, rest: set<Node>)
    requires x !in rest
    ensures |s * ({x} + rest)| == (if x in s then 1 else 0) + |s * rest|
  {
    var head := if x in s then {x} else {};
    assert s * ({x} + rest) == head + s * rest;
    assert head * (s * rest) == {};
  }

  /** Adding one RR set at the back adds, over `vs`, one count per node of it in `vs`. */
  lemma {:induction false} CoverageSumStep(pool: seq<RRSet>, vs: seq<Node>)
    requires pool != []
    ensures CoverageSum(pool, vs) == CoverageSum(pool[..|pool| - 1], vs) + CountIn(pool[|pool| - 1].nodes, vs)
    decreases |vs|
  {
    if vs != [] {
      CoverageSumStep(pool, vs[1..]);
    }
  }

  /**
   * The counts over all graph nodes add up to the total size of the pool, when every
   * RR set lies in the graph and carries its true size.
   */
  lemma {:induction false} CoverageSumIsSizeSum(pool: seq<RRSet>, vs: seq<Node>)
    requires Distinct(vs)
    requires forall i :: 0 <= i < |pool| ==> pool[i].nodes <= Elems(vs) && pool[i].size == |pool[i].nodes|
    ensures CoverageSum(pool, vs) == SizeSum(pool)
    decreases |pool|
  {
    if pool == [] {
      CoverageSumEmpty(vs);
    } else {
      var last := pool[|pool| - 1];
      assert last.nodes <= Elems(vs) && last.size == |last.nodes|;
      CoverageSumIsSizeSum(pool[..|pool| - 1], vs);
      CoverageSumStep(pool, vs);
      CountInDistinct(last.nodes, vs);
      assert last.nodes * Elems(vs) == last.nodes;
    }
  }

  lemma {:induction false} CoverageSumEmpty(vs: seq<Node>)
    ensures CoverageSum([], vs) == 0
    decreases |vs|
  {
    if vs != [] {
      CoverageSumEmpty(vs[1..]);
    }
  }

  // ------------------------------------------------------------ statistics

  /** `get_statistics`: nothing for an empty pool; count, mean, min, max of sizes and nodes covered otherwise. */
  datatype PoolStatistics =
    | NoStatistics
    | Statistics(totalRrSets: nat, avgRrSetSize: real, minRrSetSize: int, maxRrSetSize: int, totalNodesCovered: nat)

  function Sizes(pool: seq<RRSet>): (s: seq<int>)
    ensures |s| == |pool| && forall i :: 0 <= i < |pool| ==> s[i] == pool[i].size
  {
    seq(|pool|, i requires 0 <= i < |pool| => pool[i].size)
  }

  function MinOf(s: seq<int>): (m: int)
    requires s != []
    ensures m in s && forall i :: 0 <= i < |s| ==> m <= s[i]
  {
    if |s| == 1 then s[0]
    else
      var rest := MinOf(s[1..]);
      if s[0] <= rest then s[0] else rest
  }

  function MaxOf(s: seq<int>): (m: int)
    requires s != []
    ensures m in s && forall i :: 0 <= i < |s| ==> s[i] <= m
  {
    if |s| == 1 then s[0]
    else
      var rest := MaxOf(s[1..]);
      if s[0] >= rest then s[0] else rest
  }

  function Sum(s: seq<int>): int {
    if s == [] then 0 else s[0] + Sum(s[1..])
  }

  /** The union of the node sets of the pool. */
  function Union(pool: seq<RRSet>): (u: set<Node>)
    ensures forall x :: x in u <==> exists i :: 0 <= i < |pool| && x in pool[i].nodes
  {
    if pool == [] then {}
    else
      var rest := Union(pool[1..]);
      assert forall i :: 1 <= i < |pool| ==> pool[i] == pool[1..][i - 1];
      pool[0].nodes + rest
  }

  function GetStatistics(pool: seq<RRSet>): (st: PoolStatistics)
    ensures st.NoStatistics? <==> pool == []
    ensures st.Statistics? ==>
      && st.totalRrSets == |pool|
      && (exists i :: 0 <= i < |pool| && st.minRrSetSize == pool[i].size)
      && (exists i :: 0 <= i < |pool| && st.maxRrSetSize == pool[i].size)
      && (forall i :: 0 <= i < |pool| ==> st.minRrSetSize <= pool[i].size <= st.maxRrSetSize)
      && st.totalNodesCovered == |Union(pool)|
  {
    if pool == [] then NoStatistics
    else
      var sizes := Sizes(pool);
      Statistics(|pool|, Sum(sizes) as real / |pool| as real, MinOf(sizes), MaxOf(sizes), |Union(pool)|)
  }

  lemma {:induction false} SumBounds(s: seq<int>, lo: int, hi: int)
    requires forall i :: 0 <= i < |s| ==> lo <= s[i] <= hi
    ensures |s| * lo <= Sum(s) <= |s| * hi
    decreases |s|
  {
    if s != [] {
      SumBounds(s[1..], lo, hi);
    }
  }

  lemma MeanBounds(total: int, n: nat, lo: int, hi: int)
    requires n > 0 && n * lo <= total <= n * hi
    ensures lo as real <= total as real / n as real <= hi as real
  {
    assert (n * lo) as real == n as real * lo as real;
    assert (n * hi) as real == n as real * hi as real;
  }

  /**
   * For a non-empty pool of kernel output on graph nodes `vs`: the smallest RR set has
   * at least one node (its root), the mean lies between the smallest and the largest
   * size, and no more nodes are covered than the graph has.
   */
  lemma StatisticsOfSoundPool(pool: seq<RRSet>, vs: seq<Node>)
    requires pool != [] && Distinct(vs)
    requires forall i :: 0 <= i < |pool| ==> Sound(pool[i], Elems(vs))
    ensures var st := GetStatistics(pool);
      && 1 <= st.minRrSetSize <= st.maxRrSetSize
      && st.minRrSetSize as real <= st.avgRrSetSize <= st.maxRrSetSize as real
      && st.totalNodesCovered <= |vs|
  {
    var st := GetStatistics(pool);
    var i :| 0 <= i < |pool| && st.minRrSetSize == pool[i].size;
    assert pool[i].root in pool[i].nodes;
    assert |pool[i].nodes| >= 1;
    var sizes := Sizes(pool);
    SumBounds(sizes, st.minRrSetSize, st.maxRrSetSize);
    MeanBounds(Sum(sizes), |pool|, st.minRrSetSize, st.maxRrSetSize);
    assert Union(pool) <= Elems(vs);
    SubsetCard(Union(pool), Elems(vs));
    DistinctCard(vs);
  }
}
