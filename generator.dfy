/**
 * The `RRSetGenerator` object: construction and validation, the derivation of
 * (root, seed) tasks from the master seed, and `generate_rr_sets`.
 */
module Generation {
  import opened Wrappers
  import opened Graphs
  import opened EdgeProbabilities
  import opened RRSets
  import opened Kernel

  datatype DiffusionModel = IndependentCascade | LinearThreshold

  datatype GeneratorError = UnknownDiffusionModel(name: string)

  /** `str.upper()` on one character, for the ASCII letters. */
  function UpperChar(c: char): char {
    if 'a' <= c <= 'z' then (c as int - 32) as char else c
  }

  function Upper(s: string): (u: string)
    ensures |u| == |s| && forall i :: 0 <= i < |s| ==> u[i] == UpperChar(s[i])
  {
    if s == [] then [] else [UpperChar(s[0])] + Upper(s[1..])
  }

  /** The model name, upper-cased, must be exactly "IC" or "LT". */
  function ParseModel(name: string): (r: Result<DiffusionModel, GeneratorError>)
    ensures r == Success(IndependentCascade) <==> Upper(name) == "IC"
    ensures r == Success(LinearThreshold) <==> Upper(name) == "LT"
    ensures r.Failure? <==> Upper(name) !in {"IC", "LT"}
    ensures r.Failure? ==> r.error == UnknownDiffusionModel(name)
  {
    var u := Upper(name);
    if u == "IC" then Success(IndependentCascade)
    else if u == "LT" then Success(LinearThreshold)
    else Failure(UnknownDiffusionModel(name))
  }

  lemma UpperCharIs(c: char, d: char)
    requires 'A' <= d <= 'Z'
    ensures UpperChar(c) == d <==> c == d || c as int == d as int + 32
  {
  }

  /** The accepted spellings are exactly the eight case variants of "IC" and "LT". */
  lemma ParseModelSpellings(name: string)
    ensures ParseModel(name) == Success(IndependentCascade) <==> name in {"IC", "Ic", "iC", "ic"}
    ensures ParseModel(name) == Success(LinearThreshold) <==> name in {"LT", "Lt", "lT", "lt"}
    ensures ParseModel(name).Failure? <==> name !in {"IC", "Ic", "iC", "ic", "LT", "Lt", "lT", "lt"}
  {
    var u := Upper(name);
    if |name| == 2 {
      UpperCharIs(name[0], 'I');
      UpperCharIs(name[1], 'C');
      UpperCharIs(name[0], 'L');
      UpperCharIs(name[1], 'T');
      assert name == [name[0], name[1]];
      assert u == [u[0], u[1]];
    } else {
      assert |u| != 2;
    }
  }

  datatype GeneratorState = GeneratorState(
    graph: Graph,
    nodes: seq<Node>,
    numNodes: nat,
    model: DiffusionModel,
    parallelWorkers: int,
    randomSeed: int,
    edgeProbs: ProbTable)

  /** What the constructor establishes and nothing later changes. */
  predicate Consistent(s: GeneratorState) {
    && s.nodes == s.graph.nodes
    && s.numNodes == |s.nodes|
    && s.edgeProbs.Keys == EdgeKeys(s.graph)
    && forall e :: e in s.graph.edges ==> s.edgeProbs[(e.src, e.dst)] == EdgeProbability(e)
  }

  type Generator = s: GeneratorState | Consistent(s)
    witness GeneratorState(RawGraph([], []), [], 0, IndependentCascade, 4, 42, map[])

  /** `RRSetGenerator.__init__`: fails fast on an unknown model, then builds the edge table. */
  method NewGenerator(graph: Graph, diffusionModel: string, parallelWorkers: int, randomSeed: int)
    returns (r: Result<Generator, GeneratorError>)
    ensures r.Failure? <==> Upper(diffusionModel) != "IC" && Upper(diffusionModel) != "LT"
    ensures r.Failure? ==> r.error == UnknownDiffusionModel(diffusionModel)
    ensures r.Success? ==>
      && r.value.graph == graph
      && r.value.numNodes == |graph.nodes|
      && (r.value.model == IndependentCascade <==> Upper(diffusionModel) == "IC")
      && r.value.parallelWorkers == parallelWorkers
      && r.value.randomSeed == randomSeed
  {
    var parsed := ParseModel(diffusionModel);
    if parsed.Failure? {
      return Failure(parsed.error);
    }
    var table := PrecomputeEdgeProbabilities(graph);
    r := Success(GeneratorState(graph, graph.nodes, |graph.nodes|, parsed.value, parallelWorkers, randomSeed, table));
  }

  /** One unit of sampling work: a root and the seed of its private draw stream. */
  datatype Task = Task(root: Node, seed: int)

  /** `master(s, k)`: the k-th integer drawn from numpy's generator after seeding with `s`. */
  type IntStream = (int, nat) -> int

  /** Worker seeds are drawn in [0, 2^31). */
  const SeedBound: int := 0x8000_0000

  /**
   * The task list: first `theta` worker seeds, then `theta` roots picked uniformly with
   * replacement from the node list, all from the master stream of `randomSeed`.
   */
  function Tasks(gen: Generator, theta: nat, master: IntStream): (tasks: seq<Task>)
    requires theta == 0 || |gen.nodes| > 0
    ensures |tasks| == theta
    ensures forall i :: 0 <= i < theta ==> tasks[i].root in gen.nodes && 0 <= tasks[i].seed < SeedBound
  {
    if theta == 0 then []
    else
      seq(theta, i requires 0 <= i < theta =>
        Task(gen.nodes[master(gen.randomSeed, theta + i) % |gen.nodes|], master(gen.randomSeed, i) % SeedBound))
  }

  /** A task the kernel completes: its root is a graph node and numpy accepts its seed. */
  predicate Runnable(gen: Generator, t: Task) {
    t.root in gen.nodes && SeedInRange(t.seed)
  }

  /** What the kernel returns for a runnable task. */
  function Run(gen: Generator, draw: DrawStream, t: Task): (rr: RRSet)
    requires Runnable(gen, t)
    ensures rr.root == t.root && Sound(rr, Elems(gen.nodes))
  {
    KernelResult(gen.graph, gen.edgeProbs, draw, t.root, t.seed).value
  }

  /** The kernel's RR set for every task, in task order. */
  function Outcomes(gen: Generator, draw: DrawStream, tasks: seq<Task>): (pool: seq<RRSet>)
    requires forall i :: 0 <= i < |tasks| ==> Runnable(gen, tasks[i])
    ensures |pool| == |tasks| && forall i :: 0 <= i < |tasks| ==> pool[i] == Run(gen, draw, tasks[i])
  {
    seq(|tasks|, i requires 0 <= i < |tasks| => Run(gen, draw, tasks[i]))
  }

  /** The elements of `s` at the positions `idx`, in the order of `idx`. */
  function Select<T>(s: seq<T>, idx: seq<nat>): (r: seq<T>)
    requires forall i :: 0 <= i < |idx| ==> idx[i] < |s|
    ensures |r| == |idx| && forall i :: 0 <= i < |idx| ==> r[i] == s[idx[i]]
  {
    if idx == [] then [] else [s[idx[0]]] + Select(s, idx[1..])
  }

  datatype GenerateError =
    | SeedOutOfRange(seed: int)
    | NegativeTheta(theta: int)
    | EmptyNodeList
    | InvalidWorkerCount(workers: int)

  /**
   * `generate_rr_sets(theta)`. With one worker the tasks run in order on the calling
   * thread. With more, the pool's scheduling is an input: `completed` lists, in
   * completion order, the tasks whose result came back; failed tasks are absent.
   */
  method GenerateRrSets(gen: Generator, theta: int, master: IntStream, draw: DrawStream, completed: seq<nat>)
    returns (r: Result<seq<RRSet>, GenerateError>)
    requires Distinct(completed) && forall i :: 0 <= i < |completed| ==> completed[i] < theta
    ensures !SeedInRange(gen.randomSeed) ==> r == Failure(SeedOutOfRange(gen.randomSeed))
    ensures SeedInRange(gen.randomSeed) && theta < 0 ==> r == Failure(NegativeTheta(theta))
    ensures SeedInRange(gen.randomSeed) && theta > 0 && gen.nodes == [] ==> r == Failure(EmptyNodeList)
    ensures SeedInRange(gen.randomSeed) && theta >= 0 && (theta == 0 || gen.nodes != []) && gen.parallelWorkers < 1 ==>
      r == Failure(InvalidWorkerCount(gen.parallelWorkers))
    ensures r.Success? <==>
      SeedInRange(gen.randomSeed) && theta >= 0 && (theta == 0 || gen.nodes != []) && gen.parallelWorkers >= 1
    ensures r.Success? ==> forall rr :: rr in r.value ==> Sound(rr, Elems(gen.nodes))
    ensures r.Success? && gen.parallelWorkers == 1 ==>
      var tasks := Tasks(gen, theta, master);
      |r.value| == theta && forall i :: 0 <= i < theta ==> r.value[i] == Run(gen, draw, tasks[i])
    ensures r.Success? && gen.parallelWorkers > 1 ==>
      var tasks := Tasks(gen, theta, master);
      && r.value == Select(Outcomes(gen, draw, tasks), completed)
      && multiset(r.value) <= multiset(Outcomes(gen, draw, tasks))
      && |r.value| <= theta
  {
    if !SeedInRange(gen.randomSeed) {
      return Failure(SeedOutOfRange(gen.randomSeed));
    }
    if theta < 0 {
      return Failure(NegativeTheta(theta));
    }
    if theta > 0 && gen.nodes == [] {
      return Failure(EmptyNodeList);
    }
    var tasks := Tasks(gen, theta, master);
    if gen.parallelWorkers == 1 {
      var rrSets := RunInOrder(gen, draw, tasks);
      r := Success(rrSets);
    } else if gen.parallelWorkers < 1 {
      // ProcessPoolExecutor refuses max_workers <= 0
      r := Failure(InvalidWorkerCount(gen.parallelWorkers));
    } else {
      var rrSets := RunCompleted(gen, draw, tasks, completed);
      SelectSubMultiset(Outcomes(gen, draw, tasks), completed);
      r := Success(rrSets);
    }
  }

  /** The single-worker path: every task in order on the calling thread. */
  method RunInOrder(gen: Generator, draw: DrawStream, tasks: seq<Task>) returns (rrSets: seq<RRSet>)
    requires forall i :: 0 <= i < |tasks| ==> Runnable(gen, tasks[i])
    ensures rrSets == Outcomes(gen, draw, tasks)
  {
    rrSets := [];
    for i := 0 to |tasks|
      invariant |rrSets| == i
      invariant forall j :: 0 <= j < i ==> rrSets[j] == Run(gen, draw, tasks[j])
    {
      // the IC and LT kernels run the same traversal
      var rr, pops := Sample(gen.graph, gen.edgeProbs, draw, tasks[i].root, tasks[i].seed);
      rrSets := rrSets + [rr.value];
    }
  }

  /** The pool path: the results of the tasks in `completed`, in completion order. */
  method RunCompleted(gen: Generator, draw: DrawStream, tasks: seq<Task>, completed: seq<nat>) returns (rrSets: seq<RRSet>)
    requires forall i :: 0 <= i < |tasks| ==> Runnable(gen, tasks[i])
    requires forall i :: 0 <= i < |completed| ==> completed[i] < |tasks|
    ensures rrSets == Select(Outcomes(gen, draw, tasks), completed)
  {
    rrSets := [];
    for i := 0 to |completed|
      invariant |rrSets| == i
      invariant forall j :: 0 <= j < i ==> rrSets[j] == Run(gen, draw, tasks[completed[j]])
    {
      var rr, pops := Sample(gen.graph, gen.edgeProbs, draw, tasks[completed[i]].root, tasks[completed[i]].seed);
      rrSets := rrSets + [rr.value];
    }
  }

  /** Positions above `j` move down by one once position `j` is removed. */
  function Renumber(idx: seq<nat>, j: nat): (r: seq<nat>)
    ensures |r| == |idx| && forall i :: 0 <= i < |idx| ==> r[i] == if idx[i] <= j then idx[i] else idx[i] - 1
  {
    if idx == [] then [] else [if idx[0] <= j then idx[0] else idx[0] - 1] + Renumber(idx[1..], j)
  }

  /**
   * The elements of `s` at distinct positions form a sub-multiset of `s`, so there are
   * at most `|s|` of them.
   */
  lemma {:induction false} SelectSubMultiset<T>(s: seq<T>, idx: seq<nat>)
    requires Distinct(idx) && forall i :: 0 <= i < |idx| ==> idx[i] < |s|
    ensures multiset(Select(s, idx)) <= multiset(s)
    ensures |idx| <= |s|
    decreases |idx|
  {
    if idx != [] {
      var j := idx[0];
      var s' := s[..j] + s[j + 1..];
      var rest := Renumber(idx[1..], j);
      RemovePosition(s, idx, rest);
      SelectSubMultiset(s', rest);
      assert s == s[..j] + [s[j]] + s[j + 1..];
      assert multiset(s) == multiset(s') + multiset{s[j]};
      assert Select(s, idx) == [s[j]] + Select(s', rest);
      var picked := multiset(Select(s', rest));
      assert multiset(s') == picked + (multiset(s') - picked);
    }
  }

  /** Removing the first selected position from `s` and renumbering the others selects the same elements. */
  lemma RemovePosition<T>(s: seq<T>, idx: seq<nat>, rest: seq<nat>)
    requires idx != [] && Distinct(idx) && forall i :: 0 <= i < |idx| ==> idx[i] < |s|
    requires rest == Renumber(idx[1..], idx[0])
    ensures var s' := s[..idx[0]] + s[idx[0] + 1..];
      && Distinct(rest) && (forall i :: 0 <= i < |rest| ==> rest[i] < |s'|)
      && Select(s', rest) == Select(s, idx[1..])
  {
    var j := idx[0];
    var tail := idx[1..];
    assert forall i :: 0 <= i < |tail| ==> tail[i] != j && tail[i] < |s| by {
      forall i | 0 <= i < |tail| ensures tail[i] != j && tail[i] < |s| {
        assert idx[0] != idx[i + 1];
      }
    }
    assert Distinct(tail) by {
      forall a, b | 0 <= a < b < |tail| ensures tail[a] != tail[b] {
        assert idx[a + 1] != idx[b + 1];
      }
    }
    RenumberAvoiding(s, tail, j);
  }

  lemma RenumberAvoiding<T>(s: seq<T>, tail: seq<nat>, j: nat)
    requires j < |s| && Distinct(tail)
    requires forall i :: 0 <= i < |tail| ==> tail[i] != j && tail[i] < |s|
    ensures var s' := s[..j] + s[j + 1..]; var rest := Renumber(tail, j);
      && Distinct(rest) && (forall i :: 0 <= i < |rest| ==> rest[i] < |s'|)
      && Select(s', rest) == Select(s, tail)
  {
    var s' := s[..j] + s[j + 1..];
    var rest := Renumber(tail, j);
    assert Distinct(rest) by {
      forall a, b | 0 <= a < b < |rest| ensures rest[a] != rest[b] {
        assert tail[a] != tail[b];
      }
    }
    forall i | 0 <= i < |rest| ensures rest[i] < |s'| && s'[rest[i]] == s[tail[i]] {
      if tail[i] < j {
        assert s'[rest[i]] == s[..j][tail[i]];
      } else {
        assert s'[rest[i]] == s[j + 1..][tail[i] - 1 - j];
      }
    }
  }
}
