# RIS health-network core, modelled in Dafny

This project models the verifiable core of a Reverse Influence Sampling (RIS)
framework for health-intervention networks.

- **The RR-set engine** (`RRSetGenerator`). The constructor checks the diffusion model
  and builds an edge-probability table clamped to [0, 1]. The kernel runs a reverse
  breadth-first traversal from a root, with one coin flip per unvisited predecessor.
  This yields one reverse-reachable (RR) set. `generate_rr_sets` derives theta
  (root, seed) tasks from the master seed and runs the kernel on each, either in
  order on one worker or on a process pool.
- **Three queries over a pool of RR sets**: the influence-spread estimate, per-node
  coverage counts, and size statistics.
- **The configuration layer** (`Config`): dotted-path lookup in a nested mapping, the
  shallow merge of a parsed user file over fixed defaults, and the filling of the
  `ris`, `ga` and `objectives` sections with their dataclass defaults.
- **The health network's attribute tables** (`HealthNetwork`): per-node and per-edge
  attribute records with defaults, and the grouping of nodes by demographic group.

Modules, one per file:

- `Wrappers` (`wrappers.dfy`): `Option` and `Result`.
- `Graphs` (`graphs.dfy`): the directed graph as node and edge lists, plus a few
  sequence facts.
- `EdgeProbabilities` (`edge_probabilities.dfy`): `_precompute_edge_probabilities`
  and lookup with a default.
- `RRSets` (`rr_sets.dfy`): the `RRSet` record.
- `Kernel` (`kernel.dfy`): the traversal.
  - It is specified by the functions `Scan` (the inner loop over predecessors) and
    `Explore` (the outer loop over the queue). Both work on the discovery order.
  - The method `Sample` keeps the source's FIFO queue and visited set, and is proved
    equal to that specification.
- `Generation` (`generator.dfy`): the constructor, task derivation and
  `generate_rr_sets`.
- `Estimation` (`estimator.dfy`): spread, coverage and statistics.
- `Configuration` (`config.dfy`): `Config`.
- `Network` (`network.dfy`): the `HealthNetwork` class.

Randomness is an input:

- `DrawStream` gives the k-th `np.random.random()` value after seeding with a seed.
- `IntStream` gives the k-th integer drawn from the master generator.
- A task's seed is the i-th master draw reduced mod 2^31.
- A task's root is the node at the (theta + i)-th master draw mod n.

The process pool's scheduling is also an input: the list of tasks that completed, in
completion order.

The source defines two kernels, one for the IC diffusion model and one for LT. They
are the same code line for line (rr_set_generator.py lines 99-113 and 136-151), so
the model has a single kernel, `Kernel.Sample`, and both models run it.

## Model

| member | source | states |
|---|---|---|
| RRSets.MakeRRSet | src/ris/rr_set_generator.py:27-28 | the stored size is the cardinality of the node set, whatever size was passed |
| EdgeProbabilities.RawProbability | src/ris/rr_set_generator.py:76 | `influence_prob` when the edge has it, otherwise `weight` when it has that, otherwise 0.1 |
| EdgeProbabilities.Clamp | src/ris/rr_set_generator.py:77 | the result lies in [0,1]; it is 0 below 0, 1 above 1, and the value itself in between |
| EdgeProbabilities.EdgeProbability | src/ris/rr_set_generator.py:74-77 | an edge's probability is its clamped `influence_prob`; without one, its clamped `weight`; without either, 0.1 |
| EdgeProbabilities.PrecomputeEdgeProbabilities | src/ris/rr_set_generator.py:70-79 | the table's keys are exactly the (u, v) pairs of the graph's edges, and each entry is that edge's clamped probability |
| EdgeProbabilities.Lookup | src/ris/rr_set_generator.py:108 | a lookup yields a value in [0,1]: the stored probability for a pair in the table, and 0.1 for a pair missing from it |
| EdgeProbabilities.LookupEdge | src/ris/rr_set_generator.py:146 | looking up an edge of the graph in the precomputed table gives that edge's clamped probability |
| Graphs.Predecessors | src/ris/rr_set_generator.py:107 | p is listed as a predecessor of v exactly when the graph has an edge p → v; every predecessor is a graph node |
| Graphs.SourcesIntoDistinct | src/ris/rr_set_generator.py:107 | an edge list without repeated (source, target) pairs lists each source into v at most once |
| Graphs.PredecessorsDistinct | src/ris/rr_set_generator.py:107 | a node's predecessor list has no duplicates |
| Kernel.Scan | src/ris/rr_set_generator.py:107-113 | the inner loop only appends to the discovery order; the first appended node is an unvisited predecessor; it consumes at least one draw per appended node and at most one draw per predecessor |
| Kernel.Explore | src/ris/rr_set_generator.py:103-113 | the outer loop only extends the discovery order and never leaves the graph's nodes |
| Kernel.Traverse | src/ris/rr_set_generator.py:100-101 | the traversal starts with the root alone in the queue and the visited set, so the root comes first |
| Kernel.KernelResult | src/ris/rr_set_generator.py:81-115 | a kernel call succeeds exactly when numpy accepts the worker seed (it lies in [0, 2^32)) and the root is a graph node; a rejected seed fails first with WorkerSeedOutOfRange(seed), before the root is looked at; a missing root then fails with NodeNotInGraph(root); on success the RR set contains its root, lies within the graph's nodes, and its size is its cardinality |
| Kernel.ScanAppends | src/ris/rr_set_generator.py:111-113 | every node the inner loop appends is a predecessor of the current node that was not visited before |
| Kernel.ScanKeepsDistinct | src/ris/rr_set_generator.py:111-113 | the inner loop never enqueues a node twice |
| Kernel.ScanKeepsGrounded | src/ris/rr_set_generator.py:107-113 | after the inner loop, every node after the first was added along an edge into an earlier node |
| Kernel.ExploreKeepsDistinct | src/ris/rr_set_generator.py:103-113 | the whole traversal enqueues each node at most once |
| Kernel.ExploreKeepsGrounded | src/ris/rr_set_generator.py:103-113 | every non-root member was reached from an earlier member along an existing edge P → C |
| Kernel.ExploreDraws | src/ris/rr_set_generator.py:107-111 | the draws consumed are at least the number of nodes added and at most the number of edges into the popped nodes |
| Kernel.ScanVisitedOnly | src/ris/rr_set_generator.py:111 | when every predecessor is already visited, the inner loop consumes no draw and adds nothing (the `and` short-circuits) |
| Kernel.CountNotIn | src/ris/rr_set_generator.py:111 | the number of predecessors not yet in the discovery order is at most the number of predecessors |
| Kernel.CountNotInAppend | src/ris/rr_set_generator.py:111-113 | enqueueing a node that is not among the predecessors leaves the number of unvisited predecessors unchanged |
| Kernel.ScanDrawsExact | src/ris/rr_set_generator.py:107-113 | for a duplicate-free predecessor list, the inner loop consumes exactly one draw per predecessor unvisited when the scan starts, and none for visited ones |
| Kernel.ExploreStepDraws | src/ris/rr_set_generator.py:103-113 | one pop of the outer loop consumes exactly one draw per predecessor of the popped node that was not yet discovered, and the traversal goes on from the scan's result |
| Kernel.TraverseSize | src/ris/rr_set_generator.py:103-104 | the traversal pops at most as many nodes as the graph has: the discovery order is duplicate-free and no longer than the node list |
| Kernel.TraverseFacts | src/ris/rr_set_generator.py:99-115 | root first, no duplicates, every member reached along an edge, within the graph, at most as many members as nodes, the RR set (for an accepted seed) is exactly the discovered nodes, and the draw count is bounded below by (members − 1) and above by the in-degree sum |
| Kernel.ScanPredecessors | src/ris/rr_set_generator.py:107-113 | the imperative inner loop over the visited set and the queue computes exactly `Scan`; the queue grows by the newly discovered nodes and the set is the discovered nodes |
| Kernel.Sample | src/ris/rr_set_generator.py:81-153 | the imperative kernel (same code for IC and LT) returns exactly `KernelResult`; its queue-pop count equals the RR set's size and is at most the number of nodes |
| Generation.Upper | src/ris/rr_set_generator.py:55 | upper-casing keeps the length and maps each character by its ASCII upper case |
| Generation.ParseModelSpellings | src/ris/rr_set_generator.py:55-61 | IC is selected for exactly the four case spellings of "ic", LT for exactly those of "lt", and every other name is rejected |
| Generation.ParseModel | src/ris/rr_set_generator.py:55-61 | IC is chosen exactly when the upper-cased name is "IC", LT exactly when it is "LT", and any other name fails with UnknownDiffusionModel carrying the name as given |
| Generation.NewGenerator | src/ris/rr_set_generator.py:52-64 | construction fails exactly when the upper-cased name is neither "IC" nor "LT"; otherwise it keeps the graph, the workers and the seed, records num_nodes as the node count, and builds the edge table |
| Generation.Tasks | src/ris/rr_set_generator.py:168-175 | theta tasks; every root is a graph node and every seed lies in [0, 2^31) |
| Generation.Run | src/ris/rr_set_generator.py:181-185 | the kernel on a task whose root is a graph node and whose seed numpy accepts returns an RR set rooted at the task's root, within the graph's nodes, of the right size |
| Generation.Outcomes | src/ris/rr_set_generator.py:191-199 | one kernel result per task, in task order |
| Generation.GenerateRrSets | src/ris/rr_set_generator.py:155-210 | a master seed outside [0, 2^32), which `np.random.seed` refuses, fails first with SeedOutOfRange; then negative theta, sampling theta > 0 roots from no nodes, and fewer than one worker each fail, in that order, and generation succeeds exactly when none applies. With one worker: exactly theta RR sets, element i being the kernel on task i. With more: the completed tasks' results in completion order, a sub-multiset of the kernel outputs, at most theta of them. Every RR set is sound |
| Generation.RunInOrder | src/ris/rr_set_generator.py:179-186 | the single-worker loop returns the kernel's result for every task, in task order |
| Generation.RunCompleted | src/ris/rr_set_generator.py:201-204 | the pool loop returns the results of the completed tasks, in completion order |
| Generation.SelectSubMultiset | src/ris/rr_set_generator.py:201-204 | the results collected from distinct completed tasks form a sub-multiset of all tasks' results, no more numerous than the tasks |
| Estimation.Covered | src/ris/rr_set_generator.py:226-229 | the number of covered RR sets is at most the pool size |
| Estimation.Scale | src/ris/rr_set_generator.py:232 | (covered / total) × n lies in [0, n] when covered ≤ total |
| Estimation.ScaleMonotone | src/ris/rr_set_generator.py:232 | scaling a larger covered count never gives a smaller estimate |
| Estimation.ScaleFull | src/ris/rr_set_generator.py:232 | when every RR set is covered the estimate is exactly n |
| Estimation.Spread | src/ris/rr_set_generator.py:223-232 | the estimate is 0 for an empty pool and otherwise (covered / pool size) × num_nodes; it lies in [0, num_nodes] |
| Estimation.EstimateInfluenceSpread | src/ris/rr_set_generator.py:212-232 | the counting loop returns exactly `Spread`, a value in [0, num_nodes] |
| Estimation.CoveredMonotone | src/ris/rr_set_generator.py:227-229 | a larger seed set covers at least as many RR sets |
| Estimation.SpreadMonotone | src/ris/rr_set_generator.py:223-232 | for a fixed pool the estimate does not decrease when the seed set grows |
| Estimation.SpreadOfFullCover | src/ris/rr_set_generator.py:223-232 | a seed set meeting every RR set of a non-empty pool is estimated to reach all num_nodes nodes |
| Estimation.Coverage | src/ris/rr_set_generator.py:248-249 | a node's count is at most the pool size |
| Estimation.GetNodeCoverage | src/ris/rr_set_generator.py:234-250 | it succeeds exactly when every RR set lies within the graph's nodes, and otherwise raises for a pool node outside the graph; on success the keys are exactly the graph's nodes and each count is the number of RR sets containing the node |
| Estimation.CountInDistinct | src/ris/rr_set_generator.py:248-249 | counting the nodes of a duplicate-free list that lie in a set gives the size of the intersection |
| Estimation.CoverageSumStep | src/ris/rr_set_generator.py:247-249 | adding one RR set raises the counts, summed over all nodes, by the number of its nodes among them |
| Estimation.CoverageSumIsSizeSum | src/ris/rr_set_generator.py:244-250 | for a pool whose RR sets lie within the graph's nodes and carry their true sizes, the counts summed over all graph nodes equal the pool's total size |
| Estimation.Sizes | src/ris/rr_set_generator.py:265 | one size per RR set, in pool order, each the RR set's recorded size |
| Estimation.MinOf | src/ris/rr_set_generator.py:271 | the minimum is one of the sizes and no size is smaller |
| Estimation.MaxOf | src/ris/rr_set_generator.py:272 | the maximum is one of the sizes and no size is larger |
| Estimation.Union | src/ris/rr_set_generator.py:273 | a node is in the union exactly when some RR set of the pool contains it |
| Estimation.GetStatistics | src/ris/rr_set_generator.py:262-274 | no statistics for an empty pool; otherwise total = pool size, a minimum and a maximum attained by some RR set that bound every size, and total covered = size of the union |
| Estimation.SumBounds | src/ris/rr_set_generator.py:269 | the sum of n sizes between two bounds lies between n times each bound |
| Estimation.StatisticsOfSoundPool | src/ris/rr_set_generator.py:262-274 | for kernel output, 1 ≤ min ≤ max, the mean lies between min and max, and no more nodes are covered than the graph has |
| Configuration.IndexOf | src/config.py:88 | the position of the first occurrence of the separator |
| Configuration.Split | src/config.py:88 | splitting on '.' gives at least one segment and no segment contains a dot |
| Configuration.JoinSplit | src/config.py:88 | joining the segments of a key with '.' gives the key back |
| Configuration.SplitCons | src/config.py:88 | a dot-free first segment followed by '.' splits off as the first part |
| Configuration.SplitJoin | src/config.py:88 | splitting dot-free segments joined by '.' gives the segments back |
| Configuration.Lookup | src/config.py:86-96 | the value `get(key, default)` returns: a dot-free key present at the top level gives its value, and a missing first segment gives the default |
| Configuration.Walk | src/config.py:91-95 | no keys left: the current value; a missing key or a value that is not a mapping: nothing |
| Configuration.Get | src/config.py:86-96 | the loop that reassigns the current value and returns early returns exactly `Lookup`, for every key string |
| Configuration.LookupPlain | src/config.py:88-96 | a key without dots, including "", is a top-level lookup that gives the default when the key is absent |
| Configuration.LookupDescends | src/config.py:91-95 | `get("a.rest")` is `get("rest")` inside the mapping under `a`, and the default when `a` is missing or not a mapping |
| Configuration.LookupPath | src/config.py:88-96 | looking up dot-joined segments walks them one mapping level each |
| Configuration.DefaultConfig | src/config.py:64-72 | the default map has exactly the keys device, random_seed, data_dir, log_level, ris, ga and objectives |
| Configuration.LoadConfig | src/config.py:62-79 | without a file, exactly the defaults. With a parsed mapping: every user key overwrites, the other default keys are unchanged, and a user section replaces the default one wholesale. A parsed list is applied as an iterable of pairs, as `dict.update` does. A string is iterated as one-character strings: the empty string leaves exactly the defaults, and any other string fails. A scalar or an empty file (null) fails as not iterable. Merging succeeds exactly when `dict.update` accepts the value |
| Configuration.UpdatePairs | src/config.py:77 | `dict.update` with an iterable of pairs succeeds exactly when every element is a pair; otherwise it fails at the first element that is not one. The keys that result are the old keys plus the pair keys, and a key no pair names keeps its old value |
| Configuration.UpdatePairsLastWins | src/config.py:77 | after a successful update, a key holds the value of the last pair that names it |
| Configuration.EmptyStringFile | src/config.py:74-79 | a file whose YAML is the empty string gives exactly the defaults, and the same `Config` as no file at all |
| Configuration.RisDefaults | src/config.py:19-25 | the `RISConfig` fields are exactly theta, epsilon, max_iterations and parallel_workers |
| Configuration.GaDefaults | src/config.py:29-37 | the `GAConfig` fields are exactly population_size, generations, crossover_rate, mutation_rate, tournament_size and elite_size |
| Configuration.ObjectiveDefaults | src/config.py:41-47 | the `ObjectiveConfig` fields are exactly influence_weight, cost_weight, equity_weight and time_weight |
| Configuration.Section | src/config.py:58-60 | `config_data.get(name, {})`: the stored section when the merged data has one, an empty mapping otherwise |
| Configuration.FillDefaults | src/config.py:58-60 | a section must be a mapping whose keys are all fields, otherwise it fails, reporting the unexpected fields; on success every field is present, supplied fields are taken as given and the rest keep their defaults |
| Configuration.NewConfig | src/config.py:53-60 | the merged data is `_load_config`'s result and each structured section is that section filled with its dataclass defaults; construction succeeds exactly when the merge and all three sections succeed; a merge failure is reported as is, otherwise the first failing section in the order ris, ga, objectives |
| Configuration.DefaultsWithoutFile | src/config.py:22-25 | without a file every section takes its dataclass defaults, e.g. theta = 1000 and parallel_workers = 4 |
| Configuration.UserSectionReplacesDefault | src/config.py:58 | a user `ris` section replaces the default wholesale; its fields win and the fields it omits keep their defaults |
| Network.MakeNodeAttributes | src/data/network.py:11-19 | each node attribute is the given keyword, else its default (cost 1.0, group "general", literacy 0.5, trust 0.5, reach 1.0) |
| Network.MakeEdgeAttributes | src/data/network.py:22-29 | each edge attribute is the given keyword, else its default (influence 0.1, trust 0.5, frequency 1.0) |
| Network.Members | src/data/network.py:70-75 | a group's list holds nodes of the order whose record names that group |
| Network.HealthNetwork.constructor | src/data/network.py:35-38 | the given graph and empty attribute tables |
| Network.HealthNetwork.NodeCost | src/data/network.py:57-59 | the recorded cost, and 1.0 for a node without a record |
| Network.HealthNetwork.EdgeProbability | src/data/network.py:61-66 | the recorded probability of the directed pair (s, t), and 0.1 without a record |
| Network.HealthNetwork.AddNode | src/data/network.py:40-46 | replaces the record of n only, so the latest write wins; a first record goes last in insertion order; every other node cost and every edge probability is unchanged |
| Network.HealthNetwork.AddEdge | src/data/network.py:48-55 | replaces the record of the pair (s, t) only, with (t, s) independent; no node record changes, so endpoints added this way keep the default cost |
| Network.HealthNetwork.GetDemographicGroups | src/data/network.py:68-76 | a group is a key exactly when its list is non-empty, and each list is the recorded nodes of that group in insertion order |
| Network.MembersHas | src/data/network.py:71-75 | a node is in a group's list exactly when it is in the order and its record names that group |
| Network.MembersDistinct | src/data/network.py:71-75 | a group's list has no duplicates |
| Network.GroupsPartition | src/data/network.py:68-76 | each recorded node lies in exactly the list of its own group, once; a node without a record lies in no list |
| Network.AddedWithoutGroup | src/data/network.py:16 | a node added without a group keyword is filed under "general" |

## Left out

- Randomness (`np.random.seed`, `random.seed`, `randint`, `choice`, `random`): the
  generator is foreign code. Its draws are the abstract inputs `DrawStream` and
  `IntStream`. The model does not fix their distribution.
- The process pool (`ProcessPoolExecutor`, `as_completed`): this is concurrency. Only
  its outcome is modelled, as an input list of completed task indices.
- Generation.GenerateRrSets: on the pool path a failing task is only omitted. The
  contract does not model which exceptions happen inside a worker. A pickling or
  start-up failure of the pool itself is left out.
- Estimation.GetStatistics: `std_rr_set_size` is left out, because a square root over
  reals is not modelled. The mean is exact real arithmetic rather than floating point.
- Estimation.Spread: the ratio is exact real arithmetic, with no floating-point rounding.
- EdgeProbabilities.Clamp: probabilities are reals, so NaN and infinities, which
  `min`/`max` treat specially, are not modelled.
- Generation.Upper: only ASCII letters are upper-cased. Python's full Unicode
  upper-casing is not modelled (for example "ß" becomes "SS"). In particular Python
  upper-cases the dotless "ı" to "I", so the source also accepts "ıc" and "ıC" as IC.
- Generation.ParseModelSpellings: its "every other name is rejected" holds for the
  ASCII upper-casing of the model only; in the source "ıc" and "ıC" are accepted as IC.
- Logging: every `logger.*` call is output only.
- YAML reading and `Path` checks in `_load_config`, and the `data_dir` and
  `project_root` path properties: these are I/O. `LoadConfig` takes the parsed file
  content, or None when there is no path or no such file.
- Configuration.LoadConfig: mapping keys are strings only. So a pair whose key is a
  number, a boolean or null is an error in the model, although `dict.update` accepts it.
  A two-key mapping inside a list is also an error in the model. Python takes its keys
  as a pair, in insertion order, which a Dafny map does not keep.
- Configuration.FillDefaults: dataclasses do not check field types, so supplied values
  are kept as parsed values. The error carries every unexpected key, whereas the
  dataclass's TypeError names only the first unexpected keyword argument.
- Network.HealthNetwork.GetDemographicGroups and Estimation.GetNodeCoverage: both return a
  Dafny map, so the key order of the source's dicts is not modelled. For groups that order
  is the order in which each group first appears; for coverage it is the node-list order.
  No property of the core depends on it.
- Network.HealthNetwork.AddNode: unknown keyword arguments cannot be expressed. In the
  source they raise a TypeError after the graph was already updated; that is not modelled.
- Network.HealthNetwork.AddEdge: unknown keyword arguments cannot be expressed. In the
  source `EdgeAttributes(**attributes)` raises a TypeError after the graph edge was
  already added; that is not modelled.
- The networkx graph inside `HealthNetwork` is only its node and edge sets. Graph
  attribute storage, `num_nodes` and `num_edges` are not modelled. The rule that an
  empty graph argument is replaced by a fresh one is not modelled either; the two
  differ only in object identity.
- The CLI (src/main.py), device probing, global seeding and logger setup
  (src/utils/), package re-exports and setup.py have no algorithmic content.
