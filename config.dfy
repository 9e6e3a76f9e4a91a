/**
 * Configuration management: the parsed configuration tree, the dotted-path lookup
 * `Config.get`, the default/user merge of `_load_config` and the filling of the
 * `ris`, `ga` and `objectives` sections with their dataclass defaults.
 */
module Configuration {
  import opened Wrappers

  /** A parsed YAML/JSON-like value; only mappings can be descended into. */
  datatype Value =
    | Null
    | Bool(b: bool)
    | Int(i: int)
    | Real(r: real)
    | Str(s: string)
    | List(items: seq<Value>)
    | Dict(entries: map<string, Value>)

  // ------------------------------------------------------- dotted keys

  /** Position of the first `c` in `s`. */
  function IndexOf(s: string, c: char): (i: nat)
    requires c in s
    ensures i < |s| && s[i] == c && c !in s[..i]
  {
    if s[0] == c then 0
    else
      var j := IndexOf(s[1..], c);
      assert s[1..][..j] == s[1..j + 1];
      j + 1
  }

  /** `key.split(".")`: consecutive, leading and trailing dots give empty segments. */
  function Split(s: string): (parts: seq<string>)
    ensures |parts| >= 1
    ensures forall i :: 0 <= i < |parts| ==> '.' !in parts[i]
    decreases |s|
  {
    if '.' !in s then [s]
    else
      var i := IndexOf(s, '.');
      [s[..i]] + Split(s[i + 1..])
  }

  /** `".".join(parts)`. */
  function Join(parts: seq<string>): string
    requires |parts| >= 1
  {
    if |parts| == 1 then parts[0] else parts[0] + "." + Join(parts[1..])
  }

  lemma JoinCons(head: string, rest: seq<string>)
    requires |rest| >= 1
    ensures Join([head] + rest) == head + "." + Join(rest)
  {
    assert ([head] + rest)[1..] == rest;
  }

  lemma SplitAtFirstDot(s: string)
    requires '.' in s
    ensures var i := IndexOf(s, '.');
      Split(s) == [s[..i]] + Split(s[i + 1..]) && s == s[..i] + "." + s[i + 1..]
  {
    var i := IndexOf(s, '.');
    assert s == s[..i] + [s[i]] + s[i + 1..];
  }

  lemma {:induction false} JoinSplit(s: string)
    ensures Join(Split(s)) == s
    decreases |s|
  {
    if '.' in s {
      var i := IndexOf(s, '.');
      SplitAtFirstDot(s);
      JoinSplit(s[i + 1..]);
      JoinCons(s[..i], Split(s[i + 1..]));
    }
  }

  /** A dot-free first segment splits off as the first part. */
  lemma SplitCons(head: string, rest: string)
    requires '.' !in head
    ensures Split(head + "." + rest) == [head] + Split(rest)
  {
    var key := head + "." + rest;
    assert key[|head|] == '.';
    assert key[..|head|] == head;
    var i := IndexOf(key, '.');
    assert i == |head|;
    assert key[i + 1..] == rest;
  }

  lemma {:induction false} SplitJoin(parts: seq<string>)
    requires |parts| >= 1 && forall i :: 0 <= i < |parts| ==> '.' !in parts[i]
    ensures Split(Join(parts)) == parts
    decreases |parts|
  {
    if |parts| > 1 {
      var tail := parts[1..];
      assert Join(parts) == parts[0] + "." + Join(tail);
      assert '.' !in parts[0];
      assert forall i :: 0 <= i < |tail| ==> tail[i] == parts[i + 1];
      SplitCons(parts[0], Join(tail));
      SplitJoin(tail);
      assert parts == [parts[0]] + tail;
    }
  }

  // ------------------------------------------------------------ lookup

  /** Descend one mapping level per key; None as soon as a key is missing or the value is not a mapping. */
  function Walk(v: Value, keys: seq<string>): (r: Option<Value>)
    ensures keys == [] ==> r == Some(v)
    ensures keys != [] && !(v.Dict? && keys[0] in v.entries) ==> r == None
  {
    if keys == [] then Some(v)
    else if v.Dict? && keys[0] in v.entries then Walk(v.entries[keys[0]], keys[1..])
    else None
  }

  /** The value `get(key, default)` returns. */
  function Lookup(data: map<string, Value>, key: string, default: Value): (r: Value)
    ensures '.' !in key && key in data ==> r == data[key]
    ensures Split(key)[0] !in data ==> r == default
  {
    Walk(Dict(data), Split(key)).GetOr(default)
  }

  /** `Config.get`: reassigns the current value once per segment, with an early return. */
  method Get(data: map<string, Value>, key: string, default: Value) returns (r: Value)
    ensures r == Lookup(data, key, default)
  {
    var keys := Split(key);
    var value := Dict(data);
    for i := 0 to |keys|
      invariant Walk(value, keys[i..]) == Walk(Dict(data), keys)
    {
      assert keys[i..][1..] == keys[i + 1..];
      if value.Dict? && keys[i] in value.entries {
        value := value.entries[keys[i]];
      } else {
        return default;
      }
    }
    assert keys[|keys|..] == [];
    return value;
  }

  /** A key without dots is a plain top-level lookup; this covers the empty key. */
  lemma LookupPlain(data: map<string, Value>, key: string, default: Value)
    requires '.' !in key
    ensures Lookup(data, key, default) == if key in data then data[key] else default
  {
    assert Split(key) == [key];
  }

  /** `get("a.rest")` looks `rest` up inside the mapping under `a`, and is the default otherwise. */
  lemma LookupDescends(data: map<string, Value>, head: string, rest: string, default: Value)
    requires '.' !in head
    ensures Lookup(data, head + "." + rest, default) ==
      if head in data && data[head].Dict? then Lookup(data[head].entries, rest, default) else default
  {
    SplitCons(head, rest);
  }

  /** Looking up the segments `path` joined by dots is walking them one by one. */
  lemma LookupPath(data: map<string, Value>, path: seq<string>, default: Value)
    requires |path| >= 1 && forall i :: 0 <= i < |path| ==> '.' !in path[i]
    ensures Lookup(data, Join(path), default) == Walk(Dict(data), path).GetOr(default)
  {
    SplitJoin(path);
  }

  // ------------------------------------------------------------- merge

  datatype ConfigError =
    | NotAMapping(value: Value)
    | NotIterable(value: Value)
    | NotAPair(element: Value)
    | UnexpectedFields(section: string, names: set<string>)

  /** The fixed default configuration. */
  function DefaultConfig(): (d: map<string, Value>)
    ensures d.Keys == {"device", "random_seed", "data_dir", "log_level", "ris", "ga", "objectives"}
  {
    map[
      "device" := Str("cpu"),
      "random_seed" := Int(42),
      "data_dir" := Str("data"),
      "log_level" := Str("INFO"),
      "ris" := Dict(map[]),
      "ga" := Dict(map[]),
      "objectives" := Dict(map[])
    ]
  }

  /**
   * An element `dict.update` takes as a (key, value) pair with a string key: a list of
   * two items whose first is a string, or a string of two characters.
   */
  predicate IsPair(item: Value) {
    || (item.List? && |item.items| == 2 && item.items[0].Str?)
    || (item.Str? && |item.s| == 2)
  }

  function PairKey(item: Value): string
    requires IsPair(item)
  {
    if item.List? then item.items[0].s else [item.s[0]]
  }

  function PairValue(item: Value): Value
    requires IsPair(item)
  {
    if item.List? then item.items[1] else Str([item.s[1]])
  }

  predicate AllPairs(items: seq<Value>) {
    forall i :: 0 <= i < |items| ==> IsPair(items[i])
  }

  function PairKeys(items: seq<Value>): set<string>
    requires AllPairs(items)
  {
    set i | 0 <= i < |items| :: PairKey(items[i])
  }

  /**
   * `d.update(items)` for an iterable that is not a mapping: the elements are taken in
   * order, each must be a pair, and a later pair for a key overwrites an earlier one.
   */
  function UpdatePairs(d: map<string, Value>, items: seq<Value>): (r: Result<map<string, Value>, ConfigError>)
    ensures r.Success? <==> AllPairs(items)
    ensures r.Failure? ==>
      exists i :: 0 <= i < |items| && !IsPair(items[i]) && AllPairs(items[..i]) && r.error == NotAPair(items[i])
    ensures r.Success? ==> r.value.Keys == d.Keys + PairKeys(items)
    ensures r.Success? ==> forall k :: k in d && k !in PairKeys(items) ==> r.value[k] == d[k]
    decreases |items|
  {
    if items == [] then Success(d)
    else if !IsPair(items[0]) then
      assert AllPairs(items[..0]);
      Failure(NotAPair(items[0]))
    else
      var r := UpdatePairs(d[PairKey(items[0]) := PairValue(items[0])], items[1..]);
      UpdatePairsStep(items);
      r
  }

  lemma UpdatePairsStep(items: seq<Value>)
    requires items != [] && IsPair(items[0])
    ensures AllPairs(items) <==> AllPairs(items[1..])
    ensures AllPairs(items) ==> PairKeys(items) == {PairKey(items[0])} + PairKeys(items[1..])
    ensures forall i :: 0 <= i < |items| - 1 && AllPairs(items[1..][..i]) ==> AllPairs(items[..i + 1])
  {
    if AllPairs(items) {
      forall k | k in PairKeys(items) ensures k in {PairKey(items[0])} + PairKeys(items[1..]) {
        var i :| 0 <= i < |items| && PairKey(items[i]) == k;
        if i > 0 { assert items[1..][i - 1] == items[i]; }
      }
      forall k | k in PairKeys(items[1..]) ensures k in PairKeys(items) {
        var i :| 0 <= i < |items| - 1 && PairKey(items[1..][i]) == k;
        assert items[1..][i] == items[i + 1];
      }
    }
    forall i | 0 <= i < |items| - 1 && AllPairs(items[1..][..i]) ensures AllPairs(items[..i + 1]) {
      var prefix := items[..i + 1];
      forall j | 0 <= j < |prefix| ensures IsPair(prefix[j]) {
        if j > 0 { assert prefix[j] == items[1..][..i][j - 1]; }
      }
    }
  }

  /** The value a successful update leaves for a key is that of the key's last pair. */
  lemma {:induction false} UpdatePairsLastWins(d: map<string, Value>, items: seq<Value>, i: nat)
    requires AllPairs(items)
    requires i < |items| && forall j :: i < j < |items| ==> PairKey(items[j]) != PairKey(items[i])
    ensures UpdatePairs(d, items).Success?
    ensures UpdatePairs(d, items).value[PairKey(items[i])] == PairValue(items[i])
    decreases |items|
  {
    var d' := d[PairKey(items[0]) := PairValue(items[0])];
    var rest := items[1..];
    assert AllPairs(rest) by {
      forall j | 0 <= j < |rest| ensures IsPair(rest[j]) { assert rest[j] == items[j + 1]; }
    }
    if i > 0 {
      forall j | i - 1 < j < |rest| ensures PairKey(rest[j]) != PairKey(rest[i - 1]) {
        assert rest[j] == items[j + 1];
      }
      UpdatePairsLastWins(d', rest, i - 1);
    }
  }

  /** Iterating a string yields its characters, each a one-character string. */
  function Chars(s: string): (cs: seq<Value>)
    ensures |cs| == |s| && forall i :: 0 <= i < |s| ==> cs[i] == Str([s[i]])
  {
    seq(|s|, i requires 0 <= i < |s| => Str([s[i]]))
  }

  /** What `dict.update` accepts: a mapping, an iterable of pairs, or a string without characters. */
  predicate UpdateAccepts(v: Value) {
    match v
    case Dict(_) => true
    case List(items) => AllPairs(items)
    case Str(s) => s == ""
    case _ => false
  }

  /**
   * `_load_config`: `file` is the parsed content of an existing configuration file, or
   * None when there is no path or no such file. A parsed mapping is merged over the
   * defaults key by key; a list or a string is taken as an iterable of pairs; a
   * scalar or an empty file (`Null`) makes `dict.update` raise.
   */
  function LoadConfig(file: Option<Value>): (r: Result<map<string, Value>, ConfigError>)
    ensures file.None? ==> r == Success(DefaultConfig())
    ensures r.Failure? <==> file.Some? && !UpdateAccepts(file.value)
    ensures r.Success? && file.Some? && file.value.Dict? ==>
      && r.value.Keys == DefaultConfig().Keys + file.value.entries.Keys
      && (forall k :: k in file.value.entries ==> r.value[k] == file.value.entries[k])
      && (forall k :: k in DefaultConfig() && k !in file.value.entries ==> r.value[k] == DefaultConfig()[k])
    ensures file.Some? && file.value.List? ==> r == UpdatePairs(DefaultConfig(), file.value.items)
    ensures r.Success? && file.Some? && file.value.Str? ==> r.value == DefaultConfig()
    ensures file.Some? && !file.value.Dict? && !file.value.List? && !file.value.Str? ==>
      r == Failure(NotIterable(file.value))
  {
    match file
    case None => Success(DefaultConfig())
    case Some(Dict(user)) => Success(DefaultConfig() + user)
    case Some(List(items)) => UpdatePairs(DefaultConfig(), items)
    case Some(Str(s)) =>
      assert s != "" ==> !IsPair(Chars(s)[0]);
      UpdatePairs(DefaultConfig(), Chars(s))
    case Some(other) => Failure(NotIterable(other))
  }

  // ---------------------------------------------------- structured sections

  /** Fields and defaults of `RISConfig`. */
  function RisDefaults(): (d: map<string, Value>)
    ensures d.Keys == {"theta", "epsilon", "max_iterations", "parallel_workers"}
  {
    map["theta" := Int(1000), "epsilon" := Real(0.1), "max_iterations" := Int(100), "parallel_workers" := Int(4)]
  }

  /** Fields and defaults of `GAConfig`. */
  function GaDefaults(): (d: map<string, Value>)
    ensures d.Keys == {"population_size", "generations", "crossover_rate", "mutation_rate", "tournament_size", "elite_size"}
  {
    map[
      "population_size" := Int(100), "generations" := Int(50), "crossover_rate" := Real(0.8),
      "mutation_rate" := Real(0.1), "tournament_size" := Int(3), "elite_size" := Int(5)
    ]
  }

  /** Fields and defaults of `ObjectiveConfig`. */
  function ObjectiveDefaults(): (d: map<string, Value>)
    ensures d.Keys == {"influence_weight", "cost_weight", "equity_weight", "time_weight"}
  {
    map["influence_weight" := Real(0.4), "cost_weight" := Real(0.3), "equity_weight" := Real(0.3), "time_weight" := Real(0.0)]
  }

  /**
   * A dataclass built from `**section`: the section must be a mapping whose keys are all
   * fields; supplied fields are taken as given (dataclasses do not check types), the
   * others keep their defaults.
   */
  function FillDefaults(name: string, defaults: map<string, Value>, section: Value): (r: Result<map<string, Value>, ConfigError>)
    ensures r.Failure? <==> !section.Dict? || !(section.entries.Keys <= defaults.Keys)
    ensures !section.Dict? ==> r == Failure(NotAMapping(section))
    ensures section.Dict? && r.Failure? ==>
      r.error == UnexpectedFields(name, section.entries.Keys - defaults.Keys) && r.error.names != {}
    ensures r.Success? ==>
      && r.value.Keys == defaults.Keys
      && (forall k :: k in section.entries ==> r.value[k] == section.entries[k])
      && (forall k :: k in defaults && k !in section.entries ==> r.value[k] == defaults[k])
  {
    if !section.Dict? then Failure(NotAMapping(section))
    else if !(section.entries.Keys <= defaults.Keys) then
      NotSubsetDifference(section.entries.Keys, defaults.Keys);
      Failure(UnexpectedFields(name, section.entries.Keys - defaults.Keys))
    else Success(defaults + section.entries)
  }

  lemma NotSubsetDifference(a: set<string>, b: set<string>)
    requires !(a <= b)
    ensures a - b != {}
  {
    var k :| k in a && k !in b;
    assert k in a - b;
  }

  /** A section of the merged data, `{}` when it is absent. */
  function Section(data: map<string, Value>, name: string): (v: Value)
    ensures name in data ==> v == data[name]
    ensures name !in data ==> v == Dict(map[])
  {
    if name in data then data[name] else Dict(map[])
  }

  /** A constructed `Config`: the merged data and its three structured sections. */
  datatype ConfigState = ConfigState(
    configData: map<string, Value>,
    ris: map<string, Value>,
    ga: map<string, Value>,
    objectives: map<string, Value>)

  /** `Config.__init__`, with the configuration file already read and parsed into `file`. */
  function NewConfig(file: Option<Value>): (r: Result<ConfigState, ConfigError>)
    ensures r.Success? ==> LoadConfig(file).Success? && r.value.configData == LoadConfig(file).value
    ensures r.Success? ==>
      && FillDefaults("ris", RisDefaults(), Section(r.value.configData, "ris")) == Success(r.value.ris)
      && FillDefaults("ga", GaDefaults(), Section(r.value.configData, "ga")) == Success(r.value.ga)
      && FillDefaults("objectives", ObjectiveDefaults(), Section(r.value.configData, "objectives")) == Success(r.value.objectives)
    ensures LoadConfig(file).Failure? ==> r.Failure? && r.error == LoadConfig(file).error
    ensures r.Success? <==>
      && LoadConfig(file).Success?
      && FillDefaults("ris", RisDefaults(), Section(LoadConfig(file).value, "ris")).Success?
      && FillDefaults("ga", GaDefaults(), Section(LoadConfig(file).value, "ga")).Success?
      && FillDefaults("objectives", ObjectiveDefaults(), Section(LoadConfig(file).value, "objectives")).Success?
    // the sections are built in the order ris, ga, objectives; the first that fails is reported
    ensures LoadConfig(file).Success? ==>
      var data := LoadConfig(file).value;
      var ris := FillDefaults("ris", RisDefaults(), Section(data, "ris"));
      var ga := FillDefaults("ga", GaDefaults(), Section(data, "ga"));
      var objectives := FillDefaults("objectives", ObjectiveDefaults(), Section(data, "objectives"));
      && (ris.Failure? ==> r == Failure(ris.error))
      && (ris.Success? && ga.Failure? ==> r == Failure(ga.error))
      && (ris.Success? && ga.Success? && objectives.Failure? ==> r == Failure(objectives.error))
  {
    match LoadConfig(file)
    case Failure(e) => Failure(e)
    case Success(data) =>
      match FillDefaults("ris", RisDefaults(), Section(data, "ris"))
      case Failure(e) => Failure(e)
      case Success(ris) =>
        match FillDefaults("ga", GaDefaults(), Section(data, "ga"))
        case Failure(e) => Failure(e)
        case Success(ga) =>
          match FillDefaults("objectives", ObjectiveDefaults(), Section(data, "objectives"))
          case Failure(e) => Failure(e)
          case Success(objectives) => Success(ConfigState(data, ris, ga, objectives))
  }

  /** Without a configuration file every field takes its dataclass default. */
  /** A file whose YAML is the empty string, an iterable without pairs, leaves exactly the defaults. */
  lemma EmptyStringFile()
    ensures LoadConfig(Some(Str(""))) == Success(DefaultConfig())
    ensures NewConfig(Some(Str(""))) == NewConfig(None)
  {
    assert Chars("") == [];
  }

  lemma DefaultsWithoutFile()
    ensures var r := NewConfig(None);
      && r.Success?
      && r.value.configData == DefaultConfig()
      && r.value.ris == RisDefaults() && r.value.ga == GaDefaults() && r.value.objectives == ObjectiveDefaults()
      && r.value.ris["theta"] == Int(1000) && r.value.ris["parallel_workers"] == Int(4)
  {
    var d := DefaultConfig();
    assert Section(d, "ris") == Dict(map[]);
    assert Section(d, "ga") == Dict(map[]);
    assert Section(d, "objectives") == Dict(map[]);
    assert RisDefaults() + map[] == RisDefaults();
    assert GaDefaults() + map[] == GaDefaults();
    assert ObjectiveDefaults() + map[] == ObjectiveDefaults();
  }

  /**
   * A user `ris` section replaces the default section wholesale, and its fields win over
   * the dataclass defaults; the fields it leaves out keep their defaults.
   */
  lemma UserSectionReplacesDefault(user: map<string, Value>, ris: map<string, Value>)
    requires "ris" in user && user["ris"] == Dict(ris)
    requires NewConfig(Some(Dict(user))).Success?
    ensures var c := NewConfig(Some(Dict(user))).value;
      && c.configData["ris"] == Dict(ris)
      && (forall k :: k in ris ==> c.ris[k] == ris[k])
      && (forall k :: k in RisDefaults() && k !in ris ==> c.ris[k] == RisDefaults()[k])
  {
    var c := NewConfig(Some(Dict(user))).value;
    assert Section(c.configData, "ris") == Dict(ris);
  }
}
