/**
 * The raw-file fallback of `DataAnalyzer._load_configuration_data`
 * (app/data_analyzer.py): every `.vec` file of a configuration is reduced to
 * per-(node, signal) statistics and written over the node table, then every
 * `.sca` file writes its scalars over the same table.  The node key is the
 * bare digit group of the case-sensitive node pattern.
 */
module AnalyzerLoad {
  import opened Wrappers
  import opened Text
  import opened RunningStats
  import NodePattern
  import VectorTrace
  import EventRates

  type VectorInfo = VectorTrace.VectorInfo
  type Entry = EventRates.Entry

  /** `processed_data["vector_stats"]["0"]["node_stats"]`: node id to signal to statistic. */
  type NodeMap = map<string, map<string, Entry>>

  /** One accepted line: the node digits, the signal or metric name, and the value. */
  datatype Hit = Hit(node: string, name: string, value: real)

  // ================================================================ .vec files

  /**
   * The second pass of `_process_vector_file`: a line is considered only if
   * its first character is a digit; an id that is not an integer, a missing
   * fourth field, a value that is not a float, an undefined vector and a
   * module the node pattern does not match give nothing.
   */
  function SampleOf(line: string, info: VectorInfo): (r: Option<Hit>)
    ensures r.Some? ==> IsDigits(r.value.node)
  {
    if line == [] || !IsDigit(line[0]) then None
    else
      var parts := Split(line);
      if |parts| < 4 then None
      else if ParseInt(parts[0]).None? || ParseReal(parts[3]).None? then None
      else
        var id := ParseInt(parts[0]).value;
        if id !in info then None
        else match NodePattern.Search(info[id].0, false)
          case None => None
          case Some(d) => Some(Hit(d, info[id].1, ParseReal(parts[3]).value))
  }

  function Step(t: Table<(string, string)>, line: string, info: VectorInfo): Table<(string, string)> {
    match SampleOf(line, info)
    case None => t
    case Some(h) => Record(t, (h.node, h.name), h.value)
  }

  /** The per-(node, signal) statistics of the lines, in order. */
  function Accumulate(lines: seq<string>, info: VectorInfo): Table<(string, string)>
    decreases |lines|
  {
    if lines == [] then map[]
    else Step(Accumulate(lines[..|lines| - 1], info), lines[|lines| - 1], info)
  }

  /** `{"count", "mean": sum / count, "min", "max"}` of a statistic. */
  function EntryOf(s: RunningStat): Entry
    requires s.count > 0
  {
    EventRates.Entry(s.count, Mean(s), if s.min.Finite? then s.min.v else 0.0, if s.max.Finite? then s.max.v else 0.0)
  }

  function Signals(nodes: NodeMap, n: string): map<string, Entry> {
    if n in nodes then nodes[n] else map[]
  }

  /** The entries of one node that the file's statistics supply. */
  function Fresh(t: Table<(string, string)>, n: string): map<string, Entry> {
    map k | k in t && k.0 == n && t[k].count > 0 :: k.1 := EntryOf(t[k])
  }

  /** The write-back loop: every node of the file gets a dictionary, and its entries replace older ones. */
  function WriteBack(nodes: NodeMap, t: Table<(string, string)>): NodeMap {
    map n | n in nodes.Keys + (set k | k in t :: k.0) :: Signals(nodes, n) + Fresh(t, n)
  }

  /** One `.vec` file; a non-integer id in a definition line raises `ValueError`. */
  function VectorFile(nodes: NodeMap, lines: seq<string>): Result<NodeMap> {
    match VectorTrace.Definitions(lines)
    case Failure(e) => Failure(e)
    case Success(info) => Success(WriteBack(nodes, Accumulate(lines, info)))
  }

  /** `_process_vector_file` on the lines of one file. */
  method ProcessVectorFile(nodes: NodeMap, lines: seq<string>) returns (r: Result<NodeMap>)
    ensures r == VectorFile(nodes, lines)
  {
    var defs := VectorTrace.ReadDefinitions(lines);
    if defs.Failure? {
      return Failure(defs.error);
    }
    var stats: Table<(string, string)> := map[];
    for i := 0 to |lines|
      invariant stats == Accumulate(lines[..i], defs.value)
    {
      assert lines[..i + 1][..i] == lines[..i];
      stats := Step(stats, lines[i], defs.value);
    }
    assert lines[..|lines|] == lines;
    return Success(WriteBack(nodes, stats));
  }

  // ================================================================ .sca files

  /**
   * The filter of `_process_scalar_file`: the raw line starts with
   * `scalar `, the stripped line splits into four parts, the remainder is a
   * float and the module matches the case-sensitive node pattern.
   */
  function ScalarOf(line: string): (r: Option<Hit>)
    ensures r.Some? ==> IsDigits(r.value.node)
  {
    if !StartsWith(line, "scalar ") then None
    else
      var parts := SplitMax(Strip(line), 3);
      if |parts| < 4 then None
      else match ParseReal(parts[3])
        case None => None
        case Some(v) =>
          match NodePattern.Search(parts[1], false)
          case None => None
          case Some(d) => Some(Hit(d, parts[2], v))
  }

  /** A scalar is written as one sample: count 1, and the value as mean, min and max. */
  function SetScalar(nodes: NodeMap, h: Hit): NodeMap {
    nodes[h.node := Signals(nodes, h.node)[h.name := EventRates.Entry(1, h.value, h.value, h.value)]]
  }

  function ScalarFile(nodes: NodeMap, lines: seq<string>): NodeMap
    decreases |lines|
  {
    if lines == [] then nodes
    else
      var before := ScalarFile(nodes, lines[..|lines| - 1]);
      match ScalarOf(lines[|lines| - 1])
      case None => before
      case Some(h) => SetScalar(before, h)
  }

  /** `_process_scalar_file` on the lines of one file. */
  method ProcessScalarFile(nodes: NodeMap, lines: seq<string>) returns (r: NodeMap)
    ensures r == ScalarFile(nodes, lines)
  {
    r := nodes;
    for i := 0 to |lines|
      invariant r == ScalarFile(nodes, lines[..i])
    {
      assert lines[..i + 1][..i] == lines[..i];
      var h := ScalarOf(lines[i]);
      if h.Some? {
        r := r[h.value.node := Signals(r, h.value.node)[h.value.name := EventRates.Entry(1, h.value.value, h.value.value, h.value.value)]];
      }
    }
    assert lines[..|lines|] == lines;
  }

  // ================================================================ a configuration

  datatype Processed = Processed(simulation: string, nodeStats: NodeMap)

  /** The `.vec` files in order; the first failure aborts the load. */
  function VectorFiles(nodes: NodeMap, files: seq<seq<string>>): Result<NodeMap>
    decreases |files|
  {
    if files == [] then Success(nodes)
    else match VectorFiles(nodes, files[..|files| - 1])
      case Failure(e) => Failure(e)
      case Success(before) => VectorFile(before, files[|files| - 1])
  }

  function ScalarFiles(nodes: NodeMap, files: seq<seq<string>>): NodeMap
    decreases |files|
  {
    if files == [] then nodes else ScalarFile(ScalarFiles(nodes, files[..|files| - 1]), files[|files| - 1])
  }

  /**
   * The raw branch of `_load_configuration_data`: no files give nothing;
   * otherwise the `.vec` files, then the `.sca` files, over an empty table.
   */
  function LoadRaw(name: string, vecFiles: seq<seq<string>>, scaFiles: seq<seq<string>>): Option<Result<Processed>> {
    if vecFiles == [] && scaFiles == [] then None
    else match VectorFiles(map[], vecFiles)
      case Failure(e) => Some(Failure(e))
      case Success(nodes) => Some(Success(Processed(name, ScalarFiles(nodes, scaFiles))))
  }

  method LoadConfiguration(name: string, vecFiles: seq<seq<string>>, scaFiles: seq<seq<string>>)
    returns (r: Option<Result<Processed>>)
    ensures r == LoadRaw(name, vecFiles, scaFiles)
  {
    if vecFiles == [] && scaFiles == [] {
      return None;
    }
    var nodes: NodeMap := map[];
    for i := 0 to |vecFiles|
      invariant VectorFiles(map[], vecFiles[..i]) == Success(nodes)
    {
      assert vecFiles[..i + 1][..i] == vecFiles[..i];
      var next := ProcessVectorFile(nodes, vecFiles[i]);
      if next.Failure? {
        VectorFilesFailureSticks(vecFiles, i + 1);
        assert vecFiles[..|vecFiles|] == vecFiles;
        return Some(Failure(next.error));
      }
      nodes := next.value;
    }
    assert vecFiles[..|vecFiles|] == vecFiles;
    var vectors := nodes;
    for i := 0 to |scaFiles|
      invariant nodes == ScalarFiles(vectors, scaFiles[..i])
    {
      assert scaFiles[..i + 1][..i] == scaFiles[..i];
      nodes := ProcessScalarFile(nodes, scaFiles[i]);
    }
    assert scaFiles[..|scaFiles|] == scaFiles;
    return Some(Success(Processed(name, nodes)));
  }

  lemma {:induction false} VectorFilesFailureSticks(files: seq<seq<string>>, i: nat)
    requires i <= |files| && VectorFiles(map[], files[..i]).Failure?
    ensures VectorFiles(map[], files) == VectorFiles(map[], files[..i])
    decreases |files| - i
  {
    if i < |files| {
      assert files[..i + 1][..i] == files[..i];
      VectorFilesFailureSticks(files, i + 1);
    } else {
      assert files[..i] == files;
    }
  }

  // ================================================================ as written

  /**
   * `_load_configuration_data` as the file stands: both raw parsers start
   * with `re.compile`, and the module never imports `re`, so any raw file
   * makes the load raise `NameError`.
   */
  function LoadRawAsWritten(name: string, vecFiles: seq<seq<string>>, scaFiles: seq<seq<string>>): (r: Option<Result<Processed>>)
    ensures r.None? <==> LoadRaw(name, vecFiles, scaFiles).None?
  {
    if vecFiles == [] && scaFiles == [] then None else Some(Failure(NameError("re")))
  }

  /** One empty `.vec` file: the intended load gives an empty table, the written one fails. */
  lemma MissingImportFails()
    ensures LoadRawAsWritten("run", [[]], []) == Some(Failure(NameError("re")))
    ensures LoadRaw("run", [[]], []) == Some(Success(Processed("run", map[])))
  {
    var files: seq<seq<string>> := [[]];
    assert files[..0] == [];
    assert VectorTrace.LineDefs([]) == [];
    assert WriteBack(map[], map[]) == map[];
  }

  // ================================================================ properties

  function Lookup(nodes: NodeMap, n: string, s: string): Option<Entry> {
    if n in nodes && s in nodes[n] then Some(nodes[n][s]) else None
  }

  /** Every entry of a file's statistics was sampled and is a valid statistic. */
  ghost predicate Sampled(t: Table<(string, string)>) {
    forall k :: k in t ==> t[k].count > 0 && Valid(t[k]) && IsDigits(k.0)
  }

  lemma {:induction false} AccumulateSampled(lines: seq<string>, info: VectorInfo)
    ensures Sampled(Accumulate(lines, info))
    decreases |lines|
  {
    if lines != [] {
      var before := Accumulate(lines[..|lines| - 1], info);
      AccumulateSampled(lines[..|lines| - 1], info);
      var h := SampleOf(lines[|lines| - 1], info);
      if h.Some? {
        var k := (h.value.node, h.value.name);
        AddValid(Get(before, k), h.value.value);
        assert Record(before, k, h.value.value)[k] == Add(Get(before, k), h.value.value);
      }
    }
  }

  /**
   * A `.vec` file overwrites rather than combines: each (node, signal) it
   * has samples for holds the file's own statistic, whatever was there
   * before, and every other entry is left as it was.
   */
  lemma VectorFileOverwrites(nodes: NodeMap, lines: seq<string>, n: string, s: string)
    requires VectorTrace.Definitions(lines).Success?
    ensures var t := Accumulate(lines, VectorTrace.Definitions(lines).value);
      (n, s) in t ==> t[(n, s)].count > 0
    ensures var t := Accumulate(lines, VectorTrace.Definitions(lines).value);
      VectorFile(nodes, lines).Success? &&
      Lookup(VectorFile(nodes, lines).value, n, s)
        == if (n, s) in t then Some(EntryOf(t[(n, s)])) else Lookup(nodes, n, s)
  {
    var t := Accumulate(lines, VectorTrace.Definitions(lines).value);
    AccumulateSampled(lines, VectorTrace.Definitions(lines).value);
    var r := WriteBack(nodes, t);
    if (n, s) in t {
      assert n in r;
      assert s in Fresh(t, n);
    } else if n in nodes && s in nodes[n] {
      assert n in r;
      assert s !in Fresh(t, n);
    } else if n in r {
      assert s !in Fresh(t, n);
    }
  }

  /** Every entry a `.vec` file writes has `min <= mean <= max`. */
  lemma VectorEntryOrdered(lines: seq<string>, info: VectorInfo, k: (string, string))
    requires k in Accumulate(lines, info)
    ensures Accumulate(lines, info)[k].count > 0
    ensures var e := EntryOf(Accumulate(lines, info)[k]); e.min <= e.mean <= e.max
  {
    AccumulateSampled(lines, info);
    MeanBetween(Accumulate(lines, info)[k]);
  }

  /** The value of the last scalar line for `(node, metric)`, searching backwards. */
  function LastScalar(lines: seq<string>, node: string, metric: string): Option<real>
    decreases |lines|
  {
    if lines == [] then None
    else
      var h := ScalarOf(lines[|lines| - 1]);
      if h.Some? && h.value.node == node && h.value.name == metric then Some(h.value.value)
      else LastScalar(lines[..|lines| - 1], node, metric)
  }

  /** The last scalar line of a pair wins and becomes a one-sample entry; pairs without one keep their entry. */
  lemma {:induction false} ScalarFileLastWins(nodes: NodeMap, lines: seq<string>, n: string, m: string)
    ensures Lookup(ScalarFile(nodes, lines), n, m)
         == match LastScalar(lines, n, m)
            case Some(v) => Some(EventRates.Entry(1, v, v, v))
            case None => Lookup(nodes, n, m)
    decreases |lines|
  {
    if lines != [] {
      ScalarFileLastWins(nodes, lines[..|lines| - 1], n, m);
    }
  }

  /** Reading two files one after the other is reading their lines in one go. */
  lemma {:induction false} ScalarFileAppend(nodes: NodeMap, a: seq<string>, b: seq<string>)
    ensures ScalarFile(ScalarFile(nodes, a), b) == ScalarFile(nodes, a + b)
    decreases |b|
  {
    if b == [] {
      assert a + b == a;
    } else {
      assert (a + b)[..|a + b| - 1] == a + b[..|b| - 1];
      assert (a + b)[|a + b| - 1] == b[|b| - 1];
      ScalarFileAppend(nodes, a, b[..|b| - 1]);
    }
  }

  function Flatten(files: seq<seq<string>>): seq<string>
    decreases |files|
  {
    if files == [] then [] else Flatten(files[..|files| - 1]) + files[|files| - 1]
  }

  lemma {:induction false} ScalarFilesFlatten(nodes: NodeMap, files: seq<seq<string>>)
    ensures ScalarFiles(nodes, files) == ScalarFile(nodes, Flatten(files))
    decreases |files|
  {
    if files != [] {
      ScalarFilesFlatten(nodes, files[..|files| - 1]);
      ScalarFileAppend(nodes, Flatten(files[..|files| - 1]), files[|files| - 1]);
    }
  }

  /**
   * Scalars are written after all vectors: a (node, metric) pair that any
   * `.sca` file mentions ends up as the last such scalar, even where a
   * `.vec` file wrote a signal of the same name.
   */
  lemma ScalarsWin(name: string, vecFiles: seq<seq<string>>, scaFiles: seq<seq<string>>, n: string, m: string, v: real)
    requires LoadRaw(name, vecFiles, scaFiles).Some? && LoadRaw(name, vecFiles, scaFiles).value.Success?
    requires LastScalar(Flatten(scaFiles), n, m) == Some(v)
    ensures Lookup(LoadRaw(name, vecFiles, scaFiles).value.value.nodeStats, n, m) == Some(EventRates.Entry(1, v, v, v))
  {
    var nodes := VectorFiles(map[], vecFiles).value;
    ScalarFilesFlatten(nodes, scaFiles);
    ScalarFileLastWins(nodes, Flatten(scaFiles), n, m);
  }
}
