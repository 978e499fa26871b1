/**
 * The lightweight result readers of `SimulationConfig`
 * (app/simulation_config.py): the streaming `.vec` reducer, which keys each
 * sample by node or gateway and derives packet counters, the `.sca` reader,
 * which keeps the last value of every (node, metric) pair, and the INI
 * generator, which appends the output paths and parameters of one run to the
 * base template.
 */
module SimTrace {
  import opened Wrappers
  import opened Text
  import opened RunningStats
  import NodePattern
  import VectorTrace
  import CrossRep

  type VectorInfo = VectorTrace.VectorInfo

  /** A statistic is kept per (node key, signal name). */
  type Key = (string, string)

  const OutgoingPacketLengths := "outgoingPacketLengths:vector"
  const IncomingPacketLengths := "incomingPacketLengths:vector"
  const PacketsSent := "packets_sent"
  const PacketsReceived := "packets_received"

  /** The two derived counters, which never receive a sample value of their own. */
  predicate IsCounter(signal: string) {
    signal == PacketsSent || signal == PacketsReceived
  }

  /** A module path names a gateway when it mentions `GW`, `PacketForwarder` or `NetworkServer`. */
  predicate IsGatewayModule(path: string) {
    Contains(path, "GW") || Contains(path, "PacketForwarder") || Contains(path, "NetworkServer")
  }

  // ================================================================ the vector pass

  /** One accepted sample: the vector it belongs to, its key, its signal and its value. */
  datatype Reading = Reading(vecId: int, node: string, gateway: bool, key: string, signal: string, value: real)

  /**
   * The filters and parsing of one line of the second pass.  Blank lines,
   * `vector ` and `#` lines, lines with fewer than four fields or a non-digit
   * first field, lines whose time or value is not a float, lines of undefined
   * vectors and modules the node pattern does not match give nothing.  The
   * key is the raw digit group, prefixed with `GW` for a gateway module.
   */
  function ReadingOf(line: string, info: VectorInfo): (r: Option<Reading>)
    ensures r.Some? ==> r.value.vecId in info && r.value.signal == info[r.value.vecId].1
    ensures r.Some? ==> IsDigits(r.value.node) && (r.value.gateway <==> StartsWith(r.value.key, "GW"))
  {
    var t := Strip(line);
    if t == [] || StartsWith(t, "vector ") || StartsWith(t, "#") then None
    else
      var parts := Split(t);
      if |parts| < 4 || !IsDigits(parts[0]) then None
      else if ParseReal(parts[2]).None? || ParseReal(parts[3]).None? then None
      else
        var id := DigitsValue(parts[0]);
        if id !in info then None
        else
          var (path, signal) := info[id];
          match NodePattern.Search(path, true)
          case None => None
          case Some(d) =>
            var gateway := IsGatewayModule(path);
            var key := if gateway then "GW" + d else d;
            KeyPrefix(d, gateway);
            Some(Reading(id, d, gateway, key, signal, ParseReal(parts[3]).value))
  }

  /** A key starts with `GW` exactly when it was given the gateway prefix. */
  lemma KeyPrefix(d: string, gateway: bool)
    requires IsDigits(d)
    ensures StartsWith(if gateway then "GW" + d else d, "GW") <==> gateway
  {
    if gateway {
      assert ("GW" + d)[..2] == "GW";
    } else {
      assert d[0] != 'G';
    }
  }

  /** `packet_stats["count"] += 1`: a counter entry counts without taking a value. */
  function Tally(t: Table<Key>, k: Key): (r: Table<Key>)
    ensures r.Keys == t.Keys + {k}
    ensures Get(r, k).count == Get(t, k).count + 1 && Get(r, k).sum == Get(t, k).sum
    ensures Get(r, k).min == Get(t, k).min && Get(r, k).max == Get(t, k).max
    ensures forall j :: j != k ==> Get(r, j) == Get(t, j)
  {
    t[k := Get(t, k).(count := Get(t, k).count + 1)]
  }

  /**
   * The effect of one line: the sample is folded into its (key, signal)
   * entry, then a node's `outgoingPacketLengths` sample also counts one
   * packet sent and a gateway's `incomingPacketLengths` sample one packet
   * received.
   */
  function Accept(t: Table<Key>, line: string, info: VectorInfo): Table<Key> {
    match ReadingOf(line, info)
    case None => t
    case Some(r) => Take(t, r)
  }

  function Take(t: Table<Key>, r: Reading): Table<Key> {
    var recorded := Record(t, (r.key, r.signal), r.value);
    if r.signal == OutgoingPacketLengths && !r.gateway then Tally(recorded, (r.key, PacketsSent))
    else if r.signal == IncomingPacketLengths && r.gateway then Tally(recorded, (r.key, PacketsReceived))
    else recorded
  }

  /** The table after the lines in order. */
  function Accumulate(lines: seq<string>, info: VectorInfo): Table<Key>
    decreases |lines|
  {
    if lines == [] then map[]
    else Accept(Accumulate(lines[..|lines| - 1], info), lines[|lines| - 1], info)
  }

  /** The reported form of one statistic: an infinite bound is written as 0. */
  datatype Reported = Reported(count: nat, mean: real, min: real, max: real, sum: real)

  function BoundOrZero(b: Bound): real {
    if b.Finite? then b.v else 0.0
  }

  function ReportOf(s: RunningStat): Reported
    requires s.count > 0
  {
    Reported(s.count, Mean(s), BoundOrZero(s.min), BoundOrZero(s.max), s.sum)
  }

  function NodeKeys(t: Table<Key>): set<string> {
    set k | k in t :: k.0
  }

  /** The signals of one node key that have a non-zero count. */
  function SignalReports(t: Table<Key>, n: string): map<string, Reported> {
    map k | k in t && k.0 == n && t[k].count > 0 :: k.1 := ReportOf(t[k])
  }

  /** The `result_stats` conversion: a nested dictionary per node key. */
  function Reports(t: Table<Key>): map<string, map<string, Reported>> {
    map n | n in NodeKeys(t) :: SignalReports(t, n)
  }

  /** The value `_process_vectors_lightweight` returns. */
  datatype Lightweight = Lightweight(nodeStats: map<string, map<string, Reported>>, vectorInfo: map<string, (string, string)>)

  /** Both passes over one file; the definition pass's `ValueError` escapes. */
  function LightweightOf(lines: seq<string>): Result<Lightweight> {
    match VectorTrace.Definitions(lines)
    case Failure(e) => Failure(e)
    case Success(info) => Success(Lightweight(Reports(Accumulate(lines, info)), CrossRep.InfoJson(info)))
  }

  /** `_process_vectors_lightweight` over the lines of a `.vec` file. */
  method ProcessVectorsLightweight(lines: seq<string>) returns (r: Result<Lightweight>)
    ensures r == LightweightOf(lines)
  {
    var defs := VectorTrace.ReadDefinitions(lines);
    if defs.Failure? {
      return Failure(defs.error);
    }
    var info := defs.value;
    var stats: Table<Key> := map[];
    for i := 0 to |lines|
      invariant stats == Accumulate(lines[..i], info)
    {
      assert lines[..i + 1][..i] == lines[..i];
      stats := Accept(stats, lines[i], info);
    }
    assert lines[..|lines|] == lines;
    return Success(Lightweight(Reports(stats), CrossRep.InfoJson(info)));
  }

  // ------------------------------------------------------------ vector pass properties

  /** No defined vector is itself called like a derived counter. */
  predicate NoCounterSignals(info: VectorInfo) {
    forall id :: id in info ==> !IsCounter(info[id].1)
  }

  /** Only a line that passes every filter gives a reading. */
  lemma ReadingFilters(line: string, info: VectorInfo)
    requires ReadingOf(line, info).Some?
    ensures var t := Strip(line);
      var parts := Split(t);
      && t != [] && !StartsWith(t, "vector ") && !StartsWith(t, "#")
      && |parts| >= 4 && IsDigits(parts[0])
      && ParseReal(parts[2]).Some? && ParseReal(parts[3]) == Some(ReadingOf(line, info).value.value)
      && ReadingOf(line, info).value.vecId == DigitsValue(parts[0])
  {
  }

  /**
   * The key of a reading is the node digits of its module path, with a `GW`
   * prefix exactly for gateway modules; so node keys and gateway keys never meet.
   */
  lemma ReadingKey(line: string, info: VectorInfo)
    requires ReadingOf(line, info).Some?
    ensures var r := ReadingOf(line, info).value;
      && NodePattern.Search(info[r.vecId].0, true) == Some(r.node)
      && r.gateway == IsGatewayModule(info[r.vecId].0)
      && r.key == if r.gateway then "GW" + r.node else r.node
  {
  }

  /** A counter entry that counts exactly the samples of `signal` under the same key. */
  predicate Tracks(t: Table<Key>, n: string, counter: string, signal: string) {
    Get(t, (n, counter)) == RunningStat(Get(t, (n, signal)).count, 0.0, PosInf, NegInf)
  }

  /** A reading that can neither be the counter nor the counted signal of `n` leaves both alone. */
  lemma TakeElsewhere(t: Table<Key>, x: Reading, n: string, counter: string, signal: string)
    requires (x.key, x.signal) != (n, counter) && (x.key, x.signal) != (n, signal)
    requires x.key != n || (Take(t, x) == Record(t, (x.key, x.signal), x.value))
    ensures Get(Take(t, x), (n, counter)) == Get(t, (n, counter))
    ensures Get(Take(t, x), (n, signal)) == Get(t, (n, signal))
  {
  }

  lemma TakeTracksSent(t: Table<Key>, x: Reading, n: string)
    requires !IsCounter(x.signal) && (x.gateway <==> StartsWith(x.key, "GW")) && !StartsWith(n, "GW")
    requires Tracks(t, n, PacketsSent, OutgoingPacketLengths)
    ensures Tracks(Take(t, x), n, PacketsSent, OutgoingPacketLengths)
  {
    if x.key == n && x.signal == OutgoingPacketLengths {
      var recorded := Record(t, (n, x.signal), x.value);
      assert Take(t, x) == Tally(recorded, (n, PacketsSent));
      assert Get(recorded, (n, PacketsSent)) == Get(t, (n, PacketsSent));
    } else {
      TakeElsewhere(t, x, n, PacketsSent, OutgoingPacketLengths);
    }
  }

  lemma TakeTracksReceived(t: Table<Key>, x: Reading, n: string)
    requires !IsCounter(x.signal) && (x.gateway <==> StartsWith(x.key, "GW")) && StartsWith(n, "GW")
    requires Tracks(t, n, PacketsReceived, IncomingPacketLengths)
    ensures Tracks(Take(t, x), n, PacketsReceived, IncomingPacketLengths)
  {
    if x.key == n && x.signal == IncomingPacketLengths {
      var recorded := Record(t, (n, x.signal), x.value);
      assert Take(t, x) == Tally(recorded, (n, PacketsReceived));
      assert Get(recorded, (n, PacketsReceived)) == Get(t, (n, PacketsReceived));
    } else {
      TakeElsewhere(t, x, n, PacketsReceived, IncomingPacketLengths);
    }
  }

  /**
   * A node key's `packets_sent` entry counts exactly its
   * `outgoingPacketLengths` samples and carries no value of its own.
   */
  lemma {:induction false} PacketsSentCount(lines: seq<string>, info: VectorInfo, n: string)
    requires NoCounterSignals(info) && !StartsWith(n, "GW")
    ensures Get(Accumulate(lines, info), (n, PacketsSent))
         == RunningStat(Get(Accumulate(lines, info), (n, OutgoingPacketLengths)).count, 0.0, PosInf, NegInf)
    decreases |lines|
  {
    if lines != [] {
      PacketsSentCount(lines[..|lines| - 1], info, n);
      var r := ReadingOf(lines[|lines| - 1], info);
      if r.Some? {
        TakeTracksSent(Accumulate(lines[..|lines| - 1], info), r.value, n);
      }
    }
  }

  /**
   * A gateway key's `packets_received` entry counts exactly its
   * `incomingPacketLengths` samples and carries no value of its own.
   */
  lemma {:induction false} PacketsReceivedCount(lines: seq<string>, info: VectorInfo, n: string)
    requires NoCounterSignals(info) && StartsWith(n, "GW")
    ensures Get(Accumulate(lines, info), (n, PacketsReceived))
         == RunningStat(Get(Accumulate(lines, info), (n, IncomingPacketLengths)).count, 0.0, PosInf, NegInf)
    decreases |lines|
  {
    if lines != [] {
      PacketsReceivedCount(lines[..|lines| - 1], info, n);
      var r := ReadingOf(lines[|lines| - 1], info);
      if r.Some? {
        TakeTracksReceived(Accumulate(lines[..|lines| - 1], info), r.value, n);
      }
    }
  }

  /** What holds of every entry: it was touched at least once, and a sample entry is a valid statistic. */
  ghost predicate Entries(t: Table<Key>) {
    forall k :: k in t ==> t[k].count > 0 && (!IsCounter(k.1) ==> Valid(t[k]))
  }

  lemma TakeEntries(t: Table<Key>, x: Reading)
    requires !IsCounter(x.signal) && Entries(t)
    ensures Entries(Take(t, x))
  {
    var k := (x.key, x.signal);
    var recorded := Record(t, k, x.value);
    AddValid(Get(t, k), x.value);
    assert recorded[k] == Add(Get(t, k), x.value);
    assert Entries(recorded);
  }

  lemma {:induction false} AccumulateEntries(lines: seq<string>, info: VectorInfo)
    requires NoCounterSignals(info)
    ensures Entries(Accumulate(lines, info))
    decreases |lines|
  {
    if lines != [] {
      AccumulateEntries(lines[..|lines| - 1], info);
      var r := ReadingOf(lines[|lines| - 1], info);
      if r.Some? {
        TakeEntries(Accumulate(lines[..|lines| - 1], info), r.value);
      }
    }
  }

  lemma ReportsAt(t: Table<Key>, n: string, s: string)
    requires (n, s) in t && t[(n, s)].count > 0
    ensures n in Reports(t) && s in Reports(t)[n] && Reports(t)[n][s] == ReportOf(t[(n, s)])
  {
    assert n in NodeKeys(t);
    assert s in SignalReports(t, n);
  }

  /** A counter entry is reported with its count and zero for everything else. */
  lemma CounterReport(t: Table<Key>, n: string, counter: string, signal: string)
    requires (n, counter) in t && t[(n, counter)].count > 0 && Tracks(t, n, counter, signal)
    ensures n in Reports(t) && counter in Reports(t)[n]
    ensures Reports(t)[n][counter] == Reported(Get(t, (n, signal)).count, 0.0, 0.0, 0.0, 0.0)
  {
    var e := t[(n, counter)];
    assert e == RunningStat(Get(t, (n, signal)).count, 0.0, PosInf, NegInf);
    ReportsAt(t, n, counter);
  }

  /** The output holds exactly the keys and signals the file gave samples or packets to. */
  lemma ReportsDomain(lines: seq<string>, info: VectorInfo, n: string, s: string)
    requires NoCounterSignals(info)
    ensures (n in Reports(Accumulate(lines, info)) && s in Reports(Accumulate(lines, info))[n])
        <==> (n, s) in Accumulate(lines, info)
  {
    var t := Accumulate(lines, info);
    AccumulateEntries(lines, info);
    if (n, s) in t {
      assert n in NodeKeys(t);
      assert s in SignalReports(t, n);
    }
  }

  /** A reported sample signal has `min <= mean <= max` and the count of its samples. */
  lemma ReportedBetween(lines: seq<string>, info: VectorInfo, n: string, s: string)
    requires NoCounterSignals(info) && (n, s) in Accumulate(lines, info) && !IsCounter(s)
    ensures n in Reports(Accumulate(lines, info)) && s in Reports(Accumulate(lines, info))[n]
    ensures var e := Reports(Accumulate(lines, info))[n][s];
      e.count == Accumulate(lines, info)[(n, s)].count && e.min <= e.mean <= e.max
  {
    var t := Accumulate(lines, info);
    AccumulateEntries(lines, info);
    ReportsAt(t, n, s);
    MeanBetween(t[(n, s)]);
  }

  /** The reported `packets_sent` of a node: its packet count, with zero mean, bounds and sum. */
  lemma PacketsSentReport(lines: seq<string>, info: VectorInfo, n: string)
    requires NoCounterSignals(info) && !StartsWith(n, "GW") && (n, PacketsSent) in Accumulate(lines, info)
    ensures n in Reports(Accumulate(lines, info)) && PacketsSent in Reports(Accumulate(lines, info))[n]
    ensures Reports(Accumulate(lines, info))[n][PacketsSent]
         == Reported(Get(Accumulate(lines, info), (n, OutgoingPacketLengths)).count, 0.0, 0.0, 0.0, 0.0)
  {
    var t := Accumulate(lines, info);
    AccumulateEntries(lines, info);
    PacketsSentCount(lines, info, n);
    CounterReport(t, n, PacketsSent, OutgoingPacketLengths);
  }

  // ================================================================ the scalar pass

  /** One accepted `scalar <module> <metric> <value>` line. */
  datatype Scalar = Scalar(node: string, metric: string, value: real)

  /**
   * The filters of `_process_scalars`: the stripped line starts with
   * `scalar `, splits into four parts at most three times, the remainder is
   * a float and the module matches the node pattern.
   */
  function ScalarOf(line: string): (r: Option<Scalar>)
    ensures r.Some? ==>
      var parts := SplitMax(Strip(line), 3);
      && StartsWith(Strip(line), "scalar ") && |parts| == 4
      && ParseReal(parts[3]) == Some(r.value.value) && r.value.metric == parts[2]
      && NodePattern.Search(parts[1], true) == Some(r.value.node)
    ensures r.Some? ==> IsDigits(r.value.node)
  {
    var t := Strip(line);
    if !StartsWith(t, "scalar ") then None
    else
      var parts := SplitMax(t, 3);
      if |parts| < 4 then None
      else match ParseReal(parts[3])
        case None => None
        case Some(v) =>
          match NodePattern.Search(parts[1], true)
          case None => None
          case Some(d) => Some(Scalar(d, parts[2], v))
  }

  type Scalars = map<string, map<string, real>>

  /** `scalar_stats[node_id][metric] = value`, creating the node's dictionary on first use. */
  function Store(s: Scalars, sc: Scalar): Scalars {
    var inner := if sc.node in s then s[sc.node] else map[];
    s[sc.node := inner[sc.metric := sc.value]]
  }

  function ScalarsOf(lines: seq<string>): Scalars
    decreases |lines|
  {
    if lines == [] then map[]
    else
      var before := ScalarsOf(lines[..|lines| - 1]);
      match ScalarOf(lines[|lines| - 1])
      case None => before
      case Some(sc) => Store(before, sc)
  }

  /** `_process_scalars` over the lines of a `.sca` file. */
  method ProcessScalars(lines: seq<string>) returns (stats: Scalars)
    ensures stats == ScalarsOf(lines)
  {
    stats := map[];
    for i := 0 to |lines|
      invariant stats == ScalarsOf(lines[..i])
    {
      assert lines[..i + 1][..i] == lines[..i];
      var sc := ScalarOf(lines[i]);
      if sc.Some? {
        var inner := if sc.value.node in stats then stats[sc.value.node] else map[];
        stats := stats[sc.value.node := inner[sc.value.metric := sc.value.value]];
      }
    }
    assert lines[..|lines|] == lines;
  }

  /** The value of the last accepted line for `(node, metric)`, found by searching backwards. */
  function LastScalar(lines: seq<string>, node: string, metric: string): Option<real>
    decreases |lines|
  {
    if lines == [] then None
    else
      var sc := ScalarOf(lines[|lines| - 1]);
      if sc.Some? && sc.value.node == node && sc.value.metric == metric then Some(sc.value.value)
      else LastScalar(lines[..|lines| - 1], node, metric)
  }

  function Lookup(s: Scalars, node: string, metric: string): Option<real> {
    if node in s && metric in s[node] then Some(s[node][metric]) else None
  }

  /** Last write wins: each (node, metric) holds the value of its last line, and absent pairs had none. */
  lemma {:induction false} ScalarsLastWins(lines: seq<string>, node: string, metric: string)
    ensures Lookup(ScalarsOf(lines), node, metric) == LastScalar(lines, node, metric)
    decreases |lines|
  {
    if lines != [] {
      ScalarsLastWins(lines[..|lines| - 1], node, metric);
    }
  }

  /** Scalars are keyed by the bare digits of the node index. */
  lemma {:induction false} ScalarKeysDigits(lines: seq<string>)
    ensures forall n :: n in ScalarsOf(lines) ==> IsDigits(n)
    decreases |lines|
  {
    if lines != [] {
      ScalarKeysDigits(lines[..|lines| - 1]);
    }
  }

  // ================================================================ INI generation

  /** `os.path.join(a, b)`: an absolute `b` replaces `a`, otherwise a `/` separates them. */
  function PathJoin(a: string, b: string): (r: string)
    ensures StartsWith(b, "/") ==> r == b
    ensures !StartsWith(b, "/") ==> |r| >= |b| && r[|r| - |b|..] == b
  {
    if StartsWith(b, "/") || a == [] then b
    else if a[|a| - 1] == '/' then a + b
    else a + "/" + b
  }

  /** The six settings appended to the base template, in order. */
  function Settings(dir: string, sf: int, tp: int, nodes: int, repetitions: int): seq<string> {
    [ "output-scalar-file = \"" + dir + "/${repetition}/scalars.sca\"",
      "output-vector-file = \"" + dir + "/${repetition}/vectors.vec\"",
      "**.numberOfNodes = " + IntToString(nodes),
      "**.loRaNodes[*].app[0].initialLoRaSF = " + IntToString(sf),
      "**.loRaNodes[*].app[0].initialLoRaTP = " + IntToString(tp) + "dBm",
      "repeat = " + IntToString(repetitions) ]
  }

  /** `text += "\n" + line` for each line in order. */
  function AppendLines(text: string, ls: seq<string>): string
    decreases |ls|
  {
    if ls == [] then text else AppendLines(text + "\n" + ls[0], ls[1..])
  }

  /**
   * `generate_ini`, with the text of the base template as a parameter.
   * Without a `temp_dir` the fallback path names `TEMP_RESULTS_DIR`, which
   * the module never defines, so the call raises `NameError`.
   */
  function GenerateIni(base: string, sf: int, tp: int, nodes: int, repetitions: int,
                       tempDir: Option<string>, simulationsDir: string): Result<string>
  {
    if tempDir.None? || tempDir.value == [] then Failure(NameError("TEMP_RESULTS_DIR"))
    else Success(AppendLines(base, Settings(PathJoin(simulationsDir, tempDir.value), sf, tp, nodes, repetitions)))
  }

  /** Appending single-line texts adds exactly those lines after the original ones. */
  lemma {:induction false} AppendLinesSplit(text: string, ls: seq<string>)
    requires forall i :: 0 <= i < |ls| ==> '\n' !in ls[i]
    ensures SplitOn(AppendLines(text, ls), '\n') == SplitOn(text, '\n') + ls
    decreases |ls|
  {
    if ls != [] {
      var t := text + "\n" + ls[0];
      AppendLinesSplit(t, ls[1..]);
      assert SplitOn(t, '\n') == SplitOn(text, '\n') + [ls[0]] by {
        assert t == text + ['\n'] + ls[0];
        SplitOnAppend(text, '\n', ls[0]);
        SplitOnNoSep(ls[0], '\n');
      }
      assert [ls[0]] + ls[1..] == ls;
    }
  }

  lemma IntToStringNoNewline(i: int)
    ensures '\n' !in IntToString(i)
  {
  }

  lemma SettingsSingleLines(dir: string, sf: int, tp: int, nodes: int, repetitions: int)
    requires '\n' !in dir
    ensures forall i :: 0 <= i < 6 ==> '\n' !in Settings(dir, sf, tp, nodes, repetitions)[i]
  {
    IntToStringNoNewline(sf);
    IntToStringNoNewline(tp);
    IntToStringNoNewline(nodes);
    IntToStringNoNewline(repetitions);
    var ls := Settings(dir, sf, tp, nodes, repetitions);
    ScalarPathSingleLine();
    VectorPathSingleLine();
    ParametersSingleLine();
    PowerSingleLine();
    assert '\n' !in ls[0] && '\n' !in ls[1] && '\n' !in ls[2];
    assert '\n' !in ls[3] && '\n' !in ls[4] && '\n' !in ls[5];
  }

  lemma ScalarPathSingleLine()
    ensures '\n' !in "output-scalar-file = \"" && '\n' !in "/${repetition}/scalars.sca\""
  {
  }

  lemma VectorPathSingleLine()
    ensures '\n' !in "output-vector-file = \"" && '\n' !in "/${repetition}/vectors.vec\""
  {
  }

  lemma ParametersSingleLine()
    ensures '\n' !in "**.numberOfNodes = " && '\n' !in "**.loRaNodes[*].app[0].initialLoRaSF = "
  {
  }

  lemma PowerSingleLine()
    ensures '\n' !in "**.loRaNodes[*].app[0].initialLoRaTP = " && '\n' !in "dBm" && '\n' !in "repeat = "
  {
  }

  /**
   * The generated file is the template's lines followed by exactly the six
   * settings, provided the results directory is a single line; without a
   * `temp_dir` the call fails.
   */
  lemma IniAppendsSettings(base: string, sf: int, tp: int, nodes: int, repetitions: int,
                           tempDir: Option<string>, simulationsDir: string)
    requires tempDir.Some? ==> '\n' !in PathJoin(simulationsDir, tempDir.value)
    ensures tempDir.None? || tempDir.value == []
        <==> GenerateIni(base, sf, tp, nodes, repetitions, tempDir, simulationsDir) == Failure(NameError("TEMP_RESULTS_DIR"))
    ensures GenerateIni(base, sf, tp, nodes, repetitions, tempDir, simulationsDir).Success? ==>
      SplitOn(GenerateIni(base, sf, tp, nodes, repetitions, tempDir, simulationsDir).value, '\n')
        == SplitOn(base, '\n') + Settings(PathJoin(simulationsDir, tempDir.value), sf, tp, nodes, repetitions)
  {
    if tempDir.Some? && tempDir.value != [] {
      var ls := Settings(PathJoin(simulationsDir, tempDir.value), sf, tp, nodes, repetitions);
      SettingsSingleLines(PathJoin(simulationsDir, tempDir.value), sf, tp, nodes, repetitions);
      AppendLinesSplit(base, ls);
    }
  }

  /** The node-count setting reads back as the requested number of nodes. */
  lemma IniNodeCount(dir: string, sf: int, tp: int, nodes: int, repetitions: int)
    ensures var line := Settings(dir, sf, tp, nodes, repetitions)[2];
      StartsWith(line, "**.numberOfNodes = ") && ParseInt(line[|"**.numberOfNodes = "|..]) == Some(nodes)
  {
    var line := Settings(dir, sf, tp, nodes, repetitions)[2];
    assert line[|"**.numberOfNodes = "|..] == IntToString(nodes);
    ParseIntToString(nodes);
  }
}
