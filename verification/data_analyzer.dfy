/**
 * The packet-delivery arithmetic and the row builders of the analysis tool
 * (app/data_analyzer.py): `_calculate_pdr`, the success-rate estimate of
 * `_analyze_pdr`, the PDR export loop, and the rows fed to the per-node and
 * per-setup plots.
 *
 * A loaded JSON object keeps its key order (Python dicts iterate in insertion
 * order, and "the first gateway entry" depends on it), so it is a sequence of
 * (key, value) pairs; a leaf statistics object is a map from field name to
 * number.
 */
module DataAnalyzer {
  import opened Wrappers
  import opened Text
  import RunningStats

  type Object<V> = seq<(string, V)>
  type Fields = map<string, real>

  predicate IsGateway(key: string) { StartsWith(key, "GW") }

  /** `fields.get(name, default)`. */
  function FieldOr(f: Fields, name: string, default: real): real {
    if name in f then f[name] else default
  }

  /** `obj.get(key)`: the first entry with that key. */
  function Find<V>(o: Object<V>, key: string): (r: Option<V>)
    ensures r.Some? <==> exists i :: 0 <= i < |o| && o[i].0 == key
  {
    if o == [] then None
    else if o[0].0 == key then Some(o[0].1)
    else
      var r := Find(o[1..], key);
      assert forall i :: 1 <= i < |o| ==> o[i] == o[1..][i - 1];
      r
  }

  /** Σ weight(v) over the entries whose key is a gateway key exactly when `gateways` holds. */
  function SumWhere<V>(o: Object<V>, gateways: bool, weight: V -> real): real
    decreases |o|
  {
    if o == [] then 0.0
    else
      var last := o[|o| - 1];
      SumWhere(o[..|o| - 1], gateways, weight) + (if IsGateway(last.0) == gateways then weight(last.1) else 0.0)
  }

  /** The number of entries whose key is a gateway key exactly when `gateways` holds. */
  function CountWhere<V>(o: Object<V>, gateways: bool): nat
    decreases |o|
  {
    if o == [] then 0
    else CountWhere(o[..|o| - 1], gateways) + (if IsGateway(o[|o| - 1].0) == gateways then 1 else 0)
  }

  lemma {:induction false} SumWhereAppend<V>(a: Object<V>, b: Object<V>, gateways: bool, weight: V -> real)
    ensures SumWhere(a + b, gateways, weight) == SumWhere(a, gateways, weight) + SumWhere(b, gateways, weight)
    decreases |b|
  {
    if b == [] {
      assert a + b == a;
    } else {
      var ab := a + b;
      assert ab[..|ab| - 1] == a + b[..|b| - 1];
      assert ab[|ab| - 1] == b[|b| - 1];
      SumWhereAppend(a, b[..|b| - 1], gateways, weight);
    }
  }

  lemma {:induction false} CountWhereAppend<V>(a: Object<V>, b: Object<V>, gateways: bool)
    ensures CountWhere(a + b, gateways) == CountWhere(a, gateways) + CountWhere(b, gateways)
    decreases |b|
  {
    if b == [] {
      assert a + b == a;
    } else {
      var ab := a + b;
      assert ab[..|ab| - 1] == a + b[..|b| - 1];
      assert ab[|ab| - 1] == b[|b| - 1];
      CountWhereAppend(a, b[..|b| - 1], gateways);
    }
  }

  lemma {:induction false} SumWhereNonNegative<V>(o: Object<V>, gateways: bool, weight: V -> real)
    requires forall i :: 0 <= i < |o| ==> weight(o[i].1) >= 0.0
    ensures SumWhere(o, gateways, weight) >= 0.0
    decreases |o|
  {
    if o != [] {
      SumWhereNonNegative(o[..|o| - 1], gateways, weight);
    }
  }

  /** `(part / whole * 100) if whole > 0 else 0`. */
  function Percent(part: real, whole: real): real {
    if whole > 0.0 then part / whole * 100.0 else 0.0
  }

  lemma PercentRange(part: real, whole: real, rate: real)
    requires 0.0 <= rate && 0.0 <= part <= rate * whole
    ensures 0.0 <= Percent(part, whole) <= 100.0 * rate
  {
    if whole > 0.0 {
      var p := part / whole;
      assert p * whole == part;
      if p > rate {
        assert p * whole > rate * whole;
      }
    }
  }

  // ---------------------------------------------------------------------
  // _calculate_pdr
  // ---------------------------------------------------------------------

  const AppPacketSent := "LoRa_AppPacketSent:count"
  const UdpPacketReceived := "udp.packetReceived:count"

  datatype PdrSummary = PdrSummary(totalTx: real, totalRx: real, pdr: real, nodeCount: nat)

  /** The `next(...)` over the node entries: the first one under a gateway key. */
  function FirstGateway<V>(o: Object<V>): (r: Option<V>)
    ensures r.None? <==> forall i :: 0 <= i < |o| ==> !IsGateway(o[i].0)
    ensures r.Some? ==> exists i :: 0 <= i < |o| && IsGateway(o[i].0) && o[i].1 == r.value &&
                                   forall j :: 0 <= j < i ==> !IsGateway(o[j].0)
  {
    if o == [] then None
    else if IsGateway(o[0].0) then Some(o[0].1)
    else
      var r := FirstGateway(o[1..]);
      assert forall i :: 1 <= i < |o| ==> o[i] == o[1..][i - 1];
      r
  }

  function Sent(f: Fields): real { FieldOr(f, AppPacketSent, 0.0) }

  function ReceivedAt(gateway: Option<Fields>): real {
    match gateway
    case None => 0.0
    case Some(f) => FieldOr(f, UdpPacketReceived, 0.0)
  }

  /** What `_calculate_pdr` returns for the `node_stats` object `nodes`. */
  function PdrOf(nodes: Object<Fields>): PdrSummary {
    var tx := SumWhere(nodes, false, Sent);
    var rx := ReceivedAt(FirstGateway(nodes));
    PdrSummary(tx, rx, Percent(rx, tx), CountWhere(nodes, false))
  }

  method CalculatePdr(nodes: Object<Fields>) returns (s: PdrSummary)
    ensures s == PdrOf(nodes)
  {
    var totalTx, totalNodes := 0.0, 0;
    var i := 0;
    while i < |nodes|
      invariant 0 <= i <= |nodes|
      invariant totalTx == SumWhere(nodes[..i], false, Sent)
      invariant totalNodes == CountWhere(nodes[..i], false)
    {
      assert nodes[..i + 1][..i] == nodes[..i];
      if !IsGateway(nodes[i].0) {
        totalNodes := totalNodes + 1;
        totalTx := totalTx + Sent(nodes[i].1);
      }
      i := i + 1;
    }
    assert nodes[..i] == nodes;
    var j := 0;
    while j < |nodes| && !IsGateway(nodes[j].0)
      invariant 0 <= j <= |nodes|
      invariant FirstGateway(nodes[j..]) == FirstGateway(nodes)
    {
      assert nodes[j..][1..] == nodes[j + 1..];
      j := j + 1;
    }
    var totalRx := 0.0;
    if j < |nodes| {
      totalRx := FieldOr(nodes[j].1, UdpPacketReceived, 0.0);
    }
    var pdr := if totalTx > 0.0 then totalRx / totalTx * 100.0 else 0.0;
    s := PdrSummary(totalTx, totalRx, pdr, totalNodes);
  }

  /** Only the first gateway entry counts: gateways appended after it change nothing received. */
  lemma {:induction false} LaterGatewaysIgnored(nodes: Object<Fields>, more: Object<Fields>)
    requires exists i :: 0 <= i < |nodes| && IsGateway(nodes[i].0)
    ensures PdrOf(nodes + more).totalRx == PdrOf(nodes).totalRx
  {
    FirstGatewayAppend(nodes, more);
  }

  lemma {:induction false} FirstGatewayAppend<V>(a: Object<V>, b: Object<V>)
    requires FirstGateway(a).Some?
    ensures FirstGateway(a + b) == FirstGateway(a)
    decreases |a|
  {
    assert (a + b)[0] == a[0];
    if !IsGateway(a[0].0) {
      assert (a + b)[1..] == a[1..] + b;
      FirstGatewayAppend(a[1..], b);
    }
  }

  /** Gateway entries neither transmit nor count as nodes. */
  lemma GatewayEntriesAddNoTx(nodes: Object<Fields>, gateways: Object<Fields>)
    requires forall i :: 0 <= i < |gateways| ==> IsGateway(gateways[i].0)
    ensures PdrOf(nodes + gateways).totalTx == PdrOf(nodes).totalTx
    ensures PdrOf(nodes + gateways).nodeCount == PdrOf(nodes).nodeCount
  {
    SumWhereAppend(nodes, gateways, false, Sent);
    CountWhereAppend(nodes, gateways, false);
    NoneWhere(gateways, Sent);
  }

  lemma {:induction false} NoneWhere<V>(o: Object<V>, weight: V -> real)
    requires forall i :: 0 <= i < |o| ==> IsGateway(o[i].0)
    ensures SumWhere(o, false, weight) == 0.0 && CountWhere(o, false) == 0
    decreases |o|
  {
    if o != [] {
      NoneWhere(o[..|o| - 1], weight);
    }
  }

  /** The rate is a percentage of the transmissions whenever no more was received than sent. */
  lemma PdrRange(nodes: Object<Fields>)
    requires 0.0 <= PdrOf(nodes).totalRx <= PdrOf(nodes).totalTx
    ensures 0.0 <= PdrOf(nodes).pdr <= 100.0
    ensures PdrOf(nodes).totalTx > 0.0 ==> PdrOf(nodes).pdr * PdrOf(nodes).totalTx == PdrOf(nodes).totalRx * 100.0
  {
    var s := PdrOf(nodes);
    PercentRange(s.totalRx, s.totalTx, 1.0);
  }

  // ---------------------------------------------------------------------
  // _analyze_pdr: the evidence-based estimate
  // ---------------------------------------------------------------------

  /** `7 if "SF7" in name else 12`. */
  function SpreadingFactor(name: string): int {
    if Contains(name, "SF7") then 7 else 12
  }

  /** The success-rate table by spreading factor and network size. */
  function SuccessRate(sf: int, nodeCount: int): (rate: real)
    ensures 0.0 < rate < 1.0
    ensures sf == 7 ==> (nodeCount <= 10 <==> rate == 0.80)
    ensures sf != 7 ==> (nodeCount <= 10 <==> rate == 0.70)
  {
    if sf == 7 then
      if nodeCount <= 10 then 0.80 else if nodeCount <= 50 then 0.65 else 0.45
    else
      if nodeCount <= 10 then 0.70 else if nodeCount <= 50 then 0.60 else 0.50
  }

  /** A larger network never gets a larger success rate. */
  lemma {:induction false} SuccessRateMonotone(sf: int, small: int, large: int)
    requires small <= large
    ensures SuccessRate(sf, large) <= SuccessRate(sf, small)
  {
    if sf == 7 {
      assert SuccessRate(sf, large) <= 0.80;
    } else {
      assert SuccessRate(sf, large) <= 0.70;
    }
  }

  /** Python's `int()` on a float: truncation toward zero. */
  function Trunc(x: real): (i: int)
    ensures 0.0 <= x ==> 0 <= i && i as real <= x < i as real + 1.0
    ensures x < 0.0 ==> i <= 0 && i as real - 1.0 < x <= i as real
  {
    if x >= 0.0 then x.Floor else -((-x).Floor)
  }

  /** `signals.get("counter:vector", {}).get("mean", 0)`. */
  function CounterMean(signals: Object<Fields>): real {
    match Find(signals, "counter:vector")
    case None => 0.0
    case Some(f) => FieldOr(f, "mean", 0.0)
  }

  function PacketsOf(signals: Object<Fields>): real { Trunc(CounterMean(signals)) as real }

  datatype PdrEstimate = PdrEstimate(configuration: string, nodes: nat, pdr: real, setupName: string,
                                     packetsTx: real, packetsRx: int)

  /** The row `_analyze_pdr` appends for one configuration's `node_stats`. */
  function EstimateOf(name: string, nodeStats: Object<Object<Fields>>): PdrEstimate {
    var nodeCount := CountWhere(nodeStats, false);
    var total := SumWhere(nodeStats, false, PacketsOf);
    var sf := SpreadingFactor(name);
    var received := Trunc(total * SuccessRate(sf, nodeCount));
    PdrEstimate("SF" + IntToString(sf), nodeCount, Percent(received as real, total), name, total, received)
  }

  /** With non-negative counters, the estimate never receives more than was sent and the
    * rate stays under the table's success rate. */
  lemma EstimateBounds(name: string, nodeStats: Object<Object<Fields>>)
    requires forall i :: 0 <= i < |nodeStats| ==> CounterMean(nodeStats[i].1) >= 0.0
    ensures 0 <= EstimateOf(name, nodeStats).packetsRx
    ensures EstimateOf(name, nodeStats).packetsRx as real <= EstimateOf(name, nodeStats).packetsTx
    ensures 0.0 <= EstimateOf(name, nodeStats).pdr
              <= 100.0 * SuccessRate(SpreadingFactor(name), EstimateOf(name, nodeStats).nodes)
  {
    var e := EstimateOf(name, nodeStats);
    var rate := SuccessRate(SpreadingFactor(name), e.nodes);
    SumWhereNonNegative(nodeStats, false, PacketsOf);
    var total := e.packetsTx;
    assert 0.0 <= total * rate <= total by {
      assert total * rate <= total * 1.0;
    }
    PercentRange(e.packetsRx as real, total, rate);
  }

  /** No transmissions estimated means nothing received and a zero rate. */
  lemma EstimateOfSilence(name: string, nodeStats: Object<Object<Fields>>)
    requires forall i :: 0 <= i < |nodeStats| ==> 0.0 <= CounterMean(nodeStats[i].1) < 1.0
    ensures EstimateOf(name, nodeStats).packetsRx == 0 && EstimateOf(name, nodeStats).pdr == 0.0
  {
    ZeroPackets(nodeStats);
  }

  lemma {:induction false} ZeroPackets(nodeStats: Object<Object<Fields>>)
    requires forall i :: 0 <= i < |nodeStats| ==> 0.0 <= CounterMean(nodeStats[i].1) < 1.0
    ensures SumWhere(nodeStats, false, PacketsOf) == 0.0
    decreases |nodeStats|
  {
    if nodeStats != [] {
      ZeroPackets(nodeStats[..|nodeStats| - 1]);
      var last := nodeStats[|nodeStats| - 1].1;
      assert PacketsOf(last) == 0.0;
    }
  }

  // ---------------------------------------------------------------------
  // The PDR export
  // ---------------------------------------------------------------------

  /** `signals.get(counter, {"count": 0}).get("count", 0)`. */
  function CounterCount(signals: Object<Fields>, counter: string): real {
    match Find(signals, counter)
    case None => 0.0
    case Some(f) => FieldOr(f, "count", 0.0)
  }

  function SentCount(signals: Object<Fields>): real { CounterCount(signals, "packets_sent") }
  function ReceivedCount(signals: Object<Fields>): real { CounterCount(signals, "packets_received") }

  datatype PdrExport = PdrExport(configuration: string, spreadingFactor: int, nodeCount: nat,
                                 packetsTransmitted: real, packetsReceived: real, pdrPercentage: real)

  /** The export row: transmissions from the nodes, receptions from every gateway. */
  function ExportOf(name: string, nodeStats: Object<Object<Fields>>): PdrExport {
    var tx := SumWhere(nodeStats, false, SentCount);
    var rx := SumWhere(nodeStats, true, ReceivedCount);
    PdrExport(name, SpreadingFactor(name), CountWhere(nodeStats, false), tx, rx, Percent(rx, tx))
  }

  method ExportPdr(name: string, nodeStats: Object<Object<Fields>>) returns (row: PdrExport)
    ensures row == ExportOf(name, nodeStats)
  {
    var totalTx, totalRx, nodeCount := 0.0, 0.0, 0;
    var i := 0;
    while i < |nodeStats|
      invariant 0 <= i <= |nodeStats|
      invariant totalTx == SumWhere(nodeStats[..i], false, SentCount)
      invariant totalRx == SumWhere(nodeStats[..i], true, ReceivedCount)
      invariant nodeCount == CountWhere(nodeStats[..i], false)
    {
      assert nodeStats[..i + 1][..i] == nodeStats[..i];
      var (id, stats) := nodeStats[i];
      if !IsGateway(id) {
        nodeCount := nodeCount + 1;
        totalTx := totalTx + CounterCount(stats, "packets_sent");
      } else {
        totalRx := totalRx + CounterCount(stats, "packets_received");
      }
      i := i + 1;
    }
    assert nodeStats[..i] == nodeStats;
    var pdr := if totalTx > 0.0 then totalRx / totalTx * 100.0 else 0.0;
    row := PdrExport(name, if Contains(name, "SF7") then 7 else 12, nodeCount, totalTx, totalRx, pdr);
  }

  /** The export does not depend on the order of the node entries. */
  lemma ExportOrderFree(name: string, a: Object<Object<Fields>>, b: Object<Object<Fields>>)
    ensures ExportOf(name, a + b) == ExportOf(name, b + a)
  {
    SumWhereAppend(a, b, false, SentCount);
    SumWhereAppend(b, a, false, SentCount);
    SumWhereAppend(a, b, true, ReceivedCount);
    SumWhereAppend(b, a, true, ReceivedCount);
    CountWhereAppend(a, b, false);
    CountWhereAppend(b, a, false);
  }

  // ---------------------------------------------------------------------
  // Rows of the per-node plot (_visualize_processed_results)
  // ---------------------------------------------------------------------

  /** The plot's signal-to-metric names (units and colours are presentation only). */
  const PlotMetrics: map<string, string> := map[
    "queueLength:vector" := "queue_length",
    "queueBitLength:vector" := "queue_bits",
    "powerConsumption:vector" := "energy",
    "residualEnergyCapacity:vector" := "residual_energy",
    "incomingDataRate:vector" := "rx_rate",
    "outgoingDataRate:vector" := "tx_rate",
    "incomingPacketLengths:vector" := "rx_packets",
    "outgoingPacketLengths:vector" := "tx_packets",
    "queueingTime:vector" := "queue_time",
    "transmissionState:vector" := "tx_state",
    "receptionState:vector" := "rx_state",
    "temperature:vector" := "temperature",
    "humidity:vector" := "humidity",
    "no2:vector" := "no2",
    "counter:vector" := "counter"
  ]

  datatype PlotRow = PlotRow(node: int, metric: string, mean: real, std: real, min: real, max: real)

  function PlotRowOf(node: int, metric: string, f: Fields): (r: PlotRow)
    ensures 4.0 * r.std == r.max - r.min
  {
    var lo := FieldOr(f, "min", 0.0);
    var hi := FieldOr(f, "max", 0.0);
    PlotRow(node, metric, FieldOr(f, "mean", 0.0), (hi - lo) / 4.0, lo, hi)
  }

  /** One node's rows, in signal order, for the signals the plot knows. */
  function SignalPlotRows(node: int, signals: Object<Fields>): seq<PlotRow>
    decreases |signals|
  {
    if signals == [] then []
    else
      var (signal, f) := signals[|signals| - 1];
      SignalPlotRows(node, signals[..|signals| - 1]) +
        (if signal in PlotMetrics then [PlotRowOf(node, PlotMetrics[signal], f)] else [])
  }

  /** Some signal of the node is plotted, so `int(node_id)` is evaluated. */
  predicate Plotted(signals: Object<Fields>) {
    exists i :: 0 <= i < |signals| && signals[i].0 in PlotMetrics
  }

  const InvalidNode := ValueError("invalid literal for int()")

  /** The rows in node order; the first plotted node whose id is not an integer raises. */
  function PlotRows(nodeStats: Object<Object<Fields>>): Result<seq<PlotRow>>
    decreases |nodeStats|
  {
    if nodeStats == [] then Success([])
    else
      var (id, signals) := nodeStats[|nodeStats| - 1];
      match PlotRows(nodeStats[..|nodeStats| - 1])
      case Failure(e) => Failure(e)
      case Success(rows) =>
        if !Plotted(signals) then Success(rows)
        else match ParseInt(id)
          case None => Failure(InvalidNode)
          case Some(n) => Success(rows + SignalPlotRows(n, signals))
  }

  /** Building the rows fails exactly when a plotted node has a non-integer id. */
  lemma {:induction false} PlotRowsFail(nodeStats: Object<Object<Fields>>)
    ensures PlotRows(nodeStats).Failure? <==>
            exists i :: 0 <= i < |nodeStats| && Plotted(nodeStats[i].1) && ParseInt(nodeStats[i].0).None?
    decreases |nodeStats|
  {
    if nodeStats != [] {
      var init := nodeStats[..|nodeStats| - 1];
      PlotRowsFail(init);
      assert forall i :: 0 <= i < |init| ==> init[i] == nodeStats[i];
    }
  }

  /** Every row names a known metric and its spread is a quarter of its range. */
  lemma {:induction false} PlotRowsShape(nodeStats: Object<Object<Fields>>)
    requires PlotRows(nodeStats).Success?
    ensures forall r :: r in PlotRows(nodeStats).value ==> r.metric in PlotMetrics.Values && 4.0 * r.std == r.max - r.min
    decreases |nodeStats|
  {
    if nodeStats != [] {
      var (id, signals) := nodeStats[|nodeStats| - 1];
      PlotRowsShape(nodeStats[..|nodeStats| - 1]);
      if Plotted(signals) {
        SignalPlotRowsShape(ParseInt(id).value, signals);
      }
    }
  }

  lemma {:induction false} SignalPlotRowsShape(node: int, signals: Object<Fields>)
    ensures forall r :: r in SignalPlotRows(node, signals) ==>
              r.node == node && r.metric in PlotMetrics.Values && 4.0 * r.std == r.max - r.min
    decreases |signals|
  {
    if signals != [] {
      SignalPlotRowsShape(node, signals[..|signals| - 1]);
    }
  }

  // ---------------------------------------------------------------------
  // Rows of the setup comparison (compare_experiment_setups)
  // ---------------------------------------------------------------------

  const SignalMapping: map<string, string> := map[
    "queueLength:vector" := "queue_length",
    "queueBitLength:vector" := "queue_bits",
    "powerConsumption:vector" := "energy",
    "residualEnergyCapacity:vector" := "residual_energy",
    "incomingDataRate:vector" := "rx_rate",
    "outgoingDataRate:vector" := "tx_rate",
    "incomingPacketLengths:vector" := "rx_packets",
    "outgoingPacketLengths:vector" := "tx_packets",
    "temperature:vector" := "temperature",
    "humidity:vector" := "humidity",
    "no2:vector" := "no2",
    "queueingTime:vector" := "queue_time",
    "transmissionState:vector" := "tx_state",
    "receptionState:vector" := "rx_state"
  ]

  datatype SetupRow = SetupRow(node: int, metric: string, mean: real, std: real,
                               min: RunningStats.Bound, max: RunningStats.Bound)

  /** A statistics object is compared when its signal is mapped and it has a mean. */
  predicate Compares(signal: string, f: Fields) {
    signal in SignalMapping && "mean" in f
  }

  function SetupRowOf(node: int, signal: string, f: Fields): SetupRow
    requires Compares(signal, f)
  {
    SetupRow(node, SignalMapping[signal], f["mean"], FieldOr(f, "std", 0.0),
             if "min" in f then RunningStats.Finite(f["min"]) else RunningStats.PosInf,
             if "max" in f then RunningStats.Finite(f["max"]) else RunningStats.NegInf)
  }

  function SignalSetupRows(node: int, signals: Object<Fields>): seq<SetupRow>
    decreases |signals|
  {
    if signals == [] then []
    else
      var (signal, f) := signals[|signals| - 1];
      SignalSetupRows(node, signals[..|signals| - 1]) +
        (if Compares(signal, f) then [SetupRowOf(node, signal, f)] else [])
  }

  predicate Compared(signals: Object<Fields>) {
    exists i :: 0 <= i < |signals| && Compares(signals[i].0, signals[i].1)
  }

  /** The comparison rows of one setup; gateway entries are skipped. */
  function SetupRows(nodeStats: Object<Object<Fields>>): Result<seq<SetupRow>>
    decreases |nodeStats|
  {
    if nodeStats == [] then Success([])
    else
      var (id, signals) := nodeStats[|nodeStats| - 1];
      match SetupRows(nodeStats[..|nodeStats| - 1])
      case Failure(e) => Failure(e)
      case Success(rows) =>
        if IsGateway(id) || !Compared(signals) then Success(rows)
        else match ParseInt(id)
          case None => Failure(InvalidNode)
          case Some(n) => Success(rows + SignalSetupRows(n, signals))
  }

  /** A gateway entry anywhere in the object leaves the comparison rows as they were. */
  lemma {:induction false} SetupSkipsGateways(a: Object<Object<Fields>>, gateway: (string, Object<Fields>),
                                              b: Object<Object<Fields>>)
    requires IsGateway(gateway.0)
    ensures SetupRows(a + [gateway] + b) == SetupRows(a + b)
    decreases |b|
  {
    if b == [] {
      assert a + [gateway] + b == a + [gateway];
      assert (a + [gateway])[..|a|] == a;
      assert a + b == a;
    } else {
      var x := a + [gateway] + b;
      var y := a + b;
      var b' := b[..|b| - 1];
      assert x[..|x| - 1] == a + [gateway] + b';
      assert y[..|y| - 1] == a + b';
      assert x[|x| - 1] == b[|b| - 1] == y[|y| - 1];
      SetupSkipsGateways(a, gateway, b');
    }
  }

  /** Building the rows fails exactly when a compared, non-gateway node has a non-integer id. */
  lemma {:induction false} SetupRowsFail(nodeStats: Object<Object<Fields>>)
    ensures SetupRows(nodeStats).Failure? <==>
            exists i :: 0 <= i < |nodeStats| && !IsGateway(nodeStats[i].0) && Compared(nodeStats[i].1) &&
                        ParseInt(nodeStats[i].0).None?
    decreases |nodeStats|
  {
    if nodeStats != [] {
      var init := nodeStats[..|nodeStats| - 1];
      SetupRowsFail(init);
      assert forall i :: 0 <= i < |init| ==> init[i] == nodeStats[i];
    }
  }
}
