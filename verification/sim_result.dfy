/**
 * `SimulationManager._process_result` (app/simulation_config.py): the
 * `ev/sec=` samples dealt round-robin over the nodes and then the gateways
 * the simulation name announces, with a stride of nodes plus gateways.
 *
 * Nodes and gateways are held as sequences indexed by their ids;
 * `Recipients` gives the dictionary keyed by `str(node_id)` and
 * `GW{gw_id}` that the source builds.
 */
module SimResult {
  import opened Wrappers
  import opened Text
  import opened SimName
  import opened EventRates
  import opened DataProcessor

  /** The processed result: the simulation name, the nodes' and the gateways' statistics. */
  datatype Simulated = Simulated(simulation: string, nodes: seq<Signals>, gateways: seq<Signals>)

  /** `node_stats` as the source keys it. */
  function Recipients(r: Simulated): NodeStats {
    Joined(r.nodes, r.gateways)
  }

  /** Nodes under `str(id)` next to gateways under `GW{g}`. */
  function Joined<V>(nodes: seq<V>, gateways: seq<V>): map<string, V> {
    Indexed("", nodes) + Indexed("GW", gateways)
  }

  /** Whether one of the nodes `0 .. k-1` is dealt a sample, which is what assigns `packet_size`. */
  function AnyNodeShare(events: seq<real>, k: nat, stride: int): bool
    requires stride != 0
  {
    k > 0 && (AnyNodeShare(events, k - 1, stride) || Slice(events, k - 1, stride) != [])
  }

  /** Whether one of the gateways `0 .. k-1` is dealt a sample. */
  function AnyGatewayShare(events: seq<real>, n: int, k: nat, stride: int): bool
    requires stride != 0
  {
    k > 0 && (AnyGatewayShare(events, n, k - 1, stride) || Slice(events, n + k - 1, stride) != [])
  }

  /** Every node `id` of `range(n)` after its share `events[id::stride]`. */
  function NodesAfter(events: seq<real>, n: int, stride: int): seq<Signals>
    requires stride != 0
  {
    seq(RangeSize(n), id requires 0 <= id < RangeSize(n) => NodeAfter(events, id, n, stride))
  }

  /** Every gateway `g` of `range(gw)` after its share `events[n + g::stride]`. */
  function GatewaysAfter(events: seq<real>, n: int, gw: int, stride: int): seq<Signals>
    requires stride != 0
  {
    seq(RangeSize(gw), g => GatewayAfter(events, n + g, stride))
  }

  /**
   * The nodes and gateways once `events` are dealt, or the error that stops
   * the dealing: the `ZeroDivisionError` of `len(events) // (num_nodes +
   * gw_count)`, or the `UnboundLocalError` of a gateway dealt a sample
   * before any node has assigned `packet_size`.
   */
  function SpreadOf(n: int, gw: int, events: seq<real>): Result<(seq<Signals>, seq<Signals>)> {
    if events == [] then Success((seq(RangeSize(n), _ => NodeInit()), seq(RangeSize(gw), _ => GatewayInit())))
    else if n + gw == 0 then Failure(ZeroDivisionError)
    else if !AnyNodeShare(events, RangeSize(n), n + gw) && AnyGatewayShare(events, n, RangeSize(gw), n + gw) then
      Failure(UnboundLocalError("packet_size"))
    else Success((NodesAfter(events, n, n + gw), GatewaysAfter(events, n, gw, n + gw)))
  }

  /** The processed result, or the `ValueError` of a name whose last field is not `GW<int>`. */
  function SimulatedOf(simName: string, output: Option<string>): Result<Simulated> {
    match GatewayCount(simName)
    case Failure(e) => Failure(e)
    case Success(gw) =>
      match SpreadOf(NodeCount(simName), gw, OutputEvents(output))
      case Failure(e) => Failure(e)
      case Success((nodes, gateways)) => Success(Simulated(simName, nodes, gateways))
  }

  // ================================================================ the loops

  /** `_process_result`: zeroed nodes and gateways, then each one's share of the `ev/sec=` samples. */
  method SimulateResult(simName: string, output: Option<string>) returns (r: Result<Simulated>)
    ensures r == SimulatedOf(simName, output)
  {
    var n := NodeCount(simName);
    var nodes: seq<Signals> := [];
    for id := 0 to RangeSize(n)
      invariant nodes == seq(id, _ => NodeInit())
    {
      nodes := nodes + [NodeInit()];
    }
    var gwCount := GatewayCount(simName);
    if gwCount.Failure? {
      return Failure(gwCount.error);
    }
    var gw := gwCount.value;
    var gateways: seq<Signals> := [];
    for g := 0 to RangeSize(gw)
      invariant gateways == seq(g, _ => GatewayInit())
    {
      gateways := gateways + [GatewayInit()];
    }
    if output.Some? && output.value != "" {
      var events := ExtractEvents(SplitOn(output.value, '\n'));
      if events != [] {
        if n + gw == 0 {
          return Failure(ZeroDivisionError);
        }
        var sized, failed;
        nodes, sized := DealNodes(nodes, events, n, n + gw);
        gateways, failed := DealGateways(gateways, events, n, gw, sized);
        if failed {
          return Failure(UnboundLocalError("packet_size"));
        }
      }
    }
    return Success(Simulated(simName, nodes, gateways));
  }

  /** The loop over the nodes; `sized` tells whether it assigned `packet_size`. */
  method DealNodes(init: seq<Signals>, events: seq<real>, n: int, stride: int) returns (nodes: seq<Signals>, sized: bool)
    requires stride != 0 && init == seq(RangeSize(n), _ => NodeInit())
    ensures nodes == NodesAfter(events, n, stride)
    ensures sized == AnyNodeShare(events, RangeSize(n), stride)
  {
    nodes, sized := init, false;
    for id := 0 to RangeSize(n)
      invariant |nodes| == RangeSize(n)
      invariant sized == AnyNodeShare(events, id, stride)
      invariant forall i :: 0 <= i < id ==> nodes[i] == NodeAfter(events, i, n, stride)
      invariant forall i :: id <= i < RangeSize(n) ==> nodes[i] == NodeInit()
    {
      var share := Slice(events, id, stride);
      if share != [] {
        nodes := nodes[id := NodeUpdate(nodes[id], share, n as real)];
        sized := true;
      }
    }
  }

  /** The loop over the gateways; `failed` when a gateway needs the unassigned `packet_size`. */
  method DealGateways(init: seq<Signals>, events: seq<real>, n: int, gw: int, sized: bool)
    returns (gateways: seq<Signals>, failed: bool)
    requires n + gw != 0 && init == seq(RangeSize(gw), _ => GatewayInit())
    ensures failed == (!sized && AnyGatewayShare(events, n, RangeSize(gw), n + gw))
    ensures !failed ==> gateways == GatewaysAfter(events, n, gw, n + gw)
  {
    gateways := init;
    var stride := n + gw;
    for g := 0 to RangeSize(gw)
      invariant |gateways| == RangeSize(gw)
      invariant sized || !AnyGatewayShare(events, n, g, stride)
      invariant forall i :: 0 <= i < g ==> gateways[i] == GatewayAfter(events, n + i, stride)
      invariant forall i :: g <= i < RangeSize(gw) ==> gateways[i] == GatewayInit()
    {
      var share := Slice(events, n + g, stride);
      if share != [] {
        if !sized {
          AnyGatewayShareGrows(events, n, g + 1, RangeSize(gw), stride);
          return gateways, true;
        }
        gateways := gateways[g := GatewayUpdate(gateways[g], share)];
      }
    }
    failed := false;
  }

  /** Once a gateway has been dealt a sample, so has some gateway of every longer prefix. */
  lemma {:induction false} AnyGatewayShareGrows(events: seq<real>, n: int, j: nat, k: nat, stride: int)
    requires stride != 0 && j <= k && AnyGatewayShare(events, n, j, stride)
    ensures AnyGatewayShare(events, n, k, stride)
    decreases k - j
  {
    if j < k {
      AnyGatewayShareGrows(events, n, j + 1, k, stride);
    }
  }

  // ================================================================ what the result promises

  /** Gateway keys never collide with node keys: a decimal text never starts with `G`. */
  lemma KeysDisjoint(i: int, g: int)
    ensures IntToString(i) != "GW" + IntToString(g)
  {
    assert ("GW" + IntToString(g))[0] == 'G';
  }

  /** The joined dictionary's keys are the node ids' texts and `GW` followed by the gateway ids' texts. */
  lemma JoinedKeys<V>(nodes: seq<V>, gateways: seq<V>)
    ensures forall key :: key in Joined(nodes, gateways) <==>
      (exists id :: 0 <= id < |nodes| && key == IntToString(id)) ||
      (exists g :: 0 <= g < |gateways| && key == "GW" + IntToString(g))
  {
    IdsDomain(nodes);
    IndexedDomain("GW", gateways);
  }

  /** Node `id` is found under `str(id)`: no gateway key shadows it. */
  lemma JoinedNode<V>(nodes: seq<V>, gateways: seq<V>, id: int)
    requires 0 <= id < |nodes|
    ensures IntToString(id) in Joined(nodes, gateways) && Joined(nodes, gateways)[IntToString(id)] == nodes[id]
  {
    IdsAt(nodes, id);
    IndexedDomain("GW", gateways);
    forall g ensures IntToString(id) != "GW" + IntToString(g) {
      KeysDisjoint(id, g);
    }
  }

  /** Gateway `g` is found under `GW{g}`. */
  lemma JoinedGateway<V>(nodes: seq<V>, gateways: seq<V>, g: int)
    requires 0 <= g < |gateways|
    ensures "GW" + IntToString(g) in Joined(nodes, gateways) && Joined(nodes, gateways)["GW" + IntToString(g)] == gateways[g]
  {
    IndexedAt("GW", gateways, g);
  }

  /** With samples to deal, a node count of zero and a gateway always fail: the gateway needs `packet_size`. */
  lemma GatewaysWithoutNodesFail(gw: int, events: seq<real>)
    requires gw > 0 && events != []
    ensures SpreadOf(0, gw, events) == Failure(UnboundLocalError("packet_size"))
  {
    assert Slice(events, 0, gw)[0] == events[0];
    assert AnyGatewayShare(events, 0, 1, gw);
    AnyGatewayShareGrows(events, 0, 1, gw, gw);
  }

  /** With at least one node and no negative gateway count, the samples are always dealt. */
  lemma SpreadSucceeds(n: int, gw: int, events: seq<real>)
    requires n > 0 && gw >= 0
    ensures SpreadOf(n, gw, events).Success?
    ensures |SpreadOf(n, gw, events).value.0| == n && |SpreadOf(n, gw, events).value.1| == gw
  {
    if events != [] {
      assert Slice(events, 0, n + gw)[0] == events[0];
      assert AnyNodeShare(events, 1, n + gw);
      AnyNodeShareGrows(events, 1, n, n + gw);
    }
  }

  lemma {:induction false} AnyNodeShareGrows(events: seq<real>, j: nat, k: nat, stride: int)
    requires stride != 0 && j <= k && AnyNodeShare(events, j, stride)
    ensures AnyNodeShare(events, k, stride)
    decreases k - j
  {
    if j < k {
      AnyNodeShareGrows(events, j + 1, k, stride);
    }
  }

  /** The nodes' outgoing rates count the shares of recipients `0 .. n-1`. */
  lemma NodesCount(n: nat, events: seq<real>, stride: nat)
    requires stride > 0
    ensures SignalCount(NodesAfter(events, n, stride), OutgoingDataRate) == Shares(events, stride, n)
  {
    var nodes: seq<Signals> := NodesAfter(events, n, stride);
    forall i | 0 <= i < n
      ensures OutgoingDataRate in nodes[i] && nodes[i][OutgoingDataRate].count == |Forward(events, 0 + i, stride)|
    {
      NodeAfterCounts(events, i, n, stride);
    }
    SignalCountShares(nodes, OutgoingDataRate, events, 0, stride);
  }

  /** The gateways' incoming rates count the shares of recipients `n .. n+gw-1`. */
  lemma GatewaysCount(n: nat, gw: nat, events: seq<real>, stride: nat)
    requires stride > 0
    ensures SignalCount(GatewaysAfter(events, n, gw, stride), IncomingDataRate) == Shares(events, stride, n + gw) - Shares(events, stride, n)
  {
    var gateways: seq<Signals> := GatewaysAfter(events, n, gw, stride);
    forall g | 0 <= g < gw
      ensures IncomingDataRate in gateways[g] && gateways[g][IncomingDataRate].count == |Forward(events, n + g, stride)|
    {
      GatewayIncoming(events, n, gw, stride, g);
    }
    SignalCountShares(gateways, IncomingDataRate, events, n, stride);
  }

  lemma GatewayIncoming(events: seq<real>, n: nat, gw: nat, stride: nat, g: nat)
    requires stride > 0 && g < gw
    ensures IncomingDataRate in GatewaysAfter(events, n, gw, stride)[g]
    ensures GatewaysAfter(events, n, gw, stride)[g][IncomingDataRate].count == |Forward(events, n + g, stride)|
  {
    var s := GatewayAfter(events, n + g, stride);
    assert GatewaysAfter(events, n, gw, stride)[g] == s;
    GatewayAfterCounts(events, n + g, stride);
  }

  /** The nodes' outgoing rates and the gateways' incoming rates count every sample exactly once between them. */
  lemma SpreadTotal(n: int, gw: int, events: seq<real>)
    requires n >= 0 && gw >= 0 && n + gw > 0 && SpreadOf(n, gw, events).Success?
    ensures var (nodes, gateways) := SpreadOf(n, gw, events).value;
      SignalCount(nodes, OutgoingDataRate) + SignalCount(gateways, IncomingDataRate) == |events|
  {
    if events == [] {
      ZeroedCount(n, NodeInit(), OutgoingDataRate);
      ZeroedCount(gw, GatewayInit(), IncomingDataRate);
    } else {
      NodesCount(n, events, n + gw);
      GatewaysCount(n, gw, events, n + gw);
      SharesTotal(events, n + gw);
    }
  }

  /**
   * Sample `e` goes to recipient `e % (n + gw)`: a node when that is below
   * `n`, otherwise a gateway; the recipient counts it and bounds it by its
   * min and max.
   */
  lemma SpreadRoundRobin(n: int, gw: int, events: seq<real>, e: nat)
    requires n >= 0 && gw >= 0 && n + gw > 0 && e < |events| && SpreadOf(n, gw, events).Success?
    ensures var (nodes, gateways) := SpreadOf(n, gw, events).value;
      var stride, r := n + gw, e % (n + gw);
      if r < n then
        OutgoingDataRate in nodes[r] &&
        var rate := nodes[r][OutgoingDataRate];
        e / stride < rate.count && rate.min <= events[e] <= rate.max
      else
        IncomingDataRate in gateways[r - n] &&
        var rate := gateways[r - n][IncomingDataRate];
        e / stride < rate.count && rate.min <= events[e] <= rate.max
  {
    var stride, r := n + gw, e % (n + gw);
    var share := Slice(events, r, stride);
    RoundRobin(events, stride, e);
    assert share[e / stride] == events[e];
    if r < n {
      NodeAfterEntries(events, r, n, stride);
    } else {
      assert n + (r - n) == r;
      GatewayAfterEntries(events, r, stride);
    }
  }

  /** A name built by `SimName` with at least one node yields that many nodes and one gateway. */
  lemma SimulatedNamed(sf: int, tp: int, nodes: int, output: Option<string>)
    requires nodes > 0
    ensures var r := SimulatedOf(SimName.SimName(sf, tp, nodes), output);
      r.Success? && |r.value.nodes| == nodes && |r.value.gateways| == 1
  {
    NodeCountOfName(sf, tp, nodes);
    GatewayCountOfName(sf, tp, nodes);
    SpreadSucceeds(nodes, 1, OutputEvents(output));
  }
}
