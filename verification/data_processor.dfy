/**
 * `DataProcessor._process_result` (app/data_processor.py): the simulator's
 * `ev/sec=` samples dealt round-robin over the nodes the simulation name
 * announces, each node's share turned into synthetic signal statistics.
 *
 * The node statistics are held as a sequence indexed by node id; `AsDict`
 * gives the dictionary keyed by `str(node_id)` that the source builds.
 */
module DataProcessor {
  import opened Wrappers
  import opened Text
  import opened RunningStats
  import opened SimName
  import opened EventRates

  /** The processed result: the simulation name and the statistics of each node of repetition "0". */
  datatype Processed = Processed(simulation: string, nodes: seq<Signals>)

  /** `node_stats` as the source keys it: node `id` under `str(id)`. */
  function AsDict(nodes: seq<Signals>): NodeStats {
    Indexed("", nodes)
  }

  /** The `events` of a result: none when its `output` is missing or empty. */
  function OutputEvents(output: Option<string>): seq<real> {
    if output.None? || output.value == "" then [] else Events(SplitOn(output.value, '\n'))
  }

  /** `range(count)` has no element when `count` is negative. */
  function RangeSize(count: int): nat {
    if count < 0 then 0 else count
  }

  /**
   * The nodes once `events` are dealt over `n` of them, or the
   * `ZeroDivisionError` of `len(events) // num_nodes` when there are no
   * nodes but there are samples.
   */
  function Distributed(n: int, events: seq<real>): Result<seq<Signals>> {
    if events == [] || n < 0 then Success(seq(RangeSize(n), _ => NodeInit()))
    else if n == 0 then Failure(ZeroDivisionError)
    else Success(seq(n, id requires 0 <= id < n => NodeAfter(events, id, n, n)))
  }

  /** The processed result for a simulation name and its console output. */
  function ProcessedOf(simName: string, output: Option<string>): Result<Processed> {
    match Distributed(NodeCount(simName), OutputEvents(output))
    case Failure(e) => Failure(e)
    case Success(nodes) => Success(Processed(simName, nodes))
  }

  /** `_process_result`: zeroed nodes, then each node's share of the `ev/sec=` samples. */
  method ProcessResult(simName: string, output: Option<string>) returns (r: Result<Processed>)
    ensures r == ProcessedOf(simName, output)
  {
    var n := NodeCount(simName);
    var nodes: seq<Signals> := [];
    for id := 0 to RangeSize(n)
      invariant nodes == seq(id, _ => NodeInit())
    {
      nodes := nodes + [NodeInit()];
    }
    if output.Some? && output.value != "" {
      var events := ExtractEvents(SplitOn(output.value, '\n'));
      if events != [] && n >= 0 {
        if n == 0 {
          return Failure(ZeroDivisionError);
        }
        nodes := Deal(nodes, events, n);
      }
    }
    return Success(Processed(simName, nodes));
  }

  /** The loop over `range(num_nodes)` that hands node `id` the events `id, id + n, id + 2n, ...`. */
  method Deal(init: seq<Signals>, events: seq<real>, n: nat) returns (nodes: seq<Signals>)
    requires n > 0 && init == seq(n, _ => NodeInit())
    ensures nodes == seq(n, id requires 0 <= id < n => NodeAfter(events, id, n, n))
  {
    nodes := init;
    for id := 0 to n
      invariant |nodes| == n
      invariant forall i :: 0 <= i < id ==> nodes[i] == NodeAfter(events, i, n, n)
      invariant forall i :: id <= i < n ==> nodes[i] == NodeInit()
    {
      var share := Slice(events, id, n);
      if share != [] {
        nodes := nodes[id := NodeUpdate(nodes[id], share, n as real)];
      }
    }
  }

  // ================================================================ what the result promises

  /** The failure is exactly the division by a node count of zero with samples to deal. */
  lemma DistributedFails(n: int, events: seq<real>)
    ensures Distributed(n, events).Failure? <==> events != [] && n == 0
    ensures Distributed(n, events).Failure? ==> Distributed(n, events).error == ZeroDivisionError
  {
  }

  /** The dictionary's keys are `str(0) .. str(len(nodes) - 1)`. */
  lemma AsDictKeys(nodes: seq<Signals>)
    ensures forall key :: key in AsDict(nodes) <==> exists id :: 0 <= id < |nodes| && key == IntToString(id)
  {
    IdsDomain(nodes);
  }

  /** Node `id` is found under `str(id)`. */
  lemma AsDictAt(nodes: seq<Signals>, id: int)
    requires 0 <= id < |nodes|
    ensures IntToString(id) in AsDict(nodes) && AsDict(nodes)[IntToString(id)] == nodes[id]
  {
    IdsAt(nodes, id);
  }

  /** There is one node per element of `range(n)`, and each holds the six signals. */
  lemma DistributedNodes(n: int, events: seq<real>)
    requires Distributed(n, events).Success?
    ensures |Distributed(n, events).value| == RangeSize(n)
    ensures forall id :: 0 <= id < RangeSize(n) ==> Distributed(n, events).value[id].Keys == NodeInit().Keys
  {
  }

  /** When there is nothing to deal, every node keeps its zeroed signals. */
  lemma NoSamplesZero(n: int)
    ensures Distributed(n, []).Success?
    ensures forall id :: 0 <= id < RangeSize(n) ==> Distributed(n, []).value[id] == NodeInit()
  {
  }

  /** The samples the recipients' `sig` signals count between them. */
  function SignalCount(nodes: seq<Signals>, sig: string): nat {
    if nodes == [] then 0
    else
      var last := nodes[|nodes| - 1];
      SignalCount(nodes[..|nodes| - 1], sig) + if sig in last then last[sig].count else 0
  }

  /** Recipients that count the shares of recipients `base ..` count the sum of those shares. */
  lemma {:induction false} SignalCountShares(nodes: seq<Signals>, sig: string, events: seq<real>, base: nat, stride: nat)
    requires 0 < stride
    requires forall i :: 0 <= i < |nodes| ==> sig in nodes[i] && nodes[i][sig].count == |Forward(events, base + i, stride)|
    ensures SignalCount(nodes, sig) == Shares(events, stride, base + |nodes|) - Shares(events, stride, base)
  {
    if nodes != [] {
      var k := |nodes| - 1;
      assert forall i :: 0 <= i < k ==> nodes[..k][i] == nodes[i];
      SignalCountShares(nodes[..k], sig, events, base, stride);
    }
  }

  /** Zeroed recipients count nothing. */
  lemma {:induction false} ZeroedCount(k: nat, init: Signals, sig: string)
    requires sig in init && init[sig] == Zero
    ensures SignalCount(seq(k, _ => init), sig) == 0
  {
    if k > 0 {
      ZeroedCount(k - 1, init, sig);
      assert seq(k, _ => init)[..k - 1] == seq(k - 1, _ => init);
    }
  }

  /** When `range(n)` is not empty, the nodes count every sample exactly once between them. */
  lemma DistributedTotal(n: int, events: seq<real>)
    requires Distributed(n, events).Success? && n > 0
    ensures SignalCount(Distributed(n, events).value, OutgoingDataRate) == |events|
  {
    if events == [] {
      ZeroedCount(n, NodeInit(), OutgoingDataRate);
    } else {
      var nodes: seq<Signals> := Distributed(n, events).value;
      forall i | 0 <= i < n
        ensures OutgoingDataRate in nodes[i] && nodes[i][OutgoingDataRate].count == |Forward(events, i, n)|
      {
        NodeAfterCounts(events, i, n, n);
      }
      SignalCountShares(nodes, OutgoingDataRate, events, 0, n);
      SharesTotal(events, n);
    }
  }

  /** Sample `e` is dealt to node `e % n`, which counts it and bounds it by its min and max. */
  lemma DistributedRoundRobin(n: int, events: seq<real>, e: nat)
    requires Distributed(n, events).Success? && n > 0 && e < |events|
    ensures var rate := Distributed(n, events).value[e % n][OutgoingDataRate];
      e / n < rate.count && rate.min <= events[e] <= rate.max
  {
    var id := e % n;
    var share := Slice(events, id, n);
    RoundRobin(events, n, e);
    assert share[e / n] == events[e];
    assert Distributed(n, events).value[id] == NodeAfter(events, id, n, n);
    NodeAfterEntries(events, id, n, n);
  }

  /** A name built by `SimName` announces its own node count, so the result has that many nodes. */
  lemma ProcessedNamed(sf: int, tp: int, nodes: int, output: Option<string>)
    requires ProcessedOf(SimName.SimName(sf, tp, nodes), output).Success?
    ensures |ProcessedOf(SimName.SimName(sf, tp, nodes), output).value.nodes| == RangeSize(nodes)
  {
    NodeCountOfName(sf, tp, nodes);
    DistributedNodes(nodes, OutputEvents(output));
  }
}
