/**
 * The data extraction of the PDR-versus-nodes plot (simulations/visualize_pdr.py):
 * the scan for setup directories and, per setup with an aggregated statistics
 * file, the estimated packet delivery rate. The estimate repeats the success-rate
 * table of the analysis tool; `RateTable` is proved to be that same table.
 */
module VisualizePdr {
  import opened Wrappers
  import opened Text
  import CrossRep
  import DataAnalyzer

  type NodeStats = DataAnalyzer.Object<DataAnalyzer.Object<DataAnalyzer.Fields>>

  /** A directory entry of the results folder: its name and whether it is a directory. */
  datatype Entry = Entry(name: string, isDir: bool)

  predicate IsSetup(e: Entry) {
    e.isDir && (StartsWith(e.name, "SF7_") || StartsWith(e.name, "SF12_"))
  }

  /** The setup directories, in listing order. */
  function SetupsIn(listing: seq<Entry>): (r: seq<string>)
    ensures forall x :: multiset(r)[x] == |set i | 0 <= i < |listing| && IsSetup(listing[i]) && listing[i].name == x|
    decreases |listing|
  {
    if listing == [] then []
    else
      var init := listing[..|listing| - 1];
      var last := listing[|listing| - 1];
      var r := SetupsIn(init) + (if IsSetup(last) then [last.name] else []);
      forall x ensures multiset(r)[x] == |set i | 0 <= i < |listing| && IsSetup(listing[i]) && listing[i].name == x| {
        IndicesSplit(listing, x);
      }
      r
  }

  lemma IndicesSplit(listing: seq<Entry>, x: string)
    requires listing != []
    ensures var n := |listing| - 1;
            (set i | 0 <= i < |listing| && IsSetup(listing[i]) && listing[i].name == x) ==
            (set i | 0 <= i < n && IsSetup(listing[..n][i]) && listing[..n][i].name == x) +
            (if IsSetup(listing[n]) && listing[n].name == x then {n} else {})
  {
  }

  /** The scan: collect the setup directories, then sort them. */
  method ScanSetups(listing: seq<Entry>) returns (setups: seq<string>)
    ensures setups == CrossRep.SortNames(SetupsIn(listing))
  {
    var available: seq<string> := [];
    var i := 0;
    while i < |listing|
      invariant 0 <= i <= |listing|
      invariant available == SetupsIn(listing[..i])
    {
      assert listing[..i + 1][..i] == listing[..i];
      if IsSetup(listing[i]) {
        available := available + [listing[i].name];
      }
      i := i + 1;
    }
    assert listing[..i] == listing;
    setups := CrossRep.SortNames(available);
  }

  /** The scanned setups are sorted and are exactly the setup directories of the listing. */
  lemma ScannedSetups(listing: seq<Entry>, x: string)
    ensures CrossRep.Sorted(CrossRep.SortNames(SetupsIn(listing)))
    ensures x in CrossRep.SortNames(SetupsIn(listing)) <==>
            exists i :: 0 <= i < |listing| && IsSetup(listing[i]) && listing[i].name == x
  {
    var setups := CrossRep.SortNames(SetupsIn(listing));
    assert x in setups <==> multiset(SetupsIn(listing))[x] > 0;
    var hits := set i | 0 <= i < |listing| && IsSetup(listing[i]) && listing[i].name == x;
    if exists i :: 0 <= i < |listing| && IsSetup(listing[i]) && listing[i].name == x {
      var k :| 0 <= k < |listing| && IsSetup(listing[k]) && listing[k].name == x;
      assert k in hits;
    } else {
      assert hits == {};
    }
  }

  /** The success-rate table as this script writes it; it is the analysis tool's table. */
  function RateTable(sf: int, nodeCount: int): (rate: real)
    ensures rate == DataAnalyzer.SuccessRate(sf, nodeCount)
  {
    if sf == 7 then
      if nodeCount <= 10 then 0.80 else if nodeCount <= 50 then 0.65 else 0.45
    else
      if nodeCount <= 10 then 0.70 else if nodeCount <= 50 then 0.60 else 0.50
  }

  datatype PlotPoint = PlotPoint(nodes: nat, pdr: real, configuration: string, setupName: string,
                                 packetsSent: real, packetsReceived: int)

  /** The point one setup contributes, from its `aggregated_node_stats`. */
  function PointOf(setup: string, nodeStats: NodeStats): PlotPoint {
    var nodeCount := DataAnalyzer.CountWhere(nodeStats, false);
    var total := DataAnalyzer.SumWhere(nodeStats, false, DataAnalyzer.PacketsOf);
    var sf := if Contains(setup, "SF7") then 7 else 12;
    var received := DataAnalyzer.Trunc(total * RateTable(sf, nodeCount));
    var pdr := if total > 0.0 then received as real / total * 100.0 else 0.0;
    PlotPoint(nodeCount, pdr, "SF" + IntToString(sf), setup, total, received)
  }

  /** The two copies of the estimate give the same numbers for the same statistics. */
  lemma PointAgreesWithAnalyzer(setup: string, nodeStats: NodeStats)
    ensures var p := PointOf(setup, nodeStats);
            var e := DataAnalyzer.EstimateOf(setup, nodeStats);
            p.nodes == e.nodes && p.pdr == e.pdr && p.configuration == e.configuration &&
            p.packetsSent == e.packetsTx && p.packetsReceived == e.packetsRx
  {
  }

  /** With non-negative counters: no more received than sent, and a rate in [0, 100]. */
  lemma PointBounds(setup: string, nodeStats: NodeStats)
    requires forall i :: 0 <= i < |nodeStats| ==> DataAnalyzer.CounterMean(nodeStats[i].1) >= 0.0
    ensures 0 <= PointOf(setup, nodeStats).packetsReceived
    ensures PointOf(setup, nodeStats).packetsReceived as real <= PointOf(setup, nodeStats).packetsSent
    ensures 0.0 <= PointOf(setup, nodeStats).pdr <= 100.0
  {
    PointAgreesWithAnalyzer(setup, nodeStats);
    DataAnalyzer.EstimateBounds(setup, nodeStats);
  }

  /** The points of the setups that have an aggregated statistics file, in setup order. */
  function PlotData(setups: seq<string>, files: map<string, NodeStats>): (r: seq<PlotPoint>)
    ensures |r| <= |setups|
    ensures forall p :: p in r ==> p.setupName in setups && p.setupName in files
    decreases |setups|
  {
    if setups == [] then []
    else
      var s := setups[|setups| - 1];
      PlotData(setups[..|setups| - 1], files) + (if s in files then [PointOf(s, files[s])] else [])
  }

  /** One more setup adds at most its own point. */
  lemma PlotDataStep(setups: seq<string>, files: map<string, NodeStats>, i: nat)
    requires i < |setups|
    ensures PlotData(setups[..i + 1], files) ==
            PlotData(setups[..i], files) + (if setups[i] in files then [PointOf(setups[i], files[setups[i]])] else [])
  {
    assert setups[..i + 1][..i] == setups[..i];
  }

  /** `extract_simple_pdr_data`: the directory scan, then one point per setup with a file. */
  method ExtractPdrData(listing: seq<Entry>, files: map<string, NodeStats>) returns (points: seq<PlotPoint>)
    ensures points == PlotData(CrossRep.SortNames(SetupsIn(listing)), files)
  {
    var setups := ScanSetups(listing);
    points := [];
    var i := 0;
    while i < |setups|
      invariant 0 <= i <= |setups|
      invariant points == PlotData(setups[..i], files)
    {
      PlotDataStep(setups, files, i);
      var setup := setups[i];
      if setup in files {
        points := points + [PointOf(setup, files[setup])];
      }
      i := i + 1;
    }
    assert setups[..i] == setups;
  }

  /** Every plotted rate is a percentage when the counters in the files are non-negative. */
  lemma {:induction false} PlotDataInRange(setups: seq<string>, files: map<string, NodeStats>)
    requires forall s, i :: s in files && 0 <= i < |files[s]| ==> DataAnalyzer.CounterMean(files[s][i].1) >= 0.0
    ensures forall p :: p in PlotData(setups, files) ==> 0.0 <= p.pdr <= 100.0 && p.packetsReceived as real <= p.packetsSent
    decreases |setups|
  {
    if setups != [] {
      PlotDataInRange(setups[..|setups| - 1], files);
      var s := setups[|setups| - 1];
      if s in files {
        PointBounds(s, files[s]);
      }
    }
  }
}
