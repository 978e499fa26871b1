/**
 * The chunked reducer of one repetition's `.vec` trace
 * (simulations/run_and_analyze.py: `parse_chunk`, `parse_repetition`).
 *
 * The file is a string `c` whose offsets stand for byte offsets.  A first
 * pass collects the `vector <id> <module> <signal>` definitions; the byte
 * range is then cut into fixed-size chunks, each chunk is scanned line by
 * line from a seek position, and the per-chunk statistics are merged.
 *
 * A line is "visited" by a scan when the scan reads it from its first
 * offset.  Scans start at a line boundary and go on while the current
 * offset is below the chunk end, so a line that starts before the end is
 * read whole even when it runs past it.
 */
module VectorTrace {
  import opened Wrappers
  import opened Text
  import opened RunningStats
  import NodePattern

  const ChunkSizeMb: nat := 512
  /** `CHUNK_SIZE_MB * 1024 * 1024` bytes. */
  const ChunkSize: nat := ChunkSizeMb * 1024 * 1024

  /** `vector_info`: vector id to `(module, signal)`. */
  type VectorInfo = map<int, (string, string)>

  /** A `(node id as text, signal)` pair, the key of the nested node table. */
  type NodeSignal = (string, string)

  /** The two tables a scan fills: per vector id and per (node, signal). */
  datatype Stats = Stats(vectors: Table<int>, nodes: Table<NodeSignal>)

  const NoStats := Stats(map[], map[])

  function MergeStats(a: Stats, b: Stats): Stats {
    Stats(Merge(a.vectors, b.vectors), Merge(a.nodes, b.nodes))
  }

  lemma MergeStatsIdentity(a: Stats)
    ensures MergeStats(NoStats, a) == a && MergeStats(a, NoStats) == a
  {
    MergeIdentity(a.vectors);
    MergeIdentity(a.nodes);
  }

  lemma MergeStatsAssoc(a: Stats, b: Stats, c: Stats)
    ensures MergeStats(MergeStats(a, b), c) == MergeStats(a, MergeStats(b, c))
  {
    MergeAssoc(a.vectors, b.vectors, c.vectors);
    MergeAssoc(a.nodes, b.nodes, c.nodes);
  }

  lemma MergeStatsComm(a: Stats, b: Stats)
    ensures MergeStats(a, b) == MergeStats(b, a)
  {
    MergeComm(a.vectors, b.vectors);
    MergeComm(a.nodes, b.nodes);
  }

  // ================================================================ definitions pass

  /**
   * What one line of the definition pass contributes: nothing, a definition,
   * or the `ValueError` that `int(parts[1])` raises on a non-integer id.
   */
  function DefinitionOf(line: string): Result<Option<(int, (string, string))>> {
    if !StartsWith(line, "vector ") then Success(None)
    else
      var parts := Split(Strip(line));
      if |parts| < 4 then Success(None)
      else match ParseInt(parts[1])
        case None => Failure(ValueError("invalid literal for int() with base 10"))
        case Some(id) => Success(Some((id, (parts[2], parts[3]))))
  }

  /** What one line contributes to the definition pass. */
  type LineDef = Result<Option<(int, (string, string))>>

  predicate Defines(d: LineDef, id: int) {
    d.Success? && d.value.Some? && d.value.value.0 == id
  }

  /** The per-line contributions of a file, in order. */
  function LineDefs(lines: seq<string>): (ds: seq<LineDef>)
    ensures |ds| == |lines|
  {
    seq(|lines|, i requires 0 <= i < |lines| => DefinitionOf(lines[i]))
  }

  /** The definition table after the contributions `ds` in order; the first error aborts the pass. */
  function Fold(ds: seq<LineDef>): Result<VectorInfo> {
    if ds == [] then Success(map[])
    else
      match Fold(ds[..|ds| - 1])
      case Failure(e) => Failure(e)
      case Success(info) =>
        match ds[|ds| - 1]
        case Failure(e) => Failure(e)
        case Success(None) => Success(info)
        case Success(Some(d)) => Success(info[d.0 := d.1])
  }

  /** The definition table of a file's lines. */
  function Definitions(lines: seq<string>): Result<VectorInfo> {
    Fold(LineDefs(lines))
  }

  /** The `for line in f` definition loop of `parse_repetition`. */
  method ReadDefinitions(lines: seq<string>) returns (r: Result<VectorInfo>)
    ensures r == Definitions(lines)
  {
    ghost var ds := LineDefs(lines);
    var info: VectorInfo := map[];
    var i := 0;
    while i < |lines|
      invariant 0 <= i <= |lines|
      invariant Fold(ds[..i]) == Success(info)
    {
      assert ds[..i + 1][..i] == ds[..i];
      var d := DefinitionOf(lines[i]);
      assert d == ds[i];
      if d.Failure? {
        FoldFailureSticks(ds, i + 1);
        assert ds[..|ds|] == ds;
        return Failure(d.error);
      }
      if d.value.Some? {
        info := info[d.value.value.0 := d.value.value.1];
      }
      i := i + 1;
    }
    assert ds[..i] == ds;
    return Success(info);
  }

  /** Once the pass has raised, reading more lines does not change the error. */
  lemma {:induction false} FoldFailureSticks(ds: seq<LineDef>, i: nat)
    requires i <= |ds| && Fold(ds[..i]).Failure?
    ensures Fold(ds) == Fold(ds[..i])
    decreases |ds| - i
  {
    if i == |ds| {
      assert ds[..i] == ds;
    } else {
      assert ds[..i + 1][..i] == ds[..i];
      FoldFailureSticks(ds, i + 1);
    }
  }

  /** The pass raises exactly when some line has a `vector ` header, four fields and a non-integer id. */
  lemma {:induction false} FoldFails(ds: seq<LineDef>)
    ensures Fold(ds).Failure? <==> exists i :: 0 <= i < |ds| && ds[i].Failure?
  {
    if ds != [] {
      var init := ds[..|ds| - 1];
      FoldFails(init);
      if exists i :: 0 <= i < |init| && init[i].Failure? {
        var i :| 0 <= i < |init| && init[i].Failure?;
        assert ds[i] == init[i];
      }
      if exists i :: 0 <= i < |ds| && ds[i].Failure? {
        var i :| 0 <= i < |ds| && ds[i].Failure?;
        if i < |init| {
          assert init[i] == ds[i];
        }
      }
    }
  }

  /** An id is in the table iff some line defines it. */
  lemma {:induction false} DefinedIff(ds: seq<LineDef>, id: int)
    requires Fold(ds).Success?
    ensures id in Fold(ds).value <==> exists i :: 0 <= i < |ds| && Defines(ds[i], id)
  {
    if ds != [] {
      var init := ds[..|ds| - 1];
      DefinedIff(init, id);
      if exists i :: 0 <= i < |ds| && Defines(ds[i], id) {
        var i :| 0 <= i < |ds| && Defines(ds[i], id);
        if i < |init| {
          assert init[i] == ds[i];
        }
      }
      if exists i :: 0 <= i < |init| && Defines(init[i], id) {
        var i :| 0 <= i < |init| && Defines(init[i], id);
        assert ds[i] == init[i];
      }
    }
  }

  /** Last definition wins: the entry of an id is the one its last defining line gives. */
  lemma {:induction false} DefinitionsLastWins(ds: seq<LineDef>, id: int)
    requires Fold(ds).Success? && id in Fold(ds).value
    ensures exists i :: 0 <= i < |ds| && ds[i] == Success(Some((id, Fold(ds).value[id])))
                        && forall j :: i < j < |ds| ==> !Defines(ds[j], id)
  {
    var last := |ds| - 1;
    var init := ds[..last];
    if Defines(ds[last], id) {
      assert ds[last] == Success(Some((id, Fold(ds).value[id])));
    } else {
      var info := Fold(init).value;
      assert id in info && Fold(ds).value[id] == info[id];
      DefinitionsLastWins(init, id);
      var i :| 0 <= i < |init| && init[i] == Success(Some((id, info[id])))
               && forall j :: i < j < |init| ==> !Defines(init[j], id);
      assert ds[i] == init[i];
      forall j | i < j < |ds| ensures !Defines(ds[j], id) {
        if j < last {
          assert ds[j] == init[j];
        }
      }
    }
  }

  // ================================================================ chunk list

  /** `[(s, min(s + cs, size)) for s in range(from, size, cs)]`. */
  function ChunksFrom(from: nat, size: nat, cs: nat): (r: seq<(nat, nat)>)
    requires cs > 0
    ensures |r| == 0 <==> from >= size
    ensures r != [] ==> r[0].0 == from && r[|r| - 1].1 == size
    ensures forall i :: 0 <= i < |r| ==> from <= r[i].0 < r[i].1 <= size && r[i].1 - r[i].0 <= cs
    ensures forall i :: 0 <= i < |r| - 1 ==> r[i].1 == r[i + 1].0 && r[i].1 - r[i].0 == cs
    decreases size - from
  {
    if from >= size then []
    else
      var end := if from + cs < size then from + cs else size;
      var rest := ChunksFrom(from + cs, size, cs);
      if rest == [] then [(from, end)]
      else
        assert end == from + cs && rest[0].0 == end;
        [(from, end)] + rest
  }

  /** The chunk list of a file of `size` bytes: contiguous, from 0 to `size`, each at most `cs` long. */
  function Chunks(size: nat, cs: nat): seq<(nat, nat)>
    requires cs > 0
  {
    ChunksFrom(0, size, cs)
  }

  /** Chunks are ordered: every chunk ends at or before the start of any later one. */
  lemma {:induction false} ChunksOrdered(ch: seq<(nat, nat)>, i: nat, j: nat)
    requires forall k :: 0 <= k < |ch| ==> ch[k].0 < ch[k].1
    requires forall k :: 0 <= k < |ch| - 1 ==> ch[k].1 == ch[k + 1].0
    requires i < j < |ch|
    ensures ch[i].1 <= ch[j].0
    decreases j - i
  {
    if i + 1 < j {
      ChunksOrdered(ch, i + 1, j);
    }
  }

  /** An empty file has no chunks, and a non-empty one has at least one. */
  lemma EmptyFileNoChunks(size: nat)
    ensures |Chunks(size, ChunkSize)| == 0 <==> size == 0
  {
  }

  // ================================================================ one line

  /** One accepted sample: its vector id, its value and, for a node module, its (node, signal) key. */
  datatype Sample = Sample(vecId: int, value: real, node: Option<NodeSignal>)

  /**
   * The filters and parsing of one line in `parse_chunk`: blank and `vector `
   * lines, lines with fewer than four fields or a non-digit first field,
   * lines whose value is not a float and lines of undefined vectors give
   * nothing.  The node key is `str(int(group(1)))`.
   */
  function SampleOf(line: string, info: VectorInfo): (r: Option<Sample>)
    ensures r.Some? ==> r.value.vecId >= 0 && r.value.vecId in info
    ensures r.Some? ==> Strip(line) != [] && |Split(Strip(line))| >= 4
    ensures r.Some? && r.value.node.Some? ==>
      IsDigits(r.value.node.value.0) && r.value.node.value.1 == info[r.value.vecId].1
    ensures r.Some? ==> (r.value.node.Some? <==> NodePattern.Search(info[r.value.vecId].0, true).Some?)
  {
    var t := Strip(line);
    if t == [] || StartsWith(t, "vector ") then None
    else
      var parts := Split(t);
      if |parts| < 4 || !IsDigits(parts[0]) then None
      else
        match ParseReal(parts[3])
        case None => None
        case Some(v) =>
          var id := DigitsValue(parts[0]);
          if id !in info then None
          else
            var node := match NodePattern.Search(info[id].0, true)
              case None => None
              case Some(d) => Some((NatToString(DigitsValue(d)), info[id].1));
            Some(Sample(id, v, node))
  }

  /** The effect of one line on the two tables. */
  function Apply(acc: Stats, line: string, info: VectorInfo): (r: Stats)
    ensures SampleOf(line, info).None? ==> r == acc
    ensures SampleOf(line, info).Some? ==>
      var s := SampleOf(line, info).value;
      && r.vectors == Record(acc.vectors, s.vecId, s.value)
      && r.nodes == (if s.node.Some? then Record(acc.nodes, s.node.value, s.value) else acc.nodes)
  {
    match SampleOf(line, info)
    case None => acc
    case Some(s) =>
      Stats(Record(acc.vectors, s.vecId, s.value),
            if s.node.Some? then Record(acc.nodes, s.node.value, s.value) else acc.nodes)
  }

  /** Applying a line to `acc` is merging `acc` with the line applied to nothing. */
  lemma ApplyShift(acc: Stats, line: string, info: VectorInfo)
    ensures Apply(acc, line, info) == MergeStats(acc, Apply(NoStats, line, info))
  {
    match SampleOf(line, info)
    case None =>
      MergeStatsIdentity(acc);
    case Some(s) =>
      RecordShift(acc.vectors, s.vecId, s.value);
      if s.node.Some? {
        RecordShift(acc.nodes, s.node.value, s.value);
      } else {
        MergeIdentity(acc.nodes);
      }
  }

  // ================================================================ scanning

  /**
   * The scan loop from offset `p`: while the offset is below `e` and a line
   * is left, read the line starting there, apply it and move past it.
   */
  function ScanFrom(c: string, p: nat, e: nat, info: VectorInfo, acc: Stats): Stats
    decreases |c| - p
  {
    if p >= e || p >= |c| then acc
    else
      var q := LineEnd(c, p);
      ScanFrom(c, q, e, info, Apply(acc, c[p..q], info))
  }

  /** The offset at which the scan from `p` stops. */
  function Stop(c: string, p: nat, e: nat): (q: nat)
    ensures p <= q
    decreases |c| - p
  {
    if p >= e || p >= |c| then p else Stop(c, LineEnd(c, p), e)
  }

  /** The offsets of the lines the scan from `p` reads, in order. */
  function Visits(c: string, p: nat, e: nat): seq<nat>
    decreases |c| - p
  {
    if p >= e || p >= |c| then [] else [p] + Visits(c, LineEnd(c, p), e)
  }

  /** A line begins at `q`: the first offset or the one after a newline. */
  predicate LineStart(c: string, q: nat) {
    q < |c| && (q == 0 || c[q - 1] == '\n')
  }

  /** A position the line reader can be at: the first offset, just after a newline, or the end. */
  predicate Boundary(c: string, p: nat) {
    p == 0 || (p <= |c| && c[p - 1] == '\n') || p == |c|
  }

  /** The scan loop of `parse_chunk` from the offset `pos`. */
  method ScanLines(c: string, pos: nat, end: nat, info: VectorInfo) returns (r: Stats)
    ensures r == ScanFrom(c, pos, end, info, NoStats)
  {
    var p := pos;
    var stats := NoStats;
    while p < end
      invariant ScanFrom(c, p, end, info, stats) == ScanFrom(c, pos, end, info, NoStats)
      decreases |c| - p
    {
      if p >= |c| {
        break;  // readline() returned b''
      }
      var q := LineEnd(c, p);
      stats := Apply(stats, c[p..q], info);
      p := q;
    }
    return stats;
  }

  /** Where `parse_chunk` starts reading: after the line holding `start` unless `start` is 0. */
  function ChunkStart(c: string, start: nat): nat {
    if start != 0 && start < |c| then LineEnd(c, start) else start
  }

  /** The statistics `parse_chunk(path, start, end, vector_info)` returns. */
  function ChunkResult(c: string, start: nat, end: nat, info: VectorInfo): Stats {
    ScanFrom(c, ChunkStart(c, start), end, info, NoStats)
  }

  /** `parse_chunk`: seek, skip the partial first line unless at 0, then scan. */
  method ParseChunk(c: string, start: nat, end: nat, info: VectorInfo) returns (r: Stats)
    ensures r == ChunkResult(c, start, end, info)
  {
    var pos := start;
    if start != 0 && start < |c| {
      pos := LineEnd(c, start);
    }
    r := ScanLines(c, pos, end, info);
  }

  /** The statistics of one scan over the whole file. */
  function Sequential(c: string, info: VectorInfo): Stats {
    ScanFrom(c, 0, |c|, info, NoStats)
  }

  // ================================================================ line ownership

  lemma {:induction false} LineEndSkip(c: string, p: nat, x: nat)
    requires p <= |c| && p <= x < LineEnd(c, p)
    ensures LineEnd(c, x) == LineEnd(c, p)
    decreases x - p
  {
    if p < x {
      assert c[p] != '\n';
      LineEndSkip(c, p + 1, x);
    }
  }

  /** No line begins strictly inside the line that starts at `p`. */
  lemma NoLineStartInside(c: string, p: nat, q: nat)
    requires p <= |c| && p < q < LineEnd(c, p)
    ensures !LineStart(c, q)
  {
    assert c[q - 1] != '\n';
  }

  /** From a boundary, the scan reads exactly the lines that begin in `[p, e)`. */
  lemma {:induction false} VisitsFromBoundary(c: string, p: nat, e: nat, q: nat)
    requires p <= |c| && Boundary(c, p)
    ensures q in Visits(c, p, e) <==> LineStart(c, q) && p <= q < e
    decreases |c| - p
  {
    if p < e && p < |c| {
      var n := LineEnd(c, p);
      VisitsFromBoundary(c, n, e, q);
      if p < q < n {
        NoLineStartInside(c, p, q);
      }
    }
  }

  /**
   * Line ownership as written: chunk `[s, e)` reads the lines that begin at
   * `p` with `0 <= p < e` when `s` is 0 and with `s < p < e` otherwise.
   */
  lemma ChunkOwnership(c: string, s: nat, e: nat, q: nat)
    requires s < |c|
    ensures q in Visits(c, ChunkStart(c, s), e) <==>
      LineStart(c, q) && (if s == 0 then q < e else s < q < e)
  {
    var p := ChunkStart(c, s);
    VisitsFromBoundary(c, p, e, q);
    if s != 0 && s < q < p {
      NoLineStartInside(c, s, q);
    }
  }

  /** A line that begins exactly at a non-zero chunk start is read by no chunk. */
  lemma BoundaryLineLost(c: string, cs: nat, k: nat)
    requires cs > 0
    requires k < |Chunks(|c|, cs)|
    requires Chunks(|c|, cs)[k].0 > 0 && c[Chunks(|c|, cs)[k].0 - 1] == '\n'
    ensures LineStart(c, Chunks(|c|, cs)[k].0)
    ensures forall j :: 0 <= j < |Chunks(|c|, cs)| ==>
      Chunks(|c|, cs)[k].0 !in Visits(c, ChunkStart(c, Chunks(|c|, cs)[j].0), Chunks(|c|, cs)[j].1)
  {
    var ch := Chunks(|c|, cs);
    var s := ch[k].0;
    forall j | 0 <= j < |ch| ensures s !in Visits(c, ChunkStart(c, ch[j].0), ch[j].1) {
      ChunkOwnership(c, ch[j].0, ch[j].1, s);
      if j < k {
        ChunksOrdered(ch, j, k);
      } else if k < j {
        ChunksOrdered(ch, k, j);
      }
    }
  }

  // ================================================================ chunk invariance

  /** Scanning to `E` is scanning to `e` and then going on from where that scan stopped. */
  lemma {:induction false} ScanSplit(c: string, p: nat, e: nat, bigE: nat, info: VectorInfo, acc: Stats)
    requires e <= bigE
    ensures ScanFrom(c, p, bigE, info, acc) == ScanFrom(c, Stop(c, p, e), bigE, info, ScanFrom(c, p, e, info, acc))
    decreases |c| - p
  {
    if p < e && p < |c| {
      var q := LineEnd(c, p);
      ScanSplit(c, q, e, bigE, info, Apply(acc, c[p..q], info));
    }
  }

  /** A scan started from `acc` is `acc` merged with the same scan started from nothing. */
  lemma {:induction false} ScanShift(c: string, p: nat, e: nat, info: VectorInfo, acc: Stats)
    ensures ScanFrom(c, p, e, info, acc) == MergeStats(acc, ScanFrom(c, p, e, info, NoStats))
    decreases |c| - p
  {
    if p >= e || p >= |c| {
      MergeStatsIdentity(acc);
    } else {
      var q := LineEnd(c, p);
      var line := c[p..q];
      var one := Apply(NoStats, line, info);
      var rest := ScanFrom(c, q, e, info, NoStats);
      ScanShift(c, q, e, info, Apply(acc, line, info));
      ScanShift(c, q, e, info, one);
      ApplyShift(acc, line, info);
      MergeStatsAssoc(acc, one, rest);
    }
  }

  /** A scan from inside the file up to `e` stops at the end of the line holding offset `e - 1`. */
  lemma {:induction false} StopAtLineEnd(c: string, p: nat, e: nat)
    requires p < e <= |c|
    ensures Stop(c, p, e) == LineEnd(c, e - 1)
    decreases |c| - p
  {
    var q := LineEnd(c, p);
    if q >= e {
      LineEndSkip(c, p, e - 1);
    } else {
      StopAtLineEnd(c, q, e);
    }
  }

  /**
   * The corrected start: seek to `start - 1` and read one line, which lands
   * on the first line that begins at or after `start`.
   */
  function FixedStart(c: string, start: nat): nat
    requires start <= |c|
  {
    if start == 0 then 0 else LineEnd(c, start - 1)
  }

  function FixedChunkResult(c: string, start: nat, end: nat, info: VectorInfo): Stats
    requires start <= |c|
  {
    ScanFrom(c, FixedStart(c, start), end, info, NoStats)
  }

  /** The corrected `parse_chunk`: the chunk owns the lines that begin in `[start, end)`. */
  method ParseChunkFixed(c: string, start: nat, end: nat, info: VectorInfo) returns (r: Stats)
    requires start <= |c|
    ensures r == FixedChunkResult(c, start, end, info)
  {
    var pos := start;
    if start != 0 {
      pos := LineEnd(c, start - 1);
    }
    r := ScanLines(c, pos, end, info);
  }

  /** With the corrected start, a chunk reads exactly the lines that begin in `[s, e)`. */
  lemma FixedOwnership(c: string, s: nat, e: nat, q: nat)
    requires s <= |c|
    ensures q in Visits(c, FixedStart(c, s), e) <==> LineStart(c, q) && s <= q < e
  {
    var p := FixedStart(c, s);
    VisitsFromBoundary(c, p, e, q);
    if s != 0 && s <= q < p {
      NoLineStartInside(c, s - 1, q);
    }
  }

  /** The left-to-right merge of a list of partial results. */
  function MergeAll(rs: seq<Stats>): Stats {
    if rs == [] then NoStats else MergeStats(MergeAll(rs[..|rs| - 1]), rs[|rs| - 1])
  }

  /** The merge loop of `parse_repetition`: each chunk result folded into the final tables in turn. */
  method MergeResults(rs: seq<Stats>) returns (r: Stats)
    ensures r == MergeAll(rs)
  {
    r := NoStats;
    for i := 0 to |rs|
      invariant r == MergeAll(rs[..i])
    {
      assert rs[..i + 1][..i] == rs[..i];
      r := MergeStats(r, rs[i]);
    }
    assert rs[..|rs|] == rs;
  }

  function ChunkResults(c: string, ch: seq<(nat, nat)>, info: VectorInfo): (rs: seq<Stats>)
    ensures |rs| == |ch|
  {
    seq(|ch|, i requires 0 <= i < |ch| => ChunkResult(c, ch[i].0, ch[i].1, info))
  }

  function FixedChunkResults(c: string, ch: seq<(nat, nat)>, info: VectorInfo): (rs: seq<Stats>)
    requires forall i :: 0 <= i < |ch| ==> ch[i].0 <= |c|
    ensures |rs| == |ch|
  {
    seq(|ch|, i requires 0 <= i < |ch| => FixedChunkResult(c, ch[i].0, ch[i].1, info))
  }

  /** Merging the first `i` corrected chunk results is one scan up to the end of chunk `i - 1`. */
  lemma {:induction false} FixedPrefix(c: string, ch: seq<(nat, nat)>, rs: seq<Stats>, info: VectorInfo, i: nat)
    requires ch != [] && ch[0].0 == 0
    requires forall k :: 0 <= k < |ch| ==> ch[k].0 < ch[k].1 <= |c|
    requires forall k :: 0 <= k < |ch| - 1 ==> ch[k].1 == ch[k + 1].0
    requires |rs| == |ch| && forall k :: 0 <= k < |ch| ==> rs[k] == FixedChunkResult(c, ch[k].0, ch[k].1, info)
    requires 1 <= i <= |ch|
    ensures MergeAll(rs[..i]) == ScanFrom(c, 0, ch[i - 1].1, info, NoStats)
  {
    if i == 1 {
      assert rs[..1][..0] == [];
      assert MergeAll(rs[..1]) == MergeStats(NoStats, rs[0]);
      MergeStatsIdentity(rs[0]);
    } else {
      FixedPrefix(c, ch, rs, info, i - 1);
      assert rs[..i][..i - 1] == rs[..i - 1];
      assert MergeAll(rs[..i]) == MergeStats(MergeAll(rs[..i - 1]), rs[i - 1]);
      assert rs[i - 1] == FixedChunkResult(c, ch[i - 2].1, ch[i - 1].1, info);
      ExtendScan(c, ch[i - 2].1, ch[i - 1].1, info);
    }
  }

  /** One scan up to `before` merged with the corrected chunk `[before, e)` is one scan up to `e`. */
  lemma ExtendScan(c: string, before: nat, e: nat, info: VectorInfo)
    requires 0 < before <= e <= |c|
    ensures MergeStats(ScanFrom(c, 0, before, info, NoStats), FixedChunkResult(c, before, e, info))
         == ScanFrom(c, 0, e, info, NoStats)
  {
    var prev := ScanFrom(c, 0, before, info, NoStats);
    StopAtLineEnd(c, 0, before);
    ScanShift(c, FixedStart(c, before), e, info, prev);
    ScanSplit(c, 0, before, e, info, NoStats);
  }

  /** With the corrected start, merging the chunk results always equals one sequential scan. */
  lemma FixedChunkInvariance(c: string, cs: nat, info: VectorInfo)
    requires cs > 0
    ensures MergeAll(FixedChunkResults(c, Chunks(|c|, cs), info)) == Sequential(c, info)
  {
    var ch := Chunks(|c|, cs);
    if ch != [] {
      FixedPrefix(c, ch, FixedChunkResults(c, ch, info), info, |ch|);
      assert FixedChunkResults(c, ch, info)[..|ch|] == FixedChunkResults(c, ch, info);
    }
  }

  /** No line begins exactly at a non-zero chunk start. */
  predicate NoBoundaryLine(c: string, ch: seq<(nat, nat)>) {
    forall k :: 0 <= k < |ch| && 0 < ch[k].0 <= |c| ==> c[ch[k].0 - 1] != '\n'
  }

  /** As written, merging the chunk results equals one sequential scan when no line starts on a chunk boundary. */
  lemma ChunkInvariance(c: string, cs: nat, info: VectorInfo)
    requires cs > 0 && NoBoundaryLine(c, Chunks(|c|, cs))
    ensures MergeAll(ChunkResults(c, Chunks(|c|, cs), info)) == Sequential(c, info)
  {
    var ch := Chunks(|c|, cs);
    forall k | 0 <= k < |ch| ensures ChunkStart(c, ch[k].0) == FixedStart(c, ch[k].0) {
      var s := ch[k].0;
      if s != 0 {
        assert c[s - 1] != '\n';
      }
    }
    assert ChunkResults(c, ch, info) == FixedChunkResults(c, ch, info);
    FixedChunkInvariance(c, cs, info);
  }

  // ================================================================ one repetition

  /** What `parse_repetition` returns: the merged tables and the definition table. */
  datatype Repetition = Repetition(vectors: Table<int>, nodes: Table<NodeSignal>, info: VectorInfo)

  /** The worker pool's `map` of the corrected chunk parser over the chunk list, in chunk order. */
  method ParseChunks(c: string, ch: seq<(nat, nat)>, info: VectorInfo) returns (results: seq<Stats>)
    requires forall i :: 0 <= i < |ch| ==> ch[i].0 <= |c|
    ensures results == FixedChunkResults(c, ch, info)
  {
    results := [];
    for i := 0 to |ch|
      invariant |results| == i
      invariant forall k :: 0 <= k < i ==> results[k] == FixedChunkResult(c, ch[k].0, ch[k].1, info)
    {
      var one := ParseChunkFixed(c, ch[i].0, ch[i].1, info);
      results := results + [one];
    }
  }

  /** The error a worker pool of size 0 raises, which is what an empty file leads to. */
  const EmptyPool := ValueError("Number of processes must be at least 1")

  /**
   * What one repetition's vector file yields when read from start to end in
   * one pass: the definition table's failure, the pool-size failure of an
   * empty file, or the tables of a single sequential scan.
   */
  function RepetitionOf(c: string): Result<Repetition> {
    match Definitions(Lines(c))
    case Failure(e) => Failure(e)
    case Success(info) =>
      if |c| == 0 then Failure(EmptyPool)
      else Success(Repetition(Sequential(c, info).vectors, Sequential(c, info).nodes, info))
  }

  /**
   * `parse_repetition` with the corrected chunk start: the definition pass,
   * the chunk list, one corrected scan per chunk and the merge.  The chunked
   * reading gives exactly what a single sequential scan gives.
   */
  method ParseRepetition(c: string) returns (r: Result<Repetition>)
    ensures r == RepetitionOf(c)
  {
    var defs := ReadDefinitions(Lines(c));
    if defs.Failure? {
      return Failure(defs.error);
    }
    var info := defs.value;
    var ch := Chunks(|c|, ChunkSize);
    if |ch| == 0 {
      return Failure(EmptyPool);
    }
    var results := ParseChunks(c, ch, info);
    var merged := MergeResults(results);
    FixedChunkInvariance(c, ChunkSize, info);
    return Success(Repetition(merged.vectors, merged.nodes, info));
  }
}
