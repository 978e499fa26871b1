/**
 * `aggregate_setup` (simulations/run_and_analyze.py): the repetition
 * directories of one result directory are read one after the other, and the
 * per-repetition means of every (node, signal) pair of the first repetition
 * are summarised by their mean and their population variance.
 */
module CrossRep {
  import opened Wrappers
  import opened Text
  import opened RunningStats
  import opened VectorTrace
  import SimName

  // ================================================================ directory names

  /** Python's `a <= b` on strings: lexicographic by character code. */
  predicate Below(a: string, b: string) {
    |a| == 0 || (|b| > 0 && (a[0] < b[0] || (a[0] == b[0] && Below(a[1..], b[1..]))))
  }

  lemma {:induction false} BelowTotal(a: string, b: string)
    ensures Below(a, b) || Below(b, a)
  {
    if |a| > 0 && |b| > 0 && a[0] == b[0] {
      BelowTotal(a[1..], b[1..]);
    }
  }

  predicate Sorted(s: seq<string>) {
    forall i :: 0 < i < |s| ==> Below(s[i - 1], s[i])
  }

  /** Inserts `x` in front of the first element it is `Below`. */
  function Insert(x: string, s: seq<string>): (r: seq<string>)
    requires Sorted(s)
    ensures Sorted(r)
    ensures multiset(r) == multiset(s) + multiset{x}
    ensures r[0] == x || (s != [] && r[0] == s[0])
  {
    if s == [] || Below(x, s[0]) then
      [x] + s
    else
      BelowTotal(x, s[0]);
      var rest := Insert(x, s[1..]);
      assert s == [s[0]] + s[1..];
      [s[0]] + rest
  }

  /** `sorted(...)` of a list of names: a sorted permutation of its input. */
  function SortNames(s: seq<string>): (r: seq<string>)
    ensures Sorted(r)
    ensures multiset(r) == multiset(s)
  {
    if s == [] then []
    else
      assert s == [s[0]] + s[1..];
      Insert(s[0], SortNames(s[1..]))
  }

  /** `[f for f in listing if f.isdigit()]`: the digit-only names, in listing order. */
  function DigitNames(listing: seq<string>): (r: seq<string>)
    ensures forall i :: 0 <= i < |r| ==> IsDigits(r[i])
    ensures forall x :: multiset(r)[x] == if IsDigits(x) then multiset(listing)[x] else 0
  {
    if listing == [] then []
    else
      assert listing == [listing[0]] + listing[1..];
      var rest := DigitNames(listing[1..]);
      if IsDigits(listing[0]) then [listing[0]] + rest else rest
  }

  /** The repetitions `aggregate_setup` reads, in the order it reads them. */
  function RepetitionNames(listing: seq<string>): (r: seq<string>)
    ensures Sorted(r)
    ensures forall x :: x in r <==> x in listing && IsDigits(x)
  {
    var digits := DigitNames(listing);
    var r := SortNames(digits);
    assert forall x :: x in r <==> x in digits by {
      forall x ensures x in r <==> x in digits {
        assert x in r <==> multiset(r)[x] > 0;
        assert x in digits <==> multiset(digits)[x] > 0;
      }
    }
    assert forall x :: x in digits <==> x in listing && IsDigits(x) by {
      forall x ensures x in digits <==> x in listing && IsDigits(x) {
        assert x in digits <==> multiset(digits)[x] > 0;
        assert x in listing <==> multiset(listing)[x] > 0;
      }
    }
    r
  }

  // ================================================================ mean and variance

  /** `|x - m|`. */
  function Distance(x: real, m: real): (r: real)
    ensures r >= 0.0 && (r == 0.0 <==> x == m)
  {
    if x < m then m - x else x - m
  }

  /**
   * `(x - m) ** 2`, written as the product of the two (equal) distances
   * `|x - m|` and `|m - x|`.
   */
  function SquaredDistance(x: real, m: real): real {
    Distance(x, m) * Distance(m, x)
  }

  lemma MulPositive(a: real, b: real)
    requires a > 0.0 && b > 0.0
    ensures a * b > 0.0
  {
  }

  lemma SquaredDistanceSign(x: real, m: real)
    ensures SquaredDistance(x, m) >= 0.0
    ensures SquaredDistance(x, m) == 0.0 <==> x == m
  {
    if x != m {
      MulPositive(Distance(x, m), Distance(m, x));
    }
  }

  /** The sum of the squared distances of the values from `m`. */
  function SquaredDeviation(xs: seq<real>, m: real): (r: real)
    ensures r >= 0.0
  {
    if xs == [] then 0.0
    else
      SquaredDistanceSign(xs[0], m);
      SquaredDistance(xs[0], m) + SquaredDeviation(xs[1..], m)
  }

  /** The square of `np.std` with its default `ddof=0`: the population variance. */
  function Variance(xs: seq<real>): (r: real)
    requires xs != []
    ensures r >= 0.0
  {
    SquaredDeviation(xs, Average(xs)) / (|xs| as real)
  }

  lemma {:induction false} SquaredDeviationZero(xs: seq<real>, m: real)
    ensures SquaredDeviation(xs, m) == 0.0 <==> forall i :: 0 <= i < |xs| ==> xs[i] == m
  {
    if xs != [] {
      var tail := xs[1..];
      SquaredDeviationZero(tail, m);
      SquaredDistanceSign(xs[0], m);
      assert forall i :: 1 <= i < |xs| ==> xs[i] == tail[i - 1];
      assert forall j :: 0 <= j < |tail| ==> tail[j] == xs[j + 1];
    }
  }

  /** The variance is zero exactly when every value equals the mean. */
  lemma VarianceZeroIff(xs: seq<real>)
    requires xs != []
    ensures Variance(xs) == 0.0 <==> forall i :: 0 <= i < |xs| ==> xs[i] == Average(xs)
  {
    SquaredDeviationZero(xs, Average(xs));
  }

  /** Values that are all `v` have mean `v` and variance zero; one repetition is such a case. */
  lemma ConstantSummary(xs: seq<real>, v: real)
    requires xs != []
    requires forall i :: 0 <= i < |xs| ==> xs[i] == v
    ensures Average(xs) == v && Variance(xs) == 0.0
  {
    FoldValuesValid(xs);
    FoldValuesBounds(xs);
    MeanBetween(FoldValues(xs));
    SquaredDeviationZero(xs, v);
  }

  // ================================================================ per-pair summaries

  /** One repetition's `(node, signal)` table. */
  type NodeTable = Table<NodeSignal>

  /** `signal in rep_stats.get(node_id, {})` and `s["count"] > 0`. */
  predicate Counted(t: NodeTable, k: NodeSignal) {
    k in t && t[k].count > 0
  }

  /** The per-repetition means `s["sum"] / s["count"]` of one pair, in repetition order. */
  function RepMeans(reps: seq<NodeTable>, k: NodeSignal): (vs: seq<real>)
    ensures |vs| <= |reps|
  {
    if reps == [] then []
    else
      var rest := RepMeans(reps[..|reps| - 1], k);
      var last := reps[|reps| - 1];
      if Counted(last, k) then rest + [Mean(last[k])] else rest
  }

  /** A pair has no values exactly when no repetition counted it. */
  lemma {:induction false} RepMeansEmptyIff(reps: seq<NodeTable>, k: NodeSignal)
    ensures RepMeans(reps, k) == [] <==> forall i :: 0 <= i < |reps| ==> !Counted(reps[i], k)
  {
    if reps != [] {
      var init := reps[..|reps| - 1];
      RepMeansEmptyIff(init, k);
      assert forall i :: 0 <= i < |init| ==> init[i] == reps[i];
    }
  }

  /** The summary `{"mean": ..., "std": ...}` of one pair, with the variance in place of `std`. */
  datatype Summary = Summary(mean: real, variance: real)

  function Summarize(vs: seq<real>): Summary
    requires vs != []
  {
    Summary(Average(vs), Variance(vs))
  }

  /** `aggregated_node_stats`: the pairs of the first repetition that have at least one value. */
  function Aggregate(reps: seq<NodeTable>): map<NodeSignal, Summary>
    requires reps != []
  {
    map k | k in reps[0].Keys && RepMeans(reps, k) != [] :: Summarize(RepMeans(reps, k))
  }

  /**
   * A pair is reported exactly when the first repetition has it and some
   * repetition counted it; pairs that only later repetitions have are dropped.
   */
  lemma AggregateKeys(reps: seq<NodeTable>, k: NodeSignal)
    requires reps != []
    ensures k in Aggregate(reps) <==> k in reps[0] && exists i :: 0 <= i < |reps| && Counted(reps[i], k)
  {
    RepMeansEmptyIff(reps, k);
  }

  /** With a single repetition every reported pair has that repetition's mean and variance zero. */
  lemma OneRepetition(t: NodeTable, k: NodeSignal)
    requires Counted(t, k)
    ensures k in Aggregate([t])
    ensures Aggregate([t])[k] == Summary(Mean(t[k]), 0.0)
  {
    assert [t][..0] == [];
    assert RepMeans([t], k) == [Mean(t[k])];
    ConstantSummary([Mean(t[k])], Mean(t[k]));
  }

  /** The inner `for rep_stats in all_reps_node_stats` loop that collects one pair's values. */
  method CollectMeans(reps: seq<NodeTable>, k: NodeSignal) returns (values: seq<real>)
    ensures values == RepMeans(reps, k)
  {
    values := [];
    for i := 0 to |reps|
      invariant values == RepMeans(reps[..i], k)
    {
      assert reps[..i + 1][..i] == reps[..i];
      if k in reps[i] && reps[i][k].count > 0 {
        values := values + [Mean(reps[i][k])];
      }
    }
    assert reps[..|reps|] == reps;
  }

  /** The loop over the pairs of the first repetition that fills `aggregated_node_stats`. */
  method AggregatePairs(reps: seq<NodeTable>) returns (agg: map<NodeSignal, Summary>)
    requires reps != []
    ensures agg == Aggregate(reps)
  {
    agg := map[];
    var todo := reps[0].Keys;
    while todo != {}
      invariant todo <= reps[0].Keys
      invariant forall k :: k in agg <==> k in reps[0] && k !in todo && RepMeans(reps, k) != []
      invariant forall k :: k in agg ==> RepMeans(reps, k) != [] && agg[k] == Summarize(RepMeans(reps, k))
      decreases |todo|
    {
      var k :| k in todo;
      var values := CollectMeans(reps, k);
      if values != [] {
        agg := agg[k := Summary(Average(values), Variance(values))];
      }
      todo := todo - {k};
    }
    assert agg.Keys == Aggregate(reps).Keys;
  }

  // ================================================================ one result directory

  /** The JSON document `aggregate_setup` writes. */
  datatype Setup = Setup(vectorInfo: map<string, (string, string)>,
                         aggregated: map<NodeSignal, Summary>,
                         repetitions: seq<string>)

  /** The `vectors.vec` content of each repetition directory; a missing name has no such file. */
  type Files = map<string, string>

  /** The path `os.path.join(setup_path, rep, "vectors.vec")`, relative to the result directory. */
  function VectorPath(rep: string): string {
    rep + "/vectors.vec"
  }

  /** `{str(k): v for k, v in vector_info.items()}`. */
  function InfoJson(info: VectorInfo): (r: map<string, (string, string)>)
  {
    IntToStringInjective();
    map k | k in info.Keys :: IntToString(k) := info[k]
  }

  /**
   * The stringified table loses nothing: every id appears under its decimal
   * text, and every key reads back as an id of the table with the same entry.
   */
  lemma InfoJsonRoundTrip(info: VectorInfo)
    ensures forall k :: k in info ==> IntToString(k) in InfoJson(info) && InfoJson(info)[IntToString(k)] == info[k]
    ensures forall s :: s in InfoJson(info) ==>
      ParseInt(s).Some? && ParseInt(s).value in info && info[ParseInt(s).value] == InfoJson(info)[s]
  {
    IntToStringInjective();
    forall s | s in InfoJson(info)
      ensures ParseInt(s).Some? && ParseInt(s).value in info && info[ParseInt(s).value] == InfoJson(info)[s]
    {
      var k :| k in info && IntToString(k) == s;
      ParseIntToString(k);
    }
  }

  /** The repetitions read so far, in order; the first failing one ends the reading. */
  function ReadAll(names: seq<string>, files: Files): (r: Result<seq<Repetition>>)
    ensures r.Success? ==> |r.value| == |names|
  {
    if names == [] then Success([])
    else
      match ReadAll(names[..|names| - 1], files)
      case Failure(e) => Failure(e)
      case Success(reps) =>
        var name := names[|names| - 1];
        if name !in files then Failure(FileNotFoundError(VectorPath(name)))
        else
          match RepetitionOf(files[name])
          case Failure(e) => Failure(e)
          case Success(rep) => Success(reps + [rep])
  }

  lemma {:induction false} ReadAllFailureSticks(names: seq<string>, files: Files, i: nat)
    requires i <= |names|
    requires ReadAll(names[..i], files).Failure?
    ensures ReadAll(names, files) == ReadAll(names[..i], files)
    decreases |names| - i
  {
    if i < |names| {
      assert names[..i + 1][..i] == names[..i];
      ReadAllFailureSticks(names, files, i + 1);
    } else {
      assert names[..i] == names;
    }
  }

  function NodeTables(reps: seq<Repetition>): (ts: seq<NodeTable>)
    ensures |ts| == |reps|
  {
    seq(|reps|, i requires 0 <= i < |reps| => reps[i].nodes)
  }

  /** What `aggregate_setup` writes for a directory listing and the repetitions' vector files. */
  function SetupOf(listing: seq<string>, files: Files): Result<Setup> {
    var names := RepetitionNames(listing);
    match ReadAll(names, files)
    case Failure(e) => Failure(e)
    case Success(reps) =>
      if reps == [] then Failure(IndexError("list index out of range"))
      else Success(Setup(InfoJson(reps[|reps| - 1].info), Aggregate(NodeTables(reps)), names))
  }

  /** The `for rep in repetitions` loop: parse every repetition's vector file in turn. */
  method ReadRepetitions(names: seq<string>, files: Files) returns (r: Result<seq<Repetition>>)
    ensures r == ReadAll(names, files)
  {
    var reps: seq<Repetition> := [];
    for i := 0 to |names|
      invariant ReadAll(names[..i], files) == Success(reps)
    {
      assert names[..i + 1][..i] == names[..i];
      var name := names[i];
      if name !in files {
        ReadAllFailureSticks(names, files, i + 1);
        return Failure(FileNotFoundError(VectorPath(name)));
      }
      var rep := ParseRepetition(files[name]);
      if rep.Failure? {
        ReadAllFailureSticks(names, files, i + 1);
        return Failure(rep.error);
      }
      reps := reps + [rep.value];
    }
    assert names[..|names|] == names;
    return Success(reps);
  }

  /**
   * `aggregate_setup`: read every repetition, then summarise the first one's
   * pairs. `listing` is the directory whose digit-named entries are the
   * repetitions (see `GeneratedRootFails` for the directory the script lists),
   * and each repetition is read with the corrected chunk start of
   * `VectorTrace.RepetitionOf`.
   */
  method AggregateSetup(listing: seq<string>, files: Files) returns (r: Result<Setup>)
    ensures r == SetupOf(listing, files)
  {
    var names := RepetitionNames(listing);
    var read := ReadRepetitions(names, files);
    if read.Failure? {
      return Failure(read.error);
    }
    var reps := read.value;
    if reps == [] {
      return Failure(IndexError("list index out of range"));
    }
    var agg := AggregatePairs(NodeTables(reps));
    return Success(Setup(InfoJson(reps[|reps| - 1].info), agg, names));
  }

  /** A directory without digit-named entries has no first repetition to index. */
  lemma NoRepetitionsFail(listing: seq<string>, files: Files)
    requires forall i :: 0 <= i < |listing| ==> !IsDigits(listing[i])
    ensures SetupOf(listing, files) == Failure(IndexError("list index out of range"))
  {
  }

  /** The entries of `RESULTS_DIR` in the layout `generate_ini` writes: one directory per
    * setup, named after its simulation. */
  function GeneratedRoot(setups: seq<(int, int, int)>): (listing: seq<string>)
    ensures |listing| == |setups|
  {
    seq(|setups|, i requires 0 <= i < |setups| => SimName.SimName(setups[i].0, setups[i].1, setups[i].2))
  }

  /** The entries of one setup directory: the `${repetition}` directories `0`, `1`, ... */
  function SetupDirectory(repetitions: nat): (listing: seq<string>)
    ensures |listing| == repetitions
  {
    seq(repetitions, i requires 0 <= i < repetitions => NatToString(i))
  }

  /**
   * As written, `aggregate_setup` lists `RESULTS_DIR` itself rather than the
   * setup's directory. In the generated layout that directory holds only
   * setup directories, none of them a repetition, so every setup fails at
   * `all_reps_node_stats[0]`.
   */
  lemma GeneratedRootFails(setups: seq<(int, int, int)>, files: Files)
    ensures SetupOf(GeneratedRoot(setups), files) == Failure(IndexError("list index out of range"))
  {
    var listing := GeneratedRoot(setups);
    forall i | 0 <= i < |listing|
      ensures !IsDigits(listing[i])
    {
      var (sf, tp, nodes) := setups[i];
      var fields := SimName.NameFields(sf, tp, nodes);
      assert listing[i] == JoinOn(fields, '_');
      assert JoinOn(fields, '_')[0] == fields[0][0] == 'S';
    }
    NoRepetitionsFail(listing, files);
  }

  /** Every repetition named is present and parses, so reading them all succeeds. */
  lemma {:induction false} ReadAllSucceeds(names: seq<string>, files: Files)
    requires forall i :: 0 <= i < |names| ==> names[i] in files && RepetitionOf(files[names[i]]).Success?
    ensures ReadAll(names, files).Success?
    decreases |names|
  {
    if names != [] {
      ReadAllSucceeds(names[..|names| - 1], files);
    }
  }

  /**
   * Listing the setup's own directory, as intended: its entries are the
   * repetition numbers (`SetupDirectory`), and when the run left a readable
   * vector file in each of them, the setup is summarised over exactly those
   * repetitions.
   */
  lemma SetupDirectoryAggregates(listing: seq<string>, files: Files)
    requires listing != []
    requires forall i :: 0 <= i < |listing| ==> IsDigits(listing[i])
    requires forall i :: 0 <= i < |listing| ==> listing[i] in files && RepetitionOf(files[listing[i]]).Success?
    ensures SetupOf(listing, files).Success?
    ensures forall x :: x in SetupOf(listing, files).value.repetitions <==> x in listing
  {
    var names := RepetitionNames(listing);
    forall j | 0 <= j < |names|
      ensures names[j] in files && RepetitionOf(files[names[j]]).Success?
    {
      assert names[j] in listing;
    }
    assert listing[0] in names;
    ReadAllSucceeds(names, files);
  }

  /** The repetition numbers of a setup directory are digit names. */
  lemma SetupDirectoryDigits(k: nat)
    ensures forall i :: 0 <= i < k ==> IsDigits(SetupDirectory(k)[i])
  {
  }

  /**
   * A written setup lists exactly the digit-named entries in sorted order,
   * and its vector table is the last repetition's.
   */
  lemma SetupShape(listing: seq<string>, files: Files)
    requires SetupOf(listing, files).Success?
    ensures Sorted(SetupOf(listing, files).value.repetitions)
    ensures forall x :: x in SetupOf(listing, files).value.repetitions <==> x in listing && IsDigits(x)
    ensures var names := RepetitionNames(listing);
      names != [] && names[|names| - 1] in files &&
      RepetitionOf(files[names[|names| - 1]]).Success? &&
      SetupOf(listing, files).value.vectorInfo == InfoJson(RepetitionOf(files[names[|names| - 1]]).value.info)
  {
    var names := RepetitionNames(listing);
  }
}
