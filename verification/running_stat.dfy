/**
 * The running statistic every reducer of the repository keeps per key:
 * `{"count": 0, "sum": 0.0, "min": float('inf'), "max": float('-inf')}`,
 * updated with `count += 1; sum += value; min = min(min, value);
 * max = max(max, value)` and merged by adding counts and sums and taking
 * min/max.  Sample values are finite reals; the two infinities only ever
 * appear as the initial min and max.
 */
module RunningStats {

  /** A float used as a bound: finite, or one of the two infinities. */
  datatype Bound = NegInf | Finite(v: real) | PosInf

  predicate Le(a: Bound, b: Bound) {
    match (a, b)
    case (NegInf, _) => true
    case (_, PosInf) => true
    case (Finite(x), Finite(y)) => x <= y
    case _ => false
  }

  /** Python's `min(a, b)`. */
  function Min(a: Bound, b: Bound): (r: Bound)
    ensures Le(r, a) && Le(r, b) && (r == a || r == b)
  {
    if Le(b, a) then b else a
  }

  /** Python's `max(a, b)`. */
  function Max(a: Bound, b: Bound): (r: Bound)
    ensures Le(a, r) && Le(b, r) && (r == a || r == b)
  {
    if Le(a, b) then b else a
  }

  datatype RunningStat = RunningStat(count: nat, sum: real, min: Bound, max: Bound)

  /** The fresh entry a `defaultdict` hands out: the identity of `Combine`. */
  const Identity := RunningStat(0, 0.0, PosInf, NegInf)

  /** The statistic of one sample. */
  function Single(v: real): RunningStat {
    RunningStat(1, v, Finite(v), Finite(v))
  }

  /** One sample folded in, as each parser does per accepted line. */
  function Add(s: RunningStat, v: real): (r: RunningStat)
    ensures r == Combine(s, Single(v))
  {
    RunningStat(s.count + 1, s.sum + v, Min(s.min, Finite(v)), Max(s.max, Finite(v)))
  }

  /** Two partial statistics of the same key merged, as the chunk merge loop does. */
  function Combine(a: RunningStat, b: RunningStat): RunningStat {
    RunningStat(a.count + b.count, a.sum + b.sum, Min(a.min, b.min), Max(a.max, b.max))
  }

  /**
   * What holds of every statistic built from samples: an empty one is the
   * identity, a non-empty one has finite bounds with
   * `count * min <= sum <= count * max`.
   */
  ghost predicate Valid(s: RunningStat) {
    if s.count == 0 then s == Identity
    else
      && s.min.Finite? && s.max.Finite?
      && s.min.v <= s.max.v
      && (s.count as real) * s.min.v <= s.sum <= (s.count as real) * s.max.v
  }

  /** The mean `sum / count` that every writer of results computes. */
  function Mean(s: RunningStat): real
    requires s.count > 0
  {
    s.sum / (s.count as real)
  }

  // ------------------------------------------------------------ monoid laws

  lemma IdentityLeft(a: RunningStat)
    ensures Combine(Identity, a) == a
  {
  }

  lemma IdentityRight(a: RunningStat)
    ensures Combine(a, Identity) == a
  {
  }

  lemma MinAssoc(a: Bound, b: Bound, c: Bound)
    ensures Min(Min(a, b), c) == Min(a, Min(b, c))
  {
  }

  lemma MaxAssoc(a: Bound, b: Bound, c: Bound)
    ensures Max(Max(a, b), c) == Max(a, Max(b, c))
  {
  }

  lemma CombineAssoc(a: RunningStat, b: RunningStat, c: RunningStat)
    ensures Combine(Combine(a, b), c) == Combine(a, Combine(b, c))
  {
    MinAssoc(a.min, b.min, c.min);
    MaxAssoc(a.max, b.max, c.max);
  }

  lemma CombineComm(a: RunningStat, b: RunningStat)
    ensures Combine(a, b) == Combine(b, a)
  {
  }

  // ------------------------------------------------------------ validity

  lemma CombineValid(a: RunningStat, b: RunningStat)
    requires Valid(a) && Valid(b)
    ensures Valid(Combine(a, b))
  {
    if a.count > 0 && b.count > 0 {
      var lo, hi := Min(a.min, b.min), Max(a.max, b.max);
      assert lo.Finite? && hi.Finite?;
      assert lo.v <= a.min.v && lo.v <= b.min.v;
      assert a.max.v <= hi.v && b.max.v <= hi.v;
      SumBounds(a.count as real, b.count as real, a.sum, b.sum, a.min.v, b.min.v, a.max.v, b.max.v, lo.v, hi.v);
      assert (a.count + b.count) as real == a.count as real + b.count as real;
    } else if a.count == 0 {
      IdentityLeft(b);
    } else {
      IdentityRight(a);
    }
  }

  /** The arithmetic step of `CombineValid`, on plain reals. */
  lemma SumBounds(ca: real, cb: real, sa: real, sb: real, mina: real, minb: real, maxa: real, maxb: real, lo: real, hi: real)
    requires ca >= 0.0 && cb >= 0.0
    requires ca * mina <= sa <= ca * maxa && cb * minb <= sb <= cb * maxb
    requires lo <= mina && lo <= minb && maxa <= hi && maxb <= hi
    ensures (ca + cb) * lo <= sa + sb <= (ca + cb) * hi
  {
    MulLe(ca, lo, mina);
    MulLe(cb, lo, minb);
    MulLe(ca, maxa, hi);
    MulLe(cb, maxb, hi);
  }

  lemma MulLe(c: real, x: real, y: real)
    requires c >= 0.0 && x <= y
    ensures c * x <= c * y
  {
  }

  lemma AddValid(s: RunningStat, v: real)
    requires Valid(s)
    ensures Valid(Add(s, v))
  {
    CombineValid(s, Single(v));
  }

  /** The mean of a non-empty valid statistic lies between its min and max. */
  lemma MeanBetween(s: RunningStat)
    requires Valid(s) && s.count > 0
    ensures s.min.Finite? && s.max.Finite?
    ensures s.min.v <= Mean(s) <= s.max.v
  {
    var c := s.count as real;
    assert c * s.min.v <= s.sum <= c * s.max.v;
    DivBounds(s.sum, c, s.min.v, s.max.v);
  }

  lemma DivBounds(sum: real, c: real, lo: real, hi: real)
    requires c > 0.0 && c * lo <= sum <= c * hi
    ensures lo <= sum / c <= hi
  {
    assert sum / c * c == sum;
  }

  // ------------------------------------------------------------ folds

  /** The statistic of a sequence of samples, folded left to right. */
  function FoldValues(vs: seq<real>): RunningStat {
    if vs == [] then Identity else Add(FoldValues(vs[..|vs| - 1]), vs[|vs| - 1])
  }

  /** Folding is a monoid homomorphism: any split of the samples merges back to the whole. */
  lemma {:induction false} FoldValuesAppend(a: seq<real>, b: seq<real>)
    ensures FoldValues(a + b) == Combine(FoldValues(a), FoldValues(b))
    decreases |b|
  {
    if b == [] {
      assert a + b == a;
      IdentityRight(FoldValues(a));
    } else {
      var b' := b[..|b| - 1];
      var x := b[|b| - 1];
      assert (a + b)[..|a + b| - 1] == a + b';
      FoldValuesAppend(a, b');
      CombineAssoc(FoldValues(a), FoldValues(b'), Single(x));
    }
  }

  lemma {:induction false} FoldValuesValid(vs: seq<real>)
    ensures Valid(FoldValues(vs))
    ensures FoldValues(vs).count == |vs|
  {
    if vs != [] {
      FoldValuesValid(vs[..|vs| - 1]);
      AddValid(FoldValues(vs[..|vs| - 1]), vs[|vs| - 1]);
    }
  }

  /** The folded min and max are a lower and an upper bound of every sample, and are samples. */
  lemma {:induction false} FoldValuesBounds(vs: seq<real>)
    requires vs != []
    ensures FoldValues(vs).min.Finite? && FoldValues(vs).max.Finite?
    ensures forall i :: 0 <= i < |vs| ==> FoldValues(vs).min.v <= vs[i] <= FoldValues(vs).max.v
    ensures FoldValues(vs).min.v in vs && FoldValues(vs).max.v in vs
  {
    var init := vs[..|vs| - 1];
    var x := vs[|vs| - 1];
    if init == [] {
      assert FoldValues(init) == Identity;
    } else {
      FoldValuesBounds(init);
      assert forall i :: 0 <= i < |init| ==> vs[i] == init[i];
    }
  }

  /** The mean of a non-empty sequence of values: `sum(xs) / len(xs)`, or `np.mean`. */
  function Average(xs: seq<real>): real
    requires xs != []
  {
    FoldValues(xs).sum / (|xs| as real)
  }

  /** The mean lies within any bounds of the values. */
  lemma AverageWithin(xs: seq<real>, lo: real, hi: real)
    requires xs != []
    requires forall i :: 0 <= i < |xs| ==> lo <= xs[i] <= hi
    ensures lo <= Average(xs) <= hi
  {
    FoldValuesValid(xs);
    FoldValuesBounds(xs);
    MeanBetween(FoldValues(xs));
  }

  // ------------------------------------------------------------ keyed tables

  /** A `defaultdict` of running statistics: a missing key reads as `Identity`. */
  type Table<K(!new)> = map<K, RunningStat>

  function Get<K(!new)>(t: Table<K>, k: K): RunningStat {
    if k in t then t[k] else Identity
  }

  /** `stats = t[k]; stats["count"] += 1; ...` for one sample `v`. */
  function Record<K(!new)>(t: Table<K>, k: K, v: real): (r: Table<K>)
    ensures r.Keys == t.Keys + {k}
    ensures Get(r, k) == Combine(Get(t, k), Single(v))
    ensures forall j :: j != k ==> Get(r, j) == Get(t, j)
  {
    t[k := Add(Get(t, k), v)]
  }

  /** The per-key merge of two partial tables. */
  function Merge<K(!new)>(a: Table<K>, b: Table<K>): (r: Table<K>)
    ensures r.Keys == a.Keys + b.Keys
    ensures forall k :: Get(r, k) == Combine(Get(a, k), Get(b, k))
  {
    map k | k in a.Keys + b.Keys :: Combine(Get(a, k), Get(b, k))
  }

  /** Two tables with the same keys and the same entries are equal. */
  lemma TableExt<K(!new)>(a: Table<K>, b: Table<K>)
    requires a.Keys == b.Keys
    requires forall k :: Get(a, k) == Get(b, k)
    ensures a == b
  {
    forall k | k in a ensures a[k] == b[k] {
      assert Get(a, k) == Get(b, k);
    }
  }

  lemma MergeIdentity<K(!new)>(t: Table<K>)
    ensures Merge(map[], t) == t && Merge(t, map[]) == t
  {
    forall k ensures Get(Merge(map[], t), k) == Get(t, k) && Get(Merge(t, map[]), k) == Get(t, k) {
      IdentityLeft(Get(t, k));
      IdentityRight(Get(t, k));
    }
    TableExt(Merge(map[], t), t);
    TableExt(Merge(t, map[]), t);
  }

  lemma MergeComm<K(!new)>(a: Table<K>, b: Table<K>)
    ensures Merge(a, b) == Merge(b, a)
  {
    forall k ensures Get(Merge(a, b), k) == Get(Merge(b, a), k) {
      CombineComm(Get(a, k), Get(b, k));
    }
    TableExt(Merge(a, b), Merge(b, a));
  }

  lemma MergeAssoc<K(!new)>(a: Table<K>, b: Table<K>, c: Table<K>)
    ensures Merge(Merge(a, b), c) == Merge(a, Merge(b, c))
  {
    var l, r := Merge(Merge(a, b), c), Merge(a, Merge(b, c));
    MergeAssocKeys(a, b, c);
    forall k ensures Get(l, k) == Get(r, k) {
      MergeAssocAt(a, b, c, k);
    }
    TableExt(l, r);
  }

  lemma MergeAssocKeys<K(!new)>(a: Table<K>, b: Table<K>, c: Table<K>)
    ensures Merge(Merge(a, b), c).Keys == Merge(a, Merge(b, c)).Keys
  {
    UnionAssoc(a.Keys, b.Keys, c.Keys);
  }

  lemma UnionAssoc<T>(x: set<T>, y: set<T>, z: set<T>)
    ensures (x + y) + z == x + (y + z)
  {
  }

  lemma MergeAssocAt<K(!new)>(a: Table<K>, b: Table<K>, c: Table<K>, k: K)
    ensures Get(Merge(Merge(a, b), c), k) == Get(Merge(a, Merge(b, c)), k)
  {
    CombineAssoc(Get(a, k), Get(b, k), Get(c, k));
  }

  /** Recording a sample is merging in the one-entry table of that sample. */
  lemma RecordIsMerge<K(!new)>(t: Table<K>, k: K, v: real)
    ensures Record(t, k, v) == Merge(t, map[k := Single(v)])
  {
    var one: Table<K> := map[k := Single(v)];
    var l, r := Record(t, k, v), Merge(t, one);
    assert l.Keys == r.Keys by {
      assert one.Keys == {k};
    }
    assert forall j :: Get(l, j) == Get(r, j) by {
      forall j ensures Get(l, j) == Get(r, j) {
        if j != k {
          IdentityRight(Get(t, j));
        }
      }
    }
    TableExt(l, r);
  }

  /** Recording a sample into the right operand of a merge is recording it into the merge. */
  lemma MergeRecord<K(!new)>(a: Table<K>, b: Table<K>, k: K, v: real)
    ensures Merge(a, Record(b, k, v)) == Record(Merge(a, b), k, v)
  {
    RecordIsMerge(b, k, v);
    RecordIsMerge(Merge(a, b), k, v);
    MergeAssoc(a, b, map[k := Single(v)]);
  }

  /** Recording into a table is merging it with the record into the empty table. */
  lemma RecordShift<K(!new)>(t: Table<K>, k: K, v: real)
    ensures Record(t, k, v) == Merge(t, Record(map[], k, v))
  {
    MergeRecord(t, map[], k, v);
    MergeIdentity(t);
  }

  /** Every entry of a table built by `Record` and `Merge` is valid. */
  ghost predicate ValidTable<K(!new)>(t: Table<K>) {
    forall k :: k in t ==> Valid(t[k])
  }

  lemma RecordValid<K(!new)>(t: Table<K>, k: K, v: real)
    requires ValidTable(t)
    ensures ValidTable(Record(t, k, v))
  {
    AddValid(Get(t, k), v);
  }

  lemma MergeValid<K(!new)>(a: Table<K>, b: Table<K>)
    requires ValidTable(a) && ValidTable(b)
    ensures ValidTable(Merge(a, b))
  {
    forall k | k in Merge(a, b) ensures Valid(Merge(a, b)[k]) {
      assert Merge(a, b)[k] == Get(Merge(a, b), k);
      CombineValid(Get(a, k), Get(b, k));
    }
  }
}
