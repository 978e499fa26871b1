/**
 * What both `_process_result` variants (app/simulation_config.py and
 * app/data_processor.py) share: the `ev/sec=` samples read from the
 * simulator's console output, Python's extended slicing `events[start::step]`
 * that deals them out round-robin, and the statistics of one recipient's share.
 */
module EventRates {
  import opened Wrappers
  import opened Text
  import opened RunningStats

  // ================================================================ console output

  /**
   * `float(line.split("ev/sec=")[1].split()[0])` on a line that holds both
   * `Speed:` and `ev/sec=`; `None` where the line is not such a line or the
   * bare `except` swallows an `IndexError` or a `ValueError`.
   */
  function EventRate(line: string): (r: Option<real>)
    ensures r.Some? ==> Contains(line, "Speed:") && Contains(line, "ev/sec=")
  {
    if !(Contains(line, "Speed:") && Contains(line, "ev/sec=")) then None
    else
      var words := Split(SecondField(line, "ev/sec=").value);
      if words == [] then None else ParseReal(words[0])
  }

  /** The `events` list: the rates of the lines that have one, in line order. */
  function Events(lines: seq<string>): seq<real> {
    if lines == [] then []
    else
      var init := Events(lines[..|lines| - 1]);
      match EventRate(lines[|lines| - 1])
      case Some(v) => init + [v]
      case None => init
  }

  /** Reading is line by line: the events of two blocks of lines are the two blocks' events in order. */
  lemma {:induction false} EventsAppend(a: seq<string>, b: seq<string>)
    ensures Events(a + b) == Events(a) + Events(b)
    decreases |b|
  {
    if b == [] {
      assert a + b == a;
    } else {
      var b' := b[..|b| - 1];
      assert (a + b)[..|a + b| - 1] == a + b';
      assert (a + b)[|a + b| - 1] == b[|b| - 1];
      EventsAppend(a, b');
    }
  }

  /** A line without `Speed:` contributes nothing. */
  lemma EventsOfOtherLine(line: string)
    requires !Contains(line, "Speed:")
    ensures Events([line]) == []
  {
    assert [line][..0] == [];
  }

  /** The loop `for line in lines: ... events.append(ev_sec)`. */
  method ExtractEvents(lines: seq<string>) returns (events: seq<real>)
    ensures events == Events(lines)
  {
    events := [];
    for i := 0 to |lines|
      invariant events == Events(lines[..i])
    {
      assert lines[..i + 1][..i] == lines[..i];
      var rate := EventRate(lines[i]);
      if rate.Some? {
        events := events + [rate.value];
      }
    }
    assert lines[..|lines|] == lines;
  }

  // ================================================================ extended slicing

  /** The elements at `i`, `i + step`, `i + 2*step`, ... that lie inside `xs`. */
  function Forward(xs: seq<real>, i: nat, step: nat): seq<real>
    requires step > 0
    decreases |xs| - i
  {
    if i >= |xs| then [] else [xs[i]] + Forward(xs, i + step, step)
  }

  /** The elements at `i`, `i - step`, `i - 2*step`, ... down to index 0. */
  function Backward(xs: seq<real>, i: int, step: nat): seq<real>
    requires step > 0 && i < |xs|
    decreases i + 1
  {
    if i < 0 then [] else [xs[i]] + Backward(xs, i - step, step)
  }

  /**
   * Python's `xs[start::step]` for a non-zero step: a negative start counts
   * from the end, and an out-of-range start is clamped the way CPython
   * clamps it for the step's direction.
   */
  function Slice(xs: seq<real>, start: int, step: int): seq<real>
    requires step != 0
  {
    if step > 0 then
      var s := if start < 0 then start + |xs| else start;
      Forward(xs, if s < 0 then 0 else s, step)
    else
      var s := if start < 0 then start + |xs| else start;
      Backward(xs, if s >= |xs| then |xs| - 1 else s, -step)
  }

  /** The `k`-th element of a forward share is the element at `i + k*step`. */
  lemma {:induction false} ForwardIndex(xs: seq<real>, i: nat, step: nat, k: nat)
    requires step > 0
    requires k < |Forward(xs, i, step)|
    ensures i + k * step < |xs| && Forward(xs, i, step)[k] == xs[i + k * step]
    decreases k
  {
    if k > 0 {
      ForwardIndex(xs, i + step, step, k - 1);
      assert i + k * step == (i + step) + (k - 1) * step;
    }
  }

  /** Every position `i + k*step` inside `xs` is in the share of `i`, as its `k`-th element. */
  lemma {:induction false} ForwardCovers(xs: seq<real>, i: nat, step: nat, k: nat)
    requires step > 0
    requires i + k * step < |xs|
    ensures k < |Forward(xs, i, step)| && Forward(xs, i, step)[k] == xs[i + k * step]
    decreases k
  {
    if k > 0 {
      assert i + k * step == (i + step) + (k - 1) * step;
      ForwardCovers(xs, i + step, step, k - 1);
    }
  }

  /**
   * Round-robin: with a positive stride, event `e` goes to recipient
   * `e % stride`, as the `(e / stride)`-th element of its share.
   */
  lemma RoundRobin(xs: seq<real>, stride: nat, e: nat)
    requires stride > 0 && e < |xs|
    ensures e / stride < |Slice(xs, e % stride, stride)|
    ensures Slice(xs, e % stride, stride)[e / stride] == xs[e]
  {
    assert e == e % stride + (e / stride) * stride;
    ForwardCovers(xs, e % stride, stride, e / stride);
  }

  /** A share of a recipient `r < stride` holds only events whose index leaves remainder `r`. */
  lemma ShareRemainder(xs: seq<real>, stride: nat, r: nat, k: nat)
    requires 0 <= r < stride
    requires k < |Slice(xs, r, stride)|
    ensures r + k * stride < |xs| && (r + k * stride) % stride == r
    ensures Slice(xs, r, stride)[k] == xs[r + k * stride]
  {
    ForwardIndex(xs, r, stride, k);
    DivModUnique(r + k * stride, k, r, stride);
  }

  /** Euclidean division has one quotient and one remainder. */
  lemma DivModUnique(x: int, q: int, r: int, m: int)
    requires m > 0 && 0 <= r < m && x == q * m + r
    ensures x % m == r && x / m == q
  {
    var q', r' := x / m, x % m;
    assert x == q' * m + r';
    if q' > q {
      MulGap(q', q, m);
    } else if q' < q {
      MulGap(q, q', m);
    }
  }

  lemma {:induction false} MulGap(a: int, b: int, m: int)
    requires a > b && m > 0
    ensures a * m >= b * m + m
    decreases a - b
  {
    if a > b + 1 {
      MulGap(a - 1, b, m);
      assert a * m == (a - 1) * m + m;
    } else {
      assert a * m == (b + 1) * m;
    }
  }

  lemma {:induction false} ForwardShift(xs: seq<real>, i: nat, step: nat)
    requires 0 < step <= |xs|
    ensures Forward(xs, i + step, step) == Forward(xs[step..], i, step)
    decreases |xs| - i
  {
    var ys := xs[step..];
    if i + step < |xs| {
      ForwardShift(xs, i + step, step);
      assert Forward(ys, i, step) == [ys[i]] + Forward(ys, i + step, step);
      assert ys[i] == xs[i + step];
    } else {
      assert i >= |ys|;
    }
  }

  /** The total size of the shares of recipients `0 .. k-1`. */
  function Shares(xs: seq<real>, step: nat, k: nat): nat
    requires step > 0
  {
    if k == 0 then 0 else Shares(xs, step, k - 1) + |Forward(xs, k - 1, step)|
  }

  lemma {:induction false} SharesShort(xs: seq<real>, step: nat, k: nat)
    requires 0 < step && |xs| < step && k <= step
    ensures Shares(xs, step, k) == if k <= |xs| then k else |xs|
  {
    if k > 0 {
      SharesShort(xs, step, k - 1);
      if k - 1 < |xs| {
        assert Forward(xs, k - 1 + step, step) == [];
      }
    }
  }

  lemma {:induction false} SharesLong(xs: seq<real>, step: nat, k: nat)
    requires 0 < step <= |xs| && k <= step
    ensures Shares(xs, step, k) == k + Shares(xs[step..], step, k)
  {
    if k > 0 {
      SharesLong(xs, step, k - 1);
      ForwardShift(xs, k - 1, step);
    }
  }

  /** The shares of the `stride` recipients together hold every event exactly once. */
  lemma {:induction false} SharesTotal(xs: seq<real>, stride: nat)
    requires stride > 0
    ensures Shares(xs, stride, stride) == |xs|
    decreases |xs|
  {
    if |xs| < stride {
      SharesShort(xs, stride, stride);
    } else {
      SharesLong(xs, stride, stride);
      SharesTotal(xs[stride..], stride);
    }
  }

  // ================================================================ one recipient's statistics

  /** `min(xs)`. */
  function Smallest(xs: seq<real>): (m: real)
    requires xs != []
    ensures m in xs && forall i :: 0 <= i < |xs| ==> m <= xs[i]
  {
    if |xs| == 1 then xs[0]
    else
      var rest := Smallest(xs[1..]);
      assert forall i :: 1 <= i < |xs| ==> xs[i] == xs[1..][i - 1];
      if xs[0] <= rest then xs[0] else rest
  }

  /** `max(xs)`. */
  function Largest(xs: seq<real>): (m: real)
    requires xs != []
    ensures m in xs && forall i :: 0 <= i < |xs| ==> xs[i] <= m
  {
    if |xs| == 1 then xs[0]
    else
      var rest := Largest(xs[1..]);
      assert forall i :: 1 <= i < |xs| ==> xs[i] == xs[1..][i - 1];
      if rest <= xs[0] then xs[0] else rest
  }

  /** A reported statistic `{"count", "mean", "min", "max"}`. */
  datatype Entry = Entry(count: nat, mean: real, min: real, max: real)

  /** The zeroed statistic every recipient starts with. */
  const Zero := Entry(0, 0.0, 0.0, 0.0)

  /** `{"count": len(xs), "mean": sum(xs) / len(xs), "min": min(xs), "max": max(xs)}`. */
  function RateEntry(xs: seq<real>): (e: Entry)
    requires xs != []
    ensures e.count == |xs|
    ensures e.min in xs && e.max in xs
    ensures forall k :: 0 <= k < |xs| ==> e.min <= xs[k] <= e.max
    ensures e.min <= e.mean <= e.max
  {
    AverageWithin(xs, Smallest(xs), Largest(xs));
    Entry(|xs|, Average(xs), Smallest(xs), Largest(xs))
  }

  /** `mean * f`, `min * f`, `max * f` with the count kept. */
  function Times(e: Entry, f: real): Entry {
    Entry(e.count, e.mean * f, e.min * f, e.max * f)
  }

  /** `mean / d`, `min / d`, `max / d` with the count kept. */
  function Over(e: Entry, d: real): Entry
    requires d != 0.0
  {
    Entry(e.count, e.mean / d, e.min / d, e.max / d)
  }

  /** Scaling by a positive factor keeps the count and the order of min, mean and max. */
  lemma ScaledInOrder(e: Entry, f: real)
    requires f > 0.0 && e.min <= e.mean <= e.max
    ensures Times(e, f).min <= Times(e, f).mean <= Times(e, f).max
    ensures Over(e, f).min <= Over(e, f).mean <= Over(e, f).max
    ensures Over(e, f).mean * f == e.mean
  {
    MulLeq(e.min, e.mean, f);
    MulLeq(e.mean, e.max, f);
    MulLeq(e.min, e.mean, 1.0 / f);
    MulLeq(e.mean, e.max, 1.0 / f);
  }

  lemma MulLeq(a: real, b: real, f: real)
    requires a <= b && f > 0.0
    ensures a * f <= b * f && a / f <= b / f
  {
    assert (b - a) * f >= 0.0;
    assert a / f == a * (1.0 / f) && b / f == b * (1.0 / f);
    assert (b - a) * (1.0 / f) >= 0.0;
  }

  /** `{"count": n, "mean": 1.0, "min": 0.0, "max": 1.0}`: the state signal of a recipient with events. */
  function Busy(n: nat): Entry {
    Entry(n, 1.0, 0.0, 1.0)
  }

  // ================================================================ a node's signals

  const OutgoingDataRate := "outgoingDataRate:vector"
  const QueueLength := "queueLength:vector"
  const QueueBitLength := "queueBitLength:vector"
  const QueueingTime := "queueingTime:vector"
  const TransmissionState := "transmissionState:vector"
  const ReceptionState := "receptionState:vector"

  /** The LoRa packet size in bytes that scales the queue bit length. */
  const PacketSize: real := 232.0

  /** One recipient's statistics, keyed by signal name. */
  type Signals = map<string, Entry>

  /** The processed `node_stats`: recipients keyed by `str(node_id)` or `GW{gw_id}`. */
  type NodeStats = map<string, Signals>

  /** The six zeroed signals every node starts with. */
  function NodeInit(): Signals {
    map[OutgoingDataRate := Zero, QueueLength := Zero, QueueBitLength := Zero,
        QueueingTime := Zero, TransmissionState := Zero, ReceptionState := Zero]
  }

  /**
   * The `.update` calls for a node whose share of the events is not empty:
   * the rate statistics, the queue length as the rate over the node count,
   * the transmission state, and the queue bit length as the rate times the
   * packet size.
   */
  function NodeUpdate(s: Signals, share: seq<real>, nodes: real): Signals
    requires share != [] && nodes != 0.0
  {
    var rate := RateEntry(share);
    s[OutgoingDataRate := rate]
     [QueueLength := Over(rate, nodes)]
     [TransmissionState := Busy(|share|)]
     [QueueBitLength := Times(rate, PacketSize)]
  }

  /** Node `id`'s signals once the events are dealt with the given stride, `events[id::stride]`, over `n` nodes. */
  function NodeAfter(events: seq<real>, id: int, n: nat, stride: int): Signals
    requires n > 0 && stride != 0
  {
    var share := Slice(events, id, stride);
    if share == [] then NodeInit() else NodeUpdate(NodeInit(), share, n as real)
  }

  /**
   * A dealt node's four updated signals count its share; the queueing time
   * and reception state the distribution never touches stay zero.
   */
  lemma NodeAfterCounts(events: seq<real>, id: int, n: nat, stride: int)
    requires n > 0 && stride != 0
    ensures var s, share := NodeAfter(events, id, n, stride), Slice(events, id, stride);
      s.Keys == NodeInit().Keys &&
      s[QueueingTime] == Zero && s[ReceptionState] == Zero &&
      s[OutgoingDataRate].count == |share| && s[QueueLength].count == |share| &&
      s[QueueBitLength].count == |share| && s[TransmissionState].count == |share|
  {
  }

  lemma NodeAfterEntries(events: seq<real>, id: int, n: nat, stride: int)
    requires n > 0 && stride != 0 && Slice(events, id, stride) != []
    ensures var s, rate := NodeAfter(events, id, n, stride), RateEntry(Slice(events, id, stride));
      s[OutgoingDataRate] == rate && s[QueueLength] == Over(rate, n as real) &&
      s[QueueBitLength] == Times(rate, PacketSize) && s[TransmissionState] == Busy(rate.count)
  {
  }

  /**
   * A node with samples reports their mean between their least and greatest
   * sample; the queue length is that rate over the node count and the queue
   * bit length the rate in packets of `PacketSize` bytes, both in the same
   * order; the transmission state is busy.
   */
  lemma NodeAfterRate(events: seq<real>, id: int, n: nat, stride: int)
    requires n > 0 && stride != 0 && Slice(events, id, stride) != []
    ensures var s, share := NodeAfter(events, id, n, stride), Slice(events, id, stride);
      var rate := s[OutgoingDataRate];
      rate.mean == Average(share) &&
      rate.min in share && rate.max in share &&
      (forall k :: 0 <= k < |share| ==> rate.min <= share[k] <= rate.max) &&
      s[QueueLength] == Over(rate, n as real) &&
      s[QueueLength].min <= s[QueueLength].mean <= s[QueueLength].max &&
      s[QueueBitLength] == Times(rate, PacketSize) &&
      s[QueueBitLength].min <= s[QueueBitLength].mean <= s[QueueBitLength].max &&
      s[TransmissionState] == Busy(|share|)
  {
    var rate := RateEntry(Slice(events, id, stride));
    NodeAfterEntries(events, id, n, stride);
    ScaledInOrder(rate, n as real);
    ScaledInOrder(rate, PacketSize);
  }

  // ================================================================ a gateway's signals

  const IncomingDataRate := "incomingDataRate:vector"
  const IncomingPacketLengths := "incomingPacketLengths:vector"

  /** The seven zeroed signals every gateway starts with. */
  function GatewayInit(): Signals {
    map[IncomingDataRate := Zero, IncomingPacketLengths := Zero, QueueLength := Zero,
        QueueBitLength := Zero, QueueingTime := Zero, TransmissionState := Zero, ReceptionState := Zero]
  }

  /**
   * The `.update` calls for a gateway whose share is not empty: the incoming
   * rate statistics, the packet lengths as the rate times the packet size,
   * and the reception state.
   */
  function GatewayUpdate(s: Signals, share: seq<real>): Signals
    requires share != []
  {
    var rate := RateEntry(share);
    s[IncomingDataRate := rate]
     [IncomingPacketLengths := Times(rate, PacketSize)]
     [ReceptionState := Busy(|share|)]
  }

  /** A gateway's signals once it has been dealt `events[start::stride]`. */
  function GatewayAfter(events: seq<real>, start: int, stride: int): Signals
    requires stride != 0
  {
    var share := Slice(events, start, stride);
    if share == [] then GatewayInit() else GatewayUpdate(GatewayInit(), share)
  }

  /**
   * A dealt gateway's three updated signals count its share; its queue and
   * transmission signals stay zero.
   */
  lemma GatewayAfterCounts(events: seq<real>, start: int, stride: int)
    requires stride != 0
    ensures var s, share := GatewayAfter(events, start, stride), Slice(events, start, stride);
      s.Keys == GatewayInit().Keys &&
      s[QueueLength] == Zero && s[QueueBitLength] == Zero && s[QueueingTime] == Zero &&
      s[TransmissionState] == Zero &&
      s[IncomingDataRate].count == |share| && s[IncomingPacketLengths].count == |share| &&
      s[ReceptionState].count == |share|
  {
  }

  lemma GatewayAfterEntries(events: seq<real>, start: int, stride: int)
    requires stride != 0 && Slice(events, start, stride) != []
    ensures var s, rate := GatewayAfter(events, start, stride), RateEntry(Slice(events, start, stride));
      s[IncomingDataRate] == rate && s[IncomingPacketLengths] == Times(rate, PacketSize) &&
      s[ReceptionState] == Busy(rate.count)
  {
  }

  /**
   * A gateway with samples reports their mean between their least and
   * greatest sample, the packet lengths in the same order, and a busy
   * reception state.
   */
  lemma GatewayAfterRate(events: seq<real>, start: int, stride: int)
    requires stride != 0 && Slice(events, start, stride) != []
    ensures var s, share := GatewayAfter(events, start, stride), Slice(events, start, stride);
      var rate := s[IncomingDataRate];
      rate.mean == Average(share) &&
      rate.min in share && rate.max in share &&
      (forall k :: 0 <= k < |share| ==> rate.min <= share[k] <= rate.max) &&
      s[IncomingPacketLengths] == Times(rate, PacketSize) &&
      s[IncomingPacketLengths].min <= s[IncomingPacketLengths].mean <= s[IncomingPacketLengths].max &&
      s[ReceptionState] == Busy(|share|)
  {
    var rate := RateEntry(Slice(events, start, stride));
    GatewayAfterEntries(events, start, stride);
    ScaledInOrder(rate, PacketSize);
  }

  // ================================================================ dictionaries keyed by str(i)

  /** `{prefix + str(i): xs[i] for i in range(len(xs))}`. */
  function Indexed<V>(prefix: string, xs: seq<V>): map<string, V> {
    KeyInjective(prefix);
    map i | 0 <= i < |xs| :: prefix + IntToString(i) := xs[i]
  }

  /** Distinct indices give distinct keys. */
  lemma KeyInjective(prefix: string)
    ensures forall a: int, b: int :: prefix + IntToString(a) == prefix + IntToString(b) ==> a == b
  {
    forall a: int, b: int | prefix + IntToString(a) == prefix + IntToString(b) ensures a == b {
      assert IntToString(a) == (prefix + IntToString(a))[|prefix|..];
      assert IntToString(b) == (prefix + IntToString(b))[|prefix|..];
      IntToStringInjective();
    }
  }

  /** The keys are exactly those of the indices. */
  lemma IndexedDomain<V>(prefix: string, xs: seq<V>)
    ensures forall key :: key in Indexed(prefix, xs) <==> exists i :: 0 <= i < |xs| && key == prefix + IntToString(i)
  {
  }

  /** Each index's key holds its element. */
  lemma IndexedAt<V>(prefix: string, xs: seq<V>, i: int)
    requires 0 <= i < |xs|
    ensures prefix + IntToString(i) in Indexed(prefix, xs) && Indexed(prefix, xs)[prefix + IntToString(i)] == xs[i]
  {
    KeyInjective(prefix);
  }

  /** Without a prefix the keys are the decimal texts of the indices. */
  lemma IdsDomain<V>(xs: seq<V>)
    ensures forall key :: key in Indexed("", xs) <==> exists i :: 0 <= i < |xs| && key == IntToString(i)
  {
    IndexedDomain("", xs);
    forall i: int ensures "" + IntToString(i) == IntToString(i) {
    }
  }

  /** Without a prefix element `i` is found under `str(i)`. */
  lemma IdsAt<V>(xs: seq<V>, i: int)
    requires 0 <= i < |xs|
    ensures IntToString(i) in Indexed("", xs) && Indexed("", xs)[IntToString(i)] == xs[i]
  {
    IndexedAt("", xs, i);
    assert "" + IntToString(i) == IntToString(i);
  }
}
