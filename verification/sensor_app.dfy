/**
 * The sensor scheduler of the WLAM sensor application
 * (src/LoRaApp/wlam_sensor_app.h and .cc).
 *
 * Four sensors live in a fixed array, one slot per sensor id. Each has an
 * interval and a next due time. One self-message (the scheduler) is armed for
 * the earliest due time. On every tick the due sensors fire. Firing sets bits
 * in a bitmap, updates the counter and the last values, and reschedules the
 * sensor with jitter. A non-empty bitmap becomes one uplink packet.
 *
 * Simulation time is `real`. SIMTIME_MAX, "never", is a value of its own that
 * lies above every finite time. Random draws (`uniform`) and the generated
 * sensor values are parameters of the methods that use them.
 */
module SensorApp {
  import opened Wrappers

  datatype SensorId = Temperature | No2 | Humidity | Counter

  const SidCount := 4

  /** The enum values 0..3, slot by slot. */
  function IdAt(i: int): SensorId
    requires 0 <= i < SidCount
  {
    if i == 0 then Temperature else if i == 1 then No2 else if i == 2 then Humidity else Counter
  }

  /** A simulation time, or SIMTIME_MAX. */
  datatype Time = At(t: real) | Never

  predicate Lt(a: Time, b: Time) {
    match (a, b)
    case (At(x), At(y)) => x < y
    case (At(_), Never) => true
    case (Never, _) => false
  }

  predicate Le(a: Time, b: Time) { !Lt(b, a) }

  /** `nextDue <= now`. */
  predicate Due(t: Time, now: real) { t.At? && t.t <= now }

  datatype SensorState = SensorState(id: SensorId, interval: real, nextDue: Time, lastValue: Option<real>,
                                     counter: int, isCounter: bool)

  /** A default-constructed SensorState: never due. */
  function DefaultState(id: SensorId): (s: SensorState)
    ensures forall now :: !Due(s.nextDue, now)
  {
    SensorState(id, 0.0, Never, None, 0, false)
  }

  /** OMNeT++'s `uniform(a, b)` given the generator's draw `u` in [0, 1). */
  function Uniform(a: real, b: real, u: real): real { a + (b - a) * u }

  /** The due time a sensor is given at `now`: one interval later with jitter, or never. */
  function NextDue(now: real, interval: real, jitterFrac: real, u: real): Time {
    if interval > 0.0 then
      var jitter := interval * jitterFrac;
      At(now + interval + Uniform(-jitter, jitter, u))
    else Never
  }

  /** A positive interval schedules within `interval * jitterFrac` of one interval later;
    * otherwise the sensor is never due again. */
  lemma JitterBound(now: real, interval: real, jitterFrac: real, u: real)
    requires 0.0 <= jitterFrac && 0.0 <= u < 1.0
    ensures interval > 0.0 ==>
              NextDue(now, interval, jitterFrac, u).At? &&
              -(interval * jitterFrac) <= NextDue(now, interval, jitterFrac, u).t - (now + interval) <= interval * jitterFrac
    ensures interval <= 0.0 ==> NextDue(now, interval, jitterFrac, u) == Never
  {
    if interval > 0.0 {
      var jitter := interval * jitterFrac;
      assert 0.0 <= jitter by {
        assert interval * jitterFrac >= 0.0 * jitterFrac;
      }
      assert 0.0 <= 2.0 * jitter * u <= 2.0 * jitter by {
        assert (2.0 * jitter) * u <= (2.0 * jitter) * 1.0;
      }
      assert Uniform(-jitter, jitter, u) == -jitter + 2.0 * jitter * u;
    }
  }

  /** A due time strictly before `now`: what `scheduleAt` refuses as "in the past". */
  predicate Past(t: Time, now: real) { t.At? && t.t < now }

  /** With a jitter fraction of at most one, a new due time is never before `now`. */
  lemma NextDueNotPast(now: real, interval: real, jitterFrac: real, u: real)
    requires 0.0 <= jitterFrac <= 1.0 && 0.0 <= u < 1.0
    ensures !Past(NextDue(now, interval, jitterFrac, u), now)
  {
    if interval > 0.0 {
      JitterBound(now, interval, jitterFrac, u);
      assert interval * jitterFrac <= interval * 1.0;
    }
  }

  /** With a jitter fraction above one, the lowest draw gives a due time before `now`. */
  lemma JitterIntoPast(now: real, interval: real, jitterFrac: real)
    requires interval > 0.0 && jitterFrac > 1.0
    ensures Past(NextDue(now, interval, jitterFrac, 0.0), now)
  {
    assert interval * jitterFrac > interval * 1.0;
  }

  // ---------------------------------------------------------------------
  // One tick, as a specification over the sensors' values
  // ---------------------------------------------------------------------

  datatype Flag = TemperatureBit | No2Bit | HumidityBit | CounterBit

  /** The bits a sensor sets when it fires. */
  function Flags(id: SensorId): set<Flag> {
    match id
    case Temperature => {TemperatureBit, HumidityBit}
    case No2 => {No2Bit}
    case Humidity => {HumidityBit}
    case Counter => {CounterBit}
  }

  /** The values the environment model generates in a tick. The temperature case draws a
    * humidity of its own. */
  datatype Samples = Samples(temperature: real, humidityWithTemperature: real, no2: real, humidity: real)

  datatype Emission = Sampled(signal: string, value: real) | PacketSent(bitmap: set<Flag>)

  /** The locals of `sampleAndSendIfDue` and the signals emitted so far in the tick. */
  datatype Tick = Tick(bitmap: set<Flag>, temperature: Option<real>, humidity: Option<real>,
                       no2: Option<real>, counterVal: int, emitted: seq<Emission>)

  const NoTick := Tick({}, None, None, None, 0, [])

  /** The `switch` on a due sensor's id: what it adds to the tick and its state before rescheduling. */
  function Fire(acc: Tick, s: SensorState, x: Samples): (Tick, SensorState) {
    match s.id
    case Temperature =>
      (acc.(bitmap := acc.bitmap + {TemperatureBit} + {HumidityBit},
            temperature := Some(x.temperature), humidity := Some(x.humidityWithTemperature),
            emitted := acc.emitted + [Sampled("temperature", x.temperature), Sampled("humidity", x.humidityWithTemperature)]),
       s)
    case No2 =>
      (acc.(bitmap := acc.bitmap + {No2Bit}, no2 := Some(x.no2),
            emitted := acc.emitted + [Sampled("no2", x.no2)]),
       s.(lastValue := Some(x.no2)))
    case Humidity =>
      (acc.(bitmap := acc.bitmap + {HumidityBit}, humidity := Some(x.humidity),
            emitted := acc.emitted + [Sampled("humidity", x.humidity)]),
       s.(lastValue := Some(x.humidity)))
    case Counter =>
      var c := s.counter + 1;
      (acc.(bitmap := acc.bitmap + {CounterBit}, counterVal := c,
            emitted := acc.emitted + [Sampled("counter", c as real)]),
       s.(counter := c))
  }

  /** One iteration of the sensor loop. */
  function Step(acc: Tick, s: SensorState, now: real, jitterFrac: real, x: Samples, u: real): (Tick, SensorState) {
    if Due(s.nextDue, now) then
      var fired := Fire(acc, s, x);
      (fired.0, fired.1.(nextDue := NextDue(now, s.interval, jitterFrac, u)))
    else (acc, s)
  }

  /** The tick's locals after the loop has visited `ss`, slot `i` using draw `draws[i]`. */
  function TickOf(ss: seq<SensorState>, now: real, jitterFrac: real, x: Samples, draws: seq<real>): Tick
    requires |ss| <= |draws|
    decreases |ss|
  {
    if ss == [] then NoTick
    else Step(TickOf(ss[..|ss| - 1], now, jitterFrac, x, draws), ss[|ss| - 1], now, jitterFrac, x, draws[|ss| - 1]).0
  }

  /** A sensor's state after the tick (it does not depend on the other sensors). */
  function After(s: SensorState, now: real, jitterFrac: real, x: Samples, u: real): SensorState {
    Step(NoTick, s, now, jitterFrac, x, u).1
  }

  /** A flag is set exactly when some due sensor sets it; in particular the bitmap is empty
    * exactly when no sensor is due. */
  lemma {:induction false} TickFlags(ss: seq<SensorState>, now: real, jitterFrac: real, x: Samples, draws: seq<real>, f: Flag)
    requires |ss| <= |draws|
    ensures f in TickOf(ss, now, jitterFrac, x, draws).bitmap <==>
            exists i :: 0 <= i < |ss| && Due(ss[i].nextDue, now) && f in Flags(ss[i].id)
    decreases |ss|
  {
    if ss != [] {
      var init := ss[..|ss| - 1];
      TickFlags(init, now, jitterFrac, x, draws, f);
      assert forall i :: 0 <= i < |init| ==> init[i] == ss[i];
    }
  }

  /** A tick in which nothing is due changes no local and emits nothing. */
  lemma {:induction false} QuietTick(ss: seq<SensorState>, now: real, jitterFrac: real, x: Samples, draws: seq<real>)
    requires |ss| <= |draws|
    requires forall i :: 0 <= i < |ss| ==> !Due(ss[i].nextDue, now)
    ensures TickOf(ss, now, jitterFrac, x, draws) == NoTick
    decreases |ss|
  {
    if ss != [] {
      QuietTick(ss[..|ss| - 1], now, jitterFrac, x, draws);
    }
  }

  /** A sensor's new state does not depend on what the sensors before it did. */
  lemma StepState(acc: Tick, s: SensorState, now: real, jitterFrac: real, x: Samples, u: real)
    ensures Step(acc, s, now, jitterFrac, x, u).1 == After(s, now, jitterFrac, x, u)
  {
  }

  /** When the counter sensor (the last slot) is due, its counter rises by one and that value
    * is the packet's counter. */
  lemma CounterTick(ss: seq<SensorState>, now: real, jitterFrac: real, x: Samples, draws: seq<real>)
    requires |ss| == SidCount <= |draws| && ss[SidCount - 1].id == Counter
    requires Due(ss[SidCount - 1].nextDue, now)
    ensures After(ss[SidCount - 1], now, jitterFrac, x, draws[SidCount - 1]).counter == ss[SidCount - 1].counter + 1
    ensures TickOf(ss, now, jitterFrac, x, draws).counterVal == ss[SidCount - 1].counter + 1
  {
  }

  /** A sensor that is not due keeps its whole state, and a due one only changes its due time,
    * its last value and (for the counter) its counter. */
  lemma AfterKeeps(s: SensorState, now: real, jitterFrac: real, x: Samples, u: real)
    ensures !Due(s.nextDue, now) ==> After(s, now, jitterFrac, x, u) == s
    ensures Due(s.nextDue, now) ==>
              var a := After(s, now, jitterFrac, x, u);
              a.id == s.id && a.interval == s.interval && a.isCounter == s.isCounter &&
              a.nextDue == NextDue(now, s.interval, jitterFrac, u) &&
              a.counter == (if s.id == Counter then s.counter + 1 else s.counter)
  {
  }

  /** With a jitter fraction of at most one, no sensor is left due before `now` by a tick:
    * a fired sensor gets a new due time, and one that did not fire is due after `now`. */
  lemma AfterNotPast(s: SensorState, now: real, jitterFrac: real, x: Samples, u: real)
    requires 0.0 <= jitterFrac <= 1.0 && 0.0 <= u < 1.0
    ensures !Past(After(s, now, jitterFrac, x, u).nextDue, now)
  {
    if Due(s.nextDue, now) {
      NextDueNotPast(now, s.interval, jitterFrac, u);
    }
  }

  /** The signal a flag's measurement is emitted on. */
  function SignalOf(f: Flag): string {
    match f
    case TemperatureBit => "temperature"
    case No2Bit => "no2"
    case HumidityBit => "humidity"
    case CounterBit => "counter"
  }

  /** The samples a tick emits agree with its bitmap: a flag is set exactly when its signal
    * was emitted, and the sensor loop emits nothing but samples. */
  lemma {:induction false} TickSignals(ss: seq<SensorState>, now: real, jitterFrac: real, x: Samples, draws: seq<real>, f: Flag)
    requires |ss| <= |draws|
    ensures var t := TickOf(ss, now, jitterFrac, x, draws);
            (exists e :: e in t.emitted && e.Sampled? && e.signal == SignalOf(f)) <==> f in t.bitmap
    ensures forall e :: e in TickOf(ss, now, jitterFrac, x, draws).emitted ==> e.Sampled?
    decreases |ss|
  {
    if ss != [] {
      var init := ss[..|ss| - 1];
      TickSignals(init, now, jitterFrac, x, draws, f);
    }
  }

  // ---------------------------------------------------------------------
  // The uplink packet
  // ---------------------------------------------------------------------

  /** sizeof(simtime_t) (a 64-bit integer) and sizeof(double). */
  const TimestampBytes := 8
  const DoubleBytes := 8

  const DoubleFlags: set<Flag> := {TemperatureBit, No2Bit, HumidityBit}

  /** Base bytes, the bitmap byte and the timestamp, a double per measurement bit, and the
    * configured counter size when the counter bit is set. */
  function PayloadBytes(base: int, counterBytes: int, bitmap: set<Flag>): (bytes: int)
    ensures bytes == base + 1 + TimestampBytes + DoubleBytes * |bitmap * DoubleFlags| +
                     (if CounterBit in bitmap then counterBytes else 0)
  {
    DoubleFieldCount(bitmap);
    base + 1 + TimestampBytes
      + (if TemperatureBit in bitmap then DoubleBytes else 0)
      + (if No2Bit in bitmap then DoubleBytes else 0)
      + (if HumidityBit in bitmap then DoubleBytes else 0)
      + (if CounterBit in bitmap then counterBytes else 0)
  }

  lemma DoubleFieldCount(bitmap: set<Flag>)
    ensures |bitmap * DoubleFlags| == (if TemperatureBit in bitmap then 1 else 0) +
                                      (if No2Bit in bitmap then 1 else 0) +
                                      (if HumidityBit in bitmap then 1 else 0)
  {
    var t := bitmap * {TemperatureBit};
    var n := bitmap * {No2Bit};
    var h := bitmap * {HumidityBit};
    assert bitmap * DoubleFlags == t + n + h;
    FlagMeet(bitmap, TemperatureBit);
    FlagMeet(bitmap, No2Bit);
    FlagMeet(bitmap, HumidityBit);
    assert |t + n| == |t| + |n| by {
      assert t * n == {};
    }
    assert |t + n + h| == |t + n| + |h| by {
      assert (t + n) * h == {};
    }
  }

  lemma FlagMeet(bitmap: set<Flag>, f: Flag)
    ensures |bitmap * {f}| == if f in bitmap then 1 else 0
  {
    if f in bitmap {
      assert bitmap * {f} == {f};
    } else {
      assert bitmap * {f} == {};
    }
  }

  datatype Packet = Packet(bitmap: set<Flag>, temperature: Option<real>, no2: Option<real>,
                           humidity: Option<real>, counter: int, createdAt: real, bytes: int)

  /** The uplink a non-empty tick sends; unset measurements stay NaN (`None`). */
  function PacketOf(t: Tick, now: real, base: int, counterBytes: int): Packet {
    Packet(t.bitmap, t.temperature, t.no2, t.humidity, t.counterVal, now, PayloadBytes(base, counterBytes, t.bitmap))
  }

  /** The parameters `initialize` reads for the scheduler. */
  datatype Params = Params(temperatureInterval: real, no2Interval: real, humidityInterval: real,
                           counterInterval: real, intervalJitterFraction: real,
                           basePayloadBytes: int, counterPayloadBytes: int)

  datatype Message = SchedulerTick | Downlink | OtherMessage

  // ---------------------------------------------------------------------
  // The module
  // ---------------------------------------------------------------------

  class WlamSensorApp {
    const sensors: array<SensorState>
    var jitterFrac: real
    /** `scheduler != nullptr`. */
    var hasScheduler: bool
    /** When the scheduler self-message is pending, or `Never` when it is not. */
    var armed: Time
    var basePayloadBytes: int
    var counterPayloadBytes: int
    /** Packets sent on `socketOut`, oldest first. */
    var sent: seq<Packet>
    /** Signals emitted, oldest first. */
    var emitted: seq<Emission>

    /** One slot per sensor id, holding the sensor with that id. */
    ghost predicate Valid()
      reads this, sensors
    {
      sensors.Length == SidCount && forall i :: 0 <= i < SidCount ==> sensors[i].id == IdAt(i)
    }

    constructor ()
      ensures Valid() && fresh(sensors)
      ensures forall i :: 0 <= i < SidCount ==> sensors[i] == DefaultState(IdAt(i))
      ensures jitterFrac == 0.0 && !hasScheduler && armed == Never
      ensures basePayloadBytes == 0 && sent == [] && emitted == []
    {
      sensors := new SensorState[SidCount](i requires 0 <= i < SidCount => DefaultState(IdAt(i)));
      jitterFrac := 0.0;
      hasScheduler := false;
      armed := Never;
      basePayloadBytes := 0;
      counterPayloadBytes := 0;
      sent := [];
      emitted := [];
    }

    /** `initSensor`: reset the slot of `id` and give it its first due time. */
    method InitSensor(id: SensorId, interval: real, isCounter: bool, now: real, u: real)
      requires Valid()
      modifies sensors
      ensures Valid()
      ensures var i := if id == Temperature then 0 else if id == No2 then 1 else if id == Humidity then 2 else 3;
              sensors[i] == SensorState(id, interval, NextDue(now, interval, jitterFrac, u), None, 0, isCounter) &&
              forall j :: 0 <= j < SidCount && j != i ==> sensors[j] == old(sensors[j])
    {
      var i := if id == Temperature then 0 else if id == No2 then 1 else if id == Humidity then 2 else 3;
      var s := sensors[i].(id := id, interval := interval, isCounter := isCounter, lastValue := None, counter := 0);
      if interval > 0.0 {
        var jitter := interval * jitterFrac;
        s := s.(nextDue := At(now + interval + Uniform(-jitter, jitter, u)));
      } else {
        s := s.(nextDue := Never);
      }
      assert s.nextDue == NextDue(now, interval, jitterFrac, u);
      sensors[i] := s;
    }

    /** Stage 0 of `initialize`: read the parameters, initialise the four sensors (draw `draws[i]`
      * for slot `i`) and create the scheduler message. */
    method Initialize(p: Params, now: real, draws: seq<real>)
      requires Valid() && |draws| >= SidCount
      modifies this, sensors
      ensures Valid() && hasScheduler && armed == old(armed)
      ensures jitterFrac == p.intervalJitterFraction && basePayloadBytes == p.basePayloadBytes
      ensures counterPayloadBytes == p.counterPayloadBytes && sent == old(sent) && emitted == old(emitted)
      ensures sensors[0] == SensorState(Temperature, p.temperatureInterval,
                                        NextDue(now, p.temperatureInterval, jitterFrac, draws[0]), None, 0, false)
      ensures sensors[1] == SensorState(No2, p.no2Interval, NextDue(now, p.no2Interval, jitterFrac, draws[1]), None, 0, false)
      ensures sensors[2] == SensorState(Humidity, p.humidityInterval,
                                        NextDue(now, p.humidityInterval, jitterFrac, draws[2]), None, 0, false)
      ensures sensors[3] == SensorState(Counter, p.counterInterval,
                                        NextDue(now, p.counterInterval, jitterFrac, draws[3]), None, 0, true)
    {
      jitterFrac := p.intervalJitterFraction;
      basePayloadBytes := p.basePayloadBytes;
      counterPayloadBytes := p.counterPayloadBytes;
      InitSensor(Temperature, p.temperatureInterval, false, now, draws[0]);
      InitSensor(No2, p.no2Interval, false, now, draws[1]);
      InitSensor(Humidity, p.humidityInterval, false, now, draws[2]);
      InitSensor(Counter, p.counterInterval, true, now, draws[3]);
      hasScheduler := true;
    }

    /** `earliestNextDue`: the least due time over all sensors, SIMTIME_MAX when none is due. */
    method EarliestNextDue() returns (e: Time)
      requires Valid()
      ensures forall i :: 0 <= i < SidCount ==> Le(e, sensors[i].nextDue)
      ensures e == Never || exists i :: 0 <= i < SidCount && sensors[i].nextDue == e
    {
      e := Never;
      for i := 0 to SidCount
        invariant forall j :: 0 <= j < i ==> Le(e, sensors[j].nextDue)
        invariant e == Never || exists j :: 0 <= j < i && sensors[j].nextDue == e
      {
        if Lt(sensors[i].nextDue, e) {
          e := sensors[i].nextDue;
        }
      }
    }

    /** `scheduleNext`: arm the scheduler for the earliest due time, unless that is SIMTIME_MAX.
      * The scheduler must not be pending (OMNeT++ refuses to schedule a scheduled message).
      * `scheduleAt` raises "cannot schedule message to the past" when that time is before `now`:
      * then `ok` is false and nothing is armed. */
    method ScheduleNext(now: real) returns (ok: bool)
      requires Valid() && armed == Never
      modifies this`armed
      ensures ok <==> forall i :: 0 <= i < SidCount ==> !Past(sensors[i].nextDue, now)
      ensures !ok ==> armed == Never
      ensures ok ==> (armed == Never <==> forall i :: 0 <= i < SidCount ==> sensors[i].nextDue == Never)
      ensures armed.At? ==> (forall i :: 0 <= i < SidCount ==> Le(armed, sensors[i].nextDue)) &&
                            exists i :: 0 <= i < SidCount && sensors[i].nextDue == armed
    {
      var n := EarliestNextDue();
      if Lt(n, Never) {
        if n.t < now {
          return false;
        }
        armed := n;
      }
      return true;
    }

    /** One iteration of the sensor loop of `sampleAndSendIfDue`: when slot `i` is due, the
      * switch on its id (emitting its signals), then its rescheduling. `t` holds the loop's
      * locals and the signals emitted so far in the tick. */
    method VisitSensor(i: int, now: real, x: Samples, u: real, t: Tick) returns (t': Tick)
      requires Valid() && 0 <= i < SidCount
      modifies sensors, this`emitted
      ensures Valid()
      ensures (t', sensors[i]) == Step(t, old(sensors[i]), now, jitterFrac, x, u)
      ensures forall j :: 0 <= j < SidCount && j != i ==> sensors[j] == old(sensors[j])
      ensures exists e :: t'.emitted == t.emitted + e && emitted == old(emitted) + e
    {
      t' := t;
      var s := sensors[i];
      if !Due(s.nextDue, now) {
        assert t'.emitted == t.emitted + [];
        return;
      }
      var e: seq<Emission>;
      match s.id {
        case Temperature =>
          t' := t'.(temperature := Some(x.temperature), humidity := Some(x.humidityWithTemperature));
          e := [Sampled("temperature", x.temperature), Sampled("humidity", x.humidityWithTemperature)];
          t' := t'.(bitmap := t'.bitmap + {TemperatureBit});
          t' := t'.(bitmap := t'.bitmap + {HumidityBit});
        case No2 =>
          t' := t'.(no2 := Some(x.no2));
          s := s.(lastValue := Some(x.no2));
          e := [Sampled("no2", x.no2)];
          t' := t'.(bitmap := t'.bitmap + {No2Bit});
        case Humidity =>
          t' := t'.(humidity := Some(x.humidity));
          s := s.(lastValue := Some(x.humidity));
          e := [Sampled("humidity", x.humidity)];
          t' := t'.(bitmap := t'.bitmap + {HumidityBit});
        case Counter =>
          s := s.(counter := s.counter + 1);
          t' := t'.(counterVal := s.counter);
          e := [Sampled("counter", s.counter as real)];
          t' := t'.(bitmap := t'.bitmap + {CounterBit});
      }
      t' := t'.(emitted := t'.emitted + e);
      assert (t', s) == Fire(t, sensors[i], x);
      if s.interval > 0.0 {
        var jitter := s.interval * jitterFrac;
        s := s.(nextDue := At(now + s.interval + Uniform(-jitter, jitter, u)));
      } else {
        s := s.(nextDue := Never);
      }
      assert s.nextDue == NextDue(now, s.interval, jitterFrac, u);
      emitted := emitted + e;
      sensors[i] := s;
    }

    /** `sampleAndSendIfDue`: fire the due sensors in slot order, then send one packet if any
      * bit is set. Slot `i` draws `draws[i]` for its jitter. */
    method SampleAndSendIfDue(now: real, x: Samples, draws: seq<real>)
      requires Valid() && |draws| >= SidCount
      modifies this`sent, this`emitted, sensors
      ensures Valid()
      ensures forall i :: 0 <= i < SidCount ==> sensors[i] == After(old(sensors[i]), now, jitterFrac, x, draws[i])
      ensures var t := TickOf(old(sensors[..]), now, jitterFrac, x, draws);
              if t.bitmap == {} then sent == old(sent) && emitted == old(emitted) + t.emitted
              else sent == old(sent) + [PacketOf(t, now, basePayloadBytes, counterPayloadBytes)] &&
                   emitted == old(emitted) + t.emitted + [PacketSent(t.bitmap)]
    {
      ghost var ss := sensors[..];
      var t := NoTick;
      for i := 0 to SidCount
        invariant Valid()
        invariant forall j :: 0 <= j < i ==> sensors[j] == After(ss[j], now, jitterFrac, x, draws[j])
        invariant forall j :: i <= j < SidCount ==> sensors[j] == ss[j]
        invariant t == TickOf(ss[..i], now, jitterFrac, x, draws)
        invariant emitted == old(emitted) + t.emitted
        invariant sent == old(sent)
      {
        assert ss[..i + 1][..i] == ss[..i];
        StepState(t, ss[i], now, jitterFrac, x, draws[i]);
        t := VisitSensor(i, now, x, draws[i], t);
      }
      assert ss[..SidCount] == ss;
      if t.bitmap == {} {
        return;
      }
      var bytes := basePayloadBytes + 1 + TimestampBytes;
      if TemperatureBit in t.bitmap { bytes := bytes + DoubleBytes; }
      if No2Bit in t.bitmap { bytes := bytes + DoubleBytes; }
      if HumidityBit in t.bitmap { bytes := bytes + DoubleBytes; }
      if CounterBit in t.bitmap { bytes := bytes + counterPayloadBytes; }
      sent := sent + [Packet(t.bitmap, t.temperature, t.no2, t.humidity, t.counterVal, now, bytes)];
      emitted := emitted + [PacketSent(t.bitmap)];
    }

    /** `handleMessage`: a scheduler tick samples, sends and re-arms; anything else is deleted
      * and changes nothing. `ok` is false when re-arming raises the scheduling error. */
    method HandleMessage(msg: Message, now: real, x: Samples, draws: seq<real>) returns (ok: bool)
      requires Valid() && |draws| >= SidCount
      modifies this`armed, this`sent, this`emitted, sensors
      ensures Valid()
      ensures msg != SchedulerTick ==> ok && unchanged(this) && unchanged(sensors)
      ensures msg == SchedulerTick ==>
                forall i :: 0 <= i < SidCount ==> sensors[i] == After(old(sensors[i]), now, jitterFrac, x, draws[i])
      ensures msg == SchedulerTick ==>
                var t := TickOf(old(sensors[..]), now, jitterFrac, x, draws);
                sent == old(sent) + (if t.bitmap == {} then [] else [PacketOf(t, now, basePayloadBytes, counterPayloadBytes)]) &&
                emitted == old(emitted) + t.emitted + (if t.bitmap == {} then [] else [PacketSent(t.bitmap)])
      ensures msg == SchedulerTick ==>
                (ok <==> forall i :: 0 <= i < SidCount ==> !Past(sensors[i].nextDue, now)) &&
                (!ok ==> armed == Never) &&
                (ok ==> (armed == Never <==> forall i :: 0 <= i < SidCount ==> sensors[i].nextDue == Never)) &&
                (armed.At? ==> (forall i :: 0 <= i < SidCount ==> Le(armed, sensors[i].nextDue)) &&
                               exists i :: 0 <= i < SidCount && sensors[i].nextDue == armed)
      ensures 0.0 <= jitterFrac <= 1.0 && (forall i :: 0 <= i < SidCount ==> 0.0 <= draws[i] < 1.0) ==> ok
    {
      ok := true;
      if msg == SchedulerTick {
        armed := Never;
        SampleAndSendIfDue(now, x, draws);
        if 0.0 <= jitterFrac <= 1.0 && (forall i :: 0 <= i < SidCount ==> 0.0 <= draws[i] < 1.0) {
          forall i | 0 <= i < SidCount
            ensures !Past(sensors[i].nextDue, now)
          {
            AfterNotPast(old(sensors[i]), now, jitterFrac, x, draws[i]);
          }
        }
        ok := ScheduleNext(now);
      }
    }
  }
}
