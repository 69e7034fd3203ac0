/**
 The transmitter's dynamic power control: one update per main-loop pass, fed by the link statistics of
 the latest telemetry, with its filters and its sample window.
 */
module DynPower {
  import opened Words
  import opened Quotients
  import opened Bits
  import opened Filters
  import opened Statistics

  const NOUPDATE: int8 := -128
  const MISSED: int8 := -127
  const SNR_THRESH_NONE: int8 := -127
  const LQ_BOOST_THRESH_DIFF := 20
  const LQ_BOOST_THRESH_MIN := 50
  const LQ_MOVING_AVG_K := 8
  const LQ_SHIFT := 16
  const LQ_THRESH_UP := 85
  const LQ_THRESH_DN := 95
  const RSSI_CNT := 5
  const RSSI_THRESH_UP := 15
  const RSSI_THRESH_DN := 21
  const SNR_1DB := 4 // in quarters of a decibel
  const SNR_STEP := 8 // two decibels, what one power level is expected to bring

  /** Powers the hardware supports, lowest and highest level. */
  datatype Device = Device(minPower: uint8, maxPower: uint8)
  {
    predicate Valid() {
      minPower <= maxPower < 8
    }

    function Constrain(power: int): uint8
      requires Valid()
    {
      if power < minPower then minPower else if power > maxPower then maxPower else power
    }
  }

  datatype Config = Config(power: uint8, dynamicPower: bool)

  datatype Rate = Rate(index: uint8, rxSensitivity: int32, snrThreshUp: int8, snrThreshDn: int8, tlmDenom: uint8, intervalUs: uint32)

  /** What one pass reads: clock, link statistics, switches and the current rate. */
  datatype Inputs = Inputs(now: uint32, rssi: int8, lq: uint8, disconnected: bool, armed: bool, boostSwitch: bool, rate: Rate)

  datatype Controller = Controller(
    power: uint8, updated: int8, lastLinkstatsMs: uint32, rfIndex: uint8,
    lqShifted: uint32, rssi: seq<int8>, snr: seq<int8>)
  {
    function LqAverage(): nat {
      lqShifted / 0x1_0000
    }
  }

  // ----- one step -----

  function SetPower(c: Controller, d: Device, power: int): Controller
    requires d.Valid()
  {
    c.(power := d.Constrain(power))
  }

  function IncPower(c: Controller, d: Device): Controller
    requires d.Valid()
  {
    if c.power < d.maxPower then SetPower(c, d, c.power + 1) else c
  }

  function DecPower(c: Controller, d: Device): Controller
    requires d.Valid()
  {
    if c.power > d.minPower then SetPower(c, d, c.power - 1) else c
  }

  function Headroom(c: Controller, config: Config): nat {
    if config.power > c.power then config.power - c.power else 0
  }

  function LinkstatsIntervalMs(rate: Rate): nat {
    Max(U32(rate.tlmDenom * rate.intervalUs) / 500, 512)
  }

  function OnMissed(c: Controller, d: Device, config: Config, i: Inputs): Controller
    requires d.Valid()
  {
    if i.armed && Headroom(c, config) > 0 && Elapsed(i.now, c.lastLinkstatsMs) > U32(LinkstatsIntervalMs(i.rate) + 2) then
      IncPower(c, d)
    else c
  }

  function Average(readings: seq<int8>): int8
    requires readings != []
  {
    S8(Truncated(Sum(readings), |readings|))
  }

  function ByRssi(c: Controller, d: Device, i: Inputs, headroom: nat, lqAverage: nat): Controller
    requires d.Valid()
  {
    var readings := c.rssi + [i.rssi];
    if |readings| < RSSI_CNT then c.(rssi := readings)
    else
      var average := Average(readings);
      var next := c.(rssi := []);
      if average < S8(i.rate.rxSensitivity + RSSI_THRESH_UP) && headroom > 0 then IncPower(next, d)
      else if average > S8(i.rate.rxSensitivity + RSSI_THRESH_DN) && lqAverage >= LQ_THRESH_DN then DecPower(next, d)
      else next
  }

  datatype Thresholds = Thresholds(up: int8, dn: int8)

  function ScaleFactor(lq: uint8): int {
    if lq < 100 then Max(13 - (100 - lq) * 12 / 15, 1) else 13
  }

  /** From mean and deviation in 16ths; the two are meant to be at least a decibel apart. */
  function AroundMean(mean: int, stdev: nat, scale: int): Thresholds {
    var up := S8(Truncated(mean - Truncated(stdev * scale, 4), 16));
    var dn := S8(Truncated(mean + stdev / 2, 16));
    Thresholds(Min(up, S8(dn - SNR_1DB)), dn)
  }

  function SnrThresholds(rate: Rate, lq: uint8, samples: seq<int8>): Thresholds {
    if |samples| < WINDOW_SIZE then Thresholds(rate.snrThreshUp, rate.snrThreshDn)
    else
      AroundMean(MeanFixed(samples) / 16, StdevFixed(samples) / 16, ScaleFactor(lq))
  }

  /** How many levels the loop adds: the SNR is expected to gain 2 dB with each, in an `int8_t`. */
  function LevelsUp(snr: int8, up: int8, headroom: nat): (levels: nat)
    ensures levels <= headroom
    decreases headroom
  {
    if snr <= up && headroom > 0 then 1 + LevelsUp(S8(snr + SNR_STEP), up, headroom - 1) else 0
  }

  function Raise(c: Controller, d: Device, levels: nat): Controller
    requires d.Valid()
  {
    if levels == 0 then c else IncPower(Raise(c, d, levels - 1), d)
  }

  function SnrSamples(c: Controller, snr: int8, lq: uint8): seq<int8> {
    if lq >= 99 then Slide(c.snr, snr) else c.snr
  }

  predicate SignalBad(i: Inputs, lqAverage: nat) {
    i.rssi <= i.rate.rxSensitivity + RSSI_THRESH_DN || lqAverage <= 95
  }

  function LevelsBySnr(i: Inputs, snr: int8, up: int8, headroom: nat, lqAverage: nat): (levels: nat)
    ensures levels <= headroom
  {
    if SignalBad(i, lqAverage) then LevelsUp(snr, up, headroom) else 0
  }

  function BySnr(c: Controller, d: Device, i: Inputs, snr: int8, headroom: nat, lqAverage: nat): Controller
    requires d.Valid()
  {
    var next := c.(snr := SnrSamples(c, snr, i.lq));
    var t := SnrThresholds(i.rate, i.lq, next.snr);
    var lowered := if snr >= t.dn && lqAverage >= LQ_THRESH_DN then DecPower(next, d) else next;
    Raise(lowered, d, LevelsBySnr(i, snr, t.up, headroom, lqAverage))
  }

  function HeadroomLeft(c: Controller, i: Inputs, snr: int8, headroom: nat, lqAverage: nat): (left: nat)
    ensures left <= headroom
  {
    if i.rate.snrThreshUp == SNR_THRESH_NONE then headroom
    else
      var t := SnrThresholds(i.rate, i.lq, SnrSamples(c, snr, i.lq));
      headroom - LevelsBySnr(i, snr, t.up, headroom, lqAverage)
  }

  function OnTelemetry(c: Controller, d: Device, config: Config, i: Inputs, snr: int8): Controller
    requires d.Valid()
  {
    var headroom, lqAverage := Headroom(c, config), c.LqAverage();
    var next := c.(lastLinkstatsMs := i.now, lqShifted := AddStep(c.lqShifted, i.lq, LQ_MOVING_AVG_K, LQ_SHIFT));
    if lqAverage - i.lq >= LQ_BOOST_THRESH_DIFF || i.lq <= LQ_BOOST_THRESH_MIN then SetPower(next, d, config.power)
    else StepGently(next, d, i, snr, headroom, lqAverage)
  }

  function StepGently(c: Controller, d: Device, i: Inputs, snr: int8, headroom: nat, lqAverage: nat): Controller
    requires d.Valid()
  {
    var moved :=
      if i.rate.snrThreshUp == SNR_THRESH_NONE then ByRssi(c, d, i, headroom, lqAverage)
      else BySnr(c, d, i, snr, headroom, lqAverage);
    if HeadroomLeft(c, i, snr, headroom, lqAverage) > 0 && moved.power == c.power && i.lq <= LQ_THRESH_UP then IncPower(moved, d)
    else moved
  }

  function Noted(c: Controller, d: Device, i: Inputs): Controller
    requires d.Valid()
  {
    var next := c.(updated := NOUPDATE, rfIndex := i.rate.index, snr := if i.rate.index != c.rfIndex then [] else c.snr);
    if c.updated > MISSED && i.rssi >= -5 then DecPower(next, d) else next
  }

  function UpdateController(c: Controller, d: Device, config: Config, i: Inputs): Controller
    requires d.Valid()
  {
    var snr, next := c.updated, Noted(c, d, i);
    if !config.dynamicPower then
      if snr > MISSED && i.rssi <= -20 && next.power < config.power then SetPower(next, d, config.power) else next
    else if (i.disconnected && i.armed) || i.boostSwitch then SetPower(next, d, config.power)
    else if snr == MISSED then OnMissed(next, d, config, i)
    else if snr == NOUPDATE then next
    else OnTelemetry(next, d, config, i, snr)
  }

  // ----- the cap -----

  predicate Sound(c: Controller, d: Device) {
    d.Valid() && d.minPower <= c.power <= d.maxPower
  }

  function Cap(c: Controller, config: Config): int {
    Max(config.power, c.power)
  }

  lemma {:induction false} RaiseAdds(c: Controller, d: Device, levels: nat)
    requires Sound(c, d)
    ensures Raise(c, d, levels) == c.(power := Min(c.power + levels, d.maxPower))
  {
    if levels > 0 {
      RaiseAdds(c, d, levels - 1);
    }
  }

  /** The new power and the headroom still left never exceed the configured power together. */
  lemma SnrKeepsHeadroom(c: Controller, d: Device, config: Config, i: Inputs, snr: int8, lqAverage: nat)
    requires Sound(c, d) && i.rate.snrThreshUp != SNR_THRESH_NONE
    ensures var headroom := Headroom(c, config);
            var next := BySnr(c, d, i, snr, headroom, lqAverage);
            && Sound(next, d) && next.power <= Cap(c, config)
            && (headroom > 0 ==> next.power + HeadroomLeft(c, i, snr, headroom, lqAverage) <= config.power)
  {
    hide SnrThresholds, LevelsUp;
    var next := c.(snr := SnrSamples(c, snr, i.lq));
    var t := SnrThresholds(i.rate, i.lq, next.snr);
    var lowered := if snr >= t.dn && lqAverage >= LQ_THRESH_DN then DecPower(next, d) else next;
    RaiseAdds(lowered, d, LevelsBySnr(i, snr, t.up, Headroom(c, config), lqAverage));
  }

  lemma TelemetryKeepsCap(c: Controller, d: Device, config: Config, i: Inputs, snr: int8)
    requires Sound(c, d)
    ensures Sound(OnTelemetry(c, d, config, i, snr), d) && OnTelemetry(c, d, config, i, snr).power <= Cap(c, config)
  {
    hide BySnr, HeadroomLeft, AddStep;
    if i.rate.snrThreshUp != SNR_THRESH_NONE {
      var fed := c.(lastLinkstatsMs := i.now, lqShifted := AddStep(c.lqShifted, i.lq, LQ_MOVING_AVG_K, LQ_SHIFT));
      SnrKeepsHeadroom(fed, d, config, i, snr, c.LqAverage());
    }
  }

  /** On every path an update ends within the hardware's range and at or below the larger of before and configured. */
  lemma UpdateKeepsCap(c: Controller, d: Device, config: Config, i: Inputs)
    requires Sound(c, d)
    ensures Sound(UpdateController(c, d, config, i), d) && UpdateController(c, d, config, i).power <= Cap(c, config)
  {
    hide OnTelemetry;
    TelemetryKeepsCap(Noted(c, d, i), d, config, i, c.updated);
  }

  /** Main-loop updates, and the telemetry interrupt between them. */
  datatype Event = Pass(inputs: Inputs) | Telemetry(snrScaled: int8)

  function Run(c: Controller, d: Device, config: Config, events: seq<Event>): Controller
    requires d.Valid()
  {
    if events == [] then c
    else
      var before := Run(c, d, config, events[..|events| - 1]);
      match events[|events| - 1]
      case Pass(i) => UpdateController(before, d, config, i)
      case Telemetry(snrScaled) => before.(updated := snrScaled)
  }

  /** No run leaves the hardware's range or passes the larger of where it began and the configured power. */
  lemma {:induction false} RunKeepsCap(c: Controller, d: Device, config: Config, events: seq<Event>)
    requires Sound(c, d)
    ensures Sound(Run(c, d, config, events), d) && Run(c, d, config, events).power <= Cap(c, config)
  {
    if events != [] {
      RunKeepsCap(c, d, config, events[..|events| - 1]);
      hide UpdateController;
      match events[|events| - 1] {
        case Pass(i) => UpdateKeepsCap(Run(c, d, config, events[..|events| - 1]), d, config, i);
        case Telemetry(_) =>
      }
    }
  }

  // ----- what the branches achieve -----

  /** Levels needed for the expected SNR to pass the threshold, as far as the headroom goes. */
  function LevelsNeeded(snr: int8, up: int8, headroom: nat): nat {
    if snr > up then 0 else Min(headroom, (up - snr) / 8 + 1)
  }

  lemma FitsInt8(n: int)
    ensures -0x80 <= n < 0x80 ==> S8(n) == n
  {
  }

  lemma {:induction false} LoopAddsNeeded(snr: int8, up: int8, headroom: nat)
    requires up < 120
    ensures LevelsUp(snr, up, headroom) == LevelsNeeded(snr, up, headroom)
    decreases headroom
  {
    hide S8;
    if snr <= up && headroom > 0 {
      FitsInt8(snr + SNR_STEP);
      LoopAddsNeeded(snr + SNR_STEP, up, headroom - 1);
      ShiftByMultiple(up - (snr + SNR_STEP), SNR_STEP, 1);
    }
  }

  /** The loop adds just the levels needed unless the threshold is so high that the expected SNR wraps. */
  lemma LoopAddsNeededExactly(up: int8)
    ensures (forall snr: int8, headroom: nat :: LevelsUp(snr, up, headroom) == LevelsNeeded(snr, up, headroom)) <==> up < 120
  {
    if up < 120 {
      forall snr: int8, headroom: nat
        ensures LevelsUp(snr, up, headroom) == LevelsNeeded(snr, up, headroom)
      {
        LoopAddsNeeded(snr, up, headroom);
      }
    } else {
      assert LevelsUp(-128, up, 1) == 1 + LevelsUp(S8(-120), up, 0);
      assert LevelsUp(120, up, 2) == 1 + LevelsUp(S8(128), up, 1) && S8(128) == -128;
      assert LevelsNeeded(120, up, 2) == 1;
    }
  }

  /**
   The thresholds are a decibel apart, and no sample calls for both more and less, if and only if half a
   deviation above the mean is not within four quarter decibels above where a signed byte wraps.
   */
  lemma ThresholdsApartExactly(mean: int, stdev: nat, scale: int)
    ensures var t := AroundMean(mean, stdev, scale);
            t.up + 4 <= t.dn <==> (Truncated(mean + stdev / 2, 16) + 0x80) % 0x100 >= 4
  {
    var n := Truncated(mean + stdev / 2, 16);
    hide Truncated;
    LimitWraps(n);
    hide S8;
  }

  lemma LimitWraps(n: int)
    ensures S8(n) == (n + 0x80) % 0x100 - 0x80
    ensures S8(S8(n) - SNR_1DB) == if S8(n) >= -124 then S8(n) - SNR_1DB else S8(n) - SNR_1DB + 0x100
  {
    FloorBound(n + 0x80, 0x100);
    var b := S8(n);
    hide S8;
    ByteLess4(b);
  }

  lemma ByteLess4(b: int8)
    ensures S8(b - SNR_1DB) == if b >= -124 then b - SNR_1DB else b - SNR_1DB + 0x100
  {
  }

  /** A bad signal with a low sample raises the power by the levels the sample lacks, up to config and hardware. */
  lemma LowSampleRaisesByNeed(c: Controller, d: Device, config: Config, i: Inputs, snr: int8, lqAverage: nat)
    requires Sound(c, d) && (i.rssi <= i.rate.rxSensitivity + 21 || lqAverage <= 95)
    requires var t := SnrThresholds(i.rate, i.lq, SnrSamples(c, snr, i.lq)); snr < t.dn && t.up < 120
    ensures var t := SnrThresholds(i.rate, i.lq, SnrSamples(c, snr, i.lq));
            BySnr(c, d, i, snr, Headroom(c, config), lqAverage).power
            == Min(c.power + LevelsNeeded(snr, t.up, Headroom(c, config)), d.maxPower)
  {
    hide SnrThresholds, LevelsNeeded;
    var next := c.(snr := SnrSamples(c, snr, i.lq));
    var t := SnrThresholds(i.rate, i.lq, next.snr);
    LoopAddsNeeded(snr, t.up, Headroom(c, config));
    RaiseAdds(next, d, LevelsUp(snr, t.up, Headroom(c, config)));
  }

  /** Where the signal is good no sample adds a level, and one at the upper limit takes one. */
  lemma GoodSignalLowersByOne(c: Controller, d: Device, i: Inputs, snr: int8, headroom: nat, lqAverage: nat)
    requires Sound(c, d) && i.rssi > i.rate.rxSensitivity + 21 && lqAverage > 95
    ensures var t := SnrThresholds(i.rate, i.lq, SnrSamples(c, snr, i.lq));
            BySnr(c, d, i, snr, headroom, lqAverage).power == if snr >= t.dn then Max(c.power - 1, d.minPower) else c.power
  {
    hide SnrThresholds;
  }

  /** An average under 95 takes no level, whatever the sample. */
  lemma PoorAverageLowersNever(c: Controller, d: Device, i: Inputs, snr: int8, headroom: nat, lqAverage: nat)
    requires Sound(c, d) && lqAverage < 95
    ensures BySnr(c, d, i, snr, headroom, lqAverage).power >= c.power
  {
    hide SnrThresholds, LevelsUp;
    var next := c.(snr := SnrSamples(c, snr, i.lq));
    var t := SnrThresholds(i.rate, i.lq, next.snr);
    RaiseAdds(next, d, LevelsBySnr(i, snr, t.up, headroom, lqAverage));
  }

  /** At an RSSI-steered rate the fifth reading decides: five weak ones add a level, five strong ones take one. */
  lemma FifthReadingDecides(c: Controller, d: Device, config: Config, i: Inputs, snr: int8, lqAverage: nat)
    requires Sound(c, d) && i.rate.snrThreshUp == -127 && |c.rssi| == 4
    requires -128 <= i.rate.rxSensitivity <= 0
    ensures var readings := c.rssi + [i.rssi];
            var next := StepGently(c, d, i, snr, Headroom(c, config), lqAverage);
            && next.rssi == []
            && (Between(-128, readings, i.rate.rxSensitivity + 14) && Headroom(c, config) > 0 ==>
                  next.power == Min(c.power + 1, d.maxPower))
            && (Between(i.rate.rxSensitivity + 22, readings, 127)
                && lqAverage >= 95 && i.lq > 85 ==>
                  next.power == Max(c.power - 1, d.minPower))
  {
    var readings := c.rssi + [i.rssi];
    FitsInt8(i.rate.rxSensitivity + RSSI_THRESH_UP);
    FitsInt8(i.rate.rxSensitivity + RSSI_THRESH_DN);
    AverageInHull(readings, -128, 127);
    if Between(-128, readings, i.rate.rxSensitivity + RSSI_THRESH_UP - 1) {
      AverageInHull(readings, -128, i.rate.rxSensitivity + RSSI_THRESH_UP - 1);
    }
    if Between(i.rate.rxSensitivity + RSSI_THRESH_DN + 1, readings, 127) {
      AverageInHull(readings, i.rate.rxSensitivity + RSSI_THRESH_DN + 1, 127);
    }
    hide Average, S8, Between;
  }

  lemma AverageInHull(readings: seq<int8>, lo: int, hi: int)
    requires readings != [] && Between(lo, readings, hi) && -128 <= lo && hi <= 127
    ensures lo <= Average(readings) <= hi
  {
    SumInHull(readings, lo, hi);
    TruncatedBetween(Sum(readings), |readings|, lo, hi);
    hide Truncated, Sum;
    FitsInt8(Truncated(Sum(readings), |readings|));
  }

  function Misses(passes: seq<Inputs>): seq<Event> {
    if passes == [] then [] else Misses(passes[..|passes| - 1]) + [Telemetry(MISSED), Pass(passes[|passes| - 1])]
  }

  /** An armed, still connected pass, longer since the last link statistics than they may be apart. */
  predicate Overdue(c: Controller, i: Inputs) {
    && i.armed && !i.disconnected && !i.boostSwitch
    && Elapsed(i.now, c.lastLinkstatsMs) > U32(LinkstatsIntervalMs(i.rate) + 2)
  }

  lemma RunOnceMore(c: Controller, d: Device, config: Config, events: seq<Event>, snr: int8, i: Inputs)
    requires d.Valid()
    ensures Run(c, d, config, events + [Telemetry(snr), Pass(i)]) == UpdateController(Run(c, d, config, events).(updated := snr), d, config, i)
  {
    hide UpdateController;
    var both := events + [Telemetry(snr), Pass(i)];
    assert both[..|both| - 1] == events + [Telemetry(snr)] && (events + [Telemetry(snr)])[..|events|] == events;
  }

  /** While telemetry stays away, every missed slot adds a level until the configured power is reached. */
  lemma {:induction false} MissesEscalate(c: Controller, d: Device, config: Config, passes: seq<Inputs>)
    requires Sound(c, d) && config.dynamicPower
    requires forall k :: 0 <= k < |passes| ==> Overdue(c, passes[k])
    ensures var after := Run(c, d, config, Misses(passes));
            && after.lastLinkstatsMs == c.lastLinkstatsMs
            && after.power == Max(c.power, Min(c.power + |passes|, Min(config.power, d.maxPower)))
  {
    if passes != [] {
      var n := |passes| - 1;
      MissesEscalate(c, d, config, passes[..n]);
      RunOnceMore(c, d, config, Misses(passes[..n]), MISSED, passes[n]);
      var before := Run(c, d, config, Misses(passes[..n])).(updated := MISSED);
      assert Overdue(before, passes[n]);
      hide Run, OnTelemetry, LinkstatsIntervalMs;
      assert UpdateController(before, d, config, passes[n]) == OnMissed(Noted(before, d, passes[n]), d, config, passes[n]);
    }
  }

  /** A link whose SNR has been flat for a whole window and whose quality is high steps down one level. */
  lemma SteadyLinkStepsDown(c: Controller, d: Device, config: Config, i: Inputs)
    requires Sound(c, d) && config.dynamicPower && i.rate.snrThreshUp != -127 && i.rate.index == c.rfIndex
    requires !(i.disconnected && i.armed) && !i.boostSwitch && i.rssi < -5
    requires -124 <= c.updated && |c.snr| == 48 && forall k :: 0 <= k < |c.snr| ==> c.snr[k] == c.updated
    requires 99 <= i.lq <= 100 && 95 <= c.LqAverage() <= 100
    ensures UpdateController(c, d, config, i).power == Max(c.power - 1, d.minPower) && UpdateController(c, d, config, i).snr == c.snr
  {
    var snr, next := c.updated, Noted(c, d, i);
    var fed := next.(lastLinkstatsMs := i.now, lqShifted := AddStep(next.lqShifted, i.lq, LQ_MOVING_AVG_K, LQ_SHIFT));
    assert SnrSamples(fed, snr, i.lq) == c.snr;
    FlatThresholds(i.rate, i.lq, c.snr, snr);
    hide AddStep, SnrThresholds;
    assert LevelsUp(snr, snr - SNR_1DB, Headroom(next, config)) == 0;
    assert BySnr(fed, d, i, snr, Headroom(next, config), c.LqAverage()) == DecPower(fed, d);
  }

  lemma FlatThresholds(rate: Rate, lq: uint8, samples: seq<int8>, v: int8)
    requires -124 <= v && |samples| == WINDOW_SIZE && forall k :: 0 <= k < |samples| ==> samples[k] == v
    ensures SnrThresholds(rate, lq, samples) == Thresholds(v - SNR_1DB, v)
  {
    SteadySignal(samples, v);
    hide MeanFixed, StdevFixed, ScaleFactor, AroundMean;
    assert v * FIXED_POINT_SCALE / 16 == v * 16;
    NoSpread(v, ScaleFactor(lq));
  }

  lemma NoSpread(v: int8, scale: int)
    requires -124 <= v
    ensures AroundMean(v * 16, 0, scale) == Thresholds(v - SNR_1DB, v)
  {
    TruncatedBetween(0, 4, 0, 0);
    TruncatedBetween(v * 16, 16, v, v);
    hide Truncated;
    assert 0 * scale == 0;
  }

  const LQ_TOP := 255 * 0x1_0000

  /** No link quality that fits a byte makes the average wrap: it stays put or moves an eighth of the way. */
  lemma AverageNeverWraps(c: Controller, d: Device, config: Config, i: Inputs)
    requires Sound(c, d) && c.lqShifted <= LQ_TOP
    ensures var after := UpdateController(c, d, config, i).lqShifted;
            after <= LQ_TOP && (after == c.lqShifted || after == Smooth(c.lqShifted, i.lq * 0x1_0000, 8))
  {
    hide Pow2, Square, AddStep, Smooth;
    PowersOfTwo();
    AddRefines(c.lqShifted, i.lq, LQ_MOVING_AVG_K, LQ_SHIFT, 255);
    var next := Noted(c, d, i);
    assert next.lqShifted == c.lqShifted;
    if config.dynamicPower && c.updated > MISSED {
      OnlyTelemetryAverages(next, d, config, i, c.updated);
    }
    hide StepGently, OnTelemetry;
  }

  lemma OnlyTelemetryAverages(c: Controller, d: Device, config: Config, i: Inputs, snr: int8)
    requires Sound(c, d)
    ensures OnTelemetry(c, d, config, i, snr).lqShifted == AddStep(c.lqShifted, i.lq, LQ_MOVING_AVG_K, LQ_SHIFT)
  {
    hide AddStep, SnrThresholds, LevelsUp, Raise, Average;
    var fed := c.(lastLinkstatsMs := i.now, lqShifted := AddStep(c.lqShifted, i.lq, LQ_MOVING_AVG_K, LQ_SHIFT));
    if i.rate.snrThreshUp != SNR_THRESH_NONE {
      var next := fed.(snr := SnrSamples(fed, snr, i.lq));
      var t := SnrThresholds(i.rate, i.lq, next.snr);
      var lowered := if snr >= t.dn && c.LqAverage() >= LQ_THRESH_DN then DecPower(next, d) else next;
      RaiseAdds(lowered, d, LevelsBySnr(i, snr, t.up, Headroom(c, config), c.LqAverage()));
    }
  }

  // ----- the controller in place -----

  class DynamicPower {
    const device: Device
    var currentPower: uint8
    var updated: int8
    var lastLinkstatsMillis: uint32
    var currRfIdx: uint8
    const mavgLq: MovingAvg
    var rssiSum: int
    var rssiCount: nat
    const statSnr: StdevAccumulator
    ghost var readings: seq<int8> // the RSSI readings since the last average

    ghost predicate Valid()
      reads this, mavgLq, statSnr, statSnr.buffer
    {
      && device.Valid()
      && mavgLq.k == LQ_MOVING_AVG_K && mavgLq.shift == LQ_SHIFT
      && statSnr.Valid()
      && rssiSum == Sum(readings) && rssiCount == |readings|
    }

    ghost function Model(): Controller
      reads this, mavgLq, statSnr
    {
      Controller(currentPower, updated, lastLinkstatsMillis, currRfIdx, mavgLq.shiftedVal, readings, statSnr.window)
    }

    /** Static storage, after the power module has set its own first level. */
    constructor (device: Device, power: uint8)
      requires device.Valid()
      ensures Valid() && fresh(mavgLq) && fresh(statSnr) && fresh(statSnr.buffer)
      ensures this.device == device && Model() == Controller(power, 0, 0, 0, 0, [], [])
    {
      this.device := device;
      currentPower, updated, lastLinkstatsMillis, currRfIdx := power, 0, 0, 0;
      rssiSum, rssiCount, readings := 0, 0, [];
      mavgLq := new MovingAvg(LQ_MOVING_AVG_K, LQ_SHIFT);
      statSnr := new StdevAccumulator();
      new;
      hide StdevAccumulator.Valid;
    }

    /** `DynamicPower_Init`: full link quality, no report, the first rate. */
    method Init()
      requires Valid()
      modifies this`updated, this`currRfIdx, mavgLq
      ensures Valid() && Model() == old(Model()).(lqShifted := 100 * 0x1_0000, updated := NOUPDATE, rfIndex := 0)
    {
      hide Pow2, Square, StdevAccumulator.Valid, Sum;
      PowersOfTwo();
      mavgLq.Init(100);
      updated := NOUPDATE;
      currRfIdx := 0;
    }

    method TelemetryUpdate(snrScaled: int8)
      requires Valid()
      modifies this`updated
      ensures Valid() && Model() == old(Model()).(updated := snrScaled)
    {
      updated := snrScaled;
    }

    method SetPowerTo(power: int)
      requires Valid()
      modifies this`currentPower
      ensures Valid() && Model() == SetPower(old(Model()), device, power)
    {
      currentPower := device.Constrain(power);
    }

    method Inc()
      requires Valid()
      modifies this`currentPower
      ensures Valid() && Model() == IncPower(old(Model()), device)
    {
      if currentPower < device.maxPower {
        SetPowerTo(currentPower + 1);
      }
    }

    method Dec()
      requires Valid()
      modifies this`currentPower
      ensures Valid() && Model() == DecPower(old(Model()), device)
    {
      if currentPower > device.minPower {
        SetPowerTo(currentPower - 1);
      }
    }

    method AdjustByRssi(i: Inputs, headroom: nat, lqAverage: nat)
      requires Valid()
      modifies this`currentPower, this`rssiSum, this`rssiCount, this`readings
      ensures Valid() && Model() == ByRssi(old(Model()), device, i, headroom, lqAverage)
    {
      SumsOfAppend(readings, i.rssi);
      rssiSum, rssiCount, readings := rssiSum + i.rssi, rssiCount + 1, readings + [i.rssi];
      if rssiCount >= RSSI_CNT {
        var incThreshold := S8(i.rate.rxSensitivity + RSSI_THRESH_UP);
        var decThreshold := S8(i.rate.rxSensitivity + RSSI_THRESH_DN);
        var average := S8(Truncated(rssiSum, rssiCount));
        rssiSum, rssiCount, readings := 0, 0, [];
        if average < incThreshold && headroom > 0 {
          Inc();
        } else if average > decThreshold && lqAverage >= LQ_THRESH_DN {
          Dec();
        }
      }
    }

    method ReadScale(lq: uint8) returns (scale: int)
      ensures scale == ScaleFactor(lq)
    {
      scale := 13;
      if lq < 100 {
        scale := Max(scale - (100 - lq) * (scale - 1) / 15, 1);
      }
    }

    method ReadThresholds(i: Inputs) returns (t: Thresholds)
      requires Valid()
      modifies statSnr
      ensures Valid() && Model() == old(Model())
      ensures t == SnrThresholds(i.rate, i.lq, statSnr.window)
    {
      hide AroundMean, MeanFixed, StdevFixed, Sum, SumOfSquares, ScaleFactor, Ring;
      t := Thresholds(i.rate.snrThreshUp, i.rate.snrThreshDn);
      if statSnr.count >= WINDOW_SIZE {
        var mean := statSnr.MeanRaw();
        var stdev := statSnr.StandardDeviationRaw();
        var scale := ReadScale(i.lq);
        t := AroundMean(mean / 16, stdev / 16, scale);
      }
    }

    method AdjustBySnr(i: Inputs, snr: int8, headroom: nat, lqAverage: nat) returns (left: nat)
      requires Valid()
      modifies this`currentPower, statSnr, statSnr.buffer
      ensures Valid() && Model() == BySnr(old(Model()), device, i, snr, headroom, lqAverage)
      ensures i.rate.snrThreshUp != SNR_THRESH_NONE ==> left == HeadroomLeft(old(Model()), i, snr, headroom, lqAverage)
    {
      assert forall c: Controller :: Raise(c, device, 0) == c;
      hide StdevAccumulator.Valid, Sum, SnrThresholds, LevelsUp, Raise;
      if i.lq >= 99 {
        statSnr.Add(snr);
      }
      var t := ReadThresholds(i);
      if snr >= t.dn && lqAverage >= LQ_THRESH_DN {
        Dec();
      }
      var signalBad := i.rssi <= i.rate.rxSensitivity + RSSI_THRESH_DN || lqAverage <= 95;
      left := headroom;
      if signalBad {
        left := RaiseUntilAbove(snr, t.up, headroom);
      }
    }

    method RaiseUntilAbove(snr: int8, up: int8, headroom: nat) returns (left: nat)
      requires Valid()
      modifies this`currentPower
      ensures Valid() && Model() == Raise(old(Model()), device, LevelsUp(snr, up, headroom))
      ensures left == headroom - LevelsUp(snr, up, headroom)
    {
      hide StdevAccumulator.Valid, Sum;
      var snrScaled: int8 := snr;
      left := headroom;
      while snrScaled <= up && left > 0
        invariant left <= headroom && Valid() && Model() == Raise(old(Model()), device, headroom - left)
        invariant headroom - left + LevelsUp(snrScaled, up, left) == LevelsUp(snr, up, headroom)
        decreases left
      {
        Inc();
        snrScaled := S8(snrScaled + SNR_STEP);
        left := left - 1;
      }
    }

    method AdjustGently(i: Inputs, snr: int8, headroom: nat, lqAverage: nat)
      requires Valid()
      modifies this, statSnr, statSnr.buffer
      ensures Valid() && Model() == StepGently(old(Model()), device, i, snr, headroom, lqAverage)
      ensures mavgLq.shiftedVal == old(mavgLq.shiftedVal)
    {
      hide ByRssi, BySnr, Sum, StdevAccumulator.Valid;
      var left := headroom;
      var startPowerLevel := currentPower;
      if i.rate.snrThreshUp == SNR_THRESH_NONE {
        AdjustByRssi(i, headroom, lqAverage);
      } else {
        left := AdjustBySnr(i, snr, headroom, lqAverage);
      }
      if left > 0 && startPowerLevel == currentPower && i.lq <= LQ_THRESH_UP {
        Inc();
      }
    }

    /** The average before this reading, which is then averaged in. */
    method TakeLinkQuality(lq: uint8) returns (lqAverage: nat)
      requires Valid()
      modifies mavgLq
      ensures Valid() && lqAverage == old(Model()).LqAverage()
      ensures Model() == old(Model()).(lqShifted := AddStep(old(mavgLq.shiftedVal), lq, LQ_MOVING_AVG_K, LQ_SHIFT))
    {
      hide AddStep, Sum, Pow2, Square, StdevAccumulator.Valid;
      lqAverage := mavgLq.GetValue();
      PowersOfTwo();
      mavgLq.Add(lq);
    }

    /** The part of an update that new telemetry alone sets off. */
    method AdjustOnTelemetry(config: Config, i: Inputs, snr: int8)
      requires Valid()
      modifies this, mavgLq, statSnr, statSnr.buffer
      ensures Valid() && Model() == OnTelemetry(old(Model()), device, config, i, snr)
    {
      var headroom: nat := if config.power > currentPower then config.power - currentPower else 0;
      hide StepGently, AddStep, Sum, StdevAccumulator.Valid, Device.Constrain;
      lastLinkstatsMillis := i.now;
      var lqAverage := TakeLinkQuality(i.lq);
      var lqDiff := lqAverage - i.lq;
      if lqDiff >= LQ_BOOST_THRESH_DIFF || i.lq <= LQ_BOOST_THRESH_MIN {
        SetPowerTo(config.power);
        return;
      }
      AdjustGently(i, snr, headroom, lqAverage);
    }

    /** Takes the report left by the interrupt, starts a new window at a new rate, and backs off from overload. */
    method Note(i: Inputs) returns (snrScaled: int8)
      requires Valid()
      modifies this`updated, this`currRfIdx, this`currentPower, statSnr, statSnr.buffer
      ensures Valid() && snrScaled == old(updated) && Model() == Noted(old(Model()), device, i)
    {
      hide Sum, StdevAccumulator.Valid, Device.Constrain;
      snrScaled := updated;
      updated := NOUPDATE;
      if i.rate.index != currRfIdx {
        currRfIdx := i.rate.index;
        statSnr.Reset();
      }
      if snrScaled > MISSED && i.rssi >= -5 {
        Dec();
      }
    }

    method Update(config: Config, i: Inputs)
      requires Valid()
      modifies this, mavgLq, statSnr, statSnr.buffer
      ensures Valid() && Model() == UpdateController(old(Model()), device, config, i)
    {
      hide OnTelemetry, Noted, Sum, StdevAccumulator.Valid, Device.Constrain, Average, BySnr, ByRssi;
      var snrScaled := Note(i);
      var newTlmAvail, lastTlmMissed := snrScaled > MISSED, snrScaled == MISSED;
      if !config.dynamicPower {
        if newTlmAvail && i.rssi <= -20 && currentPower < config.power {
          SetPowerTo(config.power);
        }
        return;
      }
      if (i.disconnected && i.armed) || i.boostSwitch {
        SetPowerTo(config.power);
        return;
      }
      if lastTlmMissed {
        if i.armed && config.power > currentPower {
          var interval := Max(U32(i.rate.tlmDenom * i.rate.intervalUs) / 500, 512);
          if Elapsed(i.now, lastLinkstatsMillis) > U32(interval + 2) {
            Inc();
          }
        }
        return;
      }
      if newTlmAvail {
        AdjustOnTelemetry(config, i, snrScaled);
      }
    }
  }
}
