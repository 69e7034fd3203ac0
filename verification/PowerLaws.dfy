/** What one update of the dynamic power control does to the power, in the source's own numbers. */
module PowerLaws {
  import opened Words
  import opened Quotients
  import opened Filters
  import opened Statistics
  import opened DynPower

  /** The configured power, as far as the hardware goes. */
  function Configured(d: Device, config: Config): int {
    Max(d.minPower, Min(config.power, d.maxPower))
  }

  /** The power once an overload, telemetry stronger than -5 dBm, has taken its level. */
  function Relieved(c: Controller, d: Device, i: Inputs): int {
    if c.updated > -127 && i.rssi >= -5 then Max(c.power - 1, d.minPower) else c.power
  }

  /** The pilot asks for full power, or the receiver has been lost in flight. */
  predicate Boosted(i: Inputs) {
    i.boostSwitch || (i.disconnected && i.armed)
  }

  /** A report whose quality is at most 50 or at least 20 below the average so far. */
  predicate Emergency(c: Controller, i: Inputs) {
    c.updated > -127 && (i.lq <= 50 || i.lq + 20 <= c.lqShifted / 0x1_0000)
  }

  // ----- full power -----

  /** A boost or an emergency goes to the configured power at once, from wherever the power was. */
  lemma EmergencyGivesConfigured(c: Controller, d: Device, config: Config, i: Inputs)
    requires Sound(c, d) && config.dynamicPower && (Boosted(i) || Emergency(c, i))
    ensures UpdateController(c, d, config, i).power == Configured(d, config)
  {
    hide StepGently, AddStep;
  }

  /** Two levels or more are gained in one update just in a boost or an emergency, where RSSI steers. */
  lemma JumpsExactly(c: Controller, d: Device, config: Config, i: Inputs)
    requires Sound(c, d) && config.dynamicPower && i.rate.snrThreshUp == -127
    requires c.power + 2 <= config.power <= d.maxPower
    ensures UpdateController(c, d, config, i).power == config.power <==> Boosted(i) || Emergency(c, i)
    ensures UpdateController(c, d, config, i).power >= c.power + 2 <==> Boosted(i) || Emergency(c, i)
  {
    hide AddStep, Average, S8;
  }

  /** Worse link quality never ends at less power, where RSSI steers and the power has not been turned down. */
  lemma WorseQualityNeverLowers(c: Controller, d: Device, config: Config, i: Inputs, worse: uint8)
    requires Sound(c, d) && config.dynamicPower && i.rate.snrThreshUp == -127
    requires c.power <= config.power && worse <= i.lq
    ensures UpdateController(c, d, config, i.(lq := worse)).power >= UpdateController(c, d, config, i).power
  {
    var w := i.(lq := worse);
    hide StepGently, AddStep;
    if Boosted(i) || Emergency(c, w) {
      EmergencyGivesConfigured(c, d, config, w);
    }
    if Boosted(i) || Emergency(c, i) {
      EmergencyGivesConfigured(c, d, config, i);
    }
    if !Boosted(i) && c.updated > -127 && !Emergency(c, i) {
      var next := Noted(c, d, i);
      if Emergency(c, w) {
        UpdateKeepsCap(c, d, config, i);
        hide OnTelemetry;
      } else {
        var k, l := AddStep(c.lqShifted, i.lq, 8, 16), AddStep(c.lqShifted, worse, 8, 16);
        GentlyNeverLowers(next.(lastLinkstatsMs := i.now, lqShifted := k), next.(lastLinkstatsMs := i.now, lqShifted := l),
                          d, i, worse, c.updated, Headroom(next, config), next.LqAverage());
      }
    }
  }

  lemma GentlyNeverLowers(c: Controller, w: Controller, d: Device, i: Inputs, worse: uint8, snr: int8, headroom: nat, lqAverage: nat)
    requires Sound(c, d) && w.power == c.power && w.rssi == c.rssi && i.rate.snrThreshUp == -127 && worse <= i.lq
    ensures StepGently(w, d, i.(lq := worse), snr, headroom, lqAverage).power >= StepGently(c, d, i, snr, headroom, lqAverage).power
  {
    hide Average, S8;
  }

  // ----- no emergency -----

  /** With dynamic power off, reports alone move the power: off an overload, or back up to a configured power above it. */
  lemma FixedPowerExactly(c: Controller, d: Device, config: Config, i: Inputs)
    requires Sound(c, d) && !config.dynamicPower
    ensures UpdateController(c, d, config, i).power
            == if c.updated > -127 && i.rssi <= -20 && c.power < config.power then Configured(d, config) else Relieved(c, d, i)
  {
  }

  /** A missed report adds one level if and only if an armed link has waited longer than two of them, at least 512 ms. */
  lemma MissedRaisesExactly(c: Controller, d: Device, config: Config, i: Inputs)
    requires Sound(c, d) && config.dynamicPower && !Boosted(i) && c.updated == -127
    ensures var overdue := Elapsed(i.now, c.lastLinkstatsMs) > Max(512, U32(i.rate.tlmDenom * i.rate.intervalUs) / 500) + 2;
            UpdateController(c, d, config, i).power
            == c.power + if i.armed && overdue && c.power < config.power && c.power < d.maxPower then 1 else 0
  {
    hide OnTelemetry, LinkstatsIntervalMs;
    IntervalInNumbers(i.rate);
  }

  lemma IntervalInNumbers(rate: Rate)
    ensures U32(LinkstatsIntervalMs(rate) + 2) == Max(512, U32(rate.tlmDenom * rate.intervalUs) / 500) + 2
  {
    FloorBound(U32(rate.tlmDenom * rate.intervalUs), 500);
  }

  /** Without any report the power stays. */
  lemma NoReportNoMove(c: Controller, d: Device, config: Config, i: Inputs)
    requires Sound(c, d) && config.dynamicPower && !Boosted(i) && c.updated == -128
    ensures UpdateController(c, d, config, i).power == c.power
  {
    hide OnTelemetry;
  }

  /** Until the fifth RSSI reading a level is added if and only if quality is at most 85 and there is headroom. */
  lemma QuietReadingsExactly(c: Controller, d: Device, config: Config, i: Inputs)
    requires Sound(c, d) && config.dynamicPower && !Boosted(i) && !Emergency(c, i)
    requires c.updated > -127 && i.rate.snrThreshUp == -127 && |c.rssi| < 4
    ensures var before, after := Relieved(c, d, i), UpdateController(c, d, config, i);
            && after.rssi == c.rssi + [i.rssi]
            && after.power == before + if i.lq <= 85 && before < config.power && before < d.maxPower then 1 else 0
  {
    hide AddStep, Average;
  }

  /** The fifth reading moves a level by the five's mean: up under 15 above the sensitivity, down over 21 if quality has been 95. */
  lemma FifthReadingExactly(c: Controller, d: Device, config: Config, i: Inputs)
    requires Sound(c, d) && config.dynamicPower && !Boosted(i) && !Emergency(c, i)
    requires c.updated > -127 && i.rate.snrThreshUp == -127 && |c.rssi| == 4 && -128 <= i.rate.rxSensitivity <= 0
    ensures var before, after, quality := Relieved(c, d, i), UpdateController(c, d, config, i), c.lqShifted / 0x1_0000;
            var mean := Truncated(c.rssi[0] + c.rssi[1] + c.rssi[2] + c.rssi[3] + i.rssi, 5);
            var moved := if mean < i.rate.rxSensitivity + 15 && before < config.power then Min(before + 1, d.maxPower)
                         else if mean > i.rate.rxSensitivity + 21 && quality >= 95 then Max(before - 1, d.minPower)
                         else before;
            && after.rssi == []
            && after.power == moved + if moved == before && before < config.power && i.lq <= 85 && moved < d.maxPower then 1 else 0
  {
    hide UpdateController, AddStep, BySnr, Average, S8, Truncated;
    CalmReport(c, d, config, i);
    MeanOfFive(c.rssi + [i.rssi], c.rssi[0], c.rssi[1], c.rssi[2], c.rssi[3], i.rssi);
    FitsInt8(i.rate.rxSensitivity + 15);
    FitsInt8(i.rate.rxSensitivity + 21);
  }

  lemma MeanOfFive(r: seq<int8>, a: int, b: int, c: int, d: int, e: int)
    requires |r| == 5 && r[0] == a && r[1] == b && r[2] == c && r[3] == d && r[4] == e
    ensures Average(r) == Truncated(a + b + c + d + e, 5)
  {
    AverageInHull(r, -128, 127);
    SumOfFive(r, a, b, c, d, e);
    TruncatedBetween(a + b + c + d + e, 5, -128, 127);
    hide Truncated, Sum;
    FitsInt8(Truncated(a + b + c + d + e, 5));
  }

  lemma SumOfFive(r: seq<int8>, a: int, b: int, c: int, d: int, e: int)
    requires |r| == 5 && r[0] == a && r[1] == b && r[2] == c && r[3] == d && r[4] == e
    ensures Sum(r) == a + b + c + d + e
  {
    assert r[..4][..3] == r[..3] && r[..3][..2] == r[..2] && r[..2][..1] == r[..1] && r[..1][..0] == [];
    assert Sum(r[..1]) == a && Sum(r[..2]) == a + b && Sum(r[..3]) == a + b + c;
  }

  /** The thresholds a report is held against: with a whole window its statistics, else the rate's own. */
  function Limits(c: Controller, i: Inputs): Thresholds {
    SnrThresholds(i.rate, i.lq, if i.lq >= 99 then Slide(Kept(c, i), c.updated) else Kept(c, i))
  }

  /**
   Where SNR steers, a report takes a level at or above the upper limit, if quality has been 95 or better, or adds
   those it lacks to pass the lower one, if the signal is bad; one that moves nothing adds one at a quality of at most 85.
   */
  lemma SnrSteeredExactly(c: Controller, d: Device, config: Config, i: Inputs)
    requires Sound(c, d) && config.dynamicPower && !Boosted(i) && !Emergency(c, i)
    requires c.updated > -127 && i.rate.snrThreshUp != -127 && Limits(c, i).up < 120
    ensures var before, quality, limits := Relieved(c, d, i), c.lqShifted / 0x1_0000, Limits(c, i);
            var headroom := if config.power > before then config.power - before else 0;
            var bad := i.rssi <= i.rate.rxSensitivity + 21 || quality <= 95;
            var added := if bad && c.updated <= limits.up then Min(headroom, (limits.up - c.updated) / 8 + 1) else 0;
            var lowered := if c.updated >= limits.dn && quality >= 95 then Max(before - 1, d.minPower) else before;
            var moved := Min(lowered + added, d.maxPower);
            UpdateController(c, d, config, i).power
            == moved + if moved == before && added < headroom && i.lq <= 85 && moved < d.maxPower then 1 else 0
  {
    hide AddStep, SnrThresholds, LevelsUp, Slide, ByRssi, BySnr, HeadroomLeft, UpdateController;
    var fed, headroom, quality := Fed(c, d, i), Headroom(Noted(c, d, i), config), c.LqAverage();
    CalmReport(c, d, config, i);
    SnrMoves(fed, d, i, c.updated, headroom, quality);
  }

  /** The controller with the report's time and quality noted, before any step. */
  function Fed(c: Controller, d: Device, i: Inputs): Controller
    requires d.Valid()
  {
    Noted(c, d, i).(lastLinkstatsMs := i.now, lqShifted := AddStep(c.lqShifted, i.lq, 8, 16))
  }

  lemma CalmReport(c: Controller, d: Device, config: Config, i: Inputs)
    requires Sound(c, d) && config.dynamicPower && !Boosted(i) && !Emergency(c, i) && c.updated > -127
    ensures UpdateController(c, d, config, i) == StepGently(Fed(c, d, i), d, i, c.updated, Headroom(Noted(c, d, i), config), c.LqAverage())
  {
    hide StepGently, AddStep;
  }

  lemma SnrMoves(c: Controller, d: Device, i: Inputs, snr: int8, headroom: nat, quality: nat)
    requires Sound(c, d) && i.rate.snrThreshUp != -127 && SnrThresholds(i.rate, i.lq, SnrSamples(c, snr, i.lq)).up < 120
    ensures var limits := SnrThresholds(i.rate, i.lq, SnrSamples(c, snr, i.lq));
            var bad := i.rssi <= i.rate.rxSensitivity + 21 || quality <= 95;
            var added := if bad && snr <= limits.up then Min(headroom, (limits.up - snr) / 8 + 1) else 0;
            var lowered := if snr >= limits.dn && quality >= 95 then Max(c.power - 1, d.minPower) else c.power;
            && BySnr(c, d, i, snr, headroom, quality).power == Min(lowered + added, d.maxPower)
            && HeadroomLeft(c, i, snr, headroom, quality) == headroom - added
  {
    hide SnrThresholds, LevelsUp, Slide;
    var next := c.(snr := SnrSamples(c, snr, i.lq));
    var t := SnrThresholds(i.rate, i.lq, next.snr);
    LoopAddsNeeded(snr, t.up, headroom);
    var lowered := if snr >= t.dn && quality >= 95 then DecPower(next, d) else next;
    RaiseAdds(lowered, d, LevelsBySnr(i, snr, t.up, headroom, quality));
  }

  // ----- bookkeeping -----

  /** Samples taken at the current rate. */
  function Kept(c: Controller, i: Inputs): seq<int8> {
    if i.rate.index == c.rfIndex then c.snr else []
  }

  /** A new SNR sample counts at an SNR-steered rate, at a quality of 99 or 100. */
  predicate Sampled(i: Inputs) {
    i.rate.snrThreshUp != -127 && i.lq >= 99
  }

  /** Every update takes the report; samples of another rate are forgotten, and calm ones of high quality are added. */
  lemma ReportIsTaken(c: Controller, d: Device, config: Config, i: Inputs)
    requires Sound(c, d)
    ensures var after := UpdateController(c, d, config, i);
            && after.updated == -128 && after.rfIndex == i.rate.index
            && after.snr == if config.dynamicPower && !Boosted(i) && c.updated > -127 && !Emergency(c, i) && Sampled(i)
                            then Slide(Kept(c, i), c.updated) else Kept(c, i)
  {
    hide AddStep, Average, SnrThresholds, LevelsUp, Slide;
    var next := Noted(c, d, i);
    if config.dynamicPower && c.updated > -127 && !Boosted(i) {
      TelemetryBookkeeping(next, d, config, i, c.updated);
      hide OnTelemetry;
    }
  }

  lemma TelemetryBookkeeping(c: Controller, d: Device, config: Config, i: Inputs, snr: int8)
    requires Sound(c, d) && snr > -127
    ensures var after := OnTelemetry(c, d, config, i, snr);
            && after.updated == c.updated && after.rfIndex == c.rfIndex
            && after.lastLinkstatsMs == i.now
            && after.lqShifted == AddStep(c.lqShifted, i.lq, 8, 16)
            && after.snr == if Sampled(i) && i.lq > 50 && i.lq + 20 > c.LqAverage() then Slide(c.snr, snr) else c.snr
  {
    hide AddStep, Average, SnrThresholds, LevelsUp, Raise, Slide;
    if i.rate.snrThreshUp != -127 {
      var fed := c.(lastLinkstatsMs := i.now, lqShifted := AddStep(c.lqShifted, i.lq, 8, 16));
      var next := fed.(snr := SnrSamples(fed, snr, i.lq));
      var t := SnrThresholds(i.rate, i.lq, next.snr);
      var lowered := if snr >= t.dn && c.LqAverage() >= LQ_THRESH_DN then DecPower(next, d) else next;
      RaiseAdds(lowered, d, LevelsBySnr(i, snr, t.up, Headroom(c, config), c.LqAverage()));
    }
  }

  /** The clock and the average follow new reports, and only where they are acted on. */
  lemma ReportsAreAveraged(c: Controller, d: Device, config: Config, i: Inputs)
    requires Sound(c, d)
    ensures var after := UpdateController(c, d, config, i);
            if config.dynamicPower && !Boosted(i) && c.updated > -127 then
              after.lastLinkstatsMs == i.now && after.lqShifted == AddStep(c.lqShifted, i.lq, 8, 16)
            else
              after.lastLinkstatsMs == c.lastLinkstatsMs && after.lqShifted == c.lqShifted
  {
    hide AddStep, OnTelemetry;
    if config.dynamicPower && !Boosted(i) && c.updated > -127 {
      TelemetryBookkeeping(Noted(c, d, i), d, config, i, c.updated);
    }
  }

  // ----- thresholds of the SNR -----

  /** The weight of the deviation falls from 13 at full quality by four fifths a percent, to 1 at 85. */
  lemma ScaleFallsEvenly(lq: uint8)
    ensures lq >= 100 ==> ScaleFactor(lq) == 13
    ensures lq <= 85 ==> ScaleFactor(lq) == 1
    ensures 85 <= lq <= 100 ==> 0 <= 5 * (ScaleFactor(lq) - 1) - 4 * (lq - 85) < 5
  {
  }

  /**
   Where nothing leaves a signed byte, the upper limit is half a deviation above the mean, and the lower
   one `scale` quarters of a deviation below it or a decibel below the upper, whichever is less.
   Mean and deviation are in 16ths, and each truncation loses less than one.
   */
  lemma ThresholdsNearMean(mean: int, stdev: nat, scale: nat) returns (low: int)
    requires -124 * 16 <= mean && mean + stdev / 2 < 128 * 16
    requires stdev * scale <= 4 * (mean + 128 * 16)
    ensures var t := AroundMean(mean, stdev, scale);
            && -32 < 32 * t.dn - (2 * mean + stdev) < 32
            && t.up == Min(low, t.dn - 4)
            && -64 < 64 * low - (4 * mean - stdev * scale) < 68
  {
    var spread: nat := stdev * scale;
    hide Truncated, S8, AroundMean;
    low := Truncated(mean - Truncated(spread, 4), 16);
    UpperNear(mean, stdev);
    LowerNear(mean, spread);
    BothLimits(mean, stdev, scale, spread);
  }

  lemma BothLimits(mean: int, stdev: nat, scale: nat, spread: nat)
    requires spread == stdev * scale
    requires var low, dn := Truncated(mean - Truncated(spread, 4), 16), Truncated(mean + stdev / 2, 16); -128 <= low <= 127 && -124 <= dn <= 127
    ensures var low, dn := Truncated(mean - Truncated(spread, 4), 16), Truncated(mean + stdev / 2, 16);
            AroundMean(mean, stdev, scale) == Thresholds(Min(low, dn - 4), dn)
  {
    hide Truncated, S8;
    FitsInt8(Truncated(mean - Truncated(spread, 4), 16));
    FitsInt8(Truncated(mean + stdev / 2, 16));
    FitsInt8(Truncated(mean + stdev / 2, 16) - 4);
  }

  lemma UpperNear(mean: int, stdev: nat)
    requires -124 * 16 <= mean && mean + stdev / 2 < 128 * 16
    ensures var dn := Truncated(mean + stdev / 2, 16); -124 <= dn <= 127 && -32 < 32 * dn - (2 * mean + stdev) < 32
  {
    hide Truncated;
    TruncatedNear(mean + stdev / 2, 16);
  }

  lemma LowerNear(mean: int, spread: nat)
    requires mean < 128 * 16 && spread <= 4 * (mean + 128 * 16)
    ensures var low := Truncated(mean - Truncated(spread, 4), 16); -128 <= low <= 127 && -64 < 64 * low - (4 * mean - spread) < 68
  {
    hide Truncated;
    TruncatedNear(spread, 4);
    TruncatedNear(mean - Truncated(spread, 4), 16);
  }

  /** Until the window holds 48 samples the rate's own thresholds count. */
  lemma OwnThresholdsUntilFull(rate: Rate, lq: uint8, samples: seq<int8>)
    requires |samples| < 48
    ensures SnrThresholds(rate, lq, samples) == Thresholds(rate.snrThreshUp, rate.snrThreshDn)
  {
  }

  /**
   From then on they are those of the window, in 256ths: half a deviation above the mean, and the weighted one
   below it or a decibel below the upper limit. Neither is further off than what is lost in truncating it to a byte.
   */
  lemma WindowThresholds(rate: Rate, lq: uint8, samples: seq<int8>) returns (low: int)
    requires |samples| == 48
    requires var mean, stdev, scale := MeanFixed(samples), StdevFixed(samples), ScaleFactor(lq);
             -123 * 256 <= mean && 2 * mean + stdev < 128 * 512 && stdev * scale <= 4 * mean + 127 * 1024
    ensures var mean, stdev, scale, t := MeanFixed(samples), StdevFixed(samples), ScaleFactor(lq), SnrThresholds(rate, lq, samples);
            && -544 < 512 * t.dn - (2 * mean + stdev) < 544
            && t.up == Min(low, t.dn - 4)
            && -1152 < 1024 * low - (4 * mean - stdev * scale) < 1152
  {
    var root := DeviationIsRoot(samples);
    var mean, stdev, scale := MeanFixed(samples), StdevFixed(samples), ScaleFactor(lq);
    var mean16, stdev16 := mean / 16, stdev / 16;
    assert SnrThresholds(rate, lq, samples) == AroundMean(mean16, stdev16, scale);
    hide MeanFixed, StdevFixed, ScaleFactor, SnrThresholds, AroundMean;
    FloorBound(mean, 16);
    QuotientUnique(stdev, 16, root, 0);
    Weighted(stdev, root, scale);
    low := ThresholdsNearMean(mean16, stdev16, scale);
  }

  lemma Weighted(stdev: nat, root: nat, scale: int)
    requires stdev == 16 * root
    ensures stdev * scale == 16 * (root * scale)
  {
  }
}
