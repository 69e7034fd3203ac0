/** Scanning the air rates for a transmitter: which rates are tried, and that none is left out. */
module RateScan {
  import opened Words
  import Quotients

  // The hardware's answer for each entry of the rate table
  type Support = s: seq<bool> | 1 <= |s| <= 128 witness [true]

  predicate Supported(support: Support, scan: nat) {
    support[scan % |support|]
  }

  predicate Supports(support: Support, rate: nat) {
    rate < |support| && support[rate]
  }

  /** The first supported value from `scan` up to the end of the byte, or 256. */
  function FirstFrom(support: Support, scan: nat): (q: nat)
    requires scan <= 256
    ensures scan <= q <= 256
    ensures q < 256 ==> Supported(support, q)
    ensures forall r :: scan <= r < q ==> !Supported(support, r)
    decreases 256 - scan
  {
    if scan == 256 || Supported(support, scan) then scan else FirstFrom(support, scan + 1)
  }

  lemma FirstIsAtMost(support: Support, rate: nat)
    requires Supports(support, rate)
    ensures FirstFrom(support, 0) <= rate
  {
    assert Supported(support, rate) by {
      Quotients.QuotientUnique(rate, |support|, 0, rate);
    }
    hide Supported;
  }

  /** Where the skip loop stops: it counts up, through the byte wrap if need be. */
  function Skip(support: Support, scan: uint8): nat {
    var up := FirstFrom(support, scan);
    if up < 256 then up else FirstFrom(support, 0)
  }

  /** One cycle: tune the current rate, step, and skip what the hardware cannot do. */
  function Cycle(support: Support, scan: uint8): nat {
    Skip(support, U8(scan + 1))
  }

  predicate AnySupported(support: Support) {
    true in support
  }

  /** The counter after `cycles` cycles. */
  function ScanAt(support: Support, scan: uint8, cycles: nat): (v: uint8)
    requires AnySupported(support)
    ensures cycles > 0 ==> Supported(support, v)
    decreases cycles
  {
    if cycles == 0 then scan
    else CycleIsByte(support, scan); ScanAt(support, Cycle(support, scan), cycles - 1)
  }

  lemma CycleIsByte(support: Support, scan: uint8)
    requires AnySupported(support)
    ensures Cycle(support, scan) < 256 && Supported(support, Cycle(support, scan))
  {
    var rate :| 0 <= rate < |support| && support[rate];
    FirstIsAtMost(support, rate);
  }

  /** Steps the skip loop still has to take. */
  function StepsLeft(support: Support, scan: uint8): nat {
    var up := FirstFrom(support, scan);
    if up < 256 then up - scan else 256 - scan + FirstFrom(support, 0)
  }

  lemma SkipSteps(support: Support, scan: uint8)
    requires !Supported(support, scan) && FirstFrom(support, 0) < 256
    ensures Skip(support, U8(scan + 1)) == Skip(support, scan)
    ensures StepsLeft(support, U8(scan + 1)) < StepsLeft(support, scan)
  {
    hide Supported;
    if scan < 255 {
      assert FirstFrom(support, scan) == FirstFrom(support, scan + 1);
    } else {
      assert FirstFrom(support, 255) == FirstFrom(support, 256) == 256;
    }
  }

  lemma SkipStops(support: Support)
    ensures forall scan: uint8 :: Supported(support, scan) ==> Skip(support, scan) == scan
  {
  }

  // ----- fairness -----

  lemma {:induction false} ScanAtSum(support: Support, scan: uint8, j: nat, k: nat)
    requires AnySupported(support)
    ensures ScanAt(support, scan, j + k) == ScanAt(support, ScanAt(support, scan, j), k)
    decreases j
  {
    hide Cycle;
    hide Supported;
    if j > 0 {
      CycleIsByte(support, scan);
      ScanAtSum(support, Cycle(support, scan), j - 1, k);
    }
  }

  /** Below the wrap no supported value is stepped over. */
  lemma {:induction false} ReachUp(support: Support, scan: uint8, q: uint8) returns (cycles: nat)
    requires AnySupported(support) && scan <= q && Supported(support, q)
    ensures cycles <= q - scan && ScanAt(support, scan, cycles) == q
    decreases q - scan
  {
    if scan == q {
      cycles := 0;
    } else {
      var k := ReachUp(support, Cycle(support, scan), q);
      cycles := k + 1;
    }
  }

  lemma CycleUpOrWrap(support: Support, scan: uint8)
    requires AnySupported(support)
    ensures Cycle(support, scan) <= scan ==> Cycle(support, scan) == FirstFrom(support, 0)
  {
    hide Supported;
    if scan < 255 {
      assert U8(scan + 1) == scan + 1;
    }
  }

  /** The wrap restarts the scan at the first supported rate. */
  lemma {:induction false} ReachWrap(support: Support, scan: uint8) returns (cycles: nat)
    requires AnySupported(support)
    ensures cycles <= 256 - scan && ScanAt(support, scan, cycles) == FirstFrom(support, 0)
    decreases 256 - scan
  {
    hide Supported;
    CycleIsByte(support, scan);
    CycleUpOrWrap(support, scan);
    hide Cycle, FirstFrom;
    if Cycle(support, scan) <= scan {
      cycles := 1;
      assert ScanAt(support, scan, 1) == ScanAt(support, Cycle(support, scan), 0);
    } else {
      var k := ReachWrap(support, Cycle(support, scan));
      cycles := k + 1;
    }
  }

  /** The next value at or above `scan` that stands for `rate`, ignoring the byte's end. */
  lemma NextStandIn(support: Support, scan: nat, rate: nat) returns (q: nat)
    requires rate < |support|
    ensures scan <= q < scan + |support| && q % |support| == rate
  {
    var n := |support|;
    var r := scan % n;
    q := if rate >= r then scan - r + rate else scan - r + rate + n;
    assert scan - r == n * (scan / n);
    if rate >= r {
      Quotients.QuotientUnique(q, n, scan / n, rate);
    } else {
      assert n * (scan / n) + n == n * (scan / n + 1);
      Quotients.QuotientUnique(q, n, scan / n + 1, rate);
    }
  }

  /**
   From any counter value, every supported rate is tuned within the next 2 * RATE_MAX cycles, even
   though the byte's wrap cuts the last rotation short.
   */
  lemma EveryRateIsTuned(support: Support, scan: uint8, rate: nat)
    requires Supports(support, rate)
    ensures exists k: nat :: k < 2 * |support| && ScanAt(support, scan, k) % |support| == rate
  {
    var n := |support|;
    var q := NextStandIn(support, scan, rate);
    assert Supported(support, q);
    if q < 256 {
      var k := ReachUp(support, scan, q);
      assert k < 2 * n;
    } else {
      FirstIsAtMost(support, rate);
      Quotients.QuotientUnique(rate, n, 0, rate);
      var j := ReachWrap(support, scan);
      var k := ReachUp(support, FirstFrom(support, 0), rate);
      ScanAtSum(support, scan, j, k);
      assert j + k < 2 * n && ScanAt(support, scan, j + k) % n == rate;
    }
  }

  // ----- the loop -----

  class Scanner {
    const support: Support
    var scanIndex: uint8
    var tuned: nat
    var lastCycledMs: uint32
    var multiplier: uint8
    var locked: bool

    predicate Valid()
      reads this
    {
      AnySupported(support) && tuned < |support|
    }

    constructor (s: Support, start: uint8)
      requires AnySupported(s)
      ensures Valid() && support == s && scanIndex == start && tuned == start % |s|
    {
      support, scanIndex, tuned, lastCycledMs, multiplier, locked := s, start, start % |s|, 0, 5, false;
    }

    /** `idle` is false while connected, updating over WiFi, or binding. */
    method CycleRfMode(nowMs: uint32, cycleIntervalMs: nat, idle: bool)
      requires Valid()
      modifies this`scanIndex, this`tuned, this`lastCycledMs, this`multiplier
      ensures Valid()
      ensures var due := idle && !locked && Elapsed(nowMs, old(lastCycledMs)) > cycleIntervalMs * old(multiplier);
              if due then
                && tuned == old(scanIndex) % |support| && scanIndex == Cycle(support, old(scanIndex))
                && lastCycledMs == nowMs && multiplier == 1
              else
                && tuned == old(tuned) && scanIndex == old(scanIndex)
                && lastCycledMs == old(lastCycledMs) && multiplier == old(multiplier)
      ensures tuned != old(tuned) ==> Supported(support, scanIndex)
    {
      if !idle {
        return;
      }
      if !locked && Elapsed(nowMs, lastCycledMs) > cycleIntervalMs * multiplier {
        lastCycledMs := nowMs;
        tuned := scanIndex % |support|;
        scanIndex := U8(scanIndex + 1);
        SkipUnsupported();
        multiplier := 1;
      }
    }

    method SkipUnsupported()
      requires Valid()
      modifies this`scanIndex
      ensures scanIndex == Skip(support, old(scanIndex)) && Supported(support, scanIndex)
    {
      ghost var rate :| 0 <= rate < |support| && support[rate];
      FirstIsAtMost(support, rate);
      SkipStops(support);
      hide Supported;
      hide Skip;
      hide StepsLeft;
      hide FirstFrom;
      while !Supported(support, scanIndex)
        invariant FirstFrom(support, 0) < 256
        invariant Skip(support, scanIndex) == Skip(support, old(scanIndex))
        decreases StepsLeft(support, scanIndex)
      {
        SkipSteps(support, scanIndex);
        scanIndex := U8(scanIndex + 1);
      }
    }
  }
}
