/** Air rates, telemetry ratios and the burst arithmetic derived from them. */
module Rates {
  import opened Words
  import Quotients

  // ----- telemetry ratios -----

  // `expresslrs_tlm_ratio_e`, in the order of its declaration
  const TLM_STD := 0
  const TLM_NO_TLM := 1
  const TLM_1_128 := 2
  const TLM_1_2 := 8
  const TLM_DISARMED := 9

  type Ratio = r: int | TLM_STD <= r <= TLM_DISARMED

  function Shl1(bits: nat): nat {
    if bits == 0 then 1 else 2 * Shl1(bits - 1)
  }

  /** `TLMratioEnumToValue`: a `uint8_t` return truncates the shift. */
  function Divisor(r: Ratio): uint8 {
    if r == TLM_NO_TLM then 1 else U8(Shl1(8 + TLM_NO_TLM - r))
  }

  predicate ValidDivisor(d: int) {
    d == 1 || d == 2 || d == 4 || d == 8 || d == 16 || d == 32 || d == 64 || d == 128
  }

  /** The callers must resolve STD first: its shift leaves the byte and the divisor would be 0. */
  lemma DivisorIsValid(r: Ratio)
    ensures ValidDivisor(Divisor(r)) <==> r != TLM_STD
    ensures Divisor(r) == 1 <==> r == TLM_NO_TLM || r == TLM_DISARMED
  {
    assert forall b: nat {:trigger Shl1(b)} :: b > 0 ==> Shl1(b) == 2 * Shl1(b - 1);
    assert Shl1(2) == 4 && Shl1(4) == 16 && Shl1(6) == 64 && Shl1(8) == 256;
  }

  /** Each ratio in turn asks for telemetry twice as often, from one slot in 128 to every second. */
  lemma DivisorsHalve(r: Ratio)
    ensures Divisor(TLM_1_128) == 128 && Divisor(TLM_1_2) == 2
    ensures TLM_1_128 <= r < TLM_1_2 ==> Divisor(r) == 2 * Divisor(r + 1)
  {
    assert forall b: nat {:trigger Shl1(b)} :: b > 0 ==> Shl1(b) == 2 * Shl1(b - 1);
    assert Shl1(2) == 4 && Shl1(4) == 16 && Shl1(6) == 64;
  }

  lemma TelemetryNonceIsEven(d: int, n: int)
    requires ValidDivisor(d) && d != 1
    requires n % d == 0
    ensures n % 2 == 0
  {
    Quotients.DividesTransitively(2, d, n);
  }

  /** The 8-bit nonce wraps without disturbing any divisor or hop interval. */
  lemma WrapKeepsResidue(n: int, d: int)
    requires ValidDivisor(d)
    ensures U8(n) % d == n % d
  {
    var m := 0x100 / d;
    assert d * m == 0x100;
    var q := n / 0x100;
    assert n == U8(n) + 0x100 * q;
    Quotients.ShiftByMultiple(U8(n), d, m * q);
    assert d * (m * q) == 0x100 * q;
  }

  // ----- rate tables -----

  /** The columns of `expresslrs_mod_settings_s` that the slot protocol depends on. */
  datatype Rate = Rate(tlm: Ratio, hop: nat, intervalUs: nat, sends: nat)

  predicate ValidHop(h: int) {
    h == 2 || h == 4
  }

  predicate ValidRate(r: Rate) {
    && ValidHop(r.hop)
    && 1000 <= r.intervalUs <= 40000
    && TLM_1_128 <= r.tlm <= TLM_1_2
    && (r.sends == 1 || r.sends == 2 || r.sends == 4)
  }

  const RATES_SX127X: seq<Rate> := [
    Rate(3, 4, 5000, 1), Rate(4, 4, 10000, 1), Rate(4, 4, 10000, 1),
    Rate(5, 4, 20000, 1), Rate(6, 2, 40000, 1), Rate(3, 2, 5000, 4)
  ]

  const RATES_SX128X: seq<Rate> := [
    Rate(2, 2, 1000, 1), Rate(2, 2, 2000, 1), Rate(2, 2, 1000, 2), Rate(2, 2, 1000, 4),
    Rate(2, 4, 2000, 1), Rate(2, 4, 3003, 1), Rate(3, 4, 4000, 1), Rate(4, 4, 6666, 1),
    Rate(4, 4, 10000, 1), Rate(5, 2, 20000, 1)
  ]

  const RATES_LR1121: seq<Rate> := [
    Rate(2, 2, 1000, 1), Rate(3, 4, 4000, 1), Rate(3, 4, 5000, 1), Rate(3, 4, 5000, 1),
    Rate(4, 4, 10000, 1), Rate(4, 4, 10000, 1), Rate(5, 4, 20000, 1), Rate(6, 2, 40000, 1),
    Rate(3, 2, 5000, 4), Rate(2, 2, 1000, 1), Rate(2, 2, 1000, 2), Rate(2, 2, 1000, 4),
    Rate(2, 4, 2000, 1), Rate(2, 4, 3003, 1), Rate(3, 4, 4000, 1), Rate(4, 4, 6666, 1),
    Rate(4, 4, 10000, 1), Rate(5, 2, 20000, 1), Rate(4, 4, 6666, 1), Rate(4, 4, 10000, 1)
  ]

  const RATES_LR2021: seq<Rate> := [
    Rate(2, 2, 1000, 1), Rate(3, 4, 4000, 1), Rate(3, 4, 5000, 1), Rate(3, 4, 5000, 1),
    Rate(4, 4, 10000, 1), Rate(4, 4, 10000, 1), Rate(5, 4, 20000, 1), Rate(6, 2, 40000, 1),
    Rate(3, 2, 5000, 4), Rate(2, 2, 1000, 1), Rate(2, 2, 2000, 1), Rate(2, 2, 1000, 2),
    Rate(2, 2, 1000, 4), Rate(2, 2, 1000, 1), Rate(2, 2, 1000, 2), Rate(2, 2, 1000, 4),
    Rate(2, 4, 2000, 1), Rate(2, 4, 3003, 1), Rate(3, 4, 4000, 1), Rate(4, 4, 6666, 1),
    Rate(4, 4, 10000, 1), Rate(5, 2, 20000, 1), Rate(4, 4, 6666, 1), Rate(4, 4, 10000, 1)
  ]

  lemma TablesAreValid(i: nat)
    ensures i < |RATES_SX127X| ==> ValidRate(RATES_SX127X[i])
    ensures i < |RATES_SX128X| ==> ValidRate(RATES_SX128X[i])
    ensures i < |RATES_LR1121| ==> ValidRate(RATES_LR1121[i])
    ensures i < |RATES_LR2021| ==> ValidRate(RATES_LR2021[i])
  {
    hide ValidRate;
    OlderTablesAreValid(i);
    LR1121TableIsValid(i);
    LR2021TableIsValid(i);
  }

  lemma OlderTablesAreValid(i: nat)
    ensures i < |RATES_SX127X| ==> ValidRate(RATES_SX127X[i])
    ensures i < |RATES_SX128X| ==> ValidRate(RATES_SX128X[i])
  {
  }

  lemma LR1121TableIsValid(i: nat)
    ensures i < |RATES_LR1121| ==> ValidRate(RATES_LR1121[i])
  {
  }

  lemma LR2021TableIsValid(i: nat)
    ensures i < |RATES_LR2021| ==> ValidRate(RATES_LR2021[i])
  {
  }

  // ----- link statistics burst -----

  const LINK_INTERVAL_MS := 512

  function PacketsPerSecond(intervalUs: nat): nat
    requires intervalUs > 0
  {
    1000000 / intervalUs
  }

  /** Telemetry slots that fit into the link statistics interval, before one is reserved. */
  function BurstSlots(rateHz: nat, divisor: nat): nat
    requires divisor > 0
  {
    LINK_INTERVAL_MS * rateHz / divisor / 1000
  }

  /** `TLMBurstMaxForRateRatio`, including the `uint8_t` return. */
  function BurstMax(rateHz: nat, divisor: nat): uint8
    requires divisor > 0
  {
    var slots := BurstSlots(rateHz, divisor);
    U8(if slots > 1 then slots - 1 else 1)
  }

  /** Every floor in the burst computation rounds towards sending link statistics sooner. */
  lemma BurstPeriodWithinInterval(rate: Rate, divisor: int, hz: nat, burst: int)
    requires ValidRate(rate) && ValidDivisor(divisor) && divisor != 1
    requires hz == PacketsPerSecond(rate.intervalUs) && burst == BurstMax(hz, divisor)
    requires BurstSlots(hz, divisor) >= 2
    ensures 1 <= burst <= 255
    ensures (burst + 1) * divisor * rate.intervalUs <= LINK_INTERVAL_MS * 1000
  {
    var slots := BurstSlots(hz, divisor);
    assert hz <= 1000 && hz * rate.intervalUs <= 1000000 by {
      RateAtMostThousand(rate.intervalUs);
      Quotients.FloorBound(1000000, rate.intervalUs);
    }
    SlotsFit(hz, divisor);
    BurstProducts(slots, divisor, hz, rate.intervalUs);
    assert burst == slots - 1;
  }

  /** One more telemetry slot between link statistics would be too many; where not even two fit, payload gets one. */
  lemma BurstIsMaximal(rate: Rate, divisor: int, hz: nat)
    requires ValidRate(rate) && ValidDivisor(divisor) && divisor != 1 && hz == PacketsPerSecond(rate.intervalUs)
    ensures (BurstMax(hz, divisor) + 2) * divisor * 1000 > 512 * hz
    ensures 2 * divisor * 1000 > 512 * hz ==> BurstMax(hz, divisor) == 1
  {
    var slots := BurstSlots(hz, divisor);
    RateAtMostThousand(rate.intervalUs);
    BetweenSlots(512 * hz, divisor, slots);
    assert BurstMax(hz, divisor) == U8(if slots > 1 then slots - 1 else 1);
    hide BurstMax, BurstSlots, PacketsPerSecond;
    SlotsAndBurst(512 * hz, divisor, slots);
  }

  lemma SlotsAndBurst(n: nat, d: nat, slots: nat)
    requires d >= 2 && n <= 512000 && 1000 * (slots * d) <= n < 1000 * (slots * d) + 1000 * d
    ensures slots <= 256 && (slots + 1) * d * 1000 > n
    ensures 2 * d * 1000 > n ==> slots <= 1
  {
    Quotients.MulMonotone(2, d, slots);
    assert (slots + 1) * d == slots * d + d;
    if slots >= 2 {
      Quotients.MulMonotone(2, slots, d);
    } else {
      Quotients.MulMonotone(slots, 1, d);
    }
  }

  lemma BetweenSlots(n: nat, d: nat, slots: nat)
    requires d > 0 && slots == n / d / 1000
    ensures 1000 * (slots * d) <= n < 1000 * (slots * d) + 1000 * d
  {
    var perDivisor := n / d;
    Quotients.FloorBound(n, d);
    Quotients.FloorBound(perDivisor, 1000);
    Quotients.MulMonotone(1000 * slots, perDivisor, d);
    Quotients.MulMonotone(perDivisor + 1, 1000 * slots + 1000, d);
    assert 1000 * slots * d == 1000 * (slots * d) && (1000 * slots + 1000) * d == 1000 * (slots * d) + 1000 * d;
    assert (perDivisor + 1) * d == perDivisor * d + d;
  }

  lemma BurstProducts(slots: nat, divisor: nat, hz: nat, intervalUs: nat)
    requires 1000 * slots * divisor <= LINK_INTERVAL_MS * hz
    requires hz * intervalUs <= 1000000
    requires divisor >= 2 && hz <= 1000
    ensures slots * divisor * intervalUs <= LINK_INTERVAL_MS * 1000
    ensures slots <= 256
  {
    var perCycle := slots * divisor;
    assert 1000 * perCycle <= LINK_INTERVAL_MS * hz by {
      assert 1000 * slots * divisor == 1000 * perCycle;
    }
    Quotients.MulMonotone(1000 * perCycle, LINK_INTERVAL_MS * hz, intervalUs);
    assert 1000 * perCycle * intervalUs == 1000 * (perCycle * intervalUs);
    assert LINK_INTERVAL_MS * hz * intervalUs == LINK_INTERVAL_MS * (hz * intervalUs);
    Quotients.MulMonotone(2, divisor, slots);
  }

  lemma RateAtMostThousand(intervalUs: nat)
    requires intervalUs >= 1000
    ensures PacketsPerSecond(intervalUs) <= 1000
  {
    var hz := PacketsPerSecond(intervalUs);
    Quotients.FloorBound(1000000, intervalUs);
    Quotients.MulMonotone(1000, intervalUs, hz);
  }

  lemma SlotsFit(rateHz: nat, divisor: nat)
    requires divisor > 0
    ensures 1000 * BurstSlots(rateHz, divisor) * divisor <= LINK_INTERVAL_MS * rateHz
  {
    var perDivisor := LINK_INTERVAL_MS * rateHz / divisor;
    Quotients.FloorBound(LINK_INTERVAL_MS * rateHz, divisor);
    Quotients.MulMonotone(1000 * BurstSlots(rateHz, divisor), perDivisor, divisor);
  }
}
