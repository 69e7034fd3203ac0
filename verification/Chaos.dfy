/** The link quality above which the receiver must be hopping along, not sitting on one channel. */
module Chaos {
  import opened Words
  import opened Rates
  import opened Hopping
  import opened Fhss
  import Quotients

  /** `minLqForChaos`. */
  function MinLqForChaos(interval: nat, channels: nat): uint8
    requires interval > 0 && channels > 0
  {
    U8(interval * ((interval * channels + 99) / (interval * channels)))
  }

  /** Slots of a dwell-long visit once per period. */
  predicate Visits(slot: nat, dwell: nat, period: nat)
    requires period > 0
  {
    slot % period < dwell
  }

  function CountVisits(from: nat, n: nat, dwell: nat, period: nat): nat
    requires period > 0
  {
    if n == 0 then 0
    else CountVisits(from, n - 1, dwell, period) + if Visits(from + n - 1, dwell, period) then 1 else 0
  }

  lemma {:induction false} CountSplits(from: nat, m: nat, n: nat, dwell: nat, period: nat)
    requires period > 0
    ensures CountVisits(from, m + n, dwell, period)
            == CountVisits(from, m, dwell, period) + CountVisits(from + m, n, dwell, period)
    decreases n
  {
    hide Visits;
    if n > 0 {
      CountSplits(from, m, n - 1, dwell, period);
    }
  }

  lemma {:induction false} FirstPeriod(n: nat, dwell: nat, period: nat)
    requires n <= period && dwell <= period && period > 0
    ensures CountVisits(0, n, dwell, period) == Min(n, dwell)
  {
    if n > 0 {
      FirstPeriod(n - 1, dwell, period);
      Quotients.QuotientUnique(n - 1, period, 0, n - 1);
    }
  }

  /** Any window of one period sees one whole visit, wherever it starts. */
  lemma {:induction false} AnyPeriod(from: nat, dwell: nat, period: nat)
    requires dwell <= period && period > 0
    ensures CountVisits(from, period, dwell, period) == dwell
    decreases from
  {
    if from == 0 {
      FirstPeriod(period, dwell, period);
    } else {
      AnyPeriod(from - 1, dwell, period);
      CountSplits(from - 1, 1, period, dwell, period);
      CountSplits(from - 1, period, 1, dwell, period);
      VisitsRepeat(from - 1, dwell, period);
      OneSlot(from - 1, dwell, period);
      OneSlot(from - 1 + period, dwell, period);
    }
  }

  lemma OneSlot(slot: nat, dwell: nat, period: nat)
    requires period > 0
    ensures CountVisits(slot, 1, dwell, period) == if Visits(slot, dwell, period) then 1 else 0
  {
    assert CountVisits(slot, 0, dwell, period) == 0;
  }

  lemma VisitsRepeat(slot: nat, dwell: nat, period: nat)
    requires period > 0
    ensures Visits(slot + period, dwell, period) == Visits(slot, dwell, period)
  {
    Quotients.ShiftByMultiple(slot, period, 1);
  }

  /** A window of at most `periods` periods sees at most that many visits. */
  lemma {:induction false} WindowBound(from: nat, n: nat, dwell: nat, period: nat, periods: nat)
    requires dwell <= period && period > 0 && n <= periods * period
    ensures CountVisits(from, n, dwell, period) <= periods * dwell
    decreases periods
  {
    if n <= period {
      AnyPeriod(from, dwell, period);
      CountSplits(from, n, period - n, dwell, period);
      if n > 0 {
        assert periods > 0;
        Quotients.MulMonotone(1, periods, dwell);
      }
    } else {
      AnyPeriod(from, dwell, period);
      CountSplits(from, period, n - period, dwell, period);
      assert periods > 0;
      assert (periods - 1) * period == periods * period - period;
      assert (periods - 1) * dwell == periods * dwell - dwell;
      WindowBound(from + period, n - period, dwell, period, periods - 1);
    }
  }

  /** The number of periods that cover 100 slots. */
  lemma CoveringPeriods(period: nat, periods: nat)
    requires period >= 2 && periods == (period + 99) / period
    ensures 100 <= periods * period && periods <= 51
  {
    Quotients.FloorBound(period + 99, period);
    if periods > 51 {
      Quotients.MulMonotone(52, periods, period);
      assert false;
    }
  }

  lemma ThresholdFitsByte(interval: nat, channels: nat)
    requires ValidHop(interval) && channels > 0
    ensures interval * channels > 0
    ensures MinLqForChaos(interval, channels) == Heads(interval, channels) * interval
    ensures 100 <= Heads(interval, channels) * (interval * channels) && Heads(interval, channels) >= 1
  {
    Quotients.MulMonotone(1, channels, interval);
    var period, periods := interval * channels, Heads(interval, channels);
    CoveringPeriods(period, periods);
    if periods < 1 {
      assert false;
    }
    assert interval * periods == periods * interval <= 204;
  }

  /** How many block heads a window can meet if all blocks are whole. */
  function Heads(interval: nat, channels: nat): nat
    requires interval * channels > 0
  {
    (interval * channels + 99) / (interval * channels)
  }

  // ----- on the built sequence -----

  /** The index both ends hold in slot `slot`, counting slots from index 0. */
  function IndexInSlot(h: Hops, slot: nat): uint8
    requires h.Valid()
  {
    slot / h.interval % h.count
  }

  /** Slots in one round through the part of the table in use. */
  function Round(h: Hops): nat
    requires h.Valid()
    ensures Round(h) > 0
  {
    Quotients.MulMonotone(1, h.count, h.interval);
    h.interval * h.count
  }

  /** Counting slots from the start of a round, the sync channel is held for the first dwell of every block. */
  lemma SyncChannelSlots(h: Hops, channels: nat, slot: nat)
    requires h.Valid() && channels > 0 && WellBuilt(h.sequence[..h.count], channels, h.syncChannel)
    ensures h.interval * channels > 0
    ensures h.OnSyncChannel(IndexInSlot(h, slot)) <==> Visits(slot % Round(h), h.interval, h.interval * channels)
  {
    Quotients.MulMonotone(1, channels, h.interval);
    var index := IndexInSlot(h, slot);
    assert h.sequence[..h.count][index] == h.sequence[index];
    assert h.OnSyncChannel(index) <==> BlockHead(index, channels);
    IndexInRound(slot, h.interval, h.count);
    DwellPosition(slot % Round(h), h.interval, channels);
  }

  lemma IndexInRound(slot: nat, interval: nat, count: nat)
    requires interval > 0 && count > 0
    ensures interval * count > 0
    ensures slot / interval % count == slot % (interval * count) / interval
  {
    Quotients.MulMonotone(1, count, interval);
    var dwell, within, round := slot / interval, slot % interval, interval * count;
    var index, rounds := dwell % count, dwell / count;
    assert slot == interval * dwell + within && dwell == count * rounds + index;
    assert interval * (count * rounds + index) == round * rounds + interval * index by {
      Distribute(interval, count, rounds, index);
    }
    Quotients.MulMonotone(index, count - 1, interval);
    assert interval * (count - 1) == round - interval;
    Quotients.QuotientUnique(slot, round, rounds, interval * index + within);
    Quotients.QuotientUnique(interval * index + within, interval, index, within);
  }

  lemma Distribute(a: int, b: int, c: int, d: int)
    ensures a * (b * c + d) == (a * b) * c + a * d
  {
  }

  lemma DwellPosition(slot: nat, interval: nat, channels: nat)
    requires interval > 0 && channels > 0
    ensures interval * channels > 0
    ensures slot / interval % channels == 0 <==> slot % (interval * channels) < interval
  {
    IndexInRound(slot, interval, channels);
    var place := slot % (interval * channels);
    Quotients.FloorBound(place, interval);
    if place >= interval {
      if place / interval < 1 {
        Quotients.MulMonotone(place / interval, 0, interval);
        assert false;
      }
    } else {
      Quotients.QuotientUnique(place, interval, 0, place);
    }
  }

  function CountSyncSlots(h: Hops, from: nat, n: nat): nat
    requires h.Valid()
  {
    if n == 0 then 0
    else CountSyncSlots(h, from, n - 1) + if h.OnSyncChannel(IndexInSlot(h, from + n - 1)) then 1 else 0
  }

  lemma {:induction false} SyncSlotsSplit(h: Hops, from: nat, m: nat, n: nat)
    requires h.Valid()
    ensures CountSyncSlots(h, from, m + n) == CountSyncSlots(h, from, m) + CountSyncSlots(h, from + m, n)
    decreases n
  {
    hide IndexInSlot;
    if n > 0 {
      SyncSlotsSplit(h, from, m, n - 1);
    }
  }

  /** Inside one round the sync slots are regular visits. */
  lemma {:induction false} SyncSlotsInRound(h: Hops, channels: nat, from: nat, start: nat, n: nat, period: nat)
    requires h.Valid() && channels > 0 && WellBuilt(h.sequence[..h.count], channels, h.syncChannel)
    requires start == from % Round(h) && start + n <= Round(h) && period == h.interval * channels > 0
    ensures CountSyncSlots(h, from, n) == CountVisits(start, n, h.interval, period)
    decreases n
  {
    hide WellBuilt, IndexInSlot, Visits, Round, Hops.OnSyncChannel;
    if n > 0 {
      SyncSlotsInRound(h, channels, from, start, n - 1, period);
      SyncChannelSlots(h, channels, from + n - 1);
      SlotInRound(from, n - 1, Round(h));
    }
  }

  lemma SlotInRound(from: nat, k: nat, round: nat)
    requires round > 0 && from % round + k < round
    ensures (from + k) % round == from % round + k
  {
    assert from == round * (from / round) + from % round;
    Quotients.QuotientUnique(from + k, round, from / round, from % round + k);
  }

  // ----- where a table ends inside a block -----

  /** The slots that the last block of a round is short of a whole one. */
  function Cut(h: Hops, channels: nat): (cut: nat)
    requires h.Valid() && channels > 0
  {
    if h.count % channels == 0 then 0 else Max(0, (channels - h.count % channels) * h.interval)
  }

  /** A round is its whole blocks and the rest of the last. */
  lemma RoundInBlocks(interval: nat, count: nat, channels: nat, q: nat, r: nat, period: nat)
    requires channels > 0 && q == count / channels && r == count % channels && period == interval * channels
    ensures interval * count == period * q + interval * r
    ensures r > 0 ==> interval <= interval * r
    ensures (channels - r) * interval == period - interval * r && interval * r <= period
  {
    assert count == channels * q + r;
    Distribute(interval, channels, q, r);
    if r > 0 {
      Quotients.MulMonotone(1, r, interval);
    }
    Quotients.MulMonotone(r, channels, interval);
    assert (channels - r) * interval == channels * interval - r * interval;
  }

  /** A round lengthened by what it is cut short is whole blocks, and the cut holds no visit. */
  lemma CutCompletes(h: Hops, channels: nat, period: nat) returns (blocks: nat)
    requires h.Valid() && channels > 0 && period == h.interval * channels > 0
    ensures Round(h) + Cut(h, channels) == period * blocks
    ensures CountVisits(Round(h), Cut(h, channels), h.interval, period) == 0
  {
    hide Round, Cut;
    var q, rest := CutShape(h, channels, period);
    if rest == 0 {
      blocks := q;
    } else {
      blocks := q + 1;
      OneMoreBlock(period, q);
      NoVisits(q, rest, Cut(h, channels), h.interval, period);
    }
  }

  lemma OneMoreBlock(period: nat, q: nat)
    ensures period * (q + 1) == period * q + period
  {
  }

  lemma CutShape(h: Hops, channels: nat, period: nat) returns (q: nat, rest: nat)
    requires h.Valid() && channels > 0 && period == h.interval * channels > 0
    ensures Round(h) == period * q + rest && rest <= period
    ensures if rest == 0 then Cut(h, channels) == 0 else h.interval <= rest && Cut(h, channels) == period - rest
  {
    var r := h.count % channels;
    q, rest := h.count / channels, h.interval * r;
    RoundInBlocks(h.interval, h.count, channels, q, r, period);
    assert r == 0 ==> rest == 0;
  }

  lemma {:induction false} NoVisits(block: nat, from: nat, n: nat, dwell: nat, period: nat)
    requires period > 0 && dwell <= from && from + n <= period
    ensures CountVisits(period * block + from, n, dwell, period) == 0
    decreases n
  {
    if n > 0 {
      NoVisits(block, from, n - 1, dwell, period);
      Quotients.QuotientUnique(period * block + from + n - 1, period, block, from + n - 1);
    }
  }

  lemma {:induction false} VisitsFromBlock(block: nat, from: nat, n: nat, dwell: nat, period: nat)
    requires period > 0
    ensures CountVisits(from + period * block, n, dwell, period) == CountVisits(from, n, dwell, period)
    decreases n
  {
    if n > 0 {
      VisitsFromBlock(block, from, n - 1, dwell, period);
      Quotients.ShiftByMultiple(from + n - 1, period, block);
    }
  }

  lemma StartsRound(from: nat, x: nat, round: nat)
    requires round > 0 && from % round + x == round
    ensures (from + x) % round == 0
  {
    assert from == round * (from / round) + from % round;
    assert round * (from / round) + round == round * (from / round + 1);
    Quotients.QuotientUnique(from + x, round, from / round + 1, 0);
  }

  /** Across the end of a round, a window sees what a regular one lengthened by the cut would. */
  lemma SyncSlotsAcross(h: Hops, channels: nat, from: nat, x: nat, y: nat, period: nat)
    requires h.Valid() && channels > 0 && WellBuilt(h.sequence[..h.count], channels, h.syncChannel)
    requires from % Round(h) + x == Round(h) && y <= Round(h) && period == h.interval * channels > 0
    ensures CountSyncSlots(h, from, x + y) == CountVisits(from % Round(h), x + Cut(h, channels) + y, h.interval, period)
  {
    hide CountVisits, CountSyncSlots, Cut, Round, WellBuilt;
    var round, start := Round(h), from % Round(h);
    StartsRound(from, x, round);
    SyncSlotsSplit(h, from, x, y);
    SyncSlotsInRound(h, channels, from, start, x, period);
    SyncSlotsInRound(h, channels, from + x, 0, y, period);
    VisitsAcross(h, channels, start, x, y, period);
  }

  lemma VisitsAcross(h: Hops, channels: nat, start: nat, x: nat, y: nat, period: nat)
    requires h.Valid() && channels > 0 && period == h.interval * channels > 0 && start + x == Round(h)
    ensures CountVisits(start, x + Cut(h, channels) + y, h.interval, period) ==
            CountVisits(start, x, h.interval, period) + CountVisits(0, y, h.interval, period)
  {
    hide CountVisits, Cut, Round;
    var dwell, cut := h.interval, Cut(h, channels);
    var blocks := CutCompletes(h, channels, period);
    VisitsFromBlock(blocks, 0, y, dwell, period);
    CountSplits(start, x, cut, dwell, period);
    CountSplits(start, x + cut, y, dwell, period);
    assert start + x + cut == 0 + period * blocks;
  }

  /** The last block is whole, or the blocks one window reaches over fill it even with that one cut short. */
  predicate CutHarmless(h: Hops, channels: nat)
    requires h.Valid() && channels > 0 && h.interval * channels > 0
  {
    h.count % channels == 0 ||
    ((Heads(h.interval, channels) - 1) * channels + h.count % channels) * h.interval >= 100
  }

  lemma CutHarmlessAsLength(h: Hops, channels: nat)
    requires h.Valid() && channels > 0 && h.interval * channels > 0
    ensures CutHarmless(h, channels) <==>
            100 + Cut(h, channels) <= Heads(h.interval, channels) * (h.interval * channels)
  {
    var m, r, dwell, period := Heads(h.interval, channels), h.count % channels, h.interval, h.interval * channels;
    ThresholdFitsByte(dwell, channels);
    RoundInBlocks(dwell, h.count, channels, h.count / channels, r, period);
    CutOff(m, channels, r, dwell, period);
  }

  lemma CutOff(m: nat, channels: nat, r: nat, dwell: nat, period: nat)
    requires period == dwell * channels
    ensures ((m - 1) * channels + r) * dwell == m * period - (channels - r) * dwell
  {
    var blocks := m * channels;
    assert (m - 1) * channels == blocks - channels;
    assert (blocks - channels + r) * dwell == blocks * dwell - (channels - r) * dwell;
    assert blocks * dwell == m * period;
  }

  lemma {:induction false} WholePeriods(from: nat, periods: nat, dwell: nat, period: nat)
    requires period > 0 && dwell <= period
    ensures CountVisits(from, periods * period, dwell, period) == periods * dwell
    decreases periods
  {
    if periods > 0 {
      WholePeriods(from, periods - 1, dwell, period);
      AnyPeriod(from + (periods - 1) * period, dwell, period);
      CountSplits(from, (periods - 1) * period, period, dwell, period);
      assert (periods - 1) * period + period == periods * period && (periods - 1) * dwell + dwell == periods * dwell;
    }
  }

  lemma RoundIsLong(h: Hops)
    requires h.Valid() && h.count > 128
    ensures Round(h) > 2 * 100
  {
    Quotients.MulMonotone(129, h.count, h.interval);
  }

  /** Where the cut is harmless, no window of 100 slots holds more sync slots than the threshold. */
  lemma WindowBelowThreshold(h: Hops, channels: nat, from: nat)
    requires h.Valid() && channels > 0 && h.count > 128 && WellBuilt(h.sequence[..h.count], channels, h.syncChannel)
    requires h.interval * channels > 0 && CutHarmless(h, channels)
    ensures CountSyncSlots(h, from, 100) <= MinLqForChaos(h.interval, channels)
  {
    var start, round := from % Round(h), Round(h);
    RoundIsLong(h);
    ThresholdFitsByte(h.interval, channels);
    CutHarmlessAsLength(h, channels);
    Quotients.MulMonotone(1, channels, h.interval);
    hide CountVisits, CountSyncSlots, WellBuilt, MinLqForChaos, Cut, Round;
    if start + 100 <= round {
      SyncSlotsInRound(h, channels, from, start, 100, h.interval * channels);
      WindowBound(start, 100, h.interval, h.interval * channels, Heads(h.interval, channels));
    } else {
      var x := round - start;
      SyncSlotsAcross(h, channels, from, x, 100 - x, h.interval * channels);
      WindowBound(start, 100 + Cut(h, channels), h.interval, h.interval * channels, Heads(h.interval, channels));
    }
  }

  /** Otherwise the window from the last sync slot before the cut on holds too many. */
  lemma WindowAboveThreshold(h: Hops, channels: nat) returns (from: nat)
    requires h.Valid() && channels > 0 && h.count > 128 && WellBuilt(h.sequence[..h.count], channels, h.syncChannel)
    requires h.interval * channels > 0 && !CutHarmless(h, channels)
    ensures CountSyncSlots(h, from, 100) > MinLqForChaos(h.interval, channels)
  {
    hide CountSyncSlots, CountVisits, WellBuilt, MinLqForChaos, Cut, Round, Heads, CutHarmless;
    var q := h.count / channels;
    RoundIsLong(h);
    ThresholdFitsByte(h.interval, channels);
    CutHarmlessAsLength(h, channels);
    var x := LastSyncSlot(h, channels);
    from := Round(h) - x;
    Quotients.QuotientUnique(from, Round(h), 0, from);
    SyncSlotsAcross(h, channels, from, x, 100 - x, h.interval * channels);
    ManyVisits(q, Heads(h.interval, channels), 100 + Cut(h, channels), h.interval, h.interval * channels);
  }

  /** How long before the end of the round the last sync slot comes. */
  lemma LastSyncSlot(h: Hops, channels: nat) returns (x: nat)
    requires h.Valid() && channels > 0 && h.interval * channels > 0 && !CutHarmless(h, channels)
    ensures 1 <= x < 100 && h.interval <= h.interval * channels
    ensures Round(h) - x == h.interval * channels * (h.count / channels) + (h.interval - 1)
  {
    var q, r, dwell, period := h.count / channels, h.count % channels, h.interval, h.interval * channels;
    RoundInBlocks(dwell, h.count, channels, q, r, period);
    Quotients.MulMonotone(1, channels, dwell);
    ThresholdFitsByte(dwell, channels);
    ShortRest(Heads(dwell, channels), channels, r, dwell);
    x := dwell * r - dwell + 1;
  }

  lemma ShortRest(heads: nat, channels: nat, r: nat, dwell: nat)
    requires heads >= 1
    ensures dwell * r <= ((heads - 1) * channels + r) * dwell
  {
    Quotients.MulMonotone(0, heads - 1, channels);
    Quotients.MulMonotone(r, (heads - 1) * channels + r, dwell);
  }

  lemma ManyVisits(block: nat, periods: nat, n: nat, dwell: nat, period: nat)
    requires 0 < dwell <= period && n > periods * period
    ensures CountVisits(period * block + (dwell - 1), n, dwell, period) > periods * dwell
  {
    var from, whole := period * block + (dwell - 1), periods * period;
    WholePeriods(from, periods, dwell, period);
    OneSlot(from + whole, dwell, period);
    assert from + whole == period * (block + periods) + (dwell - 1);
    Quotients.QuotientUnique(from + whole, period, block + periods, dwell - 1);
    hide CountVisits;
    CountSplits(from, whole, 1, dwell, period);
    CountSplits(from, whole + 1, n - (whole + 1), dwell, period);
  }

  /**
   A receiver that never hops hears at most `minLqForChaos()` of any 100 consecutive packets, so that a
   higher link quality proves it is following the sequence, if and only if a cut at the end of the
   table is harmless; in particular if the table is whole blocks, as every table of one band is.
   */
  lemma SittingStillStaysBelowThreshold(h: Hops, channels: nat)
    requires h.Valid() && channels > 0 && h.count > 128 && WellBuilt(h.sequence[..h.count], channels, h.syncChannel)
    ensures h.interval * channels > 0
    ensures (forall from: nat :: CountSyncSlots(h, from, 100) <= MinLqForChaos(h.interval, channels))
            <==> CutHarmless(h, channels)
  {
    Quotients.MulMonotone(1, channels, h.interval);
    if CutHarmless(h, channels) {
      forall from: nat
        ensures CountSyncSlots(h, from, 100) <= MinLqForChaos(h.interval, channels)
      {
        WindowBelowThreshold(h, channels, from);
      }
    } else {
      var from := WindowAboveThreshold(h, channels);
    }
  }

  /**
   Dual band over EU868: 13 channels fill 247 entries, of which the 2.4 GHz table's 240 are used. In the
   window from slot 936 the receiver hears 12 packets without hopping, where the threshold is 8.
   */
  lemma DualBandExceedsThreshold(h: Hops)
    requires h.Valid() && h.interval == 4 && h.count == 240
    requires WellBuilt(h.sequence[..h.count], 13, h.syncChannel)
    ensures CountSyncSlots(h, 936, 100) == 12 && MinLqForChaos(4, 13) == 8
  {
    SyncSlotsAcross(h, 13, 936, 24, 76, 52);
    assert Cut(h, 13) == 28;
    hide CountVisits, CountSyncSlots;
    WholePeriods(936, 2, 4, 52);
    CountSplits(936, 104, 24, 4, 52);
    VisitsFromBlock(20, 0, 24, 4, 52);
    FirstPeriod(24, 4, 52);
  }
}
