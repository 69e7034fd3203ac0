/** The receiver's telemetry bursts: how many payload frames separate two link statistics frames. */
module Bursts {
  import opened Rates
  import opened RxSlots
  import Quotients

  /** The state after the given telemetry frames, one queue flag per frame. */
  function StateAfter(s: RxState, queued: seq<bool>): RxState {
    if queued == [] then s else NextFrame(StateAfter(s, queued[..|queued| - 1]), queued[|queued| - 1]).0
  }

  /** The kind of frame `k`. */
  function FrameAt(s: RxState, queued: seq<bool>, k: nat): Telemetry
    requires k < |queued|
  {
    NextFrame(StateAfter(s, queued[..k]), queued[k]).1
  }

  /** The burst state after `k` frames when payload is always waiting. */
  predicate InBurst(s: RxState, k: nat) {
    var phase := k % (s.burstMax + 1);
    if phase == 0 then s.nextKind == LinkStats || s.burstMax == 0
    else s.nextKind == Payload && s.burstCount == phase
  }

  predicate AllQueued(queued: seq<bool>) {
    forall k :: 0 <= k < |queued| ==> queued[k]
  }

  lemma NextPhase(k: nat, period: nat)
    requires period > 0
    ensures (k + 1) % period == if k % period == period - 1 then 0 else k % period + 1
  {
    Quotients.ModOfMod(k, period);
    if k % period == period - 1 {
      Quotients.QuotientUnique(period, period, 1, 0);
    } else {
      Quotients.QuotientUnique(k % period + 1, period, 0, k % period + 1);
    }
  }

  lemma NextInBurst(s: RxState, k: nat)
    requires 1 <= s.burstMax && InBurst(s, k)
    ensures var v := NextFrame(s, true).0;
            v.burstMax == s.burstMax && InBurst(v, k + 1)
  {
    var period := s.burstMax + 1;
    var phase, next := k % period, (k + 1) % period;
    NextPhase(k, period);
    assert next == if phase == period - 1 then 0 else phase + 1;
  }

  lemma {:induction false} BurstPhase(s: RxState, queued: seq<bool>)
    requires s.nextKind == LinkStats && 1 <= s.burstMax && AllQueued(queued)
    ensures var v := StateAfter(s, queued); v.burstMax == s.burstMax && InBurst(v, |queued|)
  {
    if queued != [] {
      var n := |queued| - 1;
      BurstPhase(s, queued[..n]);
      NextInBurst(StateAfter(s, queued[..n]), n);
    }
  }

  /** With payload always waiting, exactly every (burstMax + 1)-th frame carries link statistics. */
  lemma LinkStatsSpacing(s: RxState, queued: seq<bool>, k: nat)
    requires s.nextKind == LinkStats && 1 <= s.burstMax && AllQueued(queued) && k < |queued|
    ensures FrameAt(s, queued, k) == LinkStats <==> k % (s.burstMax + 1) == 0
  {
    BurstPhase(s, queued[..k]);
  }

  /** Frames still due before link statistics, whatever the queue does. */
  function Remaining(s: RxState): int {
    if s.nextKind == LinkStats then 0 else s.burstMax - s.burstCount + 1
  }

  predicate BurstState(s: RxState) {
    1 <= s.burstMax && (s.nextKind == Payload ==> 1 <= s.burstCount <= s.burstMax)
  }

  /** However often the queue runs dry, no more than burstMax payload frames go out in a row. */
  lemma {:induction false} LinkStatsNotStarved(s: RxState, queued: seq<bool>)
    requires BurstState(s) && |queued| == Remaining(s) + 1
    ensures exists k :: 0 <= k < |queued| && FrameAt(s, queued, k) == LinkStats
    decreases |queued|
  {
    assert queued[..0] == [];
    if FrameAt(s, queued, 0) != LinkStats {
      var v := NextFrame(s, queued[0]).0;
      LinkStatsNotStarved(v, queued[1..]);
      var j :| 0 <= j < |queued[1..]| && FrameAt(v, queued[1..], j) == LinkStats;
      StepThenRun(s, queued[0], queued[1..][..j]);
      assert [queued[0]] + queued[1..][..j] == queued[..j + 1];
      assert FrameAt(s, queued, j + 1) == LinkStats;
    }
  }

  lemma {:induction false} StepThenRun(s: RxState, first: bool, rest: seq<bool>)
    ensures StateAfter(s, [first] + rest) == StateAfter(NextFrame(s, first).0, rest)
    decreases |rest|
  {
    var all := [first] + rest;
    if rest == [] {
      assert all[..0] == [] && all == [first];
      assert StateAfter(s, all) == NextFrame(StateAfter(s, all[..0]), first).0;
    } else {
      StepThenRun(s, first, rest[..|rest| - 1]);
      assert all[..|all| - 1] == [first] + rest[..|rest| - 1];
    }
  }

  /**
   The time between two link statistics frames: the burst the main loop computes, one telemetry slot
   every `divisor` slots, stays within the promised 512 ms despite every floor division.
   */
  lemma LinkStatsPeriod(c: RxConfig, s: RxState, queued: seq<bool>, k: nat)
    requires c.Valid() && ValidDivisor(s.divisor) && s.divisor != 1 && !s.burstValid && s.nextKind == LinkStats
    requires BurstSlots(PacketsPerSecond(c.rate.intervalUs), s.divisor) >= 2
    requires AllQueued(queued) && k < |queued|
    ensures var v := UpdateBurst(c, s);
            && (FrameAt(v, queued, k) == LinkStats <==> k % (v.burstMax + 1) == 0)
            && (v.burstMax + 1) * s.divisor * c.rate.intervalUs <= 512000
  {
    var v := UpdateBurst(c, s);
    var hz := PacketsPerSecond(c.rate.intervalUs);
    BurstPeriodWithinInterval(c.rate, s.divisor, hz, BurstMax(hz, s.divisor));
    LinkStatsSpacing(v, queued, k);
  }
}
