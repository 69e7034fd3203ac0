/** How long the transmitter stays connected without hearing telemetry. */
module LinkLoss {
  import opened Words
  import opened Rates
  import opened TxSlots
  import Quotients

  // Microseconds since power-up
  datatype Event = Receive(us: nat) | Poll(us: nat) | SyncSent(us: nat, input: TickInput)

  function Apply(c: Config, s: TxState, e: Event): TxState {
    match e
    case Receive(us) => ReceiveTelemetry(s, Millis(us))
    case Poll(us) => PollConnection(c, s, Millis(us))
    case SyncSent(us, input) => GenerateSync(c, s, input.(nowMs := Millis(us))).state
  }

  function Run(c: Config, s: TxState, events: seq<Event>): TxState
    decreases |events|
  {
    if events == [] then s else Run(c, Apply(c, s, events[0]), events[1..])
  }

  /** Five telemetry slots in a row may be lost. */
  function AllowedGapUs(c: Config, divisor: uint8): nat {
    5 * divisor * c.rate.intervalUs
  }

  /** The moment the wait for telemetry counts from: a reception, or a sync that makes telemetry more frequent. */
  function WaitingSince(c: Config, s: TxState, e: Event, lastUs: nat): nat {
    if e.Receive? || (e.SyncSent? && s.connection == Connected && Apply(c, s, e).divisor < s.divisor) then e.us else lastUs
  }

  /** Nothing happens longer than the allowed gap, by the divisor in force, after the wait began. */
  predicate Steady(c: Config, s: TxState, lastUs: nat, events: seq<Event>)
    decreases |events|
  {
    events == [] ||
    (&& lastUs <= events[0].us <= lastUs + AllowedGapUs(c, s.divisor)
     && Millis(lastUs) != 0
     && Steady(c, Apply(c, s, events[0]), WaitingSince(c, s, events[0], lastUs), events[1..]))
  }

  /** Two truncated stamps are at most one millisecond further apart than the moments they stamp. */
  lemma TruncatedDifference(earlierUs: nat, laterUs: nat, gapUs: nat)
    requires earlierUs <= laterUs <= earlierUs + gapUs && gapUs < 0xffff_0000
    ensures Elapsed(Millis(laterUs), Millis(earlierUs)) == laterUs / 1000 - earlierUs / 1000 <= gapUs / 1000 + 1
  {
    ElapsedIsTrueDifference(laterUs / 1000, earlierUs / 1000);
  }

  lemma AllowedGapFitsTimeout(c: Config, divisor: uint8)
    requires c.Valid() && ValidDivisor(divisor)
    ensures AllowedGapUs(c, divisor) / 1000 + 1 < LostTimeoutMs(c, divisor)
    ensures AllowedGapUs(c, divisor) < 0xffff_0000
  {
    var slots := divisor * c.rate.intervalUs;
    assert AllowedGapUs(c, divisor) == 5 * slots;
    Quotients.MulMonotone(divisor, 128, c.rate.intervalUs);
  }

  /**
   Within the allowed gap, a poll of a connected transmitter keeps it connected exactly if the last
   reception was not stamped zero, the value that also means telemetry was never received.
   */
  lemma PollWithinGap(c: Config, s: TxState, lastUs: nat, us: nat)
    requires c.Valid() && ValidDivisor(s.divisor) && s.connection == Connected
    requires s.lastTlmMs == Millis(lastUs) && lastUs <= us <= lastUs + AllowedGapUs(c, s.divisor)
    ensures PollConnection(c, s, Millis(us)).connection == Connected <==> Millis(lastUs) != 0
  {
    AllowedGapFitsTimeout(c, s.divisor);
    TruncatedDifference(lastUs, us, AllowedGapUs(c, s.divisor));
  }

  /** A sync changes the divisor only to another valid one, and restarts the stamp just when it lowers it. */
  lemma SyncRestartsWait(c: Config, s: TxState, e: Event, lastUs: nat)
    requires c.Valid() && ValidDivisor(s.divisor) && e.SyncSent? && s.connection == Connected && s.lastTlmMs == Millis(lastUs)
    ensures var v := Apply(c, s, e);
            && ValidDivisor(v.divisor) && v.connection == Connected
            && v.lastTlmMs == Millis(WaitingSince(c, s, e, lastUs))
  {
    var counted := CountDownSpam(c, s).(syncSentMs := Millis(e.us));
    assert Apply(c, s, e) == UpdateRatio(c, counted, e.input.armed);
    hide GenerateSync, Millis, Divisor, UpdateRatio;
    RatioRestartsStamp(c, counted, e.input.armed);
  }

  lemma RatioRestartsStamp(c: Config, s: TxState, armed: bool)
    requires c.Valid() && ValidDivisor(s.divisor) && s.connection == Connected
    ensures var v := UpdateRatio(c, s, armed);
            && ValidDivisor(v.divisor) && v.connection == Connected
            && v.lastTlmMs == if v.divisor < s.divisor then s.syncSentMs else s.lastTlmMs
  {
    DivisorIsValid(EffectiveRatio(c, s, armed));
    hide Divisor, ValidDivisor;
  }

  /** No run of polls, receptions and syncs within the gap ever disconnects, whatever the syncs do to the divisor. */
  lemma {:induction false} SteadyTelemetryStaysConnected(c: Config, s: TxState, lastUs: nat, events: seq<Event>)
    requires c.Valid() && ValidDivisor(s.divisor) && s.connection == Connected
    requires s.lastTlmMs == Millis(lastUs) && Steady(c, s, lastUs, events)
    ensures Run(c, s, events).connection == Connected
    decreases |events|
  {
    if events != [] {
      var e := events[0];
      match e {
        case Receive(us) =>
        case Poll(us) => PollWithinGap(c, s, lastUs, us);
        case SyncSent(us, _) => SyncRestartsWait(c, s, e, lastUs);
      }
      hide GenerateSync, Millis, AllowedGapUs;
      SteadyTelemetryStaysConnected(c, Apply(c, s, e), WaitingSince(c, s, e, lastUs), events[1..]);
    }
  }

  /** The firmware's clock reads zero at reception: the next poll disconnects a healthy link. */
  lemma ZeroStampDisconnects(c: Config, s: TxState)
    requires c.Valid() && ValidDivisor(s.divisor) && s.connection == Connected
    ensures Run(c, s, [Receive(0x1_0000_0000 * 1000), Poll(0x1_0000_0000 * 1000)]).connection == Disconnected
  {
    var events := [Receive(0x1_0000_0000 * 1000), Poll(0x1_0000_0000 * 1000)];
    assert events[1..] == [Poll(0x1_0000_0000 * 1000)];
    assert Run(c, s, events) == Run(c, Apply(c, s, events[0]), events[1..]);
  }

  predicate OnlyPolls(events: seq<Event>) {
    forall k :: 0 <= k < |events| ==> events[k].Poll?
  }

  /** Five telemetry slots, or 512 ms if that is more, and two milliseconds for what the clocks round off. */
  function AllowedSilenceMs(c: Config, divisor: uint8): nat {
    Max(512, AllowedGapUs(c, divisor) / 1000) + 2
  }

  lemma TimeoutIsAllowedSilence(c: Config, divisor: uint8)
    ensures LostTimeoutMs(c, divisor) == AllowedSilenceMs(c, divisor)
  {
    var slots := divisor * c.rate.intervalUs;
    assert AllowedGapUs(c, divisor) == 5 * slots;
  }

  /** Once telemetry stops, polls change nothing until the timeout, and the first one past it disconnects. */
  lemma {:induction false} FirstPollPastTimeoutDisconnects(
    c: Config, s: TxState, lastUs: nat, polls: seq<Event>, lateUs: nat)
    requires c.Valid() && ValidDivisor(s.divisor) && s.connection == Connected
    requires s.lastTlmMs == Millis(lastUs) != 0 && OnlyPolls(polls)
    requires forall k :: 0 <= k < |polls| ==>
               lastUs <= polls[k].us && polls[k].us / 1000 - lastUs / 1000 <= AllowedSilenceMs(c, s.divisor)
    requires lastUs <= lateUs && AllowedSilenceMs(c, s.divisor) < lateUs / 1000 - lastUs / 1000 < 0x1_0000_0000
    ensures Run(c, s, polls).connection == Connected
    ensures Run(c, s, polls + [Poll(lateUs)]).connection == Disconnected
  {
    TimeoutIsAllowedSilence(c, s.divisor);
    hide AllowedSilenceMs;
    if polls == [] {
      ElapsedIsTrueDifference(lateUs / 1000, lastUs / 1000);
      assert [] + [Poll(lateUs)] == [Poll(lateUs)];
    } else {
      AllowedGapFitsTimeout(c, s.divisor);
      ElapsedIsTrueDifference(polls[0].us / 1000, lastUs / 1000);
      assert (polls + [Poll(lateUs)])[1..] == polls[1..] + [Poll(lateUs)];
      FirstPollPastTimeoutDisconnects(c, Apply(c, s, polls[0]), lastUs, polls[1..], lateUs);
    }
  }
}
