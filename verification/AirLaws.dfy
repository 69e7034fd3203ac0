/** What a slot puts on the air, at either end, spelled out from the state before it. */
module AirLaws {
  import opened Words
  import opened Rates
  import opened Hopping
  import opened TxSlots
  import opened RxSlots

  // ----- the transmitter -----

  predicate Sends(c: Config, s: TxState, i: TickInput) {
    !s.committing && s.connection != AwaitingModelId && s.phase != PreReceiveGap && (!i.rcStale || c.mavlink)
  }

  predicate OnSync(c: Config, s: TxState)
    requires c.Valid()
  {
    c.hops.sequence[s.hopIndex] == c.hops.syncChannel
  }

  /** Extra syncs go out second and third in a dwell: announced changes on any channel, the rest on the sync channel. */
  predicate Spams(c: Config, s: TxState, place: nat)
    requires c.Valid()
  {
    (s.spam > 0 || (s.spamAfterRate > 0 && OnSync(c, s))) && (place == 1 || place == 2)
  }

  /** A sync by the clock: on the sync channel, no earlier in the dwell than the rotating slot. */
  predicate Regular(c: Config, s: TxState, i: TickInput, place: nat)
    requires c.Valid()
  {
    && OnSync(c, s) && s.syncSlot / 2 <= place
    && (c.requestedTlm == TLM_DISARMED && i.armed ==> s.divisor != 1)
    && Elapsed(i.nowMs, s.syncSentMs) > if s.connection == Connected && c.requestedTlm != TLM_DISARMED then c.syncConnectedMs
                                        else c.syncDisconnectedMs
  }

  /** Which of its packets a tick transmits, if any. */
  lemma TickSendsExactly(c: Config, s: TxState, i: TickInput)
    requires c.Valid()
    ensures var place, air := U8(s.nonce + 1) % c.hops.interval, Tick(c, s, i).air;
            var sync := Spams(c, s, place) || Regular(c, s, i, place);
            && (air.Silent? <==> !Sends(c, s, i))
            && (air.Sync? <==> Sends(c, s, i) && sync)
            && (air.Airport? <==> Sends(c, s, i) && !sync && c.airport)
            && (air.Data? <==> Sends(c, s, i) && !sync && !c.airport && (i.rcStale || (s.dataNext && i.dataQueued)))
  {
    hide GenerateSync;
    var s1 := s.(nonce := U8(s.nonce + 1), phase := Transmitting, busy := true);
    GeneratesSync(c, s1, i);
  }

  lemma GeneratesSync(c: Config, s: TxState, i: TickInput)
    ensures GenerateSync(c, s, i).air.Sync?
  {
  }

  /** What a sync leaves behind: its time, and the rotation a slot on, or restarted by an extra one. */
  lemma SyncLeaves(c: Config, s: TxState, i: TickInput)
    requires c.Valid() && Tick(c, s, i).air.Sync?
    ensures var v, place := Tick(c, s, i).state, U8(s.nonce + 1) % c.hops.interval;
            && v.syncSentMs == i.nowMs && v.busy && v.dataNext == s.dataNext
            && v.syncSlot == if Spams(c, s, place) then 0 else (s.syncSlot + 1) % (2 * c.hops.interval)
  {
    hide EffectiveRatio, Divisor, SyncUid5;
  }

  /** Uplink data alternates with channels, asks for a boost, and announces a new one at once. */
  lemma PayloadLeaves(c: Config, s: TxState, i: TickInput)
    requires c.Valid()
    ensures var v, air := Tick(c, s, i).state, Tick(c, s, i).air;
            && (air.Channels? ==> v.dataNext && v.boost == s.boost && v.spam == s.spam)
            && (air.Data? ==> !v.dataNext && v.boost == BoostRequested && v.spam == if s.boost == BoostIdle then 1 else s.spam)
  {
    var s1 := s.(nonce := U8(s.nonce + 1), phase := Transmitting, busy := true);
    GeneratesSync(c, s1, i);
    hide GenerateSync;
  }

  /** Starting a commit drops a telemetry slot that was due: the first tick after it transmits. */
  lemma CommitForgetsTelemetrySlot(c: Config, s: TxState, i: TickInput)
    requires c.Valid() && s.connection != AwaitingModelId && !i.rcStale
    ensures !Tick(c, EndCommit(BeginCommit(s)), i).air.Silent?
    ensures Tick(c, BeginCommit(s), i).air.Silent?
  {
    TickSendsExactly(c, EndCommit(BeginCommit(s)), i);
  }

  /** A model id asked for silences the transmitter, whose nonce stands still, until it connects or times out. */
  lemma AwaitingModelStandsStill(c: Config, s: TxState, i: TickInput, nowMs: uint32)
    requires c.Valid() && s.connection == AwaitingModelId && !s.committing && s.lastTlmMs == 0
    ensures Tick(c, s, i) == Step(s, Silent)
    ensures TxDone(c, s) == s.(busy := false)
    ensures PollConnection(c, s, nowMs).connection
            == if Elapsed(nowMs, s.rateChangedMs) > c.disconnectTimeoutMs then Disconnected else AwaitingModelId
  {
  }

  // ----- the receiver -----

  /** A reply goes out just in a telemetry slot of a linked receiver that has not replied since its last half period. */
  lemma TockRepliesExactly(c: RxConfig, s: RxState, i: TockInput)
    requires c.Valid()
    ensures !Tock(c, s, i).reply.Quiet? <==>
            && s.link != Lost && s.divisor > 1 && U8(s.nonce + 1) % s.divisor == 0
            && !s.answered && i.teamMatch && !i.muted
  {
  }

  lemma TockLeaves(c: RxConfig, s: RxState, i: TockInput)
    requires c.Valid()
    ensures var v := Tock(c, s, i).state;
            && v.nonce == U8(s.nonce + 1) && v.divisor == s.divisor && v.link == s.link
            && (!Tock(c, s, i).reply.Quiet? ==> v.answered)
  {
  }

  /** Once it has answered it stays quiet, until the half period's tick opens it up for the next telemetry slot. */
  lemma AnswersOncePerPeriod(c: RxConfig, s: RxState, i: TockInput, j: TockInput)
    requires c.Valid() && !Tock(c, s, i).reply.Quiet?
    ensures Tock(c, Tock(c, s, i).state, j).reply.Quiet?
    ensures j.teamMatch && !j.muted ==>
              (!Tock(c, MidTick(Tock(c, s, i).state), j).reply.Quiet? <==> U8(U8(s.nonce + 1) + 1) % s.divisor == 0)
  {
    TockRepliesExactly(c, s, i);
    TockLeaves(c, s, i);
    TockRepliesExactly(c, Tock(c, s, i).state, j);
    TockRepliesExactly(c, MidTick(Tock(c, s, i).state), j);
    hide Tock;
  }

  /** A muted reply still counts as made: the frame it would have sent is passed over. */
  lemma MutedReplyCounts(c: RxConfig, s: RxState, i: TockInput)
    requires c.Valid()
    ensures Tock(c, s, i.(muted := true)).reply == Quiet
    ensures Tock(c, s, i.(muted := true)).state == Tock(c, s, i).state
  {
  }

  /** A receiver without a link neither hops nor replies, but keeps counting slots. */
  lemma LostReceiverOnlyCounts(c: RxConfig, s: RxState, i: TockInput)
    requires c.Valid() && s.link == Lost
    ensures Tock(c, s, i) == RxStep(s.(nonce := U8(s.nonce + 1)), Quiet)
  {
  }

  /** Losing the link goes back to the first switch mode and a burst computed afresh; slot, index and ratio stand. */
  lemma LosingStartsOver(c: RxConfig, s: RxState)
    requires c.Valid() && s.divisor > 0
    ensures var v := LoseLink(s);
            && v.link == Lost && v.switchMode == 0 && !v.answered
            && v.nonce == s.nonce && v.hopIndex == s.hopIndex && v.divisor == s.divisor && v.switchPending == s.switchPending
            && UpdateBurst(c, v).burstMax == BurstMax(PacketsPerSecond(c.rate.intervalUs), s.divisor)
            && Establish(v).link == Established
  {
    hide BurstMax;
  }

  /** A sync with another ratio has the burst computed afresh, and the main loop computes it once. */
  lemma NewRatioNewBurst(c: RxConfig, s: RxState, p: SyncPacket)
    requires c.Valid() && Accepts(c, p) && s.divisor > 0 && (s.burstValid ==> s.burstMax == BurstMax(PacketsPerSecond(c.rate.intervalUs), s.divisor))
    ensures var v := UpdateBurst(c, ReceiveSync(c, s, p));
            && v.divisor == Divisor(p.ratioBits + TLM_NO_TLM) > 0
            && v.burstValid && v.burstMax == BurstMax(PacketsPerSecond(c.rate.intervalUs), v.divisor)
  {
    DivisorIsValid(p.ratioBits + TLM_NO_TLM);
    hide BurstMax, Accepts, Divisor, ModelMatches;
  }

  /** A confirmed mode is applied once: after it nothing is pending, and a lost link is not taken back to it. */
  lemma ModeIsAppliedOnce(s: RxState)
    ensures ApplySwitchMode(s).switchPending <= 0
    ensures s.switchPending > 0 ==> ApplySwitchMode(LoseLink(ApplySwitchMode(s))).switchMode == 0
  {
  }

  /** An accepted sync leaves a connected link connected if and only if slot, index and model match are what it held. */
  lemma StaysConnectedExactly(c: RxConfig, s: RxState, p: SyncPacket)
    requires c.Valid() && Accepts(c, p) && s.link == Established
    ensures var v := ReceiveSync(c, s, p);
            && (v.link == Established <==>
                  p.nonce == s.nonce && p.hopIndex == s.hopIndex && s.modelMatched == (p.uid5 == MarkedUid(c.uid5, c.modelId)))
            && (v.link == Established || v.link == Tentative)
            && v.nonce == p.nonce && v.modelMatched == (p.uid5 == MarkedUid(c.uid5, c.modelId))
  {
    hide Accepts, Divisor, SwitchPending, Hops.Set, MarkedUid;
  }
}
