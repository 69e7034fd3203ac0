/**
 Runs from power-up that lose the agreement, demote a healthy link, or use a slot in both directions: what
 the exact conditions elsewhere exclude does happen. The runs hold for every clock: `clock(n)` is the
 millisecond reading in slot `n`, and only the first sync has to be due by it.
 */
module Witnesses {
  import opened Words
  import opened Rates
  import opened Hopping
  import opened TxSlots
  import opened RxSlots
  import opened SlotRuns
  import opened Agreement
  import opened Collisions
  import Quotients

  ghost predicate Reachable(p: Pair, v: World)
    requires p.Valid()
  {
    exists events :: Run(p, PowerUp(), events) && After(p, PowerUp(), events) == v
  }

  lemma {:induction false} RunOneMore(p: Pair, w: World, events: seq<Event>, e: Event)
    requires p.Valid() && Run(p, w, events) && Enabled(p, After(p, w, events), e)
    ensures Run(p, w, events + [e]) && After(p, w, events + [e]) == Next(p, After(p, w, events), e)
    decreases |events|
  {
    hide Enabled, Next;
    if events == [] {
      assert [] + [e] == [e] && [e][1..] == [];
      assert Run(p, Next(p, w, e), []);
    } else {
      assert (events + [e])[1..] == events[1..] + [e];
      RunOneMore(p, Next(p, w, events[0]), events[1..], e);
    }
  }

  lemma Reach(p: Pair, w: World, e: Event)
    requires p.Valid() && Reachable(p, w) && Enabled(p, w, e)
    ensures Reachable(p, Next(p, w, e))
  {
    var events :| Run(p, PowerUp(), events) && After(p, PowerUp(), events) == w;
    RunOneMore(p, PowerUp(), events, e);
  }

  lemma PowerUpIsReachable(p: Pair)
    requires p.Valid()
    ensures Reachable(p, PowerUp())
  {
    assert Run(p, PowerUp(), []);
    assert After(p, PowerUp(), []) == PowerUp();
  }

  type Clock = nat -> uint32

  /**
   A transmitter and a receiver bound to each other, on a rate with four slots to a dwell and a table that
   starts on the sync channel and does not return to it for two dwells.
   */
  predicate Bound(p: Pair) {
    && p.Valid() && p.tx.hops.interval == 4 && p.tx.hops.count > SEQUENCE_LENGTH / 2
    && p.tx.hops.OnSyncChannel(0) && !p.tx.hops.OnSyncChannel(1) && !p.tx.hops.OnSyncChannel(2)
    && p.tx.uid4 == p.rx.uid4 && p.tx.uid5 == p.rx.uid5 && !p.tx.modelMatch
    && p.tx.rateIndex in p.rx.supported && p.tx.requestedRateIndex in p.rx.supported
    && !p.tx.airport && !p.tx.mavlink
  }

  /** The ratio of a transmitter that is neither armed nor boosted. */
  function BaseRatio(c: Config): Ratio {
    EffectiveRatio(c, PowerUp().tx, false)
  }

  predicate FirstSyncDue(p: Pair, clock: Clock) {
    clock(1) > p.tx.syncDisconnectedMs
  }

  // ----- single slots -----

  function Input(clock: Clock, n: nat): TickInput {
    TickInput(clock(n), false, false, false)
  }

  /** The sync packet of the slot after `s`. */
  function PacketAfter(c: Config, s: TxState): SyncPacket {
    SyncPacket(s.hopIndex, U8(s.nonce + 1), SyncRateIndex(c, s), c.switchMode % 2,
               RatioToBits(EffectiveRatio(c, s, false)), c.uid4, SyncUid5(c))
  }

  lemma PacketIsAccepted(p: Pair, s: TxState)
    requires Bound(p)
    ensures Accepts(p.rx, PacketAfter(p.tx, s)) && PacketAfter(p.tx, s).uid5 == p.tx.uid5
    ensures PacketDivisor(PacketAfter(p.tx, s)) == Divisor(EffectiveRatio(p.tx, s, false))
  {
    EffectiveRatioFits(p.tx, s, false);
    hide Divisor, EffectiveRatio;
  }

  /** What a slot carrying a sync packet leaves of a transmitter that has not heard telemetry. */
  lemma SyncTick(c: Config, s: TxState, i: TickInput)
    requires c.Valid() && !s.committing && s.connection == Disconnected && !i.armed && Tick(c, s, i).air.Sync?
    ensures var step := Tick(c, s, i);
            && step.air.packet == PacketAfter(c, s)
            && step.state == CountDownSpam(c, s).(nonce := U8(s.nonce + 1), phase := Transmitting, busy := true,
                                                  syncSlot := step.state.syncSlot, syncSentMs := i.nowMs,
                                                  boost := if s.boost == BoostRequested then Boosting else BoostIdle,
                                                  divisor := Divisor(EffectiveRatio(c, s, false)))
  {
    var s1 := s.(nonce := U8(s.nonce + 1), phase := Transmitting, busy := true);
    SyncShape(c, s1, i, 0);
    SyncShape(c, s1, i, NextSyncSlot(c, s1.syncSlot));
    hide Divisor, SyncUid5, SpamDue, RegularDue, NextSyncSlot, SendSync, EffectiveRatio, CountDownSpam;
    SameCountDown(c, s, s1);
  }

  lemma SameCountDown(c: Config, s: TxState, s1: TxState)
    requires s1 == s.(nonce := s1.nonce, phase := Transmitting, busy := true)
    ensures CountDownSpam(c, s1) == CountDownSpam(c, s).(nonce := s1.nonce, phase := Transmitting, busy := true)
    ensures EffectiveRatio(c, s1, false) == EffectiveRatio(c, s, false) && SyncRateIndex(c, s1) == SyncRateIndex(c, s)
  {
  }

  lemma SyncShape(c: Config, s: TxState, i: TickInput, slot: uint8)
    requires s.connection == Disconnected && !i.armed
    ensures var step := SendSync(c, s, i, slot);
            && step.air == Sync(SyncPacket(s.hopIndex, s.nonce, SyncRateIndex(c, s), c.switchMode % 2,
                                           RatioToBits(EffectiveRatio(c, s, false)), c.uid4, SyncUid5(c)))
            && step.state == CountDownSpam(c, s).(syncSlot := slot, syncSentMs := i.nowMs,
                                                  boost := if s.boost == BoostRequested then Boosting else BoostIdle,
                                                  divisor := Divisor(EffectiveRatio(c, s, false)))
  {
    hide Divisor, SyncUid5;
  }

  /** Without spam, uplink data or stale channels a slot carries a regular sync or channels; off the sync channel, channels. */
  lemma OrdinaryTick(c: Config, s: TxState, i: TickInput)
    requires c.Valid() && !c.airport && !c.mavlink && s.spam == 0
    requires s.spamAfterRate == 0 || !c.hops.OnSyncChannel(s.hopIndex)
    requires !i.rcStale && !i.dataQueued
    requires !s.committing && s.connection != AwaitingModelId && s.phase != PreReceiveGap
    ensures var step := Tick(c, s, i);
            step.air.Sync? ||
            step == Step(s.(nonce := U8(s.nonce + 1), phase := Transmitting, busy := true, dataNext := true), Channels)
    ensures !c.hops.OnSyncChannel(s.hopIndex) ==> !Tick(c, s, i).air.Sync?
  {
    var s1 := s.(nonce := U8(s.nonce + 1), phase := Transmitting, busy := true);
    SendsASync(c, s1, i, NextSyncSlot(c, s1.syncSlot));
    hide SendSync, Elapsed, NextSyncSlot;
  }

  lemma SendsASync(c: Config, s: TxState, i: TickInput, slot: uint8)
    ensures SendSync(c, s, i, slot).air.Sync?
  {
  }

  /** Uplink data off the sync channel: the payload that asks for a telemetry boost and for a sync packet. */
  lemma DataTick(c: Config, s: TxState, i: TickInput)
    requires c.Valid() && !c.airport && !c.mavlink && s.spam == 0 && !c.hops.OnSyncChannel(s.hopIndex)
    requires s.dataNext && s.boost == BoostIdle && !i.rcStale && i.dataQueued
    requires !s.committing && s.connection != AwaitingModelId && s.phase != PreReceiveGap
    ensures Tick(c, s, i) == Step(s.(nonce := U8(s.nonce + 1), phase := Transmitting, busy := true, dataNext := false,
                                     boost := BoostRequested, spam := 1), Data)
  {
    hide SendSync, Elapsed;
  }

  /** Spam goes out in the second and third slot of a dwell. */
  lemma SpamTick(c: Config, s: TxState, i: TickInput)
    requires c.Valid() && s.spam > 0 && !i.rcStale
    requires U8(s.nonce + 1) % c.hops.interval == 1 || U8(s.nonce + 1) % c.hops.interval == 2
    requires !s.committing && s.connection != AwaitingModelId && s.phase != PreReceiveGap
    ensures Tick(c, s, i).air.Sync?
  {
    var s1 := s.(nonce := U8(s.nonce + 1), phase := Transmitting, busy := true);
    SendsASync(c, s1, i, 0);
    hide SendSync, RegularDue;
  }

  const TOCK := TockInput(false, false, true)

  lemma SilentTock(c: RxConfig, s: RxState)
    requires c.Valid() && s.link != Lost && !TelemetrySlot(U8(s.nonce + 1), s.divisor)
    ensures var v := U8(s.nonce + 1);
            Tock(c, s, TOCK) == RxStep(s.(nonce := v, hopIndex := if c.hops.FirstOfDwell(v) then c.hops.Next(s.hopIndex) else s.hopIndex), Quiet)
  {
  }

  lemma AnsweringTock(c: RxConfig, s: RxState)
    requires c.Valid() && s.link != Lost && TelemetrySlot(U8(s.nonce + 1), s.divisor) && !s.answered
    ensures var v, step := U8(s.nonce + 1), Tock(c, s, TOCK);
            && step.reply == Send(LinkStats)
            && step.state == s.(nonce := v, hopIndex := if c.hops.FirstOfDwell(v) then c.hops.Next(s.hopIndex) else s.hopIndex,
                                answered := true, nextKind := Payload, burstCount := 1)
  {
  }

  /** A sync of the slot and index a linked receiver holds changes only its settings. */
  lemma HeldSync(c: RxConfig, s: RxState, packet: SyncPacket)
    requires c.Valid() && Accepts(c, packet) && s.link != Lost && s.modelMatched == ModelMatches(c, packet)
    requires packet.nonce == s.nonce && packet.hopIndex == s.hopIndex
    ensures ReceiveSync(c, s, packet) == SyncSettings(s, packet)
  {
    hide ModelMatches, Divisor, SwitchPending;
  }

  /** The index in use in dwell `k`. */
  function HopOf(p: Pair, k: nat): (index: uint8)
    requires p.Valid()
    ensures index < p.tx.hops.count
  {
    k % p.tx.hops.count
  }

  lemma NextHop(p: Pair, k: nat)
    requires p.Valid()
    ensures p.tx.hops.Next(HopOf(p, k)) == HopOf(p, k + 1)
  {
    Quotients.ModOfMod(k, p.tx.hops.count);
  }

  lemma SmallHop(p: Pair, k: nat)
    requires Bound(p) && k <= 2
    ensures HopOf(p, k) == k && (k < 2 ==> p.tx.hops.Next(k) == k + 1)
  {
    Quotients.QuotientUnique(k, p.tx.hops.count, 0, k);
    Quotients.QuotientUnique(k + 1, p.tx.hops.count, 0, k + 1);
  }

  lemma DwellOf(h: Hops, n: nat)
    requires h.Valid() && h.interval == 4
    ensures h.FirstOfDwell(n) <==> n % 4 == 0
    ensures h.LastOfDwell(n) <==> (n + 1) % 4 == 0
  {
  }

  /** Where slot `n + 1` lies in its dwell, and what that does to either end's index. */
  lemma SlotAfter(p: Pair, n: nat)
    requires Bound(p)
    ensures U8(U8(n) + 1) == U8(n + 1)
    ensures p.tx.hops.FirstOfDwell(U8(n + 1)) <==> (n + 1) % 4 == 0
    ensures p.tx.hops.LastOfDwell(U8(n + 1)) <==> (n + 2) % 4 == 0
    ensures (if (n + 1) % 4 == 0 then p.tx.hops.Next(HopOf(p, n / 4)) else HopOf(p, n / 4)) == HopOf(p, (n + 1) / 4)
    ensures (if (n + 2) % 4 == 0 then p.tx.hops.Next(HopOf(p, (n + 1) / 4)) else HopOf(p, (n + 1) / 4)) == HopOf(p, (n + 2) / 4)
  {
    Quotients.ModOfMod(n, 0x100);
    DwellFollowsWrap(p.tx.hops, n + 1);
    DwellHop(p, n);
    DwellHop(p, n + 1);
    hide HopOf, Hops.Next;
  }

  lemma NextDwell(n: nat)
    ensures (n + 1) / 4 == if (n + 1) % 4 == 0 then n / 4 + 1 else n / 4
  {
  }

  lemma DwellHop(p: Pair, n: nat)
    requires Bound(p)
    ensures (if (n + 1) % 4 == 0 then p.tx.hops.Next(HopOf(p, n / 4)) else HopOf(p, n / 4)) == HopOf(p, (n + 1) / 4)
  {
    NextHop(p, n / 4);
    hide HopOf, Hops.Next;
    NextDwell(n);
  }

  // ----- the events of a slot -----

  /** A tick and a tock take both ends from one slot into the next. */
  lemma EnterSlot(p: Pair, w: World, i: TickInput) returns (v: World)
    requires p.Valid() && Reachable(p, w) && Enabled(p, w, TxTick(i)) && w.rx.link != Lost && w.lead == 0
    ensures Reachable(p, v) && Enabled(p, Next(p, w, TxTick(i)), RxTock(TOCK))
    ensures v == Next(p, Next(p, w, TxTick(i)), RxTock(TOCK))
    ensures var tick, tock := Tick(p.tx, w.tx, i), Tock(p.rx, w.rx, TOCK);
            v == w.(tx := tick.state, rx := tock.state, flight := if tick.air.Sync? then Some(tick.air.packet) else None,
                    primed := Receiving(w.tx), covered := w.primed, txOnAir := !tick.air.Silent?,
                    rxOnAir := !tock.reply.Quiet?, tickDivisor := w.tx.divisor, tockDivisor := w.rx.divisor)
  {
    hide Reachable, Tick, Tock;
    var w1 := Next(p, w, TxTick(i));
    Reach(p, w, TxTick(i));
    v := Next(p, w1, RxTock(TOCK));
    Reach(p, w1, RxTock(TOCK));
  }

  /** A transmission that carried no sync packet, or one that was lost, completes. */
  lemma CompleteSlot(p: Pair, w: World) returns (v: World)
    requires p.Valid() && Reachable(p, w) && w.tx.busy && w.tx.connection != AwaitingModelId
    ensures Reachable(p, v) && v == w.(tx := TxDone(p.tx, w.tx), flight := None, primed := true)
  {
    hide Reachable, TxDone;
    var w1 := w.(flight := None);
    if w.flight.Some? {
      Reach(p, w, Drop);
    }
    v := Next(p, w1, TxDoneIrq);
    Reach(p, w1, TxDoneIrq);
  }

  /** A sync packet that the receiver agrees with is delivered. */
  lemma DeliverHeld(p: Pair, w: World) returns (v: World)
    requires p.Valid() && Reachable(p, w) && w.lead == 0 && w.flight.Some? && Accepts(p.rx, w.flight.value)
    requires var packet := w.flight.value;
             && w.rx.link != Lost && w.rx.modelMatched == ModelMatches(p.rx, packet)
             && packet.nonce == w.rx.nonce && packet.hopIndex == w.rx.hopIndex
    ensures Reachable(p, v) && v.rx == SyncSettings(w.rx, w.flight.value)
    ensures v == w.(rx := v.rx, flight := None, rxOnAir := v.rxOnAir)
  {
    HeldSync(p.rx, w.rx, w.flight.value);
    hide Reachable, ReceiveSync, Accepts, ModelMatches;
    v := Next(p, w, Deliver);
    Reach(p, w, Deliver);
  }

  // ----- a link that has carried nothing unusual -----

  /** Slot `n` is over at both ends. */
  predicate Between(p: Pair, w: World, n: nat, divisor: uint8)
    requires Bound(p)
  {
    && w.tx.nonce == w.rx.nonce == U8(n) && w.lead == 0 && w.flight.None?
    && !w.tx.busy && !w.tx.committing && w.tx.connection == Disconnected
    && w.tx.spam == 0 && w.tx.spamAfterRate == 0
    && w.rx.link != Lost && w.rx.modelMatched == (p.tx.uid5 == MarkedUid(p.rx.uid5, p.rx.modelId))
    && w.tx.divisor == w.rx.divisor == divisor
    && w.rx.hopIndex == HopOf(p, n / 4)
  }

  predicate Cruising(p: Pair, w: World, n: nat)
    requires Bound(p)
  {
    Between(p, w, n, 1) && w.tx.boost == BoostIdle && w.tx.phase == Transmitting && w.tx.hopIndex == HopOf(p, (n + 1) / 4)
  }

  lemma FirstTick(p: Pair, clock: Clock)
    requires Bound(p) && FirstSyncDue(p, clock)
    ensures Tick(p.tx, PowerUp().tx, Input(clock, 1)).air.Sync?
  {
    assert Elapsed(clock(1), 0) == clock(1);
    hide SendSync;
  }

  /** The first regular sync packet, and its delivery. */
  lemma FirstSync(p: Pair, clock: Clock) returns (v: World)
    requires Bound(p) && FirstSyncDue(p, clock)
    ensures Reachable(p, v) && Between(p, v.(tx := v.tx.(busy := false)), 1, Divisor(BaseRatio(p.tx)))
    ensures v.rx.link == Tentative && !v.rx.answered
    ensures v.tx.phase == Transmitting && v.tx.hopIndex == 0 && v.tx.busy && v.tx.boost == BoostIdle
  {
    PowerUpIsReachable(p);
    var w0, i := PowerUp(), Input(clock, 1);
    FirstTick(p, clock);
    SyncTick(p.tx, w0.tx, i);
    PacketIsAccepted(p, w0.tx);
    hide Reachable, Tick, Divisor, Accepts, EffectiveRatio, PacketAfter;
    var w1 := Next(p, w0, TxTick(i));
    Reach(p, w0, TxTick(i));
    v := Next(p, w1, Deliver);
    Reach(p, w1, Deliver);
  }

  lemma StartCruising(p: Pair, clock: Clock) returns (v: World)
    requires Bound(p) && FirstSyncDue(p, clock) && p.tx.requestedTlm == TLM_NO_TLM
    ensures Reachable(p, v) && Cruising(p, v, 1) && v.rx.link == Tentative && !v.rx.answered
  {
    var w := FirstSync(p, clock);
    HalfIsTwo();
    hide Reachable, Divisor;
    v := Next(p, w, TxDoneIrq);
    Reach(p, w, TxDoneIrq);
  }

  lemma HalfIsTwo()
    ensures Divisor(TLM_1_2) == 2 && Divisor(TLM_NO_TLM) == 1
  {
    assert Shl1(1) == 2;
  }

  /** Both ends idle between two slots of one number, in agreement, with nothing but ordinary slots to come. */
  predicate Idle(p: Pair, w: World)
    requires Bound(p)
  {
    && w.rx.nonce == w.tx.nonce && w.lead == 0 && w.flight.None? && w.rx.link != Lost
    && w.rx.modelMatched == (p.tx.uid5 == MarkedUid(p.rx.uid5, p.rx.modelId))
    && !w.tx.busy && !w.tx.committing && w.tx.connection == Disconnected && w.tx.boost == BoostIdle
    && w.tx.spam == 0 && w.tx.spamAfterRate == 0 && w.tx.phase != PreReceiveGap
    && w.tx.divisor == w.rx.divisor == Divisor(BaseRatio(p.tx))
  }

  /** What the receiver keeps of a slot whose sync packet, if any, it already agrees with. */
  function Heard(c: RxConfig, s: RxState, air: Air): RxState {
    if air.Sync? then SyncSettings(s, air.packet) else s
  }

  /** A tick of an ordinary slot: either packet leaves the boost, the divisor and the index alone. */
  lemma IdleTick(p: Pair, w: World, i: TickInput)
    requires Bound(p) && Idle(p, w) && !i.rcStale && !i.dataQueued && !i.armed
    ensures var step, n := Tick(p.tx, w.tx, i), U8(w.tx.nonce + 1);
            && (step.air.Sync? || step.air == Channels)
            && step.state == w.tx.(nonce := n, phase := Transmitting, busy := true, dataNext := step.state.dataNext,
                                   syncSlot := step.state.syncSlot, syncSentMs := step.state.syncSentMs)
            && (step.air.Sync? ==> step.air.packet == PacketAfter(p.tx, w.tx))
            && (!p.tx.hops.OnSyncChannel(w.tx.hopIndex) ==> step.air == Channels && step.state.dataNext)
  {
    OrdinaryTick(p.tx, w.tx, i);
    if Tick(p.tx, w.tx, i).air.Sync? {
      SyncTick(p.tx, w.tx, i);
    }
    hide Tick, Divisor, PacketAfter;
  }

  /** The events of an ordinary slot up to the transmit-done, a sync packet delivered. */
  lemma IdleEvents(p: Pair, w: World, i: TickInput) returns (v: World)
    requires Bound(p) && Reachable(p, w) && Idle(p, w) && !i.rcStale && !i.dataQueued && !i.armed
    requires !TelemetrySlot(U8(w.tx.nonce + 1), w.rx.divisor)
    requires var n, h := U8(w.tx.nonce + 1), p.tx.hops;
             w.tx.hopIndex == if h.FirstOfDwell(n) then h.Next(w.rx.hopIndex) else w.rx.hopIndex
    ensures Reachable(p, v) && v.lead == 0 && v.flight.None?
    ensures var n, step := U8(w.tx.nonce + 1), Tick(p.tx, w.tx, i);
            && v.tx == step.state
            && v.rx == Heard(p.rx, w.rx.(nonce := n, hopIndex := w.tx.hopIndex), step.air)
            && v.rx.divisor == w.rx.divisor
  {
    IdleTick(p, w, i);
    SilentTock(p.rx, w.rx);
    PacketIsAccepted(p, w.tx);
    hide Reachable, Next, Enabled, Tick, Tock, Hops.Next, Hops.FirstOfDwell, U8, TelemetrySlot, Accepts, Divisor, EffectiveRatio, MarkedUid;
    TickEnabled(p, w, i);
    v := EnterSlot(p, w, i);
    if v.flight.Some? {
      v := DeliverHeld(p, v);
    }
  }

  lemma TickEnabled(p: Pair, w: World, i: TickInput)
    requires p.Valid() && !w.tx.busy && w.tx.connection == Disconnected && w.flight.None? && w.lead == 0
    ensures Enabled(p, w, TxTick(i))
  {
  }

  /** An ordinary slot, carried through at both ends. */
  lemma OrdinarySlot(p: Pair, w: World, n: nat, divisor: uint8, clock: Clock) returns (v: World)
    requires Bound(p) && Reachable(p, w) && Between(p, w, n, divisor) && w.tx.phase != PreReceiveGap
    requires w.tx.boost == BoostIdle && divisor == Divisor(BaseRatio(p.tx)) && w.tx.hopIndex == HopOf(p, (n + 1) / 4)
    requires !TelemetrySlot(U8(n + 1), divisor)
    ensures Reachable(p, v) && Between(p, v, n + 1, divisor) && v.tx.boost == BoostIdle
    ensures v.tx.hopIndex == HopOf(p, (n + 2) / 4)
    ensures v.tx.phase == if TelemetrySlot(U8(n + 1) + 1, divisor) then PreReceiveGap else Transmitting
    ensures v.rx.link == w.rx.link && v.rx.answered == w.rx.answered
    ensures !p.tx.hops.OnSyncChannel(w.tx.hopIndex) ==> v.tx.dataNext
  {
    SlotAfter(p, n);
    IdleTick(p, w, Input(clock, n + 1));
    hide Reachable, Tick, HopOf, Hops.Next, Hops.FirstOfDwell, Hops.LastOfDwell, U8, TelemetrySlot, MarkedUid, Divisor;
    var w1 := IdleEvents(p, w, Input(clock, n + 1));
    v := CompleteSlot(p, w1);
  }

  lemma CruiseSlot(p: Pair, w: World, n: nat, clock: Clock) returns (v: World)
    requires Bound(p) && p.tx.requestedTlm == TLM_NO_TLM && Reachable(p, w) && Cruising(p, w, n)
    ensures Reachable(p, v) && Cruising(p, v, n + 1) && v.rx.link == w.rx.link && v.rx.answered == w.rx.answered
    ensures !p.tx.hops.OnSyncChannel(w.tx.hopIndex) ==> v.tx.dataNext
  {
    HalfIsTwo();
    hide Reachable, HopOf, Between, Divisor;
    v := OrdinarySlot(p, w, n, 1, clock);
  }

  lemma {:induction false} CruiseTo(p: Pair, n: nat, clock: Clock) returns (v: World)
    requires Bound(p) && FirstSyncDue(p, clock) && p.tx.requestedTlm == TLM_NO_TLM && n >= 1
    ensures Reachable(p, v) && Cruising(p, v, n) && v.rx.link == Tentative
    decreases n
  {
    if n == 1 {
      v := StartCruising(p, clock);
    } else {
      var w := CruiseTo(p, n - 1, clock);
      v := CruiseSlot(p, w, n - 1, clock);
    }
  }

  const SLOTS_TO_ESTABLISH := 100 // a whole window of link quality

  /** After enough slots for its link quality to be complete, the receiver calls the link connected. */
  lemma Connect(p: Pair, n: nat, clock: Clock) returns (v: World)
    requires Bound(p) && FirstSyncDue(p, clock) && p.tx.requestedTlm == TLM_NO_TLM && n > SLOTS_TO_ESTABLISH
    ensures Reachable(p, v) && Cruising(p, v, n) && v.rx.link == Established
  {
    var w := CruiseTo(p, n, clock);
    hide Reachable, HopOf, MarkedUid;
    v := Next(p, w, RxEstablishes);
    Reach(p, w, RxEstablishes);
  }

  /** The table entry a dwell uses is that of its number. */
  lemma SameHopOf(p: Pair, k: nat)
    requires p.Valid()
    ensures SameHop(p.tx.hops, HopOf(p, k), k)
  {
    Quotients.QuotientUnique(HopOf(p, k), p.tx.hops.count, 0, HopOf(p, k));
  }

  lemma BetweenIsAligned(p: Pair, w: World, n: nat, divisor: uint8)
    requires Bound(p) && Between(p, w, n, divisor) && ValidDivisor(divisor) && PhaseFits(w.tx)
    requires SameHop(p.tx.hops, w.tx.hopIndex, (n + 1) / 4)
    ensures Aligned(p, w)
  {
    hide Ahead, SameHop, HopOf, U8;
    FitsU8(n);
    AheadOfDwell(p, n);
    SameHopBothWays(p.tx.hops, w.tx.hopIndex, (n + 1) / 4, Ahead(p.tx.hops, U8(n), HopOf(p, n / 4), 1));
  }

  lemma FitsU8(n: nat)
    ensures U8(U8(n) + 0) == U8(n)
  {
  }

  lemma SameHopBothWays(h: Hops, a: int, b: int, c: int)
    requires h.Valid() && SameHop(h, a, b) && SameHop(h, c, b)
    ensures SameHop(h, a, c)
  {
  }

  /** One tock on from slot `n`, the receiver is in the dwell of slot `n + 1`. */
  lemma AheadOfDwell(p: Pair, n: nat)
    requires Bound(p)
    ensures SameHop(p.tx.hops, Ahead(p.tx.hops, U8(n), HopOf(p, n / 4), 1), (n + 1) / 4)
  {
    hide SameHop, HopOf, Ahead, U8, Hops.FirstOfDwell, Hops.LastOfDwell, Hops.Next;
    var h: Hops, index: int := p.tx.hops, HopOf(p, n / 4);
    AheadOneMore(h, U8(n), index, 0);
    AheadNothing(h, U8(n), index);
    SlotAfter(p, n);
    DwellFollowsWrap(h, U8(n) + 1);
    SameHopOf(p, n / 4);
    SuccessorsSameHop(h, index, n / 4);
    var last, dwell, next := (n + 1) % 4 == 0, n / 4, (n + 1) / 4;
    NextDwell(n);
    assert Ahead(h, U8(n), index, 1) == if last then index + 1 else index;
  }

  lemma AheadNothing(h: Hops, nonce: int, index: int)
    requires h.Valid()
    ensures Ahead(h, nonce, index, 0) == index
  {
  }

  lemma SuccessorsSameHop(h: Hops, a: int, b: int)
    requires h.Valid() && SameHop(h, a, b)
    ensures SameHop(h, a + 1, b + 1)
  {
    SuccessorsAgree(a, b, h.count);
  }

  lemma CruisingIsAligned(p: Pair, w: World, n: nat)
    requires Bound(p) && Cruising(p, w, n)
    ensures Aligned(p, w)
  {
    SameHopOf(p, (n + 1) / 4);
    hide Aligned, SameHop;
    BetweenIsAligned(p, w, n, 1);
  }

  // ----- agreement lost -----

  lemma KeepsCommitting(p: Pair, w: World, i: TickInput)
    requires p.Valid() && Enabled(p, w, TxTick(i)) && ValidDivisor(w.tx.divisor)
    ensures Next(p, w, TxTick(i)).tx.committing == w.tx.committing
  {
    if !w.tx.committing {
      TickStaysInTable(p.tx, w.tx, i);
    }
    hide Tick;
  }

  /** A silent slot at the end of a dwell loses the agreement there and then. */
  lemma StaleSlot(p: Pair, w: World, n: nat, stale: TickInput)
    requires Bound(p) && Cruising(p, w, n) && (n + 2) % 4 == 0 && stale.rcStale
    ensures Enabled(p, w, TxTick(stale))
    ensures var v := Next(p, w, TxTick(stale));
            !v.tx.committing && !Agree(p.tx.hops, v.tx, v.rx, v.lead)
  {
    CruisingIsAligned(p, w, n);
    SlotAfter(p, n);
    hide Agree, Aligned, HopOf, Hops.Next, Hops.LastOfDwell, Hops.FirstOfDwell, Tick, CommitTick, U8;
    assert LosesHop(p.tx, w.tx, stale);
    KeepsCommitting(p, w, stale);
    TickBreaksAgreement(p, w, stale);
  }

  /** Channels stale in the last slot of any dwell of a connected link: the agreement is lost. */
  lemma SilentSlotLosesAgreement(p: Pair, dwell: nat, clock: Clock) returns (w: World, stale: TickInput)
    requires Bound(p) && FirstSyncDue(p, clock) && p.tx.requestedTlm == TLM_NO_TLM && 4 * dwell >= SLOTS_TO_ESTABLISH
    ensures Reachable(p, w) && Aligned(p, w) && w.rx.link == Established && w.tx.nonce == U8(4 * dwell + 2)
    ensures Enabled(p, w, TxTick(stale))
    ensures var v := Next(p, w, TxTick(stale));
            Reachable(p, v) && !v.tx.committing && !Agree(p.tx.hops, v.tx, v.rx, v.lead)
  {
    hide Reachable, Agree, Aligned, Next, Enabled, U8;
    var n := 4 * dwell + 2;
    w := Connect(p, n, clock);
    stale := Input(clock, n + 1).(rcStale := true);
    CruisingIsAligned(p, w, n);
    StaleSlot(p, w, n, stale);
    Reach(p, w, TxTick(stale));
  }

  /** Slot `n` is over in the middle of a commit, whose hops have been counted but never wrapped. */
  predicate Drifting(p: Pair, w: World, n: nat)
    requires Bound(p)
  {
    Between(p, w, n, 1) && w.tx.boost == BoostIdle && w.tx.phase == Transmitting && w.tx.hopIndex == (n + 1) / 4
  }

  lemma DriftTick(p: Pair, s: TxState, n: nat, i: TickInput)
    requires Bound(p) && s.committing && (n + 2) / 4 <= 255 && s.nonce == U8(n) && s.hopIndex == (n + 1) / 4
    ensures Tick(p.tx, s, i) == Step(s.(nonce := U8(n + 1), hopIndex := (n + 2) / 4), Silent)
  {
    hide HopOf, Hops.Next, Hops.LastOfDwell, Hops.FirstOfDwell, U8, SendRc;
    SlotAfter(p, n);
    FitsByte((n + 2) / 4);
    var hop, last := (n + 1) / 4, (n + 2) % 4 == 0;
    assert (n + 2) / 4 == if last then hop + 1 else hop by {
      NextDwell(n + 1);
    }
    assert p.tx.hops.LastOfDwell(U8(n + 1)) <==> last;
    assert CommitTick(p.tx, s) == s.(nonce := U8(n + 1), hopIndex := if last then U8(hop + 1) else hop);
  }

  lemma FitsByte(n: nat)
    requires n < 0x100
    ensures U8(n) == n
  {
  }

  lemma DriftSlot(p: Pair, w: World, n: nat, clock: Clock) returns (v: World)
    requires Bound(p) && Reachable(p, w) && w.tx.committing && (n + 2) / 4 <= 255
    requires Drifting(p, w.(tx := w.tx.(committing := false)), n)
    ensures Reachable(p, v) && v.tx.committing && Drifting(p, v.(tx := v.tx.(committing := false)), n + 1)
    ensures v.rx.link == w.rx.link
  {
    var i := Input(clock, n + 1);
    SilentTock(p.rx, w.rx);
    SlotAfter(p, n);
    DriftTick(p, w.tx, n, i);
    hide Reachable, Next, Tick, Tock, HopOf, Hops.Next, Hops.FirstOfDwell, Hops.LastOfDwell, U8, MarkedUid;
    v := EnterSlot(p, w, i);
  }

  /** A commit that starts before the last hop of the table and goes on past it. */
  lemma {:induction false} DriftTo(p: Pair, n: nat, clock: Clock) returns (v: World)
    requires Bound(p) && FirstSyncDue(p, clock) && p.tx.requestedTlm == TLM_NO_TLM
    requires 4 * p.tx.hops.count - 2 <= n && (n + 1) / 4 <= 255
    ensures Reachable(p, v) && v.tx.committing && Drifting(p, v.(tx := v.tx.(committing := false)), n)
    ensures v.rx.link == Established
    decreases n
  {
    var last := 4 * p.tx.hops.count - 2;
    if n == last {
      var w := Connect(p, n, clock);
      Quotients.QuotientUnique(p.tx.hops.count - 1, p.tx.hops.count, 0, p.tx.hops.count - 1);
      assert (n + 1) / 4 == p.tx.hops.count - 1;
      hide Reachable, MarkedUid;
      v := Next(p, w, CommitBegins);
      Reach(p, w, CommitBegins);
    } else {
      var w := DriftTo(p, n - 1, clock);
      v := DriftSlot(p, w, n - 1, clock);
    }
  }

  /** On every table that does not divide the byte, a commit of enough slots hops off the byte and loses the agreement. */
  lemma LongCommitLosesAgreement(p: Pair, clock: Clock) returns (w: World, i: TickInput)
    requires Bound(p) && FirstSyncDue(p, clock) && p.tx.requestedTlm == TLM_NO_TLM && 256 % p.tx.hops.count != 0
    ensures Reachable(p, w) && Aligned(p, w) && w.rx.link == Established && Enabled(p, w, TxTick(i))
    ensures var v := Next(p, w, TxTick(i));
            Reachable(p, v) && v.tx.committing && !Agree(p.tx.hops, v.tx, v.rx, v.lead)
  {
    var n := 1022;
    w := DriftTo(p, n, clock);
    i := Input(clock, n + 1);
    DriftIsAligned(p, w, n);
    SlotAfter(p, n);
    hide Reachable, Agree, Aligned, HopOf, Hops.Next, Tick, MarkedUid;
    Reach(p, w, TxTick(i));
    KeepsCommitting(p, w, i);
    assert RunsOffByte(p.tx, w.tx);
    TickBreaksAgreement(p, w, i);
  }

  lemma DriftIsAligned(p: Pair, w: World, n: nat)
    requires Bound(p) && w.tx.committing && Drifting(p, w.(tx := w.tx.(committing := false)), n)
    ensures Aligned(p, w)
  {
    var v := w.(tx := w.tx.(committing := false));
    BetweenIsAligned(p, v, n, 1);
    assert Settled(p.tx.hops, v.tx) == Settled(p.tx.hops, w.tx);
    hide Ahead, SameHop;
  }

  // ----- a healthy link demoted -----

  /** A short commit over the table's last hop: the transmitter holds `count`, the receiver entry 0. */
  predicate PastTable(p: Pair, w: World, n: nat)
    requires Bound(p)
  {
    Between(p, w, n, 1) && w.tx.boost == BoostIdle && w.tx.phase == Transmitting && w.tx.hopIndex == p.tx.hops.count && (n + 1) % 4 != 0
  }

  /** An ordinary slot past the table; should it carry a sync packet, that one is lost. */
  lemma PastSlot(p: Pair, w: World, n: nat, clock: Clock) returns (v: World)
    requires Bound(p) && Reachable(p, w) && Between(p, w, n, 1) && w.tx.boost == BoostIdle && w.tx.phase == Transmitting
    requires p.tx.requestedTlm == TLM_NO_TLM && (n + 2) % 4 != 0
    ensures Reachable(p, v) && Between(p, v, n + 1, 1) && v.tx.boost == BoostIdle && v.tx.phase == Transmitting
    ensures v.tx.hopIndex == w.tx.hopIndex && v.rx.link == w.rx.link
  {
    var i := Input(clock, n + 1);
    HalfIsTwo();
    IdleTick(p, w, i);
    SilentTock(p.rx, w.rx);
    SlotAfter(p, n);
    hide Reachable, Next, Tick, Tock, HopOf, Hops.Next, Hops.FirstOfDwell, Hops.LastOfDwell, U8, MarkedUid, Divisor;
    var w1 := EnterSlot(p, w, i);
    v := CompleteSlot(p, w1);
  }

  lemma StepPastTable(p: Pair, clock: Clock) returns (v: World, n: nat)
    requires Bound(p) && FirstSyncDue(p, clock) && p.tx.requestedTlm == TLM_NO_TLM && p.tx.hops.count < 256
    ensures n == 4 * p.tx.hops.count && Reachable(p, v) && PastTable(p, v, n) && v.rx.link == Established
  {
    n := 4 * p.tx.hops.count;
    assert n / 4 == p.tx.hops.count;
    var w := DriftTo(p, n - 1, clock);
    hide Reachable, HopOf, MarkedUid;
    var w1 := Next(p, w, CommitEnds);
    Reach(p, w, CommitEnds);
    assert Drifting(p, w1, n - 1);
    v := PastSlot(p, w1, n - 1, clock);
  }

  lemma OneMod4(n: nat)
    requires n % 4 == 0
    ensures U8(n + 1) % 4 == 1
  {
    WrapKeepsResidue(n + 1, 4);
  }

  /** A change of configuration asks for sync packets: the next goes out in the slot that follows. */
  lemma RequestedSync(p: Pair, w: World, clock: Clock, n: nat) returns (v: World)
    requires Bound(p) && Reachable(p, w) && w.lead == 0 && w.flight.None? && w.rx.link != Lost
    requires !w.tx.busy && !w.tx.committing && w.tx.connection == Disconnected
    requires w.tx.phase != PreReceiveGap && U8(w.tx.nonce + 1) % 4 == 1
    ensures Reachable(p, v)
    ensures v.tx == w.tx.(nonce := U8(w.tx.nonce + 1), phase := Transmitting, busy := true, spam := SYNC_SPAM - 1,
                          spamAfterRate := v.tx.spamAfterRate, syncSlot := v.tx.syncSlot, syncSentMs := v.tx.syncSentMs,
                          boost := if w.tx.boost == BoostRequested then Boosting else BoostIdle,
                          divisor := Divisor(EffectiveRatio(p.tx, w.tx, false)))
    ensures var packet := PacketAfter(p.tx, w.tx).(rateIndex := p.tx.requestedRateIndex);
            v == w.(tx := v.tx, rx := Tock(p.rx, w.rx, TOCK).state, flight := Some(packet), primed := false,
                    covered := w.primed, txOnAir := true, rxOnAir := v.rxOnAir, tickDivisor := w.tx.divisor,
                    tockDivisor := w.rx.divisor)
  {
    var i := Input(clock, n);
    var w1 := Next(p, w, TxRespams);
    SpamTick(p.tx, w1.tx, i);
    SyncTick(p.tx, w1.tx, i);
    assert PacketAfter(p.tx, w1.tx) == PacketAfter(p.tx, w.tx).(rateIndex := p.tx.requestedRateIndex);
    hide Reachable, Tick, Tock, Divisor, SyncUid5, PacketAfter, EffectiveRatio;
    Reach(p, w, TxRespams);
    v := EnterSlot(p, w1, i);
  }

  lemma SyncPastTable(p: Pair, w: World, n: nat, clock: Clock) returns (v: World)
    requires Bound(p) && p.tx.requestedTlm == TLM_NO_TLM && Reachable(p, w)
    requires PastTable(p, w, n) && n % 4 == 0
    ensures Reachable(p, v) && Between(p, v.(flight := None, tx := v.tx.(busy := false, spam := 0, spamAfterRate := 0)), n + 1, 1)
    ensures v.flight.Some? && Accepts(p.rx, v.flight.value) && v.tx.busy && v.tx.phase == Transmitting
    ensures v.flight.value.hopIndex == v.tx.hopIndex == p.tx.hops.count && v.flight.value.nonce == U8(n + 1)
    ensures v.flight.value.uid5 == p.tx.uid5 && v.rx.link == w.rx.link
  {
    SlotAfter(p, n);
    SilentTock(p.rx, w.rx);
    PacketIsAccepted(p, w.tx);
    HalfIsTwo();
    OneMod4(n);
    hide Reachable, Tock, HopOf, Hops.Next, Hops.FirstOfDwell, Hops.LastOfDwell, U8, Divisor, MarkedUid;
    v := RequestedSync(p, w, clock, n + 1);
  }

  /** The next sync packet then throws the receiver, connected and in agreement, back to tentative. */
  lemma CommitDemotesReceiver(p: Pair, clock: Clock) returns (w: World)
    requires Bound(p) && FirstSyncDue(p, clock) && p.tx.requestedTlm == TLM_NO_TLM && p.tx.hops.count < 256
    ensures Reachable(p, w) && Aligned(p, w) && Enabled(p, w, Deliver)
    ensures w.rx.link == Established && w.rx.modelMatched == ModelMatches(p.rx, w.flight.value)
    ensures Reachable(p, Next(p, w, Deliver)) && Next(p, w, Deliver).rx.link == Tentative
  {
    var w0, n := StepPastTable(p, clock);
    w := SyncPastTable(p, w0, n, clock);
    SyncPastIsAligned(p, w, n);
    hide Reachable, Aligned, HopOf;
    Reach(p, w, Deliver);
  }

  lemma SyncPastIsAligned(p: Pair, w: World, n: nat)
    requires Bound(p) && n == 4 * p.tx.hops.count
    requires Between(p, w.(flight := None, tx := w.tx.(busy := false, spam := 0, spamAfterRate := 0)), n + 1, 1)
    requires w.tx.busy && w.tx.phase == Transmitting && w.flight.Some?
    requires w.flight.value.hopIndex == w.tx.hopIndex == p.tx.hops.count && w.flight.value.nonce == U8(n + 1)
    ensures Aligned(p, w)
  {
    assert (n + 2) / 4 == p.tx.hops.count && (n + 3) % 4 != 0;
    var v := w.(flight := None, tx := w.tx.(busy := false, spam := 0, spamAfterRate := 0));
    assert SameHop(p.tx.hops, v.tx.hopIndex, (n + 2) / 4);
    BetweenIsAligned(p, v, n + 1, 1);
    SlotAfter(p, n);
    DwellFollowsWrap(p.tx.hops, w.tx.nonce);
    AheadOneMore(p.tx.hops, w.tx.nonce, w.flight.value.hopIndex, 0);
    AheadNothing(p.tx.hops, w.tx.nonce, w.flight.value.hopIndex);
    hide Ahead, U8;
  }

  // ----- both ends on the air -----

  lemma GapTick(c: Config, s: TxState, i: TickInput)
    requires c.Valid() && s.phase == PreReceiveGap && !s.committing && s.connection != AwaitingModelId
    ensures Tick(c, s, i) == Step(s.(nonce := U8(s.nonce + 1), phase := ExpectingTelem), Silent)
  {
  }

  lemma GapEvents(p: Pair, w: World, i: TickInput) returns (v: World)
    requires Bound(p) && Reachable(p, w) && w.lead == 0 && w.flight.None? && w.rx.link != Lost
    requires !w.tx.busy && !w.tx.committing && w.tx.connection == Disconnected && w.tx.phase == PreReceiveGap
    requires TelemetrySlot(U8(w.rx.nonce + 1), w.rx.divisor) && !w.rx.answered
    ensures Reachable(p, v) && v.lead == 0 && v.flight.None?
    ensures v.tx == w.tx.(nonce := U8(w.tx.nonce + 1), phase := ExpectingTelem)
    ensures var n, h := U8(w.rx.nonce + 1), p.tx.hops;
            v.rx == w.rx.(nonce := n, hopIndex := if h.FirstOfDwell(n) then h.Next(w.rx.hopIndex) else w.rx.hopIndex,
                          answered := false, nextKind := Payload, burstCount := 1)
  {
    hide Reachable, Tick, Tock, Hops.Next, Hops.FirstOfDwell, U8, TelemetrySlot;
    GapTick(p.tx, w.tx, i);
    AnsweringTock(p.rx, w.rx);
    var w1 := EnterSlot(p, w, i);
    v := Next(p, w1, RxMidTick);
    Reach(p, w1, RxMidTick);
  }

  /** A telemetry slot: the transmitter listens, the receiver replies. */
  lemma GapSlot(p: Pair, w: World, n: nat, clock: Clock) returns (v: World)
    requires Bound(p) && Reachable(p, w) && Between(p, w, n, 2)
    requires w.tx.phase == PreReceiveGap && TelemetrySlot(U8(n + 1), 2) && !w.rx.answered
    ensures Reachable(p, v) && Between(p, v, n + 1, 2) && !v.rx.answered
    ensures v.tx == w.tx.(nonce := U8(n + 1), phase := ExpectingTelem)
  {
    hide Reachable, HopOf, Hops.Next, Hops.FirstOfDwell, Hops.LastOfDwell, U8, TelemetrySlot, MarkedUid;
    SlotAfter(p, n);
    v := GapEvents(p, w, Input(clock, n + 1));
  }

  /** Four slots after power-up: a linked receiver has replied in two of them. */
  predicate FourSlotsIn(p: Pair, w: World)
    requires Bound(p)
  {
    Between(p, w, 4, 2) && w.tx.phase == ExpectingTelem && !w.rx.answered && w.tx.hopIndex == HopOf(p, 1)
  }

  lemma FourSlots(p: Pair, clock: Clock) returns (v: World)
    requires Bound(p) && FirstSyncDue(p, clock) && p.tx.requestedTlm == TLM_1_2
    ensures Reachable(p, v) && FourSlotsIn(p, v)
  {
    HalfIsTwo();
    var w0 := FirstSync(p, clock);
    SmallHop(p, 0);
    var w1 := Next(p, w0, TxDoneIrq);
    assert w1.tx == w0.tx.(busy := false, phase := PreReceiveGap);
    hide Reachable, Divisor, HopOf, Hops.Next, MarkedUid, TxDone;
    Reach(p, w0, TxDoneIrq);
    var w2 := GapSlot(p, w1, 1, clock);
    var w3 := OrdinarySlot(p, w2, 2, 2, clock);
    v := GapSlot(p, w3, 3, clock);
  }

  lemma ReachableIsInStep(p: Pair, w: World)
    requires p.Valid() && Reachable(p, w)
    ensures InStep(w)
  {
    var events :| Run(p, PowerUp(), events) && After(p, PowerUp(), events) == w;
    RunKeepsInStep(p, PowerUp(), events);
  }

  /** A slot in which the transmitter sends and the receiver replies, inside a dwell. */
  lemma CollidingSlot(p: Pair, w: World, i: TickInput) returns (v: World)
    requires Bound(p) && Reachable(p, w) && w.rx.link != Lost && w.lead == 0 && w.flight.None?
    requires !w.tx.busy && w.tx.connection == Disconnected && w.tx.nonce == w.rx.nonce
    requires TxSends(p, w, i) && RxReplies(w, TOCK) && !p.tx.hops.FirstOfDwell(U8(w.rx.nonce + 1))
    ensures Reachable(p, v) && Collision(v) && v.covered == w.primed
    ensures v.tickDivisor == w.tx.divisor && v.tockDivisor == w.rx.divisor
    ensures v.tx.hopIndex == w.tx.hopIndex && v.rx.hopIndex == w.rx.hopIndex
  {
    ReachableIsInStep(p, w);
    SlotCollidesExactly(p, w, i, TOCK);
    TickStaysInTable(p.tx, w.tx, i);
    TockFrame(p.rx, w.rx, TOCK);
    hide Reachable, Collision, Next, Tick, Tock, TxSends, RxReplies, InStep;
    v := EnterSlot(p, w, i);
  }

  /** Channels stale for one slot: both ends then send in the telemetry slot after it, on one channel and equal divisors. */
  lemma SilentSlotCollides(p: Pair, clock: Clock) returns (v: World)
    requires Bound(p) && FirstSyncDue(p, clock) && p.tx.requestedTlm == TLM_1_2
    ensures Reachable(p, v) && Collision(v) && !v.covered
    ensures v.tickDivisor == v.tockDivisor == 2 && v.tx.hopIndex == v.rx.hopIndex
  {
    var w := FourSlots(p, clock);
    var stale := Input(clock, 5).(rcStale := true);
    assert Tick(p.tx, w.tx, stale) == Step(w.tx.(nonce := 5, phase := Transmitting), Silent);
    SilentTock(p.rx, w.rx);
    DwellOf(p.tx.hops, 5);
    DwellOf(p.tx.hops, 6);
    hide Reachable, Next, Tick, Tock, HopOf, Hops.FirstOfDwell, Bound, MarkedUid;
    var w1 := EnterSlot(p, w, stale);
    v := CollidingSlot(p, w1, Input(clock, 6));
  }

  lemma OffSyncChannel(p: Pair)
    requires Bound(p)
    ensures !p.tx.hops.OnSyncChannel(1) && !p.tx.hops.OnSyncChannel(2)
  {
  }

  lemma ThreeOrdinarySlots(p: Pair, clock: Clock) returns (v: World)
    requires Bound(p) && FirstSyncDue(p, clock) && p.tx.requestedTlm == TLM_NO_TLM
    ensures Reachable(p, v) && Between(p, v, 4, 1) && !v.rx.answered
    ensures v.tx.boost == BoostIdle && v.tx.dataNext && v.tx.phase == Transmitting && v.tx.hopIndex == 1
  {
    SmallHop(p, 0);
    SmallHop(p, 1);
    hide Reachable, HopOf, Hops.Next, MarkedUid, Bound, Hops.OnSyncChannel;
    assert !p.tx.hops.OnSyncChannel(1) by {
      OffSyncChannel(p);
    }
    var w1 := StartCruising(p, clock);
    var w2 := CruiseSlot(p, w1, 1, clock);
    var w3 := CruiseSlot(p, w2, 2, clock);
    v := CruiseSlot(p, w3, 3, clock);
  }

  /** With telemetry off, uplink data in slot 5. */
  lemma DataInSlotFive(p: Pair, clock: Clock) returns (v: World)
    requires Bound(p) && FirstSyncDue(p, clock) && p.tx.requestedTlm == TLM_NO_TLM
    ensures Reachable(p, v) && Between(p, v.(tx := v.tx.(spam := 0)), 5, 1) && !v.rx.answered
    ensures v.tx.boost == BoostRequested && v.tx.spam == 1 && v.tx.phase == Transmitting && v.tx.hopIndex == 1
  {
    var w := ThreeOrdinarySlots(p, clock);
    var i := Input(clock, 5).(dataQueued := true);
    DataTick(p.tx, w.tx, i);
    SilentTock(p.rx, w.rx);
    DwellOf(p.tx.hops, 5);
    hide Reachable, HopOf, Hops.Next, Hops.FirstOfDwell, Hops.LastOfDwell, MarkedUid, Tick, Tock;
    hide Next;
    var w1 := EnterSlot(p, w, i);
    v := CompleteSlot(p, w1);
  }

  /** The sync of slot 6, which the data asked for, turns telemetry on for the boost, at both ends. */
  lemma BoostInSlotSix(p: Pair, clock: Clock) returns (v: World)
    requires Bound(p) && FirstSyncDue(p, clock) && p.tx.requestedTlm == TLM_NO_TLM
    ensures Reachable(p, v) && Between(p, v, 6, 2) && !v.rx.answered
    ensures v.tx.boost == Boosting && v.tx.phase == Transmitting && v.tx.hopIndex == 1
  {
    HalfIsTwo();
    var w := DataInSlotFive(p, clock);
    var i := Input(clock, 6);
    assert EffectiveRatio(p.tx, w.tx, false) == TLM_1_2;
    SmallHop(p, 1);
    SpamTick(p.tx, w.tx, i);
    SyncTick(p.tx, w.tx, i);
    PacketIsAccepted(p, w.tx);
    SilentTock(p.rx, w.rx);
    DwellOf(p.tx.hops, 6);
    hide Reachable, HopOf, Hops.Next, Hops.FirstOfDwell, Hops.LastOfDwell, MarkedUid, Divisor, EffectiveRatio, Accepts, Tick, Tock;
    hide Next;
    var w1 := EnterSlot(p, w, i);
    var w2 := DeliverHeld(p, w1);
    v := CompleteSlot(p, w2);
  }

  lemma ChannelsInSlotSeven(p: Pair, clock: Clock) returns (v: World)
    requires Bound(p) && FirstSyncDue(p, clock) && p.tx.requestedTlm == TLM_NO_TLM
    ensures Reachable(p, v) && Between(p, v, 7, 2) && !v.rx.answered
    ensures v.tx.boost == Boosting && v.tx.phase == PreReceiveGap && v.tx.hopIndex == 2
  {
    var w := BoostInSlotSix(p, clock);
    var i := Input(clock, 7);
    OrdinaryTick(p.tx, w.tx, i);
    SilentTock(p.rx, w.rx);
    DwellOf(p.tx.hops, 7);
    SmallHop(p, 1);
    hide Reachable, Next, Bound, HopOf, Hops.Next, Hops.FirstOfDwell, Hops.LastOfDwell, MarkedUid, Tick, Tock;
    var w1 := EnterSlot(p, w, i);
    v := CompleteSlot(p, w1);
  }

  lemma BoostedSlotEight(p: Pair, clock: Clock) returns (v: World)
    requires Bound(p) && FirstSyncDue(p, clock) && p.tx.requestedTlm == TLM_NO_TLM
    ensures Reachable(p, v) && Between(p, v, 8, 2) && !v.rx.answered
    ensures v.tx.boost == Boosting && v.tx.phase == ExpectingTelem && v.tx.hopIndex == 2
  {
    hide Reachable, Between;
    var w := ChannelsInSlotSeven(p, clock);
    v := GapSlot(p, w, 7, clock);
  }

  /**
   Telemetry is off, and uplink data boosts it to every second slot. The sync that ends the boost is lost:
   every slot completes, and yet both ends send in a slot that only the receiver still takes for telemetry.
   */
  lemma LostSyncCollides(p: Pair, clock: Clock) returns (v: World)
    requires Bound(p) && FirstSyncDue(p, clock) && p.tx.requestedTlm == TLM_NO_TLM
    ensures Reachable(p, v) && Collision(v) && v.covered
    ensures v.tickDivisor == 1 && v.tockDivisor == 2 && v.tx.hopIndex == v.rx.hopIndex
  {
    HalfIsTwo();
    var w8 := BoostedSlotEight(p, clock);
    assert EffectiveRatio(p.tx, w8.tx, false) == TLM_NO_TLM ;
    SmallHop(p, 2);
    DwellOf(p.tx.hops, 9);
    DwellOf(p.tx.hops, 10);
    SilentTock(p.rx, w8.rx);
    hide Reachable, HopOf, Hops.Next, Hops.FirstOfDwell, Hops.LastOfDwell, MarkedUid, Divisor, EffectiveRatio, Tock, Bound, PacketAfter;
    var w9 := RequestedSync(p, w8, clock, 9);
    var w12 := CompleteSlot(p, w9);
    v := CollidingSlot(p, w12, Input(clock, 10));
  }
}
