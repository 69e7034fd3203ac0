/**
 The two radios side by side. Their timers fire independently: between them the transmitter may be
 up to one slot ahead of or behind the receiver, a sync packet may be in flight, and commits, silent
 slots and lost packets may happen at any point.
 */
module SlotRuns {
  import opened Words
  import opened Rates
  import opened Hopping
  import opened TxSlots
  import opened RxSlots
  import Quotients

  datatype Pair = Pair(tx: Config, rx: RxConfig) {
    predicate Valid() {
      tx.Valid() && rx.Valid() && tx.hops == rx.hops
    }
  }

  /**
   Both radios and the history the properties speak of: how many ticks the transmitter is ahead of the
   receiver's tocks, the sync packet in flight, whether the transmitter's slot has completed (and the
   one before it had, when this one began), what is on air, and the divisors each end last acted on.
   */
  datatype World = World(tx: TxState, rx: RxState, lead: int, flight: Option<SyncPacket>,
                         primed: bool, covered: bool, txOnAir: bool, rxOnAir: bool,
                         tickDivisor: uint8, tockDivisor: uint8)

  datatype Event =
    | TxTick(tick: TickInput)
    | TxDoneIrq
    | RxTock(tock: TockInput)
    | RxMidTick
    | Deliver
    | Drop
    | CommitBegins
    | CommitEnds
    | TxHears(heardMs: uint32)
    | TxPolls(nowMs: uint32)
    | TxRespams
    | RxPolls
    | RxEstablishes
    | RxLoses

  /** Both radios as their constructors leave them: no link, nothing on the air, no telemetry slots yet. */
  function PowerUp(): World {
    World(TxState(0, 0, Transmitting, false, false, Disconnected, 1, 0, 0, 0, BoostIdle, false, 0, 0, 0),
          RxState(0, 0, 1, Lost, false, false, 0, SM_WIDE_OR_8CH, 0, LinkStats, 0, 0, false),
          0, None, true, true, false, false, 1, 1)
  }

  /** What the hardware allows: a radio finishes one slot before the next, and the two stay within a slot. */
  predicate Enabled(p: Pair, w: World, e: Event)
    requires p.Valid()
  {
    match e
    case TxTick(_) => !w.tx.busy && w.tx.connection != AwaitingModelId && w.flight.None? && (w.rx.link != Lost ==> w.lead <= 0)
    case TxDoneIrq => w.tx.busy && w.tx.connection != AwaitingModelId
    case RxTock(_) => w.rx.link != Lost && w.lead >= 0 && (w.lead == 0 ==> w.flight.None?)
    case RxMidTick => true
    case Deliver => w.flight.Some? && Accepts(p.rx, w.flight.value) && (w.rx.link != Lost ==> w.lead == 0)
    case Drop => w.flight.Some?
    case CommitBegins => !w.tx.busy && !w.tx.committing && w.tx.spam == 0
    case CommitEnds => w.tx.committing
    case TxHears(_) => true
    case TxPolls(_) => true
    case TxRespams => true
    case RxPolls => true
    case RxEstablishes => w.rx.link == Tentative
    case RxLoses => true
  }

  function Next(p: Pair, w: World, e: Event): World
    requires p.Valid() && Enabled(p, w, e)
  {
    match e
    case TxTick(i) =>
      var step := Tick(p.tx, w.tx, i);
      w.(tx := step.state, lead := if w.rx.link == Lost then 0 else w.lead + 1,
      flight := if step.air.Sync? then Some(step.air.packet) else None,
      primed := Receiving(w.tx), covered := w.primed, txOnAir := !step.air.Silent?,
      tickDivisor := w.tx.divisor)
    case TxDoneIrq => w.(tx := TxDone(p.tx, w.tx), primed := true)
    case RxTock(i) =>
      var step := Tock(p.rx, w.rx, i);
      w.(rx := step.state, lead := w.lead - 1, rxOnAir := !step.reply.Quiet?, tockDivisor := w.rx.divisor)
    case RxMidTick => w.(rx := MidTick(w.rx))
    case Deliver =>
      var packet := w.flight.value;
      w.(rx := ReceiveSync(p.rx, w.rx, packet), flight := None, lead := 0,
      rxOnAir := w.rxOnAir && !MustRealign(p.rx, SyncSettings(w.rx, packet), packet))
    case Drop => w.(flight := None)
    case CommitBegins => w.(tx := BeginCommit(w.tx), primed := false)
    case CommitEnds => w.(tx := EndCommit(w.tx))
    case TxHears(heardMs) => w.(tx := ReceiveTelemetry(w.tx, heardMs))
    case TxPolls(nowMs) => w.(tx := PollConnection(p.tx, w.tx, nowMs))
    case TxRespams => w.(tx := Respam(w.tx))
    case RxPolls => w.(rx := UpdateBurst(p.rx, ApplySwitchMode(w.rx)))
    case RxEstablishes => w.(rx := Establish(w.rx))
    case RxLoses => w.(rx := LoseLink(w.rx), rxOnAir := false)
  }

  /** A telemetry slot completes by itself: the transmitter was listening, there is no transmit-done. */
  predicate Receiving(s: TxState) {
    s.phase == PreReceiveGap && !s.committing
  }

  predicate Run(p: Pair, w: World, events: seq<Event>)
    requires p.Valid()
    decreases |events|
  {
    events == [] || (Enabled(p, w, events[0]) && Run(p, Next(p, w, events[0]), events[1..]))
  }

  function After(p: Pair, w: World, events: seq<Event>): World
    requires p.Valid() && Run(p, w, events)
    decreases |events|
  {
    if events == [] then w else After(p, Next(p, w, events[0]), events[1..])
  }

  // ----- hop agreement -----

  /** The index the transmitter holds once the slot it is in has completed. */
  function Settled(h: Hops, s: TxState): int
    requires h.Valid()
  {
    if s.busy && h.LastOfDwell(s.nonce) then s.hopIndex + 1 else s.hopIndex
  }

  /** The index a receiver holding `index` in slot `nonce` reaches after `tocks` more tocks. */
  function Ahead(h: Hops, nonce: int, index: int, tocks: nat): int
    requires h.Valid()
    decreases tocks
  {
    if tocks == 0 then index
    else Ahead(h, nonce + 1, if h.FirstOfDwell(nonce + 1) then index + 1 else index, tocks - 1)
  }

  predicate SameHop(h: Hops, a: int, b: int)
    requires h.Valid()
  {
    a % h.count == b % h.count
  }

  /** Nonces agree up to the lead, and both ends will be on the same channel in every later slot. */
  predicate Agree(h: Hops, tx: TxState, rx: RxState, lead: int)
    requires h.Valid()
  {
    && -1 <= lead <= 1
    && tx.nonce == U8(rx.nonce + lead)
    && SameHop(h, Settled(h, tx), Ahead(h, rx.nonce, rx.hopIndex, lead + 1))
  }

  predicate FlightCurrent(p: Pair, w: World)
    requires p.Valid()
  {
    w.flight.Some? ==>
      && w.flight.value.nonce == w.tx.nonce
      && SameHop(p.tx.hops, Settled(p.tx.hops, w.tx), Ahead(p.tx.hops, w.tx.nonce, w.flight.value.hopIndex, 1))
  }

  predicate PhaseFits(s: TxState) {
    && (s.phase == PreReceiveGap ==> (s.nonce + 1) % 2 == 0)
    && (s.committing ==> s.phase == Transmitting && !s.busy)
  }

  /** The invariant of every run: a gap slot precedes an even nonce, and a linked receiver agrees. */
  predicate Aligned(p: Pair, w: World)
    requires p.Valid()
  {
    && ValidDivisor(w.tx.divisor) && ValidDivisor(w.rx.divisor)
    && PhaseFits(w.tx)
    && (w.rx.link != Lost ==> Agree(p.tx.hops, w.tx, w.rx, w.lead) && w.rx.hopIndex < p.tx.hops.count)
    && FlightCurrent(p, w)
  }

  /** A silent slot that should have ended in a hop never reaches transmit-done. */
  predicate LosesHop(c: Config, s: TxState, i: TickInput)
    requires c.Valid()
  {
    !s.committing && s.phase != PreReceiveGap && SilentSlot(c, i) && c.hops.LastOfDwell(U8(s.nonce + 1))
  }

  /** A commit's bare increment leaves the byte instead of the table. */
  predicate RunsOffByte(c: Config, s: TxState)
    requires c.Valid()
  {
    s.committing && c.hops.LastOfDwell(U8(s.nonce + 1)) && s.hopIndex == 255 && 256 % c.hops.count != 0
  }

  // ----- congruence of hop indices -----

  lemma SuccessorsAgree(a: int, b: int, d: int)
    requires d > 0 && a % d == b % d
    ensures (a + 1) % d == (b + 1) % d
  {
    Quotients.ShiftByMultiple(a % d + 1, d, a / d);
    Quotients.ShiftByMultiple(b % d + 1, d, b / d);
    assert a + 1 == a % d + 1 + d * (a / d);
    assert b + 1 == b % d + 1 + d * (b / d);
  }

  lemma NextIsSuccessor(h: Hops, index: int)
    requires h.Valid()
    ensures SameHop(h, h.Next(index), index + 1)
  {
    Quotients.QuotientUnique((index + 1) % h.count, h.count, 0, (index + 1) % h.count);
  }

  lemma DwellFollowsWrap(h: Hops, nonce: int)
    requires h.Valid()
    ensures h.FirstOfDwell(U8(nonce)) == h.FirstOfDwell(nonce)
    ensures h.LastOfDwell(U8(nonce)) == h.FirstOfDwell(nonce + 1)
  {
    WrapKeepsResidue(nonce, h.interval);
    WrapKeepsResidue(U8(nonce) + 1, h.interval);
    WrapKeepsResidue(nonce + 1, h.interval);
    Quotients.ModOfMod(nonce, 0x100);
  }

  /** The byte wrap of a commit's bare increment is invisible unless it happens inside the table. */
  lemma BareIncrement(h: Hops, index: uint8)
    requires h.Valid()
    requires index < 255 || 256 % h.count == 0
    ensures SameHop(h, U8(index + 1), index + 1)
  {
  }

  lemma {:induction false} AheadOneMore(h: Hops, nonce: int, index: int, tocks: nat)
    requires h.Valid()
    ensures Ahead(h, nonce, index, tocks + 1)
            == Ahead(h, nonce, index, tocks) + if h.FirstOfDwell(nonce + tocks + 1) then 1 else 0
    decreases tocks
  {
    if tocks == 0 {
      assert Ahead(h, nonce, index, 1) == Ahead(h, nonce + 1, if h.FirstOfDwell(nonce + 1) then index + 1 else index, 0);
    } else {
      AheadOneMore(h, nonce + 1, if h.FirstOfDwell(nonce + 1) then index + 1 else index, tocks - 1);
    }
  }

  lemma SuccessorDwells(h: Hops, n1: int, n2: int)
    requires h.Valid() && U8(n1) == U8(n2)
    ensures h.FirstOfDwell(n1 + 1) == h.FirstOfDwell(n2 + 1) && U8(n1 + 1) == U8(n2 + 1)
  {
    Quotients.ModOfMod(n1, 0x100);
    Quotients.ModOfMod(n2, 0x100);
    DwellFollowsWrap(h, n1 + 1);
    DwellFollowsWrap(h, n2 + 1);
  }

  lemma {:induction false} AheadRespectsWrap(h: Hops, n1: int, n2: int, i1: int, i2: int, tocks: nat)
    requires h.Valid()
    requires U8(n1) == U8(n2) && SameHop(h, i1, i2)
    ensures SameHop(h, Ahead(h, n1, i1, tocks), Ahead(h, n2, i2, tocks))
    decreases tocks
  {
    if tocks > 0 {
      SuccessorDwells(h, n1, n2);
      SuccessorsAgree(i1, i2, h.count);
      if h.FirstOfDwell(n1 + 1) {
        AheadRespectsWrap(h, n1 + 1, n2 + 1, i1 + 1, i2 + 1, tocks - 1);
      } else {
        AheadRespectsWrap(h, n1 + 1, n2 + 1, i1, i2, tocks - 1);
      }
    }
  }

  // ----- what one transmitter tick leaves alone -----

  lemma EffectiveRatioFits(c: Config, s: TxState, armed: bool)
    requires c.Valid()
    ensures TLM_NO_TLM <= EffectiveRatio(c, s, armed)
    ensures EffectiveRatio(c, s, armed) <= TLM_1_2
  {
  }

  lemma SyncFrame(c: Config, s: TxState, i: TickInput, slot: uint8)
    requires c.Valid() && ValidDivisor(s.divisor)
    ensures var step := SendSync(c, s, i, slot);
            && step.state.(divisor := s.divisor, syncSlot := s.syncSlot, spam := s.spam,
               spamAfterRate := s.spamAfterRate, boost := s.boost, syncSentMs := s.syncSentMs,
               lastTlmMs := s.lastTlmMs) == s
            && ValidDivisor(step.state.divisor)
            && step.air.Sync?
            && step.air.packet.nonce == s.nonce && step.air.packet.hopIndex == s.hopIndex
            && PacketDivisor(step.air.packet) in {1, step.state.divisor}
  {
    SyncDivisorFits(c, s, i);
    hide ValidDivisor, PacketDivisor, EffectiveRatio, Divisor, SyncUid5, RatioToBits;
  }

  /** After a sync either the transmitter uses the packet's divisor, or it keeps its own and the packet's is 1. */
  lemma SyncDivisorFits(c: Config, s: TxState, i: TickInput)
    requires c.Valid() && ValidDivisor(s.divisor)
    ensures var g := GenerateSync(c, s, i);
            g.air.Sync? && ValidDivisor(g.state.divisor) && PacketDivisor(g.air.packet) in {1, g.state.divisor}
  {
    var counted := CountDownSpam(c, s).(syncSentMs := i.nowMs);
    var ratio := EffectiveRatio(c, counted, i.armed);
    EffectiveRatioFits(c, counted, i.armed);
    DivisorIsValid(ratio);
    assert RatioToBits(ratio) + TLM_NO_TLM == ratio;
    hide Divisor, SyncUid5, RatioToBits, ValidDivisor;
  }

  /** Channels that have gone stale never go on the air, in any mode or slot. */
  lemma StaleChannelsStayOff(c: Config, s: TxState, i: TickInput)
    requires c.Valid() && i.rcStale
    ensures Tick(c, s, i).air != Channels
  {
    hide GenerateSync;
    SyncIsNoChannels(c, s.(nonce := U8(s.nonce + 1), phase := Transmitting, busy := true), i);
  }

  lemma SyncIsNoChannels(c: Config, s: TxState, i: TickInput)
    ensures GenerateSync(c, s, i).air.Sync?
  {
  }

  /** The divisor the receiver reads out of a sync packet. */
  function PacketDivisor(p: SyncPacket): uint8 {
    Divisor(p.ratioBits + TLM_NO_TLM)
  }

  lemma SendFrame(c: Config, s: TxState, i: TickInput)
    requires c.Valid() && ValidDivisor(s.divisor) && !s.busy
    ensures var step := SendRc(c, s, i);
            && step.state.nonce == s.nonce && step.state.hopIndex == s.hopIndex && step.state.phase == s.phase
            && step.state.committing == s.committing && step.state.connection == s.connection
            && step.state.busy == !SilentSlot(c, i) == !step.air.Silent?
            && ValidDivisor(step.state.divisor)
            && (!step.air.Sync? ==> step.state.divisor == s.divisor)
            && (step.air.Sync? ==>
                  && step.air.packet.nonce == s.nonce && step.air.packet.hopIndex == s.hopIndex
                  && PacketDivisor(step.air.packet) in {1, step.state.divisor})
  {
    hide SendSync;
    hide SpamDue;
    hide RegularDue;
    hide NextSyncSlot;
    if !SilentSlot(c, i) {
      var s1 := s.(busy := true);
      SyncFrame(c, s1, i, 0);
      SyncFrame(c, s1, i, NextSyncSlot(c, s1.syncSlot));
    }
  }
}
