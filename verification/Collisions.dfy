/** The half-duplex rule: when the two ends can, and cannot, both be on the air in one slot. */
module Collisions {
  import opened Words
  import opened Rates
  import opened TxSlots
  import opened RxSlots
  import opened SlotRuns
  import Quotients

  /** Every slot the receiver may reply in is one the transmitter listens in. */
  predicate Compatible(txDivisor: int, rxDivisor: int) {
    rxDivisor == 1 || (txDivisor > 1 && rxDivisor % txDivisor == 0)
  }

  lemma CompatibleSlots(txDivisor: uint8, rxDivisor: uint8, nonce: int)
    requires ValidDivisor(txDivisor) && ValidDivisor(rxDivisor) && Compatible(txDivisor, rxDivisor)
    requires TelemetrySlot(nonce, rxDivisor)
    ensures TelemetrySlot(nonce, txDivisor)
  {
    Quotients.DividesTransitively(txDivisor, rxDivisor, nonce);
  }

  /** Equal divisors are safe, and so is any receiver divisor the transmitter's divides; nothing else is. */
  lemma CompatibleExactly(txDivisor: uint8, rxDivisor: uint8)
    requires ValidDivisor(txDivisor) && ValidDivisor(rxDivisor)
    ensures Compatible(txDivisor, rxDivisor)
            <==> forall nonce: uint8 :: TelemetrySlot(nonce, rxDivisor) ==> TelemetrySlot(nonce, txDivisor)
  {
    if Compatible(txDivisor, rxDivisor) {
      forall nonce: uint8 | TelemetrySlot(nonce, rxDivisor)
        ensures TelemetrySlot(nonce, txDivisor)
      {
        CompatibleSlots(txDivisor, rxDivisor, nonce);
      }
    } else {
      Quotients.QuotientUnique(rxDivisor, rxDivisor, 1, 0);
      assert TelemetrySlot(rxDivisor, rxDivisor) && !TelemetrySlot(rxDivisor, txDivisor);
    }
  }

  // ----- what a completed slot promises about the next -----

  /** A completed slot has already decided whether the next one is for listening. */
  predicate Decided(s: TxState) {
    !s.busy && (s.phase == PreReceiveGap <==> TelemetrySlot(s.nonce + 1, s.divisor))
  }

  predicate Slots(w: World) {
    && ValidDivisor(w.tx.divisor) && ValidDivisor(w.rx.divisor) && PhaseFits(w.tx)
    && (w.tx.busy ==> w.tx.phase == Transmitting)
    && (w.tx.phase == PreReceiveGap ==> w.primed)
    && (w.primed ==> Decided(w.tx))
    && (w.covered && w.txOnAir ==> !TelemetrySlot(w.tx.nonce, w.tickDivisor))
    && (w.rxOnAir ==> w.rx.link != Lost && TelemetrySlot(w.rx.nonce, w.tockDivisor))
  }

  predicate Nonces(w: World) {
    && (w.rx.link != Lost ==> -1 <= w.lead <= 1 && w.tx.nonce == U8(w.rx.nonce + w.lead))
    && (w.flight.Some? ==> w.flight.value.nonce == w.tx.nonce)
  }

  /** The invariant of every run. */
  predicate InStep(w: World) {
    Slots(w) && Nonces(w) && ValidDivisor(w.tickDivisor) && ValidDivisor(w.tockDivisor)
  }

  // ----- one tick -----

  /** From a completed slot, a tick is silent exactly in the telemetry slots. */
  lemma SlotDirection(c: Config, s: TxState, i: TickInput)
    requires c.Valid() && ValidDivisor(s.divisor) && Decided(s)
    requires !s.committing && s.connection != AwaitingModelId && !SilentSlot(c, i)
    ensures var step := Tick(c, s, i); step.air.Silent? <==> TelemetrySlot(step.state.nonce, s.divisor)
  {
    WrapKeepsResidue(s.nonce + 1, s.divisor);
    if s.phase != PreReceiveGap {
      SendFrame(c, s.(nonce := U8(s.nonce + 1), phase := Transmitting), i);
    }
  }

  /** After a slot that never completed, the transmitter sends whatever the slot is for. */
  lemma SkippedDoneTransmits(c: Config, s: TxState, i: TickInput)
    requires c.Valid() && ValidDivisor(s.divisor) && s.phase != PreReceiveGap && !s.busy
    requires !s.committing && s.connection != AwaitingModelId && !SilentSlot(c, i)
    ensures !Tick(c, s, i).air.Silent?
  {
    SendFrame(c, s.(nonce := U8(s.nonce + 1), phase := Transmitting), i);
  }

  /** What a tick leaves behind, given whether the slot before it had completed. */
  predicate TickOutcome(s: TxState, step: Step, primed: bool) {
    && step.state.nonce == U8(s.nonce + 1)
    && ValidDivisor(step.state.divisor) && PhaseFits(step.state)
    && (step.state.busy ==> step.state.phase == Transmitting) && step.state.phase != PreReceiveGap
    && (Receiving(s) ==> Decided(step.state))
    && (primed && !step.air.Silent? ==> !TelemetrySlot(step.state.nonce, s.divisor))
    && (!step.air.Sync? ==> step.state.divisor == s.divisor)
    && (step.air.Sync? ==>
          step.air.packet.nonce == step.state.nonce && PacketDivisor(step.air.packet) in {1, step.state.divisor})
  }

  lemma TickSlots(c: Config, s: TxState, i: TickInput, primed: bool)
    requires c.Valid() && ValidDivisor(s.divisor) && PhaseFits(s) && !s.busy && s.connection != AwaitingModelId
    requires primed ==> Decided(s)
    ensures TickOutcome(s, Tick(c, s, i), primed)
  {
    if s.committing {
    } else if s.phase == PreReceiveGap {
      GapOutcome(s, primed);
    } else {
      SendOutcome(c, s, i, primed);
    }
  }

  lemma GapOutcome(s: TxState, primed: bool)
    requires ValidDivisor(s.divisor) && PhaseFits(s) && !s.busy && s.phase == PreReceiveGap
    ensures TickOutcome(s, Step(s.(nonce := U8(s.nonce + 1), phase := ExpectingTelem), Silent), primed)
  {
    var nonce := U8(s.nonce + 1);
    if TelemetrySlot(nonce + 1, s.divisor) {
      TelemetryNonceIsEven(s.divisor, nonce + 1);
    }
  }

  lemma SendOutcome(c: Config, s: TxState, i: TickInput, primed: bool)
    requires c.Valid() && ValidDivisor(s.divisor) && !s.busy && !s.committing && s.phase != PreReceiveGap
    requires primed ==> Decided(s)
    ensures TickOutcome(s, SendRc(c, s.(nonce := U8(s.nonce + 1), phase := Transmitting), i), primed)
  {
    WrapKeepsResidue(s.nonce + 1, s.divisor);
    SendFrame(c, s.(nonce := U8(s.nonce + 1), phase := Transmitting), i);
  }

  lemma NextNonce(nonce: uint8, lead: int)
    ensures U8(U8(nonce + lead) + 1) == U8(nonce + (lead + 1))
  {
    Quotients.ModOfMod(nonce + lead, 0x100);
  }

  lemma TickKeepsInStep(p: Pair, w: World, i: TickInput)
    requires p.Valid() && InStep(w) && Enabled(p, w, TxTick(i))
    ensures InStep(Next(p, w, TxTick(i)))
  {
    hide Tick, TelemetrySlot, ValidDivisor, Decided, U8;
    var step, v := Tick(p.tx, w.tx, i), Next(p, w, TxTick(i));
    TickSlots(p.tx, w.tx, i, w.primed);
    NextNonce(w.rx.nonce, w.lead);
    assert v.tx == step.state && v.rx == w.rx && v.tickDivisor == w.tx.divisor;
  }

  lemma DoneKeepsInStep(p: Pair, w: World)
    requires p.Valid() && InStep(w) && Enabled(p, w, TxDoneIrq)
    ensures InStep(Next(p, w, TxDoneIrq))
  {
    if TelemetrySlot(w.tx.nonce + 1, w.tx.divisor) {
      TelemetryNonceIsEven(w.tx.divisor, w.tx.nonce + 1);
    }
  }

  /** The receiver is on the air only in its own telemetry slots. */
  lemma TockSlots(c: RxConfig, s: RxState, i: TockInput)
    requires c.Valid() && s.link != Lost
    ensures var step := Tock(c, s, i);
            && step.state.nonce == U8(s.nonce + 1) && step.state.link == s.link && step.state.divisor == s.divisor
            && (!step.reply.Quiet? ==> TelemetrySlot(step.state.nonce, s.divisor))
  {
  }

  lemma TockKeepsInStep(p: Pair, w: World, i: TockInput)
    requires p.Valid() && InStep(w) && Enabled(p, w, RxTock(i))
    ensures InStep(Next(p, w, RxTock(i)))
  {
    TockSlots(p.rx, w.rx, i);
  }

  lemma DeliverKeepsInStep(p: Pair, w: World)
    requires p.Valid() && InStep(w) && Enabled(p, w, Deliver)
    ensures InStep(Next(p, w, Deliver))
  {
    DivisorIsValid(w.flight.value.ratioBits + TLM_NO_TLM);
  }

  lemma StepKeepsInStep(p: Pair, w: World, e: Event)
    requires p.Valid() && InStep(w) && Enabled(p, w, e)
    ensures InStep(Next(p, w, e))
  {
    hide Next, InStep;
    match e
    case TxTick(i) => TickKeepsInStep(p, w, i);
    case TxDoneIrq => DoneKeepsInStep(p, w);
    case RxTock(i) => TockKeepsInStep(p, w, i);
    case Deliver => DeliverKeepsInStep(p, w);
    case _ => AsideKeepsInStep(p, w, e);
  }

  /** Commits, loop polls and losses put nothing on the air and change no divisor. */
  lemma AsideKeepsInStep(p: Pair, w: World, e: Event)
    requires p.Valid() && InStep(w) && Enabled(p, w, e)
    requires !e.TxTick? && !e.TxDoneIrq? && !e.RxTock? && !e.Deliver?
    ensures InStep(Next(p, w, e))
  {
    hide ValidDivisor, TelemetrySlot, Tick, Tock, TxDone, ReceiveSync, BurstMax;
  }

  lemma {:induction false} RunKeepsInStep(p: Pair, w: World, events: seq<Event>)
    requires p.Valid() && InStep(w) && Run(p, w, events)
    ensures InStep(After(p, w, events))
    decreases |events|
  {
    if events != [] {
      StepKeepsInStep(p, w, events[0]);
      RunKeepsInStep(p, Next(p, w, events[0]), events[1..]);
    }
  }

  predicate Collision(w: World) {
    w.rx.link != Lost && w.lead == 0 && w.txOnAir && w.rxOnAir
  }

  lemma CollisionReasons(w: World)
    requires InStep(w) && Collision(w) && w.covered
    ensures !Compatible(w.tickDivisor, w.tockDivisor)
  {
    if Compatible(w.tickDivisor, w.tockDivisor) {
      CompatibleSlots(w.tickDivisor, w.tockDivisor, w.rx.nonce);
      assert false;
    }
  }

  /**
   In every run, commits, silent slots, divisor changes and lost packets included, both ends are on the
   air in one slot only if the transmitter's previous slot never completed, or the two acted on
   divisors that are not compatible.
   */
  lemma CollisionNeedsSkippedSlot(p: Pair, w: World, events: seq<Event>)
    requires p.Valid() && InStep(w) && Run(p, w, events)
    ensures var v := After(p, w, events);
            Collision(v) ==> !v.covered || !Compatible(v.tickDivisor, v.tockDivisor)
  {
    RunKeepsInStep(p, w, events);
    var v := After(p, w, events);
    if Collision(v) && v.covered {
      CollisionReasons(v);
    }
  }

  /** The transmitter sends in the slot that `i` starts: not committing, not silent, and not prepared to listen. */
  predicate TxSends(p: Pair, w: World, i: TickInput) {
    && !w.tx.committing && !SilentSlot(p.tx, i)
    && !(w.primed && TelemetrySlot(w.tx.nonce + 1, w.tx.divisor))
  }

  /** The receiver replies in it: a telemetry slot by its own divisor, with nothing to keep it quiet. */
  predicate RxReplies(w: World, j: TockInput) {
    && TelemetrySlot(w.rx.nonce + 1, w.rx.divisor)
    && !w.rx.answered && !j.muted && j.teamMatch
  }

  lemma TickSendsExactly(p: Pair, w: World, i: TickInput)
    requires p.Valid() && InStep(w) && Enabled(p, w, TxTick(i))
    ensures !Tick(p.tx, w.tx, i).air.Silent? <==> TxSends(p, w, i)
  {
    if !w.tx.committing && !SilentSlot(p.tx, i) {
      if w.primed {
        WrapKeepsResidue(w.tx.nonce + 1, w.tx.divisor);
        SlotDirection(p.tx, w.tx, i);
      } else {
        SkippedDoneTransmits(p.tx, w.tx, i);
      }
    }
    hide SendRc;
    if SilentSlot(p.tx, i) {
      StaleIsSilent(p.tx, w.tx, i);
    }
  }

  lemma StaleIsSilent(c: Config, s: TxState, i: TickInput)
    requires c.Valid() && SilentSlot(c, i)
    ensures Tick(c, s, i).air.Silent?
  {
  }

  lemma TockRepliesExactly(p: Pair, w: World, j: TockInput)
    requires p.Valid() && InStep(w) && w.rx.link != Lost
    ensures !Tock(p.rx, w.rx, j).reply.Quiet? <==> RxReplies(w, j)
  {
    WrapKeepsResidue(w.rx.nonce + 1, w.rx.divisor);
  }

  /**
   The half-duplex rule slot by slot: of a slot that both ends enter together, both use it to send if and
   only if the transmitter sends and the receiver replies, as either decides by its own state.
   */
  lemma SlotCollidesExactly(p: Pair, w: World, i: TickInput, j: TockInput)
    requires p.Valid() && InStep(w) && w.rx.link != Lost && w.lead == 0 && Enabled(p, w, TxTick(i))
    ensures Enabled(p, Next(p, w, TxTick(i)), RxTock(j))
    ensures Collision(Next(p, Next(p, w, TxTick(i)), RxTock(j))) <==> TxSends(p, w, i) && RxReplies(w, j)
  {
    TickSendsExactly(p, w, i);
    TockRepliesExactly(p, w, j);
    TockSlots(p.rx, w.rx, j);
    hide Tick, Tock, TxSends, RxReplies, InStep;
  }

  /** The same at the end of any run from power-up that leaves the two ends between two slots. */
  lemma SlotCollidesAfterRun(p: Pair, events: seq<Event>, i: TickInput, j: TockInput)
    requires p.Valid() && Run(p, PowerUp(), events)
    requires var w := After(p, PowerUp(), events); w.rx.link != Lost && w.lead == 0 && Enabled(p, w, TxTick(i))
    ensures var w := After(p, PowerUp(), events);
            && Enabled(p, Next(p, w, TxTick(i)), RxTock(j))
            && (Collision(Next(p, Next(p, w, TxTick(i)), RxTock(j))) <==> TxSends(p, w, i) && RxReplies(w, j))
  {
    RunKeepsInStep(p, PowerUp(), events);
    SlotCollidesExactly(p, After(p, PowerUp(), events), i, j);
  }

  /** Every tick of the run follows a completed slot. */
  predicate PrimedRun(p: Pair, w: World, events: seq<Event>)
    requires p.Valid() && Run(p, w, events)
    decreases |events|
  {
    events == [] || ((events[0].TxTick? ==> w.primed) && PrimedRun(p, Next(p, w, events[0]), events[1..]))
  }

  lemma {:induction false} PrimedRunStaysCovered(p: Pair, w: World, events: seq<Event>)
    requires p.Valid() && Run(p, w, events) && PrimedRun(p, w, events) && (w.covered || !w.txOnAir)
    ensures After(p, w, events).covered || !After(p, w, events).txOnAir
    decreases |events|
  {
    if events != [] {
      PrimedRunStaysCovered(p, Next(p, w, events[0]), events[1..]);
    }
  }

  /** With every slot completing before the next tick, a slot in which the ends act on compatible divisors has one direction. */
  lemma CollisionFree(p: Pair, w: World, events: seq<Event>)
    requires p.Valid() && InStep(w) && Run(p, w, events)
    requires PrimedRun(p, w, events) && (w.covered || !w.txOnAir)
    ensures var v := After(p, w, events);
            Compatible(v.tickDivisor, v.tockDivisor) ==> !Collision(v)
  {
    CollisionNeedsSkippedSlot(p, w, events);
    PrimedRunStaysCovered(p, w, events);
  }

  /** The same from power-up: what the runs above assume of their first state holds there. */
  lemma CollisionFreeFromPowerUp(p: Pair, events: seq<Event>)
    requires p.Valid() && Run(p, PowerUp(), events) && PrimedRun(p, PowerUp(), events)
    ensures var v := After(p, PowerUp(), events);
            Compatible(v.tickDivisor, v.tockDivisor) ==> !Collision(v)
  {
    CollisionFree(p, PowerUp(), events);
  }

  // ----- which runs keep the divisors compatible -----

  /** The divisors each end acts on in a slot they share are compatible. */
  predicate Divisors(w: World) {
    && (w.flight.Some? ==> Compatible(w.tx.divisor, PacketDivisor(w.flight.value)))
    && (w.rx.link != Lost ==>
          && (w.flight.None? ==> Compatible(w.tx.divisor, w.rx.divisor))
          && (w.lead == 1 ==> Compatible(w.tickDivisor, w.rx.divisor))
          && (w.lead == -1 ==> w.tockDivisor == w.rx.divisor)
          && (w.lead == 0 && w.rxOnAir ==> Compatible(w.tickDivisor, w.tockDivisor)))
  }

  predicate Orderly(w: World) {
    InStep(w) && Divisors(w)
  }

  /** A sync packet is lost for good only if that leaves the divisors compatible. */
  predicate Benign(w: World, e: Event) {
    e.Drop? && w.rx.link != Lost ==> Compatible(w.tx.divisor, w.rx.divisor)
  }

  predicate BenignRun(p: Pair, w: World, events: seq<Event>)
    requires p.Valid() && Run(p, w, events)
    decreases |events|
  {
    events == [] || (Benign(w, events[0]) && BenignRun(p, Next(p, w, events[0]), events[1..]))
  }

  lemma SelfCompatible(d: int)
    requires ValidDivisor(d)
    ensures Compatible(d, d) && Compatible(d, 1)
  {
    Quotients.QuotientUnique(d, d, 1, 0);
  }

  lemma TickKeepsDivisors(p: Pair, w: World, i: TickInput)
    requires p.Valid() && Orderly(w) && Enabled(p, w, TxTick(i))
    ensures Divisors(Next(p, w, TxTick(i)))
  {
    var step, v := Tick(p.tx, w.tx, i), Next(p, w, TxTick(i));
    TickSlots(p.tx, w.tx, i, w.primed);
    assert v.tx == step.state && v.rx == w.rx && v.tickDivisor == w.tx.divisor;
    hide Tick, Compatible;
    SelfCompatible(step.state.divisor);
  }

  lemma EventKeepsDivisors(p: Pair, w: World, e: Event)
    requires p.Valid() && Orderly(w) && Enabled(p, w, e) && Benign(w, e) && !e.TxTick?
    ensures Divisors(Next(p, w, e))
  {
    hide Compatible, ValidDivisor, TelemetrySlot, Tick, Tock, BurstMax, Accepts, ModelMatches, Divisor;
    if e.RxTock? {
      TockSlots(p.rx, w.rx, e.tock);
    }
  }

  lemma StepKeepsOrderly(p: Pair, w: World, e: Event)
    requires p.Valid() && Orderly(w) && Enabled(p, w, e) && Benign(w, e)
    ensures Orderly(Next(p, w, e))
  {
    StepKeepsInStep(p, w, e);
    hide Next, InStep, Divisors;
    if e.TxTick? {
      TickKeepsDivisors(p, w, e.tick);
    } else {
      EventKeepsDivisors(p, w, e);
    }
  }

  lemma {:induction false} RunKeepsOrderly(p: Pair, w: World, events: seq<Event>)
    requires p.Valid() && Orderly(w) && Run(p, w, events) && BenignRun(p, w, events)
    ensures Orderly(After(p, w, events))
    decreases |events|
  {
    if events != [] {
      StepKeepsOrderly(p, w, events[0]);
      RunKeepsOrderly(p, Next(p, w, events[0]), events[1..]);
    }
  }

  /** From power-up, as long as no lost sync leaves the divisors incompatible, no slot is used in both directions. */
  lemma BenignRunsNeverCollide(p: Pair, events: seq<Event>)
    requires p.Valid() && Run(p, PowerUp(), events)
    requires PrimedRun(p, PowerUp(), events) && BenignRun(p, PowerUp(), events)
    ensures !Collision(After(p, PowerUp(), events))
  {
    RunKeepsOrderly(p, PowerUp(), events);
    CollisionFreeFromPowerUp(p, events);
  }

  // ----- arming with telemetry off while armed -----

  /**
   Once armed, a connected transmitter set to telemetry off while armed tells the receiver to stop, yet goes
   on listening in just the slots it did: no receiver is left talking to it, whether the packet arrives or not.
   */
  lemma ArmedSyncKeepsListening(c: Config, s: TxState, i: TickInput)
    requires c.Valid() && ValidDivisor(s.divisor) && c.requestedTlm == TLM_DISARMED && i.armed
    requires s.connection == Connected && s.boost != BoostRequested
    ensures var g := GenerateSync(c, s, i);
            && PacketDivisor(g.air.packet) == 1
            && (forall r: uint8 :: Compatible(g.state.divisor, r) <==> Compatible(s.divisor, r))
            && (forall nonce: uint8 :: TelemetrySlot(nonce, g.state.divisor) <==> TelemetrySlot(nonce, s.divisor))
  {
    hide Compatible, TelemetrySlot;
  }

  /** Not connected, it has nobody to wait for and stops listening itself. */
  lemma ArmedSyncStopsListening(c: Config, s: TxState, i: TickInput)
    requires c.Valid() && c.requestedTlm == TLM_DISARMED && i.armed
    requires s.connection == Disconnected && s.boost != BoostRequested
    ensures var g := GenerateSync(c, s, i);
            PacketDivisor(g.air.packet) == 1 && forall nonce: uint8 :: !TelemetrySlot(nonce, g.state.divisor)
  {
  }

  /** So in any run that was orderly, losing such a sync packet is benign. */
  lemma LostArmedSyncIsBenign(p: Pair, w: World, i: TickInput)
    requires p.Valid() && Orderly(w) && Enabled(p, w, TxTick(i)) && Tick(p.tx, w.tx, i).air.Sync?
    requires p.tx.requestedTlm == TLM_DISARMED && i.armed && w.tx.connection == Connected && w.tx.boost != BoostRequested
    ensures Benign(Next(p, w, TxTick(i)), Drop)
  {
    var s1 := w.tx.(nonce := U8(w.tx.nonce + 1), phase := Transmitting, busy := true);
    ArmedSyncKeepsListening(p.tx, s1, i);
    TickIsGeneratedSync(p.tx, w.tx, i);
    hide Tick, GenerateSync;
    assert Next(p, w, TxTick(i)).rx == w.rx;
  }

  /** A slot that carries a sync packet leaves what generating it leaves, but for the sync slot. */
  lemma TickIsGeneratedSync(c: Config, s: TxState, i: TickInput)
    requires c.Valid() && Tick(c, s, i).air.Sync?
    ensures var g := GenerateSync(c, s.(nonce := U8(s.nonce + 1), phase := Transmitting, busy := true), i);
            var step := Tick(c, s, i);
            step.air == g.air && step.state == g.state.(syncSlot := step.state.syncSlot)
  {
    hide GenerateSync, SpamDue, RegularDue, NextSyncSlot;
  }
}
