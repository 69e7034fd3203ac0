/** Nonce and hop agreement over every run, what breaks it exactly, and how a sync repairs it. */
module Agreement {
  import opened Words
  import opened Rates
  import opened Hopping
  import opened TxSlots
  import opened RxSlots
  import opened SlotRuns
  import Collisions
  import Quotients

  // ----- one event at a time -----

  /** A tick moves to the next slot, and the index will settle one hop on exactly if that slot ends a dwell. */
  predicate Advances(h: Hops, before: TxState, after: TxState)
    requires h.Valid()
  {
    && after.nonce == U8(before.nonce + 1)
    && ValidDivisor(after.divisor) && PhaseFits(after)
    && SameHop(h, Settled(h, after), before.hopIndex + if h.LastOfDwell(after.nonce) then 1 else 0)
  }

  lemma TickAdvances(c: Config, s: TxState, i: TickInput)
    requires c.Valid() && ValidDivisor(s.divisor) && PhaseFits(s)
    requires !s.busy && s.connection != AwaitingModelId
    requires !LosesHop(c, s, i) && !RunsOffByte(c, s)
    ensures Advances(c.hops, s, Tick(c, s, i).state)
  {
    if s.committing {
      CommitAdvances(c, s);
    } else if s.phase == PreReceiveGap {
      GapAdvances(c.hops, s);
    } else {
      SendAdvances(c, s, i);
    }
  }

  lemma CommitAdvances(c: Config, s: TxState)
    requires c.Valid() && ValidDivisor(s.divisor) && PhaseFits(s)
    requires s.committing && !RunsOffByte(c, s)
    ensures Advances(c.hops, s, CommitTick(c, s))
  {
    if c.hops.LastOfDwell(U8(s.nonce + 1)) {
      BareIncrement(c.hops, s.hopIndex);
    }
  }

  lemma GapAdvances(h: Hops, s: TxState)
    requires h.Valid() && ValidDivisor(s.divisor) && PhaseFits(s)
    requires s.phase == PreReceiveGap && !s.busy && !s.committing
    ensures Advances(h, s, s.(nonce := U8(s.nonce + 1), phase := ExpectingTelem))
  {
    EvenSlotIsNotLast(h, U8(s.nonce + 1));
  }

  lemma SendAdvances(c: Config, s: TxState, i: TickInput)
    requires c.Valid() && ValidDivisor(s.divisor)
    requires !s.busy && !s.committing
    requires SilentSlot(c, i) ==> !c.hops.LastOfDwell(U8(s.nonce + 1))
    ensures Advances(c.hops, s, SendRc(c, s.(nonce := U8(s.nonce + 1), phase := Transmitting), i).state)
  {
    SendFrame(c, s.(nonce := U8(s.nonce + 1), phase := Transmitting), i);
  }

  /** A telemetry slot has an even nonce and every dwell an even length, so it never ends a dwell. */
  lemma EvenSlotIsNotLast(h: Hops, nonce: int)
    requires h.Valid() && nonce % 2 == 0
    ensures !h.LastOfDwell(nonce)
  {
    assert h.interval == 2 || h.interval == 4;
  }

  lemma TickKeepsAligned(p: Pair, w: World, i: TickInput)
    requires p.Valid() && Aligned(p, w) && Enabled(p, w, TxTick(i))
    requires !LosesHop(p.tx, w.tx, i) && !RunsOffByte(p.tx, w.tx)
    ensures Aligned(p, Next(p, w, TxTick(i)))
  {
    hide Tick, SameHop, Ahead, LosesHop, RunsOffByte;
    var v := Next(p, w, TxTick(i));
    TickAdvances(p.tx, w.tx, i);
    if w.rx.link != Lost {
      TickKeepsAgree(p.tx.hops, w.tx, v.tx, w.rx, w.lead);
    }
    if v.flight.Some? {
      TickFliesCurrent(p.tx, w.tx, i);
      SameHopReflexive(p.tx.hops, Settled(p.tx.hops, v.tx));
    }
  }

  /** A sync packet describes the slot it is sent in. */
  lemma TickFliesCurrent(c: Config, s: TxState, i: TickInput)
    requires c.Valid() && ValidDivisor(s.divisor) && PhaseFits(s)
    requires !s.busy && s.connection != AwaitingModelId
    requires Tick(c, s, i).air.Sync?
    ensures var step := Tick(c, s, i);
            && step.air.packet.nonce == step.state.nonce && step.air.packet.hopIndex == step.state.hopIndex
            && Settled(c.hops, step.state) == Ahead(c.hops, step.state.nonce, step.air.packet.hopIndex, 1)
            && PacketDivisor(step.air.packet) in {1, step.state.divisor}
  {
    hide SendRc;
    var s1 := s.(nonce := U8(s.nonce + 1), phase := Transmitting);
    SendFrame(c, s1, i);
    AheadOneMore(c.hops, s1.nonce, s1.hopIndex, 0);
  }

  lemma {:induction false} SameHopTransitive(h: Hops, a: int, b: int, d: int)
    requires h.Valid() && SameHop(h, a, b) && SameHop(h, b, d)
    ensures SameHop(h, a, d)
  {
  }

  lemma TickKeepsAgree(h: Hops, before: TxState, after: TxState, rx: RxState, lead: int)
    requires h.Valid() && Agree(h, before, rx, lead) && lead <= 0
    requires !before.busy && after.nonce == U8(before.nonce + 1)
    requires SameHop(h, Settled(h, after), before.hopIndex + if h.LastOfDwell(after.nonce) then 1 else 0)
    ensures Agree(h, after, rx, lead + 1)
  {
    var reach := Ahead(h, rx.nonce, rx.hopIndex, lead + 1);
    AheadOneMore(h, rx.nonce, rx.hopIndex, lead + 1);
    assert after.nonce == U8(rx.nonce + lead + 1) by {
      Quotients.ModOfMod(rx.nonce + lead, 0x100);
    }
    assert SameHop(h, before.hopIndex, reach);
    assert SameHop(h, before.hopIndex + 1, reach + 1) by {
      SuccessorsAgree(before.hopIndex, reach, h.count);
    }
    hide SameHop;
    hide Hops.FirstOfDwell;
    hide Hops.LastOfDwell;
    DwellFollowsWrap(h, rx.nonce + lead + 1);
    SameHopTransitive(h, Settled(h, after), before.hopIndex + if h.LastOfDwell(after.nonce) then 1 else 0,
                      Ahead(h, rx.nonce, rx.hopIndex, lead + 2));
  }

  lemma DoneKeepsAligned(p: Pair, w: World)
    requires p.Valid() && Aligned(p, w) && Enabled(p, w, TxDoneIrq)
    ensures Aligned(p, Next(p, w, TxDoneIrq))
  {
    var h, v := p.tx.hops, Next(p, w, TxDoneIrq);
    NextIsSuccessor(h, w.tx.hopIndex);
    if TelemetrySlot(w.tx.nonce + 1, w.tx.divisor) {
      TelemetryNonceIsEven(w.tx.divisor, w.tx.nonce + 1);
    }
  }

  lemma SuccessorSameHop(h: Hops, index: int)
    requires h.Valid()
    ensures SameHop(h, index + 1, h.Next(index))
  {
    NextIsSuccessor(h, index);
  }

  lemma SameHopReflexive(h: Hops, index: int)
    requires h.Valid()
    ensures SameHop(h, index, index)
  {
  }

  lemma TockKeepsAgree(h: Hops, tx: TxState, rx: RxState, hopped: int, lead: int)
    requires h.Valid() && Agree(h, tx, rx, lead) && lead >= 0
    requires hopped == if h.FirstOfDwell(U8(rx.nonce + 1)) then h.Next(rx.hopIndex) else rx.hopIndex
    ensures SameHop(h, Settled(h, tx), Ahead(h, U8(rx.nonce + 1), hopped, lead))
  {
    hide SameHop;
    hide Hops.FirstOfDwell;
    hide Hops.LastOfDwell;
    hide Hops.Next;
    DwellFollowsWrap(h, rx.nonce + 1);
    SuccessorSameHop(h, rx.hopIndex);
    SameHopReflexive(h, rx.hopIndex);
    var index := if h.FirstOfDwell(rx.nonce + 1) then rx.hopIndex + 1 else rx.hopIndex;
    AheadRespectsWrap(h, rx.nonce + 1, U8(rx.nonce + 1), index, hopped, lead);
    SameHopTransitive(h, Settled(h, tx), Ahead(h, rx.nonce + 1, index, lead), Ahead(h, U8(rx.nonce + 1), hopped, lead));
  }

  lemma TockKeepsNonce(txNonce: uint8, rxNonce: uint8, lead: int)
    requires 0 <= lead <= 1 && txNonce == U8(rxNonce + lead)
    ensures txNonce == U8(U8(rxNonce + 1) + lead - 1)
  {
  }

  /** The reply leaves nonce, hop and divisor alone. */
  lemma TockFrame(c: RxConfig, s: RxState, i: TockInput)
    requires c.Valid() && s.link != Lost
    ensures var v := Tock(c, s, i).state;
            && v.nonce == U8(s.nonce + 1) && v.link == s.link && v.divisor == s.divisor
            && v.hopIndex == if c.hops.FirstOfDwell(v.nonce) then c.hops.Next(s.hopIndex) else s.hopIndex
  {
  }

  lemma TockKeepsAligned(p: Pair, w: World, i: TockInput)
    requires p.Valid() && Aligned(p, w) && Enabled(p, w, RxTock(i))
    ensures Aligned(p, Next(p, w, RxTock(i)))
  {
    var v := Next(p, w, RxTock(i));
    TockFrame(p.rx, w.rx, i);
    TockKeepsNonce(w.tx.nonce, w.rx.nonce, w.lead);
    TockKeepsAgree(p.tx.hops, w.tx, w.rx, v.rx.hopIndex, w.lead);
  }

  /**
   Self-stabilisation: whatever nonce, index, divisor and link state the receiver had, one accepted
   sync packet of the current slot leaves it agreeing with the transmitter, on the packet's divisor.
   */
  lemma SyncAligns(p: Pair, tx: TxState, rx: RxState, packet: SyncPacket)
    requires p.Valid() && Accepts(p.rx, packet) && packet.nonce == tx.nonce
    requires SameHop(p.tx.hops, Settled(p.tx.hops, tx), Ahead(p.tx.hops, tx.nonce, packet.hopIndex, 1))
    ensures var v := ReceiveSync(p.rx, rx, packet);
            && Agree(p.tx.hops, tx, v, 0) && v.link != Lost && v.divisor == PacketDivisor(packet)
            && (rx.link == Lost || rx.hopIndex < p.tx.hops.count ==> v.hopIndex < p.tx.hops.count)
  {
    var h, v := p.tx.hops, ReceiveSync(p.rx, rx, packet);
    Quotients.QuotientUnique(packet.hopIndex % h.count, h.count, 0, packet.hopIndex % h.count);
    AheadRespectsWrap(h, v.nonce, tx.nonce, v.hopIndex, packet.hopIndex, 1);
  }

  lemma DeliverKeepsAligned(p: Pair, w: World)
    requires p.Valid() && Aligned(p, w) && Enabled(p, w, Deliver)
    ensures Aligned(p, Next(p, w, Deliver))
  {
    SyncAligns(p, w.tx, w.rx, w.flight.value);
    DivisorIsValid(w.flight.value.ratioBits + TLM_NO_TLM);
  }

  // ----- whole runs -----

  /** Neither of the two events that lose a hop: see TickBreaksAgreement for the exact condition. */
  predicate Calm(p: Pair, w: World, e: Event)
    requires p.Valid()
  {
    e.TxTick? ==> !LosesHop(p.tx, w.tx, e.tick) && !RunsOffByte(p.tx, w.tx)
  }

  predicate CalmRun(p: Pair, w: World, events: seq<Event>)
    requires p.Valid() && Run(p, w, events)
    decreases |events|
  {
    events == [] || (Calm(p, w, events[0]) && CalmRun(p, Next(p, w, events[0]), events[1..]))
  }

  lemma StepKeepsAligned(p: Pair, w: World, e: Event)
    requires p.Valid() && Aligned(p, w) && Enabled(p, w, e) && Calm(p, w, e)
    ensures Aligned(p, Next(p, w, e))
  {
    hide Next, Aligned;
    match e
    case TxTick(i) => TickKeepsAligned(p, w, i);
    case TxDoneIrq => DoneKeepsAligned(p, w);
    case RxTock(i) => TockKeepsAligned(p, w, i);
    case Deliver => DeliverKeepsAligned(p, w);
    case _ => AsideKeepsAligned(p, w, e);
  }

  /** Commits, loop polls and losses move no slot and no hop. */
  predicate KeepsSlot(w: World, v: World) {
    && v.tx.nonce == w.tx.nonce && v.tx.hopIndex == w.tx.hopIndex && v.tx.busy == w.tx.busy
    && v.tx.divisor == w.tx.divisor && (PhaseFits(w.tx) ==> PhaseFits(v.tx))
    && v.rx.nonce == w.rx.nonce && v.rx.hopIndex == w.rx.hopIndex && v.rx.divisor == w.rx.divisor
    && (v.rx.link != Lost ==> w.rx.link != Lost)
    && v.lead == w.lead && (v.flight == w.flight || v.flight.None?)
  }

  predicate Aside(e: Event) {
    !e.TxTick? && !e.TxDoneIrq? && !e.RxTock? && !e.Deliver?
  }

  lemma AsideKeepsSlot(p: Pair, w: World, e: Event)
    requires p.Valid() && Enabled(p, w, e) && Aside(e)
    ensures KeepsSlot(w, Next(p, w, e))
  {
    hide BurstMax, Elapsed, LostTimeoutMs;
  }

  lemma AsideKeepsAligned(p: Pair, w: World, e: Event)
    requires p.Valid() && Aligned(p, w) && Enabled(p, w, e) && Aside(e)
    ensures Aligned(p, Next(p, w, e))
  {
    AsideKeepsSlot(p, w, e);
    hide Next, Enabled, SameHop, Ahead;
  }

  lemma {:induction false} RunKeepsAligned(p: Pair, w: World, events: seq<Event>)
    requires p.Valid() && Aligned(p, w) && Run(p, w, events) && CalmRun(p, w, events)
    ensures Aligned(p, After(p, w, events))
    decreases |events|
  {
    if events != [] {
      StepKeepsAligned(p, w, events[0]);
      RunKeepsAligned(p, Next(p, w, events[0]), events[1..]);
    }
  }

  /** The two ends are in the same slot and the transmitter has not yet retuned for the next one. */
  predicate InSameSlot(h: Hops, w: World)
    requires h.Valid()
  {
    w.rx.link != Lost && w.lead == 0 && (w.tx.busy || !h.LastOfDwell(w.tx.nonce))
  }

  /**
   In a shared slot the nonces are equal and the hop indices name the same table entry; they are equal
   outright unless a commit has left the transmitter's past the table.
   */
  predicate InLockstep(p: Pair, w: World)
    requires p.Valid()
  {
    && (w.rx.link != Lost && w.lead == 0 ==> w.tx.nonce == w.rx.nonce)
    && (InSameSlot(p.tx.hops, w) ==> w.tx.hopIndex % p.tx.hops.count == w.rx.hopIndex)
    && (InSameSlot(p.tx.hops, w) && w.tx.hopIndex < p.tx.hops.count ==> w.tx.hopIndex == w.rx.hopIndex)
  }

  lemma AlignedIsLockstep(p: Pair, w: World)
    requires p.Valid() && Aligned(p, w)
    ensures InLockstep(p, w)
  {
    hide SameHop, Ahead, FlightCurrent, Settled;
    if InSameSlot(p.tx.hops, w) {
      SharedSlotIndices(p.tx.hops, w.tx, w.rx);
    }
  }

  /** Lockstep over any interleaving of ordinary, telemetry and commit slots, lost and delivered syncs, across nonce wrap. */
  lemma Lockstep(p: Pair, w: World, events: seq<Event>)
    requires p.Valid() && Aligned(p, w) && Run(p, w, events) && CalmRun(p, w, events)
    ensures InLockstep(p, After(p, w, events))
  {
    hide InLockstep, Aligned, Run, CalmRun, After;
    RunKeepsAligned(p, w, events);
    AlignedIsLockstep(p, After(p, w, events));
  }

  /** The same from power-up, with nothing assumed of the state: the first sync brings the receiver in. */
  lemma LockstepFromPowerUp(p: Pair, events: seq<Event>)
    requires p.Valid() && Run(p, PowerUp(), events) && CalmRun(p, PowerUp(), events)
    ensures InLockstep(p, After(p, PowerUp(), events))
  {
    hide InLockstep;
    Lockstep(p, PowerUp(), events);
  }

  lemma SharedSlotIndices(h: Hops, tx: TxState, rx: RxState)
    requires h.Valid() && Agree(h, tx, rx, 0) && rx.hopIndex < h.count
    requires tx.busy || !h.LastOfDwell(tx.nonce)
    ensures tx.hopIndex % h.count == rx.hopIndex
    ensures tx.hopIndex < h.count ==> tx.hopIndex == rx.hopIndex
  {
    assert SameHop(h, tx.hopIndex, rx.hopIndex) by {
      hide SameHop;
      hide Hops.FirstOfDwell;
      hide Hops.LastOfDwell;
      AheadOneMore(h, rx.nonce, rx.hopIndex, 0);
      DwellFollowsWrap(h, rx.nonce);
      SameHopBeforeRetune(h, tx.hopIndex, rx.hopIndex);
    }
    Quotients.QuotientUnique(rx.hopIndex, h.count, 0, rx.hopIndex);
    if tx.hopIndex < h.count {
      Quotients.QuotientUnique(tx.hopIndex, h.count, 0, tx.hopIndex);
    }
  }

  /** Successors naming the same entry come from indices naming the same entry. */
  lemma SameHopBeforeRetune(h: Hops, a: int, b: int)
    requires h.Valid()
    ensures SameHop(h, a + 1, b + 1) ==> SameHop(h, a, b)
  {
    if SameHop(h, a + 1, b + 1) {
      var r := (a + 1) % h.count;
      Quotients.ShiftByMultiple(r - 1, h.count, (a + 1) / h.count);
      Quotients.ShiftByMultiple(r - 1, h.count, (b + 1) / h.count);
      assert a == r - 1 + h.count * ((a + 1) / h.count);
      assert b == r - 1 + h.count * ((b + 1) / h.count);
    }
  }

  // ----- repair -----

  /** What every run keeps, hops lost or not: enough for the next sync to start from. */
  predicate Grounded(p: Pair, w: World)
    requires p.Valid()
  {
    && ValidDivisor(w.tx.divisor) && ValidDivisor(w.rx.divisor)
    && PhaseFits(w.tx) && FlightCurrent(p, w)
    && (w.rx.link != Lost ==> w.rx.hopIndex < p.tx.hops.count)
  }

  lemma TickKeepsGrounded(p: Pair, w: World, i: TickInput)
    requires p.Valid() && Grounded(p, w) && Enabled(p, w, TxTick(i))
    ensures Grounded(p, Next(p, w, TxTick(i)))
  {
    Collisions.TickSlots(p.tx, w.tx, i, false);
    hide Ahead, SameHop, Settled;
    if Tick(p.tx, w.tx, i).air.Sync? {
      TickFliesCurrent(p.tx, w.tx, i);
      SameHopReflexive(p.tx.hops, Settled(p.tx.hops, Tick(p.tx, w.tx, i).state));
    }
    hide Tick;
  }

  lemma DoneKeepsGrounded(p: Pair, w: World)
    requires p.Valid() && Grounded(p, w) && Enabled(p, w, TxDoneIrq)
    ensures Grounded(p, Next(p, w, TxDoneIrq))
  {
    NextIsSuccessor(p.tx.hops, w.tx.hopIndex);
    if TelemetrySlot(w.tx.nonce + 1, w.tx.divisor) {
      TelemetryNonceIsEven(w.tx.divisor, w.tx.nonce + 1);
    }
    hide Ahead;
  }

  lemma TockKeepsGrounded(p: Pair, w: World, i: TockInput)
    requires p.Valid() && Grounded(p, w) && Enabled(p, w, RxTock(i))
    ensures Grounded(p, Next(p, w, RxTock(i)))
  {
    TockFrame(p.rx, w.rx, i);
    hide Tock, Ahead, SameHop, Settled;
  }

  lemma DeliverAligns(p: Pair, w: World)
    requires p.Valid() && Grounded(p, w) && Enabled(p, w, Deliver)
    ensures Aligned(p, Next(p, w, Deliver))
  {
    SyncAligns(p, w.tx, w.rx, w.flight.value);
    DivisorIsValid(w.flight.value.ratioBits + TLM_NO_TLM);
    hide ReceiveSync, Agree;
  }

  lemma StepKeepsGrounded(p: Pair, w: World, e: Event)
    requires p.Valid() && Grounded(p, w) && Enabled(p, w, e)
    ensures Grounded(p, Next(p, w, e))
  {
    if e.TxTick? {
      TickKeepsGrounded(p, w, e.tick);
    } else if e.TxDoneIrq? {
      DoneKeepsGrounded(p, w);
    } else if e.RxTock? {
      TockKeepsGrounded(p, w, e.tock);
    } else if e.Deliver? {
      DeliverAligns(p, w);
      hide Next, Agree, FlightCurrent;
    } else {
      AsideKeepsSlot(p, w, e);
      hide Next, Enabled, SameHop, Ahead;
    }
  }

  lemma {:induction false} RunKeepsGrounded(p: Pair, w: World, events: seq<Event>)
    requires p.Valid() && Grounded(p, w) && Run(p, w, events)
    ensures Grounded(p, After(p, w, events))
    decreases |events|
  {
    if events != [] {
      StepKeepsGrounded(p, w, events[0]);
      RunKeepsGrounded(p, Next(p, w, events[0]), events[1..]);
    }
  }

  lemma {:induction false} RunInTwo(p: Pair, w: World, first: seq<Event>, second: seq<Event>)
    requires p.Valid() && Run(p, w, first + second)
    ensures Run(p, w, first) && Run(p, After(p, w, first), second)
    ensures After(p, w, first + second) == After(p, After(p, w, first), second)
    decreases |first|
  {
    if first == [] {
      assert first + second == second;
    } else {
      assert (first + second)[1..] == first[1..] + second;
      RunInTwo(p, Next(p, w, first[0]), first[1..], second);
    }
  }

  /** Whatever a run from power-up has lost or broken, a sync delivered at its end restores the agreement. */
  lemma DeliveredSyncRepairs(p: Pair, events: seq<Event>)
    requires p.Valid() && Run(p, PowerUp(), events + [Deliver])
    ensures Aligned(p, After(p, PowerUp(), events + [Deliver]))
  {
    RunInTwo(p, PowerUp(), events, [Deliver]);
    RunKeepsGrounded(p, PowerUp(), events);
    var w := After(p, PowerUp(), events);
    assert Enabled(p, w, [Deliver][0]);
    DeliverAligns(p, w);
    assert After(p, w, [Deliver]) == Next(p, w, Deliver);
  }

  /** Even a receiver whose timer had slipped by whole slots, or that had hopped elsewhere, is realigned by the next sync. */
  lemma DeliveredSyncRepairsSlip(p: Pair, events: seq<Event>, slipped: RxState)
    requires p.Valid() && Run(p, PowerUp(), events)
    requires slipped.link != Lost && ValidDivisor(slipped.divisor) && slipped.hopIndex < p.tx.hops.count
    requires var w := After(p, PowerUp(), events); w.flight.Some? && Accepts(p.rx, w.flight.value)
    ensures var v := After(p, PowerUp(), events).(rx := slipped, lead := 0);
            Enabled(p, v, Deliver) && Aligned(p, Next(p, v, Deliver))
  {
    RunKeepsGrounded(p, PowerUp(), events);
    var w := After(p, PowerUp(), events);
    var v := w.(rx := slipped, lead := 0);
    assert Grounded(p, v);
    DeliverAligns(p, v);
  }

  /** So after any run the ends are in lockstep again from the last delivered sync on, while no hop is lost after it. */
  lemma LockstepSinceSync(p: Pair, before: seq<Event>, since: seq<Event>)
    requires p.Valid() && Run(p, PowerUp(), before + [Deliver])
    requires Run(p, After(p, PowerUp(), before + [Deliver]), since)
    requires CalmRun(p, After(p, PowerUp(), before + [Deliver]), since)
    ensures InLockstep(p, After(p, After(p, PowerUp(), before + [Deliver]), since))
  {
    hide InLockstep, Aligned;
    DeliveredSyncRepairs(p, before);
    Lockstep(p, After(p, PowerUp(), before + [Deliver]), since);
  }

  lemma TickStaysInTable(c: Config, s: TxState, i: TickInput)
    requires c.Valid() && ValidDivisor(s.divisor) && !s.committing && !s.busy
    ensures var v := Tick(c, s, i).state;
            !v.committing && v.hopIndex == s.hopIndex && ValidDivisor(v.divisor)
  {
    SendFrame(c, s.(nonce := U8(s.nonce + 1), phase := Transmitting), i);
  }

  lemma EventStaysInTable(p: Pair, w: World, e: Event)
    requires p.Valid() && Enabled(p, w, e) && !e.CommitBegins?
    requires !w.tx.committing && w.tx.hopIndex < p.tx.hops.count && ValidDivisor(w.tx.divisor)
    ensures var v := Next(p, w, e);
            !v.tx.committing && v.tx.hopIndex < p.tx.hops.count && ValidDivisor(v.tx.divisor)
  {
    if e.TxTick? {
      TickStaysInTable(p.tx, w.tx, e.tick);
    }
    hide Tick, Tock, ReceiveSync, ValidDivisor;
  }

  /** Without commits the transmitter's index never leaves the table, so the indices are equal outright. */
  lemma {:induction false} CommitFreeRunStaysInTable(p: Pair, w: World, events: seq<Event>)
    requires p.Valid() && Run(p, w, events) && forall e :: e in events ==> !e.CommitBegins?
    requires !w.tx.committing && w.tx.hopIndex < p.tx.hops.count && ValidDivisor(w.tx.divisor)
    ensures var v := After(p, w, events); !v.tx.committing && v.tx.hopIndex < p.tx.hops.count
    decreases |events|
  {
    if events != [] {
      assert events[0] in events;
      EventStaysInTable(p, w, events[0]);
      hide Next;
      CommitFreeRunStaysInTable(p, Next(p, w, events[0]), events[1..]);
    }
  }

  // ----- what breaks agreement, and what a sync does to it -----

  /** A commit that hops off the last table entry leaves an index the receiver never reaches. */
  lemma CommitLeavesTable(c: Config, s: TxState)
    requires c.Valid() && c.hops.interval == 4 && c.hops.count == 240
    requires s.committing && s.nonce == 2 && s.hopIndex == 239
    ensures CommitTick(c, s).hopIndex == 240 && c.hops.Next(s.hopIndex) == 0
  {
  }

  /** Exactly the silent last slot and the commit hop off the end of the byte break agreement. */
  lemma TickBreaksAgreement(p: Pair, w: World, i: TickInput)
    requires p.Valid() && Aligned(p, w) && Enabled(p, w, TxTick(i))
    requires w.rx.link != Lost && p.tx.hops.count > 1
    ensures var v := Next(p, w, TxTick(i));
            Agree(p.tx.hops, v.tx, v.rx, v.lead) <==> !LosesHop(p.tx, w.tx, i) && !RunsOffByte(p.tx, w.tx)
  {
    var h, v := p.tx.hops, Next(p, w, TxTick(i));
    if LosesHop(p.tx, w.tx, i) {
      assert Settled(h, v.tx) == w.tx.hopIndex;
      HopMissed(h, w.tx, v.tx, w.rx, w.lead);
    } else if RunsOffByte(p.tx, w.tx) {
      assert Settled(h, v.tx) == 0;
      HopMissed(h, w.tx, v.tx, w.rx, w.lead);
    } else {
      TickKeepsAligned(p, w, i);
    }
  }

  /** Entering the last slot of a dwell without settling one hop on loses the receiver. */
  lemma HopMissed(h: Hops, before: TxState, after: TxState, rx: RxState, lead: int)
    requires h.Valid() && h.count > 1 && Agree(h, before, rx, lead) && lead <= 0
    requires !before.busy && after.nonce == U8(before.nonce + 1) && h.LastOfDwell(after.nonce)
    requires Settled(h, after) == before.hopIndex
             || (before.hopIndex == 255 && Settled(h, after) == 0 && 256 % h.count != 0)
    ensures !Agree(h, after, rx, lead + 1)
  {
    var reach := Ahead(h, rx.nonce, rx.hopIndex, lead + 1);
    AheadOneMore(h, rx.nonce, rx.hopIndex, lead + 1);
    assert after.nonce == U8(rx.nonce + lead + 1) by {
      Quotients.ModOfMod(rx.nonce + lead, 0x100);
    }
    DwellFollowsWrap(h, rx.nonce + lead + 1);
    assert Ahead(h, rx.nonce, rx.hopIndex, lead + 2) == reach + 1;
    if Settled(h, after) == before.hopIndex {
      SuccessorDiffers(before.hopIndex, reach, h.count);
    } else {
      SuccessorsAgree(255, reach, h.count);
      Quotients.QuotientUnique(0, h.count, 0, 0);
    }
  }

  lemma SuccessorDiffers(a: int, b: int, d: int)
    requires d > 1 && a % d == b % d
    ensures a % d != (b + 1) % d
  {
    var r := b % d;
    Quotients.ShiftByMultiple(r + 1, d, b / d);
    assert b + 1 == r + 1 + d * (b / d);
    if r + 1 < d {
      Quotients.QuotientUnique(r + 1, d, 0, r + 1);
    } else {
      Quotients.QuotientUnique(r + 1, d, 1, 0);
    }
  }

  /**
   In an agreeing link with unchanged model match, a sync is a no-op on nonce, index and link exactly
   when its index lies in the table: a commit that has left the table demotes the receiver.
   */
  lemma SyncLeavesAgreeingLinkAlone(p: Pair, w: World)
    requires p.Valid() && Aligned(p, w) && Enabled(p, w, Deliver)
    requires w.rx.link == Established && w.rx.modelMatched == ModelMatches(p.rx, w.flight.value)
    ensures var v := Next(p, w, Deliver);
            (v.rx.nonce == w.rx.nonce && v.rx.hopIndex == w.rx.hopIndex && v.rx.link == Established)
            <==> w.flight.value.hopIndex < p.tx.hops.count
  {
    hide Ahead, SameHop, Settled, ModelMatches, ReceiveSync;
    var h, packet := p.tx.hops, w.flight.value;
    assert packet.nonce == w.tx.nonce == w.rx.nonce;
    SharedSlotPacket(h, Settled(h, w.tx), w.tx.nonce, packet.hopIndex, w.rx.hopIndex);
    InTableExactly(h, packet.hopIndex, w.rx.hopIndex);
    SyncOfHeldSlot(p.rx, w.rx, packet);
  }

  /** A sync of the slot a connected receiver is in leaves it alone exactly if it names the index held. */
  lemma SyncOfHeldSlot(c: RxConfig, s: RxState, packet: SyncPacket)
    requires c.Valid() && Accepts(c, packet) && s.link == Established && s.modelMatched == ModelMatches(c, packet)
    requires packet.nonce == s.nonce
    ensures var v := ReceiveSync(c, s, packet);
            v.nonce == s.nonce && v.hopIndex == s.hopIndex && v.link == Established <==> packet.hopIndex == s.hopIndex
  {
    hide Hops.Set, ModelMatches, Divisor, SwitchPending;
  }

  /** An index names the entry of one in the table, and is that one exactly if it lies in the table too. */
  lemma InTableExactly(h: Hops, index: nat, held: nat)
    requires h.Valid() && SameHop(h, index, held) && held < h.count
    ensures h.Set(index) == held && (index == held <==> index < h.count)
  {
    Quotients.QuotientUnique(held, h.count, 0, held);
    if index < h.count {
      Quotients.QuotientUnique(index, h.count, 0, index);
    }
  }

  lemma SharedSlotPacket(h: Hops, settled: int, nonce: int, a: int, b: int)
    requires h.Valid() && SameHop(h, settled, Ahead(h, nonce, a, 1)) && SameHop(h, settled, Ahead(h, nonce, b, 1))
    ensures SameHop(h, a, b)
  {
    AheadOneMore(h, nonce, a, 0);
    AheadOneMore(h, nonce, b, 0);
    SameHopBeforeRetune(h, a, b);
  }
}
