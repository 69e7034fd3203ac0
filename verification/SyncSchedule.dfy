/** When sync packets go out: within the dwell they are due in, on a slot that rotates. */
module SyncSchedule {
  import opened Words
  import opened Rates
  import opened Hopping
  import opened TxSlots
  import opened SlotRuns
  import opened Collisions
  import Quotients

  // What the main loop may do between two slots
  datatype LoopEvent = Hears(heardMs: uint32) | Polls(nowMs: uint32) | Respams

  datatype Slot = Slot(tick: TickInput, loop: seq<LoopEvent>)

  function AfterLoop(c: Config, s: TxState, loop: seq<LoopEvent>): TxState {
    if loop == [] then s
    else
      var before := AfterLoop(c, s, loop[..|loop| - 1]);
      match loop[|loop| - 1]
      case Hears(heardMs) => ReceiveTelemetry(before, heardMs)
      case Polls(nowMs) => PollConnection(c, before, nowMs)
      case Respams => Respam(before)
  }

  /** One whole slot: the tick, its transmit-done if it transmitted, and the main loop. */
  function RunSlot(c: Config, s: TxState, slot: Slot): TxState
    requires c.Valid()
  {
    var t := Tick(c, s, slot.tick).state;
    AfterLoop(c, if t.busy then TxDone(c, t) else t, slot.loop)
  }

  /** The state before slot `k`. */
  function StateAt(c: Config, s: TxState, slots: seq<Slot>, k: nat): TxState
    requires c.Valid() && k <= |slots|
  {
    if k == 0 then s else RunSlot(c, StateAt(c, s, slots, k - 1), slots[k - 1])
  }

  function AirAt(c: Config, s: TxState, slots: seq<Slot>, k: nat): Air
    requires c.Valid() && k < |slots|
  {
    Tick(c, StateAt(c, s, slots, k), slots[k].tick).air
  }

  /** Only before a telemetry slot does the transmitter prepare to listen; after a skipped slot it need not have. */
  predicate Prepared(s: TxState) {
    !s.busy && (s.phase == PreReceiveGap ==> TelemetrySlot(s.nonce + 1, s.divisor))
  }

  /** About to tick into slot 0 of a dwell on the sync channel. */
  predicate SyncDwell(c: Config, s: TxState)
    requires c.Valid()
  {
    && !s.committing && s.connection != AwaitingModelId
    && ValidDivisor(s.divisor) && Prepared(s) && PhaseFits(s)
    && c.hops.FirstOfDwell(s.nonce + 1) && c.hops.OnSyncChannel(s.hopIndex)
    && s.syncSlot < 2 * c.hops.interval
  }

  /** The slots of one dwell: transmitting, sync not suppressed, and the clock stays within one wrap of the last sync. */
  predicate DwellSlots(c: Config, s: TxState, slots: seq<Slot>, sentMs: nat, clock: seq<nat>) {
    && |slots| == |clock| == c.hops.interval
    && s.syncSentMs == U32(sentMs)
    && (forall k :: 0 <= k < |slots| ==>
          && !SilentSlot(c, slots[k].tick) && !SyncSuppressed(c, s, slots[k].tick)
          && slots[k].tick.nowMs == U32(clock[k])
          && sentMs <= clock[k] && clock[k] - sentMs < 0x1_0000_0000)
  }

  /** In slot `k` a sync is due by the clock and by the interval that goes with the connection then. */
  predicate DueAt(c: Config, s: TxState, slots: seq<Slot>, sentMs: nat, clock: seq<nat>, k: nat)
    requires c.Valid() && k < |slots| == |clock|
  {
    clock[k] - sentMs > SyncIntervalMs(c, StateAt(c, s, slots, k))
  }

  /** Slot `syncSlot / 2`, or the one after it if the transmitter listens in that one. */
  function DueSlot(s: TxState): nat {
    var slot := s.syncSlot / 2;
    if Listens(s, slot) then slot + 1 else slot
  }

  /** What slots without a sync leave untouched. */
  predicate Waiting(c: Config, s: TxState, v: TxState, k: nat) {
    && v.nonce == U8(s.nonce + k) && v.hopIndex == s.hopIndex
    && v.syncSlot == s.syncSlot && v.syncSentMs == s.syncSentMs
    && v.connection != AwaitingModelId && v.divisor == s.divisor && v.committing == s.committing
    && PhaseFits(v) && if k == 0 then v.phase == s.phase && Prepared(v) else Decided(v)
  }

  /** The slot is one the transmitter listens in. */
  predicate Listens(s: TxState, k: nat) {
    if k == 0 then s.phase == PreReceiveGap else TelemetrySlot(s.nonce + 1 + k, s.divisor)
  }

  lemma DueSlotInDwell(c: Config, s: TxState)
    requires c.Valid() && SyncDwell(c, s)
    ensures DueSlot(s) < c.hops.interval && !Listens(s, DueSlot(s))
  {
    TelemetryNonceIsEven(c.hops.interval, s.nonce + 1);
    if Listens(s, s.syncSlot / 2) {
      ApartTelemetrySlots(s.nonce + 1, s.syncSlot / 2, s.divisor, c.hops.interval);
    }
  }

  /** In a dwell, a telemetry slot is followed by one that is not. */
  lemma ApartTelemetrySlots(start: int, slot: nat, divisor: uint8, interval: nat)
    requires ValidDivisor(divisor) && ValidHop(interval) && start % 2 == 0 && slot < interval
    requires TelemetrySlot(start + slot, divisor)
    ensures slot + 1 < interval && !TelemetrySlot(start + slot + 1, divisor)
  {
    TelemetryNonceIsEven(divisor, start + slot);
    if TelemetrySlot(start + slot + 1, divisor) {
      TelemetryNonceIsEven(divisor, start + slot + 1);
    }
  }

  lemma SlotNumber(h: Hops, nonce: uint8, k: nat)
    requires h.Valid() && h.FirstOfDwell(nonce + 1) && k < h.interval
    ensures U8(nonce + 1 + k) % h.interval == k
  {
    hide U8;
    var d := h.interval;
    WrapKeepsResidue(nonce + 1 + k, d);
    Quotients.QuotientUnique(k, d, 0, k);
    Quotients.ShiftByMultiple(k, d, (nonce + 1) / d);
    Quotients.FloorBound(nonce + 1, d);
    assert nonce + 1 + k == k + d * ((nonce + 1) / d);
  }

  /** A transmitting slot without a sync packet changes none of the sync bookkeeping but the spam count. */
  lemma PayloadSlot(c: Config, s: TxState, i: TickInput)
    requires c.Valid() && ValidDivisor(s.divisor) && !s.busy && !s.committing && s.connection != AwaitingModelId
    requires PhaseFits(s) && s.phase != PreReceiveGap && !SilentSlot(c, i) && !Tick(c, s, i).air.Sync?
    ensures var t := Tick(c, s, i).state;
            && t.busy && t.nonce == U8(s.nonce + 1) && t.hopIndex == s.hopIndex && t.phase == Transmitting
            && t.syncSlot == s.syncSlot && t.syncSentMs == s.syncSentMs && !t.committing
            && t.connection == s.connection && t.divisor == s.divisor
            && t.spamAfterRate == s.spamAfterRate
            && (s.spam == 0 && s.boost != BoostIdle ==> t.spam == 0 && t.boost != BoostIdle)
            && (s.spam == 0 && !i.dataQueued && !i.rcStale ==> t.spam == 0)
  {
    var s1 := s.(nonce := U8(s.nonce + 1), phase := Transmitting);
    SyncFrame(c, s1.(busy := true), i, 0);
    SyncFrame(c, s1.(busy := true), i, NextSyncSlot(c, s1.syncSlot));
  }

  /** Before its last slot, a dwell's slots end without a hop. */
  lemma NotLastSlot(h: Hops, nonce: uint8, k: nat, t: uint8)
    requires h.Valid() && h.FirstOfDwell(nonce + 1) && k + 1 < h.interval && t == U8(nonce + 1 + k)
    ensures !h.LastOfDwell(t)
  {
    SlotNumber(h, nonce, k + 1);
    assert U8(t + 1) == U8(nonce + 1 + (k + 1));
    WrapKeepsResidue(t + 1, h.interval);
  }

  lemma SlotKeepsWaiting(c: Config, s: TxState, v: TxState, k: nat, slot: Slot)
    requires c.Valid() && SyncDwell(c, s) && Waiting(c, s, v, k) && k + 1 < c.hops.interval
    requires !SilentSlot(c, slot.tick) && !Tick(c, v, slot.tick).air.Sync?
    ensures Waiting(c, s, RunSlot(c, v, slot), k + 1)
  {
    assert U8(U8(s.nonce + k) + 1) == U8(s.nonce + k + 1) by {
      Quotients.ModOfMod(s.nonce + k, 0x100);
    }
    var t := Tick(c, v, slot.tick).state;
    var done := if t.busy then TxDone(c, t) else t;
    hide U8, TelemetrySlot, Hops.LastOfDwell, Hops.FirstOfDwell, Tick, AfterLoop, ValidDivisor;
    if v.phase == PreReceiveGap {
      GapKeepsWaiting(c, v, slot.tick);
    } else {
      PayloadSlot(c, v, slot.tick);
      NotLastSlot(c.hops, s.nonce, k, t.nonce);
      DoneDecides(c, t);
    }
    LoopKeepsSlot(c, done, slot.loop);
  }

  predicate LoopFrame(s: TxState, v: TxState, respammed: bool, polled: bool) {
    && v == s.(connection := v.connection, lastTlmMs := v.lastTlmMs, spam := v.spam, spamAfterRate := v.spamAfterRate)
    && v.connection != AwaitingModelId
    && (!respammed ==> v.spam == s.spam && v.spamAfterRate == s.spamAfterRate)
    && (!polled ==> v.connection == s.connection)
  }

  lemma LoopEventKeepsSlot(c: Config, s: TxState, loop: seq<LoopEvent>)
    requires loop != [] && AfterLoop(c, s, loop[..|loop| - 1]).connection != AwaitingModelId
    ensures var e := loop[|loop| - 1];
            LoopFrame(AfterLoop(c, s, loop[..|loop| - 1]), AfterLoop(c, s, loop), e.Respams?, e.Polls?)
  {
    hide LostTimeoutMs, Elapsed;
  }

  /** The main loop moves no slot; what it may change is the connection, the telemetry stamp and the spam counters. */
  lemma {:induction false} LoopKeepsSlot(c: Config, s: TxState, loop: seq<LoopEvent>)
    requires s.connection != AwaitingModelId
    ensures LoopFrame(s, AfterLoop(c, s, loop), Respams in loop, exists e :: e in loop && e.Polls?)
  {
    if loop != [] {
      LoopKeepsSlot(c, s, loop[..|loop| - 1]);
      assert loop[|loop| - 1] in loop;
      LoopEventKeepsSlot(c, s, loop);
      hide AfterLoop;
    }
  }

  lemma GapKeepsWaiting(c: Config, v: TxState, i: TickInput)
    requires c.Valid() && ValidDivisor(v.divisor) && Prepared(v) && PhaseFits(v) && v.phase == PreReceiveGap
    requires !v.committing && v.connection != AwaitingModelId
    ensures var t := Tick(c, v, i).state;
            t == v.(nonce := U8(v.nonce + 1), phase := ExpectingTelem) && Decided(t) && PhaseFits(t)
  {
    GapOutcome(v, true);
  }

  lemma DoneDecides(c: Config, t: TxState)
    requires c.Valid() && ValidDivisor(t.divisor) && !c.hops.LastOfDwell(t.nonce)
    requires t.busy && !t.committing && t.phase == Transmitting && t.connection != AwaitingModelId
    ensures Decided(TxDone(c, t)) && PhaseFits(TxDone(c, t)) && TxDone(c, t).hopIndex == t.hopIndex
  {
    if TelemetrySlot(t.nonce + 1, t.divisor) {
      TelemetryNonceIsEven(t.divisor, t.nonce + 1);
    }
  }

  lemma WaitingAtStart(c: Config, s: TxState)
    requires c.Valid() && SyncDwell(c, s)
    ensures Waiting(c, s, s, 0)
  {
  }

  lemma {:induction false} StaysWaiting(c: Config, s: TxState, slots: seq<Slot>, k: nat)
    requires c.Valid() && SyncDwell(c, s) && |slots| == c.hops.interval && k < |slots|
    requires forall j :: 0 <= j < |slots| ==> !SilentSlot(c, slots[j].tick)
    requires forall j :: 0 <= j < k ==> !AirAt(c, s, slots, j).Sync?
    ensures Waiting(c, s, StateAt(c, s, slots, k), k)
  {
    hide Waiting, Tick, RunSlot, SyncDwell;
    if k == 0 {
      WaitingAtStart(c, s);
    } else {
      StaysWaiting(c, s, slots, k - 1);
      assert !AirAt(c, s, slots, k - 1).Sync?;
      SlotKeepsWaiting(c, s, StateAt(c, s, slots, k - 1), k - 1, slots[k - 1]);
    }
  }

  /** Still waiting when the due slot arrives, the transmitter sends a sync packet in it. */
  lemma DueSlotSends(c: Config, s: TxState, v: TxState, i: TickInput)
    requires c.Valid() && SyncDwell(c, s) && Waiting(c, s, v, DueSlot(s))
    requires !SilentSlot(c, i) && !SyncSuppressed(c, s, i) && TimeDue(c, v, i.nowMs)
    ensures Tick(c, v, i).air.Sync?
  {
    DueSlotInDwell(c, s);
    SlotNumber(c.hops, s.nonce, DueSlot(s));
    SameListening(c, s, v, DueSlot(s));
    var s1 := v.(nonce := U8(s.nonce + 1 + DueSlot(s)), phase := Transmitting, busy := true);
    assert RegularDue(c, s1, i);
  }

  /** A waiting transmitter listens in slot `k` just if that slot is one for listening. */
  lemma SameListening(c: Config, s: TxState, v: TxState, k: nat)
    requires ValidDivisor(s.divisor) && Waiting(c, s, v, k)
    ensures U8(v.nonce + 1) == U8(s.nonce + 1 + k)
    ensures v.phase == PreReceiveGap <==> Listens(s, k)
  {
    Quotients.ModOfMod(s.nonce + k, 0x100);
    assert U8(v.nonce + 1) == U8(s.nonce + 1 + k);
    hide U8;
    WrapKeepsResidue(v.nonce + 1, s.divisor);
    WrapKeepsResidue(s.nonce + 1 + k, s.divisor);
  }

  /**
   On a sync-channel dwell a sync goes out no later than its due slot, if by then one is due: whatever the
   main loop does in between, and even if the slot before the dwell was skipped.
   */
  lemma SyncGoesOut(c: Config, s: TxState, slots: seq<Slot>, sentMs: nat, clock: seq<nat>)
    requires c.Valid() && SyncDwell(c, s) && DwellSlots(c, s, slots, sentMs, clock)
    requires DueSlot(s) < |slots| ==> DueAt(c, s, slots, sentMs, clock, DueSlot(s))
    ensures exists k :: 0 <= k <= DueSlot(s) < |slots| && AirAt(c, s, slots, k).Sync?
  {
    var due := DueSlot(s);
    DueSlotInDwell(c, s);
    if forall j :: 0 <= j < due ==> !AirAt(c, s, slots, j).Sync? {
      StaysWaiting(c, s, slots, due);
      ElapsedIsTrueDifference(clock[due], sentMs);
      DueSlotSends(c, s, StateAt(c, s, slots, due), slots[due].tick);
      assert AirAt(c, s, slots, due).Sync?;
    }
  }

  /** Without a poll in the dwell, due at its start is due throughout. */
  lemma DueAtStartStaysDue(c: Config, s: TxState, slots: seq<Slot>, sentMs: nat, clock: seq<nat>, k: nat)
    requires c.Valid() && SyncDwell(c, s) && DwellSlots(c, s, slots, sentMs, clock) && k < |slots|
    requires forall j :: 0 <= j < |slots| ==> clock[0] <= clock[j] && forall e :: e in slots[j].loop ==> !e.Polls?
    requires clock[0] - sentMs > SyncIntervalMs(c, s)
    requires forall j :: 0 <= j < k ==> !AirAt(c, s, slots, j).Sync?
    ensures DueAt(c, s, slots, sentMs, clock, k)
  {
    ConnectionStays(c, s, slots, k);
  }

  lemma {:induction false} ConnectionStays(c: Config, s: TxState, slots: seq<Slot>, k: nat)
    requires c.Valid() && SyncDwell(c, s) && |slots| == c.hops.interval && k < |slots|
    requires forall j :: 0 <= j < |slots| ==> !SilentSlot(c, slots[j].tick) && forall e :: e in slots[j].loop ==> !e.Polls?
    requires forall j :: 0 <= j < k ==> !AirAt(c, s, slots, j).Sync?
    ensures StateAt(c, s, slots, k).connection == s.connection
  {
    hide Waiting, Tick, RunSlot, SyncDwell, SilentSlot;
    if k > 0 {
      ConnectionStays(c, s, slots, k - 1);
      StaysWaiting(c, s, slots, k - 1);
      assert !AirAt(c, s, slots, k - 1).Sync?;
      SlotKeepsConnection(c, s, StateAt(c, s, slots, k - 1), k - 1, slots[k - 1]);
    }
  }

  lemma SlotKeepsConnection(c: Config, s: TxState, v: TxState, k: nat, slot: Slot)
    requires c.Valid() && SyncDwell(c, s) && Waiting(c, s, v, k) && !SilentSlot(c, slot.tick)
    requires !Tick(c, v, slot.tick).air.Sync? && forall e :: e in slot.loop ==> !e.Polls?
    ensures RunSlot(c, v, slot).connection == v.connection
  {
    var t := Tick(c, v, slot.tick).state;
    if v.phase == PreReceiveGap {
      GapKeepsWaiting(c, v, slot.tick);
    } else {
      PayloadSlot(c, v, slot.tick);
    }
    LoopKeepsSlot(c, if t.busy then TxDone(c, t) else t, slot.loop);
  }

  /** So a sync due when its dwell starts goes out in that dwell, unless a poll changes the interval meanwhile. */
  lemma SyncDueAtStartGoesOut(c: Config, s: TxState, slots: seq<Slot>, sentMs: nat, clock: seq<nat>)
    requires c.Valid() && SyncDwell(c, s) && DwellSlots(c, s, slots, sentMs, clock)
    requires forall j :: 0 <= j < |slots| ==> clock[0] <= clock[j] && forall e :: e in slots[j].loop ==> !e.Polls?
    requires clock[0] - sentMs > SyncIntervalMs(c, s)
    ensures exists k :: 0 <= k <= DueSlot(s) < |slots| && AirAt(c, s, slots, k).Sync?
  {
    DueSlotInDwell(c, s);
    if forall j :: 0 <= j < DueSlot(s) ==> !AirAt(c, s, slots, j).Sync? {
      DueAtStartStaysDue(c, s, slots, sentMs, clock, DueSlot(s));
      SyncGoesOut(c, s, slots, sentMs, clock);
    }
  }

  // ----- exactly which slot -----

  /** No sync spam pending or asked for, and no uplink data that would start a telemetry boost. */
  predicate NoSpam(s: TxState, slots: seq<Slot>) {
    && s.spam == 0 && s.spamAfterRate == 0
    && (forall k :: 0 <= k < |slots| ==> Respams !in slots[k].loop)
    && (s.boost != BoostIdle || forall k :: 0 <= k < |slots| ==> !slots[k].tick.dataQueued && !slots[k].tick.rcStale)
  }

  lemma NotBeforeDueSlot(c: Config, s: TxState, v: TxState, k: nat, i: TickInput)
    requires c.Valid() && SyncDwell(c, s) && Waiting(c, s, v, k) && k < DueSlot(s)
    requires v.spam == 0 && v.spamAfterRate == 0 && !SilentSlot(c, i)
    ensures !Tick(c, v, i).air.Sync?
  {
    DueSlotInDwell(c, s);
    SlotNumber(c.hops, s.nonce, k);
    SameListening(c, s, v, k);
  }

  /** NoSpam as one slot hands it to the next. */
  predicate Unprovoked(v: TxState, boosted: bool) {
    v.spam == 0 && v.spamAfterRate == 0 && (boosted ==> v.boost != BoostIdle)
  }

  lemma SlotStaysUnprovoked(c: Config, s: TxState, v: TxState, k: nat, slot: Slot, boosted: bool)
    requires c.Valid() && SyncDwell(c, s) && Waiting(c, s, v, k) && k < DueSlot(s)
    requires !SilentSlot(c, slot.tick) && Unprovoked(v, boosted) && Respams !in slot.loop
    requires boosted || (!slot.tick.dataQueued && !slot.tick.rcStale)
    ensures !Tick(c, v, slot.tick).air.Sync? && Unprovoked(RunSlot(c, v, slot), boosted)
  {
    NotBeforeDueSlot(c, s, v, k, slot.tick);
    var t := Tick(c, v, slot.tick).state;
    if v.phase == PreReceiveGap {
      GapKeepsWaiting(c, v, slot.tick);
    } else {
      PayloadSlot(c, v, slot.tick);
    }
    hide Tick;
    LoopKeepsSlot(c, if t.busy then TxDone(c, t) else t, slot.loop);
  }

  lemma {:induction false} QuietBeforeDueSlot(c: Config, s: TxState, slots: seq<Slot>, k: nat)
    requires c.Valid() && SyncDwell(c, s) && |slots| == c.hops.interval && k <= DueSlot(s) < |slots|
    requires forall j :: 0 <= j < |slots| ==> !SilentSlot(c, slots[j].tick)
    requires NoSpam(s, slots)
    ensures forall j :: 0 <= j < k ==> !AirAt(c, s, slots, j).Sync?
    ensures Waiting(c, s, StateAt(c, s, slots, k), k)
    ensures Unprovoked(StateAt(c, s, slots, k), s.boost != BoostIdle)
  {
    hide Waiting, DueSlot, Tick, RunSlot, SyncDwell;
    if k == 0 {
      WaitingAtStart(c, s);
    } else {
      QuietBeforeDueSlot(c, s, slots, k - 1);
      var v, slot := StateAt(c, s, slots, k - 1), slots[k - 1];
      SlotStaysUnprovoked(c, s, v, k - 1, slot, s.boost != BoostIdle);
      SlotKeepsWaiting(c, s, v, k - 1, slot);
    }
  }

  /** Without spam, the first sync of the dwell is in the due slot itself if and only if it is due then. */
  lemma SyncGoesOutExactly(c: Config, s: TxState, slots: seq<Slot>, sentMs: nat, clock: seq<nat>)
    requires c.Valid() && SyncDwell(c, s) && DwellSlots(c, s, slots, sentMs, clock) && NoSpam(s, slots)
    ensures DueSlot(s) < |slots|
    ensures forall k :: 0 <= k < DueSlot(s) ==> !AirAt(c, s, slots, k).Sync?
    ensures AirAt(c, s, slots, DueSlot(s)).Sync? <==> DueAt(c, s, slots, sentMs, clock, DueSlot(s))
  {
    var due := DueSlot(s);
    DueSlotInDwell(c, s);
    QuietBeforeDueSlot(c, s, slots, due);
    ElapsedIsTrueDifference(clock[due], sentMs);
    var v := StateAt(c, s, slots, due);
    if DueAt(c, s, slots, sentMs, clock, due) {
      DueSlotSends(c, s, v, slots[due].tick);
    } else {
      NotDueSendsNone(c, s, v, due, slots[due].tick);
    }
  }

  /** No regular sync is sent before it is due by the clock. */
  lemma NotDueSendsNone(c: Config, s: TxState, v: TxState, k: nat, i: TickInput)
    requires c.Valid() && SyncDwell(c, s) && Waiting(c, s, v, k)
    requires v.spam == 0 && v.spamAfterRate == 0 && !SilentSlot(c, i) && !TimeDue(c, v, i.nowMs)
    ensures !Tick(c, v, i).air.Sync?
  {
    hide SendSync;
  }

  // ----- rotation -----

  function SyncSlotAfter(c: Config, syncSlot: uint8, syncs: nat): uint8
    requires c.Valid()
  {
    if syncs == 0 then syncSlot else NextSyncSlot(c, SyncSlotAfter(c, syncSlot, syncs - 1))
  }

  lemma {:induction false} RotationClosedForm(c: Config, syncSlot: uint8, syncs: nat)
    requires c.Valid() && syncSlot < 2 * c.hops.interval
    ensures SyncSlotAfter(c, syncSlot, syncs) == (syncSlot + syncs) % (2 * c.hops.interval)
  {
    var n := 2 * c.hops.interval;
    if syncs > 0 {
      RotationClosedForm(c, syncSlot, syncs - 1);
      Quotients.ModOfMod(syncSlot + syncs - 1, n);
    } else {
      Quotients.QuotientUnique(syncSlot, n, 0, syncSlot);
    }
  }

  /** Among 2h successive regular syncs, exactly the i-th and the j-th use the threshold. */
  predicate UsedAt(c: Config, syncSlot: uint8, threshold: nat, i: nat, j: nat)
    requires c.Valid()
  {
    forall k: nat :: k < 2 * c.hops.interval ==>
      (SyncSlotAfter(c, syncSlot, k) / 2 == threshold <==> k == i || k == j)
  }

  /** 2h successive regular syncs use every threshold exactly twice. */
  lemma EachThresholdTwice(c: Config, syncSlot: uint8, threshold: nat)
    requires c.Valid() && syncSlot < 2 * c.hops.interval && threshold < c.hops.interval
    ensures exists i: nat, j: nat :: i < j < 2 * c.hops.interval && UsedAt(c, syncSlot, threshold, i, j)
  {
    var a, b := HitTime(c, syncSlot, 2 * threshold), HitTime(c, syncSlot, 2 * threshold + 1);
    forall k: nat | k < 2 * c.hops.interval
      ensures SyncSlotAfter(c, syncSlot, k) / 2 == threshold <==> k == Min(a, b) || k == Max(a, b)
    {
      RotationClosedForm(c, syncSlot, k);
      HitOnce(c, syncSlot, 2 * threshold, k);
      HitOnce(c, syncSlot, 2 * threshold + 1, k);
    }
    HitOnce(c, syncSlot, 2 * threshold, a);
    HitOnce(c, syncSlot, 2 * threshold + 1, a);
    assert UsedAt(c, syncSlot, threshold, Min(a, b), Max(a, b));
  }

  /** How many syncs later the counter reads `target`. */
  function HitTime(c: Config, syncSlot: uint8, target: nat): nat
    requires c.Valid() && syncSlot < 2 * c.hops.interval && target < 2 * c.hops.interval
  {
    if target >= syncSlot then target - syncSlot else target + 2 * c.hops.interval - syncSlot
  }

  lemma HitOnce(c: Config, syncSlot: uint8, target: nat, k: nat)
    requires c.Valid() && syncSlot < 2 * c.hops.interval && target < 2 * c.hops.interval
    requires k < 2 * c.hops.interval
    ensures (syncSlot + k) % (2 * c.hops.interval) == target <==> k == HitTime(c, syncSlot, target)
  {
    var n := 2 * c.hops.interval;
    if syncSlot + k < n {
      Quotients.QuotientUnique(syncSlot + k, n, 0, syncSlot + k);
    } else {
      Quotients.QuotientUnique(syncSlot + k, n, 1, syncSlot + k - n);
    }
  }

  /** The counter stays within the rotation, whatever kind of packet goes out. */
  lemma RotationStaysInRange(c: Config, s: TxState, i: TickInput)
    requires c.Valid() && s.syncSlot < 2 * c.hops.interval
    ensures Tick(c, s, i).state.syncSlot < 2 * c.hops.interval
  {
  }
}
