/** What a sync packet carries across: who accepts it, whose model it matches, which settings arrive. */
module Handshake {
  import opened Words
  import opened Rates
  import opened TxSlots
  import opened RxSlots
  import opened SlotRuns
  import Quotients

  function SyncPacketOf(c: Config, s: TxState, i: TickInput): SyncPacket {
    GenerateSync(c, s, i).air.packet
  }

  /** Accepted exactly by receivers of the same binding, up to the six bits left for the model, that support the rate. */
  lemma AcceptedExactly(c: Config, rx: RxConfig, s: TxState, i: TickInput)
    ensures Accepts(rx, SyncPacketOf(c, s, i)) <==>
            c.uid4 == rx.uid4 && (c.uid5 ^ rx.uid5) & 0xC0 == 0 && SyncRateIndex(c, s) in rx.supported
  {
    UpperBitsCarry(c.uid5, rx.uid5, c.modelId);
  }

  lemma UpperBitsCarry(a: bv8, b: bv8, id: bv8)
    ensures (a & !MODEL_MATCH_MASK) == (b & !MODEL_MATCH_MASK) <==> (a ^ b) & 0xC0 == 0
    ensures (MarkedUid(a, id) & !MODEL_MATCH_MASK) == (a & !MODEL_MATCH_MASK)
  {
  }

  /**
   With matching switched on, a fully bound receiver finds its model exactly if both ids agree in six bits;
   switched off at the transmitter, exactly if the receiver's id has all six set, as its `off` value 255 does.
   */
  lemma ModelMatchesExactly(c: Config, rx: RxConfig, s: TxState, i: TickInput)
    requires c.uid5 == rx.uid5
    ensures ModelMatches(rx, SyncPacketOf(c, s, i)) <==>
            if c.modelMatch then SameModel(c.modelId, rx.modelId) else MatchingOff(rx.modelId)
  {
    assert SyncPacketOf(c, s, i).uid5 == SyncUid5(c);
    hide SyncPacketOf;
    ModelMatchedBy(c, rx, SyncPacketOf(c, s, i));
  }

  predicate SameModel(a: bv8, b: bv8) {
    (a ^ b) & MODEL_MATCH_MASK == 0
  }

  predicate MatchingOff(id: bv8) {
    id & MODEL_MATCH_MASK == MODEL_MATCH_MASK
  }

  lemma ModelMatchedBy(c: Config, rx: RxConfig, packet: SyncPacket)
    requires c.uid5 == rx.uid5 && packet.uid5 == SyncUid5(c)
    ensures ModelMatches(rx, packet) <==> if c.modelMatch then SameModel(c.modelId, rx.modelId) else MatchingOff(rx.modelId)
  {
    hide MarkedUid, SameModel, MatchingOff;
    ModelBitsCarry(c.uid5, c.modelId, rx.modelId);
  }

  lemma ModelBitsCarry(uid: bv8, a: bv8, b: bv8)
    ensures MarkedUid(uid, a) == MarkedUid(uid, b) <==> SameModel(a, b)
    ensures uid == MarkedUid(uid, b) <==> MatchingOff(b)
  {
  }

  /** Telemetry ratio and slot arrive as sent, and the switch mode exactly if it fits its single bit. */
  lemma SettingsArrive(c: Config, rx: RxConfig, s: TxState, r: RxState, i: TickInput)
    requires c.Valid() && rx.Valid() && Accepts(rx, SyncPacketOf(c, s, i)) && r.link == Lost
    requires r.switchMode == SM_WIDE_OR_8CH && s.hopIndex < rx.hops.count
    ensures var v := ReceiveSync(rx, r, SyncPacketOf(c, s, i));
            && v.nonce == s.nonce && v.hopIndex == s.hopIndex && v.link == Tentative
            && v.divisor == Divisor(EffectiveRatio(c, CountDownSpam(c, s), i.armed))
            && v.nextRateIndex == (if s.spam > 0 then c.requestedRateIndex else c.rateIndex)
            && (ApplySwitchMode(v).switchMode == c.switchMode <==> c.switchMode < 2)
  {
    SyncSetsDivisor(c, s, i);
    assert SyncPacketOf(c, s, i).switchMode == c.switchMode % 2;
    assert SyncPacketOf(c, s, i).nonce == s.nonce && SyncPacketOf(c, s, i).hopIndex == s.hopIndex;
    hide SyncPacketOf, EffectiveRatio, CountDownSpam;
    SettingsTaken(rx, r, SyncPacketOf(c, s, i));
  }

  lemma SettingsTaken(rx: RxConfig, r: RxState, packet: SyncPacket)
    requires rx.Valid() && Accepts(rx, packet) && r.link == Lost && r.switchMode == SM_WIDE_OR_8CH
    requires packet.hopIndex < rx.hops.count
    ensures var v := ReceiveSync(rx, r, packet);
            && v.nonce == packet.nonce && v.hopIndex == packet.hopIndex && v.link == Tentative
            && v.divisor == PacketDivisor(packet) && v.nextRateIndex == packet.rateIndex && ApplySwitchMode(v).switchMode == packet.switchMode
  {
    hide Divisor, Accepts, ModelMatches;
    Quotients.QuotientUnique(packet.hopIndex, rx.hops.count, 0, packet.hopIndex);
  }

  /** The three bits on air hold every ratio a sync can carry. */
  lemma SyncSetsDivisor(c: Config, s: TxState, i: TickInput)
    requires c.Valid()
    ensures PacketDivisor(SyncPacketOf(c, s, i)) == Divisor(EffectiveRatio(c, CountDownSpam(c, s), i.armed))
  {
    EffectiveRatioFits(c, CountDownSpam(c, s), i.armed);
  }

  // ----- telemetry boost -----

  function StateAfterSyncs(c: Config, s: TxState, inputs: seq<TickInput>): TxState {
    if inputs == [] then s
    else GenerateSync(c, StateAfterSyncs(c, s, inputs[..|inputs| - 1]), inputs[|inputs| - 1]).state
  }

  /** After uplink data the next sync asks for 1:2, and once a sync cycle brings no more data the boost is over. */
  lemma {:induction false} BoostLastsOneCycle(c: Config, s: TxState, i: TickInput, inputs: seq<TickInput>)
    requires c.Valid() && SendPayload(c, s, i).air.Data? && !SilentSlot(c, i)
    ensures var asked := SendPayload(c, s, i).state;
            && (|inputs| > 0 ==> PacketDivisor(SyncPacketOf(c, asked, inputs[0])) == 2)
            && StateAfterSyncs(c, asked, inputs).boost ==
               (if |inputs| == 0 then BoostRequested else if |inputs| == 1 then Boosting else BoostIdle)
  {
    var asked := SendPayload(c, s, i).state;
    if inputs != [] {
      BoostLastsOneCycle(c, s, i, inputs[..|inputs| - 1]);
      SyncSetsDivisor(c, asked, inputs[0]);
      assert Divisor(TLM_1_2) == 2 by {
        assert Shl1(1) == 2;
      }
    }
  }

  /**
   A change is announced by three syncs with the requested rate; from then on they carry the current rate, and
   while no receiver answers the extra ones on the sync channel last for ten of those.
   */
  lemma {:induction false} ChangeIsAnnounced(c: Config, s: TxState, inputs: seq<TickInput>, i: TickInput)
    ensures var n, v := |inputs|, StateAfterSyncs(c, Respam(s), inputs);
            var current := if c.requestedRateIndex == c.rateIndex then n else Max(0, n - 3);
            && SyncPacketOf(c, v, i).rateIndex == (if n < 3 then c.requestedRateIndex else c.rateIndex)
            && v.connection == s.connection && v.spam == Max(0, 3 - n)
            && v.spamAfterRate == (if current > 0 && s.connection == Connected then 0 else Max(0, 10 - current))
  {
    if inputs != [] {
      ChangeIsAnnounced(c, s, inputs[..|inputs| - 1], inputs[|inputs| - 1]);
      hide EffectiveRatio, SyncUid5, Divisor;
    }
  }

  /** Without a boost the receiver is told what was asked for: the rate's own ratio by default, none when armed at `disarmed`. */
  lemma RequestedRatioArrives(c: Config, s: TxState, i: TickInput)
    requires c.Valid() && s.boost != BoostRequested
    ensures PacketDivisor(SyncPacketOf(c, s, i))
            == if c.requestedTlm == TLM_DISARMED && i.armed then 1
               else if c.requestedTlm == TLM_DISARMED || c.requestedTlm == TLM_STD then Divisor(c.rate.tlm)
               else Divisor(c.requestedTlm)
  {
    SyncSetsDivisor(c, s, i);
    hide SyncPacketOf, Shl1;
  }
}
