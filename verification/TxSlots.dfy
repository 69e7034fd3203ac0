/** The transmitter's half of the slot protocol: timer tick, transmit-done and commit tick. */
module TxSlots {
  import opened Words
  import opened Rates
  import opened Hopping

  // What the timer does when it next fires
  datatype TlmPhase = Transmitting | PreReceiveGap | ExpectingTelem

  datatype Connection = Connected | AwaitingModelId | Disconnected

  // Telemetry boost, one full sync cycle long
  datatype Boost = BoostIdle | BoostRequested | Boosting

  // The over-the-air fields: one bit of switch mode, three bits of telemetry ratio above NO_TLM
  type SwitchMode = m: int | 0 <= m <= 2
  type RatioBits = r: int | 0 <= r < 8

  datatype SyncPacket = SyncPacket(
    hopIndex: uint8, nonce: uint8, rateIndex: uint8, switchMode: SwitchMode, ratioBits: RatioBits,
    uid4: bv8, uid5: bv8)

  // What one slot puts on the air
  datatype Air = Silent | Sync(packet: SyncPacket) | Channels | Data | Airport

  /** Configuration that stays put while the radio runs at one rate. */
  datatype Config = Config(
    hops: Hops, rate: Rate, rateIndex: uint8, requestedRateIndex: uint8, requestedTlm: Ratio,
    mavlink: bool, airport: bool, switchMode: SwitchMode,
    syncConnectedMs: nat, syncDisconnectedMs: nat, disconnectTimeoutMs: nat,
    uid4: bv8, uid5: bv8, modelMatch: bool, modelId: bv8)
  {
    predicate Valid() {
      && hops.Valid() && ValidRate(rate) && hops.interval == rate.hop
    }
  }

  /** What the tick reads from the rest of the module. */
  datatype TickInput = TickInput(nowMs: uint32, rcStale: bool, armed: bool, dataQueued: bool)

  datatype TxState = TxState(
    nonce: uint8, hopIndex: uint8, phase: TlmPhase, busy: bool, committing: bool,
    connection: Connection, divisor: uint8,
    syncSlot: uint8, spam: uint8, spamAfterRate: uint8, boost: Boost, dataNext: bool,
    syncSentMs: uint32, lastTlmMs: uint32, rateChangedMs: uint32)

  datatype Step = Step(state: TxState, air: Air)

  // What a change of configuration or model asks for: sync packets now, and more on the sync channel after it
  const SYNC_SPAM: uint8 := 3
  const SYNC_SPAM_AFTER_RATE_CHANGE: uint8 := 10

  const MODEL_MATCH_MASK: bv8 := 0x3f

  // ----- sync packets -----

  function EffectiveRatio(c: Config, s: TxState, armed: bool): Ratio {
    if s.boost == BoostRequested then TLM_1_2
    else if c.requestedTlm == TLM_DISARMED then (if armed then TLM_NO_TLM else c.rate.tlm)
    else if c.requestedTlm != TLM_STD then c.requestedTlm
    else c.rate.tlm
  }

  /** An armed, connected transmitter keeps listening until the receiver has gone quiet. */
  predicate KeepsDivisor(c: Config, s: TxState, armed: bool) {
    s.boost != BoostRequested && c.requestedTlm == TLM_DISARMED && armed && s.connection == Connected
  }

  function UpdateRatio(c: Config, s: TxState, armed: bool): TxState {
    var boost := if s.boost == BoostRequested then Boosting else BoostIdle;
    var divisor := Divisor(EffectiveRatio(c, s, armed));
    if KeepsDivisor(c, s, armed) then
      s.(boost := boost)
    else
      s.(boost := boost, divisor := divisor,
      lastTlmMs := if s.connection == Connected && s.divisor > divisor then s.syncSentMs else s.lastTlmMs)
  }

  function SyncRateIndex(c: Config, s: TxState): uint8 {
    if s.spam > 0 then c.requestedRateIndex else c.rateIndex
  }

  function CountDownSpam(c: Config, s: TxState): TxState {
    var index := SyncRateIndex(c, s);
    var spamAfterRate :=
      if s.spamAfterRate > 0 && index == c.rateIndex then
        (if s.connection == Connected then 0 else s.spamAfterRate - 1)
      else s.spamAfterRate;
    s.(spam := if s.spam > 0 then s.spam - 1 else 0, spamAfterRate := spamAfterRate)
  }

  /** The binding byte with the model's id folded in; 255 leaves it as it is. */
  function MarkedUid(uid: bv8, modelId: bv8): bv8 {
    uid ^ (!modelId & MODEL_MATCH_MASK)
  }

  function SyncUid5(c: Config): bv8 {
    if c.modelMatch then MarkedUid(c.uid5, c.modelId) else c.uid5
  }

  function RatioToBits(r: Ratio): RatioBits {
    (r - TLM_NO_TLM) % 8
  }

  function GenerateSync(c: Config, s: TxState, i: TickInput): Step {
    var counted := CountDownSpam(c, s).(syncSentMs := i.nowMs);
    Step(UpdateRatio(c, counted, i.armed),
         Sync(SyncPacket(s.hopIndex, s.nonce, SyncRateIndex(c, s), c.switchMode % 2,
                         RatioToBits(EffectiveRatio(c, counted, i.armed)), c.uid4, SyncUid5(c))))
  }

  function NextSyncSlot(c: Config, syncSlot: uint8): uint8
    requires c.Valid()
  {
    (syncSlot + 1) % (c.hops.interval * 2)
  }

  function SendSync(c: Config, s: TxState, i: TickInput, nextSlot: uint8): Step {
    var g := GenerateSync(c, s, i);
    g.(state := g.state.(syncSlot := nextSlot))
  }

  function SyncIntervalMs(c: Config, s: TxState): nat {
    if s.connection == Connected && c.requestedTlm != TLM_DISARMED then c.syncConnectedMs
    else c.syncDisconnectedMs
  }

  predicate SyncSuppressed(c: Config, s: TxState, i: TickInput) {
    c.requestedTlm == TLM_DISARMED && i.armed && s.divisor == 1
  }

  predicate SpamDue(c: Config, s: TxState)
    requires c.Valid()
  {
    var slot := s.nonce % c.hops.interval;
    (s.spam > 0 || (s.spamAfterRate > 0 && c.hops.OnSyncChannel(s.hopIndex))) && (slot == 1 || slot == 2)
  }

  /** A sync packet is due by the clock. */
  predicate TimeDue(c: Config, s: TxState, nowMs: uint32) {
    Elapsed(nowMs, s.syncSentMs) > SyncIntervalMs(c, s)
  }

  predicate RegularDue(c: Config, s: TxState, i: TickInput)
    requires c.Valid()
  {
    && !SyncSuppressed(c, s, i)
    && s.syncSlot / 2 <= s.nonce % c.hops.interval
    && TimeDue(c, s, i.nowMs)
    && c.hops.OnSyncChannel(s.hopIndex)
  }

  function SendPayload(c: Config, s: TxState, i: TickInput): Step {
    if c.airport then Step(s, Airport)
    else if (s.dataNext && i.dataQueued) || (c.mavlink && i.rcStale) then
      Step(s.(dataNext := false, boost := BoostRequested,
           spam := if s.boost == BoostIdle then 1 else s.spam), Data)
    else Step(s.(dataNext := true), Channels)
  }

  predicate SilentSlot(c: Config, i: TickInput) {
    i.rcStale && !c.mavlink
  }

  function SendRc(c: Config, s: TxState, i: TickInput): Step
    requires c.Valid()
  {
    if SilentSlot(c, i) then Step(s, Silent)
    else
      var s1 := s.(busy := true);
      if SpamDue(c, s1) then SendSync(c, s1, i, 0)
      else if RegularDue(c, s1, i) then SendSync(c, s1, i, NextSyncSlot(c, s1.syncSlot))
      else SendPayload(c, s1, i)
  }

  // ----- interrupts -----

  /** While the flash is busy only the counters move; the bare increment ignores the table's end. */
  function CommitTick(c: Config, s: TxState): TxState
    requires c.Valid()
  {
    var nonce := U8(s.nonce + 1);
    s.(nonce := nonce, hopIndex := if c.hops.LastOfDwell(nonce) then U8(s.hopIndex + 1) else s.hopIndex)
  }

  function Tick(c: Config, s: TxState, i: TickInput): Step
    requires c.Valid()
  {
    if s.committing then Step(CommitTick(c, s), Silent)
    else if s.connection == AwaitingModelId then Step(s, Silent)
    else
      var s1 := s.(nonce := U8(s.nonce + 1));
      if s.phase == PreReceiveGap then Step(s1.(phase := ExpectingTelem), Silent)
      else SendRc(c, s1.(phase := Transmitting), i)
  }

  predicate TelemetrySlot(nonce: int, divisor: uint8) {
    divisor > 1 && nonce % divisor == 0
  }

  function TxDone(c: Config, s: TxState): TxState
    requires c.Valid()
  {
    if !s.busy then s
    else if s.connection == AwaitingModelId then s.(busy := false)
    else
      s.(busy := false,
      hopIndex := if c.hops.LastOfDwell(s.nonce) then c.hops.Next(s.hopIndex) else s.hopIndex,
      phase := if TelemetrySlot(s.nonce + 1, s.divisor) then PreReceiveGap else s.phase)
  }

  /** A change of configuration or model is announced. */
  function Respam(s: TxState): TxState {
    s.(spam := SYNC_SPAM, spamAfterRate := SYNC_SPAM_AFTER_RATE_CHANGE)
  }

  /** Starting a commit cancels a pending telemetry slot. */
  function BeginCommit(s: TxState): TxState {
    s.(committing := true, phase := Transmitting)
  }

  function EndCommit(s: TxState): TxState {
    s.(committing := false)
  }

  // ----- connection supervision -----

  const RX_LOSS_COUNT := 5

  function LostTimeoutMs(c: Config, divisor: uint8): nat {
    Max(512, divisor * c.rate.intervalUs / (1000 / RX_LOSS_COUNT)) + 2
  }

  function ReceiveTelemetry(s: TxState, nowMs: uint32): TxState {
    s.(lastTlmMs := nowMs)
  }

  function PollConnection(c: Config, s: TxState, nowMs: uint32): TxState {
    if s.lastTlmMs != 0 && Elapsed(nowMs, s.lastTlmMs) <= LostTimeoutMs(c, s.divisor) then
      s.(connection := Connected)
    else if || s.connection == Connected
            || (s.connection == AwaitingModelId && Elapsed(nowMs, s.rateChangedMs) > c.disconnectTimeoutMs) then
      s.(connection := Disconnected)
    else s
  }

  /** The interrupt handlers and loop functions, updating their globals in place. */
  class TxRadio {
    const config: Config
    var nonce: uint8
    var hopIndex: uint8
    var phase: TlmPhase
    var busy: bool
    var committing: bool
    var connection: Connection
    var divisor: uint8
    var syncSlot: uint8
    var spam: uint8
    var spamAfterRate: uint8
    var boost: Boost
    var dataNext: bool
    var syncSentMs: uint32
    var lastTlmMs: uint32
    var rateChangedMs: uint32

    function State(): TxState
      reads this
    {
      TxState(nonce, hopIndex, phase, busy, committing, connection, divisor, syncSlot, spam, spamAfterRate,
              boost, dataNext, syncSentMs, lastTlmMs, rateChangedMs)
    }

    constructor (c: Config)
      ensures config == c
      ensures State() == TxState(0, 0, Transmitting, false, false, Disconnected, 1, 0, 0, 0, BoostIdle, false, 0, 0, 0)
    {
      config := c;
      nonce, hopIndex, phase, busy, committing := 0, 0, Transmitting, false, false;
      connection, divisor, syncSlot, spam, spamAfterRate := Disconnected, 1, 0, 0, 0;
      boost, dataNext, syncSentMs, lastTlmMs, rateChangedMs := BoostIdle, false, 0, 0, 0;
    }

    method UpdateTlmRatioEffective(armed: bool) returns (ratio: Ratio)
      modifies this`boost, this`divisor, this`lastTlmMs
      ensures ratio == EffectiveRatio(config, old(State()), armed)
      ensures State() == UpdateRatio(config, old(State()), armed)
    {
      ratio := config.rate.tlm;
      var update := true;
      if boost == Boosting {
        boost := BoostIdle;
      }
      if boost == BoostRequested {
        boost := Boosting;
        ratio := TLM_1_2;
      } else if config.requestedTlm == TLM_DISARMED {
        if armed {
          ratio := TLM_NO_TLM;
          if connection == Connected {
            update := false;
          }
        }
      } else if config.requestedTlm != TLM_STD {
        ratio := config.requestedTlm;
      }
      if update {
        var newDivisor := Divisor(ratio);
        if connection == Connected && divisor > newDivisor {
          lastTlmMs := syncSentMs;
        }
        divisor := newDivisor;
      }
    }

    method GenerateSyncPacketData(i: TickInput) returns (air: Air)
      modifies this
      ensures Step(State(), air) == GenerateSync(config, old(State()), i)
    {
      hide UpdateRatio, EffectiveRatio, SyncUid5, Divisor;
      var index := if spam > 0 then config.requestedRateIndex else config.rateIndex;
      if spam > 0 {
        spam := spam - 1;
      }
      if spamAfterRate > 0 && index == config.rateIndex {
        spamAfterRate := spamAfterRate - 1;
        if connection == Connected {
          spamAfterRate := 0;
        }
      }
      syncSentMs := i.nowMs;
      var ratio := UpdateTlmRatioEffective(i.armed);
      air := Sync(SyncPacket(hopIndex, nonce, index, config.switchMode % 2, RatioToBits(ratio),
                             config.uid4, SyncUid5(config)));
    }

    method SendRCdataToRF(i: TickInput) returns (air: Air)
      requires config.Valid()
      modifies this
      ensures Step(State(), air) == SendRc(config, old(State()), i)
    {
      if i.rcStale && !config.mavlink {
        return Silent;
      }
      busy := true;
      var interval := if connection == Connected && config.requestedTlm != TLM_DISARMED
                      then config.syncConnectedMs else config.syncDisconnectedMs;
      var skipSync := config.requestedTlm == TLM_DISARMED && i.armed && divisor == 1;
      var onSync := config.hops.OnSyncChannel(hopIndex);
      var slot := nonce % config.hops.interval;
      ghost var s := State();
      assert s == old(State()).(busy := true);
      if (spam > 0 || (spamAfterRate > 0 && onSync)) && (slot == 1 || slot == 2) {
        assert SpamDue(config, s);
        air := SendSyncPacket(i, 0); // the new rate may have a shorter dwell
      } else if !skipSync && syncSlot / 2 <= slot && Elapsed(i.nowMs, syncSentMs) > interval && onSync {
        assert !SpamDue(config, s) && RegularDue(config, s, i);
        air := SendSyncPacket(i, NextSyncSlot(config, syncSlot));
      } else {
        assert !SpamDue(config, s) && !RegularDue(config, s, i);
        air := PackPayload(i);
      }
    }

    method SendSyncPacket(i: TickInput, nextSlot: uint8) returns (air: Air)
      modifies this
      ensures Step(State(), air) == SendSync(config, old(State()), i, nextSlot)
    {
      air := GenerateSyncPacketData(i);
      syncSlot := nextSlot;
    }

    /** The slots that are not sync packets. */
    method PackPayload(i: TickInput) returns (air: Air)
      modifies this`dataNext, this`boost, this`spam
      ensures Step(State(), air) == SendPayload(config, old(State()), i)
    {
      if config.airport {
        air := Airport;
      } else if (dataNext && i.dataQueued) || (config.mavlink && i.rcStale) {
        dataNext := false;
        if boost == BoostIdle {
          spam := 1;
        }
        boost := BoostRequested;
        air := Data;
      } else {
        dataNext := true;
        air := Channels;
      }
    }

    method NonceAdvance()
      requires config.Valid()
      modifies this`nonce, this`hopIndex
      ensures State() == CommitTick(config, old(State()))
    {
      nonce := U8(nonce + 1);
      if (nonce + 1) % config.hops.interval == 0 {
        hopIndex := U8(hopIndex + 1);
      }
    }

    method TimerCallback(i: TickInput) returns (air: Air)
      requires config.Valid()
      modifies this
      ensures Step(State(), air) == Tick(config, old(State()), i)
    {
      air := Silent;
      if committing {
        NonceAdvance();
        return;
      }
      if connection == AwaitingModelId {
        return;
      }
      nonce := U8(nonce + 1);
      if phase == PreReceiveGap {
        phase := ExpectingTelem;
        return;
      }
      phase := Transmitting;
      air := SendRCdataToRF(i);
    }

    method TXdoneISR()
      requires config.Valid()
      modifies this`hopIndex, this`phase, this`busy
      ensures State() == TxDone(config, old(State()))
    {
      if !busy {
        return;
      }
      if connection != AwaitingModelId {
        var modResult := (nonce + 1) % config.hops.interval;
        var nextIsTlm := divisor > 1 && (nonce + 1) % divisor == 0;
        if modResult == 0 {
          hopIndex := config.hops.Next(hopIndex);
        }
        if nextIsTlm {
          phase := PreReceiveGap;
        }
      }
      busy := false;
    }

    method UpdateConnectDisconnectStatus(nowMs: uint32)
      modifies this`connection
      ensures State() == PollConnection(config, old(State()), nowMs)
    {
      var timeout := Max(512, divisor * config.rate.intervalUs / (1000 / RX_LOSS_COUNT)) + 2;
      if lastTlmMs != 0 && Elapsed(nowMs, lastTlmMs) <= timeout {
        if connection != Connected {
          connection := Connected;
        }
      } else if || connection == Connected
                || (connection == AwaitingModelId && Elapsed(nowMs, rateChangedMs) > config.disconnectTimeoutMs) {
        connection := Disconnected;
      }
    }
  }
}
