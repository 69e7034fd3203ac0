/** The receiver's half of the slot protocol: tock, sync acceptance, telemetry and loop polls. */
module RxSlots {
  import opened Words
  import opened Rates
  import opened Hopping
  import opened TxSlots

  datatype Link = Lost | Tentative | Established

  datatype Telemetry = LinkStats | Payload

  // What the receiver puts on the air in a slot
  datatype Reply = Quiet | Send(kind: Telemetry)

  // 0: none; m + 1: switch to m; -1 - m: m seen once, waiting for a second sync
  type Pending = p: int | -3 <= p <= 3

  const SM_WIDE_OR_8CH: SwitchMode := 0

  datatype RxConfig = RxConfig(
    hops: Hops, rate: Rate, rateIndex: uint8, supported: set<uint8>, uid4: bv8, uid5: bv8, modelId: bv8)
  {
    predicate Valid() {
      hops.Valid() && ValidRate(rate) && hops.interval == rate.hop
    }
  }

  /** What the tock reads: queued payload, telemetry forced off or channel busy, team race match. */
  datatype TockInput = TockInput(queued: bool, muted: bool, teamMatch: bool)

  datatype RxState = RxState(
    nonce: uint8, hopIndex: uint8, divisor: uint8, link: Link, answered: bool, modelMatched: bool,
    nextRateIndex: uint8, switchMode: SwitchMode, switchPending: Pending,
    nextKind: Telemetry, burstCount: uint8, burstMax: uint8, burstValid: bool)

  datatype RxStep = RxStep(state: RxState, reply: Reply)

  // ----- tock -----

  function HandleHop(c: RxConfig, s: RxState): RxState
    requires c.Valid()
  {
    if c.hops.FirstOfDwell(s.nonce) && s.link != Lost then s.(hopIndex := c.hops.Next(s.hopIndex)) else s
  }

  predicate MayAnswer(s: RxState, i: TockInput) {
    s.link != Lost && TelemetrySlot(s.nonce, s.divisor) && !s.answered && i.teamMatch
  }

  /** Which telemetry frame goes next, and the burst counter it leaves behind. */
  function NextFrame(s: RxState, queued: bool): (RxState, Telemetry) {
    if s.nextKind == LinkStats || !queued then (s.(nextKind := Payload, burstCount := 1), LinkStats)
    else if s.burstCount < s.burstMax then (s.(burstCount := s.burstCount + 1), Payload)
    else (s.(nextKind := LinkStats), Payload)
  }

  function Answer(s: RxState, i: TockInput): RxStep {
    if !MayAnswer(s, i) then RxStep(s, Quiet)
    else
      var (next, kind) := NextFrame(s.(answered := true), i.queued);
      RxStep(next, if i.muted then Quiet else Send(kind))
  }

  function Tock(c: RxConfig, s: RxState, i: TockInput): RxStep
    requires c.Valid()
  {
    Answer(HandleHop(c, s.(nonce := U8(s.nonce + 1))), i)
  }

  /** The other half-period's interrupt re-arms the telemetry reply. */
  function MidTick(s: RxState): RxState {
    s.(answered := false)
  }

  // ----- sync packets -----

  predicate Accepts(c: RxConfig, p: SyncPacket) {
    && p.uid4 == c.uid4
    && (p.uid5 & !MODEL_MATCH_MASK) == (c.uid5 & !MODEL_MATCH_MASK)
    && p.rateIndex in c.supported
  }

  /** `updateSwitchModePendingFromOta`: positive means switch, negative means seen once. */
  function SwitchPending(current: SwitchMode, pending: Pending, disconnected: bool, mode: SwitchMode): Pending {
    if current == mode then 0
    else if disconnected || pending == -1 - mode then mode + 1
    else -1 - mode
  }

  predicate ModelMatches(c: RxConfig, p: SyncPacket) {
    p.uid5 == MarkedUid(c.uid5, c.modelId)
  }

  function SyncSettings(s: RxState, p: SyncPacket): RxState {
    var divisor := Divisor(p.ratioBits + TLM_NO_TLM);
    s.(nextRateIndex := p.rateIndex,
    switchPending := SwitchPending(s.switchMode, s.switchPending, s.link == Lost, p.switchMode),
    divisor := divisor, burstValid := s.burstValid && s.divisor == divisor)
  }

  predicate MustRealign(c: RxConfig, s: RxState, p: SyncPacket) {
    s.link == Lost || s.nonce != p.nonce || s.hopIndex != p.hopIndex || s.modelMatched != ModelMatches(c, p)
  }

  function Realigned(c: RxConfig, s: RxState, p: SyncPacket): RxState
    requires c.Valid()
  {
    s.(hopIndex := c.hops.Set(p.hopIndex), nonce := p.nonce, link := Tentative, modelMatched := ModelMatches(c, p))
  }

  function ReceiveSync(c: RxConfig, s: RxState, p: SyncPacket): RxState
    requires c.Valid()
  {
    if !Accepts(c, p) then s
    else
      var s1 := SyncSettings(s, p);
      if MustRealign(c, s1, p) then Realigned(c, s1, p) else s1
  }

  // ----- main loop -----

  /** Losing the link retunes, which also resets the switch mode and the burst. */
  function LoseLink(s: RxState): RxState {
    s.(link := Lost, answered := false, switchMode := SM_WIDE_OR_8CH, burstValid := false)
  }

  function Establish(s: RxState): RxState {
    s.(link := Established)
  }

  function ApplySwitchMode(s: RxState): RxState {
    if s.switchPending <= 0 then s
    else s.(switchMode := s.switchPending - 1, switchPending := 0)
  }

  function UpdateBurst(c: RxConfig, s: RxState): RxState
    requires c.Valid()
  {
    if s.burstValid || s.divisor == 0 then s
    else s.(burstValid := true, burstMax := BurstMax(PacketsPerSecond(c.rate.intervalUs), s.divisor))
  }

  class RxRadio {
    const config: RxConfig
    var nonce: uint8
    var hopIndex: uint8
    var divisor: uint8
    var link: Link
    var answered: bool
    var modelMatched: bool
    var nextRateIndex: uint8
    var switchMode: SwitchMode
    var switchPending: Pending
    var nextKind: Telemetry
    var burstCount: uint8
    var burstMax: uint8
    var burstValid: bool

    function State(): RxState
      reads this
    {
      RxState(nonce, hopIndex, divisor, link, answered, modelMatched, nextRateIndex, switchMode, switchPending,
              nextKind, burstCount, burstMax, burstValid)
    }

    predicate Valid()
      reads this
    {
      config.Valid() && divisor > 0
    }

    constructor (c: RxConfig)
      requires c.Valid()
      ensures Valid() && config == c
      ensures State() == RxState(0, 0, 1, Lost, false, false, 0, SM_WIDE_OR_8CH, 0, LinkStats, 0, 0, false)
    {
      config := c;
      nonce, hopIndex, divisor, link, answered, modelMatched := 0, 0, 1, Lost, false, false;
      nextRateIndex, switchMode, switchPending := 0, SM_WIDE_OR_8CH, 0;
      nextKind, burstCount, burstMax, burstValid := LinkStats, 0, 0, false;
    }

    method HandleFHSS()
      requires Valid()
      modifies this`hopIndex
      ensures Valid() && State() == HandleHop(config, old(State()))
    {
      if nonce % config.hops.interval != 0 || link == Lost {
        return;
      }
      hopIndex := config.hops.Next(hopIndex);
    }

    method HandleSendDataDl(i: TockInput) returns (reply: Reply)
      requires Valid()
      modifies this`answered, this`nextKind, this`burstCount
      ensures Valid() && RxStep(State(), reply) == Answer(old(State()), i)
    {
      var modresult := nonce % divisor;
      if link == Lost || divisor == 1 || answered || modresult != 0 || !i.teamMatch {
        return Quiet;
      }
      answered := true;
      var kind := LinkStats;
      if nextKind == LinkStats || !i.queued {
        nextKind := Payload;
        burstCount := 1;
      } else {
        kind := Payload;
        if burstCount < burstMax {
          burstCount := burstCount + 1;
        } else {
          nextKind := LinkStats;
        }
      }
      reply := if i.muted then Quiet else Send(kind);
    }

    method HWtimerCallbackTock(i: TockInput) returns (reply: Reply)
      requires Valid()
      modifies this
      ensures Valid() && RxStep(State(), reply) == Tock(config, old(State()), i)
    {
      nonce := U8(nonce + 1);
      HandleFHSS();
      reply := HandleSendDataDl(i);
    }

    method HWtimerCallbackTick()
      requires Valid()
      modifies this`answered
      ensures Valid() && State() == MidTick(old(State()))
    {
      answered := false;
    }

    method UpdateSwitchModePendingFromOta(mode: SwitchMode)
      requires Valid()
      modifies this`switchPending
      ensures Valid() && switchPending == SwitchPending(switchMode, old(switchPending), link == Lost, mode)
    {
      if switchMode == mode {
        switchPending := 0;
        return;
      }
      var newPending: Pending := -1 - mode;
      if link == Lost || switchPending == newPending {
        switchPending := mode + 1;
      } else {
        switchPending := newPending;
      }
    }

    method ProcessRfPacketSync(p: SyncPacket) returns (startTimer: bool)
      requires Valid()
      modifies this
      ensures Valid() && State() == ReceiveSync(config, old(State()), p)
      ensures startTimer <==> Accepts(config, p) && MustRealign(config, old(State()), p)
    {
      startTimer := false;
      var ok := CheckBinding(p);
      if !ok {
        return;
      }
      TakeSettings(p);
      startTimer := RealignIfNeeded(p);
    }

    method RealignIfNeeded(p: SyncPacket) returns (realigned: bool)
      requires Valid()
      modifies this`hopIndex, this`nonce, this`link, this`modelMatched
      ensures Valid() && realigned == MustRealign(config, old(State()), p)
      ensures State() == if realigned then Realigned(config, old(State()), p) else old(State())
    {
      var matched := ModelMatches(config, p);
      realigned := link == Lost || nonce != p.nonce || hopIndex != p.hopIndex || modelMatched != matched;
      if realigned {
        TentativeConnection(p, matched);
      }
    }

    method CheckBinding(p: SyncPacket) returns (ok: bool)
      ensures ok == Accepts(config, p)
    {
      if p.uid4 != config.uid4 {
        return false;
      }
      if (p.uid5 & !MODEL_MATCH_MASK) != (config.uid5 & !MODEL_MATCH_MASK) {
        return false;
      }
      return p.rateIndex in config.supported;
    }

    method TakeSettings(p: SyncPacket)
      requires Valid()
      modifies this`nextRateIndex, this`switchPending, this`divisor, this`burstValid
      ensures Valid() && State() == SyncSettings(old(State()), p)
    {
      DivisorIsValid(p.ratioBits + TLM_NO_TLM);
      nextRateIndex := p.rateIndex;
      UpdateSwitchModePendingFromOta(p.switchMode);
      var newDivisor := Divisor(p.ratioBits + TLM_NO_TLM);
      if divisor != newDivisor {
        divisor := newDivisor;
        burstValid := false;
      }
    }

    method TentativeConnection(p: SyncPacket, matched: bool)
      requires Valid()
      modifies this`hopIndex, this`nonce, this`link, this`modelMatched
      ensures Valid()
      ensures State() == old(State()).(hopIndex := config.hops.Set(p.hopIndex), nonce := p.nonce,
                                       link := Tentative, modelMatched := matched)
    {
      hopIndex := config.hops.Set(p.hopIndex);
      nonce := p.nonce;
      link := Tentative;
      modelMatched := matched;
    }

    method UpdateSwitchMode()
      requires Valid()
      modifies this`switchMode, this`switchPending
      ensures Valid() && State() == ApplySwitchMode(old(State()))
    {
      if switchPending <= 0 {
        return;
      }
      switchMode := switchPending - 1;
      switchPending := 0;
    }

    method UpdateTelemetryBurst()
      requires Valid()
      modifies this`burstMax, this`burstValid
      ensures Valid() && State() == UpdateBurst(config, old(State()))
    {
      if burstValid {
        return;
      }
      burstValid := true;
      burstMax := BurstMax(PacketsPerSecond(config.rate.intervalUs), divisor);
    }

    method LostConnection()
      requires Valid()
      modifies this`link, this`answered, this`switchMode, this`burstValid
      ensures Valid() && State() == LoseLink(old(State()))
    {
      link := Lost;
      answered := false;
      switchMode := SM_WIDE_OR_8CH;
      burstValid := false;
    }

    method GotConnection()
      requires Valid()
      modifies this`link
      ensures Valid() && State() == Establish(old(State()))
    {
      if link != Established {
        link := Established;
      }
    }
  }
}
