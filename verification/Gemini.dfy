/** Gemini downlink: the receiver splits a payload over its two radios, the transmitter rejoins it. */
module Gemini {
  import opened Words
  import opened Hopping
  import TxSlots

  datatype Radio = Radio1 | Radio2

  datatype Half = First | Second

  // ----- which half each transmitter radio hears -----

  /** In odd dwells the receiver trades the two frequencies between its radios; dual band never does. */
  predicate Trades(h: Hops, nonce: uint8, dualBand: bool)
    requires h.Valid()
  {
    (nonce / h.interval) % 2 != 0 && !dualBand
  }

  // The receiver's nonce, and whether its radios currently hold traded frequencies
  datatype Tuning = Tuning(nonce: uint8, traded: bool)

  function TuneTock(h: Hops, t: Tuning, dualBand: bool): Tuning
    requires h.Valid()
  {
    var nonce := U8(t.nonce + 1);
    Tuning(nonce, if h.FirstOfDwell(nonce) then Trades(h, nonce, dualBand) else t.traded)
  }

  function TuneAfter(h: Hops, t: Tuning, dualBand: bool, tocks: nat): Tuning
    requires h.Valid()
  {
    if tocks == 0 then t else TuneTock(h, TuneAfter(h, t, dualBand, tocks - 1), dualBand)
  }

  /** The half a receiver radio is handed to transmit. */
  function HandedTo(h: Hops, r: Radio, nonce: uint8, dualBand: bool): Half
    requires h.Valid()
  {
    if Trades(h, nonce, dualBand) == r.Radio1? then Second else First
  }

  /** The receiver radio on the frequency a transmitter radio listens to. */
  function Opposite(r: Radio, traded: bool): Radio {
    if traded then (if r.Radio1? then Radio2 else Radio1) else r
  }

  function Heard(h: Hops, r: Radio, t: Tuning, dualBand: bool): Half
    requires h.Valid()
  {
    HandedTo(h, Opposite(r, t.traded), t.nonce, dualBand)
  }

  predicate Straight(h: Hops, t: Tuning, dualBand: bool)
    requires h.Valid()
  {
    t.traded == Trades(h, t.nonce, dualBand)
  }

  /** The halves arrive where they belong exactly when the frequencies match this dwell's parity. */
  lemma HalvesArriveStraight(h: Hops, t: Tuning, dualBand: bool)
    requires h.Valid()
    ensures (Heard(h, Radio1, t, dualBand) == First && Heard(h, Radio2, t, dualBand) == Second)
            <==> Straight(h, t, dualBand)
  {
  }

  lemma TockKeepsStraight(h: Hops, t: Tuning, dualBand: bool)
    requires h.Valid() && (Straight(h, t, dualBand) || h.FirstOfDwell(U8(t.nonce + 1)))
    ensures Straight(h, TuneTock(h, t, dualBand), dualBand)
  {
    assert h.interval == 2 || h.interval == 4;
  }

  /** From the first hop after a sync on, whatever the frequencies were before it. */
  lemma {:induction false} StraightAfterHop(h: Hops, t: Tuning, dualBand: bool, hop: nat, tocks: nat)
    requires h.Valid() && 0 < hop <= tocks
    requires h.FirstOfDwell(TuneAfter(h, t, dualBand, hop).nonce)
    ensures Straight(h, TuneAfter(h, t, dualBand, tocks), dualBand)
    decreases tocks
  {
    if hop < tocks {
      StraightAfterHop(h, t, dualBand, hop, tocks - 1);
    }
    TockKeepsStraight(h, TuneAfter(h, t, dualBand, tocks - 1), dualBand);
  }

  // ----- rejoining -----

  const SPAN_SIZE := 20
  const NO_INDEX: uint8 := 0xff

  datatype Delivery = Delivery(index: uint8, span: seq<uint8>)

  datatype Merge = Merge(index1: uint8, index2: uint8, buffer: seq<uint8>)

  datatype Merged = Merged(state: Merge, out: Option<Delivery>)

  function CopyTo(buffer: seq<uint8>, at: nat, data: seq<uint8>): seq<uint8>
    requires at + |data| <= |buffer|
  {
    buffer[..at] + data + buffer[at + |data|..]
  }

  function Store(m: Merge, r: Radio, index: uint8, data: seq<uint8>): Merge
    requires |m.buffer| == SPAN_SIZE && 2 * |data| <= SPAN_SIZE
  {
    if r.Radio1? then m.(index1 := index, buffer := CopyTo(m.buffer, 0, data))
    else m.(index2 := index, buffer := CopyTo(m.buffer, |data|, data))
  }

  function Other(r: Radio): Radio {
    if r.Radio1? then Radio2 else Radio1
  }

  function Complete(m: Merge, dataLen: nat): Merged
    requires |m.buffer| == SPAN_SIZE && 2 * dataLen <= SPAN_SIZE
  {
    if m.index1 == m.index2 && m.index1 != NO_INDEX then
      Merged(m.(index1 := NO_INDEX, index2 := NO_INDEX), Some(Delivery(m.index1, m.buffer[..2 * dataLen])))
    else Merged(m, None)
  }

  /** One downlink packet on radio `r`, and possibly its twin on the other radio. */
  function Process(m: Merge, r: Radio, index: uint8, data: seq<uint8>, twin: Option<(uint8, seq<uint8>)>): Merged
    requires |m.buffer| == SPAN_SIZE && 2 * |data| <= SPAN_SIZE
    requires twin.Some? ==> |twin.value.1| == |data|
  {
    var m1 := Store(m, r, index, data);
    var m2 := if twin.Some? then Store(m1, Other(r), twin.value.0, twin.value.1) else m1;
    Complete(m2, |data|)
  }

  /** The buffer takes the largest halves, ten bytes each: both together make their span, and leave it empty again. */
  lemma LargestHalvesJoin(m: Merge, index: uint8, data1: seq<uint8>, data2: seq<uint8>)
    requires |m.buffer| == SPAN_SIZE && index != 0xff && |data1| == |data2| <= 10
    ensures Process(m, Radio1, index, data1, Some((index, data2))).out == Some(Delivery(index, data1 + data2))
    ensures Process(m, Radio2, index, data2, Some((index, data1))).out == Some(Delivery(index, data1 + data2))
    ensures var v := Process(m, Radio1, index, data1, Some((index, data2))).state; v.index1 == v.index2 == 0xff
  {
    var n := |data1|;
    assert CopyTo(CopyTo(m.buffer, 0, data1), n, data2)[..2 * n] == data1 + data2;
    assert CopyTo(CopyTo(m.buffer, n, data2), 0, data1)[..2 * n] == data1 + data2;
  }

  /** The index that stands for nothing stored never completes a span. */
  lemma NoIndexNeverCompletes(m: Merge, r: Radio, data: seq<uint8>, twin: Option<(uint8, seq<uint8>)>)
    requires |m.buffer| == SPAN_SIZE && 2 * |data| <= SPAN_SIZE && (twin.Some? ==> |twin.value.1| == |data|)
    ensures Process(m, r, 0xff, data, twin).out == None
  {
    hide CopyTo;
  }

  class Merger {
    var packageIndexRadio1: uint8
    var packageIndexRadio2: uint8
    const geminiSpanBuffer: array<uint8>

    ghost predicate Valid()
      reads this
    {
      geminiSpanBuffer.Length == SPAN_SIZE
    }

    ghost function State(): Merge
      reads this, geminiSpanBuffer
    {
      Merge(packageIndexRadio1, packageIndexRadio2, geminiSpanBuffer[..])
    }

    constructor ()
      ensures Valid() && fresh(geminiSpanBuffer)
      ensures State() == Merge(NO_INDEX, NO_INDEX, seq(SPAN_SIZE, _ => 0))
    {
      packageIndexRadio1, packageIndexRadio2 := NO_INDEX, NO_INDEX;
      geminiSpanBuffer := new uint8[SPAN_SIZE](_ => 0);
      new;
      assert geminiSpanBuffer[..] == seq(SPAN_SIZE, _ => 0);
    }

    method CopyIn(at: nat, data: seq<uint8>)
      requires Valid() && at + |data| <= SPAN_SIZE
      modifies geminiSpanBuffer
      ensures geminiSpanBuffer[..] == CopyTo(old(geminiSpanBuffer[..]), at, data)
    {
      for k := 0 to |data|
        invariant geminiSpanBuffer[..at] == old(geminiSpanBuffer[..at])
        invariant geminiSpanBuffer[at..at + k] == data[..k]
        invariant geminiSpanBuffer[at + k..] == old(geminiSpanBuffer[at + k..])
      {
        geminiSpanBuffer[at + k] := data[k];
      }
      assert geminiSpanBuffer[..] == geminiSpanBuffer[..at] + geminiSpanBuffer[at..at + |data|] + geminiSpanBuffer[at + |data|..];
    }

    method ProcessOtaDataDl(processing: Radio, pi1: uint8, pi2: uint8, data1: seq<uint8>, data2: seq<uint8>,
                            hasSecond: bool)
      returns (out: Option<Delivery>)
      requires Valid() && |data1| == |data2| && 2 * |data1| <= SPAN_SIZE
      modifies this, geminiSpanBuffer
      ensures Valid()
      ensures Merged(State(), out) == Process(old(State()), processing, pi1, data1, if hasSecond then Some((pi2, data2)) else None)
    {
      var dataLen := |data1|;
      StoreHalf(processing, pi1, data1);
      if hasSecond {
        StoreHalf(Other(processing), pi2, data2);
      }
      out := None;
      if packageIndexRadio1 == packageIndexRadio2 && packageIndexRadio1 != NO_INDEX {
        out := Some(Delivery(packageIndexRadio1, geminiSpanBuffer[..2 * dataLen]));
        packageIndexRadio1 := NO_INDEX;
        packageIndexRadio2 := NO_INDEX;
      }
    }

    method StoreHalf(r: Radio, index: uint8, data: seq<uint8>)
      requires Valid() && 2 * |data| <= SPAN_SIZE
      modifies this, geminiSpanBuffer
      ensures Valid() && State() == Store(old(State()), r, index, data)
    {
      if r == Radio1 {
        packageIndexRadio1 := index;
        CopyIn(0, data);
      } else {
        packageIndexRadio2 := index;
        CopyIn(|data|, data);
      }
    }
  }

  // ----- the whole downlink -----

  /**
   The stubborn sender's current payload, whether the transmitter has been handed it, the receiver's link,
   telemetry divisor and tuning, whether it replies in the slot it is in, and the transmitter's merge
   buffer with, for each stored half, whether the frame that brought it was heard straight. Half-payloads are `dataLen` bytes throughout a run.
   */
  datatype Downlink = Downlink(
    index: uint8, span: seq<uint8>, handed: bool, linked: bool, divisor: uint8, replying: bool,
    tuning: Tuning, merge: Merge, straight1: bool, straight2: bool)

  datatype Event =
    | Tock
    | Frame(processing: Radio, both: bool)
    | Advance(index: uint8, span: seq<uint8>)
    | Sync(nonce: uint8, divisor: uint8)
    | Lose

  predicate WellFormed(d: Downlink, dataLen: nat) {
    && 0 < dataLen && 2 * dataLen <= SPAN_SIZE
    && |d.span| == 2 * dataLen && |d.merge.buffer| == SPAN_SIZE && d.index != NO_INDEX
  }

  /** Nothing stored yet: how the transmitter's buffer starts. */
  predicate Fresh(d: Downlink, dataLen: nat) {
    WellFormed(d, dataLen) && d.merge.index1 == d.merge.index2 == NO_INDEX
  }

  /**
   A receiver without a link neither hops nor replies, and it replies once in a telemetry slot that a tock
   has taken it to. The sender moves on only once its payload was handed over, and to another package index.
   */
  predicate Enabled(d: Downlink, dataLen: nat, e: Event) {
    && (e.Tock? ==> d.linked) && (e.Frame? ==> d.linked && d.replying)
    && (e.Advance? ==> d.handed && e.index != d.index && e.index != NO_INDEX && |e.span| == 2 * dataLen)
  }

  function HalfOf(span: seq<uint8>, half: Half): seq<uint8>
    requires |span| % 2 == 0
  {
    if half.First? then span[..|span| / 2] else span[|span| / 2..]
  }

  function HeardBytes(h: Hops, d: Downlink, dualBand: bool, r: Radio): seq<uint8>
    requires h.Valid() && |d.span| % 2 == 0
  {
    HalfOf(d.span, Heard(h, r, d.tuning, dualBand))
  }

  function ProcessFrame(h: Hops, d: Downlink, dataLen: nat, dualBand: bool, r: Radio, both: bool): Merged
    requires h.Valid() && WellFormed(d, dataLen)
  {
    Process(d.merge, r, d.index, HeardBytes(h, d, dualBand, r),
            if both then Some((d.index, HeardBytes(h, d, dualBand, Other(r)))) else None)
  }

  function AfterFrame(h: Hops, d: Downlink, dataLen: nat, dualBand: bool, r: Radio, both: bool): Downlink
    requires h.Valid() && WellFormed(d, dataLen)
  {
    var merged := ProcessFrame(h, d, dataLen, dualBand, r, both);
    var straight := Straight(h, d.tuning, dualBand);
    d.(merge := merged.state, handed := d.handed || merged.out.Some?, replying := false,
    straight1 := if r.Radio1? || both then straight else d.straight1,
    straight2 := if r.Radio2? || both then straight else d.straight2)
  }

  /** A sync moves the receiver to another slot but leaves its radios tuned; losing the link tunes them afresh. */
  function Step(h: Hops, d: Downlink, dataLen: nat, dualBand: bool, e: Event): Downlink
    requires h.Valid() && WellFormed(d, dataLen) && Enabled(d, dataLen, e)
  {
    match e
    case Tock =>
      var tuning := TuneTock(h, d.tuning, dualBand);
      d.(tuning := tuning, replying := TxSlots.TelemetrySlot(tuning.nonce, d.divisor))
    case Frame(r, both) => AfterFrame(h, d, dataLen, dualBand, r, both)
    case Advance(index, span) => d.(index := index, span := span, handed := false)
    case Sync(nonce, divisor) => d.(linked := true, divisor := divisor, replying := false, tuning := d.tuning.(nonce := nonce))
    case Lose => d.(linked := false, replying := false, tuning := d.tuning.(traded := false))
  }

  /** The half that belongs to a transmitter radio, and the one that lands there otherwise. */
  function Belonging(r: Radio): Half {
    if r.Radio1? then First else Second
  }

  function Landing(r: Radio, straight: bool): Half {
    Belonging(if straight then r else Other(r))
  }

  /** A stored half is of the current payload, or a leftover of the one before that can no longer match. */
  predicate HalvesFit(d: Downlink, dataLen: nat)
    requires WellFormed(d, dataLen)
  {
    var m := d.merge;
    && (m.index1 != NO_INDEX ==>
          (m.index1 == d.index && m.buffer[..dataLen] == HalfOf(d.span, Landing(Radio1, d.straight1)))
          || (m.index1 != d.index && !d.handed))
    && (m.index2 != NO_INDEX ==>
          (m.index2 == d.index && m.buffer[dataLen..2 * dataLen] == HalfOf(d.span, Landing(Radio2, d.straight2)))
          || (m.index2 != d.index && !d.handed))
  }

  predicate Sound(d: Downlink, dataLen: nat) {
    WellFormed(d, dataLen) && HalvesFit(d, dataLen)
  }

  /** What the two stored halves make of a payload. */
  function Joined(span: seq<uint8>, straight1: bool, straight2: bool): seq<uint8>
    requires |span| % 2 == 0
  {
    HalfOf(span, Landing(Radio1, straight1)) + HalfOf(span, Landing(Radio2, straight2))
  }

  /** Two straight halves make the payload; with a crossed one, only a payload of two equal halves survives. */
  lemma JoinedExactly(span: seq<uint8>, straight1: bool, straight2: bool)
    requires |span| % 2 == 0
    ensures Joined(span, straight1, straight2) == span <==>
            (straight1 && straight2) || HalfOf(span, First) == HalfOf(span, Second)
  {
    var first, second := HalfOf(span, First), HalfOf(span, Second);
    assert span == first + second && |first| == |second|;
    var joined := Joined(span, straight1, straight2);
    assert joined[..|first|] == HalfOf(span, Landing(Radio1, straight1));
    assert joined[|first|..] == HalfOf(span, Landing(Radio2, straight2));
    assert span[..|first|] == first && span[|first|..] == second;
  }

  lemma StoreFits(m: Merge, r: Radio, index: uint8, data: seq<uint8>)
    requires |m.buffer| == SPAN_SIZE && 2 * |data| <= SPAN_SIZE
    ensures var v, n := Store(m, r, index, data), |data|;
            && |v.buffer| == SPAN_SIZE
            && (r.Radio1? ==> v.index1 == index && v.index2 == m.index2 && v.buffer[..n] == data
                              && v.buffer[n..2 * n] == m.buffer[n..2 * n])
            && (r.Radio2? ==> v.index2 == index && v.index1 == m.index1 && v.buffer[n..2 * n] == data
                              && v.buffer[..n] == m.buffer[..n])
  {
  }

  /** One half stored, heard straight or not. */
  function WithHalf(d: Downlink, r: Radio, straight: bool): Downlink
    requires |d.span| % 2 == 0 && |d.span| <= SPAN_SIZE && |d.merge.buffer| == SPAN_SIZE
  {
    d.(merge := Store(d.merge, r, d.index, HalfOf(d.span, Landing(r, straight))),
    straight1 := if r.Radio1? then straight else d.straight1,
    straight2 := if r.Radio2? then straight else d.straight2)
  }

  lemma StoreKeepsFit(d: Downlink, dataLen: nat, r: Radio, straight: bool)
    requires Sound(d, dataLen)
    ensures Sound(WithHalf(d, r, straight), dataLen)
  {
    StoreFits(d.merge, r, d.index, HalfOf(d.span, Landing(r, straight)));
  }

  lemma CompleteIsSound(d: Downlink, dataLen: nat, r: Radio)
    requires Sound(d, dataLen)
    requires (if r.Radio1? then d.merge.index1 else d.merge.index2) == d.index
    ensures var merged := Complete(d.merge, dataLen);
            var v := d.(merge := merged.state, handed := d.handed || merged.out.Some?, replying := false);
            && Sound(v, dataLen)
            && (merged.out.Some? ==> merged.out.value == Delivery(d.index, Joined(d.span, d.straight1, d.straight2)))
  {
    var m := d.merge;
    assert m.buffer[..2 * dataLen] == m.buffer[..dataLen] + m.buffer[dataLen..2 * dataLen];
  }

  /** Each transmitter radio hears its own half, or the other one, by whether the tuning is straight. */
  lemma HeardLands(h: Hops, r: Radio, t: Tuning, dualBand: bool)
    requires h.Valid()
    ensures Heard(h, r, t, dualBand) == Landing(r, Straight(h, t, dualBand))
  {
  }

  /** The stores one frame makes. */
  function Stored(h: Hops, d: Downlink, dataLen: nat, dualBand: bool, r: Radio, both: bool): Downlink
    requires h.Valid() && WellFormed(d, dataLen)
  {
    var straight := Straight(h, d.tuning, dualBand);
    var d1 := WithHalf(d, r, straight);
    if both then WithHalf(d1, Other(r), straight) else d1
  }

  lemma FrameStores(h: Hops, d: Downlink, dataLen: nat, dualBand: bool, r: Radio, both: bool)
    requires h.Valid() && WellFormed(d, dataLen)
    ensures var v := Stored(h, d, dataLen, dualBand, r, both);
            var merged := Complete(v.merge, dataLen);
            && ProcessFrame(h, d, dataLen, dualBand, r, both) == merged
            && AfterFrame(h, d, dataLen, dualBand, r, both)
               == v.(merge := merged.state, handed := d.handed || merged.out.Some?, replying := false)
  {
    hide CopyTo, Heard, HeardBytes, Store, Straight, Landing, HalfOf, Complete;
    HeardBytesLand(h, d, r, dualBand);
    HeardBytesLand(h, d, Other(r), dualBand);
    StoreKeepsSize(d.merge, r, d.index, HeardBytes(h, d, dualBand, r));
  }

  lemma HeardBytesLand(h: Hops, d: Downlink, r: Radio, dualBand: bool)
    requires h.Valid() && |d.span| % 2 == 0
    ensures HeardBytes(h, d, dualBand, r) == HalfOf(d.span, Landing(r, Straight(h, d.tuning, dualBand)))
    ensures 2 * |HeardBytes(h, d, dualBand, r)| == |d.span|
  {
    HeardLands(h, r, d.tuning, dualBand);
  }

  lemma StoreKeepsSize(m: Merge, r: Radio, index: uint8, data: seq<uint8>)
    requires |m.buffer| == SPAN_SIZE && 2 * |data| <= SPAN_SIZE
    ensures |Store(m, r, index, data).buffer| == SPAN_SIZE
  {
  }

  /** A frame keeps the merge buffer sound, and hands over what its two halves make of the current payload. */
  lemma FrameIsSound(h: Hops, d: Downlink, dataLen: nat, dualBand: bool, r: Radio, both: bool)
    requires h.Valid() && Sound(d, dataLen)
    ensures var v, out := AfterFrame(h, d, dataLen, dualBand, r, both), ProcessFrame(h, d, dataLen, dualBand, r, both).out;
            && Sound(v, dataLen)
            && (out.Some? ==> out.value == Delivery(d.index, Joined(d.span, v.straight1, v.straight2)))
  {
    hide HalvesFit, CopyTo, Straight, Landing, HalfOf, Joined, AfterFrame, ProcessFrame, Complete;
    var straight := Straight(h, d.tuning, dualBand);
    FrameStores(h, d, dataLen, dualBand, r, both);
    StoreKeepsFit(d, dataLen, r, straight);
    if both {
      StoreKeepsFit(WithHalf(d, r, straight), dataLen, Other(r), straight);
    }
    CompleteIsSound(Stored(h, d, dataLen, dualBand, r, both), dataLen, r);
  }

  predicate Run(h: Hops, d: Downlink, dataLen: nat, dualBand: bool, events: seq<Event>)
    requires h.Valid()
    decreases |events|
  {
    WellFormed(d, dataLen) &&
    (events == [] ||
     (&& Enabled(d, dataLen, events[0])
      && Run(h, Step(h, d, dataLen, dualBand, events[0]), dataLen, dualBand, events[1..])))
  }

  /** One span handed over: what it was, what the sender was sending, and how its halves had been heard. */
  datatype Handover = Handover(got: Delivery, sent: Delivery, straight1: bool, straight2: bool)

  function HandoverOf(h: Hops, d: Downlink, dataLen: nat, dualBand: bool, e: Event): seq<Handover>
    requires h.Valid() && WellFormed(d, dataLen)
  {
    if !e.Frame? then []
    else
      var v, out := AfterFrame(h, d, dataLen, dualBand, e.processing, e.both),
                    ProcessFrame(h, d, dataLen, dualBand, e.processing, e.both).out;
      if out.None? then [] else [Handover(out.value, Delivery(d.index, d.span), v.straight1, v.straight2)]
  }

  /** Everything handed over in the run, in order. */
  function HandedOver(h: Hops, d: Downlink, dataLen: nat, dualBand: bool, events: seq<Event>): seq<Handover>
    requires h.Valid() && Run(h, d, dataLen, dualBand, events)
    decreases |events|
  {
    if events == [] then []
    else
      HandoverOf(h, d, dataLen, dualBand, events[0])
      + HandedOver(h, Step(h, d, dataLen, dualBand, events[0]), dataLen, dualBand, events[1..])
  }

  /** The current package, and the sender's span exactly when both halves were heard straight. */
  predicate Explained(x: Handover) {
    && |x.sent.span| % 2 == 0
    && x.got == Delivery(x.sent.index, Joined(x.sent.span, x.straight1, x.straight2))
    && (x.got == x.sent <==> (x.straight1 && x.straight2) || HalfOf(x.sent.span, First) == HalfOf(x.sent.span, Second))
  }

  lemma StepIsSound(h: Hops, d: Downlink, dataLen: nat, dualBand: bool, e: Event)
    requires h.Valid() && Sound(d, dataLen) && Enabled(d, dataLen, e)
    ensures Sound(Step(h, d, dataLen, dualBand, e), dataLen)
    ensures forall x :: x in HandoverOf(h, d, dataLen, dualBand, e) ==> Explained(x)
  {
    if e.Frame? {
      var v := AfterFrame(h, d, dataLen, dualBand, e.processing, e.both);
      FrameIsSound(h, d, dataLen, dualBand, e.processing, e.both);
      JoinedExactly(d.span, v.straight1, v.straight2);
      hide AfterFrame, ProcessFrame, HalvesFit, HalfOf, Joined;
    }
  }

  /**
   Over every run, syncs and lost links, repeats, one-sided receptions and sender advances included:
   every span handed over is of the package being sent, and it is the sender's span if and only if
   both its halves were heard straight, or do not differ; they may come from different frames.
   */
  lemma {:induction false} SpansAreTheSenders(h: Hops, d: Downlink, dataLen: nat, dualBand: bool, events: seq<Event>)
    requires h.Valid() && Fresh(d, dataLen) && Run(h, d, dataLen, dualBand, events)
    ensures forall x :: x in HandedOver(h, d, dataLen, dualBand, events) ==> Explained(x)
  {
    SoundSpans(h, d, dataLen, dualBand, events);
  }

  lemma {:induction false} SoundSpans(h: Hops, d: Downlink, dataLen: nat, dualBand: bool, events: seq<Event>)
    requires h.Valid() && Sound(d, dataLen) && Run(h, d, dataLen, dualBand, events)
    ensures forall x :: x in HandedOver(h, d, dataLen, dualBand, events) ==> Explained(x)
    decreases |events|
  {
    if events != [] {
      StepIsSound(h, d, dataLen, dualBand, events[0]);
      hide Step, HandoverOf, Explained, Sound;
      SoundSpans(h, Step(h, d, dataLen, dualBand, events[0]), dataLen, dualBand, events[1..]);
    }
  }

  // ----- which syncs keep the halves straight -----

  /** A sync lands straight if the radios are tuned as the dwell it names wants them. */
  predicate LandsStraight(h: Hops, d: Downlink, dualBand: bool, e: Event)
    requires h.Valid()
  {
    e.Sync? ==> d.tuning.traded == Trades(h, e.nonce, dualBand)
  }

  predicate StraightRun(h: Hops, d: Downlink, dataLen: nat, dualBand: bool, events: seq<Event>)
    requires h.Valid() && Run(h, d, dataLen, dualBand, events)
    decreases |events|
  {
    events == [] ||
    (&& LandsStraight(h, d, dualBand, events[0])
     && StraightRun(h, Step(h, d, dataLen, dualBand, events[0]), dataLen, dualBand, events[1..]))
  }

  /** A linked receiver is straight, and so was every half in the buffer. */
  predicate AllStraight(h: Hops, d: Downlink, dualBand: bool)
    requires h.Valid()
  {
    && (d.linked ==> Straight(h, d.tuning, dualBand))
    && (d.merge.index1 != NO_INDEX ==> d.straight1) && (d.merge.index2 != NO_INDEX ==> d.straight2)
  }

  /** A step keeps everything straight if and only if it is not a sync that lands otherwise. */
  lemma StepKeepsStraight(h: Hops, d: Downlink, dataLen: nat, dualBand: bool, e: Event)
    requires h.Valid() && WellFormed(d, dataLen) && Enabled(d, dataLen, e) && AllStraight(h, d, dualBand)
    ensures AllStraight(h, Step(h, d, dataLen, dualBand, e), dualBand) <==> LandsStraight(h, d, dualBand, e)
    ensures forall x :: x in HandoverOf(h, d, dataLen, dualBand, e) ==> x.straight1 && x.straight2
  {
    hide CopyTo, Heard, HalfOf;
    if e.Tock? {
      TockKeepsStraight(h, d.tuning, dualBand);
    }
  }

  /** In a run whose syncs all land straight, every span handed over is the sender's. */
  lemma {:induction false} StraightRunsDeliver(h: Hops, d: Downlink, dataLen: nat, dualBand: bool, events: seq<Event>)
    requires h.Valid() && Fresh(d, dataLen) && Run(h, d, dataLen, dualBand, events)
    requires (d.linked ==> Straight(h, d.tuning, dualBand)) && StraightRun(h, d, dataLen, dualBand, events)
    ensures forall x :: x in HandedOver(h, d, dataLen, dualBand, events) ==> x.got == x.sent
  {
    SpansAreTheSenders(h, d, dataLen, dualBand, events);
    StraightHandovers(h, d, dataLen, dualBand, events);
  }

  lemma {:induction false} StraightHandovers(h: Hops, d: Downlink, dataLen: nat, dualBand: bool, events: seq<Event>)
    requires h.Valid() && Run(h, d, dataLen, dualBand, events)
    requires AllStraight(h, d, dualBand) && StraightRun(h, d, dataLen, dualBand, events)
    ensures forall x :: x in HandedOver(h, d, dataLen, dualBand, events) ==> x.straight1 && x.straight2
    decreases |events|
  {
    if events != [] {
      StepKeepsStraight(h, d, dataLen, dualBand, events[0]);
      hide Step, HandoverOf, AllStraight, LandsStraight;
      StraightHandovers(h, Step(h, d, dataLen, dualBand, events[0]), dataLen, dualBand, events[1..]);
    }
  }

  /** A receiver whose link was lost is tuned untraded: a sync lands straight exactly in an even dwell or on dual band. */
  lemma SyncAfterLoss(h: Hops, d: Downlink, dataLen: nat, dualBand: bool, nonce: uint8, divisor: uint8)
    requires h.Valid() && WellFormed(d, dataLen)
    ensures var lost := Step(h, d, dataLen, dualBand, Lose);
            LandsStraight(h, lost, dualBand, Sync(nonce, divisor)) <==> (nonce / h.interval) % 2 == 0 || dualBand
  {
  }

  // ----- a sync in an odd dwell -----

  /** A lost receiver about to send the span [1, 2]. */
  function BeforeSync(): Downlink {
    Downlink(0, [1, 2], false, false, 1, false, Tuning(0, false),
             Merge(NO_INDEX, NO_INDEX, seq(SPAN_SIZE, _ => 0)), false, false)
  }

  /** A reply before the first hop hands over both halves crossed. */
  lemma CrossedBeforeHop(h: Hops)
    requires h.Valid() && h.interval == 4
    ensures var events := [Sync(5, 2), Tock, Frame(Radio1, true)];
            && Run(h, BeforeSync(), 1, false, events)
            && HandedOver(h, BeforeSync(), 1, false, events) ==
               [Handover(Delivery(0, [2, 1]), Delivery(0, [1, 2]), false, false)]
  {
    var d0 := BeforeSync();
    var d1 := Step(h, d0, 1, false, Sync(5, 2));
    var d2 := Step(h, d1, 1, false, Tock);
    assert d2.tuning == Tuning(6, false) && d2.replying && !Straight(h, d2.tuning, false);
    JoinedHalves(false, false);
    FrameIsSound(h, d2, 1, false, Radio1, true);
    hide Trades;
    CompletesPair(h, d2, 1, false, Radio1, true);
    OneEvent(h, d2, 1, false, Frame(Radio1, true), []);
    OneEvent(h, d1, 1, false, Tock, [Frame(Radio1, true)] + []);
    var tail := [Tock] + ([Frame(Radio1, true)] + []);
    OneEvent(h, d0, 1, false, Sync(5, 2), tail);
    assert [Sync(5, 2)] + tail == [Sync(5, 2), Tock, Frame(Radio1, true)];
  }

  /** A half stored crossed before the first hop still spoils the span that a straight one completes after it. */
  lemma CrossedAcrossHop(h: Hops)
    requires h.Valid() && h.interval == 4
    ensures var events := [Sync(5, 2), Tock, Frame(Radio1, false), Tock, Tock, Frame(Radio2, false)];
            && Run(h, BeforeSync(), 1, false, events)
            && HandedOver(h, BeforeSync(), 1, false, events) ==
               [Handover(Delivery(0, [2, 2]), Delivery(0, [1, 2]), false, true)]
  {
    var d0 := BeforeSync();
    var d1 := Step(h, d0, 1, false, Sync(5, 2));
    var d2 := Step(h, d1, 1, false, Tock);
    var d3 := Step(h, d2, 1, false, Frame(Radio1, false));
    var d4 := Step(h, d3, 1, false, Tock);
    var d5 := Step(h, d4, 1, false, Tock);
    assert d2.tuning == Tuning(6, false) && d2.replying && !Straight(h, d2.tuning, false);
    assert d5.tuning == Tuning(8, false) && d5.replying && Straight(h, d5.tuning, false);
    FrameIsSound(h, d2, 1, false, Radio1, false);
    FrameIsSound(h, d5, 1, false, Radio2, false);
    JoinedHalves(false, true);
    hide Trades, TxSlots.TelemetrySlot;
    CompletesPair(h, d2, 1, false, Radio1, false);
    CompletesPair(h, d5, 1, false, Radio2, false);
    OneEvent(h, d5, 1, false, Frame(Radio2, false), []);
    var t4 := [Frame(Radio2, false)] + [];
    OneEvent(h, d4, 1, false, Tock, t4);
    OneEvent(h, d3, 1, false, Tock, [Tock] + t4);
    OneEvent(h, d2, 1, false, Frame(Radio1, false), [Tock] + ([Tock] + t4));
    var t1 := [Frame(Radio1, false)] + ([Tock] + ([Tock] + t4));
    OneEvent(h, d1, 1, false, Tock, t1);
    OneEvent(h, d0, 1, false, Sync(5, 2), [Tock] + t1);
    assert [Sync(5, 2)] + ([Tock] + t1) == [Sync(5, 2), Tock, Frame(Radio1, false), Tock, Tock, Frame(Radio2, false)];
  }

  lemma JoinedHalves(straight1: bool, straight2: bool)
    ensures Joined([1, 2], straight1, straight2) == [if straight1 then 1 else 2, if straight2 then 2 else 1]
  {
  }

  /** A frame hands a span over exactly if it brings, or finds, the other half of its package. */
  lemma CompletesPair(h: Hops, d: Downlink, dataLen: nat, dualBand: bool, r: Radio, both: bool)
    requires h.Valid() && WellFormed(d, dataLen)
    ensures ProcessFrame(h, d, dataLen, dualBand, r, both).out.Some? <==>
            both || (if r.Radio1? then d.merge.index2 else d.merge.index1) == d.index
    ensures !both ==>
              var v := AfterFrame(h, d, dataLen, dualBand, r, both);
              ProcessFrame(h, d, dataLen, dualBand, r, both).out.None? ==>
                v.merge.index1 == (if r.Radio1? then d.index else d.merge.index1)
                && v.merge.index2 == (if r.Radio1? then d.merge.index2 else d.index)
  {
    hide CopyTo, Heard, HalfOf, Straight;
  }

  lemma OneEvent(h: Hops, d: Downlink, dataLen: nat, dualBand: bool, e: Event, rest: seq<Event>)
    requires h.Valid() && WellFormed(d, dataLen) && Enabled(d, dataLen, e)
    requires Run(h, Step(h, d, dataLen, dualBand, e), dataLen, dualBand, rest)
    ensures Run(h, d, dataLen, dualBand, [e] + rest)
    ensures HandedOver(h, d, dataLen, dualBand, [e] + rest) ==
            HandoverOf(h, d, dataLen, dualBand, e) + HandedOver(h, Step(h, d, dataLen, dualBand, e), dataLen, dualBand, rest)
  {
    assert ([e] + rest)[1..] == rest;
  }

  // ----- halves of different lengths -----

  /**
   A half of `payload` stored from a frame with `stored` bytes a side, completed by the other half from
   a frame with `last` bytes a side: only the package indices are compared, never the lengths.
   */
  function MixedSpan(buffer: seq<uint8>, payload: seq<uint8>, first: Half, stored: nat, last: nat): seq<uint8>
    requires |buffer| == |payload| == SPAN_SIZE && 2 * stored <= SPAN_SIZE && 2 * last <= SPAN_SIZE
  {
    var m := Merge(NO_INDEX, NO_INDEX, buffer);
    var m1 := if first.First? then Store(m, Radio1, 0, payload[..stored])
              else Store(m, Radio2, 0, payload[stored..2 * stored]);
    var m2 := if first.First? then Store(m1, Radio2, 0, payload[last..2 * last])
              else Store(m1, Radio1, 0, payload[..last]);
    m2.buffer[..2 * last]
  }

  predicate MixIsRight(first: Half, stored: nat, last: nat)
    requires 2 * stored <= SPAN_SIZE && 2 * last <= SPAN_SIZE
  {
    if first.First? then stored >= last else stored == last
  }

  lemma CopyToAt(buffer: seq<uint8>, at: nat, data: seq<uint8>, k: nat)
    requires at + |data| <= |buffer| && k < |buffer|
    ensures |CopyTo(buffer, at, data)| == |buffer|
    ensures CopyTo(buffer, at, data)[k] == if at <= k < at + |data| then data[k - at] else buffer[k]
  {
  }

  lemma MixedSpanAt(buffer: seq<uint8>, payload: seq<uint8>, first: Half, stored: nat, last: nat, k: nat)
    requires |buffer| == |payload| == SPAN_SIZE && 2 * stored <= SPAN_SIZE && 2 * last <= SPAN_SIZE && k < 2 * last
    ensures MixedSpan(buffer, payload, first, stored, last)[k] ==
            if first.First? then (if k < stored || last <= k then payload[k] else buffer[k])
            else (if k < last || stored <= k < 2 * stored then payload[k] else buffer[k])
  {
    hide CopyTo;
    var m := Merge(NO_INDEX, NO_INDEX, buffer);
    if first.First? {
      var m1 := Store(m, Radio1, 0, payload[..stored]);
      CopyToAt(buffer, 0, payload[..stored], k);
      CopyToAt(m1.buffer, last, payload[last..2 * last], k);
    } else {
      var m1 := Store(m, Radio2, 0, payload[stored..2 * stored]);
      CopyToAt(buffer, stored, payload[stored..2 * stored], k);
      CopyToAt(m1.buffer, 0, payload[..last], k);
    }
  }

  /** Exactly when the missing bytes are covered is the rejoined span right for every buffer and payload. */
  lemma MixedLengths(first: Half, stored: nat, last: nat)
    requires 0 < stored && 2 * stored <= SPAN_SIZE && 0 < last && 2 * last <= SPAN_SIZE
    ensures MixIsRight(first, stored, last)
            <==> forall buffer: seq<uint8>, payload: seq<uint8> :: |buffer| == |payload| == SPAN_SIZE ==>
                   MixedSpan(buffer, payload, first, stored, last) == payload[..2 * last]
  {
    if MixIsRight(first, stored, last) {
      forall buffer: seq<uint8>, payload: seq<uint8> | |buffer| == |payload| == SPAN_SIZE
        ensures MixedSpan(buffer, payload, first, stored, last) == payload[..2 * last]
      {
        MixedSpanRight(buffer, payload, first, stored, last);
      }
    } else {
      MixedSpanWrong(first, stored, last);
    }
  }

  lemma MixedSpanRight(buffer: seq<uint8>, payload: seq<uint8>, first: Half, stored: nat, last: nat)
    requires |buffer| == |payload| == SPAN_SIZE && 2 * stored <= SPAN_SIZE && 2 * last <= SPAN_SIZE
    requires MixIsRight(first, stored, last)
    ensures MixedSpan(buffer, payload, first, stored, last) == payload[..2 * last]
  {
    var span := MixedSpan(buffer, payload, first, stored, last);
    forall k: nat | k < 2 * last
      ensures span[k] == payload[..2 * last][k]
    {
      MixedSpanAt(buffer, payload, first, stored, last, k);
    }
  }

  lemma MixedSpanWrong(first: Half, stored: nat, last: nat)
    requires 0 < stored && 2 * stored <= SPAN_SIZE && 0 < last && 2 * last <= SPAN_SIZE
    requires !MixIsRight(first, stored, last)
    ensures exists buffer: seq<uint8>, payload: seq<uint8> ::
              |buffer| == |payload| == SPAN_SIZE
              && MixedSpan(buffer, payload, first, stored, last) != payload[..2 * last]
  {
    var buffer: seq<uint8>, payload: seq<uint8> := seq(SPAN_SIZE, _ => 0), seq(SPAN_SIZE, _ => 1);
    var k := if first.First? then stored else Max(last, if stored > last then 0 else 2 * stored);
    MixedSpanAt(buffer, payload, first, stored, last, k);
    assert payload[..2 * last][k] == 1;
    assert MixedSpan(buffer, payload, first, stored, last) != payload[..2 * last];
  }
}
