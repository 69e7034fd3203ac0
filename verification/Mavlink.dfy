/**
 Splicing the transmitter's own MAVLink frames into the vehicle's byte stream. The stream arrives in
 chunks that ignore frame boundaries; queued frames may go out only between frames of the vehicle.
 */
module Mavlink {
  import opened Words

  const QUEUE_SIZE := 560 // two frames of the largest size
  const STATE_IDLE := 1
  const FRAME_TIMEOUT_MS := 500

  // The MAVLink library's parser: its state number, and whatever else it keeps
  datatype Parser<S> = Parser(state: nat, rest: S) {
    predicate Idle() {
      state <= STATE_IDLE
    }
  }

  type Frame = seq<uint8>

  // What the parser has been through: vehicle bytes, and stalled frames given up after `elapsedMs`
  datatype Fed = Byte(b: uint8) | GivenUp(elapsedMs: nat)

  // What the ground station was sent: vehicle bytes, and whole frames inserted after `at` parser inputs
  datatype Sent = Vehicle(b: uint8) | Inserted(frames: seq<Frame>, at: nat)

  datatype Splicer<S> = Splicer(
    parser: Parser<S>, pending: seq<Frame>, lastByteMs: uint32,
    fed: seq<Fed>, sent: seq<Sent>, accepted: seq<Frame>)

  type Step<!S> = (Parser<S>, uint8) -> Parser<S>

  // ----- byte at a time -----

  function Flatten(frames: seq<Frame>): seq<uint8> {
    if frames == [] then [] else Flatten(frames[..|frames| - 1]) + frames[|frames| - 1]
  }

  function SentBytes(sent: seq<Sent>): seq<uint8> {
    if sent == [] then []
    else
      var last := sent[|sent| - 1];
      SentBytes(sent[..|sent| - 1]) + match last case Vehicle(b) => [b] case Inserted(frames, _) => Flatten(frames)
  }

  function Flush<S>(m: Splicer<S>): Splicer<S> {
    if Flatten(m.pending) != [] && m.parser.Idle() then
      m.(sent := m.sent + [Inserted(m.pending, |m.fed|)], pending := [])
    else m
  }

  function Hear<S>(m: Splicer<S>, step: Step<S>, b: uint8): Splicer<S> {
    m.(parser := step(m.parser, b), fed := m.fed + [Byte(b)], sent := m.sent + [Vehicle(b)])
  }

  function Pass<S>(m: Splicer<S>, step: Step<S>, b: uint8): Splicer<S> {
    Flush(Hear(m, step, b))
  }

  function PassAll<S>(m: Splicer<S>, step: Step<S>, data: seq<uint8>): Splicer<S> {
    if data == [] then m else Pass(PassAll(m, step, data[..|data| - 1]), step, data[|data| - 1])
  }

  function Forward<S>(m: Splicer<S>, step: Step<S>, data: seq<uint8>, nowMs: uint32): Splicer<S> {
    PassAll(m, step, data).(lastByteMs := nowMs)
  }

  function Queue<S>(m: Splicer<S>, frame: Frame): Splicer<S> {
    if |Flatten(m.pending)| + |frame| > QUEUE_SIZE then m
    else m.(pending := m.pending + [frame], accepted := m.accepted + [frame])
  }

  function QueueAll<S>(m: Splicer<S>, frames: seq<Frame>): Splicer<S> {
    if frames == [] then m else Queue(QueueAll(m, frames[..|frames| - 1]), frames[|frames| - 1])
  }

  function GiveUpStalled<S>(m: Splicer<S>, nowMs: uint32): Splicer<S> {
    if !m.parser.Idle() && Elapsed(nowMs, m.lastByteMs) > FRAME_TIMEOUT_MS then
      m.(parser := m.parser.(state := STATE_IDLE), fed := m.fed + [GivenUp(Elapsed(nowMs, m.lastByteMs))])
    else m
  }

  /** One main-loop pass in which the parameter server offers `frames`. */
  function UpdateSplicer<S>(m: Splicer<S>, nowMs: uint32, frames: seq<Frame>): Splicer<S> {
    Flush(QueueAll(GiveUpStalled(m, nowMs), frames))
  }

  // ----- runs -----

  datatype Event = Forwarded(data: seq<uint8>, nowMs: uint32) | Updated(nowMs: uint32, frames: seq<Frame>)

  function Run<S>(m: Splicer<S>, step: Step<S>, events: seq<Event>): Splicer<S> {
    if events == [] then m
    else
      var before := Run(m, step, events[..|events| - 1]);
      match events[|events| - 1]
      case Forwarded(data, nowMs) => Forward(before, step, data, nowMs)
      case Updated(nowMs, frames) => UpdateSplicer(before, nowMs, frames)
  }

  function VehicleStream(events: seq<Event>): seq<uint8> {
    if events == [] then []
    else
      VehicleStream(events[..|events| - 1]) + match events[|events| - 1] case Forwarded(data, _) => data case Updated(_, _) => []
  }

  /** The output with the inserted frames taken out. */
  function VehicleBytes(sent: seq<Sent>): seq<uint8> {
    if sent == [] then []
    else VehicleBytes(sent[..|sent| - 1]) + match sent[|sent| - 1] case Vehicle(b) => [b] case Inserted(_, _) => []
  }

  function InsertedFrames(sent: seq<Sent>): seq<Frame> {
    if sent == [] then []
    else InsertedFrames(sent[..|sent| - 1]) + match sent[|sent| - 1] case Vehicle(_) => [] case Inserted(f, _) => f
  }

  function FedBytes(fed: seq<Fed>): seq<uint8> {
    if fed == [] then []
    else FedBytes(fed[..|fed| - 1]) + match fed[|fed| - 1] case Byte(b) => [b] case GivenUp(_) => []
  }

  /** The parser's state as a fold over what it has been through. */
  function Fold<S>(start: Parser<S>, step: Step<S>, fed: seq<Fed>): Parser<S> {
    if fed == [] then start
    else
      var before := Fold(start, step, fed[..|fed| - 1]);
      match fed[|fed| - 1]
      case Byte(b) => step(before, b)
      case GivenUp(_) => before.(state := STATE_IDLE)
  }

  predicate Conserves<S>(m: Splicer<S>) {
    && VehicleBytes(m.sent) == FedBytes(m.fed)
    && InsertedFrames(m.sent) + m.pending == m.accepted
    && |Flatten(m.pending)| <= QUEUE_SIZE
  }

  /** Entry `k` of the output, if an insertion, sits where the parser is between frames. */
  predicate SafeInsertion<S>(m: Splicer<S>, start: Parser<S>, step: Step<S>, k: nat)
    requires k < |m.sent|
  {
    m.sent[k].Inserted? ==>
      && m.sent[k].at <= |m.fed|
      && VehicleBytes(m.sent[..k]) == FedBytes(m.fed[..m.sent[k].at])
      && Fold(start, step, m.fed[..m.sent[k].at]).Idle()
  }

  /** Only a frame stalled for longer than the timeout is ever given up. */
  predicate JustifiedGivingUp<S>(m: Splicer<S>, start: Parser<S>, step: Step<S>, k: nat)
    requires k < |m.fed|
  {
    m.fed[k].GivenUp? ==> m.fed[k].elapsedMs > FRAME_TIMEOUT_MS && !Fold(start, step, m.fed[..k]).Idle()
  }

  ghost predicate Safe<S>(m: Splicer<S>, start: Parser<S>, step: Step<S>) {
    && m.parser == Fold(start, step, m.fed)
    && (forall k: nat :: k < |m.sent| ==> SafeInsertion(m, start, step, k))
    && (forall k: nat :: k < |m.fed| ==> JustifiedGivingUp(m, start, step, k))
  }

  /** Between vehicle frames nothing is left waiting. */
  predicate Prompt<S>(m: Splicer<S>) {
    m.parser.Idle() ==> Flatten(m.pending) == []
  }

  ghost predicate Good<S>(m: Splicer<S>, start: Parser<S>, step: Step<S>) {
    Conserves(m) && Safe(m, start, step)
  }

  lemma LastOfAppend<T>(s: seq<T>, x: T)
    ensures (s + [x])[..|s|] == s && (s + [x])[|s|] == x
  {
  }

  /** Sending and feeding more keeps what was said about the earlier insertions and timeouts. */
  lemma EarlierStaySafe<S>(m: Splicer<S>, v: Splicer<S>, start: Parser<S>, step: Step<S>)
    requires Safe(m, start, step) && m.sent <= v.sent && m.fed <= v.fed
    ensures forall k: nat :: k < |m.sent| ==> SafeInsertion(v, start, step, k)
    ensures forall k: nat :: k < |m.fed| ==> JustifiedGivingUp(v, start, step, k)
  {
    hide FedBytes, VehicleBytes, Fold;
    forall k: nat | k < |m.sent|
      ensures SafeInsertion(v, start, step, k)
    {
      assert SafeInsertion(m, start, step, k);
      assert v.sent[..k] == m.sent[..k];
      if m.sent[k].Inserted? {
        assert v.fed[..m.sent[k].at] == m.fed[..m.sent[k].at];
      }
    }
    forall k: nat | k < |m.fed|
      ensures JustifiedGivingUp(v, start, step, k)
    {
      assert JustifiedGivingUp(m, start, step, k);
      assert v.fed[..k] == m.fed[..k];
    }
  }

  lemma FlushConserves<S>(m: Splicer<S>)
    requires Conserves(m)
    ensures Conserves(Flush(m)) && Prompt(Flush(m))
  {
    if Flush(m) != m {
      LastOfAppend(m.sent, Inserted(m.pending, |m.fed|));
    }
  }

  lemma FlushIsGood<S>(m: Splicer<S>, start: Parser<S>, step: Step<S>)
    requires Good(m, start, step)
    ensures Good(Flush(m), start, step) && Prompt(Flush(m))
    ensures Flush(m).parser == m.parser && Flush(m).fed == m.fed && Flush(m).accepted == m.accepted
  {
    hide FedBytes, VehicleBytes, InsertedFrames, Fold, Flatten;
    FlushConserves(m);
    var v := Flush(m);
    EarlierStaySafe(m, v, start, step);
    if v != m {
      assert v.sent[..|m.sent|] == m.sent && m.fed[..|m.fed|] == m.fed;
      assert SafeInsertion(v, start, step, |m.sent|);
    }
  }

  /** Feeding the parser one more input; a vehicle byte is also sent on. */
  lemma FeedIsGood<S>(m: Splicer<S>, v: Splicer<S>, start: Parser<S>, step: Step<S>, input: Fed)
    requires Good(m, start, step) && v.fed == m.fed + [input]
    requires v.sent == m.sent + match input case Byte(b) => [Vehicle(b)] case GivenUp(_) => []
    requires v.pending == m.pending && v.accepted == m.accepted
    requires v.parser == match input case Byte(b) => step(m.parser, b) case GivenUp(_) => m.parser.(state := STATE_IDLE)
    requires input.GivenUp? ==> input.elapsedMs > FRAME_TIMEOUT_MS && !m.parser.Idle()
    ensures Good(v, start, step)
    ensures FedBytes(v.fed) == FedBytes(m.fed) + match input case Byte(b) => [b] case GivenUp(_) => []
  {
    LastOfAppend(m.fed, input);
    if input.Byte? {
      LastOfAppend(m.sent, Vehicle(input.b));
    } else {
      assert v.sent == m.sent;
    }
    assert v.parser == Fold(start, step, v.fed);
    assert Conserves(v);
    hide FedBytes, VehicleBytes, InsertedFrames, Fold, Flatten;
    EarlierStaySafe(m, v, start, step);
    assert JustifiedGivingUp(v, start, step, |m.fed|);
    if input.Byte? {
      assert SafeInsertion(v, start, step, |m.sent|);
    }
  }

  lemma PassIsGood<S>(m: Splicer<S>, start: Parser<S>, step: Step<S>, b: uint8)
    requires Good(m, start, step)
    ensures Good(Pass(m, step, b), start, step) && Prompt(Pass(m, step, b))
    ensures FedBytes(Pass(m, step, b).fed) == FedBytes(m.fed) + [b]
  {
    var v := Hear(m, step, b);
    FeedIsGood(m, v, start, step, Byte(b));
    hide FedBytes, Conserves, Safe;
    FlushIsGood(v, start, step);
  }

  lemma {:induction false} PassAllIsGood<S>(m: Splicer<S>, start: Parser<S>, step: Step<S>, data: seq<uint8>)
    requires Good(m, start, step) && Prompt(m)
    ensures Good(PassAll(m, step, data), start, step) && Prompt(PassAll(m, step, data))
    ensures FedBytes(PassAll(m, step, data).fed) == FedBytes(m.fed) + data
  {
    hide Good, Prompt, Pass, FedBytes;
    if data != [] {
      PassAllIsGood(m, start, step, data[..|data| - 1]);
      PassIsGood(PassAll(m, step, data[..|data| - 1]), start, step, data[|data| - 1]);
      assert data == data[..|data| - 1] + [data[|data| - 1]];
    }
  }

  lemma QueueIsGood<S>(m: Splicer<S>, start: Parser<S>, step: Step<S>, frame: Frame)
    requires Good(m, start, step)
    ensures Good(Queue(m, frame), start, step)
    ensures Queue(m, frame).fed == m.fed
  {
    var v := Queue(m, frame);
    LastOfAppend(m.pending, frame);
    assert Conserves(v);
    hide FedBytes, VehicleBytes, InsertedFrames, Fold, Flatten;
    EarlierStaySafe(m, v, start, step);
  }

  lemma {:induction false} QueueAllIsGood<S>(m: Splicer<S>, start: Parser<S>, step: Step<S>, frames: seq<Frame>)
    requires Good(m, start, step)
    ensures Good(QueueAll(m, frames), start, step) && QueueAll(m, frames).fed == m.fed
  {
    if frames != [] {
      QueueAllIsGood(m, start, step, frames[..|frames| - 1]);
      QueueIsGood(QueueAll(m, frames[..|frames| - 1]), start, step, frames[|frames| - 1]);
    }
  }

  lemma UpdateIsGood<S>(m: Splicer<S>, start: Parser<S>, step: Step<S>, nowMs: uint32, frames: seq<Frame>)
    requires Good(m, start, step)
    ensures Good(UpdateSplicer(m, nowMs, frames), start, step) && Prompt(UpdateSplicer(m, nowMs, frames))
    ensures FedBytes(UpdateSplicer(m, nowMs, frames).fed) == FedBytes(m.fed)
  {
    var v := GiveUpStalled(m, nowMs);
    if v != m {
      FeedIsGood(m, v, start, step, v.fed[|m.fed|]);
    }
    QueueAllIsGood(v, start, step, frames);
    FlushIsGood(QueueAll(v, frames), start, step);
  }

  function PowerUp<S>(start: Parser<S>): Splicer<S> {
    Splicer(start, [], 0, [], [], [])
  }

  lemma TouchLast<S>(m: Splicer<S>, start: Parser<S>, step: Step<S>, nowMs: uint32)
    requires Good(m, start, step)
    ensures Good(m.(lastByteMs := nowMs), start, step)
  {
    EarlierStaySafe(m, m.(lastByteMs := nowMs), start, step);
  }

  /**
   Over any run of forwards, queueings, flushes and timeouts, and for any deterministic parser: taking
   the insertions out of the output leaves the vehicle's stream; the inserted frames and those pending
   are the accepted ones in order; every insertion sits between frames; nothing waits needlessly.
   */
  lemma {:induction false} RunSplicesSafely<S>(start: Parser<S>, step: Step<S>, events: seq<Event>)
    ensures var m := Run(PowerUp(start), step, events);
            && Good(m, start, step) && Prompt(m)
            && VehicleBytes(m.sent) == VehicleStream(events)
  {
    if events != [] {
      var before := Run(PowerUp(start), step, events[..|events| - 1]);
      RunSplicesSafely(start, step, events[..|events| - 1]);
      match events[|events| - 1] {
        case Forwarded(data, nowMs) =>
          PassAllIsGood(before, start, step, data);
          TouchLast(PassAll(before, step, data), start, step, nowMs);
        case Updated(nowMs, frames) =>
          UpdateIsGood(before, start, step, nowMs, frames);
      }
    }
  }

  // ----- which frames get in, and that they go out -----

  /** Of `frames`, in order, those that fit the 560 bytes behind what is already in use. */
  function Fitting(used: nat, frames: seq<Frame>): seq<Frame>
    decreases |frames|
  {
    if frames == [] then []
    else if used + |frames[0]| <= 560 then [frames[0]] + Fitting(used + |frames[0]|, frames[1..])
    else Fitting(used, frames[1..])
  }

  function TotalSize(frames: seq<Frame>): nat {
    if frames == [] then 0 else |frames[0]| + TotalSize(frames[1..])
  }

  lemma {:induction false} FittingLast(used: nat, frames: seq<Frame>, last: Frame)
    ensures Fitting(used, frames + [last]) ==
            Fitting(used, frames) + if used + TotalSize(Fitting(used, frames)) + |last| <= 560 then [last] else []
    decreases |frames|
  {
    if frames == [] {
      assert [] + [last] == [last] && [last][1..] == [];
    } else {
      assert (frames + [last])[1..] == frames[1..] + [last];
      if used + |frames[0]| <= 560 {
        var rest := Fitting(used + |frames[0]|, frames[1..]);
        FittingLast(used + |frames[0]|, frames[1..], last);
        assert ([frames[0]] + rest)[1..] == rest;
      } else {
        FittingLast(used, frames[1..], last);
      }
    }
  }

  lemma {:induction false} AllFit(used: nat, frames: seq<Frame>)
    requires used + TotalSize(frames) <= 560
    ensures Fitting(used, frames) == frames
    decreases |frames|
  {
    if frames != [] {
      AllFit(used + |frames[0]|, frames[1..]);
    }
  }

  lemma {:induction false} FlattenAppends(a: seq<Frame>, b: seq<Frame>)
    ensures Flatten(a + b) == Flatten(a) + Flatten(b)
    decreases |b|
  {
    if b == [] {
      assert a + b == a;
    } else {
      var n := |b| - 1;
      FlattenAppends(a, b[..n]);
      LastOfAppend(a + b[..n], b[n]);
      assert a + b == a + b[..n] + [b[n]];
    }
  }

  lemma {:induction false} FlattenSize(frames: seq<Frame>)
    ensures |Flatten(frames)| == TotalSize(frames)
    decreases |frames|
  {
    if frames != [] {
      FlattenSize(frames[1..]);
      FlattenAppends([frames[0]], frames[1..]);
      assert [frames[0]] + frames[1..] == frames;
      LastOfAppend([], frames[0]);
      assert [] + [frames[0]] == [frames[0]];
    }
  }

  /** Of the frames offered, exactly the fitting ones are kept, in order, behind those pending. */
  lemma {:induction false} OfferedFramesKept<S>(m: Splicer<S>, frames: seq<Frame>)
    ensures var v, kept := QueueAll(m, frames), Fitting(|Flatten(m.pending)|, frames);
            v.pending == m.pending + kept && v.accepted == m.accepted + kept
  {
    if frames != [] {
      var n := |frames| - 1;
      var before, kept := QueueAll(m, frames[..n]), Fitting(|Flatten(m.pending)|, frames[..n]);
      OfferedFramesKept(m, frames[..n]);
      FlattenAppends(m.pending, kept);
      FlattenSize(kept);
      FittingLast(|Flatten(m.pending)|, frames[..n], frames[n]);
      assert frames[..n] + [frames[n]] == frames;
    }
  }

  /** What a run has taken in: pass by pass, the frames offered that fitted behind those then pending. */
  function TakenIn<S>(start: Parser<S>, step: Step<S>, events: seq<Event>): seq<Frame> {
    if events == [] then []
    else
      var earlier, last := events[..|events| - 1], events[|events| - 1];
      TakenIn(start, step, earlier)
      + if last.Updated? then Fitting(|Flatten(Run(PowerUp(start), step, earlier).pending)|, last.frames) else []
  }

  lemma {:induction false} PassingTakesNothing<S>(m: Splicer<S>, step: Step<S>, data: seq<uint8>)
    ensures PassAll(m, step, data).accepted == m.accepted
  {
    if data != [] {
      PassingTakesNothing(m, step, data[..|data| - 1]);
    }
  }

  /** Over every run, the frames accepted, sent or pending, are exactly those taken in. */
  lemma {:induction false} RunTakesInFitting<S>(start: Parser<S>, step: Step<S>, events: seq<Event>)
    ensures var m := Run(PowerUp(start), step, events);
            InsertedFrames(m.sent) + m.pending == TakenIn(start, step, events)
  {
    RunSplicesSafely(start, step, events);
    AcceptedIsTakenIn(start, step, events);
  }

  lemma {:induction false} AcceptedIsTakenIn<S>(start: Parser<S>, step: Step<S>, events: seq<Event>)
    ensures Run(PowerUp(start), step, events).accepted == TakenIn(start, step, events)
  {
    if events != [] {
      var earlier := events[..|events| - 1];
      var before := Run(PowerUp(start), step, earlier);
      AcceptedIsTakenIn(start, step, earlier);
      match events[|events| - 1] {
        case Forwarded(data, nowMs) => PassingTakesNothing(before, step, data);
        case Updated(nowMs, frames) => OfferedFramesKept(GiveUpStalled(before, nowMs), frames);
      }
    }
  }

  /** With the parser between frames, one pass sends on at once, in order, all that was pending and all that fits. */
  lemma IdlePassSends<S>(m: Splicer<S>, nowMs: uint32, frames: seq<Frame>)
    requires m.parser.state <= 1
    ensures var v := UpdateSplicer(m, nowMs, frames);
            && SentBytes(v.sent) == SentBytes(m.sent) + Flatten(m.pending) + Flatten(Fitting(|Flatten(m.pending)|, frames))
            && Flatten(v.pending) == [] && v.parser == m.parser
  {
    hide SentBytes, QueueAll, Fitting, Flush, Flatten;
    OfferedFramesKept(m, frames);
    FlattenAppends(m.pending, Fitting(|Flatten(m.pending)|, frames));
    QueueingKeepsRest(m, frames);
    FlushSends(QueueAll(m, frames));
  }

  lemma FlushSends<S>(m: Splicer<S>)
    requires m.parser.state <= 1
    ensures SentBytes(Flush(m).sent) == SentBytes(m.sent) + Flatten(m.pending)
    ensures Flatten(Flush(m).pending) == [] && Flush(m).parser == m.parser
  {
    BytesOfAppend(m.sent, Inserted(m.pending, |m.fed|));
    hide SentBytes;
  }

  lemma {:induction false} QueueingKeepsRest<S>(m: Splicer<S>, frames: seq<Frame>)
    ensures QueueAll(m, frames).sent == m.sent && QueueAll(m, frames).fed == m.fed
    ensures QueueAll(m, frames).parser == m.parser && QueueAll(m, frames).lastByteMs == m.lastByteMs
  {
    if frames != [] {
      QueueingKeepsRest(m, frames[..|frames| - 1]);
    }
  }

  /** Frames that fit the empty queue together all go out in the pass that offers them. */
  lemma FramesThatFitAreSent<S>(m: Splicer<S>, nowMs: uint32, frames: seq<Frame>)
    requires m.parser.state <= 1 && m.pending == [] && TotalSize(frames) <= 560
    ensures SentBytes(UpdateSplicer(m, nowMs, frames).sent) == SentBytes(m.sent) + Flatten(frames)
  {
    hide Flatten, Fitting, SentBytes, UpdateSplicer, TotalSize;
    FlattenNothing();
    AllFit(0, frames);
    IdlePassSends(m, nowMs, frames);
  }

  lemma FlattenNothing()
    ensures Flatten([]) == []
  {
  }

  /** A vehicle frame is given up by a pass if and only if it has not completed 500 ms after its last chunk. */
  lemma GivenUpExactly<S>(m: Splicer<S>, step: Step<S>, data: seq<uint8>, arrivedMs: uint32, nowMs: uint32, frames: seq<Frame>)
    requires Forward(m, step, data, arrivedMs).parser.state > 1
    ensures var v := UpdateSplicer(Forward(m, step, data, arrivedMs), nowMs, frames);
            v.parser.state <= 1 <==> Elapsed(nowMs, arrivedMs) > 500
  {
    var w := Forward(m, step, data, arrivedMs);
    QueueingKeepsRest(GiveUpStalled(w, nowMs), frames);
    hide Forward, QueueAll;
  }

  /** Inside a vehicle frame that has not stalled, a pass sends nothing. */
  lemma BusyPassHolds<S>(m: Splicer<S>, nowMs: uint32, frames: seq<Frame>)
    requires m.parser.state > 1 && Elapsed(nowMs, m.lastByteMs) <= 500
    ensures UpdateSplicer(m, nowMs, frames).sent == m.sent && UpdateSplicer(m, nowMs, frames).parser == m.parser
  {
    QueueingKeepsRest(m, frames);
    hide QueueAll;
  }

  /** A pass that gives a frame up sends what was waiting behind it. */
  lemma StallReleasesQueue<S>(m: Splicer<S>, nowMs: uint32, frames: seq<Frame>)
    requires Elapsed(nowMs, m.lastByteMs) > 500
    ensures var v := UpdateSplicer(m, nowMs, frames);
            SentBytes(v.sent) == SentBytes(m.sent) + Flatten(m.pending) + Flatten(Fitting(|Flatten(m.pending)|, frames))
  {
    var w := GiveUpStalled(m, nowMs);
    assert UpdateSplicer(m, nowMs, frames) == UpdateSplicer(w, nowMs, frames);
    IdlePassSends(w, nowMs, frames);
  }

  // ----- whole runs of bytes, as the firmware writes them -----

  lemma BytesOfAppend(sent: seq<Sent>, x: Sent)
    ensures SentBytes(sent + [x]) == SentBytes(sent) + match x case Vehicle(b) => [b] case Inserted(f, _) => Flatten(f)
  {
    LastOfAppend(sent, x);
  }

  lemma PassOneMore<S>(m: Splicer<S>, step: Step<S>, data: seq<uint8>, i: nat)
    requires i < |data|
    ensures PassAll(m, step, data[..i + 1]) == Pass(PassAll(m, step, data[..i]), step, data[i])
  {
    assert data[..i + 1][..i] == data[..i];
  }

  lemma RunGrows(written: seq<uint8>, data: seq<uint8>, begin: nat, i: nat)
    requires begin <= i < |data|
    ensures written + data[begin..i] + [data[i]] == written + data[begin..i + 1]
  {
    assert data[begin..i + 1] == data[begin..i] + [data[i]];
  }

  class TxMavlink<!S> {
    const step: Step<S>
    const queuedFrames: array<uint8>
    var queuedLen: nat
    var vehicleRx: Parser<S>
    var lastVehicleByte: uint32
    var gcs: seq<uint8> // everything written to the ground station
    ghost var model: Splicer<S>

    /** The buffer holds the pending frames back to back. */
    ghost predicate BufferHolds()
      reads this, queuedFrames
    {
      && queuedFrames.Length == QUEUE_SIZE
      && queuedLen <= QUEUE_SIZE
      && queuedFrames[..queuedLen] == Flatten(model.pending)
      && vehicleRx == model.parser
      && lastVehicleByte == model.lastByteMs
    }

    ghost predicate Valid()
      reads this, queuedFrames
    {
      BufferHolds() && gcs == SentBytes(model.sent)
    }

    constructor (step: Step<S>, idle: Parser<S>)
      ensures Valid() && model == PowerUp(idle) && this.step == step && fresh(queuedFrames)
    {
      this.step := step;
      queuedFrames := new uint8[QUEUE_SIZE](_ => 0);
      queuedLen := 0;
      vehicleRx := idle;
      lastVehicleByte := 0;
      gcs := [];
      model := PowerUp(idle);
    }

    method WriteToGcs(data: seq<uint8>)
      modifies this`gcs
      ensures gcs == old(gcs) + data
    {
      gcs := gcs + data;
    }

    method CopyIn(frame: Frame)
      requires queuedLen + |frame| <= queuedFrames.Length
      modifies queuedFrames
      ensures queuedFrames[..queuedLen + |frame|] == old(queuedFrames[..queuedLen]) + frame
    {
      forall i | 0 <= i < |frame| {
        queuedFrames[queuedLen + i] := frame[i];
      }
    }

    method QueueFrame(frame: Frame) returns (ok: bool)
      requires Valid()
      modifies this`queuedLen, this`model, queuedFrames
      ensures Valid() && model == Queue(old(model), frame)
      ensures ok <==> |Flatten(old(model.pending))| + |frame| <= 560
      ensures ok ==> model.pending == old(model.pending) + [frame]
      ensures !ok ==> model == old(model)
    {
      if queuedLen + |frame| > QUEUE_SIZE {
        return false;
      }
      LastOfAppend(model.pending, frame);
      assert Flatten(model.pending + [frame]) == Flatten(model.pending) + frame;
      hide Flatten, SentBytes;
      CopyIn(frame);
      model := Queue(model, frame);
      queuedLen := queuedLen + |frame|;
      return true;
    }

    method FlushQueuedFrames()
      requires Valid()
      modifies this`queuedLen, this`gcs, this`model
      ensures Valid() && model == Flush(old(model))
    {
      assert Flatten([]) == [];
      hide Flatten, SentBytes;
      if queuedLen != 0 && vehicleRx.state <= STATE_IDLE {
        WriteToGcs(queuedFrames[..queuedLen]);
        BytesOfAppend(model.sent, Inserted(model.pending, |model.fed|));
        queuedLen := 0;
      }
      model := Flush(model);
    }

    /** The parser sees the byte; it is not written yet. */
    method ParseVehicleByte(b: uint8)
      requires BufferHolds()
      modifies this`vehicleRx, this`model
      ensures BufferHolds() && model == Hear(old(model), step, b)
      ensures SentBytes(model.sent) == SentBytes(old(model.sent)) + [b]
    {
      BytesOfAppend(model.sent, Vehicle(b));
      vehicleRx := step(vehicleRx, b);
      model := Hear(model, step, b);
    }

    /** After byte `i`, of which the run from `begin` is still unwritten. */
    method SpliceAfter(data: seq<uint8>, begin: nat, i: nat) returns (next: nat)
      requires begin <= i < |data| && BufferHolds()
      requires SentBytes(model.sent) == gcs + data[begin..i + 1]
      modifies this`queuedLen, this`gcs, this`model
      ensures BufferHolds() && model == Flush(old(model))
      ensures next == begin || next == i + 1
      ensures SentBytes(model.sent) == gcs + data[next..i + 1]
    {
      hide SentBytes, Flatten;
      next := begin;
      if queuedLen != 0 && vehicleRx.state <= STATE_IDLE {
        WriteToGcs(data[begin..i + 1]);
        next := i + 1;
        FlushQueuedFrames();
      }
    }

    /** One turn of the loop; what has been sent is written but for the run from `next`. */
    method ForwardByte(data: seq<uint8>, begin: nat, i: nat) returns (next: nat)
      requires begin <= i < |data| && BufferHolds()
      requires SentBytes(model.sent) == gcs + data[begin..i]
      modifies this`queuedLen, this`gcs, this`vehicleRx, this`model
      ensures BufferHolds() && model == Pass(old(model), step, data[i])
      ensures begin <= next <= i + 1 && SentBytes(model.sent) == gcs + data[next..i + 1]
    {
      hide SentBytes, Flatten, Hear, Flush, BufferHolds;
      RunGrows(gcs, data, begin, i);
      ParseVehicleByte(data[i]);
      next := SpliceAfter(data, begin, i);
    }

    method WriteRest(data: seq<uint8>, begin: nat, nowMs: uint32)
      requires begin <= |data| && BufferHolds()
      requires SentBytes(model.sent) == gcs + data[begin..]
      modifies this`gcs, this`lastVehicleByte, this`model
      ensures Valid() && model == old(model).(lastByteMs := nowMs)
    {
      hide SentBytes, Flatten;
      if begin < |data| {
        WriteToGcs(data[begin..]);
      }
      lastVehicleByte := nowMs;
      model := model.(lastByteMs := nowMs);
    }

    /** Writing whole runs comes to the same output as passing on each byte by itself. */
    method ForwardToGcs(data: seq<uint8>, nowMs: uint32)
      requires Valid()
      modifies this
      ensures Valid() && model == Forward(old(model), step, data, nowMs)
    {
      assert PassAll(model, step, data[..0]) == model;
      hide PassAll, Pass, SentBytes, Flatten, BufferHolds;
      var begin: nat := 0;
      ghost var before := model;
      for i := 0 to |data|
        invariant 0 <= begin <= i && BufferHolds()
        invariant model == PassAll(before, step, data[..i])
        invariant SentBytes(model.sent) == gcs + data[begin..i]
      {
        PassOneMore(before, step, data, i);
        begin := ForwardByte(data, begin, i);
      }
      assert data[..|data|] == data;
      WriteRest(data, begin, nowMs);
    }

    /** `offered` are the frames the parameter server and the link reports hand over in this pass. */
    method Update(now: uint32, offered: seq<Frame>)
      requires Valid()
      modifies this, queuedFrames
      ensures Valid() && model == UpdateSplicer(old(model), now, offered)
    {
      if vehicleRx.state > STATE_IDLE && Elapsed(now, lastVehicleByte) > FRAME_TIMEOUT_MS {
        vehicleRx := vehicleRx.(state := STATE_IDLE);
      }
      model := GiveUpStalled(model, now);
      ghost var before := model;
      for i := 0 to |offered|
        invariant Valid() && model == QueueAll(before, offered[..i])
      {
        assert offered[..i + 1][..i] == offered[..i];
        var _ := QueueFrame(offered[i]);
      }
      assert offered[..|offered|] == offered;
      FlushQueuedFrames();
    }
  }
}
