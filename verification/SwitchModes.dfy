/** A change of the channel encoding is confirmed by two sync packets in a row. */
module SwitchModes {
  import opened TxSlots
  import opened RxSlots

  datatype Event = Sync(packet: SyncPacket) | Apply | Lose | Establishes | Tocks(tock: TockInput)

  // An accepted sync packet, and whether it found the link lost
  datatype Seen = Seen(mode: SwitchMode, lost: bool)

  // The receiver and the sync packets it has accepted, in order
  datatype Trace = Trace(rx: RxState, seen: seq<Seen>)

  function Step(c: RxConfig, t: Trace, e: Event): Trace
    requires c.Valid()
  {
    match e
    case Sync(p) =>
      Trace(ReceiveSync(c, t.rx, p),
            if Accepts(c, p) then t.seen + [Seen(p.switchMode, t.rx.link == Lost)] else t.seen)
    case Apply => t.(rx := ApplySwitchMode(t.rx))
    case Lose => t.(rx := LoseLink(t.rx))
    case Establishes => t.(rx := Establish(t.rx))
    case Tocks(i) => t.(rx := Tock(c, t.rx, i).state)
  }

  function Run(c: RxConfig, t: Trace, events: seq<Event>): Trace
    requires c.Valid()
  {
    if events == [] then t else Step(c, Run(c, t, events[..|events| - 1]), events[|events| - 1])
  }

  function LastSeen(seen: seq<Seen>, back: nat): Seen
    requires back < |seen|
  {
    seen[|seen| - 1 - back]
  }

  /** A pending change is what the last sync asked for, and a confirmed one what the last two did. */
  predicate PendingExplained(t: Trace) {
    var pending := t.rx.switchPending;
    pending == 0 ||
    (&& |t.seen| >= 1
     && LastSeen(t.seen, 0).mode == (if pending > 0 then pending - 1 else -1 - pending)
     && (pending > 0 && !LastSeen(t.seen, 0).lost ==>
           |t.seen| >= 2 && LastSeen(t.seen, 1).mode == pending - 1))
  }

  lemma SyncPending(c: RxConfig, s: RxState, p: SyncPacket)
    requires c.Valid()
    ensures ReceiveSync(c, s, p).switchPending
            == if Accepts(c, p) then SwitchPending(s.switchMode, s.switchPending, s.link == Lost, p.switchMode)
               else s.switchPending
  {
  }

  lemma StepExplained(c: RxConfig, t: Trace, e: Event)
    requires c.Valid() && PendingExplained(t)
    ensures PendingExplained(Step(c, t, e))
  {
    if e.Sync? {
      SyncPending(c, t.rx, e.packet);
    }
  }

  lemma {:induction false} RunExplained(c: RxConfig, t: Trace, events: seq<Event>)
    requires c.Valid() && PendingExplained(t)
    ensures PendingExplained(Run(c, t, events))
  {
    if events != [] {
      RunExplained(c, t, events[..|events| - 1]);
      StepExplained(c, Run(c, t, events[..|events| - 1]), events[|events| - 1]);
    }
  }

  /**
   In every run from power-up: if the main loop changes the mode, and the sync that set the change came
   in on a live link, the two most recent accepted syncs both carried the new mode.
   */
  lemma AppliedModeWasConfirmed(c: RxConfig, s: RxState, events: seq<Event>)
    requires c.Valid() && s.switchPending == 0
    ensures var t := Run(c, Trace(s, []), events);
            var v := ApplySwitchMode(t.rx);
            v.switchMode != t.rx.switchMode ==>
              && |t.seen| >= 1 && LastSeen(t.seen, 0).mode == v.switchMode
              && (LastSeen(t.seen, 0).lost || (|t.seen| >= 2 && LastSeen(t.seen, 1).mode == v.switchMode))
  {
    RunExplained(c, Trace(s, []), events);
  }

  /** On a live link, one sync with another mode leaves nothing for the main loop to apply. */
  lemma ContrarySyncPrevents(c: RxConfig, s: RxState, p: SyncPacket, mode: SwitchMode)
    requires c.Valid() && Accepts(c, p) && s.link != Lost
    requires s.switchPending in {mode + 1, -1 - mode} && p.switchMode != mode
    ensures ApplySwitchMode(ReceiveSync(c, s, p)).switchMode == s.switchMode
  {
    SyncPending(c, s, p);
  }

  /** On a live link and from rest, two syncs with the same new mode are exactly what it takes. */
  lemma TwoSyncsConfirm(c: RxConfig, s: RxState, p: SyncPacket, q: SyncPacket)
    requires c.Valid() && Accepts(c, p) && Accepts(c, q) && s.link != Lost
    requires s.switchPending == 0 && q.switchMode != s.switchMode
    ensures var v := ReceiveSync(c, ReceiveSync(c, s, p), q);
            ApplySwitchMode(v).switchMode == q.switchMode <==> p.switchMode == q.switchMode
  {
    SyncPending(c, s, p);
    SyncPending(c, ReceiveSync(c, s, p), q);
  }

  /** A confirmed change that meets its own mode again, once or any odd number of times, is unconfirmed again. */
  lemma {:induction false} RepeatsToggle(c: RxConfig, s: RxState, p: SyncPacket, repeats: nat)
    requires c.Valid() && Accepts(c, p) && s.link != Lost && p.switchMode != s.switchMode
    requires s.switchPending == p.switchMode + 1
    ensures var v := Repeated(c, s, p, repeats);
            && v.link != Lost && v.switchMode == s.switchMode
            && v.switchPending == (if repeats % 2 == 0 then p.switchMode + 1 else -1 - p.switchMode)
            && (ApplySwitchMode(v).switchMode == p.switchMode <==> repeats % 2 == 0)
  {
    if repeats > 0 {
      RepeatsToggle(c, s, p, repeats - 1);
      SyncPending(c, Repeated(c, s, p, repeats - 1), p);
    }
  }

  function Repeated(c: RxConfig, s: RxState, p: SyncPacket, repeats: nat): RxState
    requires c.Valid()
  {
    if repeats == 0 then s else ReceiveSync(c, Repeated(c, s, p, repeats - 1), p)
  }
}
