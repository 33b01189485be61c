/**
 * The captures of one coordinator pane over time: the daemon's attempts to deliver and its border
 * paints. Only some of them go through the gate, so the gate's clocks see less than the daemon
 * does. The results state deliveries over all captures, and when a paste really means that the
 * pane was quiet for the settle time.
 */
module DeliveryRuns {
  import opened Basics
  import opened ComposeGate
  import opened InjectDelivery

  /** A paint asks the gate only while inbox mail is unsent; `seen` is a capture of a known CLI. */
  datatype Capture =
    | Delivery(view: PaneView, mail: Mail, options: DeliverOptions)
    | Paint(seen: bool, unsent: bool, tick: GateTick)

  function TickOf(c: Capture): GateTick {
    match c
    case Delivery(view, _, _) => view.tick
    case Paint(_, _, tick) => tick
  }

  /** The daemon looked at the pane and saw a CLI that is neither a shell nor at its limit. */
  predicate Looked(c: Capture) {
    match c
    case Delivery(view, _, _) => Ready(view)
    case Paint(seen, _, tick) => seen && Reaches(tick)
  }

  /**
   * The capture goes through the gate. A delivery that finds the pane busy (or typing) gets that
   * far only with override words on a pane that is not co-typed, and no bypass may apply.
   */
  predicate Feeds(cfg: GateConfig, c: Capture) {
    match c
    case Paint(seen, unsent, _) => seen && unsent
    case Delivery(v, m, o) =>
      && Ready(v) && v.coord && !o.force
      && (CoTyped(v) || (!o.roomPing && !AckFollowUp(v, m)))
      && (v.tick.phase == Busy || TypingHold(cfg, v) ==> m.hubOverride && !CoTyped(v))
  }

  function CaptureStep(cfg: GateConfig, s: GateState, c: Capture): GateState {
    match c
    case Delivery(v, m, o) => Deliver(cfg, s, v, m, o).0
    case Paint(seen, unsent, tick) => if seen && unsent then Classify(cfg, s, tick).0 else s
  }

  function RunCaptures(cfg: GateConfig, cs: seq<Capture>): GateState {
    if cs == [] then NEW_PANE else CaptureStep(cfg, RunCaptures(cfg, cs[..|cs| - 1]), cs[|cs| - 1])
  }

  lemma StepFeeds(cfg: GateConfig, s: GateState, c: Capture)
    ensures CaptureStep(cfg, s, c) == if Feeds(cfg, c) then Classify(cfg, s, TickOf(c)).0 else s
  {
  }

  // ---------------------------------------------------------------------------
  // The ticks the gate sees
  // ---------------------------------------------------------------------------

  /** A capture kept from the gate leaves it alone, just as a capture of a bare shell does. */
  function Seen(cfg: GateConfig, c: Capture): GateTick {
    if Feeds(cfg, c) then TickOf(c) else GateTick(PlainShell, "", TickOf(c).now)
  }

  function SeenTicks(cfg: GateConfig, cs: seq<Capture>): (ts: seq<GateTick>)
    ensures |ts| == |cs| && forall i :: 0 <= i < |cs| ==> ts[i] == Seen(cfg, cs[i])
  {
    seq(|cs|, i requires 0 <= i < |cs| => Seen(cfg, cs[i]))
  }

  lemma SeenStep(cfg: GateConfig, s: GateState, c: Capture)
    ensures CaptureStep(cfg, s, c) == Classify(cfg, s, Seen(cfg, c)).0
  {
    StepFeeds(cfg, s, c);
  }

  lemma RunGateMore(cfg: GateConfig, ts: seq<GateTick>, t: GateTick)
    ensures RunGate(cfg, ts + [t]) == Classify(cfg, RunGate(cfg, ts), t).0
  {
    assert (ts + [t])[..|ts|] == ts;
  }

  /** Over any captures the gate stands where the captures that go through it have put it. */
  lemma {:induction false} GateSeesFedOnly(cfg: GateConfig, cs: seq<Capture>)
    ensures RunCaptures(cfg, cs) == RunGate(cfg, SeenTicks(cfg, cs))
  {
    if cs != [] {
      var past, c := cs[..|cs| - 1], cs[|cs| - 1];
      GateSeesFedOnly(cfg, past);
      SeenStep(cfg, RunCaptures(cfg, past), c);
      RunGateMore(cfg, SeenTicks(cfg, past), Seen(cfg, c));
      assert SeenTicks(cfg, cs) == SeenTicks(cfg, past) + [Seen(cfg, c)];
    }
  }

  ghost predicate ClockRuns(cs: seq<Capture>) {
    && (forall i :: 0 <= i < |cs| ==> TickOf(cs[i]).now > 0)
    && (forall i, j :: 0 <= i < j < |cs| ==> TickOf(cs[i]).now <= TickOf(cs[j]).now)
  }

  // ---------------------------------------------------------------------------
  // Deliveries over captures
  // ---------------------------------------------------------------------------

  /** From capture k on everything that goes through the gate is idle-ready, k itself among it. */
  ghost predicate IdleSince(cfg: GateConfig, cs: seq<Capture>, k: nat) {
    && k < |cs| && Feeds(cfg, cs[k]) && IdleReady(TickOf(cs[k]))
    && forall i :: k <= i < |cs| && Feeds(cfg, cs[i]) && Reaches(TickOf(cs[i])) ==> IdleReady(TickOf(cs[i]))
  }

  /** From capture k on everything that goes through the gate shows this draft, k itself among it. */
  ghost predicate DraftSince(cfg: GateConfig, cs: seq<Capture>, k: nat, fp: string) {
    && k < |cs| && Feeds(cfg, cs[k]) && Shows(TickOf(cs[k]), fp)
    && forall i :: k <= i < |cs| && Feeds(cfg, cs[i]) && Reaches(TickOf(cs[i])) ==> Shows(TickOf(cs[i]), fp)
  }

  /** For at least the settle time every capture that went through the gate was idle-ready. */
  ghost predicate SettledSince(cfg: GateConfig, cs: seq<Capture>, k: nat) {
    && IdleSince(cfg, cs, k) && IdleReady(TickOf(cs[|cs| - 1]))
    && TickOf(cs[|cs| - 1]).now - TickOf(cs[k]).now >= cfg.settleMs
  }

  /** For at least the stuck time every capture that went through the gate showed the present draft. */
  ghost predicate StuckSince(cfg: GateConfig, cs: seq<Capture>, k: nat) {
    && k < |cs| && cfg.stuckSec > 0 && TickOf(cs[|cs| - 1]).draftFp != ""
    && Shows(TickOf(cs[|cs| - 1]), TickOf(cs[|cs| - 1]).draftFp)
    && DraftSince(cfg, cs, k, TickOf(cs[|cs| - 1]).draftFp)
    && TickOf(cs[|cs| - 1]).now - TickOf(cs[k]).now >= cfg.stuckSec * 1000
  }

  lemma SettledIsSettledSince(cfg: GateConfig, cs: seq<Capture>)
    requires cs != [] && Feeds(cfg, cs[|cs| - 1])
    ensures Settled(cfg, SeenTicks(cfg, cs)) <==> exists k: nat :: SettledSince(cfg, cs, k)
  {
    var ts := SeenTicks(cfg, cs);
    if Settled(cfg, ts) {
      var k: nat :| IdleFrom(ts, k) && IdleReady(ts[|ts| - 1]) && ts[|ts| - 1].now - ts[k].now >= cfg.settleMs;
      assert IdleSince(cfg, cs, k);
      assert SettledSince(cfg, cs, k);
    }
    if k: nat :| SettledSince(cfg, cs, k) {
      assert IdleFrom(ts, k);
    }
  }

  lemma StuckIsStuckSince(cfg: GateConfig, cs: seq<Capture>)
    requires cs != [] && Feeds(cfg, cs[|cs| - 1])
    ensures StuckDraft(cfg, SeenTicks(cfg, cs)) <==> exists k: nat :: StuckSince(cfg, cs, k)
  {
    var ts := SeenTicks(cfg, cs);
    var fp := TickOf(cs[|cs| - 1]).draftFp;
    if StuckDraft(cfg, ts) {
      var k: nat :| DraftFrom(ts, k, fp) && ts[|ts| - 1].now - ts[k].now >= cfg.stuckSec * 1000;
      assert DraftSince(cfg, cs, k, fp);
      assert StuckSince(cfg, cs, k);
    }
    if k: nat :| StuckSince(cfg, cs, k) {
      assert DraftFrom(ts, k, fp);
    }
  }

  /** Why mail without flags may be pasted, told from all captures up to and including this delivery. */
  ghost predicate JustifiedBy(cfg: GateConfig, cs: seq<Capture>, v: PaneView, m: Mail) {
    || (AckFollowUp(v, m) && !CoTyped(v))
    || (!v.coord && CanDeliverNow(v.tick.phase))
    || (v.coord && CanDeliverNow(v.tick.phase) && exists k: nat :: SettledSince(cfg, cs, k))
    || (v.coord && (exists k: nat :: StuckSince(cfg, cs, k))
        && (CanDeliverNow(v.tick.phase) || (v.tick.phase == Typing && m.hubOverride && !CoTyped(v))))
  }

  lemma TicksRun(cfg: GateConfig, cs: seq<Capture>)
    requires ClockRuns(cs)
    ensures ComposeGate.ClockRuns(SeenTicks(cfg, cs))
  {
  }

  /**
   * Without flags and with the typing gate on, over any captures of the pane: mail is pasted
   * exactly when it is an acknowledgement for an open box, the pane is an idle worker pane, or what
   * went through the gate was idle throughout the settle time, or showed the same draft throughout
   * the stuck time.
   */
  lemma PlainPasteIffJustified(cfg: GateConfig, past: seq<Capture>, v: PaneView, m: Mail)
    requires !cfg.skipTypingGate && Ready(v)
    requires ClockRuns(past + [Delivery(v, m, NO_FLAGS)])
    ensures Deliver(cfg, RunCaptures(cfg, past), v, m, NO_FLAGS).1.Pasted?
        <==> JustifiedBy(cfg, past + [Delivery(v, m, NO_FLAGS)], v, m)
  {
    var c := Delivery(v, m, NO_FLAGS);
    var cs := past + [c];
    if Feeds(cfg, c) {
      FedPasteIffJustified(cfg, past, v, m);
    } else {
      UnfedPasteIffJustified(cfg, past, v, m);
    }
  }

  lemma FedPasteIffJustified(cfg: GateConfig, past: seq<Capture>, v: PaneView, m: Mail)
    requires !cfg.skipTypingGate && Feeds(cfg, Delivery(v, m, NO_FLAGS))
    requires ClockRuns(past + [Delivery(v, m, NO_FLAGS)])
    ensures Deliver(cfg, RunCaptures(cfg, past), v, m, NO_FLAGS).1.Pasted?
        <==> JustifiedBy(cfg, past + [Delivery(v, m, NO_FLAGS)], v, m)
  {
    var cs := past + [Delivery(v, m, NO_FLAGS)];
    GateSeesFedOnly(cfg, past);
    assert SeenTicks(cfg, cs) == SeenTicks(cfg, past) + [v.tick];
    TicksRun(cfg, cs);
    PasteIffGateJustifies(cfg, SeenTicks(cfg, past), v, m);
    SettledIsSettledSince(cfg, cs);
    StuckIsStuckSince(cfg, cs);
  }

  lemma UnfedPasteIffJustified(cfg: GateConfig, past: seq<Capture>, v: PaneView, m: Mail)
    requires !cfg.skipTypingGate && Ready(v) && !Feeds(cfg, Delivery(v, m, NO_FLAGS))
    ensures Deliver(cfg, RunCaptures(cfg, past), v, m, NO_FLAGS).1.Pasted?
        <==> JustifiedBy(cfg, past + [Delivery(v, m, NO_FLAGS)], v, m)
  {
  }

  // ---------------------------------------------------------------------------
  // All options
  // ---------------------------------------------------------------------------

  /** What went through the gate, this delivery included, lets mail into a coordinator pane. */
  ghost predicate GateOpens(cfg: GateConfig, cs: seq<Capture>) {
    || cfg.skipTypingGate
    || (exists k: nat :: SettledSince(cfg, cs, k))
    || (exists k: nat :: StuckSince(cfg, cs, k))
  }

  lemma FedVerdict(cfg: GateConfig, past: seq<Capture>, c: Capture)
    requires Feeds(cfg, c)
    ensures Classify(cfg, RunCaptures(cfg, past), TickOf(c)).1 == LastVerdict(cfg, SeenTicks(cfg, past + [c]))
  {
    var ts := SeenTicks(cfg, past + [c]);
    GateSeesFedOnly(cfg, past);
    assert ts[..|ts| - 1] == SeenTicks(cfg, past);
  }

  lemma FedGateOpens(cfg: GateConfig, past: seq<Capture>, c: Capture)
    requires c.Delivery? && Feeds(cfg, c) && ClockRuns(past + [c])
    ensures Classify(cfg, RunCaptures(cfg, past), TickOf(c)).1.canDeliver <==> GateOpens(cfg, past + [c])
  {
    var cs := past + [c];
    FedVerdict(cfg, past, c);
    TicksRun(cfg, cs);
    assert cs[|cs| - 1] == c;
    OpensIff(cfg, SeenTicks(cfg, cs));
    SettledIsSettledSince(cfg, cs);
    StuckIsStuckSince(cfg, cs);
  }

  /**
   * For all options, over any captures of the pane: mail is pasted exactly when the pane is ready, the
   * hard floor lets it pass, and one of these holds. It is forced, a room ping or an acknowledgement
   * for an open box (the last two on a pane that is not co-typed); or the pane is a worker's and idle,
   * or the mail is lightweight; or the pane is a coordinator's and what went through the gate was
   * idle throughout the settle time or showed one draft throughout the stuck time. It is pasted as a
   * follow-up exactly when it is an acknowledgement for an open box.
   */
  lemma PastedIff(cfg: GateConfig, past: seq<Capture>, v: PaneView, m: Mail, o: DeliverOptions)
    requires ClockRuns(past + [Delivery(v, m, o)])
    ensures var r := Deliver(cfg, RunCaptures(cfg, past), v, m, o).1;
            && (r.Pasted? <==>
                  && Ready(v) && Floor(cfg, v, m)
                  && (if o.force || (!CoTyped(v) && (o.roomPing || AckFollowUp(v, m))) then true
                      else if v.coord then GateOpens(cfg, past + [Delivery(v, m, o)])
                      else o.lightweight || CanDeliverNow(v.tick.phase)))
            && (r.Pasted? ==>
                  (r.steer <==> m.ackClass && v.followUp && v.provider.value in {CursorAgent, Agent}))
  {
    PasteIff(cfg, RunCaptures(cfg, past), v, m, o);
    if Ready(v) && Floor(cfg, v, m) && !Bypass(v, m, o) && v.coord {
      FedGateOpens(cfg, past, Delivery(v, m, o));
    }
  }

  /** So a room ping reaches every idle pane that is not co-typed, whatever the gate has seen. */
  lemma RoomPingReachesIdlePane(cfg: GateConfig, gate: GateState, v: PaneView, m: Mail, o: DeliverOptions)
    requires Ready(v) && CanDeliverNow(v.tick.phase) && !CoTyped(v) && o.roomPing
    ensures Deliver(cfg, gate, v, m, o) == (gate, Pasted(AckFollowUp(v, m)))
  {
  }

  // ---------------------------------------------------------------------------
  // What a settled paste does not show
  // ---------------------------------------------------------------------------

  /** The daemon saw the pane at work, or with a draft, and the gate was not told. */
  predicate Missed(cfg: GateConfig, c: Capture) {
    Looked(c) && !IdleReady(TickOf(c)) && !Feeds(cfg, c)
  }

  /** Less than the settle time before the last capture. */
  predicate InWindow(cfg: GateConfig, cs: seq<Capture>, i: nat)
    requires cs != []
  {
    i < |cs| && TickOf(cs[|cs| - 1]).now - TickOf(cs[i]).now < cfg.settleMs
  }

  /** The daemon saw the pane at work, or with a draft, within the settle time. */
  ghost predicate SeenActive(cfg: GateConfig, cs: seq<Capture>)
    requires cs != []
  {
    exists i: nat :: InWindow(cfg, cs, i) && Looked(cs[i]) && !IdleReady(TickOf(cs[i]))
  }

  /**
   * When the gate has settled, the pane was in truth seen active within the settle time exactly
   * when one of the captures there was kept from the gate. Which captures those are is decided by
   * the guards of the delivery alone (`MissedDeliveryIff`).
   */
  lemma SettledIsQuietIff(cfg: GateConfig, cs: seq<Capture>, k: nat)
    requires ClockRuns(cs) && SettledSince(cfg, cs, k)
    ensures SeenActive(cfg, cs) <==> exists i: nat :: InWindow(cfg, cs, i) && Missed(cfg, cs[i])
  {
    if i: nat :| InWindow(cfg, cs, i) && Looked(cs[i]) && !IdleReady(TickOf(cs[i])) {
      assert Missed(cfg, cs[i]);
    }
    if i: nat :| InWindow(cfg, cs, i) && Missed(cfg, cs[i]) {
      assert Looked(cs[i]) && !IdleReady(TickOf(cs[i]));
    }
  }

  /**
   * The same for a paste: plain mail pasted into a composer that is empty now went to a pane seen
   * active within the settle time exactly when some capture of that time was kept from the gate.
   */
  lemma PasteIsQuietIff(cfg: GateConfig, past: seq<Capture>, v: PaneView, m: Mail)
    requires !cfg.skipTypingGate && Ready(v) && v.coord && IdleReady(v.tick) && !AckFollowUp(v, m)
    requires ClockRuns(past + [Delivery(v, m, NO_FLAGS)])
    requires Deliver(cfg, RunCaptures(cfg, past), v, m, NO_FLAGS).1.Pasted?
    ensures var cs := past + [Delivery(v, m, NO_FLAGS)];
            SeenActive(cfg, cs) <==> exists i: nat :: InWindow(cfg, cs, i) && Missed(cfg, cs[i])
  {
    var cs := past + [Delivery(v, m, NO_FLAGS)];
    PlainPasteIffJustified(cfg, past, v, m);
    assert TickOf(cs[|cs| - 1]) == v.tick;
    var k: nat :| SettledSince(cfg, cs, k);
    SettledIsQuietIff(cfg, cs, k);
  }

  /** Which deliveries, and which paints, see an active coordinator pane without telling the gate. */
  lemma MissedDeliveryIff(cfg: GateConfig, v: PaneView, m: Mail, o: DeliverOptions)
    requires !cfg.skipTypingGate && Ready(v) && v.coord && !IdleReady(v.tick)
    ensures Missed(cfg, Delivery(v, m, o)) <==>
              || o.force
              || (!CoTyped(v) && (o.roomPing || AckFollowUp(v, m)))
              || ((v.tick.phase == Busy || v.tick.phase == Typing) && (CoTyped(v) || !m.hubOverride))
    ensures Missed(cfg, Paint(true, false, v.tick)) && !Missed(cfg, Paint(true, true, v.tick))
  {
  }

  /** So mail without override words that finds the pane busy never resets the settle clock. */
  lemma BusyMailIsMissed(cfg: GateConfig, v: PaneView, m: Mail, o: DeliverOptions)
    requires Ready(v) && v.tick.phase == Busy && !m.hubOverride
    ensures Missed(cfg, Delivery(v, m, o))
    ensures forall s :: CaptureStep(cfg, s, Delivery(v, m, o)) == s
  {
    forall s
      ensures CaptureStep(cfg, s, Delivery(v, m, o)) == s
    {
      StepFeeds(cfg, s, Delivery(v, m, o));
    }
  }

  // ---------------------------------------------------------------------------
  // A pane that was busy half a second ago
  // ---------------------------------------------------------------------------

  function CoordAt(phase: Phase, now: int): PaneView {
    PaneView(true, true, Some(Claude), true, false, false, GateTick(phase, "", now))
  }

  function PlainMail(phase: Phase, now: int): Capture {
    Delivery(CoordAt(phase, now), Mail(false, false), NO_FLAGS)
  }

  /**
   * With a settle time of 1.5 s: empty at 1 ms (held), busy at 1001 ms (held, and the gate is not
   * told), empty at 1501 ms: pasted, half a second after the pane was seen busy.
   */
  lemma PastedHalfASecondAfterBusy(stuckSec: int)
    ensures var cfg := GateConfig(1500, stuckSec, false);
            var past := [PlainMail(Empty, 1), PlainMail(Busy, 1001)];
            && Deliver(cfg, NEW_PANE, CoordAt(Empty, 1), Mail(false, false), NO_FLAGS).1.Held?
            && Deliver(cfg, RunCaptures(cfg, past[..1]), CoordAt(Busy, 1001), Mail(false, false), NO_FLAGS).1.Held?
            && Deliver(cfg, RunCaptures(cfg, past), CoordAt(Empty, 1501), Mail(false, false), NO_FLAGS).1.Pasted?
            && SeenActive(cfg, past + [PlainMail(Empty, 1501)])
  {
    var cfg := GateConfig(1500, stuckSec, false);
    var past := [PlainMail(Empty, 1), PlainMail(Busy, 1001)];
    var cs := past + [PlainMail(Empty, 1501)];
    assert past[..1] == [PlainMail(Empty, 1)] && past[..1][..0] == [];
    assert RunCaptures(cfg, past[..1]) == NEW_PANE.(idleReadySince := 1);
    BusyMailIsMissed(cfg, CoordAt(Busy, 1001), Mail(false, false), NO_FLAGS);
    assert RunCaptures(cfg, past) == NEW_PANE.(idleReadySince := 1);
    assert cs[1] == PlainMail(Busy, 1001) && InWindow(cfg, cs, 1);
  }
}
