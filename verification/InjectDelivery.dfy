/**
 * The decision to paste mesh mail into a pane: the hard floor, the co-typed rule and the bypass
 * flags, over the coordinator gate. Pane captures and message classes are inputs.
 */
module InjectDelivery {
  import opened Basics
  import opened ComposeGate

  datatype Provider = CursorAgent | Agent | Claude | OpenCode | Kiro | OtherCli

  /** One capture of the target pane. `followUp`: the busy label or the text shows a follow-up box. */
  datatype PaneView = PaneView(
    labeled: bool,
    captured: bool,
    provider: Option<Provider>,
    coord: bool,
    humanTyped: bool,
    followUp: bool,
    tick: GateTick)

  /** `ackClass`: acknowledgement mail; `hubOverride`: carries PRIORITY or STOP other work. */
  datatype Mail = Mail(ackClass: bool, hubOverride: bool)

  datatype DeliverOptions = DeliverOptions(force: bool, lightweight: bool, roomPing: bool)

  datatype HoldReason =
    | PlainPaneHold
    | NoSnapshot
    | NoProvider
    | PhaseHold(phase: Phase)
    | CoTypedHold(phase: Phase)
    | GateHold(gate: GatePhase)

  datatype DeliverResult = Pasted(steer: bool) | Held(reason: HoldReason)

  predicate CanDeliverNow(phase: Phase) {
    phase == Empty || phase == Afk
  }

  predicate CoTyped(v: PaneView) {
    v.coord && v.humanTyped
  }

  predicate TypingHold(cfg: GateConfig, v: PaneView) {
    v.tick.phase == Typing && !cfg.skipTypingGate
  }

  /** Acknowledgement mail for a Cursor pane that shows its follow-up box. */
  predicate AckFollowUp(v: PaneView, m: Mail) {
    m.ackClass && v.followUp && (v.provider == Some(CursorAgent) || v.provider == Some(Agent))
  }

  function Deliver(cfg: GateConfig, gate: GateState, v: PaneView, m: Mail, o: DeliverOptions)
    : (GateState, DeliverResult)
  {
    var phase := v.tick.phase;
    if !v.labeled then (gate, Held(PlainPaneHold))
    else if !v.captured then (gate, Held(NoSnapshot))
    else if v.provider.None? then (gate, Held(NoProvider))
    else if !Reaches(v.tick) then (gate, Held(PhaseHold(phase)))
    else
      var holding := phase == Busy || TypingHold(cfg, v);
      if CoTyped(v) && holding then (gate, Held(CoTypedHold(phase)))
      else if holding && !AckFollowUp(v, m) && !m.hubOverride then (gate, Held(PhaseHold(phase)))
      else
        var roomPingBypass := o.roomPing && !CoTyped(v);
        var ackBypass := AckFollowUp(v, m) && !CoTyped(v);
        if !o.force && v.coord && !roomPingBypass && !ackBypass then
          var (gate', verdict) := Classify(cfg, gate, v.tick);
          (gate', if verdict.canDeliver then Pasted(AckFollowUp(v, m)) else Held(GateHold(verdict.phase)))
        else if !o.force && !o.lightweight && !roomPingBypass && !ackBypass && !CanDeliverNow(phase) then
          (gate, Held(PhaseHold(phase)))
        else (gate, Pasted(AckFollowUp(v, m)))
  }

  // ---------------------------------------------------------------------------
  // What a paste proves
  // ---------------------------------------------------------------------------

  predicate Ready(v: PaneView) {
    v.labeled && v.captured && v.provider.Some? && Reaches(v.tick)
  }

  /** No combination of flags pastes onto a busy pane without an acknowledgement lane or override words. */
  lemma BusyPasteNeedsException(cfg: GateConfig, gate: GateState, v: PaneView, m: Mail, o: DeliverOptions)
    requires v.tick.phase == Busy && Deliver(cfg, gate, v, m, o).1.Pasted?
    ensures !CoTyped(v) && (AckFollowUp(v, m) || m.hubOverride)
  {
  }

  /** A co-typed pane is never pasted into while busy or, with the typing gate on, while typing. */
  lemma CoTypedPasteIsQuiet(cfg: GateConfig, gate: GateState, v: PaneView, m: Mail, o: DeliverOptions)
    requires CoTyped(v) && Deliver(cfg, gate, v, m, o).1.Pasted?
    ensures v.tick.phase == Empty || v.tick.phase == Afk || (v.tick.phase == Typing && cfg.skipTypingGate)
  {
  }

  const NO_FLAGS := DeliverOptions(false, false, false)

  /** Why mail without flags may be pasted, given the ticks that went through the gate up to this one. */
  ghost predicate Justified(cfg: GateConfig, ts: seq<GateTick>, v: PaneView, m: Mail) {
    || (AckFollowUp(v, m) && !CoTyped(v))
    || (!v.coord && CanDeliverNow(v.tick.phase))
    || (v.coord && Settled(cfg, ts))
    || (v.coord && StuckDraft(cfg, ts)
        && (CanDeliverNow(v.tick.phase) || (v.tick.phase == Typing && m.hubOverride && !CoTyped(v))))
  }

  /**
   * Without flags and with the typing gate on, mail is pasted exactly when the ticks that went
   * through the gate justify it. `DeliveryRuns` says which captures those are.
   */
  lemma PasteIffGateJustifies(cfg: GateConfig, past: seq<GateTick>, v: PaneView, m: Mail)
    requires !cfg.skipTypingGate && ClockRuns(past + [v.tick]) && Ready(v)
    ensures Deliver(cfg, RunGate(cfg, past), v, m, NO_FLAGS).1.Pasted? <==> Justified(cfg, past + [v.tick], v, m)
  {
    var ts := past + [v.tick];
    assert ts[..|ts| - 1] == past;
    IdleDeliveryIffSettled(cfg, ts);
    DraftDeliveryIffStuck(cfg, ts);
  }

  /** A busy coordinator pane without the acknowledgement lane is never pasted into without `force` or a room ping. */
  lemma BusyCoordStaysClosed(cfg: GateConfig, gate: GateState, v: PaneView, m: Mail, o: DeliverOptions)
    requires v.coord && v.tick.phase == Busy && !AckFollowUp(v, m) && !o.force && !o.roomPing && !cfg.skipTypingGate
    ensures Deliver(cfg, gate, v, m, o).1.Held?
  {
  }

  /** What the flags buy: with one of them, only the hard floor is left. */
  lemma ForcedPasteIffFloor(cfg: GateConfig, gate: GateState, v: PaneView, m: Mail, o: DeliverOptions)
    requires Ready(v) && o.force
    ensures Deliver(cfg, gate, v, m, o).1.Pasted? <==>
              (CanDeliverNow(v.tick.phase)
               || (v.tick.phase == Typing && cfg.skipTypingGate)
               || (!CoTyped(v) && (AckFollowUp(v, m) || m.hubOverride)))
    ensures Deliver(cfg, gate, v, m, o).0 == gate
  {
  }

  // ---------------------------------------------------------------------------
  // All options
  // ---------------------------------------------------------------------------

  /** The hard floor: an idle composer; else an ACK box or override words, never on a co-typed pane. */
  predicate Floor(cfg: GateConfig, v: PaneView, m: Mail) {
    || CanDeliverNow(v.tick.phase)
    || (v.tick.phase == Typing && cfg.skipTypingGate)
    || ((v.tick.phase == Busy || v.tick.phase == Typing) && !CoTyped(v) && (AckFollowUp(v, m) || m.hubOverride))
  }

  /** What lets mail past everything but the floor. */
  predicate Bypass(v: PaneView, m: Mail, o: DeliverOptions) {
    o.force || (!CoTyped(v) && (o.roomPing || AckFollowUp(v, m)))
  }

  /** The decision for a gate that would, or would not, open: every option, every pane. */
  lemma PasteIff(cfg: GateConfig, gate: GateState, v: PaneView, m: Mail, o: DeliverOptions)
    ensures Deliver(cfg, gate, v, m, o).1.Pasted? <==>
              && Ready(v) && Floor(cfg, v, m)
              && (if Bypass(v, m, o) then true
                  else if v.coord then Classify(cfg, gate, v.tick).1.canDeliver
                  else o.lightweight || CanDeliverNow(v.tick.phase))
    ensures Deliver(cfg, gate, v, m, o).1.Pasted? ==>
              (Deliver(cfg, gate, v, m, o).1.steer <==>
                 m.ackClass && v.followUp && v.provider.value in {CursorAgent, Agent})
  {
  }

  /** The reason given for every hold. */
  lemma WhyHeld(cfg: GateConfig, gate: GateState, v: PaneView, m: Mail, o: DeliverOptions)
    requires Deliver(cfg, gate, v, m, o).1.Held?
    ensures var phase := v.tick.phase;
            Deliver(cfg, gate, v, m, o).1.reason ==
            if !v.labeled then PlainPaneHold
            else if !v.captured then NoSnapshot
            else if v.provider.None? then NoProvider
            else if phase == PlainShell || phase == Limit then PhaseHold(phase)
            else if !Floor(cfg, v, m) then if CoTyped(v) then CoTypedHold(phase) else PhaseHold(phase)
            else if !v.coord then PhaseHold(phase)
            else GateHold(if phase == Busy then WaitBusy else if IdleReady(v.tick) then WaitSettle else WaitTyping)
  {
  }

  // ---------------------------------------------------------------------------
  // Delivery over the shared gate
  // ---------------------------------------------------------------------------

  method DeliverToPane(gate: CoordGate, pane: string, v: PaneView, m: Mail, o: DeliverOptions)
    returns (r: DeliverResult)
    modifies gate`gateByPane
    ensures var (s, want) := Deliver(gate.cfg, old(gate.StateOf(pane)), v, m, o);
            r == want && gate.StateOf(pane) == s
    ensures forall p :: p != pane ==> gate.StateOf(p) == old(gate.StateOf(p))
  {
    if !v.labeled {
      return Held(PlainPaneHold);
    }
    if !v.captured {
      return Held(NoSnapshot);
    }
    if v.provider.None? {
      return Held(NoProvider);
    }
    var phase := v.tick.phase;
    if phase == PlainShell || phase == Limit {
      return Held(PhaseHold(phase));
    }
    var coTyped := v.coord && v.humanTyped;
    var typingHold := phase == Typing && !gate.cfg.skipTypingGate;
    var busyHold := phase == Busy;
    if coTyped && (busyHold || typingHold) {
      return Held(CoTypedHold(phase));
    }
    var ackFollowUp := AckFollowUp(v, m);
    if (busyHold || typingHold) && !ackFollowUp && !m.hubOverride {
      return Held(PhaseHold(phase));
    }
    var roomPingBypass := o.roomPing && !coTyped;
    var ackFollowUpBypass := ackFollowUp && !coTyped;
    if !o.force && v.coord && !roomPingBypass && !ackFollowUpBypass {
      var verdict := gate.ClassifyCoordDelivery(pane, v.tick);
      if !verdict.canDeliver {
        return Held(GateHold(verdict.phase));
      }
    } else if !o.force && !o.lightweight && !roomPingBypass && !ackFollowUpBypass && !CanDeliverNow(phase) {
      return Held(PhaseHold(phase));
    }
    return Pasted(ackFollowUp);
  }
}
