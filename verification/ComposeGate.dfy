/**
 * The coordinator inject gate: a per-pane timed state machine over composer ticks. Times are
 * in milliseconds. The lemmas give, for any run, the exact history behind each delivery.
 */
module ComposeGate {
  import opened Basics

  /** `settleMs` is the idle settle time, `stuckSec` the stable-draft age (0 turns that off). */
  datatype GateConfig = GateConfig(settleMs: int, stuckSec: int, skipTypingGate: bool)

  datatype GateState = GateState(
    wasBusy: bool,
    lastBusyEndedAt: int,
    idleReadySince: int,
    draftFp: string,
    draftSince: int)

  const NEW_PANE := GateState(false, 0, 0, "", 0)

  /** One look at the pane; `draftFp` is the trimmed draft found in the composer, "" for none. */
  datatype GateTick = GateTick(phase: Phase, draftFp: string, now: int)

  datatype GatePhase = Idle | WaitBusy | WaitTyping | WaitSettle | WaitNotReady | PlainPane

  datatype GateResult = GateResult(
    phase: GatePhase,
    canDeliver: bool,
    settleInSec: Option<int>,
    clearInSec: Option<int>,
    draftFp: Option<string>)

  function Verdict(phase: GatePhase, canDeliver: bool): GateResult {
    GateResult(phase, canDeliver, None, None, None)
  }

  /** Shell and limit captures return before any clock is touched. */
  predicate Reaches(t: GateTick) {
    t.phase != PlainShell && t.phase != Limit
  }

  predicate IdleReady(t: GateTick) {
    t.draftFp == "" && (t.phase == Empty || t.phase == Afk)
  }

  function TrackDraftAge(s: GateState, fp: string, now: int): (GateState, int) {
    if fp == "" then (s.(draftFp := "", draftSince := 0), 0)
    else
      var s' := if fp != s.draftFp then s.(draftFp := fp, draftSince := now) else s;
      (s', if s'.draftSince != 0 then now - s'.draftSince else 0)
  }

  function DraftVerdict(cfg: GateConfig, t: GateTick, ageMs: int): GateResult {
    var fp := if t.draftFp == "" then None else Some(t.draftFp);
    if cfg.stuckSec > 0 && ageMs >= cfg.stuckSec * 1000 then GateResult(Idle, true, None, Some(0), fp)
    else
      var clearIn := if cfg.stuckSec > 0 then Some(Max(0, CeilDiv(cfg.stuckSec * 1000 - ageMs, 1000))) else None;
      GateResult(WaitTyping, false, None, clearIn, fp)
  }

  function SettleVerdict(cfg: GateConfig, settledMs: int): GateResult {
    if settledMs < cfg.settleMs then
      GateResult(WaitSettle, false, Some(Max(0, CeilDiv(cfg.settleMs - settledMs, 1000))), None, None)
    else Verdict(Idle, true)
  }

  function Classify(cfg: GateConfig, s: GateState, t: GateTick): (GateState, GateResult) {
    if t.phase == PlainShell then (s, Verdict(PlainPane, false))
    else if t.phase == Limit then (s, Verdict(WaitNotReady, false))
    else if cfg.skipTypingGate then (s, Verdict(Idle, true))
    else if t.phase == Busy then
      (s.(wasBusy := true, idleReadySince := 0, draftFp := "", draftSince := 0), Verdict(WaitBusy, false))
    else
      var s1 := if s.wasBusy then s.(wasBusy := false, lastBusyEndedAt := t.now, idleReadySince := 0) else s;
      var (s2, ageMs) := TrackDraftAge(s1, t.draftFp, t.now);
      if t.phase == Typing || t.draftFp != "" then
        (s2.(idleReadySince := 0), DraftVerdict(cfg, t, ageMs))
      else
        // What is left is an empty or afk composer without a draft, so it is always ready.
        var s3 := if s2.idleReadySince == 0 then s2.(idleReadySince := t.now) else s2;
        var emptySettled := t.now - s3.idleReadySince;
        var busySettled := if s3.lastBusyEndedAt != 0 then t.now - s3.lastBusyEndedAt else cfg.settleMs;
        (s3, SettleVerdict(cfg, Min(emptySettled, busySettled)))
  }

  // ---------------------------------------------------------------------------
  // Runs of one pane
  // ---------------------------------------------------------------------------

  function RunGate(cfg: GateConfig, ts: seq<GateTick>): GateState {
    if ts == [] then NEW_PANE else Classify(cfg, RunGate(cfg, ts[..|ts| - 1]), ts[|ts| - 1]).0
  }

  /** The gate's answer at the last tick of a run. */
  function LastVerdict(cfg: GateConfig, ts: seq<GateTick>): GateResult
    requires ts != []
  {
    Classify(cfg, RunGate(cfg, ts[..|ts| - 1]), ts[|ts| - 1]).1
  }

  ghost predicate ClockRuns(ts: seq<GateTick>) {
    && (forall i :: 0 <= i < |ts| ==> ts[i].now > 0)
    && (forall i, j :: 0 <= i < j < |ts| ==> ts[i].now <= ts[j].now)
  }

  lemma ClockPrefix(ts: seq<GateTick>)
    requires ts != [] && ClockRuns(ts)
    ensures ClockRuns(ts[..|ts| - 1])
  {
  }

  // ---------------------------------------------------------------------------
  // The idle clock
  // ---------------------------------------------------------------------------

  /** Start of the current unbroken streak of idle-ready ticks, 0 when there is none. */
  function StreakStart(ts: seq<GateTick>): int {
    if ts == [] then 0
    else
      var past, t := ts[..|ts| - 1], ts[|ts| - 1];
      if !Reaches(t) then StreakStart(past)
      else if !IdleReady(t) then 0
      else if StreakStart(past) != 0 then StreakStart(past)
      else t.now
  }

  /** Every tick from `k` on that reaches the gate, tick `k` among them, is idle-ready. */
  predicate IdleFrom(ts: seq<GateTick>, k: nat) {
    && k < |ts| && IdleReady(ts[k])
    && forall i :: k <= i < |ts| && Reaches(ts[i]) ==> IdleReady(ts[i])
  }

  lemma IdleFromStep(ts: seq<GateTick>, k: nat)
    requires ts != [] && k < |ts| - 1
    ensures var t := ts[|ts| - 1];
            IdleFrom(ts, k) <==> IdleFrom(ts[..|ts| - 1], k) && (Reaches(t) ==> IdleReady(t))
  {
    var past := ts[..|ts| - 1];
    assert forall i :: 0 <= i < |past| ==> past[i] == ts[i];
  }

  lemma {:induction false} IdleClockIsStreak(cfg: GateConfig, ts: seq<GateTick>)
    requires !cfg.skipTypingGate
    ensures RunGate(cfg, ts).idleReadySince == StreakStart(ts)
    ensures RunGate(cfg, ts).wasBusy ==> StreakStart(ts) == 0
  {
    if ts != [] {
      IdleClockIsStreak(cfg, ts[..|ts| - 1]);
    }
  }

  /** The streak start is the earliest tick from which the pane has been idle-ready throughout. */
  lemma {:induction false} StreakStartIsEarliest(ts: seq<GateTick>)
    requires ClockRuns(ts)
    ensures StreakStart(ts) != 0 ==> exists k: nat :: IdleFrom(ts, k) && ts[k].now == StreakStart(ts)
    ensures forall k: nat :: IdleFrom(ts, k) ==> 0 < StreakStart(ts) <= ts[k].now
  {
    if ts != [] {
      var n := |ts| - 1;
      var past, t := ts[..n], ts[n];
      ClockPrefix(ts);
      StreakStartIsEarliest(past);
      if Reaches(t) && IdleReady(t) && StreakStart(past) == 0 {
        assert IdleFrom(ts, n);
      } else if StreakStart(ts) != 0 {
        var k: nat :| IdleFrom(past, k) && past[k].now == StreakStart(past);
        IdleFromStep(ts, k);
        assert IdleFrom(ts, k) && ts[k].now == StreakStart(ts);
      }
      forall k: nat | IdleFrom(ts, k)
        ensures 0 < StreakStart(ts) <= ts[k].now
      {
        if k < n {
          IdleFromStep(ts, k);
          assert past[k] == ts[k];
        } else if StreakStart(past) != 0 {
          var j: nat :| IdleFrom(past, j) && past[j].now == StreakStart(past);
          assert past[j] == ts[j];
        }
      }
    }
  }

  /** The last tick is idle-ready, and has been without a break for at least the settle time. */
  ghost predicate Settled(cfg: GateConfig, ts: seq<GateTick>) {
    ts != [] && exists k: nat :: IdleFrom(ts, k) && IdleReady(ts[|ts| - 1])
                                 && ts[|ts| - 1].now - ts[k].now >= cfg.settleMs
  }

  /** The busy clock never runs behind the idle clock, so it never decides. */
  lemma {:induction false} BusyClockIsEarlier(cfg: GateConfig, ts: seq<GateTick>)
    requires !cfg.skipTypingGate && ClockRuns(ts)
    ensures var s := RunGate(cfg, ts);
            && (s.idleReadySince != 0 ==> s.lastBusyEndedAt <= s.idleReadySince)
            && s.lastBusyEndedAt >= 0
            && (forall i :: 0 <= i < |ts| && i == |ts| - 1 ==> s.lastBusyEndedAt <= ts[i].now)
            && (s.wasBusy ==> s.idleReadySince == 0)
  {
    if ts != [] {
      var n := |ts| - 1;
      ClockPrefix(ts);
      BusyClockIsEarlier(cfg, ts[..n]);
      if n > 0 {
        assert ts[..n][n - 1] == ts[n - 1];
      }
    }
  }

  /** The gate delivers into an empty composer exactly when the pane has settled. */
  lemma IdleDeliveryIffSettled(cfg: GateConfig, ts: seq<GateTick>)
    requires !cfg.skipTypingGate && ClockRuns(ts) && ts != []
    ensures LastVerdict(cfg, ts).canDeliver && ts[|ts| - 1].draftFp == "" <==> Settled(cfg, ts)
  {
    var n := |ts| - 1;
    var t := ts[n];
    BusyClockIsEarlier(cfg, ts);
    IdleClockIsStreak(cfg, ts);
    StreakStartIsEarliest(ts);
    if Settled(cfg, ts) {
      var k: nat :| IdleFrom(ts, k) && IdleReady(t) && t.now - ts[k].now >= cfg.settleMs;
      assert StreakStart(ts) <= ts[k].now;
    }
  }

  // ---------------------------------------------------------------------------
  // The draft clock
  // ---------------------------------------------------------------------------

  /** The draft the gate is timing after a run, and since when. */
  function DraftStart(ts: seq<GateTick>): (string, int) {
    if ts == [] then ("", 0)
    else
      var past, t := ts[..|ts| - 1], ts[|ts| - 1];
      if !Reaches(t) then DraftStart(past)
      else if t.phase == Busy || t.draftFp == "" then ("", 0)
      else if DraftStart(past).0 == t.draftFp then DraftStart(past)
      else (t.draftFp, t.now)
  }

  predicate Shows(t: GateTick, fp: string) {
    Reaches(t) && t.phase != Busy && t.draftFp == fp
  }

  /** Every tick from `k` on that reaches the gate, tick `k` among them, shows this draft. */
  predicate DraftFrom(ts: seq<GateTick>, k: nat, fp: string) {
    && k < |ts| && Shows(ts[k], fp)
    && forall i :: k <= i < |ts| && Reaches(ts[i]) ==> Shows(ts[i], fp)
  }

  lemma DraftFromStep(ts: seq<GateTick>, k: nat, fp: string)
    requires ts != [] && k < |ts| - 1
    ensures var t := ts[|ts| - 1];
            DraftFrom(ts, k, fp) <==> DraftFrom(ts[..|ts| - 1], k, fp) && (Reaches(t) ==> Shows(t, fp))
  {
    var past := ts[..|ts| - 1];
    assert forall i :: 0 <= i < |past| ==> past[i] == ts[i];
  }

  lemma {:induction false} DraftClockIsDraftStart(cfg: GateConfig, ts: seq<GateTick>)
    requires !cfg.skipTypingGate && ClockRuns(ts)
    ensures (RunGate(cfg, ts).draftFp, RunGate(cfg, ts).draftSince) == DraftStart(ts)
    ensures DraftStart(ts).0 != "" ==> DraftStart(ts).1 > 0
  {
    if ts != [] {
      ClockPrefix(ts);
      DraftClockIsDraftStart(cfg, ts[..|ts| - 1]);
    }
  }

  lemma {:induction false} DraftStartIsEarliest(ts: seq<GateTick>)
    requires ClockRuns(ts)
    ensures DraftStart(ts).0 != "" ==>
              exists k: nat :: DraftFrom(ts, k, DraftStart(ts).0) && ts[k].now == DraftStart(ts).1
    ensures forall k: nat, fp :: fp != "" && DraftFrom(ts, k, fp) ==>
              DraftStart(ts).0 == fp && DraftStart(ts).1 <= ts[k].now
  {
    if ts != [] {
      var n := |ts| - 1;
      var past, t := ts[..n], ts[n];
      ClockPrefix(ts);
      DraftStartIsEarliest(past);
      var fp0 := DraftStart(ts).0;
      if Reaches(t) && fp0 != "" && DraftStart(past).0 != fp0 {
        assert DraftFrom(ts, n, fp0);
      } else if fp0 != "" {
        var k: nat :| DraftFrom(past, k, fp0) && past[k].now == DraftStart(past).1;
        DraftFromStep(ts, k, fp0);
        assert DraftFrom(ts, k, fp0) && ts[k].now == DraftStart(ts).1;
      }
      forall k: nat, fp | fp != "" && DraftFrom(ts, k, fp)
        ensures DraftStart(ts).0 == fp && DraftStart(ts).1 <= ts[k].now
      {
        if k < n {
          DraftFromStep(ts, k, fp);
          assert past[k] == ts[k];
        } else if DraftStart(past).0 == fp {
          var j: nat :| DraftFrom(past, j, fp) && past[j].now == DraftStart(past).1;
          assert past[j] == ts[j];
        }
      }
    }
  }

  /** The last tick shows a draft that has been the same, without a break, for the stuck time. */
  ghost predicate StuckDraft(cfg: GateConfig, ts: seq<GateTick>) {
    && ts != [] && cfg.stuckSec > 0 && Shows(ts[|ts| - 1], ts[|ts| - 1].draftFp) && ts[|ts| - 1].draftFp != ""
    && exists k: nat :: DraftFrom(ts, k, ts[|ts| - 1].draftFp)
                        && ts[|ts| - 1].now - ts[k].now >= cfg.stuckSec * 1000
  }

  /** The gate delivers around a draft exactly when that draft has been stuck. */
  lemma DraftDeliveryIffStuck(cfg: GateConfig, ts: seq<GateTick>)
    requires !cfg.skipTypingGate && ClockRuns(ts) && ts != []
    ensures LastVerdict(cfg, ts).canDeliver && ts[|ts| - 1].draftFp != "" <==> StuckDraft(cfg, ts)
  {
    var n := |ts| - 1;
    var t := ts[n];
    DraftClockIsDraftStart(cfg, ts);
    DraftStartIsEarliest(ts);
    ClockPrefix(ts);
    DraftClockIsDraftStart(cfg, ts[..n]);
    if StuckDraft(cfg, ts) {
      var k: nat :| DraftFrom(ts, k, t.draftFp) && t.now - ts[k].now >= cfg.stuckSec * 1000;
      assert DraftStart(ts).1 <= ts[k].now;
    }
  }

  /** All there is to it: on a tick that reaches the gate it opens for one of these reasons. */
  lemma OpensIff(cfg: GateConfig, ts: seq<GateTick>)
    requires ClockRuns(ts) && ts != [] && Reaches(ts[|ts| - 1])
    ensures LastVerdict(cfg, ts).canDeliver <==> cfg.skipTypingGate || Settled(cfg, ts) || StuckDraft(cfg, ts)
  {
    if !cfg.skipTypingGate {
      IdleDeliveryIffSettled(cfg, ts);
      DraftDeliveryIffStuck(cfg, ts);
    }
  }

  // ---------------------------------------------------------------------------
  // The one-clock gate
  // ---------------------------------------------------------------------------

  /** The same gate without the busy flag and the busy-ended clock. */
  function ClassifySimple(cfg: GateConfig, s: GateState, t: GateTick): (GateState, GateResult) {
    if !Reaches(t) then (s, Verdict(if t.phase == PlainShell then PlainPane else WaitNotReady, false))
    else if cfg.skipTypingGate then (s, Verdict(Idle, true))
    else if t.phase == Busy then (NEW_PANE, Verdict(WaitBusy, false))
    else
      var (s1, ageMs) := TrackDraftAge(s, t.draftFp, t.now);
      if !IdleReady(t) then (s1.(idleReadySince := 0), DraftVerdict(cfg, t, ageMs))
      else
        var s2 := if s1.idleReadySince == 0 then s1.(idleReadySince := t.now) else s1;
        (s2, SettleVerdict(cfg, t.now - s2.idleReadySince))
  }

  function RunSimple(cfg: GateConfig, ts: seq<GateTick>): GateState {
    if ts == [] then NEW_PANE else ClassifySimple(cfg, RunSimple(cfg, ts[..|ts| - 1]), ts[|ts| - 1]).0
  }

  lemma {:induction false} SimpleTracksGate(cfg: GateConfig, ts: seq<GateTick>)
    requires ClockRuns(ts)
    ensures RunSimple(cfg, ts) == RunGate(cfg, ts).(wasBusy := false, lastBusyEndedAt := 0)
    ensures !cfg.skipTypingGate || RunGate(cfg, ts) == NEW_PANE
  {
    if ts != [] {
      ClockPrefix(ts);
      SimpleTracksGate(cfg, ts[..|ts| - 1]);
      if !cfg.skipTypingGate {
        IdleClockIsStreak(cfg, ts[..|ts| - 1]);
      }
    }
  }

  lemma SameVerdict(cfg: GateConfig, s: GateState, t: GateTick)
    requires t.now > 0 && 0 <= s.lastBusyEndedAt <= t.now && (s.wasBusy ==> s.idleReadySince == 0)
    requires s.idleReadySince != 0 ==> s.lastBusyEndedAt <= s.idleReadySince
    ensures Classify(cfg, s, t).1 == ClassifySimple(cfg, s.(wasBusy := false, lastBusyEndedAt := 0), t).1
  {
  }

  lemma ClocksBefore(cfg: GateConfig, ts: seq<GateTick>)
    requires !cfg.skipTypingGate && ClockRuns(ts) && ts != []
    ensures var s, t := RunGate(cfg, ts[..|ts| - 1]), ts[|ts| - 1];
            && t.now > 0 && 0 <= s.lastBusyEndedAt <= t.now && (s.wasBusy ==> s.idleReadySince == 0)
            && (s.idleReadySince != 0 ==> s.lastBusyEndedAt <= s.idleReadySince)
  {
    var n := |ts| - 1;
    ClockPrefix(ts);
    BusyClockIsEarlier(cfg, ts[..n]);
    if n > 0 {
      assert ts[..n][n - 1] == ts[n - 1];
    }
    NoBusyAtFirst(cfg, ts[..n]);
  }

  lemma NoBusyAtFirst(cfg: GateConfig, ts: seq<GateTick>)
    ensures ts == [] ==> RunGate(cfg, ts) == NEW_PANE
  {
  }

  /** Dropping the busy-ended clock changes no verdict and no countdown, on any run. */
  lemma OneClockSuffices(cfg: GateConfig, ts: seq<GateTick>)
    requires ClockRuns(ts) && ts != []
    ensures LastVerdict(cfg, ts) == ClassifySimple(cfg, RunSimple(cfg, ts[..|ts| - 1]), ts[|ts| - 1]).1
  {
    var n := |ts| - 1;
    ClockPrefix(ts);
    SimpleTracksGate(cfg, ts[..n]);
    if !cfg.skipTypingGate {
      ClocksBefore(cfg, ts);
      SameVerdict(cfg, RunGate(cfg, ts[..n]), ts[n]);
    }
  }

  // ---------------------------------------------------------------------------
  // What a verdict says
  // ---------------------------------------------------------------------------

  /** The phase of every verdict, the draft it names and which countdown it gives, on any run. */
  lemma VerdictSays(cfg: GateConfig, ts: seq<GateTick>)
    requires ClockRuns(ts) && ts != []
    ensures var v, t := LastVerdict(cfg, ts), ts[|ts| - 1];
            var drafting := Reaches(t) && !cfg.skipTypingGate && t.phase != Busy && !IdleReady(t);
            var settling := Reaches(t) && !cfg.skipTypingGate && IdleReady(t) && !Settled(cfg, ts);
            && (t.phase == PlainShell ==> v.phase == PlainPane && !v.canDeliver)
            && (t.phase == Limit ==> v.phase == WaitNotReady && !v.canDeliver)
            && (Reaches(t) && cfg.skipTypingGate ==> v.phase == Idle && v.canDeliver)
            && (Reaches(t) && !cfg.skipTypingGate && t.phase == Busy ==> v.phase == WaitBusy && !v.canDeliver)
            && (drafting ==> v.phase == if StuckDraft(cfg, ts) then Idle else WaitTyping)
            && (settling ==> v.phase == WaitSettle && !v.canDeliver)
            && (!cfg.skipTypingGate && Settled(cfg, ts) ==> v.phase == Idle && v.canDeliver)
            && (drafting ==> v.draftFp == if t.draftFp == "" then None else Some(t.draftFp))
            && (!drafting ==> v.draftFp.None? && v.clearInSec.None?)
            && (drafting && StuckDraft(cfg, ts) ==> v.clearInSec == Some(0))
            && (v.settleInSec.Some? <==> settling) && (drafting ==> (v.clearInSec.Some? <==> cfg.stuckSec > 0))
  {
    if !cfg.skipTypingGate {
      IdleDeliveryIffSettled(cfg, ts);
      DraftDeliveryIffStuck(cfg, ts);
      if ts[|ts| - 1].draftFp == "" && !IdleReady(ts[|ts| - 1]) {
        TypingIsNotStuck(cfg, ts);
      }
    }
  }

  lemma TypingIsNotStuck(cfg: GateConfig, ts: seq<GateTick>)
    requires !cfg.skipTypingGate && ts != [] && ts[|ts| - 1].draftFp == "" && !IdleReady(ts[|ts| - 1])
    ensures !StuckDraft(cfg, ts) && !LastVerdict(cfg, ts).canDeliver
  {
  }

  /** The least whole number of seconds that covers a time. */
  lemma CeilCovers(x: int, d: int)
    requires d >= 0
    ensures d >= Max(0, CeilDiv(x, 1000)) <==> 1000 * d >= x
  {
  }

  /** The same capture once more, d seconds later. */
  function Again(ts: seq<GateTick>, d: int): seq<GateTick>
    requires ts != []
  {
    ts + [ts[|ts| - 1].(now := ts[|ts| - 1].now + 1000 * d)]
  }

  lemma AgainIsRun(ts: seq<GateTick>, d: int)
    requires ClockRuns(ts) && ts != [] && d >= 0
    ensures ClockRuns(Again(ts, d))
  {
  }

  lemma AgainVerdict(cfg: GateConfig, ts: seq<GateTick>, d: int)
    requires ClockRuns(ts) && ts != [] && d >= 0
    ensures var t := ts[|ts| - 1];
            LastVerdict(cfg, Again(ts, d))
            == ClassifySimple(cfg, RunSimple(cfg, ts), t.(now := t.now + 1000 * d)).1
  {
    var more := Again(ts, d);
    assert more[..|more| - 1] == ts;
    AgainIsRun(ts, d);
    OneClockSuffices(cfg, more);
  }

  /**
   * What the countdowns mean: if nothing changes in the pane, mail can be delivered d seconds later
   * exactly when d is at least the number of seconds given.
   */
  lemma CountdownsAreExact(cfg: GateConfig, ts: seq<GateTick>, d: int)
    requires ClockRuns(ts) && ts != [] && d >= 0
    ensures var v, later := LastVerdict(cfg, ts), LastVerdict(cfg, Again(ts, d));
            && (v.settleInSec.Some? ==> (later.canDeliver <==> d >= v.settleInSec.value))
            && (v.clearInSec.Some? && v.draftFp.Some? ==> (later.canDeliver <==> d >= v.clearInSec.value))
            && (v.clearInSec.Some? && v.draftFp.None? ==> v.clearInSec.value == cfg.stuckSec && !later.canDeliver)
  {
    var t, past := ts[|ts| - 1], ts[..|ts| - 1];
    OneClockSuffices(cfg, ts);
    AgainVerdict(cfg, ts, d);
    if Reaches(t) && !cfg.skipTypingGate && t.phase != Busy {
      ClocksRunning(cfg, ts);
      if IdleReady(t) {
        SettleCountdown(cfg, RunSimple(cfg, past), t, d);
      } else {
        DraftCountdown(cfg, RunSimple(cfg, past), t, d);
      }
    }
  }

  lemma ClocksRunning(cfg: GateConfig, ts: seq<GateTick>)
    requires !cfg.skipTypingGate && ClockRuns(ts) && ts != []
    requires Reaches(ts[|ts| - 1]) && ts[|ts| - 1].phase != Busy
    ensures IdleReady(ts[|ts| - 1]) ==> RunSimple(cfg, ts).idleReadySince > 0
    ensures ts[|ts| - 1].draftFp != "" ==> RunSimple(cfg, ts).draftSince > 0
  {
    SimpleTracksGate(cfg, ts);
    IdleClockIsStreak(cfg, ts);
    StreakStartIsEarliest(ts);
    DraftClockIsDraftStart(cfg, ts);
    if IdleReady(ts[|ts| - 1]) {
      assert IdleFrom(ts, |ts| - 1);
    }
  }

  lemma SettleCountdown(cfg: GateConfig, s: GateState, t: GateTick, d: int)
    requires IdleReady(t) && !cfg.skipTypingGate && d >= 0 && t.now > 0
    ensures var (s', v) := ClassifySimple(cfg, s, t);
            var later := ClassifySimple(cfg, s', t.(now := t.now + 1000 * d)).1;
            && v.clearInSec.None?
            && (v.settleInSec.Some? && s'.idleReadySince > 0 ==> (later.canDeliver <==> d >= v.settleInSec.value))
  {
    var (s', v) := ClassifySimple(cfg, s, t);
    CeilCovers(cfg.settleMs - (t.now - s'.idleReadySince), d);
  }

  lemma DraftCountdown(cfg: GateConfig, s: GateState, t: GateTick, d: int)
    requires Reaches(t) && !cfg.skipTypingGate && t.phase != Busy && !IdleReady(t) && d >= 0 && t.now > 0
    ensures var (s', v) := ClassifySimple(cfg, s, t);
            var later := ClassifySimple(cfg, s', t.(now := t.now + 1000 * d)).1;
            && (v.clearInSec.Some? && v.draftFp.Some? && s'.draftSince != 0 ==>
                  (later.canDeliver <==> d >= v.clearInSec.value))
            && (v.clearInSec.Some? && v.draftFp.None? ==> v.clearInSec.value == cfg.stuckSec && !later.canDeliver)
  {
    var (s', v) := ClassifySimple(cfg, s, t);
    var ageMs := TrackDraftAge(s, t.draftFp, t.now).1;
    CeilCovers(cfg.stuckSec * 1000 - ageMs, d);
    assert cfg.stuckSec > 0 ==> CeilDiv(cfg.stuckSec * 1000, 1000) == cfg.stuckSec;
  }

  // ---------------------------------------------------------------------------
  // The gate as the daemon holds it
  // ---------------------------------------------------------------------------

  class CoordGate {
    var cfg: GateConfig
    var gateByPane: map<string, GateState>

    constructor (cfg: GateConfig)
      ensures this.cfg == cfg && gateByPane == map[]
    {
      this.cfg, gateByPane := cfg, map[];
    }

    function StateOf(pane: string): GateState
      reads this
    {
      if pane in gateByPane then gateByPane[pane] else NEW_PANE
    }

    method ClassifyCoordDelivery(pane: string, t: GateTick) returns (r: GateResult)
      modifies this`gateByPane
      ensures (gateByPane, r) ==
              var (s, verdict) := Classify(cfg, old(StateOf(pane)), t);
              (old(gateByPane)[pane := s], verdict)
    {
      var st := StateOf(pane);
      gateByPane := gateByPane[pane := st];
      if t.phase == PlainShell {
        return Verdict(PlainPane, false);
      }
      if t.phase == Limit {
        return Verdict(WaitNotReady, false);
      }
      if cfg.skipTypingGate {
        return Verdict(Idle, true);
      }
      if t.phase == Busy {
        st := st.(wasBusy := true, idleReadySince := 0, draftFp := "", draftSince := 0);
        gateByPane := gateByPane[pane := st];
        assert gateByPane == old(gateByPane)[pane := st];
        return Verdict(WaitBusy, false);
      }
      if st.wasBusy {
        st := st.(wasBusy := false, lastBusyEndedAt := t.now, idleReadySince := 0);
      }
      var (tracked, ageMs) := TrackDraftAge(st, t.draftFp, t.now);
      st := tracked;
      if t.phase == Typing || t.draftFp != "" {
        st := st.(idleReadySince := 0);
        gateByPane := gateByPane[pane := st];
        assert gateByPane == old(gateByPane)[pane := st];
        return DraftVerdict(cfg, t, ageMs);
      }
      if st.idleReadySince == 0 {
        st := st.(idleReadySince := t.now);
      }
      gateByPane := gateByPane[pane := st];
      assert gateByPane == old(gateByPane)[pane := st];
      var emptySettled := t.now - st.idleReadySince;
      var busySettled := if st.lastBusyEndedAt != 0 then t.now - st.lastBusyEndedAt else cfg.settleMs;
      return SettleVerdict(cfg, Min(emptySettled, busySettled));
    }
  }
}
