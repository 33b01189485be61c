/**
 * The operator-prompt watch: per-pane composer transitions, the quiet window after a daemon
 * paste, and the busy-then-idle cycle that closes an operator ask. Runs are sequences of
 * events; the lemmas look back over the whole run.
 */
module AckWatch {
  import opened Basics

  const DAEMON_INJECT_QUIET_MS := 5000

  datatype PromptWatch = PromptWatch(pendingDraft: string, pendingAt: int)

  const EMPTY_PROMPT_WATCH := PromptWatch("", 0)

  datatype PromptEvent = NoEvent | TypingSeen | Submitted(prompt: string) | Abandoned

  datatype OperatorPrompt = OperatorPrompt(pane: string, seatLabel: string, prompt: string, at: int)

  datatype ReplyArm = ReplyArm(armed: bool, sawBusy: bool)

  /**
   * One composer observation. `draft` is trimmed; `meshText` says the draft is the daemon's own
   * copy; `echo` is the pending draft as found in the transcript, "" when it is not there.
   */
  datatype Tick = Tick(pane: string, seatLabel: string, draft: string, meshText: bool, echo: string,
                       phase: Phase, now: int)

  function ClassifyPromptTick(prev: Option<PromptWatch>, t: Tick): (PromptWatch, PromptEvent) {
    if t.draft != "" then
      if t.meshText then (EMPTY_PROMPT_WATCH, NoEvent)
      else
        var since := if prev.Some? && prev.value.pendingAt != 0 then prev.value.pendingAt else t.now;
        (PromptWatch(t.draft, since), TypingSeen)
    else if prev.None? || prev.value.pendingDraft == "" then (EMPTY_PROMPT_WATCH, NoEvent)
    else if t.echo != "" then (EMPTY_PROMPT_WATCH, Submitted(t.echo))
    else (EMPTY_PROMPT_WATCH, Abandoned)
  }

  // ---------------------------------------------------------------------------
  // State and steps
  // ---------------------------------------------------------------------------

  datatype WatchState = WatchState(
    watch: map<string, PromptWatch>,
    injectedAt: map<string, int>,
    arms: map<string, ReplyArm>,
    prompts: seq<OperatorPrompt>,
    replies: seq<string>)

  const START := WatchState(map[], map[], map[], [], [])

  datatype Event =
    | Inject(pane: string, now: int)
    | Observe(tick: Tick)
    | DrainPrompts
    | DrainReplies

  predicate InQuietWindow(s: WatchState, pane: string, now: int) {
    pane in s.injectedAt && s.injectedAt[pane] != 0 && now - s.injectedAt[pane] < DAEMON_INJECT_QUIET_MS
  }

  function AfterInject(s: WatchState, pane: string, now: int): WatchState {
    s.(injectedAt := s.injectedAt[pane := now], watch := s.watch - {pane}, arms := s.arms - {pane})
  }

  function WatchOf(s: WatchState, pane: string): Option<PromptWatch> {
    if pane in s.watch then Some(s.watch[pane]) else None
  }

  function TrackReply(s: WatchState, pane: string, phase: Phase): WatchState {
    if pane !in s.arms || !s.arms[pane].armed then s
    else if phase == Busy then s.(arms := s.arms[pane := ReplyArm(true, true)])
    else if s.arms[pane].sawBusy && (phase == Empty || phase == Afk) then
      s.(replies := s.replies + [pane], arms := s.arms - {pane})
    else s
  }

  function Classified(s: WatchState, t: Tick): PromptEvent {
    ClassifyPromptTick(WatchOf(s, t.pane), t).1
  }

  /** The tick is not quiet, and the draft it was waiting for was submitted. */
  predicate Records(s: WatchState, t: Tick) {
    !InQuietWindow(s, t.pane, t.now) && Classified(s, t).Submitted?
  }

  function PromptOf(s: WatchState, t: Tick): OperatorPrompt
    requires Records(s, t)
  {
    OperatorPrompt(t.pane, t.seatLabel, Classified(s, t).prompt, t.now)
  }

  function AfterTick(s: WatchState, t: Tick): WatchState {
    if InQuietWindow(s, t.pane, t.now) then s.(watch := s.watch[t.pane := EMPTY_PROMPT_WATCH])
    else
      var next := ClassifyPromptTick(WatchOf(s, t.pane), t).0;
      var s1 := s.(watch := s.watch[t.pane := next]);
      var s2 := if Records(s, t)
                then s1.(prompts := s.prompts + [PromptOf(s, t)],
                         arms := s.arms[t.pane := ReplyArm(true, false)])
                else s1;
      TrackReply(s2, t.pane, t.phase)
  }

  function Step(s: WatchState, e: Event): WatchState {
    match e
    case Inject(pane, now) => AfterInject(s, pane, now)
    case Observe(tick) => AfterTick(s, tick)
    case DrainPrompts => s.(prompts := [])
    case DrainReplies => s.(replies := [])
  }

  function Run(es: seq<Event>): WatchState {
    if es == [] then START else Step(Run(es[..|es| - 1]), es[|es| - 1])
  }

  // ---------------------------------------------------------------------------
  // What happened at one point of a run
  // ---------------------------------------------------------------------------

  predicate SubmitAt(es: seq<Event>, a: nat, pane: string) {
    a < |es| && es[a].Observe? && es[a].tick.pane == pane && Records(Run(es[..a]), es[a].tick)
  }

  predicate BusyAt(es: seq<Event>, b: nat, pane: string) {
    b < |es| && es[b].Observe? && es[b].tick.pane == pane && es[b].tick.phase == Busy
  }

  predicate NoInject(es: seq<Event>, from: nat, to: nat, pane: string) {
    forall i :: from <= i < to && i < |es| ==> !(es[i].Inject? && es[i].pane == pane)
  }

  lemma PrefixRun(es: seq<Event>, n: nat, a: nat)
    requires a <= n <= |es|
    ensures es[..n][..a] == es[..a]
  {
  }

  /** Evidence behind an armed pane: a submit, possibly a busy tick, and no daemon paste since. */
  ghost predicate Armed(es: seq<Event>, pane: string, a: nat, sawBusy: bool) {
    && SubmitAt(es, a, pane)
    && NoInject(es, a, |es|, pane)
    && (sawBusy ==> exists b: nat :: a <= b && BusyAt(es, b, pane))
  }

  lemma ArmedLater(es: seq<Event>, pane: string, a: nat, sawBusy: bool)
    requires es != [] && Armed(es[..|es| - 1], pane, a, sawBusy)
    requires !(es[|es| - 1].Inject? && es[|es| - 1].pane == pane)
    ensures Armed(es, pane, a, sawBusy)
  {
    var past := es[..|es| - 1];
    PrefixRun(es, |es| - 1, a);
    assert es[a] == past[a];
    if sawBusy {
      var b: nat :| a <= b && BusyAt(past, b, pane);
      assert BusyAt(es, b, pane);
    }
  }

  /** A pane is armed by a submit in this very step, or was armed before and not pasted into. */
  lemma ArmStep(s: WatchState, e: Event, pane: string)
    requires pane in Step(s, e).arms && (pane in s.arms ==> s.arms[pane].armed)
    ensures var after := Step(s, e).arms[pane];
            && after.armed
            && if e.Observe? && e.tick.pane == pane && Records(s, e.tick) then after.sawBusy ==> e.tick.phase == Busy
               else
                 && pane in s.arms && !(e.Inject? && e.pane == pane)
                 && (after.sawBusy ==>
                       s.arms[pane].sawBusy || (e.Observe? && e.tick.pane == pane && e.tick.phase == Busy))
  {
  }

  lemma NewlyArmed(es: seq<Event>, pane: string, sawBusy: bool)
    requires es != [] && SubmitAt(es, |es| - 1, pane) && (sawBusy ==> BusyAt(es, |es| - 1, pane))
    ensures Armed(es, pane, |es| - 1, sawBusy)
  {
  }

  /** Every armed pane has its evidence, at every point of every run. */
  lemma {:induction false} ArmedPanesHaveEvidence(es: seq<Event>, pane: string)
    requires pane in Run(es).arms
    ensures Run(es).arms[pane].armed
    ensures exists a: nat :: Armed(es, pane, a, Run(es).arms[pane].sawBusy)
  {
    var n := |es| - 1;
    var past, e := es[..n], es[n];
    var s := Run(past);
    if pane in s.arms {
      ArmedPanesHaveEvidence(past, pane);
    }
    ArmStep(s, e, pane);
    var sawBusy := Run(es).arms[pane].sawBusy;
    if e.Observe? && e.tick.pane == pane && Records(s, e.tick) {
      NewlyArmed(es, pane, sawBusy);
    } else {
      var a: nat :| Armed(past, pane, a, s.arms[pane].sawBusy);
      ArmedLater(es, pane, a, s.arms[pane].sawBusy);
      if sawBusy && !s.arms[pane].sawBusy {
        assert BusyAt(es, n, pane) && a <= n;
      }
      assert Armed(es, pane, a, sawBusy);
    }
  }

  lemma ReplyStep(s: WatchState, t: Tick)
    requires Step(s, Observe(t)).replies != s.replies
    ensures Step(s, Observe(t)).replies == s.replies + [t.pane]
    ensures (t.phase == Empty || t.phase == Afk) && t.pane in s.arms && s.arms[t.pane].sawBusy
  {
  }

  /**
   * A tick that closes a pane's operator ask was preceded by an operator submit on that pane and
   * a busy tick, with no daemon paste from the submit on.
   */
  lemma PaneReplyHasCause(es: seq<Event>, t: Tick)
    requires es != [] && es[|es| - 1] == Observe(t)
    requires Run(es).replies != Run(es[..|es| - 1]).replies
    ensures Run(es).replies == Run(es[..|es| - 1]).replies + [t.pane]
    ensures t.phase == Empty || t.phase == Afk
    ensures exists a: nat, b: nat ::
              && a <= b < |es| - 1
              && SubmitAt(es, a, t.pane) && BusyAt(es, b, t.pane) && NoInject(es, a, |es|, t.pane)
  {
    var past := es[..|es| - 1];
    RunStep(es);
    ReplyStep(Run(past), t);
    ArmedPanesHaveEvidence(past, t.pane);
    var a: nat :| Armed(past, t.pane, a, true);
    CauseLater(es, t.pane, a);
  }

  lemma CauseLater(es: seq<Event>, pane: string, a: nat)
    requires es != [] && Armed(es[..|es| - 1], pane, a, true) && !es[|es| - 1].Inject?
    ensures exists b: nat :: a <= b < |es| - 1 &&
              SubmitAt(es, a, pane) && BusyAt(es, b, pane) && NoInject(es, a, |es|, pane)
  {
    var past := es[..|es| - 1];
    var b: nat :| a <= b && BusyAt(past, b, pane);
    ArmedLater(es, pane, a, true);
    assert es[b] == past[b];
    assert BusyAt(es, b, pane);
  }

  // ---------------------------------------------------------------------------
  // The quiet window
  // ---------------------------------------------------------------------------

  predicate HasTime(e: Event) {
    e.Inject? || e.Observe?
  }

  function TimeOf(e: Event): int
    requires HasTime(e)
  {
    if e.Inject? then e.now else e.tick.now
  }

  /** The clock is positive and never runs backwards. */
  ghost predicate ClockRuns(es: seq<Event>) {
    && (forall i :: 0 <= i < |es| && HasTime(es[i]) ==> TimeOf(es[i]) > 0)
    && (forall i, j :: 0 <= i < j < |es| && HasTime(es[i]) && HasTime(es[j]) ==> TimeOf(es[i]) <= TimeOf(es[j]))
  }

  lemma {:induction false} LastInjectIsKept(es: seq<Event>, i: nat)
    requires ClockRuns(es) && i < |es| && es[i].Inject?
    ensures es[i].pane in Run(es).injectedAt
    ensures Run(es).injectedAt[es[i].pane] >= es[i].now
    ensures Run(es).injectedAt[es[i].pane] > 0
  {
    var n := |es| - 1;
    if i < n {
      LastInjectIsKept(es[..n], i);
    }
  }

  /** No operator submit is recorded within five seconds of any daemon paste into the pane. */
  lemma NoSubmitNearInject(es: seq<Event>, a: nat, pane: string, i: nat)
    requires ClockRuns(es) && SubmitAt(es, a, pane)
    requires i < a && es[i].Inject? && es[i].pane == pane
    ensures es[a].tick.now - es[i].now >= 5_000
  {
    LastInjectIsKept(es[..a], i);
  }

  // ---------------------------------------------------------------------------
  // The cycle does close the ask
  // ---------------------------------------------------------------------------

  /** Nothing on the pane that ends a cycle: no daemon paste and no idle tick. */
  predicate Calm(es: seq<Event>, from: nat, pane: string) {
    forall i :: from <= i < |es| ==>
      && !(es[i].Inject? && es[i].pane == pane)
      && !(es[i].Observe? && es[i].tick.pane == pane && (es[i].tick.phase == Empty || es[i].tick.phase == Afk))
  }

  lemma PrefixOf(es: seq<Event>, a: nat, pane: string)
    requires es != [] && a < |es| - 1
    ensures var past := es[..|es| - 1];
            && SubmitAt(past, a, pane) == SubmitAt(es, a, pane)
            && BusyAt(past, a, pane) == BusyAt(es, a, pane)
            && past[a] == es[a]
  {
    PrefixRun(es, |es| - 1, a);
  }

  lemma ClockPrefix(es: seq<Event>)
    requires es != [] && ClockRuns(es)
    ensures ClockRuns(es[..|es| - 1])
  {
    var past := es[..|es| - 1];
    forall i | 0 <= i < |past|
      ensures past[i] == es[i]
    {
    }
  }

  lemma CalmPrefix(es: seq<Event>, from: nat, pane: string)
    requires es != [] && Calm(es, from, pane)
    ensures Calm(es[..|es| - 1], from, pane)
  {
  }

  lemma RunStep(es: seq<Event>)
    requires es != []
    ensures Run(es) == Step(Run(es[..|es| - 1]), es[|es| - 1])
  {
  }

  lemma StepKeepsLoud(s: WatchState, e: Event, pane: string, now: int)
    requires !InQuietWindow(s, pane, now) && !(e.Inject? && e.pane == pane)
    ensures !InQuietWindow(Step(s, e), pane, now)
  {
  }

  /** After a submit the quiet window stays over until the next daemon paste. */
  lemma {:induction false} StaysLoud(es: seq<Event>, a: nat, pane: string, now: int)
    requires SubmitAt(es, a, pane) && now >= es[a].tick.now
    requires NoInject(es, a, |es|, pane)
    ensures !InQuietWindow(Run(es), pane, now)
  {
    var n := |es| - 1;
    assert !(es[n].Inject? && es[n].pane == pane);
    RunStep(es);
    if a < n {
      PrefixOf(es, a, pane);
      StaysLoud(es[..n], a, pane, now);
      StepKeepsLoud(Run(es[..n]), es[n], pane, now);
    } else {
      StepKeepsLoud(Run(es[..n]), es[n], pane, now);
    }
  }

  predicate ArmedIn(s: WatchState, pane: string) {
    pane in s.arms && s.arms[pane].armed
  }

  /** A step that neither pastes nor shows the pane idle keeps it armed; a busy tick marks it. */
  lemma StepKeepsArm(s: WatchState, e: Event, pane: string)
    requires ArmedIn(s, pane) && Calm([e], 0, pane)
    ensures ArmedIn(Step(s, e), pane)
    ensures s.arms[pane].sawBusy && !(e.Observe? && e.tick.pane == pane && Records(s, e.tick)) ==>
              Step(s, e).arms[pane].sawBusy
    ensures e.Observe? && e.tick.pane == pane && e.tick.phase == Busy && !InQuietWindow(s, pane, e.tick.now) ==>
              Step(s, e).arms[pane].sawBusy
  {
    assert [e][0] == e;
  }

  lemma SubmitArms(s: WatchState, t: Tick)
    requires Records(s, t)
    ensures ArmedIn(Step(s, Observe(t)), t.pane)
    ensures Step(s, Observe(t)).arms[t.pane].sawBusy == (t.phase == Busy)
    ensures Step(s, Observe(t)).replies == s.replies
  {
  }

  lemma {:induction false} StaysArmed(es: seq<Event>, a: nat, pane: string)
    requires SubmitAt(es, a, pane) && Calm(es, a + 1, pane)
    ensures ArmedIn(Run(es), pane)
  {
    var n := |es| - 1;
    RunStep(es);
    if a < n {
      PrefixOf(es, a, pane);
      CalmPrefix(es, a + 1, pane);
      StaysArmed(es[..n], a, pane);
      StepKeepsArm(Run(es[..n]), es[n], pane);
    } else {
      SubmitArms(Run(es[..n]), es[n].tick);
    }
  }

  ghost predicate NoSubmitAfter(es: seq<Event>, b: nat, pane: string) {
    forall i: nat :: b < i < |es| ==> !SubmitAt(es, i, pane)
  }

  lemma NoSubmitPrefix(es: seq<Event>, b: nat, pane: string)
    requires es != [] && NoSubmitAfter(es, b, pane)
    ensures NoSubmitAfter(es[..|es| - 1], b, pane)
  {
    var past := es[..|es| - 1];
    forall i: nat | b < i < |past|
      ensures !SubmitAt(past, i, pane)
    {
      PrefixOf(es, i, pane);
    }
  }

  lemma {:induction false} StaysBusy(es: seq<Event>, a: nat, b: nat, pane: string)
    requires ClockRuns(es) && SubmitAt(es, a, pane) && Calm(es, a + 1, pane)
    requires a <= b && BusyAt(es, b, pane)
    requires NoSubmitAfter(es, b, pane)
    ensures ArmedIn(Run(es), pane) && Run(es).arms[pane].sawBusy
  {
    var n := |es| - 1;
    var past := es[..n];
    RunStep(es);
    if a == n {
      SubmitArms(Run(past), es[n].tick);
    } else {
      PrefixOf(es, a, pane);
      ClockPrefix(es);
      CalmPrefix(es, a + 1, pane);
      StaysArmed(past, a, pane);
      StepKeepsArm(Run(past), es[n], pane);
      if b < n {
        PrefixOf(es, b, pane);
        NoSubmitPrefix(es, b, pane);
        StaysBusy(past, a, b, pane);
        assert !SubmitAt(es, n, pane);
      } else {
        StaysLoud(past, a, pane, es[n].tick.now);
      }
    }
  }

  lemma IdleTickCloses(s: WatchState, t: Tick)
    requires ArmedIn(s, t.pane) && s.arms[t.pane].sawBusy
    requires !InQuietWindow(s, t.pane, t.now) && !Records(s, t)
    requires t.phase == Empty || t.phase == Afk
    ensures Step(s, Observe(t)).replies == s.replies + [t.pane]
  {
  }

  /** Submit, busy, then the first idle tick: the ask is closed. */
  lemma CycleClosesAsk(past: seq<Event>, a: nat, b: nat, t: Tick)
    requires ClockRuns(past) && a <= b
    requires SubmitAt(past, a, t.pane) && BusyAt(past, b, t.pane)
    requires Calm(past, a + 1, t.pane) && NoInject(past, a, |past|, t.pane) && NoSubmitAfter(past, b, t.pane)
    requires past[a].tick.now <= t.now && !Records(Run(past), t) && (t.phase == Empty || t.phase == Afk)
    ensures Run(past + [Observe(t)]).replies == Run(past).replies + [t.pane]
  {
    var es := past + [Observe(t)];
    assert es[..|es| - 1] == past;
    RunStep(es);
    StaysBusy(past, a, b, t.pane);
    StaysLoud(past, a, t.pane, t.now);
    IdleTickCloses(Run(past), t);
  }

  // ---------------------------------------------------------------------------
  // What counts as a submit
  // ---------------------------------------------------------------------------

  /** Whether an event is about a pane at all. */
  predicate Touches(e: Event, pane: string) {
    (e.Inject? && e.pane == pane) || (e.Observe? && e.tick.pane == pane)
  }

  /** The last event about a pane; `|es|` when there is none. */
  function LastTouch(es: seq<Event>, pane: string): (k: nat)
    ensures k <= |es|
    ensures k < |es| ==> Touches(es[k], pane)
    ensures forall j :: 0 <= j < |es| && (j > k || k == |es|) ==> !Touches(es[j], pane)
  {
    if es == [] then 0
    else
      var n := |es| - 1;
      if Touches(es[n], pane) then n
      else
        var k := LastTouch(es[..n], pane);
        if k == n then |es| else k
  }

  /** The time of the last daemon paste into a pane; 0 when there was none. */
  function LastPaste(es: seq<Event>, pane: string): int {
    if es == [] then 0
    else
      var e := es[|es| - 1];
      if e.Inject? && e.pane == pane then e.now else LastPaste(es[..|es| - 1], pane)
  }

  predicate Quiet(es: seq<Event>, t: Tick) {
    LastPaste(es, t.pane) != 0 && t.now - LastPaste(es, t.pane) < 5_000
  }

  /** The pane was last seen, undisturbed by a paste, with something the operator had typed. */
  predicate LeftDraft(es: seq<Event>, pane: string) {
    var k := LastTouch(es, pane);
    k < |es| && es[k].Observe? && es[k].tick.draft != "" && !es[k].tick.meshText && !Quiet(es[..k], es[k].tick)
  }

  ghost predicate Remembers(s: WatchState, es: seq<Event>, pane: string) {
    && InjectedAt(s, pane) == LastPaste(es, pane)
    && (PendingIn(s, pane) <==> LeftDraft(es, pane))
  }

  lemma LastTouchMore(es: seq<Event>, e: Event, pane: string)
    ensures LastTouch(es + [e], pane)
         == if Touches(e, pane) then |es| else if LastTouch(es, pane) < |es| then LastTouch(es, pane) else |es| + 1
    ensures LastPaste(es + [e], pane) == if e.Inject? && e.pane == pane then e.now else LastPaste(es, pane)
  {
    assert (es + [e])[..|es|] == es;
  }

  lemma LeftDraftMore(es: seq<Event>, e: Event, pane: string)
    ensures LeftDraft(es + [e], pane)
        <==> if Touches(e, pane) then e.Observe? && e.tick.draft != "" && !e.tick.meshText && !Quiet(es, e.tick)
             else LeftDraft(es, pane)
  {
    var more := es + [e];
    LastTouchMore(es, e, pane);
    assert more[..|es|] == es;
    var k := LastTouch(es, pane);
    if !Touches(e, pane) && k < |es| {
      assert more[k] == es[k] && more[..k] == es[..k];
    }
  }

  function InjectedAt(s: WatchState, pane: string): int {
    if pane in s.injectedAt then s.injectedAt[pane] else 0
  }

  predicate PendingIn(s: WatchState, pane: string) {
    pane in s.watch && s.watch[pane].pendingDraft != ""
  }

  lemma StepOnPane(s: WatchState, e: Event, pane: string)
    ensures InjectedAt(Step(s, e), pane) == if e.Inject? && e.pane == pane then e.now else InjectedAt(s, pane)
    ensures PendingIn(Step(s, e), pane)
        <==> if Touches(e, pane)
               then e.Observe? && e.tick.draft != "" && !e.tick.meshText && !InQuietWindow(s, pane, e.tick.now)
             else PendingIn(s, pane)
  {
  }

  lemma StepRemembers(s: WatchState, es: seq<Event>, e: Event, pane: string)
    requires Remembers(s, es, pane)
    ensures Remembers(Step(s, e), es + [e], pane)
  {
    StepOnPane(s, e, pane);
    LastTouchMore(es, e, pane);
    LeftDraftMore(es, e, pane);
  }

  lemma {:induction false} RunRemembers(es: seq<Event>, pane: string)
    ensures Remembers(Run(es), es, pane)
  {
    if es != [] {
      var past := es[..|es| - 1];
      RunRemembers(past, pane);
      StepRemembers(Run(past), past, es[|es| - 1], pane);
      RunStep(es);
      assert past + [es[|es| - 1]] == es;
    }
  }

  /**
   * On any run an observation is recorded as a submit exactly when the pane was last seen with an
   * operator draft and that draft is now gone from the composer and found in the transcript, with
   * no daemon paste in the last five seconds.
   */
  lemma SubmitIffDraftWentToTranscript(es: seq<Event>, t: Tick)
    ensures Records(Run(es), t) <==> !Quiet(es, t) && t.draft == "" && t.echo != "" && LeftDraft(es, t.pane)
  {
    RunRemembers(es, t.pane);
  }

  // ---------------------------------------------------------------------------
  // Conservation of prompts
  // ---------------------------------------------------------------------------

  /** One prompt for every recorded submit: of its pane and seat, as found in the transcript, at its time. */
  function Detected(es: seq<Event>): seq<OperatorPrompt> {
    if es == [] then []
    else
      var past, e := es[..|es| - 1], es[|es| - 1];
      Detected(past)
      + if e.Observe? && Records(Run(past), e.tick)
        then [OperatorPrompt(e.tick.pane, e.tick.seatLabel, e.tick.echo, e.tick.now)]
        else []
  }

  function Drained(es: seq<Event>): seq<OperatorPrompt> {
    if es == [] then []
    else
      var past, e := es[..|es| - 1], es[|es| - 1];
      Drained(past) + if e.DrainPrompts? then Run(past).prompts else []
  }

  /** Every detected submit is handed over exactly once, in order, or still waits. */
  lemma {:induction false} PromptsAreConserved(es: seq<Event>)
    ensures Drained(es) + Run(es).prompts == Detected(es)
  {
    if es != [] {
      PromptsAreConserved(es[..|es| - 1]);
    }
  }

  // ---------------------------------------------------------------------------
  // The watch as the daemon holds it
  // ---------------------------------------------------------------------------

  /** First occurrences, in order. */
  function FirstOccurrences(xs: seq<string>): (r: seq<string>)
    ensures forall x :: x in r <==> x in xs
    ensures forall i, j :: 0 <= i < j < |r| ==> r[i] != r[j]
  {
    if xs == [] then []
    else
      var rest := FirstOccurrences(xs[..|xs| - 1]);
      if xs[|xs| - 1] in rest then rest else rest + [xs[|xs| - 1]]
  }

  class Watcher {
    var watchByPane: map<string, PromptWatch>
    var injectedAtByPane: map<string, int>
    var replyArmByPane: map<string, ReplyArm>
    var pending: seq<OperatorPrompt>
    var pendingPaneReplyClose: seq<string>

    function State(): WatchState
      reads this
    {
      WatchState(watchByPane, injectedAtByPane, replyArmByPane, pending, pendingPaneReplyClose)
    }

    constructor ()
      ensures State() == START
    {
      watchByPane, injectedAtByPane, replyArmByPane := map[], map[], map[];
      pending, pendingPaneReplyClose := [], [];
    }

    method NoteDaemonInject(pane: string, now: int)
      modifies this
      ensures State() == Step(old(State()), Inject(pane, now))
    {
      injectedAtByPane := injectedAtByPane[pane := now];
      watchByPane := watchByPane - {pane};
      replyArmByPane := replyArmByPane - {pane};
    }

    method ObservePaneComposer(t: Tick)
      modifies this
      ensures State() == Step(old(State()), Observe(t))
    {
      var injectedAt := if t.pane in injectedAtByPane then injectedAtByPane[t.pane] else 0;
      if injectedAt != 0 && t.now - injectedAt < DAEMON_INJECT_QUIET_MS {
        watchByPane := watchByPane[t.pane := EMPTY_PROMPT_WATCH];
        return;
      }
      var prev := if t.pane in watchByPane then Some(watchByPane[t.pane]) else None;
      var (next, event) := ClassifyPromptTick(prev, t);
      watchByPane := watchByPane[t.pane := next];
      if event.Submitted? {
        pending := pending + [OperatorPrompt(t.pane, t.seatLabel, event.prompt, t.now)];
        replyArmByPane := replyArmByPane[t.pane := ReplyArm(true, false)];
      }
      TrackOperatorReplyCycle(t.pane, t.phase);
    }

    method TrackOperatorReplyCycle(pane: string, phase: Phase)
      modifies this
      ensures State() == TrackReply(old(State()), pane, phase)
    {
      if pane !in replyArmByPane || !replyArmByPane[pane].armed {
        return;
      }
      var arm := replyArmByPane[pane];
      if phase == Busy {
        replyArmByPane := replyArmByPane[pane := arm.(sawBusy := true)];
        return;
      }
      if arm.sawBusy && (phase == Empty || phase == Afk) {
        pendingPaneReplyClose := pendingPaneReplyClose + [pane];
        replyArmByPane := replyArmByPane - {pane};
      }
    }

    method DrainOperatorPrompts() returns (out: seq<OperatorPrompt>)
      modifies this
      ensures out == old(State()).prompts
      ensures State() == Step(old(State()), DrainPrompts)
    {
      out := pending;
      pending := [];
    }

    method DrainOperatorPaneReplyCloses() returns (out: seq<string>)
      modifies this
      ensures out == FirstOccurrences(old(State()).replies)
      ensures State() == Step(old(State()), DrainReplies)
    {
      out := FirstOccurrences(pendingPaneReplyClose);
      pendingPaneReplyClose := [];
    }
  }
}
