/**
 * The clocks of connectivity recovery are nothing but the log: each is the time of the last
 * entry of its kind. So every decision of a poll can be told from what happened before.
 */
module ConnectivityHistory {
  import opened Basics
  import opened Connectivity
  import opened ConnectivityTables

  /** When something last happened; 0 when it never did. */
  function LastAt(log: seq<Entry>, what: What): int {
    if log == [] then 0
    else if log[|log| - 1].what == what then log[|log| - 1].at
    else LastAt(log[..|log| - 1], what)
  }

  /** A dead-proxy episode is on: the last entry that starts or stops one starts it. */
  predicate IsDown(log: seq<Entry>) {
    log != [] && (
      var what := log[|log| - 1].what;
      what == DownStart || (what != DownClear && what != DownSuppressed && IsDown(log[..|log| - 1])))
  }

  /** The operator was told that the proxy is still down since an episode last started or cleared. */
  predicate Noticed(log: seq<Entry>) {
    log != [] && (
      var what := log[|log| - 1].what;
      what == DownStuck || (what != DownStart && what != DownClear && Noticed(log[..|log| - 1])))
  }

  /** A rate-limit episode is on. */
  predicate IsLimited(log: seq<Entry>) {
    log != [] && (
      var what := log[|log| - 1].what;
      what == OcStart || (what != OcGraceEnd && what != OcBannerEnd && IsLimited(log[..|log| - 1])))
  }

  // ---------------------------------------------------------------------------
  // The clocks
  // ---------------------------------------------------------------------------

  /** What the state keeps of the past; the parts of an episode count only while it is on. */
  datatype Past = Past(down: bool, start: int, noticed: bool, clear: int, proxyUp: int,
                       limited: bool, seen: int, rotate: int)

  function Stored(d: Down, oc: Oc): Past {
    Past(d.active, if d.active then d.startAt else 0, d.active && d.stuckNotified, d.lastClearAt, d.lastProxyUpAt,
         oc.episode, if oc.episode then oc.lastSeenAt else 0, oc.lastRotateAt)
  }

  function Logged(log: seq<Entry>): Past {
    Past(IsDown(log), if IsDown(log) then LastAt(log, DownStart) else 0, IsDown(log) && Noticed(log),
         LastAt(log, DownClear), LastAt(log, ProxyUpRun),
         IsLimited(log), if IsLimited(log) then LastAt(log, LimitSeen) else 0, LastAt(log, OcRecovery))
  }

  predicate Clocks(w: World) {
    Stored(w.down, w.oc) == Logged(w.log)
  }

  lemma OneMore(log: seq<Entry>, e: Entry)
    ensures forall what :: LastAt(log + [e], what) == if e.what == what then e.at else LastAt(log, what)
    ensures IsDown(log + [e])
            <==> e.what == DownStart || (e.what != DownClear && e.what != DownSuppressed && IsDown(log))
    ensures Noticed(log + [e]) <==> e.what == DownStuck || (e.what != DownStart && e.what != DownClear && Noticed(log))
    ensures IsLimited(log + [e]) <==> e.what == OcStart || (e.what !in {OcGraceEnd, OcBannerEnd} && IsLimited(log))
  {
    assert (log + [e])[..|log|] == log;
  }

  lemma {:induction false} RisesChangeNothing(log: seq<Entry>, more: seq<Entry>)
    requires forall k :: 0 <= k < |more| ==> more[k].what.Rise?
    ensures Logged(log + more) == Logged(log)
  {
    if more == [] {
      assert log + more == log;
    } else {
      var n := |more| - 1;
      RisesChangeNothing(log, more[..n]);
      OneMore(log + more[..n], more[n]);
      assert log + more[..n] + [more[n]] == log + more;
    }
  }

  lemma {:induction false} RisesOnly(cfg: Config, t: Tables, panes: seq<Pane>, now: int)
    ensures forall k :: 0 <= k < |AllRises(cfg, t, panes, now)| ==> AllRises(cfg, t, panes, now)[k].what.Rise?
  {
    if panes != [] {
      RisesOnly(cfg, t, panes[..|panes| - 1], now);
    }
  }

  lemma ObserveKeepsClocks(cfg: Config, w: World, input: PollInput)
    requires Clocks(w)
    ensures Clocks(Observe(cfg, w, input)) && Logged(Observe(cfg, w, input).log) == Logged(w.log)
  {
    var pruned, batch := Prune(w.tables, LiveIds(input.panes)), Batch(input.panes, w.offset);
    RisesOnly(cfg, pruned, batch, input.now);
    RisesChangeNothing(w.log, AllRises(cfg, pruned, batch, input.now));
  }

  lemma StartDownKeepsClocks(w: World, input: PollInput)
    requires Clocks(w)
    ensures Clocks(StartDown(w, input))
  {
    OneMore(w.log, Entry(input.now, DownStart));
    OneMore(w.log + [Entry(input.now, DownStart)], Entry(input.now, ProxyUpRun));
  }

  lemma ClearDownKeepsClocks(w: World, now: int)
    requires Clocks(w)
    ensures Clocks(ClearDown(w, now))
  {
    OneMore(w.log, Entry(now, DownClear));
    OneMore(w.log + [Entry(now, DownClear)], Entry(now, Wave));
  }

  lemma DownPhaseKeepsClocks(w: World, input: PollInput)
    requires Clocks(w)
    ensures Clocks(DownPhase(w, input))
  {
    var w1 := w.(down := w.down.(ipifyFails := if input.carrierOk then 0 else w.down.ipifyFails + 1));
    var downNow := w.connectPanes != {} && !RearmBlocked(w.down, true, input.carrierOk, input.now);
    if downNow && !w.down.active {
      StartDownKeepsClocks(w1, input);
    } else if !downNow && w.down.active {
      ClearDownKeepsClocks(w1, input.now);
    } else {
      OneMore(w.log, Entry(input.now, DownStuck));
    }
  }

  lemma RecoveryFrame(cfg: Config, w: World, input: PollInput)
    ensures var w' := RunOcRecovery(cfg, w, input);
            w'.down == w.down
            && if w'.oc == w.oc then w'.log == w.log
               else w'.log == w.log + [Entry(input.now, OcRecovery)]
                    && w'.oc == w.oc.(started := true, lastRotateAt := input.now)
  {
  }

  lemma RecoveryKeepsClocks(cfg: Config, w: World, input: PollInput)
    requires Clocks(w)
    ensures Clocks(RunOcRecovery(cfg, w, input))
  {
    RecoveryFrame(cfg, w, input);
    OneMore(w.log, Entry(input.now, OcRecovery));
  }

  lemma SeenKeepsClocks(w: World, now: int)
    requires Clocks(w) && w.oc.episode
    ensures Clocks(Note(w.(oc := w.oc.(lastSeenAt := now)), now, LimitSeen))
  {
    OneMore(w.log, Entry(now, LimitSeen));
  }

  lemma BeginKeepsClocks(w: World, now: int)
    requires Clocks(w) && !w.oc.episode
    ensures Clocks(Note(Note(w.(oc := w.oc.(lastSeenAt := now, episode := true)), now, LimitSeen), now, OcStart))
  {
    OneMore(w.log, Entry(now, LimitSeen));
    OneMore(w.log + [Entry(now, LimitSeen)], Entry(now, OcStart));
  }

  lemma EndKeepsClocks(w: World, now: int)
    requires Clocks(w)
    ensures Clocks(Note(w.(oc := w.oc.(episode := false, started := false)), now, OcGraceEnd))
  {
    OneMore(w.log, Entry(now, OcGraceEnd));
  }

  lemma RatePhaseKeepsClocks(cfg: Config, w: World, input: PollInput, anyRate: bool)
    requires Clocks(w)
    ensures Clocks(RatePhase(cfg, w, input, anyRate))
  {
    if anyRate && w.oc.episode {
      SeenKeepsClocks(w, input.now);
    } else if anyRate {
      var oc := w.oc.(lastSeenAt := input.now, episode := true);
      BeginKeepsClocks(w, input.now);
      RecoveryKeepsClocks(cfg, Note(Note(w.(oc := oc), input.now, LimitSeen), input.now, OcStart), input);
    } else {
      EndKeepsClocks(w, input.now);
    }
  }

  lemma ScriptKeepsClocks(w: World, now: int, which: nat, code: int, after: Option<Ip>, hooks: Hooks)
    requires Clocks(w)
    ensures Clocks(ScriptStep(w, now, which, code, after, hooks))
  {
    ScriptStepFrame(w, now, which, code, after, hooks);
    OneMore(w.log, Entry(now, Wave));
  }

  lemma AckKeepsClocks(w: World, now: int, pane: PaneId)
    requires Clocks(w)
    ensures Clocks(AckStep(w, now, pane))
  {
    OneMore(w.log, Entry(now, OcBannerEnd));
  }

  lemma StepKeepsClocks(cfg: Config, w: World, e: Event)
    requires Clocks(w)
    ensures Clocks(Step(cfg, w, e))
  {
    match e
    case Poll(input) =>
      if cfg.enabled {
        ObserveKeepsClocks(cfg, w, input);
        var w1 := Observe(cfg, w, input);
        if input.wifiLock {
          OneMore(w1.log, Entry(input.now, DownSuppressed));
        } else {
          DownPhaseKeepsClocks(w1, input);
          RatePhaseKeepsClocks(cfg, DownPhase(w1, input), input, AnyRateLimit(w1.tables.cache, LiveIds(input.panes)));
        }
      }
    case ScriptDone(now, which, code, after, hooks) => ScriptKeepsClocks(w, now, which, code, after, hooks);
    case ResumeAck(now, pane) => AckKeepsClocks(w, now, pane);
  }

  /**
   * At every point of every run the log alone tells which episodes are on, since when, whether the
   * operator was told, and each time the state keeps: it is the time of the last such entry.
   */
  lemma {:induction false} ClocksAreHistory(cfg: Config, es: seq<Event>)
    ensures Clocks(Run(cfg, es))
  {
    if es != [] {
      ClocksAreHistory(cfg, es[..|es| - 1]);
      RunStep(cfg, es);
      StepKeepsClocks(cfg, Run(cfg, es[..|es| - 1]), es[|es| - 1]);
    }
  }

  // ---------------------------------------------------------------------------
  // Decisions, told from the log
  // ---------------------------------------------------------------------------

  /** Some pane is a confirmed dead proxy, and re-arming is not held back. */
  predicate DownNow(log: seq<Entry>, scanned: World, input: PollInput) {
    && scanned.connectPanes != {}
    && (IsDown(log) || !input.carrierOk || input.now - LastAt(log, DownClear) >= 90_000)
  }

  lemma DownPhaseLog(w: World, input: PollInput)
    ensures var now := input.now;
            var anyConnect := w.connectPanes != {};
            var downNow := anyConnect && !RearmBlocked(w.down, anyConnect, input.carrierOk, now);
            var upRuns := !w.running && now - w.down.lastProxyUpAt >= PROXY_UP_COOLDOWN_MS && input.hooks.upSet;
            && (DownPhase(w, input).down.active <==> downNow)
            && DownPhase(w, input).log == w.log + DownPart(downNow, w.down.active, upRuns, StuckDue(w.down, now), now)
  {
  }

  /** What the dead-proxy part of a poll logs. */
  function DownPart(downNow: bool, wasDown: bool, upRuns: bool, stuck: bool, now: int): seq<Entry> {
    if downNow && !wasDown then
      if upRuns then [Entry(now, DownStart), Entry(now, ProxyUpRun)] else [Entry(now, DownStart)]
    else if !downNow && wasDown then [Entry(now, DownClear), Entry(now, Wave)]
    else if downNow && stuck then [Entry(now, DownStuck)]
    else []
  }

  /**
   * The dead-proxy part of a poll, told from the log and the scripts in flight: an episode starts,
   * with a proxy-up run exactly when no script is in flight and the last run is 60 s back; or it
   * clears, always with a resume wave; or it goes on, with a notice when it started 120 s ago and
   * none was given.
   */
  lemma DownPhaseByHistory(cfg: Config, es: seq<Event>, input: PollInput)
    ensures var log, jobs := Run(cfg, es).log, Run(cfg, es).jobs;
            var scanned := Observe(cfg, Run(cfg, es), input);
            var now := input.now;
            var upRuns := jobs == [] && now - LastAt(log, ProxyUpRun) >= 60_000 && input.hooks.upSet;
            var stuck := !Noticed(log) && LastAt(log, DownStart) != 0 && now - LastAt(log, DownStart) >= 120_000;
            && (DownPhase(scanned, input).down.active <==> DownNow(log, scanned, input))
            && DownPhase(scanned, input).log
               == scanned.log + DownPart(DownNow(log, scanned, input), IsDown(log), upRuns, stuck, now)
  {
    ClocksAreHistory(cfg, es);
    RunningMeansOneScript(cfg, es);
    DownPhaseLog(Observe(cfg, Run(cfg, es), input), input);
  }

  lemma DownPhaseLeavesOc(w: World, input: PollInput)
    ensures DownPhase(w, input).oc == w.oc
  {
  }

  lemma EpisodeAfterRatePhase(cfg: Config, w: World, input: PollInput, anyRate: bool)
    ensures RatePhase(cfg, w, input, anyRate).oc.episode
        <==> anyRate || (w.oc.episode && input.now - w.oc.lastSeenAt <= RATE_LIMIT_EPISODE_CLEAR_MS)
  {
  }

  /**
   * After a poll the rate-limit episode is on exactly when some pane is rate limited now, or it
   * was on and the last poll that saw one is at most 120 s back.
   */
  lemma EpisodeByHistory(cfg: Config, es: seq<Event>, input: PollInput)
    requires cfg.enabled && !input.wifiLock
    ensures var log := Run(cfg, es).log;
            var scanned := Observe(cfg, Run(cfg, es), input);
            PollStep(cfg, Run(cfg, es), input).oc.episode
            <==> AnyRateLimit(scanned.tables.cache, LiveIds(input.panes))
                 || (IsLimited(log) && input.now - LastAt(log, LimitSeen) <= 120_000)
  {
    ClocksAreHistory(cfg, es);
    var scanned := Observe(cfg, Run(cfg, es), input);
    DownPhaseLeavesOc(scanned, input);
    EpisodeAfterRatePhase(cfg, DownPhase(scanned, input), input,
                          AnyRateLimit(scanned.tables.cache, LiveIds(input.panes)));
  }
}
