/**
 * Safety over whole runs of connectivity recovery, read off the log: how far apart recoveries
 * and proxy restarts are, when an episode may end, and which episodes never get a recovery.
 */
module ConnectivityRuns {
  import opened Basics
  import opened Connectivity

  // ---------------------------------------------------------------------------
  // What an entry of the log demands of the entries before it
  // ---------------------------------------------------------------------------

  const OC_ENDS := {OcGraceEnd, OcBannerEnd}
  const DOWN_BOUNDS := {DownStart, DownClear}

  /** No `a` is later than time `t`. */
  predicate NoLater(log: seq<Entry>, a: What, t: int) {
    log == [] || (NoLater(log[..|log| - 1], a, t) && (log[|log| - 1].what == a ==> log[|log| - 1].at <= t))
  }

  /** Every `a` has been followed by one of `ends`. */
  predicate Closed(log: seq<Entry>, a: What, ends: set<What>) {
    log == [] || (log[|log| - 1].what != a && (log[|log| - 1].what in ends || Closed(log[..|log| - 1], a, ends)))
  }

  predicate EndsWith(log: seq<Entry>, e: Entry) {
    log != [] && log[|log| - 1] == e
  }

  /** What the log must already show when an entry is written. */
  predicate Allowed(past: seq<Entry>, e: Entry) {
    match e.what
    case OcRecovery =>
      && NoLater(past, OcRecovery, e.at - ROTATE_COOLDOWN_MS)
      && Closed(past, OcRecovery, OC_ENDS)
      && EndsWith(past, Entry(e.at, OcStart))
    case OcStart => Closed(past, OcStart, OC_ENDS)
    case OcGraceEnd => NoLater(past, LimitSeen, e.at - (RATE_LIMIT_EPISODE_CLEAR_MS + 1))
    case ProxyUpRun =>
      NoLater(past, ProxyUpRun, e.at - PROXY_UP_COOLDOWN_MS) && EndsWith(past, Entry(e.at, DownStart))
    case DownStuck =>
      Closed(past, DownStuck, DOWN_BOUNDS) && NoLater(past, DownStart, e.at - PROXY_DOWN_STUCK_NOTIFY_MS)
    case _ => true
  }

  /** Every entry was allowed when it was written. */
  predicate Lawful(log: seq<Entry>) {
    log == [] || (Lawful(log[..|log| - 1]) && Allowed(log[..|log| - 1], log[|log| - 1]))
  }

  lemma AppendLawful(log: seq<Entry>, e: Entry)
    ensures Lawful(log + [e]) <==> Lawful(log) && Allowed(log, e)
  {
    assert (log + [e])[..|log|] == log;
  }

  lemma AppendNoLater(log: seq<Entry>, e: Entry, a: What, t: int)
    ensures NoLater(log + [e], a, t) <==> NoLater(log, a, t) && (e.what == a ==> e.at <= t)
  {
    assert (log + [e])[..|log|] == log;
  }

  lemma AppendClosed(log: seq<Entry>, e: Entry, a: What, ends: set<What>)
    ensures Closed(log + [e], a, ends) <==> e.what != a && (e.what in ends || Closed(log, a, ends))
  {
    assert (log + [e])[..|log|] == log;
  }

  lemma {:induction false} LaterIsNoLater(log: seq<Entry>, a: What, t: int, t': int)
    requires NoLater(log, a, t) && t <= t'
    ensures NoLater(log, a, t')
  {
    if log != [] {
      LaterIsNoLater(log[..|log| - 1], a, t, t');
    }
  }

  lemma {:induction false} NeverIsNoLater(log: seq<Entry>, a: What, t: int)
    requires Closed(log, a, {})
    ensures NoLater(log, a, t)
  {
    if log != [] {
      NeverIsNoLater(log[..|log| - 1], a, t);
    }
  }

  // ---------------------------------------------------------------------------
  // The same demands for any two entries
  // ---------------------------------------------------------------------------

  ghost predicate Between(log: seq<Entry>, i: int, j: int, ends: set<What>) {
    exists k :: i < k < j && 0 <= k < |log| && log[k].what in ends
  }

  lemma {:induction false} LawfulAt(log: seq<Entry>, j: nat)
    requires Lawful(log) && j < |log|
    ensures Allowed(log[..j], log[j])
  {
    var n := |log| - 1;
    if j < n {
      LawfulAt(log[..n], j);
      assert log[..n][..j] == log[..j];
    }
  }

  lemma {:induction false} NoLaterAt(log: seq<Entry>, a: What, t: int, i: nat)
    requires NoLater(log, a, t) && i < |log| && log[i].what == a
    ensures log[i].at <= t
  {
    if i < |log| - 1 {
      NoLaterAt(log[..|log| - 1], a, t, i);
    }
  }

  lemma {:induction false} ClosedAt(log: seq<Entry>, a: What, ends: set<What>, i: nat)
    requires Closed(log, a, ends) && i < |log| && log[i].what == a
    ensures Between(log, i, |log|, ends)
  {
    var n := |log| - 1;
    if log[n].what !in ends {
      ClosedAt(log[..n], a, ends, i);
      var k :| i < k < n && log[..n][k].what in ends;
      assert log[k].what in ends;
    }
  }

  /** What is closed before entry j was ended somewhere between. */
  lemma ClosedBetween(log: seq<Entry>, a: What, ends: set<What>, i: nat, j: nat)
    requires i < j < |log| && log[i].what == a && Closed(log[..j], a, ends)
    ensures Between(log, i, j, ends)
  {
    ClosedAt(log[..j], a, ends, i);
    var k :| i < k < j && log[..j][k].what in ends;
    assert log[k].what in ends;
  }

  // ---------------------------------------------------------------------------
  // The state knows enough of the log
  // ---------------------------------------------------------------------------

  /** What the rate-limit machine remembers of the log. */
  ghost predicate OcInv(log: seq<Entry>, oc: Oc) {
    && (oc.started ==> oc.episode)
    && NoLater(log, OcRecovery, oc.lastRotateAt)
    && (oc.lastRotateAt <= 0 ==> Closed(log, OcRecovery, {}))
    && (!oc.started ==> Closed(log, OcRecovery, OC_ENDS))
    && (!oc.episode ==> Closed(log, OcStart, OC_ENDS))
    && (oc.episode ==> NoLater(log, LimitSeen, oc.lastSeenAt))
  }

  /** What the dead-proxy machine remembers of the log. */
  ghost predicate DownInv(log: seq<Entry>, d: Down) {
    && NoLater(log, ProxyUpRun, d.lastProxyUpAt)
    && (!d.stuckNotified ==> Closed(log, DownStuck, DOWN_BOUNDS))
    && (d.startAt != 0 ==> NoLater(log, DownStart, d.startAt))
  }

  ghost predicate Stamped(log: seq<Entry>, t: int) {
    forall i :: 0 <= i < |log| ==> log[i].at <= t
  }

  ghost predicate Sound(w: World, t: int) {
    Stamped(w.log, t) && Lawful(w.log) && OcInv(w.log, w.oc) && DownInv(w.log, w.down)
  }

  lemma {:induction false} StampedNoLater(log: seq<Entry>, a: What, t: int)
    requires Stamped(log, t)
    ensures NoLater(log, a, t)
  {
    if log != [] {
      StampedNoLater(log[..|log| - 1], a, t);
    }
  }

  predicate OcSilent(what: What) {
    what !in {LimitSeen, OcStart, OcRecovery, OcGraceEnd, OcBannerEnd}
  }

  predicate DownSilent(what: What) {
    what !in {ProxyUpRun, DownStart, DownStuck}
  }

  /** What one more entry does to the statements the rate-limit machine relies on. */
  lemma OcAppend(log: seq<Entry>, e: Entry, rotate: int, seen: int)
    ensures NoLater(log + [e], OcRecovery, rotate)
            <==> NoLater(log, OcRecovery, rotate) && (e.what == OcRecovery ==> e.at <= rotate)
    ensures NoLater(log + [e], LimitSeen, seen)
            <==> NoLater(log, LimitSeen, seen) && (e.what == LimitSeen ==> e.at <= seen)
    ensures Closed(log + [e], OcRecovery, {}) <==> e.what != OcRecovery && Closed(log, OcRecovery, {})
    ensures Closed(log + [e], OcRecovery, OC_ENDS)
        <==> e.what != OcRecovery && (e.what in OC_ENDS || Closed(log, OcRecovery, OC_ENDS))
    ensures Closed(log + [e], OcStart, OC_ENDS)
        <==> e.what != OcStart && (e.what in OC_ENDS || Closed(log, OcStart, OC_ENDS))
  {
    AppendNoLater(log, e, OcRecovery, rotate);
    AppendNoLater(log, e, LimitSeen, seen);
    AppendClosed(log, e, OcRecovery, {});
    AppendClosed(log, e, OcRecovery, OC_ENDS);
    AppendClosed(log, e, OcStart, OC_ENDS);
  }

  /** What one more entry does to the statements the dead-proxy machine relies on. */
  lemma DownAppend(log: seq<Entry>, e: Entry, up: int, start: int)
    ensures NoLater(log + [e], ProxyUpRun, up)
            <==> NoLater(log, ProxyUpRun, up) && (e.what == ProxyUpRun ==> e.at <= up)
    ensures NoLater(log + [e], DownStart, start)
            <==> NoLater(log, DownStart, start) && (e.what == DownStart ==> e.at <= start)
    ensures Closed(log + [e], DownStuck, DOWN_BOUNDS)
        <==> e.what != DownStuck && (e.what in DOWN_BOUNDS || Closed(log, DownStuck, DOWN_BOUNDS))
  {
    AppendNoLater(log, e, ProxyUpRun, up);
    AppendNoLater(log, e, DownStart, start);
    AppendClosed(log, e, DownStuck, DOWN_BOUNDS);
  }

  lemma OcQuiet(log: seq<Entry>, oc: Oc, e: Entry)
    requires OcInv(log, oc) && OcSilent(e.what)
    ensures OcInv(log + [e], oc)
  {
    OcAppend(log, e, oc.lastRotateAt, oc.lastSeenAt);
  }

  lemma DownQuiet(log: seq<Entry>, d: Down, e: Entry)
    requires DownInv(log, d) && DownSilent(e.what)
    ensures DownInv(log + [e], d)
  {
    DownAppend(log, e, d.lastProxyUpAt, d.startAt);
  }

  // ---------------------------------------------------------------------------
  // Steps
  // ---------------------------------------------------------------------------

  lemma {:induction false} RisesAreSilent(cfg: Config, t: Tables, panes: seq<Pane>, now: int)
    ensures forall k :: 0 <= k < |AllRises(cfg, t, panes, now)| ==>
              AllRises(cfg, t, panes, now)[k].at == now && AllRises(cfg, t, panes, now)[k].what.Rise?
  {
    if panes != [] {
      RisesAreSilent(cfg, t, panes[..|panes| - 1], now);
    }
  }

  lemma StampedMore(log: seq<Entry>, e: Entry)
    requires Stamped(log, e.at)
    ensures Stamped(log + [e], e.at)
  {
  }

  /** An entry the rate-limit machine does not care about. */
  lemma DownEntryIsSound(w: World, w': World, e: Entry)
    requires Sound(w, e.at) && OcSilent(e.what) && Allowed(w.log, e)
    requires w'.log == w.log + [e] && w'.oc == w.oc && DownInv(w'.log, w'.down)
    ensures Sound(w', e.at)
  {
    StampedMore(w.log, e);
    AppendLawful(w.log, e);
    OcQuiet(w.log, w.oc, e);
  }

  /** An entry the dead-proxy machine does not care about. */
  lemma OcEntryIsSound(w: World, w': World, e: Entry)
    requires Sound(w, e.at) && DownSilent(e.what) && Allowed(w.log, e)
    requires w'.log == w.log + [e] && w'.down == w.down && OcInv(w'.log, w'.oc)
    ensures Sound(w', e.at)
  {
    StampedMore(w.log, e);
    AppendLawful(w.log, e);
    DownQuiet(w.log, w.down, e);
  }

  /** An entry neither machine cares about. */
  lemma QuietIsSound(w: World, w': World, e: Entry)
    requires Sound(w, e.at) && (e.what.Rise? || e.what in {Wave, DownSuppressed})
    requires w'.log == w.log + [e] && w'.oc == w.oc
    requires w'.down == w.down.(active := w'.down.active)
    ensures Sound(w', e.at)
  {
    DownQuiet(w.log, w.down, e);
    DownEntryIsSound(w, w', e);
  }

  lemma {:induction false} SilentEntries(w: World, more: seq<Entry>, now: int)
    requires Sound(w, now)
    requires forall k :: 0 <= k < |more| ==> more[k].at == now && more[k].what.Rise?
    ensures Sound(w.(log := w.log + more), now)
  {
    if more == [] {
      assert w.log + more == w.log;
    } else {
      var n := |more| - 1;
      SilentEntries(w, more[..n], now);
      assert w.log + more == (w.log + more[..n]) + [more[n]];
      QuietIsSound(w.(log := w.log + more[..n]), w.(log := w.log + more), more[n]);
    }
  }

  lemma ObserveIsSound(cfg: Config, w: World, input: PollInput)
    requires Sound(w, input.now)
    ensures Sound(Observe(cfg, w, input), input.now)
  {
    var pruned, batch := Prune(w.tables, LiveIds(input.panes)), Batch(input.panes, w.offset);
    RisesAreSilent(cfg, pruned, batch, input.now);
    SilentEntries(w, AllRises(cfg, pruned, batch, input.now), input.now);
  }

  lemma RunProxyUpIsSound(w: World, now: int, hooks: Hooks)
    requires Sound(w, now) && EndsWith(w.log, Entry(now, DownStart))
    ensures Sound(RunProxyUp(w, now, hooks), now)
  {
    if RunProxyUp(w, now, hooks) != w {
      var e := Entry(now, ProxyUpRun);
      LaterIsNoLater(w.log, ProxyUpRun, w.down.lastProxyUpAt, now - PROXY_UP_COOLDOWN_MS);
      LaterIsNoLater(w.log, ProxyUpRun, w.down.lastProxyUpAt, now);
      DownAppend(w.log, e, now, w.down.startAt);
      DownEntryIsSound(w, RunProxyUp(w, now, hooks), e);
    }
  }

  lemma StartDownIsSound(w: World, input: PollInput)
    requires Sound(w, input.now)
    ensures Sound(StartDown(w, input), input.now)
  {
    var e := Entry(input.now, DownStart);
    var d := w.down.(active := true, startIp := input.ip, startAt := input.now, stuckNotified := false);
    var w1 := Note(w.(down := d), input.now, DownStart);
    StampedNoLater(w.log, DownStart, input.now);
    DownAppend(w.log, e, w.down.lastProxyUpAt, input.now);
    DownEntryIsSound(w, w1, e);
    RunProxyUpIsSound(w1, input.now, input.hooks);
  }

  lemma ClearDownIsSound(w: World, now: int)
    requires Sound(w, now)
    ensures Sound(ClearDown(w, now), now)
  {
    var e := Entry(now, DownClear);
    var w' := ClearDown(w, now);
    DownAppend(w.log, e, w.down.lastProxyUpAt, 0);
    DownEntryIsSound(w, w'.(log := w.log + [e]), e);
    QuietIsSound(w'.(log := w.log + [e]), w', Entry(now, Wave));
  }

  lemma StuckIsSound(w: World, w': World, now: int)
    requires Sound(w, now) && StuckDue(w.down, now)
    requires w'.log == w.log + [Entry(now, DownStuck)] && w'.oc == w.oc
    requires w'.down == w.down.(stuckNotified := true, ipifyFails := w'.down.ipifyFails)
    ensures Sound(w', now)
  {
    var e := Entry(now, DownStuck);
    LaterIsNoLater(w.log, DownStart, w.down.startAt, now - PROXY_DOWN_STUCK_NOTIFY_MS);
    DownAppend(w.log, e, w.down.lastProxyUpAt, w.down.startAt);
    DownEntryIsSound(w, w', e);
  }

  lemma ProbedIsSound(w: World, now: int, fails: nat)
    requires Sound(w, now)
    ensures Sound(w.(down := w.down.(ipifyFails := fails)), now)
  {
  }

  lemma DownPhaseIsSound(w: World, input: PollInput)
    requires Sound(w, input.now)
    ensures Sound(DownPhase(w, input), input.now)
  {
    var w' := DownPhase(w, input);
    var fails := if input.carrierOk then 0 else w.down.ipifyFails + 1;
    var w1 := w.(down := w.down.(ipifyFails := fails));
    var downNow := w.connectPanes != {} && !RearmBlocked(w.down, true, input.carrierOk, input.now);
    ProbedIsSound(w, input.now, fails);
    if downNow && !w.down.active {
      StartDownIsSound(w1, input);
    } else if !downNow && w.down.active {
      ClearDownIsSound(w1, input.now);
    } else if downNow && StuckDue(w.down, input.now) {
      StuckIsSound(w, w', input.now);
    }
  }

  lemma RecoveryAllowed(log: seq<Entry>, oc: Oc, now: int)
    requires OcInv(log, oc) && oc.episode && !oc.started && !RotateCooling(oc, now)
    requires EndsWith(log, Entry(now, OcStart))
    ensures Allowed(log, Entry(now, OcRecovery))
  {
    if oc.lastRotateAt > 0 {
      LaterIsNoLater(log, OcRecovery, oc.lastRotateAt, now - ROTATE_COOLDOWN_MS);
    } else {
      NeverIsNoLater(log, OcRecovery, now - ROTATE_COOLDOWN_MS);
    }
  }

  lemma RunOcRecoveryIsSound(cfg: Config, w: World, input: PollInput)
    requires Sound(w, input.now) && input.now > 0 && w.oc.episode && EndsWith(w.log, Entry(input.now, OcStart))
    ensures Sound(RunOcRecovery(cfg, w, input), input.now)
  {
    if !(w.running || w.oc.started || RotateCooling(w.oc, input.now)) {
      var e := Entry(input.now, OcRecovery);
      RecoveryAllowed(w.log, w.oc, input.now);
      StampedNoLater(w.log, OcRecovery, input.now);
      OcAppend(w.log, e, input.now, w.oc.lastSeenAt);
      OcEntryIsSound(w, RunOcRecovery(cfg, w, input), e);
    }
  }

  lemma SeenIsSound(w: World, now: int)
    requires Sound(w, now)
    ensures Sound(Note(w.(oc := w.oc.(lastSeenAt := now)), now, LimitSeen), now)
  {
    var e := Entry(now, LimitSeen);
    StampedNoLater(w.log, LimitSeen, now);
    OcAppend(w.log, e, w.oc.lastRotateAt, now);
    OcEntryIsSound(w, Note(w.(oc := w.oc.(lastSeenAt := now)), now, LimitSeen), e);
  }

  lemma BeginIsSound(w: World, now: int)
    requires Sound(w, now) && !w.oc.episode && w.oc.lastSeenAt == now
    ensures Sound(Note(w.(oc := w.oc.(episode := true)), now, OcStart), now)
  {
    var e := Entry(now, OcStart);
    StampedNoLater(w.log, LimitSeen, now);
    OcAppend(w.log, e, w.oc.lastRotateAt, now);
    OcEntryIsSound(w, Note(w.(oc := w.oc.(episode := true)), now, OcStart), e);
  }

  /** Whatever ends the episode, it and its recovery are closed then. */
  lemma EndCloses(log: seq<Entry>, oc: Oc, e: Entry, lastSeenAt: int)
    requires OcInv(log, oc) && e.what in OC_ENDS
    ensures OcInv(log + [e], oc.(episode := false, started := false, lastSeenAt := lastSeenAt))
  {
    OcAppend(log, e, oc.lastRotateAt, lastSeenAt);
  }

  lemma GraceEndIsSound(w: World, now: int)
    requires Sound(w, now) && w.oc.episode && now - w.oc.lastSeenAt > RATE_LIMIT_EPISODE_CLEAR_MS
    ensures Sound(Note(w.(oc := w.oc.(episode := false, started := false)), now, OcGraceEnd), now)
  {
    var e := Entry(now, OcGraceEnd);
    LaterIsNoLater(w.log, LimitSeen, w.oc.lastSeenAt, now - (RATE_LIMIT_EPISODE_CLEAR_MS + 1));
    EndCloses(w.log, w.oc, e, w.oc.lastSeenAt);
    OcEntryIsSound(w, Note(w.(oc := w.oc.(episode := false, started := false)), now, OcGraceEnd), e);
  }

  lemma BannerEndIsSound(w: World, now: int)
    requires Sound(w, now)
    ensures Sound(Note(w.(oc := w.oc.(episode := false, started := false, lastSeenAt := 0)), now, OcBannerEnd), now)
  {
    var e := Entry(now, OcBannerEnd);
    EndCloses(w.log, w.oc, e, 0);
    OcEntryIsSound(w, Note(w.(oc := w.oc.(episode := false, started := false, lastSeenAt := 0)), now, OcBannerEnd), e);
  }

  lemma RatePhaseIsSound(cfg: Config, w: World, input: PollInput, anyRate: bool)
    requires Sound(w, input.now) && input.now > 0
    ensures Sound(RatePhase(cfg, w, input, anyRate), input.now)
  {
    if anyRate {
      SeenIsSound(w, input.now);
      if !w.oc.episode {
        var w1 := Note(w.(oc := w.oc.(lastSeenAt := input.now)), input.now, LimitSeen);
        BeginIsSound(w1, input.now);
        var w2 := Note(w1.(oc := w1.oc.(episode := true)), input.now, OcStart);
        RunOcRecoveryIsSound(cfg, w2, input);
        assert RatePhase(cfg, w, input, anyRate) == RunOcRecovery(cfg, w2, input);
      }
    } else if w.oc.episode && input.now - w.oc.lastSeenAt > RATE_LIMIT_EPISODE_CLEAR_MS {
      GraceEndIsSound(w, input.now);
    }
  }

  lemma ScriptStepIsSound(w: World, now: int, which: nat, code: int, after: Option<Ip>, hooks: Hooks)
    requires Sound(w, now)
    ensures Sound(ScriptStep(w, now, which, code, after, hooks), now)
  {
    var w' := ScriptStep(w, now, which, code, after, hooks);
    ScriptStepFrame(w, now, which, code, after, hooks);
    if w'.log != w.log {
      QuietIsSound(w, w', Entry(now, Wave));
    }
  }

  lemma AckStepIsSound(w: World, now: int, pane: PaneId)
    requires Sound(w, now)
    ensures Sound(AckStep(w, now, pane), now)
  {
    BannerEndIsSound(ClearBanner(w, pane), now);
  }

  lemma LaterIsSound(w: World, t: int, t': int)
    requires Sound(w, t) && t <= t'
    ensures Sound(w, t')
  {
  }

  lemma StepIsSound(cfg: Config, w: World, e: Event)
    requires Sound(w, TimeOf(e)) && TimeOf(e) > 0
    ensures Sound(Step(cfg, w, e), TimeOf(e))
  {
    match e
    case Poll(input) =>
      if cfg.enabled {
        ObserveIsSound(cfg, w, input);
        var w1 := Observe(cfg, w, input);
        if input.wifiLock {
          QuietIsSound(w1, Note(w1.(down := w1.down.(active := false)), input.now, DownSuppressed),
                       Entry(input.now, DownSuppressed));
        } else {
          DownPhaseIsSound(w1, input);
          RatePhaseIsSound(cfg, DownPhase(w1, input), input, AnyRateLimit(w1.tables.cache, LiveIds(input.panes)));
        }
      }
    case ScriptDone(now, which, code, after, hooks) => ScriptStepIsSound(w, now, which, code, after, hooks);
    case ResumeAck(now, pane) => AckStepIsSound(w, now, pane);
  }

  function LastTime(es: seq<Event>): int {
    if es == [] then 0 else TimeOf(es[|es| - 1])
  }

  lemma {:induction false} RunIsSound(cfg: Config, es: seq<Event>)
    requires ClockRuns(es)
    ensures Sound(Run(cfg, es), LastTime(es))
  {
    if es != [] {
      var past := es[..|es| - 1];
      ClockPrefix(es);
      RunIsSound(cfg, past);
      RunStep(cfg, es);
      LaterIsSound(Run(cfg, past), LastTime(past), LastTime(es));
      StepIsSound(cfg, Run(cfg, past), es[|es| - 1]);
    }
  }

  lemma RunIsLawful(cfg: Config, es: seq<Event>)
    requires ClockRuns(es)
    ensures Lawful(Run(cfg, es).log)
  {
    RunIsSound(cfg, es);
  }

  // ---------------------------------------------------------------------------
  // What a lawful log says about two of its entries
  // ---------------------------------------------------------------------------

  lemma TwoRecoveries(log: seq<Entry>, i: nat, j: nat)
    requires Lawful(log) && i < j < |log| && log[i].what == OcRecovery && log[j].what == OcRecovery
    ensures log[j].at - log[i].at >= 180_000 && Between(log, i, j, OC_ENDS)
  {
    LawfulAt(log, j);
    NoLaterAt(log[..j], OcRecovery, log[j].at - ROTATE_COOLDOWN_MS, i);
    ClosedBetween(log, OcRecovery, OC_ENDS, i, j);
  }

  lemma TwoProxyUps(log: seq<Entry>, i: nat, j: nat)
    requires Lawful(log) && i < j < |log| && log[i].what == ProxyUpRun && log[j].what == ProxyUpRun
    ensures log[j].at - log[i].at >= 60_000
  {
    LawfulAt(log, j);
    NoLaterAt(log[..j], ProxyUpRun, log[j].at - PROXY_UP_COOLDOWN_MS, i);
  }

  lemma SeenThenGraceEnd(log: seq<Entry>, i: nat, j: nat)
    requires Lawful(log) && i < j < |log| && log[i].what == LimitSeen && log[j].what == OcGraceEnd
    ensures log[j].at - log[i].at > 120_000
  {
    LawfulAt(log, j);
    NoLaterAt(log[..j], LimitSeen, log[j].at - (RATE_LIMIT_EPISODE_CLEAR_MS + 1), i);
  }

  lemma BeforeStuck(log: seq<Entry>, i: nat, j: nat)
    requires Lawful(log) && i < j < |log| && log[j].what == DownStuck
    ensures log[i].what == DownStuck ==> Between(log, i, j, DOWN_BOUNDS)
    ensures log[i].what == DownStart ==> log[j].at - log[i].at >= 120_000
  {
    LawfulAt(log, j);
    if log[i].what == DownStuck {
      ClosedBetween(log, DownStuck, DOWN_BOUNDS, i, j);
    } else if log[i].what == DownStart {
      NoLaterAt(log[..j], DownStart, log[j].at - PROXY_DOWN_STUCK_NOTIFY_MS, i);
    }
  }

  lemma StartThenRecovery(log: seq<Entry>, i: nat, j: nat)
    requires Lawful(log) && i < j < |log| && log[i].what == OcStart && log[j].what == OcRecovery
    ensures j == i + 1 || Between(log, i, j, OC_ENDS)
  {
    if j != i + 1 {
      LawfulAt(log, j);
      assert log[..j][j - 1] == log[j - 1];
      LawfulAt(log, j - 1);
      ClosedBetween(log, OcStart, OC_ENDS, i, j - 1);
    }
  }

  // ---------------------------------------------------------------------------
  // Main results
  // ---------------------------------------------------------------------------

  /** No recovery is noted as started outside an episode, so an episode never starts with one noted. */
  lemma StartedOnlyInEpisode(cfg: Config, es: seq<Event>)
    requires ClockRuns(es)
    ensures Run(cfg, es).oc.started ==> Run(cfg, es).oc.episode
  {
    RunIsSound(cfg, es);
  }

  /** Two rate-limit recoveries are at least 180 s apart and an episode ended in between. */
  lemma RecoveriesAreApart(cfg: Config, es: seq<Event>)
    requires ClockRuns(es)
    ensures var log := Run(cfg, es).log;
            forall i, j :: 0 <= i < j < |log| && log[i].what == OcRecovery && log[j].what == OcRecovery ==>
              log[j].at - log[i].at >= 180_000 && Between(log, i, j, {OcGraceEnd, OcBannerEnd})
  {
    RunIsLawful(cfg, es);
    var log := Run(cfg, es).log;
    forall i, j | 0 <= i < j < |log| && log[i].what == OcRecovery && log[j].what == OcRecovery
      ensures log[j].at - log[i].at >= 180_000 && Between(log, i, j, OC_ENDS)
    {
      TwoRecoveries(log, i, j);
    }
  }

  lemma ProxyUpsOfLog(log: seq<Entry>)
    requires Lawful(log)
    ensures forall j :: 0 <= j < |log| && log[j].what == ProxyUpRun ==>
              j > 0 && log[j - 1] == Entry(log[j].at, DownStart)
    ensures forall i, j :: 0 <= i < j < |log| && log[i].what == ProxyUpRun && log[j].what == ProxyUpRun ==>
              log[j].at - log[i].at >= 60_000
  {
    forall j | 0 <= j < |log| && log[j].what == ProxyUpRun
      ensures j > 0 && log[j - 1] == Entry(log[j].at, DownStart)
    {
      LawfulAt(log, j);
    }
    forall i, j | 0 <= i < j < |log| && log[i].what == ProxyUpRun && log[j].what == ProxyUpRun
      ensures log[j].at - log[i].at >= 60_000
    {
      TwoProxyUps(log, i, j);
    }
  }

  /** Proxy-up scripts are launched at least 60 s apart, each directly by an episode start. */
  lemma ProxyUpsAreApart(cfg: Config, es: seq<Event>)
    requires ClockRuns(es)
    ensures var log := Run(cfg, es).log;
            forall j :: 0 <= j < |log| && log[j].what == ProxyUpRun ==>
              && j > 0 && log[j - 1] == Entry(log[j].at, DownStart)
              && forall i :: 0 <= i < j && log[i].what == ProxyUpRun ==> log[j].at - log[i].at >= 60_000
  {
    RunIsLawful(cfg, es);
    ProxyUpsOfLog(Run(cfg, es).log);
  }

  /** The grace end of an episode comes more than 120 s after any earlier limited poll. */
  lemma GraceIsWaitedOut(cfg: Config, es: seq<Event>)
    requires ClockRuns(es)
    ensures var log := Run(cfg, es).log;
            forall i, j :: 0 <= i < j < |log| && log[i].what == LimitSeen && log[j].what == OcGraceEnd ==>
              log[j].at - log[i].at > 120_000
  {
    RunIsLawful(cfg, es);
    var log := Run(cfg, es).log;
    forall i, j | 0 <= i < j < |log| && log[i].what == LimitSeen && log[j].what == OcGraceEnd
      ensures log[j].at - log[i].at > 120_000
    {
      SeenThenGraceEnd(log, i, j);
    }
  }

  /** The operator is told a proxy is still down at most once an episode, 120 s in or later. */
  lemma OneStuckNoticePerEpisode(cfg: Config, es: seq<Event>)
    requires ClockRuns(es)
    ensures var log := Run(cfg, es).log;
            forall i, j :: 0 <= i < j < |log| && log[j].what == DownStuck ==>
              && (log[i].what == DownStuck ==> Between(log, i, j, {DownStart, DownClear}))
              && (log[i].what == DownStart ==> log[j].at - log[i].at >= 120_000)
  {
    RunIsLawful(cfg, es);
    var log := Run(cfg, es).log;
    forall i, j | 0 <= i < j < |log| && log[j].what == DownStuck
      ensures log[i].what == DownStuck ==> Between(log, i, j, DOWN_BOUNDS)
      ensures log[i].what == DownStart ==> log[j].at - log[i].at >= 120_000
    {
      BeforeStuck(log, i, j);
    }
  }

  /** Between the start of an episode and its end the only recovery is the one begun at its start. */
  lemma RecoveryOnlyAtEpisodeStart(cfg: Config, es: seq<Event>)
    requires ClockRuns(es)
    ensures var log := Run(cfg, es).log;
            forall i, j :: 0 <= i < j < |log| && log[i].what == OcStart && log[j].what == OcRecovery ==>
              j == i + 1 || Between(log, i, j, {OcGraceEnd, OcBannerEnd})
  {
    RunIsLawful(cfg, es);
    var log := Run(cfg, es).log;
    forall i, j | 0 <= i < j < |log| && log[i].what == OcStart && log[j].what == OcRecovery
      ensures j == i + 1 || Between(log, i, j, OC_ENDS)
    {
      StartThenRecovery(log, i, j);
    }
  }

  // ---------------------------------------------------------------------------
  // An episode that starts at a bad moment
  // ---------------------------------------------------------------------------

  ghost predicate Extends(log: seq<Entry>, more: seq<Entry>) {
    && |log| <= |more|
    && more[..|log|] == log
    && (|more| > |log| ==> more[|log|].what != OcRecovery)
  }

  lemma {:induction false} RisesComeFirst(cfg: Config, w: World, input: PollInput)
    ensures Extends(w.log, Observe(cfg, w, input).log)
    ensures |Observe(cfg, w, input).log| > |w.log| ==> Observe(cfg, w, input).log[|w.log|].what.Rise?
  {
    RisesAreSilent(cfg, Prune(w.tables, LiveIds(input.panes)), Batch(input.panes, w.offset), input.now);
  }

  lemma ExtendsTransitive(a: seq<Entry>, b: seq<Entry>, c: seq<Entry>)
    requires Extends(a, b) && Extends(b, c)
    ensures Extends(a, c)
  {
    assert c[..|a|] == c[..|b|][..|a|];
    if |b| > |a| {
      assert c[|a|] == c[..|b|][|a|];
    }
  }

  lemma DownPhaseExtends(w: World, input: PollInput)
    ensures Extends(w.log, DownPhase(w, input).log)
  {
  }

  lemma RatePhaseExtends(cfg: Config, w: World, input: PollInput, anyRate: bool)
    ensures Extends(w.log, RatePhase(cfg, w, input, anyRate).log)
  {
  }

  lemma StepExtends(cfg: Config, w: World, e: Event)
    ensures Extends(w.log, Step(cfg, w, e).log)
  {
    if e.Poll? && cfg.enabled {
      RisesComeFirst(cfg, w, e.input);
      var w1 := Observe(cfg, w, e.input);
      if !e.input.wifiLock {
        var anyRate := AnyRateLimit(w1.tables.cache, LiveIds(e.input.panes));
        DownPhaseExtends(w1, e.input);
        RatePhaseExtends(cfg, DownPhase(w1, e.input), e.input, anyRate);
        ExtendsTransitive(w1.log, DownPhase(w1, e.input).log, Step(cfg, w, e).log);
      }
      ExtendsTransitive(w.log, w1.log, Step(cfg, w, e).log);
    }
  }

  lemma {:induction false} RunExtends(cfg: Config, es: seq<Event>, later: seq<Event>)
    ensures Extends(Run(cfg, es).log, Run(cfg, es + later).log)
  {
    if later == [] {
      assert es + later == es;
    } else {
      var n := |later| - 1;
      assert (es + later)[..|es| + n] == es + later[..n];
      RunExtends(cfg, es, later[..n]);
      RunStep(cfg, es + later);
      StepExtends(cfg, Run(cfg, es + later[..n]), later[n]);
      ExtendsTransitive(Run(cfg, es).log, Run(cfg, es + later[..n]).log, Run(cfg, es + later).log);
    }
  }

  /** Whether this poll begins a rate-limit episode. */
  ghost predicate BeginsEpisode(cfg: Config, w: World, input: PollInput) {
    && cfg.enabled && !input.wifiLock && !w.oc.episode
    && AnyRateLimit(Observe(cfg, w, input).tables.cache, LiveIds(input.panes))
  }

  lemma BeginLogs(cfg: Config, w: World, input: PollInput)
    requires !w.oc.episode && !w.oc.started
    ensures var log := RatePhase(cfg, w, input, true).log;
            EndsWith(log, Entry(input.now, if w.running || RotateCooling(w.oc, input.now) then OcStart else OcRecovery))
  {
  }

  /** A poll that begins a rate-limit episode begins a recovery with it unless a script runs or the cooldown lasts. */
  lemma StartGetsRecoveryIff(cfg: Config, es: seq<Event>, input: PollInput)
    requires ClockRuns(es + [Poll(input)])
    ensures BeginsEpisode(cfg, Run(cfg, es), input) ==>
              var w := DownPhase(Observe(cfg, Run(cfg, es), input), input);
              EndsWith(PollStep(cfg, Run(cfg, es), input).log,
                       Entry(input.now, if w.running || RotateCooling(w.oc, input.now) then OcStart else OcRecovery))
  {
    if BeginsEpisode(cfg, Run(cfg, es), input) {
      var w := DownPhase(Observe(cfg, Run(cfg, es), input), input);
      assert (es + [Poll(input)])[..|es|] == es;
      ClockPrefix(es + [Poll(input)]);
      RunIsSound(cfg, es);
      DownPhaseKeepsOc(Observe(cfg, Run(cfg, es), input), input);
      BeginLogs(cfg, w, input);
    }
  }

  lemma DownPhaseKeepsOc(w: World, input: PollInput)
    ensures DownPhase(w, input).oc == w.oc
  {
  }

  /** The log has just recorded the start of an episode, with no recovery begun. */
  ghost predicate JustMissed(log: seq<Entry>) {
    log != [] && log[|log| - 1].what == OcStart
  }

  /**
   * An episode that starts while a script is in flight (or inside the rotate cooldown) gets no
   * recovery at all: whatever happens later, none begins before that episode has ended.
   */
  lemma MissedEpisodeIsNeverServed(cfg: Config, es: seq<Event>, later: seq<Event>)
    requires ClockRuns(es + later)
    ensures var log, more := Run(cfg, es).log, Run(cfg, es + later).log;
            JustMissed(log) ==>
              forall j :: |log| <= j < |more| && more[j].what == OcRecovery ==>
                Between(more, |log| - 1, j, {OcGraceEnd, OcBannerEnd})
  {
    var log, more := Run(cfg, es).log, Run(cfg, es + later).log;
    if JustMissed(log) {
      RunExtends(cfg, es, later);
      assert more[|log| - 1] == more[..|log|][|log| - 1];
      RecoveryOnlyAtEpisodeStart(cfg, es + later);
    }
  }

  // ---------------------------------------------------------------------------
  // A poll that starts both episodes
  // ---------------------------------------------------------------------------

  const ONE_CAPTURE := Config(true, 1, false)
  const NO_TABLES := Tables(map[], map[], {})

  /** One pane shows a dead proxy and another a rate limit. */
  function DeadAndLimited(dead: PaneId, limited: PaneId): seq<Pane> {
    [Pane(dead, LimitScreen(true, false)), Pane(limited, LimitScreen(false, true))]
  }

  /** The carrier is down and every script is there. */
  function BadMoment(dead: PaneId, limited: PaneId): PollInput {
    PollInput(100_000, DeadAndLimited(dead, limited), false, false, None, false, Hooks(true, true, true, true))
  }

  lemma ScanTwo(cfg: Config, t: Tables, p: Pane, q: Pane, now: int)
    ensures ScanAll(cfg, t, [p, q]) == ScanOne(cfg, ScanOne(cfg, t, p), q)
    ensures AllRises(cfg, t, [p, q], now) == Rises(t, p, now) + Rises(ScanOne(cfg, t, p), q, now)
  {
    assert [p, q][..1] == [p] && [p][..0] == [];
    assert ScanAll(cfg, t, [p]) == ScanOne(cfg, t, p);
    assert AllRises(cfg, t, [p], now) == [] + Rises(t, p, now);
  }

  lemma BadMomentBatch(dead: PaneId, limited: PaneId)
    ensures Prune(START.tables, LiveIds(DeadAndLimited(dead, limited))) == NO_TABLES
    ensures Batch(DeadAndLimited(dead, limited), 0) == DeadAndLimited(dead, limited)
    ensures LiveIds(DeadAndLimited(dead, limited)) == {dead, limited}
  {
    var panes := DeadAndLimited(dead, limited);
    assert panes[0].id == dead && panes[1].id == limited;
  }

  lemma BadMomentScan(dead: PaneId, limited: PaneId)
    requires dead != limited
    ensures var w := Observe(ONE_CAPTURE, START, BadMoment(dead, limited));
            && w.tables.cache == map[dead := Flags(true, false), limited := Flags(false, true)]
            && w == START.(tables := w.tables, offset := w.offset, ocLimited := w.ocLimited, connectPanes := {dead})
  {
    var panes := DeadAndLimited(dead, limited);
    BadMomentBatch(dead, limited);
    ScanTwo(ONE_CAPTURE, NO_TABLES, panes[0], panes[1], 100_000);
    assert panes == [panes[0], panes[1]];
    var t := ScanAll(ONE_CAPTURE, NO_TABLES, panes);
    assert t.cache == map[dead := Flags(true, false), limited := Flags(false, true)];
    assert ConnectIn(t.cache) * {dead, limited} == {dead};
    assert AllRises(ONE_CAPTURE, NO_TABLES, panes, 100_000) == [];
  }

  /** The proxy-up script goes first, so a rate-limit episode that starts with it is missed. */
  lemma MissedEpisodesHappen(dead: PaneId, limited: PaneId)
    requires dead != limited
    ensures ClockRuns([Poll(BadMoment(dead, limited))])
    ensures JustMissed(Run(ONE_CAPTURE, [Poll(BadMoment(dead, limited))]).log)
  {
    var input := BadMoment(dead, limited);
    var w := Observe(ONE_CAPTURE, START, input);
    BadMomentScan(dead, limited);
    BadMomentBatch(dead, limited);
    assert AnyRateLimit(w.tables.cache, LiveIds(input.panes)) by {
      assert limited in w.tables.cache;
    }
    assert DownPhase(w, input) == StartDown(w.(down := w.down.(ipifyFails := 1)), input);
    assert DownPhase(w, input).running && DownPhase(w, input).oc == START.oc;
    BeginLogs(ONE_CAPTURE, DownPhase(w, input), input);
    assert [Poll(input)][..0] == [];
    assert Run(ONE_CAPTURE, [Poll(input)]) == PollStep(ONE_CAPTURE, START, input);
  }
}
