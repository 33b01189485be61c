/**
 * What the limit cache means: every cached connect flag is backed by enough captures of that
 * pane, the pane sets always mirror the cache, and at most one script is ever in flight.
 */
module ConnectivityTables {
  import opened Basics
  import opened Connectivity

  function Need(cfg: Config): int {
    Max(1, cfg.connectThreshold)
  }

  // ---------------------------------------------------------------------------
  // The cache and the streaks
  // ---------------------------------------------------------------------------

  ghost predicate CacheSane(cfg: Config, t: Tables) {
    forall p :: p in t.cache ==>
      && (t.cache[p].connect || t.cache[p].rate)
      && (t.cache[p].connect ==> p in t.streak && t.streak[p] >= Need(cfg))
  }

  lemma ScanOneKeepsCache(cfg: Config, t: Tables, pane: Pane)
    requires CacheSane(cfg, t)
    ensures CacheSane(cfg, ScanOne(cfg, t, pane))
    ensures ScanOne(cfg, t, pane).cache.Keys <= t.cache.Keys + {pane.id}
  {
  }

  lemma {:induction false} ScanAllKeepsCache(cfg: Config, t: Tables, panes: seq<Pane>, live: set<PaneId>)
    requires CacheSane(cfg, t) && t.cache.Keys <= live
    requires forall k :: 0 <= k < |panes| ==> panes[k].id in live
    ensures CacheSane(cfg, ScanAll(cfg, t, panes)) && ScanAll(cfg, t, panes).cache.Keys <= live
  {
    if panes != [] {
      ScanAllKeepsCache(cfg, t, panes[..|panes| - 1], live);
      ScanOneKeepsCache(cfg, ScanAll(cfg, t, panes[..|panes| - 1]), panes[|panes| - 1]);
    }
  }

  lemma BatchIsLive(panes: seq<Pane>, offset: nat)
    ensures forall k :: 0 <= k < |Batch(panes, offset)| ==> Batch(panes, offset)[k].id in LiveIds(panes)
  {
    forall k | 0 <= k < |Batch(panes, offset)|
      ensures Batch(panes, offset)[k].id in LiveIds(panes)
    {
      assert Batch(panes, offset)[k] == panes[(offset + k) % |panes|];
    }
  }

  ghost predicate DistinctIds(panes: seq<Pane>) {
    forall i, j :: 0 <= i < j < |panes| ==> panes[i].id != panes[j].id
  }

  /** What the tables say about one pane. */
  ghost predicate SameFor(t: Tables, t': Tables, id: PaneId) {
    && (id in t.cache <==> id in t'.cache) && (id in t.cache ==> t.cache[id] == t'.cache[id])
    && StreakOf(t, id) == StreakOf(t', id)
  }

  lemma {:induction false} OtherPanesAreLeft(cfg: Config, t: Tables, panes: seq<Pane>, id: PaneId)
    requires forall k :: 0 <= k < |panes| ==> panes[k].id != id
    ensures SameFor(t, ScanAll(cfg, t, panes), id)
  {
    if panes != [] {
      var init := panes[..|panes| - 1];
      OtherPanesAreLeft(cfg, t, init, id);
      OtherPaneIsLeft(cfg, ScanAll(cfg, t, init), panes[|panes| - 1], id);
    }
  }

  /** What a capture leaves behind for its pane, given what was there before it. */
  ghost predicate ShowsCapture(cfg: Config, before: Tables, pane: Pane, after: Tables) {
    var id := pane.id;
    match pane.reading
    case NoSnapshot => id !in after.cache && StreakOf(after, id) == StreakOf(before, id)
    case Unmonitored => id !in after.cache && StreakOf(after, id) == StreakOf(before, id)
    case Healthy => id !in after.cache && StreakOf(after, id) == 0
    case LimitScreen(connect, rate) =>
      var streak := if connect then StreakOf(before, id) + 1 else 0;
      && StreakOf(after, id) == streak
      && (id in after.cache <==> rate || (connect && streak >= Need(cfg)))
      && (id in after.cache ==> after.cache[id] == Flags(connect && streak >= Need(cfg), rate))
    case _ => SameFor(before, after, id)
  }

  lemma ShowsOwnCapture(cfg: Config, t: Tables, before: Tables, pane: Pane)
    requires SameFor(t, before, pane.id)
    ensures ShowsCapture(cfg, t, pane, ScanOne(cfg, before, pane))
  {
  }

  lemma StillShown(cfg: Config, t: Tables, pane: Pane, after: Tables, later: Tables)
    requires ShowsCapture(cfg, t, pane, after) && SameFor(after, later, pane.id)
    ensures ShowsCapture(cfg, t, pane, later)
  {
  }

  lemma OtherPaneIsLeft(cfg: Config, t: Tables, pane: Pane, id: PaneId)
    requires pane.id != id
    ensures SameFor(t, ScanOne(cfg, t, pane), id)
  {
  }

  /**
   * After a batch of different panes each pane stands as its own capture says, whatever the other
   * captures were, and panes outside the batch stand as before.
   */
  lemma {:induction false} ScanShowsEachCapture(cfg: Config, t: Tables, panes: seq<Pane>, k: nat)
    requires DistinctIds(panes) && k < |panes|
    ensures ShowsCapture(cfg, t, panes[k], ScanAll(cfg, t, panes))
    decreases |panes|
  {
    var init, last := panes[..|panes| - 1], panes[|panes| - 1];
    var before := ScanAll(cfg, t, init);
    if k < |panes| - 1 {
      ScanShowsEachCapture(cfg, t, init, k);
      OtherPaneIsLeft(cfg, before, last, panes[k].id);
      StillShown(cfg, t, panes[k], before, ScanOne(cfg, before, last));
    } else {
      OtherPanesAreLeft(cfg, t, init, last.id);
      ShowsOwnCapture(cfg, t, before, last);
    }
  }

  /** The border and episode sets say exactly what the cache says. */
  ghost predicate Mirrors(w: World) {
    w.ocLimited == w.tables.cache.Keys && w.connectPanes == ConnectIn(w.tables.cache)
  }

  lemma ObserveKeepsTables(cfg: Config, w: World, input: PollInput)
    requires CacheSane(cfg, w.tables)
    ensures CacheSane(cfg, Observe(cfg, w, input).tables) && Mirrors(Observe(cfg, w, input))
    ensures Observe(cfg, w, input).tables.cache.Keys <= LiveIds(input.panes)
  {
    var live := LiveIds(input.panes);
    BatchIsLive(input.panes, w.offset);
    ScanAllKeepsCache(cfg, Prune(w.tables, live), Batch(input.panes, w.offset), live);
  }

  /** Clearing a dead-proxy episode rewrites the cache with what it already holds. */
  lemma ClearRewriteIsIdentity(cfg: Config, w: World)
    requires CacheSane(cfg, w.tables) && Mirrors(w) && w.connectPanes == {}
    ensures DropConnectFlags(w.tables.cache) == w.tables.cache
  {
    var cache := w.tables.cache;
    forall p | p in cache
      ensures cache[p] == Flags(false, true)
    {
      assert p !in ConnectIn(cache);
    }
  }

  /** What the dead-proxy phase does to the tables and to the episode flag. */
  lemma DownPhaseTables(cfg: Config, w: World, input: PollInput)
    requires CacheSane(cfg, w.tables) && Mirrors(w)
    ensures var w' := DownPhase(w, input);
            && CacheSane(cfg, w'.tables) && Mirrors(w')
            && w'.tables.cache == w.tables.cache && w'.connectPanes == w.connectPanes
            && (w'.down.active <==> w.connectPanes != {} && !RearmBlocked(w.down, true, input.carrierOk, input.now))
  {
    if w.connectPanes == {} {
      ClearRewriteIsIdentity(cfg, w);
    }
  }

  lemma RatePhaseTables(cfg: Config, w: World, input: PollInput, anyRate: bool)
    ensures var w' := RatePhase(cfg, w, input, anyRate);
            w'.tables == w.tables && w'.ocLimited == w.ocLimited
            && w'.connectPanes == w.connectPanes && w'.down == w.down
  {
  }

  lemma StepKeepsTables(cfg: Config, w: World, e: Event)
    requires CacheSane(cfg, w.tables) && Mirrors(w)
    ensures CacheSane(cfg, Step(cfg, w, e).tables) && Mirrors(Step(cfg, w, e))
  {
    if e.Poll? {
      if cfg.enabled {
        ObserveKeepsTables(cfg, w, e.input);
        var w1 := Observe(cfg, w, e.input);
        if !e.input.wifiLock {
          DownPhaseTables(cfg, w1, e.input);
          RatePhaseTables(cfg, DownPhase(w1, e.input), e.input, AnyRateLimit(w1.tables.cache, LiveIds(e.input.panes)));
        }
      }
    } else if e.ResumeAck? {
      var w1 := ClearBanner(w, e.pane);
      assert ConnectIn(w1.tables.cache) == w1.connectPanes;
      assert w1.tables.cache.Keys == w1.ocLimited;
    }
  }

  /**
   * In every reachable state each pane cached as a dead proxy has a full streak, nothing is
   * cached without a reason, and the two pane sets mirror the cache.
   */
  lemma {:induction false} CachedConnectIsConfirmed(cfg: Config, es: seq<Event>)
    ensures CacheSane(cfg, Run(cfg, es).tables) && Mirrors(Run(cfg, es))
  {
    if es != [] {
      CachedConnectIsConfirmed(cfg, es[..|es| - 1]);
      RunStep(cfg, es);
      StepKeepsTables(cfg, Run(cfg, es[..|es| - 1]), es[|es| - 1]);
    }
  }

  /**
   * After every completed poll the dead-proxy episode is on exactly when some pane is a confirmed
   * dead proxy, no probe lock is held and the re-arm cooldown does not hold it back. Clearing an
   * episode leaves the limit cache as the scan left it.
   */
  lemma PollSettlesEpisode(cfg: Config, es: seq<Event>, input: PollInput)
    requires cfg.enabled
    ensures var before, w := Run(cfg, es), PollStep(cfg, Run(cfg, es), input);
            && w.connectPanes <= w.ocLimited
            && (w.down.active
                <==> (w.connectPanes != {} && !input.wifiLock
                      && !RearmBlocked(before.down, true, input.carrierOk, input.now)))
            && w.tables.cache == Observe(cfg, before, input).tables.cache
  {
    CachedConnectIsConfirmed(cfg, es);
    var before := Run(cfg, es);
    ObserveKeepsTables(cfg, before, input);
    var w1 := Observe(cfg, before, input);
    assert w1.connectPanes <= w1.ocLimited;
    if !input.wifiLock {
      DownPhaseTables(cfg, w1, input);
      RatePhaseTables(cfg, DownPhase(w1, input), input, AnyRateLimit(w1.tables.cache, LiveIds(input.panes)));
    }
  }

  // ---------------------------------------------------------------------------
  // A streak counts real captures
  // ---------------------------------------------------------------------------

  /** All captures a run has read, oldest first. */
  function Scans(cfg: Config, es: seq<Event>): seq<Pane> {
    if es == [] then []
    else
      var past, e := es[..|es| - 1], es[|es| - 1];
      Scans(cfg, past) + if e.Poll? && cfg.enabled then Batch(e.input.panes, Run(cfg, past).offset) else []
  }

  /**
   * Dead-proxy captures of a pane since it last showed a working composer or a limit screen that is
   * no dead proxy. Captures without a known CLI, and those of a Claude, Cursor or Kiro limit, leave
   * the count alone.
   */
  function Failures(scans: seq<Pane>, id: PaneId): nat {
    if scans == [] then 0
    else
      var past, last := scans[..|scans| - 1], scans[|scans| - 1];
      if last.id != id then Failures(past, id)
      else
        match last.reading
        case LimitScreen(connect, _) => if connect then Failures(past, id) + 1 else 0
        case Healthy => 0
        case _ => Failures(past, id)
  }

  ghost predicate Counted(t: Tables, scans: seq<Pane>) {
    forall p :: StreakOf(t, p) <= Failures(scans, p)
  }

  lemma ScanOneCounts(cfg: Config, t: Tables, scans: seq<Pane>, pane: Pane)
    requires Counted(t, scans)
    ensures Counted(ScanOne(cfg, t, pane), scans + [pane])
  {
    assert (scans + [pane])[..|scans|] == scans;
    forall p
      ensures StreakOf(ScanOne(cfg, t, pane), p) <= Failures(scans + [pane], p)
    {
      assert StreakOf(t, p) <= Failures(scans, p);
    }
  }

  lemma {:induction false} ScanAllCounts(cfg: Config, t: Tables, scans: seq<Pane>, panes: seq<Pane>)
    requires Counted(t, scans)
    ensures Counted(ScanAll(cfg, t, panes), scans + panes)
  {
    if panes == [] {
      assert scans + panes == scans;
    } else {
      var n := |panes| - 1;
      ScanAllCounts(cfg, t, scans, panes[..n]);
      ScanOneCounts(cfg, ScanAll(cfg, t, panes[..n]), scans + panes[..n], panes[n]);
      assert scans + panes[..n] + [panes[n]] == scans + panes;
    }
  }

  lemma PruneCounts(t: Tables, live: set<PaneId>, scans: seq<Pane>)
    requires Counted(t, scans)
    ensures Counted(Prune(t, live), scans)
  {
    forall p
      ensures StreakOf(Prune(t, live), p) <= Failures(scans, p)
    {
      assert StreakOf(t, p) <= Failures(scans, p);
    }
  }

  lemma StreakOnlyDrops(cfg: Config, w: World, e: Event, scans: seq<Pane>)
    requires Counted(w.tables, scans) && !(e.Poll? && cfg.enabled)
    ensures Counted(Step(cfg, w, e).tables, scans)
  {
    var t' := Step(cfg, w, e).tables;
    forall p
      ensures StreakOf(t', p) <= Failures(scans, p)
    {
      assert StreakOf(w.tables, p) <= Failures(scans, p);
    }
  }

  lemma PhasesOnlyDropStreaks(cfg: Config, w: World, input: PollInput, anyRate: bool)
    ensures var t' := RatePhase(cfg, DownPhase(w, input), input, anyRate).tables;
            t'.streak == w.tables.streak || t'.streak == map[]
  {
    RatePhaseTables(cfg, DownPhase(w, input), input, anyRate);
  }

  lemma {:induction false} StreaksCountCaptures(cfg: Config, es: seq<Event>)
    ensures Counted(Run(cfg, es).tables, Scans(cfg, es))
  {
    if es != [] {
      var past, e := es[..|es| - 1], es[|es| - 1];
      var w, scans := Run(cfg, past), Scans(cfg, past);
      RunStep(cfg, es);
      StreaksCountCaptures(cfg, past);
      if e.Poll? && cfg.enabled {
        var pruned := Prune(w.tables, LiveIds(e.input.panes));
        PruneCounts(w.tables, LiveIds(e.input.panes), scans);
        ScanAllCounts(cfg, pruned, scans, Batch(e.input.panes, w.offset));
        var w1 := Observe(cfg, w, e.input);
        PhasesOnlyDropStreaks(cfg, w1, e.input, AnyRateLimit(w1.tables.cache, LiveIds(e.input.panes)));
        assert forall p :: StreakOf(w1.tables, p) <= Failures(Scans(cfg, es), p);
      } else {
        StreakOnlyDrops(cfg, w, e, scans);
        assert Scans(cfg, es) == scans;
      }
    }
  }

  /**
   * No pane counts as a dead proxy on fewer than the configured number of captures that showed
   * one, none of them followed by a capture that resets the count.
   */
  lemma DeadProxyNeedsEnoughCaptures(cfg: Config, es: seq<Event>)
    ensures forall p :: p in Run(cfg, es).connectPanes ==> Failures(Scans(cfg, es), p) >= Need(cfg)
  {
    CachedConnectIsConfirmed(cfg, es);
    StreaksCountCaptures(cfg, es);
    var t := Run(cfg, es).tables;
    forall p | p in Run(cfg, es).connectPanes
      ensures Failures(Scans(cfg, es), p) >= Need(cfg)
    {
      assert t.cache[p].connect;
      assert StreakOf(t, p) <= Failures(Scans(cfg, es), p);
    }
  }

  // ---------------------------------------------------------------------------
  // Scripts in flight
  // ---------------------------------------------------------------------------

  ghost predicate OneJob(w: World) {
    |w.jobs| == (if w.running then 1 else 0)
  }

  lemma DownPhaseKeepsOneJob(w: World, input: PollInput)
    requires OneJob(w)
    ensures OneJob(DownPhase(w, input))
  {
  }

  lemma RatePhaseKeepsOneJob(cfg: Config, w: World, input: PollInput, anyRate: bool)
    requires OneJob(w)
    ensures OneJob(RatePhase(cfg, w, input, anyRate))
  {
  }

  lemma ScriptStepKeepsOneJob(w: World, now: int, which: nat, code: int, after: Option<Ip>, hooks: Hooks)
    requires OneJob(w)
    ensures OneJob(ScriptStep(w, now, which, code, after, hooks))
  {
  }

  lemma StepKeepsOneJob(cfg: Config, w: World, e: Event)
    requires OneJob(w)
    ensures OneJob(Step(cfg, w, e))
  {
    match e
    case Poll(input) =>
      if cfg.enabled && !input.wifiLock {
        var w1 := Observe(cfg, w, input);
        DownPhaseKeepsOneJob(w1, input);
        RatePhaseKeepsOneJob(cfg, DownPhase(w1, input), input, AnyRateLimit(w1.tables.cache, LiveIds(input.panes)));
      }
    case ScriptDone(now, which, code, after, hooks) =>
      ScriptStepKeepsOneJob(w, now, which, code, after, hooks);
    case ResumeAck(now, pane) =>
  }

  /** The running flag is up exactly while one script is in flight, and there is never a second. */
  lemma {:induction false} RunningMeansOneScript(cfg: Config, es: seq<Event>)
    ensures |Run(cfg, es).jobs| <= 1
    ensures Run(cfg, es).running <==> |Run(cfg, es).jobs| == 1
  {
    if es != [] {
      RunningMeansOneScript(cfg, es[..|es| - 1]);
      RunStep(cfg, es);
      StepKeepsOneJob(cfg, Run(cfg, es[..|es| - 1]), es[|es| - 1]);
    }
  }

  /**
   * A finished script that was not chained into a wait: a wait-ip run is followed by a resume
   * wave exactly when it exited 0 or the address changed, but a proxy restart that succeeded
   * ends in silence when the address before it was unknown.
   */
  lemma WaveAfterScript(cfg: Config, es: seq<Event>, now: int, code: int, after: Option<Ip>, hooks: Hooks)
    ensures var w, w' := Run(cfg, es), ScriptStep(Run(cfg, es), now, 0, code, after, hooks);
            w.jobs != [] ==>
            match w.jobs[0]
            case ProxyUp => !w'.running && w'.log == w.log
            case WaitIp(from) =>
              !w'.running && w'.log == w.log + if code == 0 || IpChanged(from, after) then [Entry(now, Wave)] else []
            case SmartRestart(from) =>
              if code != 0 || after.None? || after == from then
                w'.log == w.log && (w'.running <==> hooks.rotate)
                && w'.jobs == (if hooks.rotate then [WaitIp(from)] else [])
              else
                !w'.running && w'.log == w.log + if from.Some? then [Entry(now, Wave)] else []
  {
    RunningMeansOneScript(cfg, es);
  }

  // ---------------------------------------------------------------------------
  // Marks for provider limits
  // ---------------------------------------------------------------------------

  lemma {:induction false} OtherPanesKeepMark(cfg: Config, t: Tables, panes: seq<Pane>, m: Mark)
    requires forall k :: 0 <= k < |panes| ==> panes[k].id != m.pane
    ensures m in ScanAll(cfg, t, panes).seen <==> m in t.seen
  {
    if panes != [] {
      OtherPanesKeepMark(cfg, t, panes[..|panes| - 1], m);
    }
  }

  lemma {:induction false} RaisedInBatch(cfg: Config, t: Tables, panes: seq<Pane>, k: nat, now: int)
    requires DistinctIds(panes) && k < |panes| && MarkOf(panes[k]).Some?
    ensures Entry(now, Rise(MarkOf(panes[k]).value)) in AllRises(cfg, t, panes, now)
            <==> MarkOf(panes[k]).value !in t.seen
    decreases |panes|
  {
    var n := |panes| - 1;
    var m := MarkOf(panes[k]).value;
    var init := panes[..n];
    if k < n {
      RaisedInBatch(cfg, t, init, k, now);
      assert MarkOf(panes[n]).Some? ==> MarkOf(panes[n]).value != m;
    } else {
      OtherPanesKeepMark(cfg, t, init, m);
      NotRaisedByOthers(cfg, t, init, m, now);
    }
  }

  lemma {:induction false} NotRaisedByOthers(cfg: Config, t: Tables, panes: seq<Pane>, m: Mark, now: int)
    requires forall k :: 0 <= k < |panes| ==> panes[k].id != m.pane
    ensures Entry(now, Rise(m)) !in AllRises(cfg, t, panes, now)
  {
    if panes != [] {
      NotRaisedByOthers(cfg, t, panes[..|panes| - 1], m, now);
    }
  }

  /**
   * Only the plain limit of a pane is edge-triggered: a pane that still carries its mark is not
   * raised again. The two suffixed marks do not survive the pruning at the head of a poll, so
   * those limits are raised at every scan of the pane.
   */
  lemma ProviderLimitRises(cfg: Config, w: World, input: PollInput, k: nat)
    requires DistinctIds(Batch(input.panes, w.offset)) && k < |Batch(input.panes, w.offset)|
    requires MarkOf(Batch(input.panes, w.offset)[k]).Some?
    ensures var m := MarkOf(Batch(input.panes, w.offset)[k]).value;
            Entry(input.now, Rise(m))
              in AllRises(cfg, Prune(w.tables, LiveIds(input.panes)), Batch(input.panes, w.offset), input.now)
            <==> !(m.CcMark? && m in w.tables.seen)
  {
    var batch := Batch(input.panes, w.offset);
    BatchIsLive(input.panes, w.offset);
    assert batch[k].id in LiveIds(input.panes);
    RaisedInBatch(cfg, Prune(w.tables, LiveIds(input.panes)), batch, k, input.now);
  }
}
