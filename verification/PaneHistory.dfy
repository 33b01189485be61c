/**
 * What the connectivity tables know about one pane, told from what happened to that pane. Main
 * result: a pane counts as a dead proxy exactly when a capture completed the configured number of
 * failures and nothing since has taken it back (`DeadProxyIff`).
 */
module PaneHistory {
  import opened Basics
  import opened Connectivity
  import opened ConnectivityTables
  import opened ConnectivityHistory

  /** A capture was read, the pane was gone at a poll, an episode cleared, or its resume was acknowledged. */
  datatype Happening = Captured(reading: Reading) | Left | Cleared | Acked

  function CapturesOf(panes: seq<Pane>, id: PaneId): seq<Happening> {
    if panes == [] then []
    else
      var past, last := CapturesOf(panes[..|panes| - 1], id), panes[|panes| - 1];
      if last.id == id then past + [Captured(last.reading)] else past
  }

  /** The poll ends a dead-proxy episode, which drops all streaks. */
  predicate ClearsDown(w: World, input: PollInput) {
    !input.wifiLock && w.down.active && !DownPhase(w, input).down.active
  }

  function AtPoll(cfg: Config, w: World, input: PollInput, id: PaneId): seq<Happening> {
    (if id in LiveIds(input.panes) then [] else [Left])
    + (CapturesOf(Batch(input.panes, w.offset), id)
       + (if ClearsDown(Observe(cfg, w, input), input) then [Cleared] else []))
  }

  function Happens(cfg: Config, w: World, e: Event, id: PaneId): seq<Happening> {
    match e
    case Poll(input) => if cfg.enabled then AtPoll(cfg, w, input, id) else []
    case ScriptDone(_, _, _, _, _) => []
    case ResumeAck(_, pane) => if pane == id then [Acked] else []
  }

  function History(cfg: Config, es: seq<Event>, id: PaneId): seq<Happening> {
    if es == [] then []
    else
      var past := es[..|es| - 1];
      History(cfg, past, id) + Happens(cfg, Run(cfg, past), es[|es| - 1], id)
  }

  predicate DeadProxy(h: Happening) {
    h.Captured? && h.reading.LimitScreen? && h.reading.connect
  }

  /** Starts the count of failures over. */
  predicate Resets(h: Happening) {
    !DeadProxy(h) && (h.Captured? ==> h.reading.Healthy? || h.reading.LimitScreen?)
  }

  /** Leaves a confirmed dead proxy confirmed. */
  predicate Quiet(h: Happening) {
    h.Captured? && (h.reading.CcLimit? || h.reading.CursorLimit? || h.reading.KiroLimit?)
  }

  /** Dead-proxy captures since the last reset. */
  function FailuresSince(hs: seq<Happening>): nat {
    if hs == [] then 0
    else
      var past, last := FailuresSince(hs[..|hs| - 1]), hs[|hs| - 1];
      if DeadProxy(last) then past + 1 else if Resets(last) then 0 else past
  }

  predicate Confirmed(need: int, hs: seq<Happening>) {
    hs != [] && (
      var last := hs[|hs| - 1];
      if DeadProxy(last) then FailuresSince(hs) >= need else Quiet(last) && Confirmed(need, hs[..|hs| - 1]))
  }

  /** The last word on the banner was a limit screen that counts as a rate limit. */
  predicate RateShown(hs: seq<Happening>) {
    hs != [] && (
      match hs[|hs| - 1]
      case Captured(LimitScreen(_, rate)) => rate
      case Captured(_) => Quiet(hs[|hs| - 1]) && RateShown(hs[..|hs| - 1])
      case Cleared => RateShown(hs[..|hs| - 1])
      case Left => false
      case Acked => false)
  }

  /** A Claude limit was read, and since then no working composer and no poll without the pane. */
  predicate Marked(hs: seq<Happening>) {
    hs != [] && (
      match hs[|hs| - 1]
      case Captured(CcLimit) => true
      case Captured(Healthy) => false
      case Left => false
      case _ => Marked(hs[..|hs| - 1]))
  }

  /** Capture k completed the failures, and only quiet captures came after it. */
  ghost predicate CompletedAt(need: int, hs: seq<Happening>, k: nat) {
    && k < |hs| && DeadProxy(hs[k]) && FailuresSince(hs[..k + 1]) >= need
    && forall j :: k < j < |hs| ==> Quiet(hs[j])
  }

  ghost predicate Completed(need: int, hs: seq<Happening>) {
    exists k: nat :: CompletedAt(need, hs, k)
  }

  lemma CompletedEarlier(need: int, hs: seq<Happening>, k: nat)
    requires hs != [] && k < |hs| - 1
    ensures CompletedAt(need, hs, k) <==> CompletedAt(need, hs[..|hs| - 1], k) && Quiet(hs[|hs| - 1])
  {
    assert hs[..|hs| - 1][..k + 1] == hs[..k + 1];
    assert forall j :: 0 <= j < |hs| - 1 ==> hs[..|hs| - 1][j] == hs[j];
  }

  lemma {:induction false} ConfirmedIff(need: int, hs: seq<Happening>)
    ensures Confirmed(need, hs) <==> Completed(need, hs)
  {
    if hs != [] {
      var n := |hs| - 1;
      var past := hs[..n];
      assert hs[..n + 1] == hs;
      ConfirmedIff(need, past);
      if k: nat :| CompletedAt(need, past, k) {
        CompletedEarlier(need, hs, k);
      }
      if k: nat :| CompletedAt(need, hs, k) && k < n {
        CompletedEarlier(need, hs, k);
      }
      if DeadProxy(hs[n]) && FailuresSince(hs) >= need {
        assert CompletedAt(need, hs, n);
      }
      if k: nat :| CompletedAt(need, hs, k) && k == n {
        assert DeadProxy(hs[n]);
      }
    }
  }

  /** The tables say of the pane what its history says. */
  predicate Says(cfg: Config, t: Tables, id: PaneId, hs: seq<Happening>) {
    && StreakOf(t, id) == FailuresSince(hs)
    && ((id in t.cache && t.cache[id].connect) <==> Confirmed(Need(cfg), hs))
    && ((id in t.cache && t.cache[id].rate) <==> RateShown(hs))
    && (CcMark(id) in t.seen <==> Marked(hs))
  }

  ghost predicate SameMark(t: Tables, t': Tables, id: PaneId) {
    CcMark(id) in t.seen <==> CcMark(id) in t'.seen
  }

  lemma SaysNothingNew(cfg: Config, t: Tables, t': Tables, id: PaneId, hs: seq<Happening>)
    requires Says(cfg, t, id, hs) && SameFor(t, t', id) && SameMark(t, t', id)
    ensures Says(cfg, t', id, hs)
  {
  }

  lemma CaptureSays(cfg: Config, t: Tables, pane: Pane, hs: seq<Happening>)
    requires Says(cfg, t, pane.id, hs)
    ensures Says(cfg, ScanOne(cfg, t, pane), pane.id, hs + [Captured(pane.reading)])
  {
    var hs' := hs + [Captured(pane.reading)];
    assert hs'[..|hs|] == hs;
    ShowsOwnCapture(cfg, t, t, pane);
  }

  lemma OtherCaptureSays(cfg: Config, t: Tables, pane: Pane, id: PaneId, hs: seq<Happening>)
    requires Says(cfg, t, id, hs) && pane.id != id
    ensures Says(cfg, ScanOne(cfg, t, pane), id, hs)
  {
    OtherPaneIsLeft(cfg, t, pane, id);
    SaysNothingNew(cfg, t, ScanOne(cfg, t, pane), id, hs);
  }

  lemma {:induction false} BatchSays(cfg: Config, t: Tables, panes: seq<Pane>, id: PaneId, hs: seq<Happening>)
    requires Says(cfg, t, id, hs)
    ensures Says(cfg, ScanAll(cfg, t, panes), id, hs + CapturesOf(panes, id))
  {
    if panes == [] {
      assert hs + [] == hs;
    } else {
      var init, last := panes[..|panes| - 1], panes[|panes| - 1];
      var before := ScanAll(cfg, t, init);
      BatchSays(cfg, t, init, id, hs);
      if last.id == id {
        CaptureSays(cfg, before, last, hs + CapturesOf(init, id));
        assert hs + CapturesOf(init, id) + [Captured(last.reading)] == hs + CapturesOf(panes, id);
      } else {
        OtherCaptureSays(cfg, before, last, id, hs + CapturesOf(init, id));
      }
    }
  }

  lemma ForgottenSays(cfg: Config, t: Tables, id: PaneId, hs: seq<Happening>, h: Happening)
    requires h == Left || h == Acked
    requires id !in t.cache && id !in t.streak
    requires CcMark(id) in t.seen <==> h == Acked && Marked(hs)
    ensures Says(cfg, t, id, hs + [h])
  {
  }

  lemma PruneSays(cfg: Config, t: Tables, live: set<PaneId>, id: PaneId, hs: seq<Happening>)
    requires Says(cfg, t, id, hs)
    ensures Says(cfg, Prune(t, live), id, hs + if id in live then [] else [Left])
  {
    var pruned := Prune(t, live);
    if id in live {
      assert hs + [] == hs;
      SaysNothingNew(cfg, t, pruned, id, hs);
    } else {
      ForgottenSays(cfg, pruned, id, hs, Left);
    }
  }

  /** An episode clears only when no pane is confirmed; then only the streaks go. */
  lemma DownPhaseSays(cfg: Config, w: World, input: PollInput, id: PaneId, hs: seq<Happening>)
    requires CacheSane(cfg, w.tables) && Mirrors(w) && Says(cfg, w.tables, id, hs)
    ensures var t, cleared := DownPhase(w, input).tables, w.down.active && !DownPhase(w, input).down.active;
            Says(cfg, t, id, hs + if cleared then [Cleared] else [])
  {
    DownPhaseTables(cfg, w, input);
    assert hs + [] == hs;
    if w.down.active && !DownPhase(w, input).down.active {
      assert w.connectPanes == {};
      assert id !in ConnectIn(w.tables.cache);
      assert (hs + [Cleared])[..|hs|] == hs;
    }
  }

  lemma ObserveSays(cfg: Config, w: World, input: PollInput, id: PaneId, hs: seq<Happening>)
    requires Says(cfg, w.tables, id, hs)
    ensures Says(cfg, Observe(cfg, w, input).tables, id,
                 hs + (if id in LiveIds(input.panes) then [] else [Left])
                 + CapturesOf(Batch(input.panes, w.offset), id))
  {
    var live := LiveIds(input.panes);
    PruneSays(cfg, w.tables, live, id, hs);
    BatchSays(cfg, Prune(w.tables, live), Batch(input.panes, w.offset), id, hs + if id in live then [] else [Left]);
  }

  lemma Regroup(a: seq<Happening>, b: seq<Happening>, c: seq<Happening>, d: seq<Happening>)
    ensures a + b + c + d == a + (b + (c + d))
  {
  }

  lemma PollSays(cfg: Config, w: World, input: PollInput, id: PaneId, hs: seq<Happening>)
    requires cfg.enabled && CacheSane(cfg, w.tables) && Says(cfg, w.tables, id, hs)
    ensures Says(cfg, PollStep(cfg, w, input).tables, id, hs + AtPoll(cfg, w, input, id))
  {
    var w1 := Observe(cfg, w, input);
    var gone: seq<Happening> := if id in LiveIds(input.panes) then [] else [Left];
    var read := CapturesOf(Batch(input.panes, w.offset), id);
    ObserveKeepsTables(cfg, w, input);
    ObserveSays(cfg, w, input, id, hs);
    if input.wifiLock {
      assert hs + gone + read + [] == hs + gone + read;
      Regroup(hs, gone, read, []);
    } else {
      var cleared: seq<Happening> := if ClearsDown(w1, input) then [Cleared] else [];
      DownPhaseSays(cfg, w1, input, id, hs + gone + read);
      Regroup(hs, gone, read, cleared);
      RatePhaseTables(cfg, DownPhase(w1, input), input, AnyRateLimit(w1.tables.cache, LiveIds(input.panes)));
    }
  }

  lemma StepSays(cfg: Config, w: World, e: Event, id: PaneId, hs: seq<Happening>)
    requires CacheSane(cfg, w.tables) && Says(cfg, w.tables, id, hs)
    ensures Says(cfg, Step(cfg, w, e).tables, id, hs + Happens(cfg, w, e, id))
  {
    assert hs + [] == hs;
    match e
    case Poll(input) =>
      if cfg.enabled {
        PollSays(cfg, w, input, id, hs);
      }
    case ScriptDone(_, _, _, _, _) =>
    case ResumeAck(_, pane) =>
      var t' := Step(cfg, w, e).tables;
      if pane == id {
        ForgottenSays(cfg, t', id, hs, Acked);
      } else {
        SaysNothingNew(cfg, w.tables, t', id, hs);
      }
  }

  /** Over any run each streak is the count of that pane's own failures, and each cached flag their result. */
  lemma {:induction false} TablesSayHistory(cfg: Config, es: seq<Event>, id: PaneId)
    ensures Says(cfg, Run(cfg, es).tables, id, History(cfg, es, id))
  {
    if es != [] {
      var past := es[..|es| - 1];
      TablesSayHistory(cfg, past, id);
      CachedConnectIsConfirmed(cfg, past);
      RunStep(cfg, es);
      StepSays(cfg, Run(cfg, past), es[|es| - 1], id, History(cfg, past, id));
    }
  }

  lemma SaidOfConnect(cfg: Config, w: World, id: PaneId, hs: seq<Happening>)
    requires Mirrors(w) && Says(cfg, w.tables, id, hs)
    ensures id in w.connectPanes <==> Completed(Need(cfg), hs)
  {
    ConfirmedIff(Need(cfg), hs);
  }

  /**
   * On every run a pane counts as a dead proxy exactly when some capture of it completed the
   * configured number of failures in a row and nothing but Claude, Cursor and Kiro limit screens
   * was read of it since: no other capture, poll without the pane, cleared episode or acknowledgement.
   */
  lemma DeadProxyIff(cfg: Config, es: seq<Event>, id: PaneId)
    ensures id in Run(cfg, es).connectPanes <==> Completed(Need(cfg), History(cfg, es, id))
  {
    CachedConnectIsConfirmed(cfg, es);
    TablesSayHistory(cfg, es, id);
    SaidOfConnect(cfg, Run(cfg, es), id, History(cfg, es, id));
  }

  // ---------------------------------------------------------------------------
  // What the episode of rate limits is told from
  // ---------------------------------------------------------------------------

  /** The pane is rate-limited: its banner says so, and it is no confirmed dead proxy. */
  predicate RateLimited(need: int, hs: seq<Happening>) {
    RateShown(hs) && !Confirmed(need, hs)
  }

  lemma RateLimitedSays(cfg: Config, t: Tables, id: PaneId, hs: seq<Happening>)
    requires Says(cfg, t, id, hs)
    ensures (id in t.cache && !t.cache[id].connect && t.cache[id].rate) <==> RateLimited(Need(cfg), hs)
  {
  }

  /**
   * After a completed poll a rate-limit episode is on exactly when some pane of the mesh is
   * rate-limited by its own history, or one was on by the log and the last limited poll is at most
   * 120 s back. A pane that counts as a dead proxy is not rate-limited, whatever else its screen says.
   */
  lemma EpisodeByPanes(cfg: Config, es: seq<Event>, input: PollInput)
    requires cfg.enabled && !input.wifiLock
    ensures var all, log := es + [Poll(input)], Run(cfg, es).log;
            Run(cfg, all).oc.episode <==>
              (exists id :: id in LiveIds(input.panes) && RateLimited(Need(cfg), History(cfg, all, id)))
              || (IsLimited(log) && input.now - LastAt(log, LimitSeen) <= 120_000)
  {
    var all := es + [Poll(input)];
    assert all[..|all| - 1] == es;
    RunStep(cfg, all);
    PollSettlesEpisode(cfg, es, input);
    EpisodeByHistory(cfg, es, input);
    var cache := Observe(cfg, Run(cfg, es), input).tables.cache;
    forall id
      ensures (id in cache && !cache[id].connect && cache[id].rate)
          <==> RateLimited(Need(cfg), History(cfg, all, id))
    {
      TablesSayHistory(cfg, all, id);
      RateLimitedSays(cfg, Run(cfg, all).tables, id, History(cfg, all, id));
    }
  }

  /** By its own history the pane's banner says rate limit. */
  ghost predicate ShownAt(cfg: Config, es: seq<Event>, id: PaneId) {
    RateShown(History(cfg, es, id))
  }

  ghost predicate OthersShown(cfg: Config, es: seq<Event>, pane: PaneId) {
    exists id :: id != pane && ShownAt(cfg, es, id)
  }

  ghost predicate RateCached(t: Tables, id: PaneId) {
    id in t.cache && t.cache[id].rate
  }

  lemma CacheSaysShown(cfg: Config, es: seq<Event>, t: Tables)
    requires t == Run(cfg, es).tables
    ensures forall id :: RateCached(t, id) <==> ShownAt(cfg, es, id)
  {
    forall id
      ensures RateCached(t, id) <==> ShownAt(cfg, es, id)
    {
      TablesSayHistory(cfg, es, id);
      SaidOfRate(cfg, t, id, History(cfg, es, id));
    }
  }

  /**
   * A resume acknowledgement ends the rate-limit episode exactly when the pane stood limited and no
   * other pane's banner says rate limit any more.
   */
  lemma AckEndsEpisodeIff(cfg: Config, es: seq<Event>, now: int, pane: PaneId)
    ensures var before, after := Run(cfg, es), Run(cfg, es + [ResumeAck(now, pane)]);
            after.oc.episode <==> before.oc.episode && (pane !in before.ocLimited || OthersShown(cfg, es, pane))
  {
    var all := es + [ResumeAck(now, pane)];
    assert all[..|all| - 1] == es;
    RunStep(cfg, all);
    CachedConnectIsConfirmed(cfg, es);
    CacheSaysShown(cfg, es, Run(cfg, es).tables);
    AckEpisode(Run(cfg, es), now, pane);
    OthersCached(cfg, es, Run(cfg, es).tables, pane);
  }

  lemma OthersCached(cfg: Config, es: seq<Event>, t: Tables, pane: PaneId)
    requires forall id :: RateCached(t, id) <==> ShownAt(cfg, es, id)
    ensures (exists id :: id != pane && RateCached(t, id)) <==> OthersShown(cfg, es, pane)
  {
  }

  lemma SaidOfRate(cfg: Config, t: Tables, id: PaneId, hs: seq<Happening>)
    requires Says(cfg, t, id, hs)
    ensures (id in t.cache && t.cache[id].rate) <==> RateShown(hs)
  {
  }

  lemma AckEpisode(w: World, now: int, pane: PaneId)
    requires Mirrors(w)
    ensures AckStep(w, now, pane).oc.episode <==>
              w.oc.episode && (pane !in w.ocLimited || exists id :: id != pane && RateCached(w.tables, id))
  {
    var w1 := ClearBanner(w, pane);
    if id :| id != pane && RateCached(w.tables, id) {
      assert id in w1.tables.cache && w1.tables.cache[id].rate;
    }
    if AnyRateFlag(w1.tables.cache) {
      var id :| id in w1.tables.cache && w1.tables.cache[id].rate;
      assert id != pane && RateCached(w.tables, id);
    }
  }

  /** A Claude limit is raised exactly when it is read of a pane that is not marked by its history. */
  lemma ClaudeLimitRisesIff(cfg: Config, es: seq<Event>, input: PollInput, k: nat)
    requires DistinctIds(Batch(input.panes, Run(cfg, es).offset)) && k < |Batch(input.panes, Run(cfg, es).offset)|
    requires Batch(input.panes, Run(cfg, es).offset)[k].reading == CcLimit
    ensures var w, id := Run(cfg, es), Batch(input.panes, Run(cfg, es).offset)[k].id;
            Entry(input.now, Rise(CcMark(id)))
              in AllRises(cfg, Prune(w.tables, LiveIds(input.panes)), Batch(input.panes, w.offset), input.now)
            <==> !Marked(History(cfg, es, id))
  {
    var w := Run(cfg, es);
    ProviderLimitRises(cfg, w, input, k);
    TablesSayHistory(cfg, es, Batch(input.panes, w.offset)[k].id);
  }
}
