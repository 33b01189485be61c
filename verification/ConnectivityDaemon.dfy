/** The recovery state as the daemon holds it: fields changed in place, one method per function. */
module ConnectivityDaemon {
  import opened Basics
  import opened Connectivity

  /** The deletion loop over one of the per-pane maps. */
  method KeepLive<V>(m: map<PaneId, V>, live: set<PaneId>) returns (r: map<PaneId, V>)
    ensures r == map p | p in m && p in live :: m[p]
  {
    r := m;
    var ids := m.Keys;
    while ids != {}
      invariant ids <= r.Keys
      invariant r == map p | p in m && (p in live || p in ids) :: m[p]
      decreases ids
    {
      var id :| id in ids;
      if id !in live {
        r := r - {id};
      }
      ids := ids - {id};
    }
  }

  class Recovery {
    const cfg: Config

    var paneLimitCache: map<PaneId, Flags>
    var paneConnectStreak: map<PaneId, nat>
    var paneLimitSeen: set<Mark>
    var paneScanOffset: nat
    var ocLimited: set<PaneId>
    var connectPanes: set<PaneId>
    var down: Down
    var oc: Oc
    var recoveryRunning: bool
    var inFlight: seq<Job>
    var log: seq<Entry>

    function State(): World
      reads this
    {
      World(Tables(paneLimitCache, paneConnectStreak, paneLimitSeen), paneScanOffset, ocLimited, connectPanes,
            down, oc, recoveryRunning, inFlight, log)
    }

    constructor (cfg: Config)
      ensures State() == START && this.cfg == cfg
    {
      this.cfg := cfg;
      paneLimitCache, paneConnectStreak, paneLimitSeen, paneScanOffset := map[], map[], {}, 0;
      ocLimited, connectPanes := {}, {};
      down, oc := START.down, START.oc;
      recoveryRunning, inFlight, log := false, [], [];
    }

    method Log(now: int, what: What)
      modifies this`log
      ensures State() == Note(old(State()), now, what)
    {
      log := log + [Entry(now, what)];
    }

    /** Drop everything remembered about panes that are gone. */
    method PruneDeadPanes(live: set<PaneId>)
      modifies this`paneLimitCache, this`paneConnectStreak, this`paneLimitSeen
      ensures State() == old(State()).(tables := Prune(old(State()).tables, live))
    {
      paneLimitCache := KeepLive(paneLimitCache, live);
      paneConnectStreak := KeepLive(paneConnectStreak, live);
      paneLimitSeen := set m | m in paneLimitSeen && m.CcMark? && m.pane in live;
    }

    method UpdatePaneConnectStreak(pane: PaneId, sawConnect: bool) returns (confirmed: bool, streak: nat)
      modifies this`paneConnectStreak
      ensures streak == if sawConnect then StreakOf(old(State()).tables, pane) + 1 else 0
      ensures confirmed == (sawConnect && streak >= Max(1, cfg.connectThreshold))
      ensures paneConnectStreak == if sawConnect then old(paneConnectStreak)[pane := streak]
              else old(paneConnectStreak) - {pane}
    {
      if !sawConnect {
        paneConnectStreak := paneConnectStreak - {pane};
        return false, 0;
      }
      streak := (if pane in paneConnectStreak then paneConnectStreak[pane] else 0) + 1;
      paneConnectStreak := paneConnectStreak[pane := streak];
      confirmed := streak >= Max(1, cfg.connectThreshold);
    }

    method ScanPane(pane: Pane, now: int)
      modifies this`paneLimitCache, this`paneConnectStreak, this`paneLimitSeen, this`log
      ensures State() == old(State()).(tables := ScanOne(cfg, old(State()).tables, pane),
                                       log := old(log) + Rises(old(State()).tables, pane, now))
    {
      match pane.reading {
        case NoSnapshot =>
          paneLimitCache := paneLimitCache - {pane.id};
        case Unmonitored =>
          paneLimitCache := paneLimitCache - {pane.id};
        case CcLimit =>
          NoteLimitOnce(CcMark(pane.id), now);
        case CursorLimit =>
          NoteLimitOnce(CursorMark(pane.id), now);
        case KiroLimit =>
          NoteLimitOnce(KiroMark(pane.id), now);
        case Healthy =>
          paneLimitCache := paneLimitCache - {pane.id};
          paneConnectStreak := paneConnectStreak - {pane.id};
          paneLimitSeen := paneLimitSeen - {CcMark(pane.id)};
        case LimitScreen(sawConnect, rate) =>
          if !sawConnect && !rate {
            paneLimitCache := paneLimitCache - {pane.id};
            paneConnectStreak := paneConnectStreak - {pane.id};
            return;
          }
          var connect, streak := UpdatePaneConnectStreak(pane.id, sawConnect);
          if connect || rate {
            paneLimitCache := paneLimitCache[pane.id := Flags(connect, rate)];
          } else {
            paneLimitCache := paneLimitCache - {pane.id};
          }
      }
    }

    method NoteLimitOnce(mark: Mark, now: int)
      modifies this`paneLimitSeen, this`log
      ensures paneLimitSeen == old(paneLimitSeen) + {mark}
      ensures log == old(log) + if mark in old(paneLimitSeen) then [] else [Entry(now, Rise(mark))]
    {
      if mark !in paneLimitSeen {
        paneLimitSeen := paneLimitSeen + {mark};
        log := log + [Entry(now, Rise(mark))];
      }
    }

    /** Read the next batch of panes in rotation. */
    method ScanBatch(panes: seq<Pane>, now: int)
      modifies this`paneLimitCache, this`paneConnectStreak, this`paneLimitSeen, this`log, this`paneScanOffset
      ensures var t, batch := old(State()).tables, Batch(panes, old(paneScanOffset));
              State() == old(State()).(tables := ScanAll(cfg, t, batch),
                                       offset := NextOffset(panes, old(paneScanOffset)),
                                       log := old(log) + AllRises(cfg, t, batch, now))
    {
      ghost var t := State().tables;
      ghost var all := Batch(panes, paneScanOffset);
      var batch: seq<Pane> := [];
      if |panes| > 0 {
        for i := 0 to Min(PANE_SCAN_BATCH, |panes|)
          invariant batch == all[..i]
        {
          batch := batch + [panes[(paneScanOffset + i) % |panes|]];
        }
        paneScanOffset := (paneScanOffset + |batch|) % |panes|;
      }
      assert batch == all;
      for k := 0 to |batch|
        invariant State() == old(State()).(tables := ScanAll(cfg, t, batch[..k]),
                                           offset := NextOffset(panes, old(paneScanOffset)),
                                           log := old(log) + AllRises(cfg, t, batch[..k], now))
      {
        assert batch[..k + 1][..k] == batch[..k];
        ScanPane(batch[k], now);
      }
      assert batch[..|batch|] == batch;
    }

    /** Rebuild the two pane sets; a pane with both flags does not count as rate limited. */
    method RebuildPaneSets(live: set<PaneId>) returns (anyConnect: bool, anyRateLimit: bool)
      modifies this`ocLimited, this`connectPanes
      ensures ocLimited == paneLimitCache.Keys * live && connectPanes == ConnectIn(paneLimitCache) * live
      ensures anyConnect == (connectPanes != {}) && anyRateLimit == AnyRateLimit(paneLimitCache, live)
    {
      connectPanes, ocLimited := {}, {};
      anyConnect, anyRateLimit := false, false;
      var ids := paneLimitCache.Keys;
      while ids != {}
        invariant ids <= paneLimitCache.Keys
        invariant ocLimited == (paneLimitCache.Keys - ids) * live
        invariant connectPanes == (ConnectIn(paneLimitCache) - ids) * live
        invariant anyConnect == (connectPanes != {})
        invariant anyRateLimit <==>
                    exists p :: p in paneLimitCache && p in live && p !in ids
                      && !paneLimitCache[p].connect && paneLimitCache[p].rate
        decreases ids
      {
        var id :| id in ids;
        ids := ids - {id};
        if id in live {
          ocLimited := ocLimited + {id};
          if paneLimitCache[id].connect {
            connectPanes := connectPanes + {id};
            anyConnect := true;
          } else if paneLimitCache[id].rate {
            anyRateLimit := true;
          }
        }
      }
    }

    method PollConnectivityRecovery(input: PollInput)
      modifies this
      ensures State() == PollStep(cfg, old(State()), input)
    {
      if !cfg.enabled {
        return;
      }
      var live := set k | 0 <= k < |input.panes| :: input.panes[k].id;
      PruneDeadPanes(live);
      ScanBatch(input.panes, input.now);
      var anyConnect, anyRateLimit := RebuildPaneSets(live);
      assert State() == Observe(cfg, old(State()), input);
      if input.wifiLock {
        if down.active {
          down := down.(active := false);
          Log(input.now, DownSuppressed);
        }
        return;
      }
      UpdateProxyDownEpisode(input, anyConnect);
      UpdateOcLimitEpisode(input, anyRateLimit);
    }

    method UpdateProxyDownEpisode(input: PollInput, anyConnect: bool)
      requires anyConnect == (connectPanes != {})
      modifies this
      ensures State() == DownPhase(old(State()), input)
    {
      var wasDown := down.active;
      var now := input.now;
      down := down.(ipifyFails := if input.carrierOk then 0 else down.ipifyFails + 1);
      var rearmBlocked := !wasDown && anyConnect && input.carrierOk
        && now - down.lastClearAt < PROXY_DOWN_REARM_COOLDOWN_MS;
      var proxyDownNow := anyConnect && !rearmBlocked;
      if proxyDownNow && !wasDown {
        down := down.(active := true, startIp := input.ip, startAt := now, stuckNotified := false);
        Log(now, DownStart);
        MaybeRunProxyUp(now, input.hooks);
      } else if !proxyDownNow && wasDown {
        down := down.(active := false, startIp := None, startAt := 0, stuckNotified := false,
                      ipifyFails := 0, lastClearAt := now);
        paneConnectStreak := map[];
        KeepRateLimitEntries();
        Log(now, DownClear);
        Log(now, Wave);
      } else if proxyDownNow && !down.stuckNotified && down.startAt != 0
        && now - down.startAt >= PROXY_DOWN_STUCK_NOTIFY_MS {
        down := down.(stuckNotified := true);
        Log(now, DownStuck);
      }
    }

    method KeepRateLimitEntries()
      modifies this`paneLimitCache
      ensures paneLimitCache == DropConnectFlags(old(paneLimitCache))
    {
      ghost var before := paneLimitCache;
      var ids := paneLimitCache.Keys;
      while ids != {}
        invariant ids <= before.Keys
        invariant forall p :: p in paneLimitCache <==> p in before && (p in ids || before[p].rate)
        invariant forall p :: p in paneLimitCache ==>
                    paneLimitCache[p] == if p in ids then before[p] else Flags(false, true)
        decreases ids
      {
        var id :| id in ids;
        ids := ids - {id};
        if paneLimitCache[id].rate {
          paneLimitCache := paneLimitCache[id := Flags(false, true)];
        } else {
          paneLimitCache := paneLimitCache - {id};
        }
      }
    }

    method MaybeRunProxyUp(now: int, hooks: Hooks)
      modifies this`down, this`recoveryRunning, this`inFlight, this`log
      ensures State() == RunProxyUp(old(State()), now, hooks)
    {
      if recoveryRunning || now - down.lastProxyUpAt < PROXY_UP_COOLDOWN_MS || !hooks.upSet {
        return;
      }
      recoveryRunning := true;
      down := down.(lastProxyUpAt := now);
      Log(now, ProxyUpRun);
      if hooks.up {
        inFlight := inFlight + [ProxyUp];
      } else {
        recoveryRunning := false;
      }
    }

    method UpdateRateLimitEpisode(anyRateLimitNow: bool, now: int) returns (action: Action)
      modifies this`oc
      ensures (oc, action) == UpdateEpisode(old(oc), anyRateLimitNow, now)
    {
      if anyRateLimitNow {
        oc := oc.(lastSeenAt := now);
        if !oc.episode {
          oc := oc.(episode := true);
          return Begin;
        }
        return Continue;
      }
      if oc.episode && now - oc.lastSeenAt > RATE_LIMIT_EPISODE_CLEAR_MS {
        oc := oc.(episode := false);
        return Clear;
      }
      return Nothing;
    }

    method UpdateOcLimitEpisode(input: PollInput, anyRateLimit: bool)
      modifies this
      ensures State() == RatePhase(cfg, old(State()), input, anyRateLimit)
    {
      var action := UpdateRateLimitEpisode(anyRateLimit, input.now);
      if anyRateLimit {
        Log(input.now, LimitSeen);
      }
      if action == Begin {
        Log(input.now, OcStart);
        if !oc.started {
          MaybeRunOcLimitRecovery(input);
        }
      } else if action == Clear {
        oc := oc.(started := false);
        Log(input.now, OcGraceEnd);
      }
    }

    method MaybeRunOcLimitRecovery(input: PollInput)
      modifies this`oc, this`recoveryRunning, this`inFlight, this`log
      ensures State() == RunOcRecovery(cfg, old(State()), input)
    {
      if recoveryRunning || oc.started || (oc.lastRotateAt > 0 && input.now - oc.lastRotateAt < ROTATE_COOLDOWN_MS) {
        return;
      }
      var fromIp := if input.ip.Some? then input.ip else down.startIp;
      recoveryRunning := true;
      oc := oc.(started := true, lastRotateAt := input.now);
      Log(input.now, OcRecovery);
      if !cfg.useSmart || input.smartCooldown || !input.hooks.smart {
        RunWaitIp(fromIp, input.hooks);
      } else {
        inFlight := inFlight + [SmartRestart(fromIp)];
      }
    }

    method RunWaitIp(fromIp: Option<Ip>, hooks: Hooks)
      modifies this`recoveryRunning, this`inFlight
      ensures State() == LaunchWaitIp(old(State()), fromIp, hooks)
    {
      if hooks.rotate {
        inFlight := inFlight + [WaitIp(fromIp)];
      } else {
        recoveryRunning := false;
      }
    }

    /** The completion callback of one script in flight. */
    method OnScriptDone(now: int, which: nat, code: int, ipAfter: Option<Ip>, hooks: Hooks)
      requires which < |inFlight|
      modifies this
      ensures State() == ScriptStep(old(State()), now, which, code, ipAfter, hooks)
    {
      var job := inFlight[which];
      inFlight := inFlight[..which] + inFlight[which + 1..];
      match job {
        case ProxyUp =>
          recoveryRunning := false;
        case WaitIp(from) =>
          FinishRecovery(now, from, ipAfter, code == 0);
        case SmartRestart(from) =>
          if code == SMART_RESTART_COOLDOWN_EXIT_CODE || ipAfter.None? || from == ipAfter || code != 0 {
            RunWaitIp(from, hooks);
          } else {
            FinishRecovery(now, from, ipAfter, false);
          }
      }
    }

    method FinishRecovery(now: int, fromIp: Option<Ip>, toIp: Option<Ip>, forceResume: bool)
      modifies this`recoveryRunning, this`log
      ensures State() == Finish(old(State()), now, fromIp, toIp, forceResume)
    {
      recoveryRunning := false;
      if (toIp.Some? && fromIp.Some? && toIp != fromIp) || forceResume {
        Log(now, Wave);
      }
    }

    method ClearOcLimitBannerForPane(pane: PaneId) returns (had: bool)
      modifies this`paneLimitCache, this`paneConnectStreak, this`ocLimited, this`connectPanes
      ensures State() == ClearBanner(old(State()), pane)
      ensures had == (pane in old(paneLimitCache) || pane in old(ocLimited) || pane in old(connectPanes))
    {
      had := pane in paneLimitCache || pane in ocLimited || pane in connectPanes;
      paneLimitCache := paneLimitCache - {pane};
      paneConnectStreak := paneConnectStreak - {pane};
      ocLimited := ocLimited - {pane};
      connectPanes := connectPanes - {pane};
    }

    method MaybeEndRateLimitEpisode(now: int)
      modifies this`oc, this`log
      ensures State() == EndRateEpisode(old(State()), now)
    {
      if exists p :: p in paneLimitCache && paneLimitCache[p].rate {
        return;
      }
      if !oc.episode && !oc.started {
        return;
      }
      oc := oc.(episode := false, started := false, lastSeenAt := 0);
      Log(now, OcBannerEnd);
    }

    method OnResumeAckPane(now: int, pane: PaneId)
      modifies this
      ensures State() == AckStep(old(State()), now, pane)
    {
      var had := ClearOcLimitBannerForPane(pane);
      if had {
        MaybeEndRateLimitEpisode(now);
      }
    }
  }
}
