/**
 * Which script is in flight, told from the log, the inputs and the policy. Main result: what a poll
 * that begins a recovery has started (`ScriptOfRecovery`), and that with the policy off nothing ever
 * restarts the proxy (`SmartOffNeverRestarts`).
 */
module RecoveryScripts {
  import opened Basics
  import opened Connectivity
  import opened ConnectivityTables
  import opened ConnectivityRuns

  /** The later log has a new entry of this kind. */
  ghost predicate Logs(log: seq<Entry>, more: seq<Entry>, what: What) {
    exists k :: |log| <= k < |more| && more[k].what == what
  }

  /** The event of the last step is logged in a run. */
  ghost predicate LastLogs(cfg: Config, es: seq<Event>, what: What)
    requires es != []
  {
    Logs(Run(cfg, es[..|es| - 1]).log, Run(cfg, es).log, what)
  }

  /** The carrier's address when the last dead-proxy episode started, while it has not been cleared. */
  ghost function StartAddress(cfg: Config, es: seq<Event>): Option<Ip> {
    if es == [] then None
    else if es[|es| - 1].Poll? && LastLogs(cfg, es, DownStart) then es[|es| - 1].input.ip
    else if LastLogs(cfg, es, DownClear) then None
    else StartAddress(cfg, es[..|es| - 1])
  }

  lemma LogsJoin(a: seq<Entry>, b: seq<Entry>, c: seq<Entry>, what: What)
    requires Extends(a, b) && Extends(b, c)
    ensures Logs(a, c, what) <==> Logs(a, b, what) || Logs(b, c, what)
  {
    if k :| |a| <= k < |c| && c[k].what == what {
      assert k < |b| ==> c[..|b|][k] == b[k];
    }
    if k :| |a| <= k < |b| && b[k].what == what {
      assert c[..|b|][k] == b[k];
    }
  }

  lemma ScanLogsNothing(cfg: Config, w: World, input: PollInput, what: What)
    requires !what.Rise?
    ensures !Logs(w.log, Observe(cfg, w, input).log, what)
  {
    RisesAreSilent(cfg, Prune(w.tables, LiveIds(input.panes)), Batch(input.panes, w.offset), input.now);
  }

  /** What the dead-proxy part of a poll may do to scripts and to the start address. */
  ghost predicate DownScripts(w: World, input: PollInput, w': World) {
    && !Logs(w.log, w'.log, OcRecovery)
    && w'.jobs == (if Logs(w.log, w'.log, ProxyUpRun) && input.hooks.up then [ProxyUp] else w.jobs)
    && (Logs(w.log, w'.log, ProxyUpRun) ==> w.jobs == [])
    && w'.down.startIp == (if Logs(w.log, w'.log, DownStart) then input.ip
                           else if Logs(w.log, w'.log, DownClear) then None else w.down.startIp)
  }

  lemma StartScripts(w: World, input: PollInput)
    requires OneJob(w)
    ensures DownScripts(w, input, StartDown(w, input))
  {
    var w', n := StartDown(w, input), |w.log|;
    assert w'.log[n].what == DownStart;
    assert |w'.log| > n + 1 ==> |w'.log| == n + 2 && w'.log[n + 1].what == ProxyUpRun;
  }

  lemma ClearScripts(w: World, input: PollInput)
    ensures DownScripts(w, input, ClearDown(w, input.now))
  {
    var w', n := ClearDown(w, input.now), |w.log|;
    assert |w'.log| == n + 2 && w'.log[n].what == DownClear && w'.log[n + 1].what == Wave;
  }

  lemma StuckScripts(w: World, w': World, input: PollInput)
    requires w'.jobs == w.jobs && w'.down.startIp == w.down.startIp
    requires w'.log == w.log || w'.log == w.log + [Entry(input.now, DownStuck)]
    ensures DownScripts(w, input, w')
  {
  }

  lemma SameStart(w: World, w1: World, input: PollInput, w': World)
    requires w1.jobs == w.jobs && w1.log == w.log && w1.down.startIp == w.down.startIp
    requires DownScripts(w1, input, w')
    ensures DownScripts(w, input, w')
  {
  }

  /** The dead-proxy part of a poll. */
  lemma DownPhaseScripts(w: World, input: PollInput)
    requires OneJob(w)
    ensures DownScripts(w, input, DownPhase(w, input))
  {
    var w1 := w.(down := w.down.(ipifyFails := if input.carrierOk then 0 else w.down.ipifyFails + 1));
    var downNow := w.connectPanes != {} && !RearmBlocked(w.down, true, input.carrierOk, input.now);
    if downNow && !w.down.active {
      StartScripts(w1, input);
    } else if !downNow && w.down.active {
      ClearScripts(w1, input);
    } else {
      StuckScripts(w1, DownPhase(w, input), input);
    }
    SameStart(w, w1, input, DownPhase(w, input));
  }

  /** What a recovery starts: a restart, or else a wait for another address, or else nothing. */
  function Started(cfg: Config, input: PollInput, from: Option<Ip>): seq<Job> {
    if cfg.useSmart && !input.smartCooldown && input.hooks.smart then [SmartRestart(from)]
    else if input.hooks.rotate then [WaitIp(from)]
    else []
  }

  /** What the rate-limit part may do to scripts and to the dead-proxy part. */
  ghost predicate RateScripts(cfg: Config, w: World, input: PollInput, w': World) {
    && (if Logs(w.log, w'.log, OcRecovery) then
          w.jobs == [] && w'.jobs == Started(cfg, input, if input.ip.Some? then input.ip else w.down.startIp)
        else w'.jobs == w.jobs)
    && w'.down == w.down
    && !Logs(w.log, w'.log, ProxyUpRun) && !Logs(w.log, w'.log, DownStart) && !Logs(w.log, w'.log, DownClear)
  }

  lemma RecoveryStarts(cfg: Config, w: World, input: PollInput)
    requires OneJob(w)
    ensures RateScripts(cfg, w, input, RunOcRecovery(cfg, w, input))
  {
    var w' := RunOcRecovery(cfg, w, input);
    if w'.log != w.log {
      assert w'.log[|w.log|].what == OcRecovery;
    }
  }

  lemma NotedBefore(cfg: Config, w: World, noted: World, input: PollInput, w': World)
    requires noted.jobs == w.jobs && noted.down == w.down && |noted.log| == |w.log| + 2
    requires noted.log[|w.log|].what == LimitSeen && noted.log[|w.log| + 1].what == OcStart
    requires |w'.log| >= |noted.log| && w'.log[..|noted.log|] == noted.log
    requires RateScripts(cfg, noted, input, w')
    ensures RateScripts(cfg, w, input, w')
  {
    assert w'.log[|w.log|] == noted.log[|w.log|] && w'.log[|w.log| + 1] == noted.log[|w.log| + 1];
  }

  lemma RecoveryKeepsLog(cfg: Config, w: World, input: PollInput)
    ensures var w' := RunOcRecovery(cfg, w, input); |w'.log| >= |w.log| && w'.log[..|w.log|] == w.log
  {
  }

  /** The rate-limit part of a poll. */
  lemma RatePhaseScripts(cfg: Config, w: World, input: PollInput, anyRate: bool)
    requires OneJob(w)
    ensures RateScripts(cfg, w, input, RatePhase(cfg, w, input, anyRate))
  {
    var w' := RatePhase(cfg, w, input, anyRate);
    if anyRate && !w.oc.episode {
      var oc := w.oc.(lastSeenAt := input.now, episode := true);
      var noted := Note(Note(w.(oc := oc), input.now, LimitSeen), input.now, OcStart);
      RecoveryStarts(cfg, noted, input);
      RecoveryKeepsLog(cfg, noted, input);
      NotedBefore(cfg, w, noted, input, w');
    } else {
      assert |w'.log| <= |w.log| + 1;
      assert |w'.log| > |w.log| ==> w'.log[|w.log|].what == LimitSeen || w'.log[|w.log|].what == OcGraceEnd;
    }
  }

  /** The whole poll, on what its dead-proxy part and its rate-limit part log. */
  ghost predicate PollScripts(cfg: Config, w: World, input: PollInput, w': World) {
    var start := if Logs(w.log, w'.log, DownStart) then input.ip
                 else if Logs(w.log, w'.log, DownClear) then None else w.down.startIp;
    && w'.down.startIp == start
    && w'.jobs == (if Logs(w.log, w'.log, OcRecovery) then
                     Started(cfg, input, if input.ip.Some? then input.ip else start)
                   else if Logs(w.log, w'.log, ProxyUpRun) && input.hooks.up then [ProxyUp]
                   else w.jobs)
    && (Logs(w.log, w'.log, OcRecovery) || Logs(w.log, w'.log, ProxyUpRun) ==> w.jobs == [])
  }

  lemma JoinAll(a: seq<Entry>, b: seq<Entry>, c: seq<Entry>)
    requires Extends(a, b) && Extends(b, c)
    ensures forall what :: Logs(a, c, what) <==> Logs(a, b, what) || Logs(b, c, what)
  {
    forall what
      ensures Logs(a, c, what) <==> Logs(a, b, what) || Logs(b, c, what)
    {
      LogsJoin(a, b, c, what);
    }
  }

  lemma UnlockedPoll(cfg: Config, w: World, input: PollInput, anyRate: bool)
    requires OneJob(w)
    ensures PollScripts(cfg, w, input, RatePhase(cfg, DownPhase(w, input), input, anyRate))
    ensures Extends(w.log, RatePhase(cfg, DownPhase(w, input), input, anyRate).log)
  {
    var w1 := DownPhase(w, input);
    var w2 := RatePhase(cfg, w1, input, anyRate);
    DownPhaseScripts(w, input);
    DownPhaseKeepsOneJob(w, input);
    RatePhaseScripts(cfg, w1, input, anyRate);
    DownPhaseExtends(w, input);
    RatePhaseExtends(cfg, w1, input, anyRate);
    JoinAll(w.log, w1.log, w2.log);
    ExtendsTransitive(w.log, w1.log, w2.log);
  }

  lemma LockedPoll(cfg: Config, w: World, input: PollInput)
    ensures var w' := Note(w.(down := w.down.(active := false)), input.now, DownSuppressed);
            PollScripts(cfg, w, input, w') && Extends(w.log, w'.log)
    ensures PollScripts(cfg, w, input, w) && Extends(w.log, w.log)
  {
    var w' := Note(w.(down := w.down.(active := false)), input.now, DownSuppressed);
    assert w'.log[|w.log|].what == DownSuppressed;
  }

  lemma ScannedFirst(cfg: Config, w: World, scanned: World, input: PollInput, w': World)
    requires scanned.jobs == w.jobs && scanned.down == w.down && Extends(w.log, scanned.log)
    requires forall what: What :: Logs(w.log, scanned.log, what) ==> what.Rise?
    requires PollScripts(cfg, scanned, input, w') && Extends(scanned.log, w'.log)
    ensures PollScripts(cfg, w, input, w')
  {
    JoinAll(w.log, scanned.log, w'.log);
  }

  lemma PollStepScripts(cfg: Config, w: World, input: PollInput)
    requires OneJob(w)
    ensures PollScripts(cfg, w, input, PollStep(cfg, w, input))
  {
    if cfg.enabled {
      var w1 := Observe(cfg, w, input);
      RisesComeFirst(cfg, w, input);
      forall what: What | !what.Rise?
        ensures !Logs(w.log, w1.log, what)
      {
        ScanLogsNothing(cfg, w, input, what);
      }
      LockedPoll(cfg, w1, input);
      UnlockedPoll(cfg, w1, input, AnyRateLimit(w1.tables.cache, LiveIds(input.panes)));
      ScannedFirst(cfg, w, w1, input, PollStep(cfg, w, input));
    }
  }

  lemma OtherStepScripts(cfg: Config, w: World, e: Event)
    requires !e.Poll?
    ensures var w' := Step(cfg, w, e);
            !Logs(w.log, w'.log, DownStart) && !Logs(w.log, w'.log, DownClear) && w'.down.startIp == w.down.startIp
  {
    var w' := Step(cfg, w, e);
    assert |w'.log| <= |w.log| + 1;
    assert |w'.log| > |w.log| ==> w'.log[|w.log|].what == Wave || w'.log[|w.log|].what == OcBannerEnd;
  }

  lemma AlwaysOneJob(cfg: Config, es: seq<Event>)
    ensures OneJob(Run(cfg, es))
  {
    RunningMeansOneScript(cfg, es);
  }

  /** The stored start address is that of the log. */
  lemma {:induction false} StartAddressIsStored(cfg: Config, es: seq<Event>)
    ensures Run(cfg, es).down.startIp == StartAddress(cfg, es)
  {
    if es != [] {
      var past, e := es[..|es| - 1], es[|es| - 1];
      var w := Run(cfg, past);
      StartAddressIsStored(cfg, past);
      RunStep(cfg, es);
      if e.Poll? {
        AlwaysOneJob(cfg, past);
        PollStepScripts(cfg, w, e.input);
      } else {
        OtherStepScripts(cfg, w, e);
      }
    }
  }

  /**
   * What a poll leaves in flight, on every run. One that begins a recovery finds no script and has
   * started a restart exactly when the policy asks for it, no cooldown is left and the script is
   * there; otherwise a wait for another address, if that script is there; otherwise nothing. The
   * address it starts from is the carrier's now, or else that of the start of the dead-proxy
   * episode. One that begins none has started the proxy-up script if it logged that and the
   * script is there, and has otherwise left what was in flight.
   */
  lemma ScriptOfRecovery(cfg: Config, es: seq<Event>, input: PollInput)
    ensures var all := es + [Poll(input)];
            var before, after := Run(cfg, es).jobs, Run(cfg, all).jobs;
            var from := if input.ip.Some? then input.ip else StartAddress(cfg, all);
            && (LastLogs(cfg, all, OcRecovery) ==>
                  && before == []
                  && ((exists a :: SmartRestart(a) in after) <==>
                        cfg.useSmart && !input.smartCooldown && input.hooks.smart)
                  && ((exists a :: WaitIp(a) in after) <==>
                        input.hooks.rotate && !(cfg.useSmart && !input.smartCooldown && input.hooks.smart))
                  && ProxyUp !in after && (forall a :: SmartRestart(a) in after || WaitIp(a) in after ==> a == from))
            && (!LastLogs(cfg, all, OcRecovery) ==>
                  after == if LastLogs(cfg, all, ProxyUpRun) && input.hooks.up then [ProxyUp] else before)
  {
    var all := es + [Poll(input)];
    assert all[..|all| - 1] == es;
    RunStep(cfg, all);
    AlwaysOneJob(cfg, es);
    PollStepScripts(cfg, Run(cfg, es), input);
    StartAddressIsStored(cfg, all);
    InFlight(cfg, input, if input.ip.Some? then input.ip else StartAddress(cfg, all));
  }

  lemma InFlight(cfg: Config, input: PollInput, from: Option<Ip>)
    ensures var after, smart := Started(cfg, input, from), cfg.useSmart && !input.smartCooldown && input.hooks.smart;
            && ((exists a :: SmartRestart(a) in after) <==> smart)
            && ((exists a :: WaitIp(a) in after) <==> input.hooks.rotate && !smart)
            && ProxyUp !in after && (forall a :: SmartRestart(a) in after || WaitIp(a) in after ==> a == from)
  {
    var after := Started(cfg, input, from);
    assert after != [] ==> after[0] in after;
  }

  /** With the policy off no script that restarts the proxy is ever in flight. */
  lemma {:induction false} SmartOffNeverRestarts(cfg: Config, es: seq<Event>)
    requires !cfg.useSmart
    ensures forall j :: j in Run(cfg, es).jobs ==> !j.SmartRestart?
  {
    if es != [] {
      var past, e := es[..|es| - 1], es[|es| - 1];
      SmartOffNeverRestarts(cfg, past);
      RunStep(cfg, es);
      if e.Poll? {
        AlwaysOneJob(cfg, past);
        PollStepScripts(cfg, Run(cfg, past), e.input);
      } else {
        OtherStepNoRestart(cfg, Run(cfg, past), e);
      }
    }
  }

  lemma OtherStepNoRestart(cfg: Config, w: World, e: Event)
    requires !e.Poll? && forall j :: j in w.jobs ==> !j.SmartRestart?
    ensures forall j :: j in Step(cfg, w, e).jobs ==> !j.SmartRestart?
  {
  }
}
