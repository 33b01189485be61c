/**
 * Connectivity recovery: the limit cache, the connect streaks, the two episode machines and the
 * scripts they start. Each poll is a pure step over `World`; screens, the cached carrier probe,
 * the carrier address, the clock, exit codes and which scripts exist are inputs. One poll reads
 * the clock once. Times are in milliseconds.
 */
module Connectivity {
  import opened Basics

  const PROXY_UP_COOLDOWN_MS := 60_000
  const PROXY_DOWN_REARM_COOLDOWN_MS := 90_000
  const ROTATE_COOLDOWN_MS := 180_000
  const RATE_LIMIT_EPISODE_CLEAR_MS := 120_000
  const PROXY_DOWN_STUCK_NOTIFY_MS := 120_000
  const PANE_SCAN_BATCH := 4
  const SMART_RESTART_COOLDOWN_EXIT_CODE := 2

  type PaneId = string
  type Ip = string

  /**
   * What one capture of a pane shows. `LimitScreen` says whether its kind counts as a dead proxy, as a
   * rate limit, or neither.
   */
  datatype Reading =
    | NoSnapshot
    | Unmonitored
    | CcLimit
    | CursorLimit
    | KiroLimit
    | Healthy
    | LimitScreen(connect: bool, rate: bool)

  datatype Pane = Pane(id: PaneId, reading: Reading)

  datatype Flags = Flags(connect: bool, rate: bool)

  /** Keys of the seen set: the plain pane id, or the pane id with a suffix. */
  datatype Mark = CcMark(pane: PaneId) | CursorMark(pane: PaneId) | KiroMark(pane: PaneId)

  datatype Tables = Tables(cache: map<PaneId, Flags>, streak: map<PaneId, nat>, seen: set<Mark>)

  datatype Down = Down(
    active: bool,
    startAt: int,
    stuckNotified: bool,
    startIp: Option<Ip>,
    ipifyFails: nat,
    lastClearAt: int,
    lastProxyUpAt: int)

  datatype Oc = Oc(episode: bool, lastSeenAt: int, started: bool, lastRotateAt: int)

  datatype Job = ProxyUp | SmartRestart(from: Option<Ip>) | WaitIp(from: Option<Ip>)

  datatype What =
    | DownStart
    | DownSuppressed
    | DownClear
    | DownStuck
    | ProxyUpRun
    | LimitSeen
    | OcStart
    | OcRecovery
    | OcGraceEnd
    | OcBannerEnd
    | Wave
    | Rise(mark: Mark)

  datatype Entry = Entry(at: int, what: What)

  datatype World = World(
    tables: Tables,
    offset: nat,
    ocLimited: set<PaneId>,
    connectPanes: set<PaneId>,
    down: Down,
    oc: Oc,
    running: bool,
    jobs: seq<Job>,
    log: seq<Entry>)

  const START := World(Tables(map[], map[], {}), 0, {}, {},
                       Down(false, 0, false, None, 0, 0, 0), Oc(false, 0, false, 0), false, [], [])

  datatype Config = Config(enabled: bool, connectThreshold: int, useSmart: bool)

  /** `upSet` is whether the proxy-up hook is configured; the others whether the script is there. */
  datatype Hooks = Hooks(upSet: bool, up: bool, rotate: bool, smart: bool)

  datatype PollInput = PollInput(
    now: int,
    panes: seq<Pane>,
    wifiLock: bool,
    carrierOk: bool,
    ip: Option<Ip>,
    smartCooldown: bool,
    hooks: Hooks)

  datatype Event =
    | Poll(input: PollInput)
    | ScriptDone(now: int, which: nat, code: int, ipAfter: Option<Ip>, hooks: Hooks)
    | ResumeAck(now: int, pane: PaneId)

  function TimeOf(e: Event): int {
    match e
    case Poll(input) => input.now
    case ScriptDone(now, _, _, _, _) => now
    case ResumeAck(now, _) => now
  }

  function Note(w: World, now: int, what: What): World {
    w.(log := w.log + [Entry(now, what)])
  }

  // ---------------------------------------------------------------------------
  // Scanning panes
  // ---------------------------------------------------------------------------

  function LiveIds(panes: seq<Pane>): (r: set<PaneId>)
    ensures forall k :: 0 <= k < |panes| ==> panes[k].id in r
  {
    set k | 0 <= k < |panes| :: panes[k].id
  }

  /** Suffixed marks are never pane ids, so pruning drops them all. */
  function Prune(t: Tables, live: set<PaneId>): Tables {
    Tables(map p | p in t.cache && p in live :: t.cache[p],
           map p | p in t.streak && p in live :: t.streak[p],
           set m | m in t.seen && m.CcMark? && m.pane in live)
  }

  /** The next panes in rotation, at most one batch. */
  function Batch(panes: seq<Pane>, offset: nat): seq<Pane> {
    if panes == [] then [] else seq(Min(PANE_SCAN_BATCH, |panes|), i requires 0 <= i => panes[(offset + i) % |panes|])
  }

  function NextOffset(panes: seq<Pane>, offset: nat): nat {
    if panes == [] then offset else (offset + |Batch(panes, offset)|) % |panes|
  }

  function StreakOf(t: Tables, id: PaneId): nat {
    if id in t.streak then t.streak[id] else 0
  }

  function ScanLimit(cfg: Config, t: Tables, id: PaneId, connect: bool, rate: bool): Tables {
    var streak := StreakOf(t, id) + 1;
    var confirmed := connect && streak >= Max(1, cfg.connectThreshold);
    Tables(if confirmed || rate then t.cache[id := Flags(confirmed, rate)] else t.cache - {id},
           if connect then t.streak[id := streak] else t.streak - {id},
           t.seen)
  }

  function ScanOne(cfg: Config, t: Tables, pane: Pane): Tables {
    match pane.reading
    case NoSnapshot => t.(cache := t.cache - {pane.id})
    case Unmonitored => t.(cache := t.cache - {pane.id})
    case CcLimit => t.(seen := t.seen + {CcMark(pane.id)})
    case CursorLimit => t.(seen := t.seen + {CursorMark(pane.id)})
    case KiroLimit => t.(seen := t.seen + {KiroMark(pane.id)})
    case Healthy => Tables(t.cache - {pane.id}, t.streak - {pane.id}, t.seen - {CcMark(pane.id)})
    case LimitScreen(connect, rate) => ScanLimit(cfg, t, pane.id, connect, rate)
  }

  /** The mark a reading raises when it was not seen before. */
  function MarkOf(pane: Pane): Option<Mark> {
    match pane.reading
    case CcLimit => Some(CcMark(pane.id))
    case CursorLimit => Some(CursorMark(pane.id))
    case KiroLimit => Some(KiroMark(pane.id))
    case _ => None
  }

  function Rises(t: Tables, pane: Pane, now: int): seq<Entry> {
    var m := MarkOf(pane);
    if m.Some? && m.value !in t.seen then [Entry(now, Rise(m.value))] else []
  }

  function ScanAll(cfg: Config, t: Tables, panes: seq<Pane>): Tables {
    if panes == [] then t
    else ScanOne(cfg, ScanAll(cfg, t, panes[..|panes| - 1]), panes[|panes| - 1])
  }

  function AllRises(cfg: Config, t: Tables, panes: seq<Pane>, now: int): seq<Entry> {
    if panes == [] then []
    else
      var init := panes[..|panes| - 1];
      AllRises(cfg, t, init, now) + Rises(ScanAll(cfg, t, init), panes[|panes| - 1], now)
  }

  function ConnectIn(cache: map<PaneId, Flags>): set<PaneId> {
    set p | p in cache && cache[p].connect
  }

  /** A pane cached with both flags counts as a dead proxy, not as a rate limit. */
  predicate AnyRateLimit(cache: map<PaneId, Flags>, live: set<PaneId>) {
    exists p :: p in cache && p in live && !cache[p].connect && cache[p].rate
  }

  predicate AnyRateFlag(cache: map<PaneId, Flags>) {
    exists p :: p in cache && cache[p].rate
  }

  /** Prune, scan one batch and rebuild the two pane sets from the cache. */
  function Observe(cfg: Config, w: World, input: PollInput): World {
    var live := LiveIds(input.panes);
    var pruned := Prune(w.tables, live);
    var batch := Batch(input.panes, w.offset);
    var scanned := ScanAll(cfg, pruned, batch);
    w.(tables := scanned,
       offset := NextOffset(input.panes, w.offset),
       ocLimited := scanned.cache.Keys * live,
       connectPanes := ConnectIn(scanned.cache) * live,
       log := w.log + AllRises(cfg, pruned, batch, input.now))
  }

  // ---------------------------------------------------------------------------
  // The dead-proxy episode
  // ---------------------------------------------------------------------------

  function RunProxyUp(w: World, now: int, hooks: Hooks): World {
    if w.running || now - w.down.lastProxyUpAt < PROXY_UP_COOLDOWN_MS || !hooks.upSet then w
    else
      Note(w.(running := hooks.up,
              down := w.down.(lastProxyUpAt := now),
              jobs := if hooks.up then w.jobs + [ProxyUp] else w.jobs),
           now, ProxyUpRun)
  }

  predicate RearmBlocked(d: Down, anyConnect: bool, carrierOk: bool, now: int) {
    !d.active && anyConnect && carrierOk && now - d.lastClearAt < PROXY_DOWN_REARM_COOLDOWN_MS
  }

  /** The rewrite of the cache when an episode clears. */
  function DropConnectFlags(cache: map<PaneId, Flags>): map<PaneId, Flags> {
    map p | p in cache && cache[p].rate :: Flags(false, true)
  }

  function StartDown(w: World, input: PollInput): World {
    RunProxyUp(Note(w.(down := w.down.(active := true, startIp := input.ip,
                                   startAt := input.now, stuckNotified := false)),
                    input.now, DownStart),
               input.now, input.hooks)
  }

  function ClearDown(w: World, now: int): World {
    Note(Note(w.(down := w.down.(active := false, startIp := None, startAt := 0, stuckNotified := false,
                                 ipifyFails := 0, lastClearAt := now),
                 tables := w.tables.(streak := map[], cache := DropConnectFlags(w.tables.cache))),
              now, DownClear),
         now, Wave)
  }

  predicate StuckDue(d: Down, now: int) {
    !d.stuckNotified && d.startAt != 0 && now - d.startAt >= PROXY_DOWN_STUCK_NOTIFY_MS
  }

  function DownPhase(w: World, input: PollInput): World {
    var anyConnect := w.connectPanes != {};
    var w1 := w.(down := w.down.(ipifyFails := if input.carrierOk then 0 else w.down.ipifyFails + 1));
    var downNow := anyConnect && !RearmBlocked(w.down, anyConnect, input.carrierOk, input.now);
    if downNow && !w.down.active then StartDown(w1, input)
    else if !downNow && w.down.active then ClearDown(w1, input.now)
    else if downNow && StuckDue(w.down, input.now) then
      Note(w1.(down := w1.down.(stuckNotified := true)), input.now, DownStuck)
    else w1
  }

  // ---------------------------------------------------------------------------
  // The rate-limit episode
  // ---------------------------------------------------------------------------

  datatype Action = Begin | Continue | Clear | Nothing

  function UpdateEpisode(oc: Oc, anyRateNow: bool, now: int): (Oc, Action) {
    if anyRateNow then
      (oc.(lastSeenAt := now, episode := true), if oc.episode then Continue else Begin)
    else if oc.episode && now - oc.lastSeenAt > RATE_LIMIT_EPISODE_CLEAR_MS then
      (oc.(episode := false), Clear)
    else
      (oc, Nothing)
  }

  function LaunchWaitIp(w: World, from: Option<Ip>, hooks: Hooks): World {
    if hooks.rotate then w.(jobs := w.jobs + [WaitIp(from)]) else w.(running := false)
  }

  predicate RotateCooling(oc: Oc, now: int) {
    oc.lastRotateAt > 0 && now - oc.lastRotateAt < ROTATE_COOLDOWN_MS
  }

  function RunOcRecovery(cfg: Config, w: World, input: PollInput): World {
    if w.running || w.oc.started || RotateCooling(w.oc, input.now) then w
    else
      var from := if input.ip.Some? then input.ip else w.down.startIp;
      var w1 := Note(w.(running := true, oc := w.oc.(started := true, lastRotateAt := input.now)),
                    input.now, OcRecovery);
      if !cfg.useSmart || input.smartCooldown || !input.hooks.smart then LaunchWaitIp(w1, from, input.hooks)
      else w1.(jobs := w1.jobs + [SmartRestart(from)])
  }

  function RatePhase(cfg: Config, w: World, input: PollInput, anyRateNow: bool): World {
    var (oc, action) := UpdateEpisode(w.oc, anyRateNow, input.now);
    var w1 := if anyRateNow then Note(w.(oc := oc), input.now, LimitSeen) else w.(oc := oc);
    match action
    case Begin =>
      var w2 := Note(w1, input.now, OcStart);
      if w2.oc.started then w2 else RunOcRecovery(cfg, w2, input)
    case Clear => Note(w1.(oc := w1.oc.(started := false)), input.now, OcGraceEnd)
    case Continue => w1
    case Nothing => w1
  }

  // ---------------------------------------------------------------------------
  // Steps
  // ---------------------------------------------------------------------------

  function PollStep(cfg: Config, w: World, input: PollInput): World {
    if !cfg.enabled then w
    else
      var w1 := Observe(cfg, w, input);
      if input.wifiLock then
        if w1.down.active then Note(w1.(down := w1.down.(active := false)), input.now, DownSuppressed) else w1
      else
        RatePhase(cfg, DownPhase(w1, input), input, AnyRateLimit(w1.tables.cache, LiveIds(input.panes)))
  }

  predicate ChainsToWaitIp(code: int, before: Option<Ip>, after: Option<Ip>) {
    code == SMART_RESTART_COOLDOWN_EXIT_CODE || after.None? || before == after || code != 0
  }

  predicate IpChanged(before: Option<Ip>, after: Option<Ip>) {
    before.Some? && after.Some? && before != after
  }

  function Finish(w: World, now: int, from: Option<Ip>, to: Option<Ip>, forced: bool): World {
    var w1 := w.(running := false);
    if IpChanged(from, to) || forced then Note(w1, now, Wave) else w1
  }

  function ScriptStep(w: World, now: int, which: nat, code: int, ipAfter: Option<Ip>, hooks: Hooks): World {
    if which >= |w.jobs| then w
    else
      var w1 := w.(jobs := w.jobs[..which] + w.jobs[which + 1..]);
      match w.jobs[which]
      case ProxyUp => w1.(running := false)
      case WaitIp(from) => Finish(w1, now, from, ipAfter, code == 0)
      case SmartRestart(from) =>
        if ChainsToWaitIp(code, from, ipAfter) then LaunchWaitIp(w1, from, hooks)
        else Finish(w1, now, from, ipAfter, false)
  }

  function ClearBanner(w: World, pane: PaneId): World {
    w.(tables := w.tables.(cache := w.tables.cache - {pane}, streak := w.tables.streak - {pane}),
       ocLimited := w.ocLimited - {pane},
       connectPanes := w.connectPanes - {pane})
  }

  function EndRateEpisode(w: World, now: int): World {
    if AnyRateFlag(w.tables.cache) || (!w.oc.episode && !w.oc.started) then w
    else Note(w.(oc := w.oc.(episode := false, started := false, lastSeenAt := 0)), now, OcBannerEnd)
  }

  /** A pane confirmed working again: its banner goes, and the episode ends with the last one. */
  function AckStep(w: World, now: int, pane: PaneId): World {
    var had := pane in w.tables.cache || pane in w.ocLimited || pane in w.connectPanes;
    var w1 := ClearBanner(w, pane);
    if had then EndRateEpisode(w1, now) else w1
  }

  function Step(cfg: Config, w: World, e: Event): World {
    match e
    case Poll(input) => PollStep(cfg, w, input)
    case ScriptDone(now, which, code, ipAfter, hooks) => ScriptStep(w, now, which, code, ipAfter, hooks)
    case ResumeAck(now, pane) => AckStep(w, now, pane)
  }

  function Run(cfg: Config, es: seq<Event>): World {
    if es == [] then START else Step(cfg, Run(cfg, es[..|es| - 1]), es[|es| - 1])
  }

  /** Times along a run are positive and never go back. */
  ghost predicate ClockRuns(es: seq<Event>) {
    && (forall i :: 0 <= i < |es| ==> TimeOf(es[i]) > 0)
    && (forall i, j :: 0 <= i < j < |es| ==> TimeOf(es[i]) <= TimeOf(es[j]))
  }

  lemma RunStep(cfg: Config, es: seq<Event>)
    requires es != []
    ensures Run(cfg, es) == Step(cfg, Run(cfg, es[..|es| - 1]), es[|es| - 1])
  {
  }

  lemma ClockPrefix(es: seq<Event>)
    requires es != [] && ClockRuns(es)
    ensures ClockRuns(es[..|es| - 1])
  {
  }

  /** A finished script touches neither episode, and logs at most a resume wave. */
  lemma ScriptStepFrame(w: World, now: int, which: nat, code: int, after: Option<Ip>, hooks: Hooks)
    ensures var w' := ScriptStep(w, now, which, code, after, hooks);
            w'.oc == w.oc && w'.down == w.down && (w'.log == w.log || w'.log == w.log + [Entry(now, Wave)])
  {
  }
}
