/**
 * Checkbacks: which due rows fire, in what order, what each fire comes to, and how long a row keeps
 * renewing. Times are in milliseconds; 0 stands for a missing or unreadable timestamp. What a fire
 * finds (its pane, the delivery, the campaign) is an input, its `Scene`.
 */
module Checkback {
  import opened Basics
  import opened StableOrder

  const CHECKBACK_MAX_FIRES := 3
  const CHECKBACK_FIRE_BUDGET := 6

  datatype Kind =
    | SecretarySupervise
    | BalanceLeadTick
    | CoordExpect
    | CcLimitRetry
    | CoordNudge
    | MeshWatch
    | ManagerNudge
    | OtherNudge(name: string)
    | Ordinary(name: string)

  /** `expects` says whether the row carries an expectation text; the recipient label is trimmed. */
  datatype Row = Row(active: bool, kind: Kind, expects: bool, recipient: string,
                     expiresAt: int, renewSec: int, fireCount: nat, createdAt: int)

  predicate UnboundedRenew(kind: Kind) {
    kind in {SecretarySupervise, BalanceLeadTick, CoordNudge, MeshWatch, ManagerNudge} || kind.OtherNudge?
  }

  function Cap(maxFires: int): int {
    if maxFires >= 1 then maxFires else CHECKBACK_MAX_FIRES
  }

  predicate ShouldRenew(row: Row, now: int, maxFires: int) {
    if row.renewSec <= 0 then false
    else if UnboundedRenew(row.kind) then true
    else if row.fireCount >= Cap(maxFires) then false
    else
      var created := if row.createdAt != 0 then row.createdAt else now;
      now - created < row.renewSec * 1000 * Cap(maxFires)
  }

  function Priority(kind: Kind): int {
    match kind
    case SecretarySupervise => 0
    case BalanceLeadTick => 1
    case CoordExpect => 2
    case CcLimitRetry => 2
    case MeshWatch => 2
    case CoordNudge => 3
    case OtherNudge(_) => 3
    case ManagerNudge => 10
    case Ordinary(_) => 10
  }

  predicate Due(row: Row, now: int) {
    row.active && row.expiresAt != 0 && row.expiresAt <= now
  }

  function Keys(rows: seq<Row>): (r: seq<Key>)
    ensures |r| == |rows|
    ensures forall i :: 0 <= i < |rows| ==> r[i] == Key(Priority(rows[i].kind), rows[i].expiresAt)
  {
    seq(|rows|, i requires 0 <= i < |rows| => Key(Priority(rows[i].kind), rows[i].expiresAt))
  }

  /** Positions of the due rows among the first n. */
  function DueAmong(rows: seq<Row>, now: int, n: nat): (r: seq<nat>)
    requires n <= |rows|
    ensures forall x: nat :: x in r <==> x < n && Due(rows[x], now)
    ensures forall k :: 0 <= k < |r| ==> r[k] < n
    ensures Ascending(r)
  {
    if n == 0 then []
    else
      var init := DueAmong(rows, now, n - 1);
      if Due(rows[n - 1], now) then init + [n - 1] else init
  }

  function SortDue(rows: seq<Row>, now: int): (r: seq<nat>)
    ensures InTable(Keys(rows), r)
  {
    Sort(Keys(rows), DueAmong(rows, now, |rows|))
  }

  function BumpSec(renewSec: int): int {
    Min(Max(if renewSec > 0 then renewSec else 180, 30), 90)
  }

  function Defer(row: Row, now: int): Row {
    row.(expiresAt := now + BumpSec(row.renewSec) * 1000)
  }

  /** Where the owner pane of a row is found: nowhere to look, gone, in another mesh, or ours. */
  datatype Owner = NoOwner | Gone | Foreign | Bound

  /**
   * What one fire finds: its owner pane, the overload gate, the campaign of a mesh watch, the role of
   * the pane, the lead of a nudge, the session of a limit retry, the expectation of a coordinator,
   * and whether the delivery (or the supervise or balance tick) succeeds.
   */
  datatype Scene = Scene(
    owner: Owner, blocked: bool, allDone: bool, paneRole: string,
    leadPane: bool, openTasks: bool, leadIdle: bool,
    sameSession: bool, met: bool, delivered: bool)

  /**
   * `Skipped` is a fire that gives up without touching the row; a one-shot fire clears renewSec first;
   * `HeldButRenewed` is deferred and then goes on to renewal all the same.
   */
  datatype Outcome = Held | HeldButRenewed | Cancelled | Skipped | Fired(oneShot: bool)

  predicate Nudge(kind: Kind) {
    kind.CoordNudge? || kind.OtherNudge?
  }

  function HeldUnless(delivered: bool, oneShot: bool): Outcome {
    if delivered then Fired(oneShot) else Held
  }

  function NudgeOutcome(row: Row, s: Scene): Outcome {
    if row.recipient == "" && s.paneRole == "" then Skipped
    else if s.leadPane && s.openTasks && s.leadIdle then HeldUnless(s.delivered, false)
    else Fired(false)
  }

  /** What a fire comes to once its pane is bound and the overload gate lets it through. */
  function KindOutcome(row: Row, s: Scene): Outcome {
    match row.kind
    case MeshWatch => if s.allDone then Cancelled else Fired(false)
    case ManagerNudge => Cancelled
    case CoordNudge => NudgeOutcome(row, s)
    case OtherNudge(_) => NudgeOutcome(row, s)
    case SecretarySupervise => HeldUnless(s.delivered, false)
    case CcLimitRetry => if s.sameSession && !s.delivered then Held else Cancelled
    case CoordExpect =>
      if !row.expects then HeldUnless(s.delivered, true)
      else if s.met then Cancelled
      else if s.delivered then Fired(true)
      else HeldButRenewed
    case BalanceLeadTick => HeldUnless(s.delivered, false)
    case Ordinary(_) => HeldUnless(s.delivered, true)
  }

  function OutcomeOf(row: Row, s: Scene): Outcome {
    if s.owner.Gone? then Held
    else if !s.owner.Bound? then Cancelled
    else if s.blocked && !row.kind.ManagerNudge? then Held
    else KindOutcome(row, s)
  }

  /** The fire leaves the row as it is. */
  predicate GivesUp(row: Row, s: Scene) {
    OutcomeOf(row, s).Skipped?
  }

  function AfterFire(row: Row, now: int, maxFires: int): Row {
    if ShouldRenew(row.(fireCount := row.fireCount + 1), now, maxFires) then
      row.(fireCount := row.fireCount + 1, expiresAt := now + row.renewSec * 1000)
    else row.(active := false)
  }

  function Settle(row: Row, o: Outcome, now: int, maxFires: int): Row {
    match o
    case Held => Defer(row, now)
    case HeldButRenewed => AfterFire(Defer(row, now), now, maxFires)
    case Cancelled => row.(active := false)
    case Skipped => row
    case Fired(oneShot) => AfterFire(if oneShot then row.(renewSec := 0) else row, now, maxFires)
  }

  function FireRow(row: Row, s: Scene, now: int, maxFires: int): Row {
    Settle(row, OutcomeOf(row, s), now, maxFires)
  }

  /** Fire the listed rows one after the other. */
  function FireAll(rows: seq<Row>, which: seq<nat>, scenes: seq<Scene>, now: int, maxFires: int): (r: seq<Row>)
    requires |scenes| == |rows| && forall k :: 0 <= k < |which| ==> which[k] < |rows|
    ensures |r| == |rows|
  {
    if which == [] then rows
    else
      var before := FireAll(rows, which[..|which| - 1], scenes, now, maxFires);
      var i := which[|which| - 1];
      before[i := FireRow(before[i], scenes[i], now, maxFires)]
  }

  lemma FireAllNext(rows: seq<Row>, which: seq<nat>, n: nat, scenes: seq<Scene>, now: int, maxFires: int)
    requires |scenes| == |rows| && n < |which| && forall k :: 0 <= k < |which| ==> which[k] < |rows|
    ensures var before := FireAll(rows, which[..n], scenes, now, maxFires);
            FireAll(rows, which[..n + 1], scenes, now, maxFires)
            == before[which[n] := FireRow(before[which[n]], scenes[which[n]], now, maxFires)]
  {
    assert which[..n + 1][..n] == which[..n];
  }

  function Picked(rows: seq<Row>, now: int): (r: seq<nat>)
    ensures forall k :: 0 <= k < |r| ==> r[k] < |rows|
  {
    SortDue(rows, now)[..Min(CHECKBACK_FIRE_BUDGET, |SortDue(rows, now)|)]
  }

  function Tick(rows: seq<Row>, scenes: seq<Scene>, now: int, maxFires: int): (r: seq<Row>)
    requires |scenes| == |rows|
    ensures |r| == |rows|
  {
    FireAll(rows, Picked(rows, now), scenes, now, maxFires)
  }

  // ---------------------------------------------------------------------------
  // The order of a tick
  // ---------------------------------------------------------------------------

  /** The fire order holds exactly the due rows, each once, by (priority, expiry, position). */
  lemma DueOrder(rows: seq<Row>, now: int)
    ensures Ordered(Keys(rows), SortDue(rows, now))
    ensures forall x: nat :: x in SortDue(rows, now) <==> x < |rows| && Due(rows[x], now)
    ensures forall x: nat :: x in SortDue(rows, now) <==>
              x < |rows| && rows[x].active && rows[x].expiresAt != 0 && rows[x].expiresAt <= now
  {
    SortIsOrdered(Keys(rows), DueAmong(rows, now, |rows|));
  }

  /** The order by kind: supervise, balance, then expectation, retry and watch, then nudges, then the rest. */
  lemma OrderByKind(rows: seq<Row>, now: int, i: nat, j: nat)
    requires i < j < |SortDue(rows, now)|
    ensures var a, b := rows[SortDue(rows, now)[i]].kind, rows[SortDue(rows, now)[j]].kind;
            && (b == SecretarySupervise ==> a == SecretarySupervise)
            && (b == BalanceLeadTick ==> a in {SecretarySupervise, BalanceLeadTick})
            && (b in {CoordExpect, CcLimitRetry, MeshWatch} ==> !Nudge(a) && a != ManagerNudge && !a.Ordinary?)
            && (Nudge(b) ==> a != ManagerNudge && !a.Ordinary?)
  {
    DueOrder(rows, now);
    assert Before(Keys(rows), SortDue(rows, now)[i], SortDue(rows, now)[j]);
  }

  lemma FirstIsSmallest(keys: seq<Key>, order: seq<nat>, x: nat)
    requires InTable(keys, order) && Ordered(keys, order) && x in order
    ensures x < |keys| && keys[order[0]].major <= keys[x].major
  {
    var k :| 0 <= k < |order| && order[k] == x;
    assert k > 0 ==> Before(keys, order[0], order[k]);
  }

  /** While a secretary-supervise row is due, every tick fires one first. */
  lemma SuperviseGoesFirst(rows: seq<Row>, now: int, x: nat)
    requires x < |rows| && Due(rows[x], now) && rows[x].kind == SecretarySupervise
    ensures |Picked(rows, now)| > 0 && rows[Picked(rows, now)[0]].kind == SecretarySupervise
  {
    DueOrder(rows, now);
    FirstKind(rows, SortDue(rows, now), x);
  }

  lemma FirstKind(rows: seq<Row>, order: seq<nat>, x: nat)
    requires InTable(Keys(rows), order) && Ordered(Keys(rows), order) && x in order
    requires x < |rows| && rows[x].kind == SecretarySupervise
    ensures order != [] && order[0] < |rows| && rows[order[0]].kind == SecretarySupervise
  {
    FirstIsSmallest(Keys(rows), order, x);
  }

  lemma {:induction false} FireAllTouches(rows: seq<Row>, which: seq<nat>, scenes: seq<Scene>,
                                          now: int, maxFires: int)
    requires |scenes| == |rows| && forall k :: 0 <= k < |which| ==> which[k] < |rows|
    requires forall a, b :: 0 <= a < b < |which| ==> which[a] != which[b]
    ensures forall x: nat :: x < |rows| ==>
              FireAll(rows, which, scenes, now, maxFires)[x]
              == if x in which then FireRow(rows[x], scenes[x], now, maxFires) else rows[x]
  {
    if which != [] {
      var init, i := which[..|which| - 1], which[|which| - 1];
      FireAllTouches(rows, init, scenes, now, maxFires);
      assert i !in init;
      assert which == init + [i];
    }
  }

  /** Whatever a fire came to, short of giving up, its row is not due any more. */
  lemma FiredRowIsNotDue(row: Row, s: Scene, now: int, maxFires: int)
    requires !GivesUp(row, s)
    ensures !Due(FireRow(row, s, now, maxFires), now)
  {
  }

  /**
   * Only one fire gives up: a nudge that is bound and not blocked, with neither a recipient nor a
   * role of its pane. In particular a row without an owner pane is cancelled, and no other kind of
   * row ever stays as it is.
   */
  lemma GivesUpIff(row: Row, s: Scene)
    ensures GivesUp(row, s) <==>
              Nudge(row.kind) && s.owner.Bound? && !s.blocked && row.recipient == "" && s.paneRole == ""
    ensures s.owner.NoOwner? || s.owner.Foreign? ==> OutcomeOf(row, s) == Cancelled
  {
  }

  /** A row keeps what decides whether it gives up, and its place among the kinds. */
  predicate SameErrand(a: Row, b: Row) {
    a.kind == b.kind && a.recipient == b.recipient && a.expects == b.expects
  }

  lemma FireKeepsErrand(row: Row, s: Scene, now: int, maxFires: int)
    ensures SameErrand(row, FireRow(row, s, now, maxFires))
  {
  }

  /**
   * A coordinator expectation whose delivery is held is not tried again within 30 to 90 seconds like
   * the others: it waits for its whole renewal time, or is switched off if it has none left.
   */
  lemma HeldExpectationIsNotRetried(row: Row, s: Scene, now: int, maxFires: int)
    requires row.kind == CoordExpect && row.expects && s.owner.Bound? && !s.blocked && !s.met && !s.delivered
    ensures var r := FireRow(row, s, now, maxFires);
            if ShouldRenew(row.(fireCount := row.fireCount + 1), now, maxFires)
            then r.active == row.active && r.expiresAt == now + row.renewSec * 1000
            else !r.active
  {
  }

  // ---------------------------------------------------------------------------
  // What stands in the row after a fire
  // ---------------------------------------------------------------------------

  /** Tried again in 30 to 90 seconds, by its renewal time; in 90 when it has none. */
  predicate Retried(row: Row, r: Row, now: int) {
    && r == row.(expiresAt := r.expiresAt)
    && now + 30_000 <= r.expiresAt <= now + 90_000
    && (30 <= row.renewSec <= 90 ==> r.expiresAt == now + row.renewSec * 1000)
    && (0 < row.renewSec < 30 ==> r.expiresAt == now + 30_000)
    && (row.renewSec > 90 || row.renewSec <= 0 ==> r.expiresAt == now + 90_000)
  }

  /** Due again after its whole renewal time, one fire more on its count. */
  predicate Renewed(row: Row, r: Row, now: int) {
    r == row.(fireCount := row.fireCount + 1, expiresAt := now + row.renewSec * 1000)
  }

  /** Switched off; the renewal time may be cleared with it. */
  predicate SwitchedOff(row: Row, r: Row) {
    r == row.(active := false, renewSec := r.renewSec) && (r.renewSec == row.renewSec || r.renewSec == 0)
  }

  predicate RenewedOrOff(row: Row, r: Row, now: int) {
    if row.renewSec > 0 then Renewed(row, r, now) else SwitchedOff(row, r)
  }

  /** The pane of the row is found and the overload gate lets the fire through. */
  predicate GetsThrough(s: Scene) {
    s.owner.Bound? && !s.blocked
  }

  /** Fires that do not get to the kind of their row. */
  lemma EarlyEnd(row: Row, s: Scene, now: int, maxFires: int)
    ensures var r := FireRow(row, s, now, maxFires);
            && (s.owner.Gone? ==> Retried(row, r, now))
            && (s.owner.NoOwner? || s.owner.Foreign? ==> SwitchedOff(row, r))
            && (s.owner.Bound? && s.blocked && row.kind != ManagerNudge ==> Retried(row, r, now))
            && (s.owner.Bound? && row.kind == ManagerNudge ==> SwitchedOff(row, r))
  {
  }

  /** Supervise and balance ticks go on for as long as they have a renewal time. */
  lemma SuperviseRow(row: Row, s: Scene, now: int, maxFires: int)
    requires row.kind == SecretarySupervise || row.kind == BalanceLeadTick
    requires GetsThrough(s)
    ensures var r := FireRow(row, s, now, maxFires);
            if s.delivered then RenewedOrOff(row, r, now) else Retried(row, r, now)
  {
  }

  /** A mesh watch goes on until the campaign is done; no delivery holds it up. */
  lemma WatchRow(row: Row, s: Scene, now: int, maxFires: int)
    requires row.kind == MeshWatch && GetsThrough(s)
    ensures var r := FireRow(row, s, now, maxFires);
            if s.allDone then SwitchedOff(row, r) else RenewedOrOff(row, r, now)
  {
  }

  /** A nudge with a recipient is retried only when an idle lead with open tasks could not be reached. */
  lemma NudgeRow(row: Row, s: Scene, now: int, maxFires: int)
    requires Nudge(row.kind) && GetsThrough(s)
    ensures var r := FireRow(row, s, now, maxFires);
            if row.recipient == "" && s.paneRole == "" then r == row
            else if s.leadPane && s.openTasks && s.leadIdle && !s.delivered then Retried(row, r, now)
            else RenewedOrOff(row, r, now)
  {
  }

  /** A limit retry is over once it is delivered or its session is gone. */
  lemma LimitRetryRow(row: Row, s: Scene, now: int, maxFires: int)
    requires row.kind == CcLimitRetry && GetsThrough(s)
    ensures var r := FireRow(row, s, now, maxFires);
            if s.sameSession && !s.delivered then Retried(row, r, now) else SwitchedOff(row, r)
  {
  }

  /** A coordinator expectation is over once it is met or asked about. */
  lemma ExpectationRow(row: Row, s: Scene, now: int, maxFires: int)
    requires row.kind == CoordExpect && row.expects && GetsThrough(s)
    ensures var r := FireRow(row, s, now, maxFires);
            && (s.met || s.delivered ==> SwitchedOff(row, r))
            && (!s.met && !s.delivered ==> Renewed(row, r, now) || r.active == false)
  {
  }

  /** Every other row is one-shot: delivered once it is off, held it is retried. */
  lemma OneShotRow(row: Row, s: Scene, now: int, maxFires: int)
    requires row.kind.Ordinary? || (row.kind == CoordExpect && !row.expects)
    requires GetsThrough(s)
    ensures var r := FireRow(row, s, now, maxFires);
            if s.delivered then SwitchedOff(row, r) else Retried(row, r, now)
  {
  }

  /**
   * So the cap on fires and on age decides one case only: of the bounded rows none but a coordinator
   * expectation whose delivery is held is ever renewed.
   */
  lemma OnlyHeldExpectationIsCapped(row: Row, s: Scene, now: int, maxFires: int)
    requires row.active && !UnboundedRenew(row.kind) && Renewed(row, FireRow(row, s, now, maxFires), now)
    ensures row.kind == CoordExpect && row.expects && GetsThrough(s) && !s.met && !s.delivered
    ensures var cap := if maxFires >= 1 then maxFires else 3;
            row.renewSec > 0 && row.fireCount + 1 < cap
  {
  }

  lemma PickedDistinct(keys: seq<Key>, s: seq<nat>)
    requires InTable(keys, s) && Ordered(keys, s)
    ensures forall a, b :: 0 <= a < b < |s| ==> s[a] != s[b]
  {
    forall a, b | 0 <= a < b < |s|
      ensures s[a] != s[b]
    {
      assert Before(keys, s[a], s[b]);
    }
  }

  // ---------------------------------------------------------------------------
  // Renewal
  // ---------------------------------------------------------------------------

  ghost predicate SpacedBy(times: seq<int>, start: int, gapMs: int) {
    && (forall i :: 0 <= i < |times| ==> times[i] >= start)
    && (forall i :: 0 < i < |times| ==> times[i] - times[i - 1] >= gapMs)
  }

  lemma {:induction false} SpacedTimesGrow(times: seq<int>, start: int, gapMs: int, i: nat)
    requires SpacedBy(times, start, gapMs) && i < |times|
    ensures times[i] >= start + i * gapMs
  {
    if i > 0 {
      SpacedTimesGrow(times, start, gapMs, i - 1);
    }
  }

  lemma FactorBound(i: int, cap: int, gap: int)
    requires gap > 0 && i * gap < gap * cap
    ensures i < cap
  {
    if i >= cap {
      assert i * gap == cap * gap + (i - cap) * gap;
      NotNegative(i - cap, gap);
    }
  }

  lemma NotNegative(a: int, b: int)
    requires a >= 0 && b >= 0
    ensures a * b >= 0
  {
  }

  /**
   * A bounded row with a known creation time, fired at least renewSec apart: only its first cap
   * fires can renew it, whatever its stored fire counts say.
   */
  lemma OnlyFirstFiresRenew(row: Row, times: seq<int>, counts: seq<nat>, maxFires: int)
    requires !UnboundedRenew(row.kind) && row.createdAt != 0 && |counts| == |times|
    requires SpacedBy(times, row.createdAt, row.renewSec * 1000)
    ensures forall i :: 0 <= i < |times| && ShouldRenew(row.(fireCount := counts[i]), times[i], maxFires) ==>
              i < Cap(maxFires)
  {
    forall i | 0 <= i < |times| && ShouldRenew(row.(fireCount := counts[i]), times[i], maxFires)
      ensures i < Cap(maxFires)
    {
      SpacedTimesGrow(times, row.createdAt, row.renewSec * 1000, i);
      FactorBound(i, Cap(maxFires), row.renewSec * 1000);
    }
  }

  /** Without a readable creation time a row never ages out: only its stored count can stop it. */
  lemma UnknownAgeNeverExpires(row: Row, now: int, maxFires: int)
    requires row.createdAt == 0
    ensures ShouldRenew(row, now, maxFires)
            <==> row.renewSec > 0
                 && (UnboundedRenew(row.kind) || row.fireCount < if maxFires >= 1 then maxFires else 3)
  {
    if row.renewSec > 0 {
      assert row.renewSec * 1000 * Cap(maxFires) > 0;
    }
  }

  function FireTimes(row: Row, times: seq<int>, maxFires: int): Row {
    if times == [] then row
    else
      var before := FireTimes(row, times[..|times| - 1], maxFires);
      if before.active then AfterFire(before, times[|times| - 1], maxFires) else before
  }

  /** With its count stored, a bounded row is off for good after cap fires, at any times at all. */
  lemma {:induction false} CountedRowStops(row: Row, times: seq<int>, maxFires: int)
    requires !UnboundedRenew(row.kind)
    ensures var r := FireTimes(row, times, maxFires);
            && (r.active ==> r.fireCount == row.fireCount + |times|)
            && (r.active && times != [] ==> r.fireCount < Cap(maxFires))
            && r.kind == row.kind && r.renewSec == row.renewSec && r.createdAt == row.createdAt
            && (|times| >= Cap(maxFires) ==> !r.active)
  {
    if times != [] {
      CountedRowStops(row, times[..|times| - 1], maxFires);
    }
  }

  // ---------------------------------------------------------------------------
  // The loops of the program
  // ---------------------------------------------------------------------------

  method SortDueCheckbackIndices(rows: seq<Row>, now: int) returns (due: seq<nat>)
    ensures due == SortDue(rows, now)
  {
    due := [];
    for i := 0 to |rows|
      invariant due == DueAmong(rows, now, i)
    {
      if !rows[i].active {
        continue;
      }
      if rows[i].expiresAt == 0 || rows[i].expiresAt > now {
        continue;
      }
      due := due + [i];
    }
    due := Sort(Keys(rows), due);
  }

  method DeferCheckbackAfterFailedFire(rows: array<Row>, i: nat, now: int)
    requires i < rows.Length
    modifies rows
    ensures rows[..] == old(rows[..])[i := Defer(old(rows[i]), now)]
  {
    var renew := if rows[i].renewSec > 0 then rows[i].renewSec else 180;
    var bumpSec := Min(Max(renew, 30), 90);
    rows[i] := rows[i].(expiresAt := now + bumpSec * 1000);
  }

  method RenewOrCancel(rows: array<Row>, i: nat, now: int, maxFires: int)
    requires i < rows.Length
    modifies rows
    ensures rows[..] == old(rows[..])[i := AfterFire(old(rows[i]), now, maxFires)]
  {
    var row := rows[i];
    if ShouldRenew(row.(fireCount := row.fireCount + 1), now, maxFires) {
      rows[i] := row.(fireCount := row.fireCount + 1, expiresAt := now + row.renewSec * 1000);
    } else {
      rows[i] := row.(active := false);
    }
  }

  /** The branches of one fire. */
  method FireOne(rows: array<Row>, i: nat, s: Scene, now: int, maxFires: int)
    requires i < rows.Length
    modifies rows
    ensures rows[..] == old(rows[..])[i := FireRow(old(rows[i]), s, now, maxFires)]
  {
    var row := rows[i];
    if s.owner.Gone? {
      DeferCheckbackAfterFailedFire(rows, i, now);
      return;
    }
    if !s.owner.Bound? {
      rows[i] := row.(active := false);
      return;
    }
    if !row.kind.ManagerNudge? && s.blocked {
      DeferCheckbackAfterFailedFire(rows, i, now);
      return;
    }
    if row.kind.MeshWatch? {
      if s.allDone {
        rows[i] := row.(active := false);
        return;
      }
    } else if row.kind.ManagerNudge? {
      rows[i] := row.(active := false);
      return;
    } else if row.kind.CoordNudge? || row.kind.OtherNudge? {
      if row.recipient == "" && s.paneRole == "" {
        return;
      }
      if s.leadPane && s.openTasks && s.leadIdle && !s.delivered {
        DeferCheckbackAfterFailedFire(rows, i, now);
        return;
      }
    } else if row.kind.CcLimitRetry? {
      if s.sameSession && !s.delivered {
        DeferCheckbackAfterFailedFire(rows, i, now);
      } else {
        rows[i] := row.(active := false);
      }
      return;
    } else if row.kind.CoordExpect? && row.expects {
      if s.met {
        rows[i] := row.(active := false);
        return;
      }
      if !s.delivered {
        DeferCheckbackAfterFailedFire(rows, i, now);
      } else {
        rows[i] := row.(renewSec := 0);
      }
    } else {
      if !s.delivered {
        DeferCheckbackAfterFailedFire(rows, i, now);
        return;
      }
      if !row.kind.SecretarySupervise? && !row.kind.BalanceLeadTick? {
        rows[i] := row.(renewSec := 0);
      }
    }
    RenewOrCancel(rows, i, now, maxFires);
  }

  /** The rows are changed in place, in fire order, six a tick. */
  method FireDueCheckbacks(rows: array<Row>, scenes: seq<Scene>, now: int, maxFires: int)
    requires |scenes| == rows.Length
    modifies rows
    ensures rows[..] == Tick(old(rows[..]), scenes, now, maxFires)
  {
    ghost var before := rows[..];
    var dueIndices := SortDueCheckbackIndices(rows[..], now);
    ghost var picked := Picked(before, now);
    var processed := 0;
    while processed < |dueIndices| && processed < CHECKBACK_FIRE_BUDGET
      invariant 0 <= processed <= |picked|
      invariant rows[..] == FireAll(before, picked[..processed], scenes, now, maxFires)
    {
      var idx := dueIndices[processed];
      FireAllNext(before, picked, processed, scenes, now, maxFires);
      FireOne(rows, idx, scenes[idx], now, maxFires);
      processed := processed + 1;
    }
    assert picked[..processed] == picked;
  }
}
