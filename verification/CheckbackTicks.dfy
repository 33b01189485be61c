/**
 * Repeated checkback ticks. Nudges with neither a recipient nor a role of their pane give up their
 * fire without being touched (`GivesUpIff`): they stay due and keep their place. The main results
 * say exactly which due rows are ever attempted at one clock reading, and within how many ticks,
 * that no row of a higher priority than a nudge is held up, and that a row held up at one time is
 * held up at all later times too.
 */
module CheckbackTicks {
  import opened Basics
  import opened StableOrder
  import opened Checkback

  // ---------------------------------------------------------------------------
  // Queues of positions, some of which stick
  // ---------------------------------------------------------------------------

  /** The entries that stick, in order. */
  function Keep(s: seq<nat>, stuck: set<nat>): seq<nat> {
    if s == [] then [] else (if s[0] in stuck then [s[0]] else []) + Keep(s[1..], stuck)
  }

  /** The other entries, in order. */
  function Others(s: seq<nat>, stuck: set<nat>): seq<nat> {
    if s == [] then [] else (if s[0] in stuck then [] else [s[0]]) + Others(s[1..], stuck)
  }

  lemma SplitCons(x: nat, s: seq<nat>, stuck: set<nat>)
    ensures Keep([x] + s, stuck) == (if x in stuck then [x] else []) + Keep(s, stuck)
    ensures Others([x] + s, stuck) == (if x in stuck then [] else [x]) + Others(s, stuck)
  {
    assert ([x] + s)[1..] == s;
  }

  lemma {:induction false} SplitAppend(a: seq<nat>, b: seq<nat>, stuck: set<nat>)
    ensures Keep(a + b, stuck) == Keep(a, stuck) + Keep(b, stuck)
    ensures Others(a + b, stuck) == Others(a, stuck) + Others(b, stuck)
  {
    if a == [] {
      assert a + b == b;
    } else {
      var rest := a[1..] + b;
      assert a + b == [a[0]] + rest;
      SplitAppend(a[1..], b, stuck);
      SplitCons(a[0], rest, stuck);
      Regroup(if a[0] in stuck then [a[0]] else [], Keep(a[1..], stuck), Keep(b, stuck));
      Regroup(if a[0] in stuck then [] else [a[0]], Others(a[1..], stuck), Others(b, stuck));
    }
  }

  lemma {:induction false} SplitMembers(s: seq<nat>, stuck: set<nat>)
    ensures forall x :: x in Keep(s, stuck) <==> x in s && x in stuck
    ensures forall x :: x in Others(s, stuck) <==> x in s && x !in stuck
    ensures |Keep(s, stuck)| + |Others(s, stuck)| == |s|
  {
    if s != [] {
      SplitMembers(s[1..], stuck);
      assert s == [s[0]] + s[1..];
    }
  }

  lemma {:induction false} KeptStick(s: seq<nat>, stuck: set<nat>)
    ensures Keep(Keep(s, stuck), stuck) == Keep(s, stuck)
    ensures Others(Keep(s, stuck), stuck) == []
  {
    if s != [] {
      KeptStick(s[1..], stuck);
      SplitCons(s[0], Keep(s[1..], stuck), stuck);
      assert [] + Keep(s[1..], stuck) == Keep(s[1..], stuck);
    }
  }

  lemma {:induction false} OthersOfOthers(s: seq<nat>, stuck: set<nat>)
    requires Others(s, stuck) == []
    ensures Keep(s, stuck) == s
  {
    if s != [] {
      OthersOfOthers(s[1..], stuck);
    }
  }

  function Head(o: seq<nat>): seq<nat> {
    o[..Min(CHECKBACK_FIRE_BUDGET, |o|)]
  }

  function Tail(o: seq<nat>): seq<nat> {
    o[Min(CHECKBACK_FIRE_BUDGET, |o|)..]
  }

  /** The queue after one tick: of the head only what sticks is left. */
  function Next(o: seq<nat>, stuck: set<nat>): seq<nat> {
    Keep(Head(o), stuck) + Tail(o)
  }

  function QueueAfter(o: seq<nat>, stuck: set<nat>, ticks: nat): seq<nat> {
    if ticks == 0 then o else Next(QueueAfter(o, stuck, ticks - 1), stuck)
  }

  function Tried(o: seq<nat>, stuck: set<nat>, ticks: nat): seq<nat> {
    if ticks == 0 then [] else Tried(o, stuck, ticks - 1) + Head(QueueAfter(o, stuck, ticks - 1))
  }

  lemma {:induction false} FirstTick(o: seq<nat>, stuck: set<nat>, ticks: nat)
    requires ticks > 0
    ensures QueueAfter(o, stuck, ticks) == QueueAfter(Next(o, stuck), stuck, ticks - 1)
    ensures Tried(o, stuck, ticks) == Head(o) + Tried(Next(o, stuck), stuck, ticks - 1)
  {
    if ticks > 1 {
      FirstTick(o, stuck, ticks - 1);
    } else {
      assert QueueAfter(o, stuck, 0) == o && Tried(o, stuck, 0) == [];
    }
  }

  lemma NextSplits(o: seq<nat>, stuck: set<nat>)
    ensures Others(Head(o), stuck) + Others(Next(o, stuck), stuck) == Others(o, stuck)
    ensures Keep(Next(o, stuck), stuck) == Keep(o, stuck)
  {
    assert o == Head(o) + Tail(o);
    SplitAppend(Head(o), Tail(o), stuck);
    SplitAppend(Keep(Head(o), stuck), Tail(o), stuck);
    KeptStick(Head(o), stuck);
    assert [] + Others(Tail(o), stuck) == Others(Tail(o), stuck);
  }

  /** What does not stick is tried once, in order; what sticks stays. */
  lemma {:induction false} QueueConserves(o: seq<nat>, stuck: set<nat>, ticks: nat)
    ensures Others(Tried(o, stuck, ticks), stuck) + Others(QueueAfter(o, stuck, ticks), stuck) == Others(o, stuck)
    ensures Keep(QueueAfter(o, stuck, ticks), stuck) == Keep(o, stuck)
  {
    if ticks > 0 {
      var before := QueueAfter(o, stuck, ticks - 1);
      var tried := Tried(o, stuck, ticks - 1);
      QueueConserves(o, stuck, ticks - 1);
      NextSplits(before, stuck);
      SplitAppend(tried, Head(before), stuck);
      Regroup(Others(tried, stuck), Others(Head(before), stuck), Others(Next(before, stuck), stuck));
    }
  }

  lemma Regroup(a: seq<nat>, b: seq<nat>, c: seq<nat>)
    ensures (a + b) + c == a + (b + c)
  {
  }

  /** How many entries in front of position i stick. */
  function Ahead(o: seq<nat>, stuck: set<nat>, i: nat): nat
    requires i <= |o|
  {
    |Keep(o[..i], stuck)|
  }

  /** Where an entry behind the head stands after a tick, with as many stuck in front as before. */
  lemma MovesUp(o: seq<nat>, stuck: set<nat>, i: nat) returns (j: nat)
    requires CHECKBACK_FIRE_BUDGET <= i < |o|
    ensures j < |Next(o, stuck)| && Next(o, stuck)[j] == o[i]
    ensures j == i - CHECKBACK_FIRE_BUDGET + |Keep(Head(o), stuck)|
    ensures Ahead(Next(o, stuck), stuck, j) == Ahead(o, stuck, i)
    ensures |Keep(Head(o), stuck)| <= Ahead(o, stuck, i)
  {
    var kept, middle := Keep(Head(o), stuck), o[CHECKBACK_FIRE_BUDGET..i];
    j := i - CHECKBACK_FIRE_BUDGET + |kept|;
    assert Tail(o)[..i - CHECKBACK_FIRE_BUDGET] == middle;
    assert Next(o, stuck)[..j] == kept + middle;
    assert o[..i] == Head(o) + middle;
    SplitAppend(kept, middle, stuck);
    SplitAppend(Head(o), middle, stuck);
    KeptStick(Head(o), stuck);
  }

  /** The product, spelled out so that it grows by one room a tick. */
  function Times(ticks: nat, room: int): int {
    if ticks == 0 then 0 else Times(ticks - 1, room) + room
  }

  lemma {:induction false} TimesIsProduct(ticks: nat, room: int)
    ensures Times(ticks, room) == ticks * room
  {
    if ticks > 0 {
      TimesIsProduct(ticks - 1, room);
      assert ticks * room == (ticks - 1) * room + room;
    }
  }

  lemma {:induction false} TimesAtLeast(ticks: nat, room: int)
    requires room >= 1
    ensures Times(ticks, room) >= ticks
  {
    if ticks > 0 {
      TimesAtLeast(ticks - 1, room);
    }
  }

  /** With fewer than six stuck in front, every tick brings an entry nearer until it is tried. */
  lemma {:induction false} Reached(o: seq<nat>, stuck: set<nat>, i: nat, ticks: nat, s: nat)
    requires i < |o| && Ahead(o, stuck, i) == s < CHECKBACK_FIRE_BUDGET
    requires Times(ticks, CHECKBACK_FIRE_BUDGET - s) >= i + 1 - s
    ensures o[i] in Tried(o, stuck, ticks)
    decreases ticks
  {
    SplitMembers(o[..i], stuck);
    assert ticks > 0;
    FirstTick(o, stuck, ticks);
    if i < CHECKBACK_FIRE_BUDGET {
      assert Head(o)[i] == o[i];
    } else {
      var j := MovesUp(o, stuck, i);
      Reached(Next(o, stuck), stuck, j, ticks - 1, s);
    }
  }

  lemma NextDistinct(o: seq<nat>, stuck: set<nat>)
    requires Distinct(o)
    ensures Distinct(Next(o, stuck))
  {
    assert o == Head(o) + Tail(o);
    KeepDistinct(Head(o), Tail(o), stuck);
  }

  lemma KeptAreThere(a: seq<nat>, b: seq<nat>, stuck: set<nat>)
    ensures forall k :: 0 <= k < |Keep(a, stuck) + b| ==> (Keep(a, stuck) + b)[k] in a + b
  {
    SplitMembers(a, stuck);
    var kept := Keep(a, stuck);
    forall k | 0 <= k < |kept + b|
      ensures (kept + b)[k] in a + b
    {
      if k < |kept| {
        assert kept[k] in kept;
      } else {
        assert b[k - |kept|] in b;
      }
    }
  }

  /** Leaving out one entry at the front of what is kept. */
  lemma KeepFront(a: seq<nat>, b: seq<nat>, stuck: set<nat>)
    requires a != []
    ensures Keep(a, stuck) + b == (if a[0] in stuck then [a[0]] else []) + (Keep(a[1..], stuck) + b)
    ensures a + b == [a[0]] + (a[1..] + b)
  {
    assert a == [a[0]] + a[1..];
    SplitCons(a[0], a[1..], stuck);
    Regroup(if a[0] in stuck then [a[0]] else [], Keep(a[1..], stuck), b);
    Regroup([a[0]], a[1..], b);
  }

  lemma FirstDiffers(x: nat, s: seq<nat>)
    requires Distinct([x] + s)
    ensures Distinct(s) && forall k :: 0 <= k < |s| ==> s[k] != x
  {
    var whole := [x] + s;
    assert forall k :: 0 <= k < |s| ==> s[k] == whole[k + 1];
    assert whole[0] == x;
  }

  lemma {:induction false} KeepDistinct(a: seq<nat>, b: seq<nat>, stuck: set<nat>)
    requires Distinct(a + b)
    ensures Distinct(Keep(a, stuck) + b)
  {
    if a == [] {
      assert a + b == b && Keep(a, stuck) + b == b;
    } else {
      var rest, below := Keep(a[1..], stuck) + b, a[1..] + b;
      KeepFront(a, b, stuck);
      FirstDiffers(a[0], below);
      KeepDistinct(a[1..], b, stuck);
      KeptAreThere(a[1..], b, stuck);
      forall k | 0 <= k < |rest|
        ensures rest[k] != a[0]
      {
        assert rest[k] in below;
      }
      if a[0] !in stuck {
        assert Keep(a, stuck) + b == rest;
      }
    }
  }

  lemma BehindHead(o: seq<nat>, i: nat)
    requires Distinct(o) && CHECKBACK_FIRE_BUDGET <= i < |o|
    ensures o[i] !in Head(o)
  {
    forall k | 0 <= k < |Head(o)|
      ensures Head(o)[k] != o[i]
    {
      assert Head(o)[k] == o[k];
    }
  }

  lemma AheadAtMost(o: seq<nat>, stuck: set<nat>, i: nat)
    requires i < |o|
    ensures Ahead(o, stuck, i) <= i
  {
    SplitMembers(o[..i], stuck);
  }

  /** An entry behind the head is tried in the ticks to come only if it is tried after the first one. */
  lemma TriedLater(o: seq<nat>, stuck: set<nat>, x: nat, ticks: nat)
    requires ticks > 0 && x !in Head(o)
    ensures x in Tried(o, stuck, ticks) <==> x in Tried(Next(o, stuck), stuck, ticks - 1)
  {
    FirstTick(o, stuck, ticks);
  }

  /** With six stuck in front an entry is never tried. */
  lemma {:induction false} Starved(o: seq<nat>, stuck: set<nat>, i: nat, ticks: nat)
    requires Distinct(o) && i < |o| && Ahead(o, stuck, i) >= CHECKBACK_FIRE_BUDGET
    ensures o[i] !in Tried(o, stuck, ticks)
    decreases ticks
  {
    if ticks > 0 {
      AheadAtMost(o, stuck, i);
      BehindHead(o, i);
      TriedLater(o, stuck, o[i], ticks);
      var j := MovesUp(o, stuck, i);
      NextDistinct(o, stuck);
      Starved(Next(o, stuck), stuck, j, ticks - 1);
    }
  }

  // ---------------------------------------------------------------------------
  // One tick
  // ---------------------------------------------------------------------------

  /** Of the due rows exactly those in `stuck` give up their fire. */
  ghost predicate Follows(rows: seq<Row>, scenes: seq<Scene>, stuck: set<nat>, now: int) {
    && |scenes| == |rows|
    && forall x: nat :: x < |rows| && Due(rows[x], now) ==> (GivesUp(rows[x], scenes[x]) <==> x in stuck)
  }

  ghost predicate SameErrands(a: seq<Row>, b: seq<Row>) {
    |a| == |b| && forall x: nat :: x < |a| ==> SameErrand(a[x], b[x])
  }

  lemma TickKeepsErrands(rows: seq<Row>, scenes: seq<Scene>, now: int, maxFires: int)
    requires |scenes| == |rows|
    ensures SameErrands(rows, Tick(rows, scenes, now, maxFires))
  {
    PickedAreDue(rows, now);
    FireAllTouches(rows, Picked(rows, now), scenes, now, maxFires);
    forall x: nat | x < |rows|
      ensures SameErrand(rows[x], Tick(rows, scenes, now, maxFires)[x])
    {
      FireKeepsErrand(rows[x], scenes[x], now, maxFires);
    }
  }

  /** What one tick does to each row. */
  ghost predicate Leaves(rows: seq<Row>, rows': seq<Row>, picked: seq<nat>, stuck: set<nat>, now: int) {
    && |rows'| == |rows|
    && forall x: nat :: x < |rows| ==>
         if x in picked && x !in stuck then !Due(rows'[x], now) else rows'[x] == rows[x]
  }

  lemma PickedAreDue(rows: seq<Row>, now: int)
    ensures Distinct(SortDue(rows, now)) && Distinct(Picked(rows, now))
    ensures Picked(rows, now) == Head(SortDue(rows, now))
    ensures forall x: nat :: x in Picked(rows, now) ==> x < |rows| && Due(rows[x], now)
  {
    DueOrder(rows, now);
    PickedDistinct(Keys(rows), SortDue(rows, now));
    assert forall x: nat :: x in Picked(rows, now) ==> x in SortDue(rows, now);
  }

  lemma TickLeaves(rows: seq<Row>, scenes: seq<Scene>, stuck: set<nat>, now: int, maxFires: int)
    requires Follows(rows, scenes, stuck, now)
    ensures Leaves(rows, Tick(rows, scenes, now, maxFires), Picked(rows, now), stuck, now)
  {
    PickedAreDue(rows, now);
    FireAllTouches(rows, Picked(rows, now), scenes, now, maxFires);
    forall x: nat | x < |rows| && x in Picked(rows, now) && x !in stuck
      ensures !Due(FireRow(rows[x], scenes[x], now, maxFires), now)
    {
      FiredRowIsNotDue(rows[x], scenes[x], now, maxFires);
    }
  }

  /** Leaving out entries of the front part keeps an order, also under keys that agree on the rest. */
  lemma {:induction false} KeepOrdered(keys: seq<Key>, a: seq<nat>, b: seq<nat>, stuck: set<nat>)
    requires InTable(keys, a + b) && Ordered(keys, a + b)
    ensures InTable(keys, Keep(a, stuck) + b) && Ordered(keys, Keep(a, stuck) + b)
  {
    if a == [] {
      assert a + b == b && Keep(a, stuck) + b == b;
    } else {
      var rest, below := Keep(a[1..], stuck) + b, a[1..] + b;
      KeepFront(a, b, stuck);
      FirstBefore(keys, a[0], below);
      KeepOrdered(keys, a[1..], b, stuck);
      KeptAreThere(a[1..], b, stuck);
      if a[0] in stuck {
        PutInFront(keys, a[0], rest, below);
      } else {
        assert Keep(a, stuck) + b == rest;
      }
    }
  }

  lemma FirstBefore(keys: seq<Key>, x: nat, s: seq<nat>)
    requires InTable(keys, [x] + s) && Ordered(keys, [x] + s)
    ensures InTable(keys, s) && Ordered(keys, s)
    ensures x < |keys| && forall k :: 0 <= k < |s| ==> Before(keys, x, s[k])
  {
    var whole := [x] + s;
    assert forall k :: 0 <= k < |s| ==> s[k] == whole[k + 1];
    assert whole[0] == x;
    forall a, b | 0 <= a < b < |s|
      ensures Before(keys, s[a], s[b])
    {
      assert Before(keys, whole[a + 1], whole[b + 1]);
    }
    forall k | 0 <= k < |s|
      ensures Before(keys, x, s[k])
    {
      assert Before(keys, whole[0], whole[k + 1]);
    }
  }

  lemma PutInFront(keys: seq<Key>, x: nat, s: seq<nat>, below: seq<nat>)
    requires InTable(keys, s) && Ordered(keys, s) && InTable(keys, below)
    requires x < |keys| && forall k :: 0 <= k < |below| ==> Before(keys, x, below[k])
    requires forall k :: 0 <= k < |s| ==> s[k] in below
    ensures InTable(keys, [x] + s) && Ordered(keys, [x] + s)
  {
  }

  lemma OrderedElsewhere(keys: seq<Key>, keys': seq<Key>, s: seq<nat>)
    requires InTable(keys, s) && Ordered(keys, s) && |keys'| == |keys|
    requires forall k :: 0 <= k < |s| ==> keys'[s[k]] == keys[s[k]]
    ensures InTable(keys', s) && Ordered(keys', s)
  {
    forall a, b | 0 <= a < b < |s|
      ensures Before(keys', s[a], s[b])
    {
      assert Before(keys, s[a], s[b]);
    }
  }

  lemma TailBehindHead(o: seq<nat>, k: nat)
    requires Distinct(o) && k < |Tail(o)|
    ensures Tail(o)[k] !in Head(o)
  {
    assert Tail(o)[k] == o[Min(CHECKBACK_FIRE_BUDGET, |o|) + k];
  }

  lemma NextMembers(o: seq<nat>, stuck: set<nat>, x: nat)
    requires Distinct(o)
    ensures x in Next(o, stuck) <==> x in o && !(x in Head(o) && x !in stuck)
  {
    assert o == Head(o) + Tail(o);
    SplitMembers(Head(o), stuck);
    forall k | 0 <= k < |Tail(o)|
      ensures Tail(o)[k] !in Head(o)
    {
      TailBehindHead(o, k);
    }
  }

  /** There is no other fire order. */
  lemma OrderIs(rows: seq<Row>, now: int, order: seq<nat>)
    requires InTable(Keys(rows), order) && Ordered(Keys(rows), order)
    requires forall x: nat :: x in order <==> x < |rows| && Due(rows[x], now)
    ensures SortDue(rows, now) == order
  {
    DueOrder(rows, now);
    OrderedIsUnique(Keys(rows), SortDue(rows, now), order);
  }

  lemma NextIsOrdered(rows: seq<Row>, rows': seq<Row>, stuck: set<nat>, now: int)
    requires Leaves(rows, rows', Picked(rows, now), stuck, now)
    ensures InTable(Keys(rows'), Next(SortDue(rows, now), stuck))
    ensures Ordered(Keys(rows'), Next(SortDue(rows, now), stuck))
  {
    var o := SortDue(rows, now);
    var next := Next(o, stuck);
    DueOrder(rows, now);
    PickedAreDue(rows, now);
    assert o == Head(o) + Tail(o);
    KeepOrdered(Keys(rows), Head(o), Tail(o), stuck);
    forall k | 0 <= k < |next|
      ensures Keys(rows')[next[k]] == Keys(rows)[next[k]]
    {
      NextMembers(o, stuck, next[k]);
      assert rows'[next[k]] == rows[next[k]];
    }
    OrderedElsewhere(Keys(rows), Keys(rows'), next);
  }

  /** One tick takes the head of the fire order, puts back what gave up and leaves the tail. */
  lemma TickMovesOn(rows: seq<Row>, scenes: seq<Scene>, stuck: set<nat>, now: int, maxFires: int)
    requires Follows(rows, scenes, stuck, now)
    ensures SortDue(Tick(rows, scenes, now, maxFires), now) == Next(SortDue(rows, now), stuck)
  {
    var rows' := Tick(rows, scenes, now, maxFires);
    var o := SortDue(rows, now);
    TickLeaves(rows, scenes, stuck, now, maxFires);
    NextIsOrdered(rows, rows', stuck, now);
    DueOrder(rows, now);
    DueOrder(rows', now);
    PickedAreDue(rows, now);
    forall x: nat
      ensures x in SortDue(rows', now) <==> x in Next(o, stuck)
    {
      NextMembers(o, stuck, x);
    }
    OrderedIsUnique(Keys(rows'), SortDue(rows', now), Next(o, stuck));
  }

  // ---------------------------------------------------------------------------
  // Many ticks
  // ---------------------------------------------------------------------------

  /** Ticks at one clock reading, with whatever scenes each of them meets. */
  function Ticks(rows: seq<Row>, outs: seq<seq<Scene>>, now: int, maxFires: int): (r: seq<Row>)
    requires forall k :: 0 <= k < |outs| ==> |outs[k]| == |rows|
    ensures |r| == |rows|
  {
    if outs == [] then rows
    else Tick(Ticks(rows, outs[..|outs| - 1], now, maxFires), outs[|outs| - 1], now, maxFires)
  }

  function Attempts(rows: seq<Row>, outs: seq<seq<Scene>>, now: int, maxFires: int): seq<nat>
    requires forall k :: 0 <= k < |outs| ==> |outs[k]| == |rows|
  {
    if outs == [] then []
    else
      var init := outs[..|outs| - 1];
      Attempts(rows, init, now, maxFires) + Picked(Ticks(rows, init, now, maxFires), now)
  }

  /** At every tick, of the initially due rows exactly those in `stuck` give up. */
  ghost predicate AllFollow(rows: seq<Row>, outs: seq<seq<Scene>>, stuck: set<nat>, now: int) {
    forall k :: 0 <= k < |outs| ==> Follows(rows, outs[k], stuck, now)
  }

  lemma {:induction false} TicksFollowQueue(rows: seq<Row>, outs: seq<seq<Scene>>, stuck: set<nat>,
                                            now: int, maxFires: int)
    requires AllFollow(rows, outs, stuck, now)
    ensures SortDue(Ticks(rows, outs, now, maxFires), now) == QueueAfter(SortDue(rows, now), stuck, |outs|)
    ensures Attempts(rows, outs, now, maxFires) == Tried(SortDue(rows, now), stuck, |outs|)
    ensures forall x: nat :: x in SortDue(Ticks(rows, outs, now, maxFires), now) ==> x in SortDue(rows, now)
    ensures SameErrands(rows, Ticks(rows, outs, now, maxFires))
  {
    if outs != [] {
      var init, last := outs[..|outs| - 1], outs[|outs| - 1];
      TicksFollowQueue(rows, init, stuck, now, maxFires);
      var between := Ticks(rows, init, now, maxFires);
      StillFollows(rows, between, last, stuck, now);
      TickMovesOn(between, last, stuck, now, maxFires);
      PickedAreDue(between, now);
      TickKeepsErrands(between, last, now, maxFires);
      forall x: nat | x in Next(SortDue(between, now), stuck)
        ensures x in SortDue(between, now)
      {
        NextMembers(SortDue(between, now), stuck, x);
      }
    }
  }

  lemma SameErrandGivesUp(a: Row, b: Row, s: Scene)
    requires SameErrand(a, b)
    ensures GivesUp(a, s) <==> GivesUp(b, s)
  {
    GivesUpIff(a, s);
    GivesUpIff(b, s);
  }

  lemma StillFollows(rows: seq<Row>, between: seq<Row>, scenes: seq<Scene>, stuck: set<nat>, now: int)
    requires Follows(rows, scenes, stuck, now) && SameErrands(rows, between)
    requires forall x: nat :: x in SortDue(between, now) ==> x in SortDue(rows, now)
    ensures Follows(between, scenes, stuck, now)
  {
    DueOrder(rows, now);
    DueOrder(between, now);
    forall x: nat | x < |between| && Due(between[x], now)
      ensures GivesUp(between[x], scenes[x]) <==> x in stuck
    {
      assert x in SortDue(between, now);
      SameErrandGivesUp(rows[x], between[x], scenes[x]);
    }
  }

  lemma TicksAreQueue(rows: seq<Row>, outs: seq<seq<Scene>>, stuck: set<nat>, now: int, maxFires: int,
                      order: seq<nat>)
    requires AllFollow(rows, outs, stuck, now) && order == SortDue(rows, now)
    ensures SortDue(Ticks(rows, outs, now, maxFires), now) == QueueAfter(order, stuck, |outs|)
    ensures Attempts(rows, outs, now, maxFires) == Tried(order, stuck, |outs|)
    ensures Distinct(order)
  {
    TicksFollowQueue(rows, outs, stuck, now, maxFires);
    PickedAreDue(rows, now);
  }

  /**
   * At one clock reading the rows that do not give up are attempted in fire order and none twice,
   * what of them is still due is exactly the rest, and the rows that give up all stay due.
   */
  lemma TicksAttemptInOrder(rows: seq<Row>, outs: seq<seq<Scene>>, stuck: set<nat>, now: int, maxFires: int)
    requires AllFollow(rows, outs, stuck, now)
    ensures var order, left := SortDue(rows, now), SortDue(Ticks(rows, outs, now, maxFires), now);
            && Others(Attempts(rows, outs, now, maxFires), stuck) + Others(left, stuck) == Others(order, stuck)
            && Keep(left, stuck) == Keep(order, stuck)
  {
    TicksAreQueue(rows, outs, stuck, now, maxFires, SortDue(rows, now));
    QueueConserves(SortDue(rows, now), stuck, |outs|);
  }

  lemma EnoughTimes(ticks: nat, room: int, need: int)
    requires ticks * room >= need
    ensures Times(ticks, room) >= need
  {
    TimesIsProduct(ticks, room);
  }

  lemma TriedInTime(o: seq<nat>, stuck: set<nat>, i: nat, ticks: nat, s: nat, tried: seq<nat>)
    requires i < |o| && Ahead(o, stuck, i) == s < 6 && Times(ticks, 6 - s) >= i + 1 - s
    requires tried == Tried(o, stuck, ticks)
    ensures o[i] in tried
  {
    Reached(o, stuck, i, ticks, s);
  }

  lemma AttemptedInTime(rows: seq<Row>, outs: seq<seq<Scene>>, stuck: set<nat>, now: int, maxFires: int,
                        order: seq<nat>, i: nat, ticks: nat, s: nat)
    requires AllFollow(rows, outs, stuck, now) && order == SortDue(rows, now) && i < |order| && ticks == |outs|
    requires Ahead(order, stuck, i) == s < 6 && Times(ticks, 6 - s) >= i + 1 - s
    ensures order[i] in Attempts(rows, outs, now, maxFires)
  {
    TicksAreQueue(rows, outs, stuck, now, maxFires, order);
    TriedInTime(order, stuck, i, ticks, s, Attempts(rows, outs, now, maxFires));
  }

  lemma NeverAttempted(rows: seq<Row>, outs: seq<seq<Scene>>, stuck: set<nat>, now: int, maxFires: int,
                       order: seq<nat>, i: nat)
    requires AllFollow(rows, outs, stuck, now) && order == SortDue(rows, now) && i < |order|
    requires Ahead(order, stuck, i) >= 6
    ensures order[i] !in Attempts(rows, outs, now, maxFires)
  {
    TicksAreQueue(rows, outs, stuck, now, maxFires, order);
    Starved(order, stuck, i, |outs|);
  }

  /**
   * Which due rows are ever attempted: the one at position i of the fire order exactly when fewer
   * than six rows in front of it give up. With s of them in front, enough ticks are those with
   * ticks * (6 - s) >= i + 1 - s; with six, no number is.
   */
  lemma AttemptedIffFewStuckAhead(rows: seq<Row>, outs: seq<seq<Scene>>, stuck: set<nat>, now: int, maxFires: int,
                                  order: seq<nat>, i: nat, ticks: nat, s: nat)
    requires AllFollow(rows, outs, stuck, now) && order == SortDue(rows, now) && i < |order| && ticks == |outs|
    requires s == Ahead(order, stuck, i)
    ensures s < 6 && ticks * (6 - s) >= i + 1 - s ==> order[i] in Attempts(rows, outs, now, maxFires)
    ensures s >= 6 ==> order[i] !in Attempts(rows, outs, now, maxFires)
  {
    if s >= 6 {
      NeverAttempted(rows, outs, stuck, now, maxFires, order, i);
    } else if ticks * (6 - s) >= i + 1 - s {
      EnoughTimes(ticks, 6 - s, i + 1 - s);
      AttemptedInTime(rows, outs, stuck, now, maxFires, order, i, ticks, s);
    }
  }

  /** The same as one equivalence, once there have been more ticks than rows in front. */
  lemma EventuallyAttemptedIff(rows: seq<Row>, outs: seq<seq<Scene>>, stuck: set<nat>, now: int, maxFires: int,
                               order: seq<nat>, i: nat)
    requires AllFollow(rows, outs, stuck, now) && order == SortDue(rows, now) && i < |order| && i < |outs|
    ensures order[i] in Attempts(rows, outs, now, maxFires) <==> Ahead(order, stuck, i) < 6
  {
    TicksAreQueue(rows, outs, stuck, now, maxFires, order);
    TriedIff(order, stuck, i, |outs|);
  }

  lemma TriedIff(o: seq<nat>, stuck: set<nat>, i: nat, ticks: nat)
    requires Distinct(o) && i < |o| && i < ticks
    ensures o[i] in Tried(o, stuck, ticks) <==> Ahead(o, stuck, i) < 6
  {
    var s := Ahead(o, stuck, i);
    if s >= 6 {
      Starved(o, stuck, i, ticks);
    } else {
      TimesAtLeast(ticks, 6 - s);
      Reached(o, stuck, i, ticks, s);
    }
  }

  /** How many entries that do not stick a tick takes off. */
  lemma OneTickOff(o: seq<nat>, stuck: set<nat>)
    requires |Keep(o, stuck)| < CHECKBACK_FIRE_BUDGET
    ensures Others(Next(o, stuck), stuck) == []
            || |Others(Next(o, stuck), stuck)| <= |Others(o, stuck)| - (CHECKBACK_FIRE_BUDGET - |Keep(o, stuck)|)
  {
    assert o == Head(o) + Tail(o);
    NextSplits(o, stuck);
    SplitMembers(Head(o), stuck);
    SplitAppend(Head(o), Tail(o), stuck);
    if |o| <= CHECKBACK_FIRE_BUDGET {
      assert Head(o) == o && Tail(o) == [];
      KeptStick(o, stuck);
      assert Next(o, stuck) == Keep(o, stuck);
    }
  }

  lemma LessToDo(o: seq<nat>, stuck: set<nat>, ticks: nat, room: int)
    requires room == CHECKBACK_FIRE_BUDGET - |Keep(o, stuck)| && room > 0 && ticks > 0
    requires Times(ticks, room) >= |Others(o, stuck)|
    ensures |Keep(Next(o, stuck), stuck)| == |Keep(o, stuck)|
    ensures Times(ticks - 1, room) >= |Others(Next(o, stuck), stuck)|
  {
    NextSplits(o, stuck);
    OneTickOff(o, stuck);
    TimesAtLeast(ticks - 1, room);
  }

  lemma {:induction false} OthersShrink(o: seq<nat>, stuck: set<nat>, ticks: nat, room: int)
    requires room == CHECKBACK_FIRE_BUDGET - |Keep(o, stuck)| && room > 0
    requires Times(ticks, room) >= |Others(o, stuck)|
    ensures Others(QueueAfter(o, stuck, ticks), stuck) == []
    decreases ticks
  {
    if ticks > 0 {
      LessToDo(o, stuck, ticks, room);
      OthersShrink(Next(o, stuck), stuck, ticks - 1, room);
      FirstTick(o, stuck, ticks);
    }
  }

  lemma QueueDrains(o: seq<nat>, stuck: set<nat>, ticks: nat)
    requires |Keep(o, stuck)| < 6 && Times(ticks, 6 - |Keep(o, stuck)|) >= |Others(o, stuck)|
    ensures Others(Tried(o, stuck, ticks), stuck) == Others(o, stuck)
    ensures QueueAfter(o, stuck, ticks) == Keep(o, stuck)
  {
    OthersShrink(o, stuck, ticks, 6 - |Keep(o, stuck)|);
    QueueConserves(o, stuck, ticks);
    OthersOfOthers(QueueAfter(o, stuck, ticks), stuck);
    assert Others(Tried(o, stuck, ticks), stuck) + [] == Others(Tried(o, stuck, ticks), stuck);
  }

  /**
   * With fewer than six rows that give up in all, enough ticks attempt every other due row exactly
   * once, in fire order, and leave only the rows that give up. With none, ceil(due / 6) are enough.
   */
  lemma EnoughTicksDrain(rows: seq<Row>, outs: seq<seq<Scene>>, stuck: set<nat>, now: int, maxFires: int,
                         order: seq<nat>, ticks: nat, room: int)
    requires AllFollow(rows, outs, stuck, now) && order == SortDue(rows, now) && ticks == |outs|
    requires room == 6 - |Keep(order, stuck)| && room > 0 && ticks * room >= |Others(order, stuck)|
    ensures Others(Attempts(rows, outs, now, maxFires), stuck) == Others(order, stuck)
    ensures SortDue(Ticks(rows, outs, now, maxFires), now) == Keep(order, stuck)
  {
    EnoughTimes(ticks, room, |Others(order, stuck)|);
    TicksAreQueue(rows, outs, stuck, now, maxFires, order);
    QueueDrains(order, stuck, ticks);
  }

  lemma {:induction false} NothingKept(s: seq<nat>)
    ensures Keep(s, {}) == []
  {
    if s != [] {
      NothingKept(s[1..]);
    }
  }

  /** Where the fire order stands after some ticks that all take six. */
  ghost predicate Halfway(o: seq<nat>, tried: seq<nat>, left: seq<nat>, ticks: nat) {
    var n := Min(CHECKBACK_FIRE_BUDGET * ticks, |o|);
    tried == o[..n] && left == o[n..]
  }

  lemma OneTickOn(o: seq<nat>, tried: seq<nat>, left: seq<nat>, ticks: nat)
    requires Halfway(o, tried, left, ticks)
    ensures Halfway(o, tried + Head(left), Tail(left), ticks + 1)
  {
  }

  lemma {:induction false} SixEachTick(o: seq<nat>, ticks: nat)
    ensures Halfway(o, Tried(o, {}, ticks), QueueAfter(o, {}, ticks), ticks)
  {
    if ticks > 0 {
      var rest := QueueAfter(o, {}, ticks - 1);
      SixEachTick(o, ticks - 1);
      OneTickOn(o, Tried(o, {}, ticks - 1), rest, ticks - 1);
      NothingKept(Head(rest));
      assert Next(rest, {}) == Tail(rest);
    }
  }

  /** While no due row gives up, the ticks take the fire order six at a time. */
  lemma SixAttemptsATick(rows: seq<Row>, outs: seq<seq<Scene>>, now: int, maxFires: int, order: seq<nat>)
    requires AllFollow(rows, outs, {}, now) && order == SortDue(rows, now)
    ensures var n := Min(CHECKBACK_FIRE_BUDGET * |outs|, |order|);
            && Attempts(rows, outs, now, maxFires) == order[..n]
            && SortDue(Ticks(rows, outs, now, maxFires), now) == order[n..]
  {
    TicksAreQueue(rows, outs, {}, now, maxFires, order);
    SixEachTick(order, |outs|);
  }

  // ---------------------------------------------------------------------------
  // Rows in front of the nudges are never held up
  // ---------------------------------------------------------------------------

  predicate AheadOfNudges(kind: Kind) {
    kind in {SecretarySupervise, BalanceLeadTick, CoordExpect, CcLimitRetry, MeshWatch}
  }

  lemma StuckAreNudges(rows: seq<Row>, scenes: seq<Scene>, stuck: set<nat>, now: int, x: nat)
    requires Follows(rows, scenes, stuck, now) && x < |rows| && Due(rows[x], now) && x in stuck
    ensures Nudge(rows[x].kind) && Priority(rows[x].kind) == 3
  {
    GivesUpIff(rows[x], scenes[x]);
  }

  lemma {:induction false} NoneStick(s: seq<nat>, stuck: set<nat>)
    requires forall k :: 0 <= k < |s| ==> s[k] !in stuck
    ensures Keep(s, stuck) == []
  {
    if s != [] {
      NoneStick(s[1..], stuck);
    }
  }

  lemma NoneAhead(rows: seq<Row>, scenes: seq<Scene>, stuck: set<nat>, now: int, order: seq<nat>, i: nat)
    requires Follows(rows, scenes, stuck, now) && order == SortDue(rows, now) && i < |order|
    requires order[i] < |rows| && Priority(rows[order[i]].kind) < 3
    ensures Ahead(order, stuck, i) == 0
  {
    DueOrder(rows, now);
    forall k | 0 <= k < i
      ensures order[..i][k] !in stuck
    {
      assert Before(Keys(rows), order[k], order[i]);
      assert order[k] in order;
      if order[k] in stuck {
        StuckAreNudges(rows, scenes, stuck, now, order[k]);
        assert false;
      }
    }
    NoneStick(order[..i], stuck);
  }

  /**
   * Supervise rows, balance ticks, expectations, limit retries and mesh watches are never held up: at
   * position i of the fire order they are attempted within ceil((i + 1) / 6) ticks, whatever gives up.
   */
  lemma SmallPriorityNeverStarves(rows: seq<Row>, outs: seq<seq<Scene>>, stuck: set<nat>, now: int, maxFires: int,
                                  order: seq<nat>, i: nat)
    requires AllFollow(rows, outs, stuck, now) && order == SortDue(rows, now) && i < |order|
    requires order[i] < |rows| && AheadOfNudges(rows[order[i]].kind) && 6 * |outs| >= i + 1
    ensures order[i] in Attempts(rows, outs, now, maxFires)
  {
    NoneAhead(rows, outs[0], stuck, now, order, i);
    EnoughTimes(|outs|, 6, i + 1);
    AttemptedInTime(rows, outs, stuck, now, maxFires, order, i, |outs|, 0);
  }

  // ---------------------------------------------------------------------------
  // Seven due rows, six of which give up
  // ---------------------------------------------------------------------------

  /** Six nudges without a recipient, due one after the other, and an ordinary row behind them. */
  function SevenRows(): seq<Row> {
    seq(7, i requires 0 <= i < 7 =>
      Row(true, if i < 6 then OtherNudge("lead-nudge") else Ordinary("room-comms"), true, "", i + 1, 600, 0, 1))
  }

  /** A pane of ours without a role, and a delivery that would succeed. */
  const ROLELESS := Scene(Bound, false, false, "", false, false, false, true, false, true)

  function SevenScenes(): seq<Scene> {
    seq(7, i requires 0 <= i < 7 => ROLELESS)
  }

  function UpTo(n: nat): seq<nat> {
    seq(n, i requires 0 <= i < n => i)
  }

  lemma SevenInOrder()
    ensures SortDue(SevenRows(), 100) == UpTo(7)
  {
    var rows, order := SevenRows(), UpTo(7);
    forall a, b | 0 <= a < b < 7
      ensures Before(Keys(rows), order[a], order[b])
    {
      assert Keys(rows)[a] == Key(if a < 6 then 3 else 10, a + 1);
      assert Keys(rows)[b] == Key(if b < 6 then 3 else 10, b + 1);
    }
    forall x: nat
      ensures x in order <==> x < |rows| && Due(rows[x], 100)
    {
      assert x < 7 ==> order[x] == x;
    }
    OrderIs(rows, 100, order);
  }

  function SevenScenesFor(ticks: nat): (r: seq<seq<Scene>>)
    ensures |r| == ticks && forall k :: 0 <= k < ticks ==> r[k] == SevenScenes()
  {
    seq(ticks, k => SevenScenes())
  }

  function FirstSix(): (r: set<nat>)
    ensures forall x: nat :: x in r <==> x < 6
  {
    {0, 1, 2, 3, 4, 5}
  }

  lemma SixGiveUp(ticks: nat)
    ensures AllFollow(SevenRows(), SevenScenesFor(ticks), FirstSix(), 100)
  {
  }

  lemma {:induction false} AllStick(s: seq<nat>, stuck: set<nat>)
    requires forall k :: 0 <= k < |s| ==> s[k] in stuck
    ensures Keep(s, stuck) == s
  {
    if s != [] {
      AllStick(s[1..], stuck);
    }
  }

  lemma SixAhead()
    ensures Ahead(UpTo(7), FirstSix(), 6) == 6
  {
    assert UpTo(7)[..6] == UpTo(6);
    AllStick(UpTo(6), FirstSix());
  }

  lemma SeventhIsDue()
    ensures Due(SevenRows()[6], 100) && OutcomeOf(SevenRows()[6], ROLELESS) == Fired(true)
  {
  }

  lemma LastBehindSix(rows: seq<Row>, outs: seq<seq<Scene>>, maxFires: int, order: seq<nat>)
    requires AllFollow(rows, outs, FirstSix(), 100) && order == SortDue(rows, 100)
    requires |order| == 7 && order[6] == 6 && Ahead(order, FirstSix(), 6) == 6
    ensures |rows| > 6 && 6 !in Attempts(rows, outs, 100, maxFires)
    ensures Due(Ticks(rows, outs, 100, maxFires)[6], 100)
  {
    NeverTriedBehindSix(rows, outs, FirstSix(), 100, maxFires, order, 6, 6);
  }

  /** The seventh row is due and could be delivered, and is never attempted, at however many ticks. */
  lemma SeventhRowStarves(ticks: nat, maxFires: int)
    ensures Due(SevenRows()[6], 100) && OutcomeOf(SevenRows()[6], ROLELESS) == Fired(true)
    ensures 6 !in Attempts(SevenRows(), SevenScenesFor(ticks), 100, maxFires)
    ensures Due(Ticks(SevenRows(), SevenScenesFor(ticks), 100, maxFires)[6], 100)
  {
    SeventhIsDue();
    SevenInOrder();
    SixGiveUp(ticks);
    SixAhead();
    LastBehindSix(SevenRows(), SevenScenesFor(ticks), maxFires, UpTo(7));
  }

  /** Behind six that give up a due row stays due. */
  lemma NeverTriedBehindSix(rows: seq<Row>, outs: seq<seq<Scene>>, stuck: set<nat>, now: int, maxFires: int,
                            order: seq<nat>, i: nat, x: nat)
    requires AllFollow(rows, outs, stuck, now) && order == SortDue(rows, now)
    requires i < |order| && order[i] == x && x !in stuck && Ahead(order, stuck, i) >= 6
    ensures x < |rows| && x !in Attempts(rows, outs, now, maxFires)
    ensures Due(Ticks(rows, outs, now, maxFires)[x], now)
  {
    DueOrder(rows, now);
    assert order[i] in order;
    TicksAreQueue(rows, outs, stuck, now, maxFires, order);
    Starved(order, stuck, i, |outs|);
    NeverTriedStaysDue(rows, outs, stuck, now, maxFires, x);
  }

  /** A due row that is not attempted is still due. */
  lemma NeverTriedStaysDue(rows: seq<Row>, outs: seq<seq<Scene>>, stuck: set<nat>, now: int, maxFires: int, x: nat)
    requires AllFollow(rows, outs, stuck, now) && x < |rows| && Due(rows[x], now) && x !in stuck
    requires x !in Attempts(rows, outs, now, maxFires)
    ensures Due(Ticks(rows, outs, now, maxFires)[x], now)
  {
    var tried, left := Attempts(rows, outs, now, maxFires), SortDue(Ticks(rows, outs, now, maxFires), now);
    DueOrder(rows, now);
    DueOrder(Ticks(rows, outs, now, maxFires), now);
    TicksAttemptInOrder(rows, outs, stuck, now, maxFires);
    SplitMembers(SortDue(rows, now), stuck);
    SplitMembers(tried, stuck);
    SplitMembers(left, stuck);
    assert x in Others(tried, stuck) + Others(left, stuck);
  }

  // ---------------------------------------------------------------------------
  // Ticks at later times
  // ---------------------------------------------------------------------------

  /** One tick: the time it reads and what its fires find. */
  datatype TickAt = TickAt(now: int, scenes: seq<Scene>)

  predicate TicksFit(ts: seq<TickAt>, rows: nat, from: int) {
    && (forall k :: 0 <= k < |ts| ==> |ts[k].scenes| == rows && ts[k].now >= from)
  }

  function TicksOver(rows: seq<Row>, ts: seq<TickAt>, maxFires: int): (r: seq<Row>)
    requires forall k :: 0 <= k < |ts| ==> |ts[k].scenes| == |rows|
    ensures |r| == |rows|
  {
    if ts == [] then rows
    else
      var last := ts[|ts| - 1];
      Tick(TicksOver(rows, ts[..|ts| - 1], maxFires), last.scenes, last.now, maxFires)
  }

  function AttemptsOver(rows: seq<Row>, ts: seq<TickAt>, maxFires: int): seq<nat>
    requires forall k :: 0 <= k < |ts| ==> |ts[k].scenes| == |rows|
  {
    if ts == [] then []
    else
      var init := ts[..|ts| - 1];
      AttemptsOver(rows, init, maxFires) + Picked(TicksOver(rows, init, maxFires), ts[|ts| - 1].now)
  }

  /** Six due rows stand in front of row x. */
  ghost predicate BehindSix(rows: seq<Row>, six: set<nat>, x: nat, now: int) {
    && |six| == 6 && x < |rows|
    && forall y :: y in six ==> y < |rows| && Due(rows[y], now) && Before(Keys(rows), y, x)
  }

  lemma {:induction false} SetFits(six: set<nat>, s: seq<nat>)
    requires forall y :: y in six ==> y in s
    ensures |six| <= |s|
  {
    if s == [] {
      assert six == {};
    } else {
      SetFits(six - {s[0]}, s[1..]);
    }
  }

  lemma BeforeIsOneWay(keys: seq<Key>, a: nat, b: nat)
    requires a < |keys| && b < |keys| && Before(keys, a, b)
    ensures a != b && !Before(keys, b, a)
  {
  }

  lemma NoneBefore(keys: seq<Key>, order: seq<nat>, p: nat, q: nat)
    requires InTable(keys, order) && Ordered(keys, order) && p < |order| && q < |order|
    requires Before(keys, order[q], order[p])
    ensures q < p
  {
    if q > p {
      BeforeIsOneWay(keys, order[p], order[q]);
    }
  }

  /** A tick never comes to a row with six due rows in front. */
  lemma NotPickedBehindSix(rows: seq<Row>, six: set<nat>, x: nat, now: int)
    requires BehindSix(rows, six, x, now)
    ensures x !in Picked(rows, now)
  {
    var keys, order := Keys(rows), SortDue(rows, now);
    DueOrder(rows, now);
    if x in Picked(rows, now) {
      var p :| 0 <= p < |Picked(rows, now)| && Picked(rows, now)[p] == x;
      assert order[p] == x && p < 6;
      forall y | y in six
        ensures y in order[..p]
      {
        assert y in order;
        var q :| 0 <= q < |order| && order[q] == y;
        NoneBefore(keys, order, p, q);
        assert order[..p][q] == y;
      }
      SetFits(six, order[..p]);
    }
  }

  ghost predicate SameRows(a: seq<Row>, b: seq<Row>, six: set<nat>, x: nat) {
    && |a| == |b| && x < |a| && a[x] == b[x]
    && forall y :: y in six ==> y < |a| && a[y] == b[y]
  }

  /** All six give up at this tick. */
  ghost predicate SixGiveUpAt(rows: seq<Row>, six: set<nat>, scenes: seq<Scene>) {
    |scenes| == |rows| && forall y :: y in six ==> y < |rows| && GivesUp(rows[y], scenes[y])
  }

  lemma StillBehindSix(a: seq<Row>, b: seq<Row>, six: set<nat>, x: nat, now: int, later: int)
    requires BehindSix(a, six, x, now) && SameRows(a, b, six, x) && now <= later
    ensures BehindSix(b, six, x, later)
  {
    forall y | y in six
      ensures Due(b[y], later) && Before(Keys(b), y, x)
    {
      assert Before(Keys(a), y, x);
      assert Keys(b)[y] == Keys(a)[y] && Keys(b)[x] == Keys(a)[x];
    }
  }

  lemma TickPassesOver(rows: seq<Row>, six: set<nat>, x: nat, t: TickAt, maxFires: int)
    requires BehindSix(rows, six, x, t.now) && SixGiveUpAt(rows, six, t.scenes)
    ensures SameRows(rows, Tick(rows, t.scenes, t.now, maxFires), six, x)
  {
    NotPickedBehindSix(rows, six, x, t.now);
    PickedAreDue(rows, t.now);
    FireAllTouches(rows, Picked(rows, t.now), t.scenes, t.now, maxFires);
  }

  /**
   * Whatever the clock reads later, whatever the other rows do and whatever the row itself would
   * find: behind six due rows that give up at every tick a row is never attempted and stays as it is.
   */
  lemma {:induction false} StarvedAtAnyTime(rows: seq<Row>, ts: seq<TickAt>, six: set<nat>, x: nat, now: int,
                                            maxFires: int)
    requires BehindSix(rows, six, x, now) && TicksFit(ts, |rows|, now)
    requires forall k :: 0 <= k < |ts| ==> SixGiveUpAt(rows, six, ts[k].scenes)
    ensures x !in AttemptsOver(rows, ts, maxFires)
    ensures SameRows(rows, TicksOver(rows, ts, maxFires), six, x)
  {
    if ts != [] {
      var init, last := ts[..|ts| - 1], ts[|ts| - 1];
      var between := TicksOver(rows, init, maxFires);
      StarvedAtAnyTime(rows, init, six, x, now, maxFires);
      StillBehindSix(rows, between, six, x, now, last.now);
      assert SixGiveUpAt(rows, six, last.scenes);
      NotPickedBehindSix(between, six, x, last.now);
      TickPassesOver(between, six, x, last, maxFires);
    }
  }

  // ---------------------------------------------------------------------------
  // A supervise row never stops
  // ---------------------------------------------------------------------------

  /** What a supervise or balance row keeps: it is on, of its kind, with its renewal time. */
  predicate GoesOn(row: Row, r: Row) {
    r.active && r.kind == row.kind && r.renewSec == row.renewSec && r.fireCount >= row.fireCount
  }

  predicate Lasting(row: Row) {
    row.active && row.renewSec > 0 && (row.kind == SecretarySupervise || row.kind == BalanceLeadTick)
  }

  /** Its pane is never taken for missing or another mesh's; deliveries may succeed or be held. */
  predicate KeepsOwner(ts: seq<TickAt>, x: nat) {
    forall k :: 0 <= k < |ts| ==>
      x < |ts[k].scenes| && (ts[k].scenes[x].owner.Bound? || ts[k].scenes[x].owner.Gone?)
  }

  lemma LastingFire(row: Row, s: Scene, now: int, maxFires: int)
    requires Lasting(row) && (s.owner.Bound? || s.owner.Gone?)
    ensures var r := FireRow(row, s, now, maxFires);
            GoesOn(row, r) && Lasting(r)
            && (GetsThrough(s) && s.delivered ==>
                  r.fireCount == row.fireCount + 1 && r.expiresAt == now + row.renewSec * 1000)
  {
    EarlyEnd(row, s, now, maxFires);
    if GetsThrough(s) {
      SuperviseRow(row, s, now, maxFires);
    }
  }

  /**
   * Over any ticks at any times a supervise or balance row with a renewal time stays on for ever, as
   * long as its pane is in the mesh: delivered, it is renewed; held, it is retried.
   */
  lemma {:induction false} SuperviseNeverStops(rows: seq<Row>, ts: seq<TickAt>, x: nat, maxFires: int)
    requires x < |rows| && Lasting(rows[x]) && KeepsOwner(ts, x)
    requires forall k :: 0 <= k < |ts| ==> |ts[k].scenes| == |rows|
    ensures GoesOn(rows[x], TicksOver(rows, ts, maxFires)[x]) && Lasting(TicksOver(rows, ts, maxFires)[x])
  {
    if ts != [] {
      var init, last := ts[..|ts| - 1], ts[|ts| - 1];
      var between := TicksOver(rows, init, maxFires);
      SuperviseNeverStops(rows, init, x, maxFires);
      PickedAreDue(between, last.now);
      FireAllTouches(between, Picked(between, last.now), last.scenes, last.now, maxFires);
      LastingFire(between[x], last.scenes[x], last.now, maxFires);
    }
  }
}
