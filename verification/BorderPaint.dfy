/**
 * Which worker and mini borders a tick repaints: all of them on a small or quiet mesh, otherwise
 * the panes with pending mail and then a rotating window of the rest. Panes are their ids; the
 * labels carried beside them play no part in the choice.
 */
module BorderPaint {
  import opened Basics
  import opened Rotation

  const FULL_BANNER_PAINT_EVERY_TICK := 10

  type Pane = string

  datatype Selection = Selection(selected: seq<Pane>, nextOffset: nat)

  function PendingOf(pending: map<Pane, nat>, p: Pane): nat {
    if p in pending then pending[p] else 0
  }

  function Keep(targets: seq<Pane>, pending: map<Pane, nat>, busy: bool): (r: seq<Pane>)
    ensures forall x :: x in r <==> x in targets && (PendingOf(pending, x) > 0) == busy
  {
    if targets == [] then []
    else
      var rest := Keep(targets[..|targets| - 1], pending, busy);
      if (PendingOf(pending, targets[|targets| - 1]) > 0) == busy then rest + [targets[|targets| - 1]] else rest
  }

  function AddNew(sel: seq<Pane>, p: Pane): seq<Pane> {
    if p in sel then sel else sel + [p]
  }

  /** Priority panes in order, until the cap. */
  function TakePriority(sel: seq<Pane>, prio: seq<Pane>, cap: nat): seq<Pane>
    decreases |prio|
  {
    if prio == [] || |sel| >= cap then sel else TakePriority(AddNew(sel, prio[0]), prio[1..], cap)
  }

  function TakeWindow(sel: seq<Pane>, rest: seq<Pane>, offset: nat, room: nat): seq<Pane> {
    if room == 0 || rest == [] then sel
    else AddNew(TakeWindow(sel, rest, offset, room - 1), rest[(offset + (room - 1)) % |rest|])
  }

  predicate Batched(targets: seq<Pane>, pending: map<Pane, nat>) {
    |targets| > FULL_BANNER_PAINT_EVERY_TICK && |pending| != 0
  }

  function Select(targets: seq<Pane>, pending: map<Pane, nat>, offset: nat, cap: nat): Selection {
    if !Batched(targets, pending) then Selection(targets, 0)
    else
      var rest := Keep(targets, pending, false);
      var first := TakePriority([], Keep(targets, pending, true), cap);
      var room := if |first| <= cap then cap - |first| else 0;
      Selection(TakeWindow(first, rest, offset, room), if rest == [] then 0 else (offset + room) % |rest|)
  }

  // ---------------------------------------------------------------------------
  // Each selection
  // ---------------------------------------------------------------------------

  lemma {:induction false} PriorityTaken(sel: seq<Pane>, prio: seq<Pane>, cap: nat)
    requires Distinct(sel) && |sel| <= cap
    ensures var r := TakePriority(sel, prio, cap);
            && Distinct(r) && |sel| <= |r| <= cap
            && (forall x :: x in sel ==> x in r)
            && (forall x :: x in r ==> x in sel || x in prio)
            && (|r| < cap ==> forall x :: x in prio ==> x in r)
    decreases |prio|
  {
    if prio != [] && |sel| < cap {
      PriorityTaken(AddNew(sel, prio[0]), prio[1..], cap);
      assert prio == [prio[0]] + prio[1..];
    }
  }

  lemma {:induction false} WindowTaken(sel: seq<Pane>, rest: seq<Pane>, offset: nat, room: nat)
    requires Distinct(sel)
    ensures var r := TakeWindow(sel, rest, offset, room);
            && Distinct(r) && |sel| <= |r| <= |sel| + room
            && (forall x :: x in sel ==> x in r)
            && (forall x :: x in r ==> x in sel || x in rest)
  {
    if room > 0 && rest != [] {
      WindowTaken(sel, rest, offset, room - 1);
    }
  }

  lemma {:induction false} InWindow(sel: seq<Pane>, rest: seq<Pane>, offset: nat, room: nat, d: nat)
    requires d < room && rest != []
    ensures rest[(offset + d) % |rest|] in TakeWindow(sel, rest, offset, room)
  {
    if d < room - 1 {
      InWindow(sel, rest, offset, room - 1, d);
    }
  }

  /** A batched selection names real panes, none twice, and stays within the cap. */
  lemma BatchIsBounded(targets: seq<Pane>, pending: map<Pane, nat>, offset: nat, cap: nat)
    requires Batched(targets, pending)
    ensures Distinct(Select(targets, pending, offset, cap).selected)
    ensures |Select(targets, pending, offset, cap).selected| <= cap
    ensures forall x :: x in Select(targets, pending, offset, cap).selected ==> x in targets
  {
    var prio, rest := Keep(targets, pending, true), Keep(targets, pending, false);
    var first := TakePriority([], prio, cap);
    PriorityTaken([], prio, cap);
    WindowTaken(first, rest, offset, cap - |first|);
    assert Select(targets, pending, offset, cap).selected == TakeWindow(first, rest, offset, cap - |first|);
  }

  /** A mesh of at most ten panes, or one without any mail, is painted whole and starts the rotation over. */
  lemma SmallOrQuietIsPaintedWhole(targets: seq<Pane>, pending: map<Pane, nat>, offset: nat, cap: nat)
    ensures |targets| <= 10 || pending == map[] ==>
              Select(targets, pending, offset, cap) == Selection(targets, 0)
    ensures |targets| > 10 && pending != map[] ==> Batched(targets, pending)
  {
  }

  lemma KeepMore(targets: seq<Pane>, p: Pane, pending: map<Pane, nat>, busy: bool)
    ensures Keep(targets + [p], pending, busy)
         == Keep(targets, pending, busy) + if (PendingOf(pending, p) > 0) == busy then [p] else []
  {
    assert (targets + [p])[..|targets|] == targets;
  }

  lemma {:induction false} KeepAppend(a: seq<Pane>, b: seq<Pane>, pending: map<Pane, nat>, busy: bool)
    ensures Keep(a + b, pending, busy) == Keep(a, pending, busy) + Keep(b, pending, busy)
    decreases |b|
  {
    if b == [] {
      assert a + b == a && Keep(a, pending, busy) + [] == Keep(a, pending, busy);
    } else {
      var init, p := b[..|b| - 1], b[|b| - 1];
      assert a + b == (a + init) + [p] && b == init + [p];
      KeepAppend(a, init, pending, busy);
      KeepMore(a + init, p, pending, busy);
      KeepMore(init, p, pending, busy);
    }
  }

  lemma KeepInOrder(targets: seq<Pane>, pending: map<Pane, nat>, busy: bool, j: nat)
    requires j < |targets| && (PendingOf(pending, targets[j]) > 0) == busy
    ensures var kept, before := Keep(targets, pending, busy), Keep(targets[..j], pending, busy);
            |before| < |kept| && kept[..|before|] == before && kept[|before|] == targets[j]
  {
    var front, back := targets[..j] + [targets[j]], targets[j + 1..];
    assert targets == front + back;
    KeepAppend(front, back, pending, busy);
    KeepMore(targets[..j], targets[j], pending, busy);
  }

  lemma {:induction false} TakenInOrder(sel: seq<Pane>, prio: seq<Pane>, cap: nat, m: nat)
    requires m < |prio| && prio[m] in TakePriority(sel, prio, cap) && prio[m] !in sel
    ensures forall k :: 0 <= k < m ==> prio[k] in TakePriority(sel, prio, cap) || prio[m] in prio[..k]
    decreases |prio|
  {
    if |sel| < cap {
      var next := AddNew(sel, prio[0]);
      TakenKeeps(next, prio[1..], cap);
      if m > 0 && prio[m] != prio[0] {
        TakenInOrder(next, prio[1..], cap, m - 1);
        forall k | 0 <= k < m
          ensures prio[k] in TakePriority(sel, prio, cap) || prio[m] in prio[..k]
        {
          if k > 0 {
            assert prio[1..][k - 1] == prio[k];
            if prio[m] in prio[1..][..k - 1] {
              assert prio[1..][..k - 1] == prio[1..k];
              assert prio[..k] == [prio[0]] + prio[1..k];
            }
          }
        }
      } else if m > 0 {
        forall k | 0 <= k < m
          ensures prio[k] in TakePriority(sel, prio, cap) || prio[m] in prio[..k]
        {
          assert k > 0 ==> prio[..k][0] == prio[m];
        }
      }
    }
  }

  lemma {:induction false} TakenKeeps(sel: seq<Pane>, prio: seq<Pane>, cap: nat)
    ensures forall x :: x in sel ==> x in TakePriority(sel, prio, cap)
    decreases |prio|
  {
    if prio != [] && |sel| < cap {
      TakenKeeps(AddNew(sel, prio[0]), prio[1..], cap);
    }
  }

  /** Of the panes with mail those earlier in the list go first. */
  lemma EarlierPaneGoesFirst(targets: seq<Pane>, pending: map<Pane, nat>, cap: nat, i: nat, j: nat)
    requires i < j < |targets| && PendingOf(pending, targets[i]) > 0 && PendingOf(pending, targets[j]) > 0
    requires targets[j] !in targets[..j]
    requires targets[j] in TakePriority([], Keep(targets, pending, true), cap)
    ensures targets[i] in TakePriority([], Keep(targets, pending, true), cap)
  {
    var kept := Keep(targets, pending, true);
    KeepInOrder(targets, pending, true, i);
    KeepInOrder(targets, pending, true, j);
    var before, m := |Keep(targets[..i], pending, true)|, |Keep(targets[..j], pending, true)|;
    KeepInOrder(targets[..j], pending, true, i);
    assert targets[..j][..i] == targets[..i];
    assert targets[j] !in Keep(targets[..j], pending, true);
    assert before < m;
    TakenInOrder([], kept, cap, m);
    assert kept[..before] == kept[..m][..before];
    assert forall x :: x in kept[..before] ==> x in kept[..m];
  }

  /** What the cap does to the priority panes alone. */
  lemma PriorityUnderCap(prio: seq<Pane>, cap: nat)
    ensures var first, all := TakePriority([], prio, cap), set x | x in prio;
            && |first| <= cap
            && ((forall x :: x in prio ==> x in first) <==> |all| <= cap)
            && (|all| >= cap ==> |first| == cap)
  {
    var first := TakePriority([], prio, cap);
    PriorityTaken([], prio, cap);
    DistinctCount(first);
    var all := set x | x in prio;
    var taken := set x | x in first;
    assert taken <= all;
    SubsetSize(taken, all);
    if forall x :: x in prio ==> x in first {
      assert all == taken;
    } else if |all| <= cap {
      var x :| x in prio && x !in first;
      assert x in all;
      SameSizeSubset(taken, all);
      assert false;
    }
  }

  lemma FullCapLeavesNoRoom(targets: seq<Pane>, pending: map<Pane, nat>, offset: nat, cap: nat)
    requires Batched(targets, pending) && |TakePriority([], Keep(targets, pending, true), cap)| == cap
    ensures Select(targets, pending, offset, cap).selected == TakePriority([], Keep(targets, pending, true), cap)
    ensures Keep(targets, pending, false) != [] ==>
              Select(targets, pending, offset, cap).nextOffset == offset % |Keep(targets, pending, false)|
  {
  }

  /**
   * Pending mail does not always get a pane painted: all such panes are selected exactly when
   * they fit under the cap. Otherwise the cap is full of them, and neither the quiet panes nor
   * the rotation move at all.
   */
  lemma PriorityFitsOrStarves(targets: seq<Pane>, pending: map<Pane, nat>, offset: nat, cap: nat)
    requires Batched(targets, pending)
    ensures (forall x :: x in Keep(targets, pending, true) ==> x in Select(targets, pending, offset, cap).selected)
            <==> |set x | x in Keep(targets, pending, true)| <= cap
    ensures |set x | x in Keep(targets, pending, true)| >= cap ==>
              && |Select(targets, pending, offset, cap).selected| == cap
              && (forall x :: x in Select(targets, pending, offset, cap).selected ==> x in Keep(targets, pending, true))
              && (Keep(targets, pending, false) != [] ==>
                    Select(targets, pending, offset, cap).nextOffset == offset % |Keep(targets, pending, false)|)
  {
    var prio := Keep(targets, pending, true);
    var first := TakePriority([], prio, cap);
    PriorityUnderCap(prio, cap);
    PriorityTaken([], prio, cap);
    if |first| == cap {
      FullCapLeavesNoRoom(targets, pending, offset, cap);
    } else {
      WindowTaken(first, Keep(targets, pending, false), offset, cap - |first|);
    }
  }

  lemma SubsetSize(a: set<Pane>, b: set<Pane>)
    requires a <= b
    ensures |a| <= |b|
  {
    assert b == a + (b - a);
  }

  lemma SameSizeSubset(a: set<Pane>, b: set<Pane>)
    requires a <= b && |b| <= |a|
    ensures a == b
  {
    assert b == a + (b - a);
  }

  // ---------------------------------------------------------------------------
  // The rotation
  // ---------------------------------------------------------------------------

  /** The offset before the k-th of a run of ticks with the same panes and the same mail. */
  function PaintOffset(targets: seq<Pane>, pending: map<Pane, nat>, cap: nat, start: nat, k: nat): nat {
    if k == 0 then start
    else Select(targets, pending, PaintOffset(targets, pending, cap, start, k - 1), cap).nextOffset
  }

  lemma {:induction false} PaintOffsetIsRotation(targets: seq<Pane>, pending: map<Pane, nat>, cap: nat,
                                                 start: nat, k: nat)
    requires Batched(targets, pending) && Keep(targets, pending, false) != []
    requires |TakePriority([], Keep(targets, pending, true), cap)| <= cap
    ensures PaintOffset(targets, pending, cap, start, k)
         == Offset(|Keep(targets, pending, false)|, cap - |TakePriority([], Keep(targets, pending, true), cap)|,
                  start, k)
  {
    if k > 0 {
      PaintOffsetIsRotation(targets, pending, cap, start, k - 1);
    }
  }

  /**
   * While the mesh and its mail stay the same and mail leaves room under the cap, any
   * ceil(|rest| / room) ticks in a row repaint every pane without mail.
   */
  lemma EveryQuietPaneIsPainted(targets: seq<Pane>, pending: map<Pane, nat>, cap: nat, start: nat, p: Pane)
    returns (k: nat)
    requires Batched(targets, pending) && p in targets && PendingOf(pending, p) == 0
    requires |TakePriority([], Keep(targets, pending, true), cap)| < cap
    ensures k < CeilDiv(|Keep(targets, pending, false)|, cap - |TakePriority([], Keep(targets, pending, true), cap)|)
    ensures p in Select(targets, pending, PaintOffset(targets, pending, cap, start, k), cap).selected
  {
    var rest := Keep(targets, pending, false);
    var room := cap - |TakePriority([], Keep(targets, pending, true), cap)|;
    var d, i;
    k, d, i := WindowWith(rest, room, start, p);
    TickSelects(targets, pending, cap, start, rest, room, k, d, i);
  }

  lemma TickSelects(targets: seq<Pane>, pending: map<Pane, nat>, cap: nat, start: nat, rest: seq<Pane>, room: int,
                    k: nat, d: nat, i: nat)
    requires Batched(targets, pending) && rest == Keep(targets, pending, false)
    requires room == cap - |TakePriority([], Keep(targets, pending, true), cap)|
    requires i < |rest| && d < room && (Offset(|rest|, room, start, k) + d) % |rest| == i
    ensures rest[i] in Select(targets, pending, PaintOffset(targets, pending, cap, start, k), cap).selected
  {
    PaintOffsetIsRotation(targets, pending, cap, start, k);
    WindowSelected(targets, pending, PaintOffset(targets, pending, cap, start, k), cap, d, i);
  }

  lemma WindowWith(rest: seq<Pane>, room: int, start: nat, p: Pane) returns (k: nat, d: nat, i: nat)
    requires p in rest && room > 0
    ensures i < |rest| && rest[i] == p && k < CeilDiv(|rest|, room) && d < room
    ensures (Offset(|rest|, room, start, k) + d) % |rest| == i
  {
    i :| i < |rest| && rest[i] == p;
    k, d := WindowsCover(|rest|, room, start, i);
  }

  lemma WindowSelected(targets: seq<Pane>, pending: map<Pane, nat>, offset: nat, cap: nat, d: nat, i: nat)
    requires Batched(targets, pending) && |TakePriority([], Keep(targets, pending, true), cap)| + d < cap
    requires i < |Keep(targets, pending, false)| && (offset + d) % |Keep(targets, pending, false)| == i
    ensures Keep(targets, pending, false)[i] in Select(targets, pending, offset, cap).selected
  {
    var first := TakePriority([], Keep(targets, pending, true), cap);
    InWindow(first, Keep(targets, pending, false), offset, cap - |first|, d);
  }

  // ---------------------------------------------------------------------------
  // The loops of the program
  // ---------------------------------------------------------------------------

  method AddPriority(priority: seq<Pane>, batchCap: nat) returns (selected: seq<Pane>, seen: set<Pane>)
    ensures selected == TakePriority([], priority, batchCap) && |selected| <= batchCap
    ensures forall x :: x in seen <==> x in selected
  {
    selected, seen := [], {};
    var k := 0;
    while k < |priority| && |selected| < batchCap
      invariant 0 <= k <= |priority| && |selected| <= batchCap
      invariant forall x :: x in seen <==> x in selected
      invariant TakePriority(selected, priority[k..], batchCap) == TakePriority([], priority, batchCap)
    {
      if priority[k] !in seen {
        seen := seen + {priority[k]};
        selected := selected + [priority[k]];
      }
      k := k + 1;
    }
  }

  method AddWindow(first: seq<Pane>, firstSeen: set<Pane>, rest: seq<Pane>, offset: nat, room: nat)
    returns (selected: seq<Pane>)
    requires forall x :: x in firstSeen <==> x in first
    ensures selected == TakeWindow(first, rest, offset, room)
  {
    var seen := firstSeen;
    selected := first;
    var i := 0;
    while i < room && |rest| > 0
      invariant 0 <= i <= room
      invariant forall x :: x in seen <==> x in selected
      invariant selected == TakeWindow(first, rest, offset, i)
    {
      var t := rest[(offset + i) % |rest|];
      if t !in seen {
        seen := seen + {t};
        selected := selected + [t];
      }
      i := i + 1;
    }
  }

  method SelectWorkerMiniPaintTargets(targets: seq<Pane>, peerPendingByPane: map<Pane, nat>, offset: nat, batchCap: nat)
    returns (r: Selection)
    ensures r == Select(targets, peerPendingByPane, offset, batchCap)
  {
    if |targets| <= FULL_BANNER_PAINT_EVERY_TICK || |peerPendingByPane| == 0 {
      return Selection(targets, 0);
    }
    var priority := Keep(targets, peerPendingByPane, true);
    var rest := Keep(targets, peerPendingByPane, false);
    var first, seen := AddPriority(priority, batchCap);
    var room := batchCap - |first|;
    var selected := AddWindow(first, seen, rest, offset, room);
    return Selection(selected, if |rest| > 0 then (offset + room) % |rest| else 0);
  }
}
