/** The round-robin scan of connectivity recovery reads every pane of a stable mesh. */
module ScanCoverage {
  import opened Basics
  import opened Rotation
  import opened Connectivity

  // ---------------------------------------------------------------------------
  // The scan offset on its own
  // ---------------------------------------------------------------------------

  /** The scan offset as the polls alone determine it. */
  function Cursor(cfg: Config, es: seq<Event>): nat {
    if es == [] then 0
    else CursorStep(cfg, Cursor(cfg, es[..|es| - 1]), es[|es| - 1])
  }

  function CursorStep(cfg: Config, offset: nat, e: Event): nat {
    if e.Poll? && cfg.enabled then NextOffset(e.input.panes, offset) else offset
  }

  lemma PhasesKeepOffset(cfg: Config, w: World, input: PollInput, anyRate: bool)
    ensures DownPhase(w, input).offset == w.offset && RatePhase(cfg, w, input, anyRate).offset == w.offset
  {
  }

  lemma StepMovesCursor(cfg: Config, w: World, e: Event)
    ensures Step(cfg, w, e).offset == CursorStep(cfg, w.offset, e)
  {
    if e.Poll? && cfg.enabled {
      var w1 := Observe(cfg, w, e.input);
      var anyRate := AnyRateLimit(w1.tables.cache, LiveIds(e.input.panes));
      PhasesKeepOffset(cfg, w1, e.input, anyRate);
      PhasesKeepOffset(cfg, DownPhase(w1, e.input), e.input, anyRate);
    }
  }

  lemma {:induction false} CursorIsOffset(cfg: Config, es: seq<Event>)
    ensures Run(cfg, es).offset == Cursor(cfg, es)
  {
    if es != [] {
      CursorIsOffset(cfg, es[..|es| - 1]);
      RunStep(cfg, es);
      StepMovesCursor(cfg, Run(cfg, es[..|es| - 1]), es[|es| - 1]);
    }
  }

  // ---------------------------------------------------------------------------
  // Polls of n panes each, with anything in between
  // ---------------------------------------------------------------------------

  function PollsIn(es: seq<Event>): nat {
    if es == [] then 0 else PollsIn(es[..|es| - 1]) + if es[|es| - 1].Poll? then 1 else 0
  }

  ghost predicate SamePanes(es: seq<Event>, n: nat) {
    forall j :: 0 <= j < |es| && es[j].Poll? ==> |es[j].input.panes| == n
  }

  lemma NextIsOffset(panes: seq<Pane>, offset: nat)
    requires panes != []
    ensures NextOffset(panes, offset) == Offset(|panes|, Min(PANE_SCAN_BATCH, |panes|), offset, 1)
  {
    assert Offset(|panes|, Min(PANE_SCAN_BATCH, |panes|), offset, 0) == offset;
  }

  lemma OneMore(n: int, w: int, start: nat, k: nat, before: nat, after: nat)
    requires n > 0 && w >= 0
    requires before == Offset(n, w, start, k) && after == Offset(n, w, before, 1)
    ensures after == Offset(n, w, start, k + 1)
  {
    assert Offset(n, w, before, 0) == before;
  }

  lemma CursorOfOneMore(cfg: Config, es: seq<Event>, e: Event)
    ensures Cursor(cfg, es + [e]) == CursorStep(cfg, Cursor(cfg, es), e)
  {
    assert (es + [e])[..|es|] == es;
  }

  ghost predicate CursorAt(cfg: Config, es: seq<Event>, later: seq<Event>, n: int)
    requires n > 0
  {
    Cursor(cfg, es + later) == Offset(n, Min(PANE_SCAN_BATCH, n), Cursor(cfg, es), PollsIn(later))
  }

  lemma CursorOfPoll(cfg: Config, es: seq<Event>, e: Event)
    requires cfg.enabled && e.Poll? && e.input.panes != []
    ensures Cursor(cfg, es + [e]) == Offset(|e.input.panes|, Min(PANE_SCAN_BATCH, |e.input.panes|), Cursor(cfg, es), 1)
  {
    CursorOfOneMore(cfg, es, e);
    NextIsOffset(e.input.panes, Cursor(cfg, es));
  }

  lemma PollsInMore(es: seq<Event>, e: Event)
    ensures PollsIn(es + [e]) == PollsIn(es) + if e.Poll? then 1 else 0
  {
    assert (es + [e])[..|es|] == es;
  }

  lemma PollMovesCursor(cfg: Config, es: seq<Event>, past: seq<Event>, e: Event, n: nat)
    requires cfg.enabled && n > 0 && e.Poll? && |e.input.panes| == n && CursorAt(cfg, es, past, n)
    ensures CursorAt(cfg, es, past + [e], n)
  {
    var before, after := Cursor(cfg, es + past), Cursor(cfg, es + (past + [e]));
    assert es + (past + [e]) == (es + past) + [e];
    CursorOfPoll(cfg, es + past, e);
    PollsInMore(past, e);
    OneMore(n, Min(PANE_SCAN_BATCH, n), Cursor(cfg, es), PollsIn(past), before, after);
  }

  lemma OtherEventKeepsCursor(cfg: Config, es: seq<Event>, past: seq<Event>, e: Event, n: nat)
    requires n > 0 && !e.Poll? && CursorAt(cfg, es, past, n)
    ensures CursorAt(cfg, es, past + [e], n)
  {
    assert es + (past + [e]) == (es + past) + [e];
    CursorOfOneMore(cfg, es + past, e);
    PollsInMore(past, e);
  }

  lemma {:induction false} CursorAfter(cfg: Config, es: seq<Event>, later: seq<Event>, n: nat)
    requires cfg.enabled && n > 0 && SamePanes(later, n)
    ensures CursorAt(cfg, es, later, n)
  {
    if later == [] {
      assert es + later == es;
    } else {
      var past, e := later[..|later| - 1], later[|later| - 1];
      assert past + [e] == later;
      CursorAfter(cfg, es, past, n);
      if e.Poll? {
        PollMovesCursor(cfg, es, past, e, n);
      } else {
        OtherEventKeepsCursor(cfg, es, past, e, n);
      }
    }
  }

  /** The k-th poll of a stretch of events. */
  lemma {:induction false} KthPoll(es: seq<Event>, k: nat) returns (p: nat)
    requires k < PollsIn(es)
    ensures p < |es| && es[p].Poll? && PollsIn(es[..p]) == k
  {
    var n := |es| - 1;
    if es[n].Poll? && PollsIn(es[..n]) == k {
      p := n;
    } else {
      p := KthPoll(es[..n], k);
      assert es[..n][..p] == es[..p];
    }
  }

  lemma InBatch(panes: seq<Pane>, offset: nat, d: nat, i: nat)
    requires i < |panes| && d < PANE_SCAN_BATCH && d < |panes| && (offset + d) % |panes| == i
    ensures panes[i] in Batch(panes, offset)
  {
    assert Batch(panes, offset)[d] == panes[i];
  }

  lemma SameWindows(n: nat)
    requires n > 0
    ensures CeilDiv(n, Min(PANE_SCAN_BATCH, n)) == CeilDiv(n, PANE_SCAN_BATCH)
  {
    if n < PANE_SCAN_BATCH {
      assert n == 1 || n == 2 || n == 3;
    }
  }

  lemma CursorCovers(cfg: Config, es: seq<Event>, later: seq<Event>, n: nat, i: nat)
    returns (p: nat)
    requires cfg.enabled && i < n && SamePanes(later, n) && PollsIn(later) >= CeilDiv(n, 4)
    ensures p < |later| && later[p].Poll?
    ensures later[p].input.panes[i] in Batch(later[p].input.panes, Cursor(cfg, es + later[..p]))
  {
    var w := Min(PANE_SCAN_BATCH, n);
    SameWindows(n);
    var k, d := WindowsCover(n, w, Cursor(cfg, es), i);
    p := KthPoll(later, k);
    CursorAfter(cfg, es, later[..p], n);
    InBatch(later[p].input.panes, Offset(n, w, Cursor(cfg, es), k), d, i);
  }

  /**
   * Whatever happened before, while the mesh keeps its n panes any stretch of events with at least
   * ceil(n / 4) polls in it reads every one of them.
   */
  lemma EveryPaneIsScanned(cfg: Config, es: seq<Event>, later: seq<Event>, n: nat, i: nat)
    returns (p: nat)
    requires cfg.enabled && i < n && SamePanes(later, n) && PollsIn(later) >= CeilDiv(n, 4)
    ensures p < |later| && later[p].Poll?
    ensures later[p].input.panes[i] in Batch(later[p].input.panes, Run(cfg, es + later[..p]).offset)
  {
    p := CursorCovers(cfg, es, later, n, i);
    CursorIsOffset(cfg, es + later[..p]);
  }
}
