/**
 * A limit or proxy status stays on a pane's border until the pane has proved itself healthy
 * twice in a row. One pane at a time; whether a status counts as negative is read off its text
 * elsewhere and carried as a flag.
 */
module StickyBorder {
  import opened Basics

  const STICKY_CLEAR_VOTES := 2

  datatype Status = Status(text: string, negative: bool)

  datatype Sticky = Sticky(status: Status, clearVotes: nat)

  /** One paint: the status the border would show, and the composer phase (None without a capture). */
  datatype Paint = Paint(candidate: Status, phase: Option<Phase>)

  /** Evidence that the pane works; "idle" in an empty composer is not enough. */
  predicate Healthy(t: Paint) {
    match t.phase
    case Some(Busy) => true
    case Some(Typing) => true
    case Some(Afk) => true
    case Some(Empty) => t.candidate.text != "idle"
    case _ => false
  }

  function Apply(s: Option<Sticky>, t: Paint): (Option<Sticky>, Status) {
    if t.candidate.negative then (Some(Sticky(t.candidate, 0)), t.candidate)
    else if s.None? then (None, t.candidate)
    else if Healthy(t) then
      if s.value.clearVotes + 1 >= STICKY_CLEAR_VOTES then (None, t.candidate)
      else (Some(Sticky(s.value.status, s.value.clearVotes + 1)), s.value.status)
    else (Some(Sticky(s.value.status, 0)), s.value.status)
  }

  /** A paint, or a reset (a limit-idle override or an operator's request). */
  datatype Event = Shown(paint: Paint) | Reset

  function Step(s: Option<Sticky>, e: Event): Option<Sticky> {
    match e
    case Shown(t) => Apply(s, t).0
    case Reset => None
  }

  function Run(es: seq<Event>): Option<Sticky> {
    if es == [] then None else Step(Run(es[..|es| - 1]), es[|es| - 1])
  }

  predicate IsNegative(e: Event) {
    e.Shown? && e.paint.candidate.negative
  }

  /** A healthy paint that is not itself a negative status. */
  predicate Recovers(e: Event) {
    e.Shown? && !e.paint.candidate.negative
    && (e.paint.phase in {Some(Busy), Some(Typing), Some(Afk)}
        || (e.paint.phase == Some(Empty) && e.paint.candidate.text != "idle"))
  }

  /** Event i was a negative paint; since then no negative one, no reset and no two healthy ones in a row. */
  ghost predicate HeldSince(es: seq<Event>, i: int) {
    && 0 <= i < |es| && IsNegative(es[i])
    && (forall j :: i < j < |es| ==> es[j].Shown? && !IsNegative(es[j]))
    && (forall j, k :: i < j && k == j + 1 && k < |es| ==> !(Recovers(es[j]) && Recovers(es[k])))
  }

  lemma OneHolder(es: seq<Event>, i: int, j: int)
    requires HeldSince(es, i) && HeldSince(es, j)
    ensures i == j
  {
  }

  lemma HeldStays(es: seq<Event>, i: int, e: Event)
    requires HeldSince(es, i) && e.Shown? && !IsNegative(e)
    requires !(Recovers(e) && |es| - 1 > i && Recovers(es[|es| - 1]))
    ensures HeldSince(es + [e], i)
  {
    var more := es + [e];
    forall j | i < j < |more|
      ensures more[j].Shown? && !IsNegative(more[j])
    {
      assert j < |es| ==> more[j] == es[j];
    }
    forall j, k | i < j && k == j + 1 && k < |more|
      ensures !(Recovers(more[j]) && Recovers(more[k]))
    {
      assert more[j] == es[j];
      assert k < |es| ==> more[k] == es[k];
    }
  }

  lemma HeldBefore(es: seq<Event>, i: int, e: Event)
    requires HeldSince(es + [e], i) && i < |es|
    ensures HeldSince(es, i) && e.Shown? && !IsNegative(e)
    ensures !(Recovers(e) && |es| - 1 > i && Recovers(es[|es| - 1]))
  {
    var more := es + [e];
    forall j | i < j < |es|
      ensures es[j].Shown? && !IsNegative(es[j])
    {
      assert more[j] == es[j];
    }
    forall j, k | i < j && k == j + 1 && k < |es|
      ensures !(Recovers(es[j]) && Recovers(es[k]))
    {
      assert more[j] == es[j] && more[k] == es[k];
    }
    assert more[|es|] == e;
    if |es| - 1 > i {
      assert more[|es| - 1] == es[|es| - 1];
    }
  }

  /** What the stored state says about the events so far. */
  ghost predicate Describes(s: Option<Sticky>, es: seq<Event>) {
    && (s.None? ==> forall i :: !HeldSince(es, i))
    && (s.Some? ==> exists i :: HeldSince(es, i)
                             && s.value.status == es[i].paint.candidate
                             && s.value.clearVotes == if |es| - 1 > i && Recovers(es[|es| - 1]) then 1 else 0)
  }

  /** Nothing is held any more when nothing was, or when the holder has let go. */
  lemma NothingHeld(es: seq<Event>, e: Event)
    requires !IsNegative(e)
    requires forall i :: HeldSince(es, i) ==> e.Reset? || (Recovers(e) && |es| - 1 > i && Recovers(es[|es| - 1]))
    ensures forall j :: !HeldSince(es + [e], j)
  {
    forall j
      ensures !HeldSince(es + [e], j)
    {
      if HeldSince(es + [e], j) {
        assert (es + [e])[|es|] == e;
        HeldBefore(es, j, e);
      }
    }
  }

  lemma StepDescribes(s: Option<Sticky>, es: seq<Event>, e: Event)
    requires Describes(s, es)
    ensures Describes(Step(s, e), es + [e])
  {
    var more := es + [e];
    assert more[|es|] == e;
    if IsNegative(e) {
      assert HeldSince(more, |es|);
    } else if e.Reset? || s.None? {
      NothingHeld(es, e);
    } else {
      var i :| HeldSince(es, i) && s.value.status == es[i].paint.candidate
               && s.value.clearVotes == if |es| - 1 > i && Recovers(es[|es| - 1]) then 1 else 0;
      if Recovers(e) && s.value.clearVotes == 1 {
        forall j | HeldSince(es, j)
          ensures j == i
        {
          OneHolder(es, i, j);
        }
        NothingHeld(es, e);
      } else {
        HeldStays(es, i, e);
        assert more[i] == es[i];
      }
    }
  }

  lemma {:induction false} RunDescribes(es: seq<Event>)
    ensures Describes(Run(es), es)
  {
    if es != [] {
      var past := es[..|es| - 1];
      RunDescribes(past);
      StepDescribes(Run(past), past, es[|es| - 1]);
      assert past + [es[|es| - 1]] == es;
    }
  }

  /**
   * After any run of paints and resets, the border is held exactly when some negative paint has
   * not been followed by a reset or by two healthy paints in a row, and then it shows that
   * negative status.
   */
  lemma HeldIffNotTwiceHealthy(es: seq<Event>)
    ensures Run(es).Some? <==> exists i :: HeldSince(es, i)
    ensures forall i :: HeldSince(es, i) ==> Run(es).Some? && Run(es).value.status == es[i].paint.candidate
  {
    RunDescribes(es);
    forall i | HeldSince(es, i)
      ensures Run(es).Some? && Run(es).value.status == es[i].paint.candidate
    {
      var k :| HeldSince(es, k) && Run(es).value.status == es[k].paint.candidate;
      OneHolder(es, i, k);
    }
  }

  /**
   * What a paint shows: while some negative status is still held after it, the status of its holder,
   * and otherwise the status the pane has now.
   */
  lemma ShownStatus(es: seq<Event>, t: Paint, i: int)
    ensures HeldSince(es + [Shown(t)], i) ==>
              Apply(Run(es), t).1 == (if i == |es| then t.candidate else es[i].paint.candidate)
    ensures (forall j :: !HeldSince(es + [Shown(t)], j)) ==> Apply(Run(es), t).1 == t.candidate
  {
    var more := es + [Shown(t)];
    assert more[..|es|] == es && more[|es|] == Shown(t);
    HeldIffNotTwiceHealthy(more);
    assert Run(more) == Apply(Run(es), t).0;
    if HeldSince(more, i) && i < |es| {
      assert more[i] == es[i];
    }
  }

  class Stickies {
    var stickyNegativeByPane: map<string, Sticky>

    function Of(pane: string): Option<Sticky>
      reads this
    {
      if pane in stickyNegativeByPane then Some(stickyNegativeByPane[pane]) else None
    }

    method ApplyStickyNegativeStatus(pane: string, t: Paint) returns (shown: Status)
      modifies this
      ensures (Of(pane), shown) == Apply(old(Of(pane)), t)
      ensures forall other :: other != pane ==> Of(other) == old(Of(other))
    {
      if t.candidate.negative {
        stickyNegativeByPane := stickyNegativeByPane[pane := Sticky(t.candidate, 0)];
        return t.candidate;
      }
      if pane !in stickyNegativeByPane {
        return t.candidate;
      }
      var prev := stickyNegativeByPane[pane];
      if t.phase == Some(Limit) {
        stickyNegativeByPane := stickyNegativeByPane[pane := Sticky(prev.status, 0)];
        return prev.status;
      }
      if Healthy(t) {
        var votes := prev.clearVotes + 1;
        if votes >= STICKY_CLEAR_VOTES {
          stickyNegativeByPane := stickyNegativeByPane - {pane};
          return t.candidate;
        }
        stickyNegativeByPane := stickyNegativeByPane[pane := Sticky(prev.status, votes)];
        return prev.status;
      }
      stickyNegativeByPane := stickyNegativeByPane[pane := Sticky(prev.status, 0)];
      return prev.status;
    }

    /** Of one pane, or of all panes when none is named. */
    method ResetStickyNegativeStatus(pane: Option<string>)
      modifies this
      ensures forall p :: Of(p) == if pane.None? || pane == Some(p) then None else old(Of(p))
    {
      if pane.Some? {
        stickyNegativeByPane := stickyNegativeByPane - {pane.value};
      } else {
        stickyNegativeByPane := map[];
      }
    }
  }
}
