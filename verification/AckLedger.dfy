/**
 * The ACK ledger's matching step: open asks are paired with filings their own seat made later.
 * `Match` is the reference ("oldest open ask first, one filing per ask"); the loops of the program,
 * in `AckMatcher`, are proved equal to it. Main result: no pairing closes more asks in one call.
 */
module AckLedger {
  import opened Basics

  datatype AckSource = Operator | Inbox | Peer | Room
  datatype AckCloseBy = Explicit | Filed | ByOperator | PaneReply

  /** `seat` is held in the form the program compares: trimmed and lower-cased. */
  datatype AckRow = AckRow(
    id: string,
    at: int,
    seat: string,
    paneId: string,
    source: AckSource,
    ask: string,
    ackedAt: Option<int>,
    ackBy: Option<AckCloseBy>,
    ackNote: Option<string>)

  datatype SeatFiling = SeatFiling(seat: string, at: int, what: string)

  const ACK_ASK_MAX := 200

  predicate IsOpen(row: AckRow) {
    row.ackedAt.None?
  }

  function ClipNote(note: string): string {
    if |note| > ACK_ASK_MAX then note[..ACK_ASK_MAX - 1] + "…" else note
  }

  /** `note` is given with its white space already collapsed; an empty note keeps the old one. */
  function CloseAckRow(row: AckRow, who: AckCloseBy, note: string, now: int): (r: AckRow)
    ensures !IsOpen(r)
    ensures r.(ackedAt := row.ackedAt, ackBy := row.ackBy, ackNote := row.ackNote) == row
  {
    row.(ackedAt := Some(now),
         ackBy := Some(who),
         ackNote := if note == "" then row.ackNote else Some(ClipNote(note)))
  }

  /** A closed row says when, by whom and, unless the note was empty, with what note of at most 200 characters. */
  predicate ClosedAs(row: AckRow, r: AckRow, who: AckCloseBy, note: string, now: int) {
    && r == row.(ackedAt := Some(now), ackBy := Some(who), ackNote := r.ackNote)
    && (note == "" ==> r.ackNote == row.ackNote)
    && (0 < |note| <= 200 ==> r.ackNote == Some(note))
    && (|note| > 200 ==> r.ackNote.Some? && |r.ackNote.value| == 200 && r.ackNote.value[..199] == note[..199]
                         && r.ackNote.value[199..] == "…")
  }

  lemma CloseSays(row: AckRow, who: AckCloseBy, note: string, now: int)
    ensures ClosedAs(row, CloseAckRow(row, who, note, now), who, note, now)
  {
  }

  /** A filing answers an ask when it is from the same seat and strictly later. */
  predicate Answers(row: AckRow, f: SeatFiling) {
    row.seat == f.seat && row.at < f.at
  }

  // ---------------------------------------------------------------------------
  // Filings in time order
  // ---------------------------------------------------------------------------

  ghost predicate ByTime(fs: seq<SeatFiling>) {
    forall i, j :: 0 <= i < j < |fs| ==> fs[i].at <= fs[j].at
  }

  function InsertFiling(f: SeatFiling, fs: seq<SeatFiling>): (r: seq<SeatFiling>)
    ensures multiset(r) == multiset(fs) + multiset{f}
  {
    if fs == [] then [f]
    else if fs[0].at < f.at then
      assert fs == [fs[0]] + fs[1..];
      [fs[0]] + InsertFiling(f, fs[1..])
    else [f] + fs
  }

  function SortFilings(fs: seq<SeatFiling>): (r: seq<SeatFiling>)
    ensures multiset(r) == multiset(fs)
  {
    if fs == [] then []
    else
      assert fs == [fs[0]] + fs[1..];
      InsertFiling(fs[0], SortFilings(fs[1..]))
  }

  lemma {:induction false} InsertFilingByTime(f: SeatFiling, fs: seq<SeatFiling>)
    requires ByTime(fs)
    ensures ByTime(InsertFiling(f, fs))
  {
    if fs != [] && fs[0].at < f.at {
      InsertFilingByTime(f, fs[1..]);
      var rest := InsertFiling(f, fs[1..]);
      forall k | 0 <= k < |rest|
        ensures fs[0].at <= rest[k].at
      {
        assert rest[k] in multiset(rest);
        assert rest[k] == f || rest[k] in fs[1..];
      }
    }
  }

  lemma {:induction false} SortFilingsByTime(fs: seq<SeatFiling>)
    ensures ByTime(SortFilings(fs))
  {
    if fs != [] {
      SortFilingsByTime(fs[1..]);
      InsertFilingByTime(fs[0], SortFilings(fs[1..]));
    }
  }

  // ---------------------------------------------------------------------------
  // The reference matching
  // ---------------------------------------------------------------------------

  /** `i` is older than `j`; rows opened at the same instant keep ledger order. */
  predicate Older(rows: seq<AckRow>, i: nat, j: nat)
    requires i < |rows| && j < |rows|
  {
    rows[i].at < rows[j].at || (rows[i].at == rows[j].at && i < j)
  }

  predicate Eligible(rows: seq<AckRow>, f: SeatFiling, taken: set<nat>, i: nat) {
    i < |rows| && i !in taken && IsOpen(rows[i]) && Answers(rows[i], f)
  }

  /** The oldest eligible ask at or after position `from`; `|rows|` when there is none. */
  function OldestEligible(rows: seq<AckRow>, f: SeatFiling, taken: set<nat>, from: nat): (r: nat)
    requires from <= |rows|
    ensures from <= r <= |rows|
    ensures r < |rows| ==> Eligible(rows, f, taken, r)
    ensures forall j: nat :: from <= j < |rows| && Eligible(rows, f, taken, j) ==>
              r < |rows| && (j == r || Older(rows, r, j))
    decreases |rows| - from
  {
    if from == |rows| then from
    else
      var later := OldestEligible(rows, f, taken, from + 1);
      if Eligible(rows, f, taken, from) && (later == |rows| || rows[from].at <= rows[later].at)
      then from else later
  }

  /** Ask `row` (a ledger position) is closed by filing `filing` (a position in time order). */
  datatype Match = Match(row: nat, filing: nat)

  /** Each filing from position `k` on takes the oldest eligible ask that is not taken yet. */
  function MatchFrom(rows: seq<AckRow>, fs: seq<SeatFiling>, k: nat, taken: set<nat>): (ms: seq<Match>)
    requires k <= |fs|
    ensures forall n :: 0 <= n < |ms| ==> k <= ms[n].filing < |fs|
    ensures forall n :: 0 <= n < |ms| ==> Eligible(rows, fs[ms[n].filing], taken, ms[n].row)
    decreases |fs| - k
  {
    if k == |fs| then []
    else
      var i := OldestEligible(rows, fs[k], taken, 0);
      if i == |rows| then MatchFrom(rows, fs, k + 1, taken)
      else [Match(i, k)] + MatchFrom(rows, fs, k + 1, taken + {i})
  }

  function MatchAll(rows: seq<AckRow>, filings: seq<SeatFiling>): seq<Match> {
    MatchFrom(rows, SortFilings(filings), 0, {})
  }

  ghost function MatchedRows(ms: seq<Match>): set<nat> {
    set n | 0 <= n < |ms| :: ms[n].row
  }

  lemma MatchedRowsCons(m: Match, rest: seq<Match>)
    ensures MatchedRows([m] + rest) == MatchedRows(rest) + {m.row}
  {
    var ms := [m] + rest;
    forall v | v in MatchedRows(rest)
      ensures v in MatchedRows(ms)
    {
      var n :| 0 <= n < |rest| && rest[n].row == v;
      assert ms[n + 1].row == v;
    }
    assert ms[0].row == m.row;
    forall v | v in MatchedRows(ms)
      ensures v in MatchedRows(rest) + {m.row}
    {
      var n :| 0 <= n < |ms| && ms[n].row == v;
      if n > 0 {
        assert rest[n - 1].row == v;
      }
    }
  }

  // ---------------------------------------------------------------------------
  // Maximality
  // ---------------------------------------------------------------------------

  ghost predicate Injective(p: map<nat, nat>) {
    forall a, b :: a in p && b in p && a != b ==> p[a] != p[b]
  }

  predicate CanClose(rows: seq<AckRow>, fs: seq<SeatFiling>, j: nat, i: nat) {
    j < |fs| && i < |rows| && IsOpen(rows[i]) && Answers(rows[i], fs[j])
  }

  /** A pairing sends filings to open asks they answer, using each filing and each ask at most once. */
  ghost predicate IsPairing(rows: seq<AckRow>, fs: seq<SeatFiling>, p: map<nat, nat>) {
    Injective(p) && forall j :: j in p ==> CanClose(rows, fs, j, p[j])
  }

  ghost predicate PairsBeyond(p: map<nat, nat>, k: nat, taken: set<nat>) {
    forall j :: j in p ==> k <= j && p[j] !in taken
  }

  lemma DropSize(p: map<nat, nat>, j: nat)
    ensures |p - {j}| == if j in p then |p| - 1 else |p|
  {
    assert (p - {j}).Keys == p.Keys - {j};
  }

  /** Giving filing `j` the ask that filing `k` had keeps a pairing, since `j` is later. */
  lemma HandOver(rows: seq<AckRow>, fs: seq<SeatFiling>, p: map<nat, nat>, k: nat, j: nat)
    requires IsPairing(rows, fs, p) && ByTime(fs)
    requires k in p && j in p && k < j && fs[k].seat == fs[j].seat
    ensures IsPairing(rows, fs, (p - {k})[j := p[k]])
    ensures |(p - {k})[j := p[k]]| == |p| - 1
  {
    var q := (p - {k})[j := p[k]];
    DropSize(p, k);
    assert q.Keys == (p - {k}).Keys;
    forall a | a in q
      ensures CanClose(rows, fs, a, q[a])
    {
      assert CanClose(rows, fs, k, p[k]) && CanClose(rows, fs, a, p[a]);
    }
  }

  /**
   * Exchange argument: swapping whatever a rival pairing does with filing `k` and ask `i`
   * for the greedy choice costs the rival at most one pair.
   */
  lemma Exchange(rows: seq<AckRow>, fs: seq<SeatFiling>, k: nat, taken: set<nat>, i: nat, p: map<nat, nat>)
    returns (q: map<nat, nat>)
    requires k < |fs| && ByTime(fs)
    requires Eligible(rows, fs[k], taken, i)
    requires IsPairing(rows, fs, p) && PairsBeyond(p, k, taken)
    ensures IsPairing(rows, fs, q) && PairsBeyond(q, k + 1, taken + {i})
    ensures |p| <= |q| + 1
  {
    DropSize(p, k);
    q := p - {k};
    if j :| j in q && q[j] == i {
      assert CanClose(rows, fs, j, p[j]);
      if k in p {
        HandOver(rows, fs, p, k, j);
        q := q[j := p[k]];
      } else {
        DropSize(p, j);
        q := p - {j};
      }
    }
  }

  lemma {:induction false} GreedyIsMaximum(
      rows: seq<AckRow>, fs: seq<SeatFiling>, k: nat, taken: set<nat>, p: map<nat, nat>)
    requires k <= |fs| && ByTime(fs)
    requires IsPairing(rows, fs, p) && PairsBeyond(p, k, taken)
    ensures |p| <= |MatchFrom(rows, fs, k, taken)|
    decreases |fs| - k
  {
    if k == |fs| {
      assert p.Keys == {};
    } else {
      var i := OldestEligible(rows, fs[k], taken, 0);
      if i == |rows| {
        assert k in p ==> Eligible(rows, fs[k], taken, p[k]);
        GreedyIsMaximum(rows, fs, k + 1, taken, p);
      } else {
        var q := Exchange(rows, fs, k, taken, i, p);
        GreedyIsMaximum(rows, fs, k + 1, taken + {i}, q);
      }
    }
  }

  ghost function AsPairing(ms: seq<Match>): map<nat, nat>
  {
    if ms == [] then map[] else AsPairing(ms[1..])[ms[0].filing := ms[0].row]
  }

  lemma ExtendValues(q: map<nat, nat>, k: nat, i: nat)
    requires k !in q
    ensures |q[k := i]| == |q| + 1
    ensures q[k := i].Values == q.Values + {i}
  {
    var p := q[k := i];
    assert p.Keys == q.Keys + {k};
    assert p[k] == i;
    forall v | v in q.Values
      ensures v in p.Values
    {
      var j :| j in q && q[j] == v;
      assert p[j] == v;
    }
  }

  lemma ExtendPairing(rows: seq<AckRow>, fs: seq<SeatFiling>, q: map<nat, nat>, k: nat, i: nat)
    requires IsPairing(rows, fs, q) && CanClose(rows, fs, k, i) && k !in q
    requires forall j :: j in q ==> q[j] != i
    ensures IsPairing(rows, fs, q[k := i])
  {
  }

  /** The matches, read as a pairing. */
  ghost predicate PairsUp(rows: seq<AckRow>, fs: seq<SeatFiling>, k: nat, taken: set<nat>, ms: seq<Match>) {
    var p := AsPairing(ms);
    IsPairing(rows, fs, p) && PairsBeyond(p, k, taken) && |p| == |ms| && p.Values == MatchedRows(ms)
  }

  lemma PairsUpMore(rows: seq<AckRow>, fs: seq<SeatFiling>, k: nat, taken: set<nat>, i: nat, rest: seq<Match>)
    requires k < |fs| && Eligible(rows, fs[k], taken, i)
    requires PairsUp(rows, fs, k + 1, taken + {i}, rest)
    ensures PairsUp(rows, fs, k, taken, [Match(i, k)] + rest)
  {
    var q, ms := AsPairing(rest), [Match(i, k)] + rest;
    assert ms[1..] == rest;
    ExtendPairing(rows, fs, q, k, i);
    ExtendValues(q, k, i);
    MatchedRowsCons(Match(i, k), rest);
  }

  /** The greedy result is itself a pairing with one pair per match. */
  lemma {:induction false} GreedyIsPairing(rows: seq<AckRow>, fs: seq<SeatFiling>, k: nat, taken: set<nat>)
    requires k <= |fs|
    ensures PairsUp(rows, fs, k, taken, MatchFrom(rows, fs, k, taken))
    decreases |fs| - k
  {
    if k < |fs| {
      var i := OldestEligible(rows, fs[k], taken, 0);
      if i == |rows| {
        GreedyIsPairing(rows, fs, k + 1, taken);
      } else {
        GreedyIsPairing(rows, fs, k + 1, taken + {i});
        PairsUpMore(rows, fs, k, taken, i, MatchFrom(rows, fs, k + 1, taken + {i}));
      }
    }
  }

  // ---------------------------------------------------------------------------
  // Reordering the filings
  // ---------------------------------------------------------------------------

  ghost predicate IsPermutation(perm: seq<nat>) {
    && (forall i :: 0 <= i < |perm| ==> perm[i] < |perm|)
    && (forall i, j :: 0 <= i < j < |perm| ==> perm[i] != perm[j])
  }

  ghost predicate Reorders(perm: seq<nat>, a: seq<SeatFiling>, b: seq<SeatFiling>) {
    && |perm| == |a| == |b|
    && IsPermutation(perm)
    && forall i :: 0 <= i < |a| ==> a[i] == b[perm[i]]
  }

  function SkipOver(x: nat, j: nat): nat {
    if x < j then x else x + 1
  }

  lemma RemoveOne(s: seq<SeatFiling>, j: nat)
    requires j < |s|
    ensures multiset(s[..j] + s[j + 1..]) == multiset(s) - multiset{s[j]}
  {
    assert s == s[..j] + [s[j]] + s[j + 1..];
  }

  function ConsPermutation(j: nat, inner: seq<nat>): seq<nat> {
    [j] + seq(|inner|, i requires 0 <= i < |inner| => SkipOver(inner[i], j))
  }

  lemma ConsReorders(a: seq<SeatFiling>, b: seq<SeatFiling>, j: nat, inner: seq<nat>)
    requires 0 < |a| && j < |b| && b[j] == a[0]
    requires Reorders(inner, a[1..], b[..j] + b[j + 1..])
    ensures Reorders(ConsPermutation(j, inner), a, b)
  {
    var perm := ConsPermutation(j, inner);
    var b' := b[..j] + b[j + 1..];
    forall i | 0 <= i < |a|
      ensures perm[i] < |b| && a[i] == b[perm[i]]
    {
      if i > 0 {
        assert a[i] == a[1..][i - 1];
        assert b'[inner[i - 1]] == b[perm[i]];
      }
    }
  }

  lemma SharedHead(a: seq<SeatFiling>, b: seq<SeatFiling>) returns (j: nat)
    requires multiset(a) == multiset(b) && a != []
    ensures j < |b| && b[j] == a[0]
    ensures multiset(a[1..]) == multiset(b[..j] + b[j + 1..])
  {
    assert a[0] in multiset(b);
    j :| 0 <= j < |b| && b[j] == a[0];
    RemoveOne(b, j);
    assert a == [a[0]] + a[1..];
  }

  lemma {:induction false} SameFilingsReorder(a: seq<SeatFiling>, b: seq<SeatFiling>) returns (perm: seq<nat>)
    requires multiset(a) == multiset(b)
    ensures Reorders(perm, a, b)
  {
    assert |a| == |multiset(a)| == |multiset(b)| == |b|;
    if a == [] {
      perm := [];
    } else {
      var j := SharedHead(a, b);
      var inner := SameFilingsReorder(a[1..], b[..j] + b[j + 1..]);
      ConsReorders(a, b, j, inner);
      perm := ConsPermutation(j, inner);
    }
  }

  ghost function Positions(perm: seq<nat>, keys: set<nat>): set<nat> {
    set i: nat | i < |perm| && perm[i] in keys
  }

  lemma OnePosition(perm: seq<nat>, keys: set<nat>, i: nat)
    requires IsPermutation(perm) && i < |perm| && perm[i] in keys
    ensures i !in Positions(perm, keys - {perm[i]})
    ensures Positions(perm, keys) == Positions(perm, keys - {perm[i]}) + {i}
  {
    forall j: nat | j < |perm| && perm[j] == perm[i]
      ensures j == i
    {
    }
  }

  lemma {:induction false} PositionsKeepSize(perm: seq<nat>, keys: set<nat>)
    requires IsPermutation(perm)
    requires forall x :: x in keys ==> x in perm
    ensures |Positions(perm, keys)| == |keys|
  {
    if keys == {} {
      assert Positions(perm, keys) == {};
    } else {
      var x :| x in keys;
      var i :| 0 <= i < |perm| && perm[i] == x;
      OnePosition(perm, keys, i);
      PositionsKeepSize(perm, keys - {x});
    }
  }

  lemma {:induction false} PermutationIsOnto(perm: seq<nat>, n: nat)
    requires |perm| == n
    requires forall i :: 0 <= i < n ==> perm[i] < n
    requires forall i, j :: 0 <= i < j < n ==> perm[i] != perm[j]
    ensures forall x :: 0 <= x < n ==> x in perm
    decreases n
  {
    if n > 0 {
      var last := perm[n - 1];
      var swapped: seq<nat> := seq(n - 1, i requires 0 <= i < n - 1 => if perm[i] == n - 1 then last else perm[i]);
      PermutationIsOnto(swapped, n - 1);
      forall x | 0 <= x < n
        ensures x in perm
      {
        if x != last {
          if x == n - 1 {
            assert last < n - 1;
            assert last in swapped;
            var i :| 0 <= i < n - 1 && swapped[i] == last;
            assert perm[i] == n - 1;
          } else {
            assert x in swapped;
            var i :| 0 <= i < n - 1 && swapped[i] == x;
            assert perm[i] == x;
          }
        }
      }
    }
  }

  ghost function PulledBack(perm: seq<nat>, p: map<nat, nat>): map<nat, nat> {
    map i: nat | i < |perm| && perm[i] in p :: p[perm[i]]
  }

  lemma PullBackKeeps(perm: seq<nat>, p: map<nat, nat>)
    requires IsPermutation(perm) && forall x :: x in p ==> x in perm
    ensures |PulledBack(perm, p)| == |p| && PulledBack(perm, p).Values == p.Values
  {
    var q := PulledBack(perm, p);
    assert q.Keys == Positions(perm, p.Keys);
    PositionsKeepSize(perm, p.Keys);
    forall v | v in p.Values
      ensures v in q.Values
    {
      var x :| x in p && p[x] == v;
      var i :| 0 <= i < |perm| && perm[i] == x;
      assert q[i] == v;
    }
  }

  /** A pairing on one order of the filings carries over to any other order, with the same size. */
  lemma PairingFollowsReorder(
      rows: seq<AckRow>, a: seq<SeatFiling>, b: seq<SeatFiling>, p: map<nat, nat>) returns (q: map<nat, nat>)
    requires multiset(a) == multiset(b) && IsPairing(rows, b, p)
    ensures IsPairing(rows, a, q) && |q| == |p| && q.Values == p.Values
  {
    var perm := SameFilingsReorder(a, b);
    PermutationIsOnto(perm, |perm|);
    q := PulledBack(perm, p);
    PullBackKeeps(perm, p);
    forall i | i in q
      ensures CanClose(rows, a, i, q[i])
    {
      assert CanClose(rows, b, perm[i], p[perm[i]]);
    }
    forall i, j | i in q && j in q && i != j
      ensures q[i] != q[j]
    {
      assert perm[i] != perm[j];
    }
  }

  /** No way to pair the open asks with the filings closes more asks than one call does. */
  lemma MatchIsMaximum(rows: seq<AckRow>, filings: seq<SeatFiling>, p: map<nat, nat>)
    requires IsPairing(rows, filings, p)
    ensures |p| <= |MatchAll(rows, filings)|
  {
    SortFilingsByTime(filings);
    var q := PairingFollowsReorder(rows, SortFilings(filings), filings, p);
    GreedyIsMaximum(rows, SortFilings(filings), 0, {}, q);
  }

  /** What one call closes is a pairing of the filings as they were given. */
  lemma MatchIsPairing(rows: seq<AckRow>, filings: seq<SeatFiling>) returns (p: map<nat, nat>)
    ensures IsPairing(rows, filings, p)
    ensures |p| == |MatchAll(rows, filings)|
    ensures p.Values == MatchedRows(MatchAll(rows, filings))
  {
    GreedyIsPairing(rows, SortFilings(filings), 0, {});
    p := PairingFollowsReorder(rows, filings, SortFilings(filings), AsPairing(MatchAll(rows, filings)));
  }

  lemma MatchCountIgnoresFilingOrder(rows: seq<AckRow>, a: seq<SeatFiling>, b: seq<SeatFiling>)
    requires multiset(a) == multiset(b)
    ensures |MatchAll(rows, a)| == |MatchAll(rows, b)|
  {
    var p := MatchIsPairing(rows, a);
    var p' := PairingFollowsReorder(rows, b, a, p);
    MatchIsMaximum(rows, b, p');
    var q := MatchIsPairing(rows, b);
    var q' := PairingFollowsReorder(rows, a, b, q);
    MatchIsMaximum(rows, a, q');
  }

  // ---------------------------------------------------------------------------
  // Oldest first
  // ---------------------------------------------------------------------------

  /** `j` is an open ask of the same seat as `i`, and older. */
  predicate OlderAsk(rows: seq<AckRow>, j: nat, i: nat)
    requires i < |rows| && j < |rows|
  {
    IsOpen(rows[j]) && rows[j].seat == rows[i].seat && Older(rows, j, i)
  }

  /** A set of asks that holds, with each of its members, every older open ask of the same seat. */
  ghost predicate OldestFirst(rows: seq<AckRow>, closed: set<nat>) {
    forall i: nat, j: nat ::
      i in closed && i < |rows| && j < |rows| && OlderAsk(rows, j, i) ==> j in closed
  }

  lemma {:induction false} GreedyIsOldestFirst(rows: seq<AckRow>, fs: seq<SeatFiling>, k: nat, taken: set<nat>)
    requires k <= |fs| && OldestFirst(rows, taken)
    ensures OldestFirst(rows, taken + MatchedRows(MatchFrom(rows, fs, k, taken)))
    decreases |fs| - k
  {
    var ms := MatchFrom(rows, fs, k, taken);
    if k < |fs| {
      var i := OldestEligible(rows, fs[k], taken, 0);
      if i == |rows| {
        GreedyIsOldestFirst(rows, fs, k + 1, taken);
      } else {
        forall a: nat, b: nat | a in taken + {i} && a < |rows| && b < |rows| && OlderAsk(rows, b, a)
          ensures b in taken + {i}
        {
          if a == i && b !in taken {
            assert Eligible(rows, fs[k], taken, b);
          }
        }
        GreedyIsOldestFirst(rows, fs, k + 1, taken + {i});
        var rest := MatchFrom(rows, fs, k + 1, taken + {i});
        assert ms == [Match(i, k)] + rest;
        MatchedRowsCons(Match(i, k), rest);
        assert taken + MatchedRows(ms) == taken + {i} + MatchedRows(rest);
      }
    } else {
      assert taken + MatchedRows(ms) == taken;
    }
  }

  /** Per seat, the asks one call closes are a prefix of that seat's open asks by age. */
  lemma MatchClosesOldestFirst(rows: seq<AckRow>, filings: seq<SeatFiling>)
    ensures OldestFirst(rows, MatchedRows(MatchAll(rows, filings)))
  {
    GreedyIsOldestFirst(rows, SortFilings(filings), 0, {});
    assert {} + MatchedRows(MatchAll(rows, filings)) == MatchedRows(MatchAll(rows, filings));
  }
}
