/**
 * The ledger sweep that closes asks on evidence, over the ledger file the store keeps.
 * Main result: sweeping a fixed set of filings again and again stops, within one sweep per
 * open ask, exactly when every open ask has no strictly later filing from its own seat.
 */
module AckSweep {
  import opened Basics
  import opened AckLedger
  import opened AckMatcher

  // ---------------------------------------------------------------------------
  // Looking a row up
  // ---------------------------------------------------------------------------

  /** The store strips one "ack-" in front before it compares; ids are held in lower case. */
  function Bare(id: string): string {
    if |id| >= 4 && id[..4] == "ack-" then id[4..] else id
  }

  predicate StartsWith(s: string, prefix: string) {
    |prefix| <= |s| && s[..|prefix|] == prefix
  }

  /** Asking for one id may find the row of the other; a row of exactly the stripped id goes first. */
  predicate Mistakable(asked: string, other: string) {
    || asked == other || Bare(asked) == "" || other == Bare(asked)
    || (asked != Bare(asked) && StartsWith(Bare(other), Bare(asked)))
  }

  predicate Apart(a: string, b: string) {
    !Mistakable(a, b) && !Mistakable(b, a)
  }

  /** No row can be mistaken for another: every one is found by its own id in any order of the rows. */
  ghost predicate Addressable(rows: seq<AckRow>) {
    && (forall i :: 0 <= i < |rows| ==> Bare(rows[i].id) != "")
    && (forall i, j :: 0 <= i < j < |rows| ==> Apart(rows[i].id, rows[j].id))
  }

  /** The form of the ids the store makes up itself. */
  predicate Generated(id: string) {
    |id| == 14 && id[..4] == "ack-"
  }

  /** Different ids of that form are all of one length, so none begins another. */
  lemma GeneratedIdsAreAddressable(rows: seq<AckRow>)
    requires forall i :: 0 <= i < |rows| ==> Generated(rows[i].id)
    requires forall i, j :: 0 <= i < j < |rows| ==> rows[i].id != rows[j].id
    ensures Addressable(rows)
  {
    forall i, j | 0 <= i < j < |rows|
      ensures Apart(rows[i].id, rows[j].id)
    {
      SameBareSameId(rows[i].id, rows[j].id);
    }
  }

  lemma SameBareSameId(a: string, b: string)
    requires Generated(a) && Generated(b)
    ensures StartsWith(Bare(b), Bare(a)) <==> a == b
    ensures StartsWith(Bare(a), Bare(b)) <==> a == b
  {
    assert a == "ack-" + Bare(a) && b == "ack-" + Bare(b);
    assert Bare(a)[..10] == Bare(a) && Bare(b)[..10] == Bare(b);
  }

  function IndexOfId(rows: seq<AckRow>, id: string): (i: nat)
    ensures i <= |rows|
    ensures i < |rows| ==> rows[i].id == id
    ensures forall k :: 0 <= k < i ==> rows[k].id != id
  {
    if rows == [] then 0
    else if rows[0].id == id then 0
    else 1 + IndexOfId(rows[1..], id)
  }

  function FirstStarting(rows: seq<AckRow>, prefix: string): (i: nat)
    ensures i <= |rows|
    ensures i < |rows| ==> StartsWith(Bare(rows[i].id), prefix)
    ensures forall k :: 0 <= k < i ==> !StartsWith(Bare(rows[k].id), prefix)
  {
    if rows == [] then 0
    else if StartsWith(Bare(rows[0].id), prefix) then 0
    else 1 + FirstStarting(rows[1..], prefix)
  }

  /** The row with exactly the stripped id, else the first whose stripped id begins with it. */
  function FindAck(rows: seq<AckRow>, id: string): (i: nat)
    ensures i <= |rows|
  {
    var needle := Bare(id);
    if needle == "" then |rows|
    else
      var exact := IndexOfId(rows, needle);
      if exact < |rows| then exact else FirstStarting(rows, needle)
  }

  ghost predicate HasId(rows: seq<AckRow>, id: string) {
    exists k :: 0 <= k < |rows| && rows[k].id == id
  }

  /**
   * Row i is the first of exactly the stripped id if there is such a row, and otherwise the first
   * whose stripped id begins with it.
   */
  ghost predicate Owns(rows: seq<AckRow>, i: nat)
    requires i < |rows|
  {
    var needle := Bare(rows[i].id);
    needle != "" &&
    if HasId(rows, needle) then rows[i].id == needle && forall k :: 0 <= k < i ==> rows[k].id != needle
    else forall k :: 0 <= k < i ==> !StartsWith(Bare(rows[k].id), needle)
  }

  /** Exactly when a row is found by its own id, in any ledger. */
  lemma FindsOwnRowIff(rows: seq<AckRow>, i: nat)
    requires i < |rows|
    ensures FindAck(rows, rows[i].id) == i <==> Owns(rows, i)
  {
    var needle := Bare(rows[i].id);
    assert StartsWith(needle, needle);
    if needle != "" && HasId(rows, needle) {
      var k :| 0 <= k < |rows| && rows[k].id == needle;
      assert IndexOfId(rows, needle) < |rows|;
    }
  }

  /** Row i is what an id, own or shortened, stands for. */
  ghost predicate StandsFor(rows: seq<AckRow>, id: string, i: nat)
    requires i < |rows|
  {
    var needle := Bare(id);
    needle != "" &&
    if HasId(rows, needle) then rows[i].id == needle && forall k :: 0 <= k < i ==> rows[k].id != needle
    else StartsWith(Bare(rows[i].id), needle) && forall k :: 0 <= k < i ==> !StartsWith(Bare(rows[k].id), needle)
  }

  /** The lookup, for any id at all: the row it stands for, or none. */
  lemma FindAckIff(rows: seq<AckRow>, id: string, i: nat)
    requires i < |rows|
    ensures FindAck(rows, id) == i <==> StandsFor(rows, id, i)
    ensures FindAck(rows, id) == |rows| <==>
              Bare(id) == ""
              || (!HasId(rows, Bare(id)) && forall k :: 0 <= k < |rows| ==> !StartsWith(Bare(rows[k].id), Bare(id)))
  {
    var needle := Bare(id);
    if needle != "" && HasId(rows, needle) {
      var k :| 0 <= k < |rows| && rows[k].id == needle;
      assert IndexOfId(rows, needle) < |rows|;
    }
  }

  /** One "ack-" in front is stripped, and no more. */
  lemma BareIs(id: string)
    ensures Bare("ack-" + id) == id
    ensures (forall rest :: id != "ack-" + rest) ==> Bare(id) == id
  {
    assert ("ack-" + id)[4..] == id && ("ack-" + id)[..4] == "ack-";
    if |id| >= 4 && id[..4] == "ack-" {
      assert id == "ack-" + id[4..];
    }
  }

  lemma FindsOwnRow(rows: seq<AckRow>, i: nat)
    requires Addressable(rows) && i < |rows|
    ensures FindAck(rows, rows[i].id) == i
  {
    var id := rows[i].id;
    forall k | 0 <= k < |rows| && k != i
      ensures !Mistakable(id, rows[k].id)
    {
      assert Apart(rows[i].id, rows[k].id) || Apart(rows[k].id, rows[i].id);
    }
    FindsOwnRowIff(rows, i);
  }

  function RemoveId(rows: seq<AckRow>, id: string): (r: seq<AckRow>)
    ensures |r| <= |rows|
    ensures forall x :: x in r <==> x in rows && x.id != id
  {
    if rows == [] then []
    else if rows[0].id != id then [rows[0]] + RemoveId(rows[1..], id)
    else RemoveId(rows[1..], id)
  }

  /** Closing a row rewrites it at the end of the ledger; a closed or unknown row is left alone. */
  function AckAck(rows: seq<AckRow>, id: string, who: AckCloseBy, note: string, now: int): (seq<AckRow>, bool) {
    var i := FindAck(rows, id);
    if i == |rows| || !IsOpen(rows[i]) then (rows, false)
    else (RemoveId(rows, rows[i].id) + [CloseAckRow(rows[i], who, note, now)], true)
  }

  lemma ApartRows(rows: seq<AckRow>, a: AckRow, b: AckRow)
    requires Addressable(rows) && a in rows && b in rows
    ensures a == b || (Apart(a.id, b.id) && Apart(b.id, a.id))
    ensures Bare(a.id) != ""
  {
    var i :| 0 <= i < |rows| && rows[i] == a;
    var j :| 0 <= j < |rows| && rows[j] == b;
    assert i < j ==> Apart(rows[i].id, rows[j].id);
    assert j < i ==> Apart(rows[j].id, rows[i].id);
  }

  lemma AddressableFront(r: AckRow, rest: seq<AckRow>)
    requires Addressable(rest) && Bare(r.id) != ""
    requires forall k :: 0 <= k < |rest| ==> Apart(r.id, rest[k].id)
    ensures Addressable([r] + rest)
  {
    var rows := [r] + rest;
    forall i, j | 0 <= i < j < |rows|
      ensures Apart(rows[i].id, rows[j].id)
    {
      assert rows[j] == rest[j - 1];
      assert i > 0 ==> rows[i] == rest[i - 1];
    }
  }

  lemma FirstIsApart(rows: seq<AckRow>, x: AckRow)
    requires rows != [] && Addressable(rows) && x in rows[1..]
    ensures Apart(rows[0].id, x.id)
  {
    var j :| 0 <= j < |rows[1..]| && rows[1..][j] == x;
    assert Apart(rows[0].id, rows[j + 1].id);
  }

  lemma {:induction false} RemoveIdAddressable(rows: seq<AckRow>, id: string)
    requires Addressable(rows)
    ensures Addressable(RemoveId(rows, id))
  {
    if rows != [] {
      AddressableTail(rows);
      RemoveIdAddressable(rows[1..], id);
      var rest := RemoveId(rows[1..], id);
      forall k | 0 <= k < |rest|
        ensures Apart(rows[0].id, rest[k].id)
      {
        assert rest[k] in rest;
        FirstIsApart(rows, rest[k]);
      }
      AddressableFront(rows[0], rest);
    }
  }

  lemma {:induction false} RemoveAbsent(rows: seq<AckRow>, id: string)
    requires forall k :: 0 <= k < |rows| ==> rows[k].id != id
    ensures RemoveId(rows, id) == rows
  {
    if rows != [] {
      RemoveAbsent(rows[1..], id);
    }
  }

  ghost predicate OnlyRowOfId(rows: seq<AckRow>, i: nat)
    requires i < |rows|
  {
    forall k :: 0 <= k < |rows| && k != i ==> rows[k].id != rows[i].id
  }

  lemma {:induction false} RemoveCount(rows: seq<AckRow>, i: nat)
    requires i < |rows|
    ensures |RemoveId(rows, rows[i].id)| == |rows| - 1 <==> OnlyRowOfId(rows, i)
    ensures |RemoveId(rows, rows[i].id)| < |rows|
  {
    var id, rest := rows[i].id, rows[1..];
    assert forall k :: 0 <= k < |rest| ==> rest[k] == rows[k + 1];
    if i == 0 {
      if k :| 0 <= k < |rest| && rest[k].id == id {
        RemoveCount(rest, k);
        assert rows[k + 1].id == id;
      } else {
        RemoveAbsent(rest, id);
      }
    } else {
      assert rest[i - 1] == rows[i];
      RemoveCount(rest, i - 1);
      assert OnlyRowOfId(rows, i) <==> OnlyRowOfId(rest, i - 1) && rows[0].id != id by {
        assert forall k :: 0 < k < |rows| ==> rows[k] == rest[k - 1];
      }
    }
  }

  lemma AddressableTail(rows: seq<AckRow>)
    requires rows != [] && Addressable(rows)
    ensures Addressable(rows[1..])
  {
    var tail := rows[1..];
    assert forall k :: 0 <= k < |tail| ==> tail[k] == rows[k + 1];
  }

  lemma SameIdSameRow(rows: seq<AckRow>, a: AckRow, b: AckRow)
    requires Addressable(rows) && a in rows && b in rows && a.id == b.id
    ensures a == b
  {
    ApartRows(rows, a, b);
  }

  lemma AddressableMore(rows: seq<AckRow>, r: AckRow)
    requires Addressable(rows) && Bare(r.id) != ""
    requires forall k :: 0 <= k < |rows| ==> Apart(rows[k].id, r.id)
    ensures Addressable(rows + [r])
  {
  }

  /**
   * In any ledger: an open row that is found by its own id is replaced by its closed form, and all
   * rows of other ids are kept. The ledger keeps its length if no other row has that id.
   */
  lemma AckAckReplaces(rows: seq<AckRow>, i: nat, who: AckCloseBy, note: string, now: int)
    requires i < |rows| && Owns(rows, i) && IsOpen(rows[i])
    ensures var (after, ok) := AckAck(rows, rows[i].id, who, note, now);
            && ok && (|after| == |rows| <==> OnlyRowOfId(rows, i))
            && forall x :: x in after <==>
                 (x in rows && x.id != rows[i].id) || x == CloseAckRow(rows[i], who, note, now)
  {
    FindsOwnRowIff(rows, i);
    RemoveCount(rows, i);
  }

  /** Where no row can be mistaken for another, closing one keeps it so. */
  lemma AckAckKeepsAddressable(rows: seq<AckRow>, r: AckRow, who: AckCloseBy, note: string, now: int)
    requires Addressable(rows) && r in rows && IsOpen(r)
    ensures var (after, ok) := AckAck(rows, r.id, who, note, now);
            && ok && Addressable(after) && |after| == |rows|
            && forall x :: x in after <==> (x in rows && x.id != r.id) || x == CloseAckRow(r, who, note, now)
  {
    var i: nat :| i < |rows| && rows[i] == r;
    FindsOwnRow(rows, i);
    FindsOwnRowIff(rows, i);
    forall k | 0 <= k < |rows| && k != i
      ensures rows[k].id != rows[i].id
    {
      assert Apart(rows[i].id, rows[k].id) || Apart(rows[k].id, rows[i].id);
    }
    AckAckReplaces(rows, i, who, note, now);
    RemoveIdAddressable(rows, r.id);
    var rest := RemoveId(rows, r.id);
    ApartRows(rows, r, r);
    forall k | 0 <= k < |rest|
      ensures Apart(rest[k].id, r.id)
    {
      assert rest[k] in rest;
      ApartRows(rows, rest[k], r);
    }
    AddressableMore(rest, CloseAckRow(r, who, note, now));
  }

  /**
   * Closing an open row by its own id takes it off the open rows exactly when it is found by that id;
   * otherwise it stays, and what is closed, if anything, is the row that was found instead.
   */
  lemma OwnIdClosesRowIff(rows: seq<AckRow>, i: nat, who: AckCloseBy, note: string, now: int)
    requires i < |rows| && IsOpen(rows[i]) && forall k :: 0 <= k < |rows| ==> OnlyRowOfId(rows, k)
    ensures var (after, ok) := AckAck(rows, rows[i].id, who, note, now);
            && (rows[i] !in after <==> Owns(rows, i))
            && (!Owns(rows, i) && ok ==>
                  var j := FindAck(rows, rows[i].id);
                  j < |rows| && j != i && IsOpen(rows[j]) && CloseAckRow(rows[j], who, note, now) in after)
  {
    FindsOwnRowIff(rows, i);
    var j := FindAck(rows, rows[i].id);
    if j < |rows| && j != i {
      assert OnlyRowOfId(rows, i);
      assert rows[j].id != rows[i].id;
    }
  }

  lemma PullOut(rows: seq<AckRow>, i: nat)
    requires i < |rows|
    ensures multiset([rows[i]] + (rows[..i] + rows[i + 1..])) == multiset(rows)
  {
    assert rows == rows[..i] + [rows[i]] + rows[i + 1..];
  }

  lemma SwapFirst(rows: seq<AckRow>, i: nat, j: nat) returns (p: seq<AckRow>)
    requires i < |rows| && j < |rows| && i != j
    ensures |p| == |rows| && p[0] == rows[j] && p[1] == rows[i] && multiset(p) == multiset(rows)
  {
    var others := rows[..j] + rows[j + 1..];
    var k := if i < j then i else i - 1;
    var rest := others[..k] + others[k + 1..];
    assert others[k] == rows[i];
    p := [rows[j]] + ([rows[i]] + rest);
    PullOut(rows, j);
    PullOut(others, k);
    SameInFront(rows[j], [rows[i]] + rest, others);
  }

  lemma SameInFront(x: AckRow, a: seq<AckRow>, b: seq<AckRow>)
    requires multiset(a) == multiset(b)
    ensures multiset([x] + a) == multiset([x] + b)
  {
  }

  lemma MistakableIsNotOwned(p: seq<AckRow>)
    requires |p| >= 2 && Mistakable(p[1].id, p[0].id)
    ensures !Owns(p, 1)
  {
    assert StartsWith(Bare(p[1].id), Bare(p[1].id));
    if p[0].id == Bare(p[1].id) {
      assert HasId(p, Bare(p[1].id));
    } else if p[1].id == Bare(p[1].id) {
      assert HasId(p, Bare(p[1].id));
    }
  }

  lemma {:induction false} InOnce(s: seq<AckRow>, x: AckRow)
    requires multiset(s)[x] >= 1
    ensures exists k: nat :: k < |s| && s[k] == x
  {
    assert x in multiset(s);
  }

  /** A row that is in twice stands in two places. */
  lemma {:induction false} TwoPlaces(s: seq<AckRow>, x: AckRow) returns (a: nat, b: nat)
    requires multiset(s)[x] >= 2
    ensures a < b < |s| && s[a] == x && s[b] == x
  {
    var rest := s[1..];
    assert s == [s[0]] + rest;
    if s[0] == x {
      InOnce(rest, x);
      var k: nat :| k < |rest| && rest[k] == x;
      a, b := 0, k + 1;
    } else {
      a, b := TwoPlaces(rest, x);
      a, b := a + 1, b + 1;
    }
  }

  lemma TwiceIn(s: seq<AckRow>, a: nat, b: nat)
    requires a < b < |s| && s[a] == s[b]
    ensures multiset(s)[s[a]] >= 2
  {
    assert s == s[..b] + s[b..];
    assert s[a] == s[..b][a] && s[b] == s[b..][0];
    assert s[a] in multiset(s[..b]) && s[a] in multiset(s[b..]);
  }

  lemma TwiceIsNotAddressable(rows: seq<AckRow>, x: AckRow)
    requires multiset(rows)[x] >= 2
    ensures !Addressable(rows)
  {
    var a, b := TwoPlaces(rows, x);
    assert !Apart(rows[a].id, rows[b].id);
  }

  lemma AddressableInAnyOrder(rows: seq<AckRow>, p: seq<AckRow>)
    requires Addressable(rows) && multiset(p) == multiset(rows)
    ensures Addressable(p)
  {
    forall i | 0 <= i < |p|
      ensures p[i] in rows
    {
      assert p[i] in multiset(p);
    }
    forall i | 0 <= i < |p|
      ensures Bare(p[i].id) != ""
    {
      ApartRows(rows, p[i], p[i]);
    }
    forall i, j | 0 <= i < j < |p|
      ensures Apart(p[i].id, p[j].id)
    {
      if p[i] == p[j] {
        TwiceIn(p, i, j);
        TwiceIsNotAddressable(rows, p[i]);
        assert false;
      } else {
        ApartRows(rows, p[i], p[j]);
      }
    }
  }

  ghost predicate AllOwn(p: seq<AckRow>) {
    forall i: nat :: i < |p| ==> Owns(p, i)
  }

  lemma AllOwnIfAddressable(p: seq<AckRow>)
    requires Addressable(p)
    ensures AllOwn(p)
  {
    forall i: nat | i < |p|
      ensures Owns(p, i)
    {
      FindsOwnRow(p, i);
      FindsOwnRowIff(p, i);
    }
  }

  lemma NotOwnedSwapped(rows: seq<AckRow>, asks: nat, found: nat) returns (p: seq<AckRow>)
    requires asks < |rows| && found < |rows| && asks != found && Mistakable(rows[asks].id, rows[found].id)
    ensures multiset(p) == multiset(rows) && !AllOwn(p)
  {
    p := SwapFirst(rows, asks, found);
    MistakableIsNotOwned(p);
    assert !Owns(p, 1);
  }

  lemma NotOwnedInSomeOrder(rows: seq<AckRow>) returns (p: seq<AckRow>)
    requires !Addressable(rows)
    ensures multiset(p) == multiset(rows) && !AllOwn(p)
  {
    if i: nat :| i < |rows| && Bare(rows[i].id) == "" {
      p := rows;
      assert !Owns(rows, i);
    } else {
      var i: nat, j: nat :| i < j < |rows| && !Apart(rows[i].id, rows[j].id);
      if Mistakable(rows[i].id, rows[j].id) {
        p := NotOwnedSwapped(rows, i, j);
      } else {
        p := NotOwnedSwapped(rows, j, i);
      }
    }
  }

  /**
   * Closing a row moves it to the end, so the order of a ledger changes while it is swept. In every
   * order of its rows each is found by its own id exactly when none can be mistaken for another.
   */
  lemma AddressableIffAnyOrder(rows: seq<AckRow>)
    ensures Addressable(rows) <==> forall p: seq<AckRow> :: multiset(p) == multiset(rows) ==> AllOwn(p)
  {
    if Addressable(rows) {
      forall p: seq<AckRow> | multiset(p) == multiset(rows)
        ensures AllOwn(p)
      {
        AddressableInAnyOrder(rows, p);
        AllOwnIfAddressable(p);
      }
    } else {
      var p := NotOwnedInSomeOrder(rows);
    }
  }

  /**
   * An id whose stripped form begins that of an earlier row, such as "ack-1" behind "ack-1a", does
   * not name its own row: the earlier ask is closed instead.
   */
  lemma ShorterIdClosesOtherRow(a: AckRow, b: AckRow, who: AckCloseBy, note: string, now: int)
    requires Bare(b.id) != "" && StartsWith(Bare(a.id), Bare(b.id)) && a.id != b.id
    requires a.id != Bare(b.id) && b.id != Bare(b.id) && IsOpen(a)
    ensures AckAck([a, b], b.id, who, note, now) == ([b, CloseAckRow(a, who, note, now)], true)
  {
    var rows := [a, b];
    assert rows[1..] == [b] && [b][1..] == [];
    assert FindAck(rows, b.id) == 0;
    assert RemoveId([b], a.id) == [b] && RemoveId(rows, a.id) == [b];
    assert [b] + [CloseAckRow(a, who, note, now)] == [b, CloseAckRow(a, who, note, now)];
  }

  /** The two rows the other way round both find themselves, though not in any order. */
  lemma ShorterIdFirstIsFound(a: AckRow, b: AckRow)
    requires a.id == "ack-1" && b.id == "ack-1a"
    ensures Owns([a, b], 0) && Owns([a, b], 1) && !Owns([b, a], 1)
  {
    assert "ack-1"[4..] == "1" && "ack-1a"[4..] == "1a" && "1a"[..1] == "1";
    assert Bare(a.id) == "1" && Bare(b.id) == "1a";
    assert [b, a][0].id == "ack-1a" && StartsWith("1a", "1") && !StartsWith("1", "1a");
  }

  // ---------------------------------------------------------------------------
  // Closing a list of rows
  // ---------------------------------------------------------------------------

  datatype Closing = Closing(id: string, who: AckCloseBy, note: string)

  function CloseEach(rows: seq<AckRow>, cs: seq<Closing>, now: int): (seq<AckRow>, nat) {
    if cs == [] then (rows, 0)
    else
      var last := cs[|cs| - 1];
      var (done, n) := CloseEach(rows, cs[..|cs| - 1], now);
      var (after, ok) := AckAck(done, last.id, last.who, last.note, now);
      (after, if ok then n + 1 else n)
  }

  ghost predicate DistinctIds(cs: seq<Closing>) {
    forall a, b :: 0 <= a < b < |cs| ==> cs[a].id != cs[b].id
  }

  ghost predicate Names(cs: seq<Closing>, id: string) {
    exists k :: 0 <= k < |cs| && cs[k].id == id
  }

  /** What the list of closings makes of one row. */
  function Updated(r: AckRow, cs: seq<Closing>, now: int): (x: AckRow)
    ensures x.id == r.id
    ensures (forall k :: 0 <= k < |cs| ==> cs[k].id != r.id) ==> x == r
  {
    if cs == [] then r
    else
      var last := cs[|cs| - 1];
      if last.id == r.id then CloseAckRow(r, last.who, last.note, now) else Updated(r, cs[..|cs| - 1], now)
  }

  ghost predicate OpenRowNamed(rows: seq<AckRow>, id: string) {
    exists r :: r in rows && r.id == id && IsOpen(r)
  }

  ghost predicate EachUpdated(rows: seq<AckRow>, after: seq<AckRow>, cs: seq<Closing>, now: int) {
    && Addressable(after) && |after| == |rows|
    && (forall r :: r in rows ==> Updated(r, cs, now) in after)
    && (forall x :: x in after ==> exists r :: r in rows && x == Updated(r, cs, now))
  }

  /** Closing distinct open rows closes every one of them, and touches no other row. */
  lemma {:induction false} CloseEachUpdates(rows: seq<AckRow>, cs: seq<Closing>, now: int)
    requires Addressable(rows) && DistinctIds(cs)
    requires forall k :: 0 <= k < |cs| ==> OpenRowNamed(rows, cs[k].id)
    ensures CloseEach(rows, cs, now).1 == |cs|
    ensures EachUpdated(rows, CloseEach(rows, cs, now).0, cs, now)
  {
    if cs != [] {
      var m := |cs| - 1;
      CloseEachUpdates(rows, cs[..m], now);
      CloseOneMore(rows, CloseEach(rows, cs[..m], now).0, cs, now);
    }
  }

  /** Every row of `after` but `x` is a row of `before` of another id. */
  ghost predicate Swapped(before: seq<AckRow>, after: seq<AckRow>, x: AckRow) {
    forall y :: y in after <==> (y in before && y.id != x.id) || y == x
  }

  lemma LastOneElsewhere(r: AckRow, cs: seq<Closing>, now: int)
    requires cs != [] && r.id != cs[|cs| - 1].id
    ensures Updated(r, cs, now) == Updated(r, cs[..|cs| - 1], now)
  {
  }

  lemma NotClosedBefore(r: AckRow, cs: seq<Closing>, now: int)
    requires cs != [] && DistinctIds(cs) && r.id == cs[|cs| - 1].id
    ensures Updated(r, cs[..|cs| - 1], now) == r
    ensures Updated(r, cs, now) == CloseAckRow(r, cs[|cs| - 1].who, cs[|cs| - 1].note, now)
  {
  }

  lemma SwapCoversRows(rows: seq<AckRow>, done: seq<AckRow>, after: seq<AckRow>,
                       r0: AckRow, cs: seq<Closing>, now: int)
    requires cs != [] && Addressable(rows) && r0 in rows && r0.id == cs[|cs| - 1].id
    requires forall r :: r in rows ==> Updated(r, cs[..|cs| - 1], now) in done
    requires Swapped(done, after, Updated(r0, cs, now))
    ensures forall r :: r in rows ==> Updated(r, cs, now) in after
  {
    forall r | r in rows
      ensures Updated(r, cs, now) in after
    {
      if r.id == r0.id {
        SameIdSameRow(rows, r, r0);
      } else {
        LastOneElsewhere(r, cs, now);
      }
    }
  }

  lemma SwapAddsNothing(rows: seq<AckRow>, done: seq<AckRow>, after: seq<AckRow>,
                        r0: AckRow, cs: seq<Closing>, now: int)
    requires cs != [] && r0 in rows && r0.id == cs[|cs| - 1].id
    requires forall x :: x in done ==> exists r :: r in rows && x == Updated(r, cs[..|cs| - 1], now)
    requires Swapped(done, after, Updated(r0, cs, now))
    ensures forall x :: x in after ==> exists r :: r in rows && x == Updated(r, cs, now)
  {
    forall x | x in after && x != Updated(r0, cs, now)
      ensures exists r :: r in rows && x == Updated(r, cs, now)
    {
      var r :| r in rows && x == Updated(r, cs[..|cs| - 1], now);
      LastOneElsewhere(r, cs, now);
    }
  }

  lemma CloseOneMore(rows: seq<AckRow>, done: seq<AckRow>, cs: seq<Closing>, now: int)
    requires cs != [] && Addressable(rows) && DistinctIds(cs)
    requires OpenRowNamed(rows, cs[|cs| - 1].id)
    requires EachUpdated(rows, done, cs[..|cs| - 1], now)
    ensures var c := cs[|cs| - 1];
            var (after, ok) := AckAck(done, c.id, c.who, c.note, now);
            ok && EachUpdated(rows, after, cs, now)
  {
    var c := cs[|cs| - 1];
    var r0 :| r0 in rows && r0.id == c.id && IsOpen(r0);
    NotClosedBefore(r0, cs, now);
    AckAckKeepsAddressable(done, r0, c.who, c.note, now);
    var after := AckAck(done, c.id, c.who, c.note, now).0;
    SwapCoversRows(rows, done, after, r0, cs, now);
    SwapAddsNothing(rows, done, after, r0, cs, now);
  }

  // ---------------------------------------------------------------------------
  // One sweep
  // ---------------------------------------------------------------------------

  function OpenAcks(rows: seq<AckRow>): (r: seq<AckRow>)
    ensures |r| <= |rows|
    ensures forall x :: x in r <==> x in rows && IsOpen(x)
  {
    if rows == [] then []
    else if IsOpen(rows[0]) then [rows[0]] + OpenAcks(rows[1..])
    else OpenAcks(rows[1..])
  }

  function OldestAt(rows: seq<AckRow>): (at: int)
    requires rows != []
    ensures forall r :: r in rows ==> at <= r.at
    ensures exists r :: r in rows && r.at == at
  {
    if |rows| == 1 then rows[0].at else Min(rows[0].at, OldestAt(rows[1..]))
  }

  function FilingsSince(fs: seq<SeatFiling>, since: int): (r: seq<SeatFiling>)
    ensures |r| <= |fs|
    ensures forall f :: f in r <==> f in fs && f.at >= since
  {
    if fs == [] then []
    else if fs[0].at >= since then [fs[0]] + FilingsSince(fs[1..], since)
    else FilingsSince(fs[1..], since)
  }

  function FiledClosings(rows: seq<AckRow>, acks: seq<FiledAck>): seq<Closing>
    requires forall n :: 0 <= n < |acks| ==> acks[n].row < |rows|
  {
    seq(|acks|, n requires 0 <= n < |acks| => Closing(rows[acks[n].row].id, Filed, acks[n].note))
  }

  lemma NextFiled(rows: seq<AckRow>, acks: seq<FiledAck>, cs: seq<Closing>, k: nat)
    requires forall n :: 0 <= n < |acks| ==> acks[n].row < |rows|
    requires cs == FiledClosings(rows, acks) && k < |acks|
    ensures cs[..k + 1] == cs[..k] + [Closing(rows[acks[k].row].id, Filed, acks[k].note)]
  {
    assert cs[..k + 1] == cs[..k] + [cs[k]];
  }

  function SweepClosings(rows: seq<AckRow>, filings: seq<SeatFiling>): seq<Closing> {
    var open := OpenAcks(rows);
    if open == [] then []
    else
      FiledClosings(rows, FiledAcks(rows, FilingsSince(filings, OldestAt(open))))
  }

  function Sweep(rows: seq<AckRow>, filings: seq<SeatFiling>, now: int): (seq<AckRow>, nat) {
    CloseEach(rows, SweepClosings(rows, filings), now)
  }

  /** Some filing answers the ask. */
  ghost predicate Answered(row: AckRow, filings: seq<SeatFiling>) {
    exists f :: f in filings && Answers(row, f)
  }

  /** An open ask the ledger owes a close: its seat filed something strictly later. */
  ghost predicate Owed(row: AckRow, filings: seq<SeatFiling>) {
    IsOpen(row) && Answered(row, filings)
  }

  ghost function OwedIds(rows: seq<AckRow>, filings: seq<SeatFiling>): set<string> {
    set r | r in rows && Owed(r, filings) :: r.id
  }

  ghost predicate DistinctRows(ms: seq<Match>) {
    forall a, b :: 0 <= a < b < |ms| ==> ms[a].row != ms[b].row
  }

  lemma {:induction false} MatchedRowsDiffer(rows: seq<AckRow>, fs: seq<SeatFiling>, k: nat, taken: set<nat>)
    requires k <= |fs|
    ensures DistinctRows(MatchFrom(rows, fs, k, taken))
    decreases |fs| - k
  {
    if k < |fs| {
      var i := OldestEligible(rows, fs[k], taken, 0);
      if i == |rows| {
        MatchedRowsDiffer(rows, fs, k + 1, taken);
      } else {
        var rest := MatchFrom(rows, fs, k + 1, taken + {i});
        MatchedRowsDiffer(rows, fs, k + 1, taken + {i});
        forall b | 0 <= b < |rest|
          ensures rest[b].row != i
        {
          assert Eligible(rows, fs[rest[b].filing], taken + {i}, rest[b].row);
        }
      }
    }
  }

  ghost predicate OwedAcks(rows: seq<AckRow>, acks: seq<FiledAck>, fs: seq<SeatFiling>) {
    && (forall k :: 0 <= k < |acks| ==> acks[k].row < |rows| && Owed(rows[acks[k].row], fs))
    && (forall a, b :: 0 <= a < b < |acks| ==> acks[a].row != acks[b].row)
  }

  lemma MatchesAreOwed(rows: seq<AckRow>, fs: seq<SeatFiling>)
    ensures OwedAcks(rows, FiledAcks(rows, fs), fs)
  {
    var sorted := SortFilings(fs);
    var ms := MatchAll(rows, fs);
    MatchedRowsDiffer(rows, sorted, 0, {});
    NotesOfMatches(rows, sorted, 0, {});
    forall k | 0 <= k < |ms|
      ensures Owed(rows[ms[k].row], fs)
    {
      var f := sorted[ms[k].filing];
      assert Eligible(rows, f, {}, ms[k].row);
      assert f in multiset(sorted);
      assert f in fs;
    }
    var acks := FiledAcks(rows, fs);
    forall a, b | 0 <= a < b < |acks|
      ensures acks[a].row != acks[b].row
    {
      assert ms[a].row != ms[b].row;
    }
  }

  ghost predicate OwedClosings(rows: seq<AckRow>, cs: seq<Closing>, fs: seq<SeatFiling>) {
    && DistinctIds(cs)
    && forall k :: 0 <= k < |cs| ==>
         cs[k].who == Filed && exists r :: r in rows && Owed(r, fs) && r.id == cs[k].id
  }

  lemma FiledClosingsAreOwed(rows: seq<AckRow>, acks: seq<FiledAck>, fs: seq<SeatFiling>)
    requires Addressable(rows) && OwedAcks(rows, acks, fs)
    ensures OwedClosings(rows, FiledClosings(rows, acks), fs)
  {
    var cs := FiledClosings(rows, acks);
    forall k | 0 <= k < |cs|
      ensures exists r :: r in rows && Owed(r, fs) && r.id == cs[k].id
    {
      assert rows[acks[k].row] in rows;
    }
    forall a, b | 0 <= a < b < |cs|
      ensures cs[a].id != cs[b].id
    {
      assert acks[a].row != acks[b].row;
    }
  }

  /** A sweep closes distinct asks, all of them owed. */
  lemma SweepClosingsAreOwed(rows: seq<AckRow>, filings: seq<SeatFiling>)
    requires Addressable(rows)
    ensures OwedClosings(rows, SweepClosings(rows, filings), filings)
  {
    var open := OpenAcks(rows);
    if open != [] {
      var fs := FilingsSince(filings, OldestAt(open));
      MatchesAreOwed(rows, fs);
      forall r | Owed(r, fs)
        ensures Owed(r, filings)
      {
        var f :| f in fs && Answers(r, f);
        assert f in filings;
      }
      FiledClosingsAreOwed(rows, FiledAcks(rows, fs), filings);
    }
  }

  /** A sweep with something owed closes something: one ask and one filing are already a pairing. */
  lemma SweepMakesProgress(rows: seq<AckRow>, filings: seq<SeatFiling>)
    requires OwedIds(rows, filings) != {}
    ensures SweepClosings(rows, filings) != []
  {
    var id :| id in OwedIds(rows, filings);
    var r :| r in rows && Owed(r, filings);
    var f :| f in filings && Answers(r, f);
    assert r in OpenAcks(rows);
    var fs := FilingsSince(filings, OldestAt(OpenAcks(rows)));
    assert f in fs;
    PairOfOne(rows, fs, r, f);
  }

  lemma PairOfOne(rows: seq<AckRow>, fs: seq<SeatFiling>, r: AckRow, f: SeatFiling)
    requires r in rows && f in fs && IsOpen(r) && Answers(r, f)
    ensures FiledAcks(rows, fs) != []
  {
    var i :| 0 <= i < |rows| && rows[i] == r;
    var j :| 0 <= j < |fs| && fs[j] == f;
    assert CanClose(rows, fs, j, i);
    MatchIsMaximum(rows, fs, map[j := i]);
    NotesOfMatches(rows, SortFilings(fs), 0, {});
  }

  lemma SweepUpdates(rows: seq<AckRow>, filings: seq<SeatFiling>, now: int)
    requires Addressable(rows)
    ensures Sweep(rows, filings, now).1 == |SweepClosings(rows, filings)|
    ensures EachUpdated(rows, Sweep(rows, filings, now).0, SweepClosings(rows, filings), now)
  {
    SweepClosingsAreOwed(rows, filings);
    CloseEachUpdates(rows, SweepClosings(rows, filings), now);
  }

  /** Each note is what an answering filing of the ask's own seat says. */
  lemma NotesOfFilings(rows: seq<AckRow>, fs: seq<SeatFiling>, k: nat)
    requires k < |FiledAcks(rows, fs)|
    ensures var a := FiledAcks(rows, fs)[k];
            exists f :: f in fs && Answers(rows[a.row], f) && a.note == f.what
  {
    var sorted := SortFilings(fs);
    var ms := MatchAll(rows, fs);
    NotesOfMatches(rows, sorted, 0, {});
    var f := sorted[ms[k].filing];
    assert Eligible(rows, f, {}, ms[k].row);
    assert f in multiset(sorted);
    assert f in fs;
  }

  ghost predicate ClosingOf(rows: seq<AckRow>, filings: seq<SeatFiling>, c: Closing, r: AckRow) {
    r in rows && r.id == c.id && exists f :: f in filings && Answers(r, f) && c.note == f.what
  }

  lemma SweepClosingSays(rows: seq<AckRow>, filings: seq<SeatFiling>, k: nat)
    requires k < |SweepClosings(rows, filings)|
    ensures exists r :: ClosingOf(rows, filings, SweepClosings(rows, filings)[k], r)
    ensures SweepClosings(rows, filings)[k].who == Filed
  {
    var fs := FilingsSince(filings, OldestAt(OpenAcks(rows)));
    var a := FiledAcks(rows, fs)[k];
    NotesOfFilings(rows, fs, k);
    var f :| f in fs && Answers(rows[a.row], f) && a.note == f.what;
    assert f in filings && rows[a.row] in rows;
    assert ClosingOf(rows, filings, SweepClosings(rows, filings)[k], rows[a.row]);
  }

  /**
   * What stands in a row a sweep has closed: closed at the sweep's time, as filed, with what a strictly
   * later filing of its own seat says for a note.
   */
  lemma SweptRowSays(rows: seq<AckRow>, filings: seq<SeatFiling>, now: int, r: AckRow)
    requires Addressable(rows) && r in rows && r !in Sweep(rows, filings, now).0
    ensures exists x, f :: x in Sweep(rows, filings, now).0 && f in filings && Answers(r, f)
                           && ClosedAs(r, x, Filed, f.what, now)
  {
    var cs := SweepClosings(rows, filings);
    SweepUpdates(rows, filings, now);
    SweepClosingsAreOwed(rows, filings);
    var x := Updated(r, cs, now);
    assert x in Sweep(rows, filings, now).0 && x != r;
    var k :| 0 <= k < |cs| && cs[k].id == r.id;
    SweepClosingSays(rows, filings, k);
    var o :| ClosingOf(rows, filings, cs[k], o);
    SameIdSameRow(rows, o, r);
    UpdatedAt(r, cs, k, now);
    CloseSays(r, Filed, cs[k].note, now);
    var f :| f in filings && Answers(r, f) && cs[k].note == f.what;
    assert ClosedAs(r, x, Filed, f.what, now);
  }

  // ---------------------------------------------------------------------------
  // Repeated sweeps
  // ---------------------------------------------------------------------------

  /** One sweep per entry of `nows`, each reading the same filings again. */
  function Sweeps(rows: seq<AckRow>, filings: seq<SeatFiling>, nows: seq<int>): seq<AckRow>
    decreases |nows|
  {
    if nows == [] then rows else Sweeps(Sweep(rows, filings, nows[0]).0, filings, nows[1..])
  }

  /** `after` is `before`, closed by a filing; nothing but the three close fields changed. */
  predicate ClosedByFiling(before: AckRow, after: AckRow) {
    && !IsOpen(after)
    && after.ackBy == Some(Filed)
    && after == before.(ackedAt := after.ackedAt, ackBy := after.ackBy, ackNote := after.ackNote)
  }

  /** The ledger keeps its rows; the closed ones are exactly those that were closed or owed. */
  ghost predicate Settled(before: seq<AckRow>, after: seq<AckRow>, filings: seq<SeatFiling>) {
    && Addressable(after) && |after| == |before|
    && (forall r :: r in before && !Owed(r, filings) ==> r in after)
    && (forall r :: r in before && Owed(r, filings) ==> exists x :: x in after && ClosedByFiling(r, x))
  }

  lemma {:induction false} UpdatedByFiling(r: AckRow, cs: seq<Closing>, now: int)
    requires forall k :: 0 <= k < |cs| ==> cs[k].who == Filed
    requires Names(cs, r.id)
    ensures ClosedByFiling(r, Updated(r, cs, now))
  {
    var m := |cs| - 1;
    if cs[m].id != r.id {
      var k :| 0 <= k < |cs| && cs[k].id == r.id;
      assert cs[..m][k].id == r.id;
      UpdatedByFiling(r, cs[..m], now);
    }
  }

  /** A row stays as it is, or was owed a close and got it. */
  ghost predicate KeptOrFiled(r: AckRow, next: seq<AckRow>, filings: seq<SeatFiling>) {
    r in next || (Owed(r, filings) && exists x :: x in next && ClosedByFiling(r, x))
  }

  lemma EachKeptOrFiled(rows: seq<AckRow>, cs: seq<Closing>, next: seq<AckRow>, filings: seq<SeatFiling>, now: int)
    requires Addressable(rows) && OwedClosings(rows, cs, filings) && EachUpdated(rows, next, cs, now)
    ensures forall r :: r in rows ==> KeptOrFiled(r, next, filings)
  {
    forall r | r in rows
      ensures KeptOrFiled(r, next, filings)
    {
      assert Updated(r, cs, now) in next;
      if Names(cs, r.id) {
        UpdatedByFiling(r, cs, now);
        var k :| 0 <= k < |cs| && cs[k].id == r.id;
        var o :| o in rows && Owed(o, filings) && o.id == cs[k].id;
        SameIdSameRow(rows, o, r);
      } else {
        assert Updated(r, cs, now) == r;
      }
    }
  }

  lemma StillOwedWasOwed(rows: seq<AckRow>, cs: seq<Closing>, next: seq<AckRow>, filings: seq<SeatFiling>, now: int)
    requires OwedClosings(rows, cs, filings) && EachUpdated(rows, next, cs, now)
    ensures forall x :: x in next && Owed(x, filings) ==> x in rows && !Names(cs, x.id)
  {
    forall x | x in next && Owed(x, filings)
      ensures x in rows && !Names(cs, x.id)
    {
      var r :| r in rows && x == Updated(r, cs, now);
      if Names(cs, r.id) {
        UpdatedByFiling(r, cs, now);
      } else {
        assert Updated(r, cs, now) == r;
      }
    }
  }

  /** One sweep shrinks what is owed, and what it closes it closes by filing. */
  lemma SweepShrinksOwed(rows: seq<AckRow>, filings: seq<SeatFiling>, now: int)
    requires Addressable(rows)
    ensures var next := Sweep(rows, filings, now).0;
            && Addressable(next) && |next| == |rows|
            && OwedIds(next, filings) <= OwedIds(rows, filings)
            && (OwedIds(rows, filings) != {} ==> OwedIds(next, filings) != OwedIds(rows, filings))
            && (forall r :: r in rows ==> KeptOrFiled(r, next, filings))
  {
    var cs := SweepClosings(rows, filings);
    var next := Sweep(rows, filings, now).0;
    SweepClosingsAreOwed(rows, filings);
    SweepUpdates(rows, filings, now);
    EachKeptOrFiled(rows, cs, next, filings, now);
    StillOwedWasOwed(rows, cs, next, filings, now);
    if OwedIds(rows, filings) != {} {
      SweepMakesProgress(rows, filings);
      assert Names(cs, cs[0].id);
      assert cs[0].id in OwedIds(rows, filings);
      assert cs[0].id !in OwedIds(next, filings);
    }
  }

  lemma {:induction false} SweepsSettle(rows: seq<AckRow>, filings: seq<SeatFiling>, nows: seq<int>)
    requires Addressable(rows)
    requires |OwedIds(rows, filings)| <= |nows|
    ensures Settled(rows, Sweeps(rows, filings, nows), filings)
    decreases |nows|
  {
    if nows == [] {
      assert OwedIds(rows, filings) == {};
      assert forall r :: r in rows && Owed(r, filings) ==> r.id in OwedIds(rows, filings);
    } else {
      SweepShrinksOwed(rows, filings, nows[0]);
      var next := Sweep(rows, filings, nows[0]).0;
      if OwedIds(rows, filings) != {} {
        SubsetIsSmaller(OwedIds(next, filings), OwedIds(rows, filings));
      }
      SweepsSettle(next, filings, nows[1..]);
      var done := Sweeps(rows, filings, nows);
      forall r | r in rows && Owed(r, filings)
        ensures exists x :: x in done && ClosedByFiling(r, x)
      {
        assert KeptOrFiled(r, next, filings);
        if r !in next {
          var x :| x in next && ClosedByFiling(r, x);
          assert x in done;
        }
      }
    }
  }

  lemma {:induction false} SubsetIsSmaller<T>(a: set<T>, b: set<T>)
    requires a < b
    ensures |a| < |b|
  {
    var x :| x in b && x !in a;
    SubsetIsNoLarger(a, b - {x});
  }

  lemma {:induction false} SubsetIsNoLarger<T>(a: set<T>, b: set<T>)
    requires a <= b
    ensures |a| <= |b|
  {
    if a != {} {
      var x :| x in a;
      SubsetIsNoLarger(a - {x}, b - {x});
    }
  }

  lemma {:induction false} IdsFitOpenRows(rows: seq<AckRow>, ids: set<string>)
    requires forall id :: id in ids ==> OpenRowNamed(rows, id)
    ensures |ids| <= |OpenAcks(rows)|
  {
    if rows == [] {
      assert forall id :: id !in ids;
      assert ids == {};
    } else {
      var rest := if IsOpen(rows[0]) then ids - {rows[0].id} else ids;
      forall id | id in rest
        ensures OpenRowNamed(rows[1..], id)
      {
        var r :| r in rows && r.id == id && IsOpen(r);
        assert r in rows[1..];
      }
      IdsFitOpenRows(rows[1..], rest);
    }
  }

  /**
   * With as many sweeps as there were open asks, an ask is closed exactly when its seat filed
   * something strictly later, however few filings there were; and a further sweep does nothing.
   */
  lemma RepeatedSweepsReachFixpoint(rows: seq<AckRow>, filings: seq<SeatFiling>, nows: seq<int>, later: int)
    requires Addressable(rows)
    requires |OpenAcks(rows)| <= |nows|
    ensures Settled(rows, Sweeps(rows, filings, nows), filings)
    ensures Sweep(Sweeps(rows, filings, nows), filings, later) == (Sweeps(rows, filings, nows), 0)
  {
    forall id | id in OwedIds(rows, filings)
      ensures OpenRowNamed(rows, id)
    {
      var r :| r in rows && Owed(r, filings) && r.id == id;
    }
    IdsFitOpenRows(rows, OwedIds(rows, filings));
    SweepsSettle(rows, filings, nows);
    SettledOwesNothing(rows, Sweeps(rows, filings, nows), filings);
    NothingOwedNothingClosed(Sweeps(rows, filings, nows), filings, later);
  }

  lemma NothingOwedNothingClosed(rows: seq<AckRow>, filings: seq<SeatFiling>, now: int)
    requires Addressable(rows) && OwedIds(rows, filings) == {}
    ensures Sweep(rows, filings, now) == (rows, 0)
  {
    SweepClosingsAreOwed(rows, filings);
    assert forall r :: r in rows && Owed(r, filings) ==> r.id in OwedIds(rows, filings);
  }

  lemma SettledOwesNothing(rows: seq<AckRow>, done: seq<AckRow>, filings: seq<SeatFiling>)
    requires Addressable(rows) && Settled(rows, done, filings)
    ensures OwedIds(done, filings) == {}
  {
    forall x | x in done
      ensures !Owed(x, filings)
    {
      IdComesFromBefore(rows, done, filings, x);
      var r :| r in rows && r.id == x.id;
      if Owed(r, filings) {
        var y :| y in done && ClosedByFiling(r, y);
        SameIdSameRow(done, x, y);
      } else {
        SameIdSameRow(done, x, r);
      }
    }
  }

  ghost function IdsOf(rows: seq<AckRow>): set<string> {
    set r | r in rows :: r.id
  }

  lemma {:induction false} AddressableCount(rows: seq<AckRow>)
    requires Addressable(rows)
    ensures |IdsOf(rows)| == |rows|
  {
    if rows == [] {
      assert IdsOf(rows) == {};
    } else {
      AddressableTail(rows);
      AddressableCount(rows[1..]);
      FirstIdIsNew(rows);
    }
  }

  lemma FirstIdIsNew(rows: seq<AckRow>)
    requires rows != [] && Addressable(rows)
    ensures rows[0].id !in IdsOf(rows[1..])
    ensures IdsOf(rows) == IdsOf(rows[1..]) + {rows[0].id}
  {
    forall k | 0 <= k < |rows[1..]|
      ensures rows[1..][k].id != rows[0].id
    {
      assert Apart(rows[0].id, rows[k + 1].id);
    }
    assert rows[0] in rows;
    assert forall r :: r in rows <==> r == rows[0] || r in rows[1..];
  }

  /** Same number of distinct ids and every old id kept: no id is new. */
  lemma IdComesFromBefore(rows: seq<AckRow>, done: seq<AckRow>, filings: seq<SeatFiling>, x: AckRow)
    requires Addressable(rows) && Settled(rows, done, filings) && x in done
    ensures exists r :: r in rows && r.id == x.id
  {
    forall id | id in IdsOf(rows)
      ensures id in IdsOf(done)
    {
      var r :| r in rows && r.id == id;
      if Owed(r, filings) {
        var y :| y in done && ClosedByFiling(r, y);
      } else {
        assert r in done;
      }
    }
    AddressableCount(rows);
    AddressableCount(done);
    if x.id !in IdsOf(rows) {
      assert x.id in IdsOf(done);
      SubsetIsSmaller(IdsOf(rows), IdsOf(done));
    }
  }

  lemma {:induction false} MatchesFitFilings(rows: seq<AckRow>, fs: seq<SeatFiling>, k: nat, taken: set<nat>)
    requires k <= |fs|
    ensures |NotesFrom(rows, fs, k, taken)| <= |fs| - k
    decreases |fs| - k
  {
    if k < |fs| {
      var i := OldestEligible(rows, fs[k], taken, 0);
      MatchesFitFilings(rows, fs, k + 1, if i == |rows| then taken else taken + {i});
    }
  }

  /** "One filing per ask" holds inside one sweep: it closes no more asks than there are filings. */
  lemma OneSweepUsesEachFilingOnce(rows: seq<AckRow>, filings: seq<SeatFiling>, now: int)
    requires Addressable(rows)
    ensures Sweep(rows, filings, now).1 <= |filings|
  {
    SweepUpdates(rows, filings, now);
    var open := OpenAcks(rows);
    if open != [] {
      var fs := FilingsSince(filings, OldestAt(open));
      assert |SortFilings(fs)| == |multiset(SortFilings(fs))| == |multiset(fs)| == |fs|;
      MatchesFitFilings(rows, SortFilings(fs), 0, {});

    }
  }

  /** It does not hold across sweeps: one filing, read again every tick, closes the seat's whole backlog. */
  lemma OneFilingClosesWholeBacklog(rows: seq<AckRow>, f: SeatFiling, nows: seq<int>)
    requires Addressable(rows) && |OpenAcks(rows)| <= |nows|
    ensures forall r :: r in rows && IsOpen(r) && Answers(r, f) ==>
              exists x :: x in Sweeps(rows, [f], nows) && ClosedByFiling(r, x)
  {
    RepeatedSweepsReachFixpoint(rows, [f], nows, 0);
    assert f in [f];
  }

  // ---------------------------------------------------------------------------
  // The `since oldest` filter
  // ---------------------------------------------------------------------------

  lemma FilterCons(f: SeatFiling, fs: seq<SeatFiling>, since: int)
    ensures FilingsSince([f] + fs, since)
          == if f.at >= since then [f] + FilingsSince(fs, since) else FilingsSince(fs, since)
  {
    assert ([f] + fs)[1..] == fs;
  }

  lemma InsertInFront(f: SeatFiling, fs: seq<SeatFiling>)
    requires fs == [] || fs[0].at >= f.at
    ensures InsertFiling(f, fs) == [f] + fs
  {
  }

  lemma InsertBehind(f: SeatFiling, g: SeatFiling, fs: seq<SeatFiling>)
    requires g.at < f.at
    ensures InsertFiling(f, [g] + fs) == [g] + InsertFiling(f, fs)
  {
    assert ([g] + fs)[1..] == fs;
  }

  lemma {:induction false} FilterInsert(f: SeatFiling, fs: seq<SeatFiling>, since: int)
    requires ByTime(fs)
    ensures FilingsSince(InsertFiling(f, fs), since) ==
            if f.at >= since then InsertFiling(f, FilingsSince(fs, since)) else FilingsSince(fs, since)
  {
    if fs == [] || fs[0].at >= f.at {
      InsertInFront(f, fs);
      FilterCons(f, fs, since);
      if f.at >= since {
        InsertInFront(f, FilingsSince(fs, since));
      }
    } else {
      var g, rest := fs[0], fs[1..];
      assert fs == [g] + rest;
      InsertBehind(f, g, rest);
      FilterInsert(f, rest, since);
      FilterCons(g, InsertFiling(f, rest), since);
      FilterCons(g, rest, since);
      InsertBehind(f, g, FilingsSince(rest, since));
    }
  }

  lemma {:induction false} FilterCommutesWithSort(fs: seq<SeatFiling>, since: int)
    ensures SortFilings(FilingsSince(fs, since)) == FilingsSince(SortFilings(fs), since)
  {
    if fs != [] {
      FilterCommutesWithSort(fs[1..], since);
      SortFilingsByTime(fs[1..]);
      FilterInsert(fs[0], SortFilings(fs[1..]), since);
    }
  }

  lemma NothingEligible(rows: seq<AckRow>, f: SeatFiling)
    requires forall r :: r in rows && IsOpen(r) ==> f.at <= r.at
    ensures OldestEligible(rows, f, {}, 0) == |rows|
  {
    forall j: nat | j < |rows|
      ensures !Eligible(rows, f, {}, j)
    {
      assert rows[j] in rows;
    }
  }

  /** Filings before every open ask are passed over one by one. */
  lemma {:induction false} EarlyFilingsMatchNothing(rows: seq<AckRow>, fs: seq<SeatFiling>, since: int)
    requires ByTime(fs)
    requires forall r :: r in rows && IsOpen(r) ==> since <= r.at
    ensures NotesFrom(rows, fs, 0, {}) == NotesFrom(rows, FilingsSince(fs, since), 0, {})
  {
    if fs != [] {
      if fs[0].at < since {
        EarlyFilingsMatchNothing(rows, fs[1..], since);
        NothingEligible(rows, fs[0]);
        DropFirst(rows, fs, 0, {});
      } else {
        AllLateKeepsAll(fs, since);
      }
    }
  }

  lemma {:induction false} AllLateKeepsAll(fs: seq<SeatFiling>, since: int)
    requires forall i :: 0 <= i < |fs| ==> fs[i].at >= since
    ensures FilingsSince(fs, since) == fs
  {
    if fs != [] {
      AllLateKeepsAll(fs[1..], since);
    }
  }

  /** Positions in the tail of the filings differ by one; the matched asks and notes do not. */
  lemma {:induction false} DropFirst(rows: seq<AckRow>, fs: seq<SeatFiling>, k: nat, taken: set<nat>)
    requires k < |fs|
    ensures NotesFrom(rows, fs, k + 1, taken) == NotesFrom(rows, fs[1..], k, taken)
    decreases |fs| - k
  {
    if k + 1 < |fs| {
      assert fs[1..][k] == fs[k + 1];
      var i := OldestEligible(rows, fs[k + 1], taken, 0);
      DropFirst(rows, fs, k + 1, if i == |rows| then taken else taken + {i});
    }
  }

  /** Reading only the filings since the oldest open ask loses no match, and changes no note. */
  lemma SinceOldestLosesNothing(rows: seq<AckRow>, filings: seq<SeatFiling>)
    requires OpenAcks(rows) != []
    ensures FiledAcks(rows, FilingsSince(filings, OldestAt(OpenAcks(rows)))) == FiledAcks(rows, filings)
  {
    var since := OldestAt(OpenAcks(rows));
    SortFilingsByTime(filings);
    FilterCommutesWithSort(filings, since);
    EarlyFilingsMatchNothing(rows, SortFilings(filings), since);
  }

  // ---------------------------------------------------------------------------
  // Pane replies
  // ---------------------------------------------------------------------------

  /** Open operator asks of the panes whose agent answered in the pane. */
  function ReplyClosings(rows: seq<AckRow>, panes: set<string>): seq<Closing> {
    if rows == [] then []
    else
      var rest := ReplyClosings(rows[1..], panes);
      if IsOpen(rows[0]) && rows[0].source == Operator && rows[0].paneId in panes
      then [ReplyClosing(rows[0])] + rest
      else rest
  }

  predicate ReplyCloses(r: AckRow, panes: set<string>) {
    IsOpen(r) && r.source == Operator && r.paneId in panes
  }

  function ReplyClosing(r: AckRow): Closing {
    Closing(r.id, PaneReply, "agent replied in pane")
  }

  lemma {:induction false} ReplyClosingsSound(rows: seq<AckRow>, panes: set<string>)
    ensures forall c :: c in ReplyClosings(rows, panes) ==>
              exists r :: r in rows && ReplyCloses(r, panes) && c == ReplyClosing(r)
  {
    if rows != [] {
      ReplyClosingsSound(rows[1..], panes);
      forall c | c in ReplyClosings(rows, panes)
        ensures exists r :: r in rows && ReplyCloses(r, panes) && c == ReplyClosing(r)
      {
        if c in ReplyClosings(rows[1..], panes) {
          var r :| r in rows[1..] && ReplyCloses(r, panes) && c == ReplyClosing(r);
          assert r in rows;
        } else {
          assert rows[0] in rows;
        }
      }
    }
  }

  lemma {:induction false} ReplyClosingsComplete(rows: seq<AckRow>, panes: set<string>)
    ensures forall r :: r in rows && ReplyCloses(r, panes) ==> ReplyClosing(r) in ReplyClosings(rows, panes)
  {
    if rows != [] {
      ReplyClosingsComplete(rows[1..], panes);
    }
  }

  lemma {:induction false} ReplyClosingsDistinct(rows: seq<AckRow>, panes: set<string>)
    requires Addressable(rows)
    ensures DistinctIds(ReplyClosings(rows, panes))
  {
    if rows != [] {
      ReplyClosingsDistinct(rows[1..], panes);
      ReplyClosingsSound(rows[1..], panes);
      var rest := ReplyClosings(rows[1..], panes);
      forall k | 0 <= k < |rest|
        ensures rest[k].id != rows[0].id
      {
        assert rest[k] in rest;
        var r :| r in rows[1..] && ReplyCloses(r, panes) && rest[k] == ReplyClosing(r);
      }
    }
  }

  /** What a pane reply makes of one row: closed now, as a pane reply, with a note that says so. */
  function AfterReply(r: AckRow, panes: set<string>, now: int): AckRow {
    if ReplyCloses(r, panes)
    then r.(ackedAt := Some(now), ackBy := Some(PaneReply), ackNote := Some("agent replied in pane"))
    else r
  }

  /** A pane reply closes exactly the open operator asks of the answered panes. */
  lemma PaneReplyClosesOperatorAsks(rows: seq<AckRow>, panes: set<string>, now: int)
    requires Addressable(rows)
    ensures var after := CloseEach(rows, ReplyClosings(rows, panes), now).0;
            && Addressable(after) && |after| == |rows|
            && forall r :: r in rows ==> AfterReply(r, panes, now) in after
  {
    var cs := ReplyClosings(rows, panes);
    ReplyClosingsSound(rows, panes);
    ReplyClosingsComplete(rows, panes);
    ReplyClosingsDistinct(rows, panes);
    forall k | 0 <= k < |cs|
      ensures OpenRowNamed(rows, cs[k].id)
    {
      assert cs[k] in cs;
    }
    CloseEachUpdates(rows, cs, now);
    forall r | r in rows
      ensures Updated(r, cs, now) == AfterReply(r, panes, now)
    {
      if ReplyCloses(r, panes) {
        var k :| 0 <= k < |cs| && cs[k] == ReplyClosing(r);
        UpdatedAt(r, cs, k, now);
      } else {
        forall k | 0 <= k < |cs|
          ensures cs[k].id != r.id
        {
          assert cs[k] in cs;
          var o :| o in rows && ReplyCloses(o, panes) && cs[k] == ReplyClosing(o);
          if o.id == r.id {
            SameIdSameRow(rows, o, r);
          }
        }
      }
    }
  }

  lemma {:induction false} UpdatedAt(r: AckRow, cs: seq<Closing>, k: nat, now: int)
    requires DistinctIds(cs) && k < |cs| && cs[k].id == r.id
    ensures Updated(r, cs, now) == CloseAckRow(r, cs[k].who, cs[k].note, now)
  {
    if k < |cs| - 1 {
      UpdatedAt(r, cs[..|cs| - 1], k, now);
    }
  }

  // ---------------------------------------------------------------------------
  // The store and the sweep as the daemon runs them
  // ---------------------------------------------------------------------------

  lemma CloseEachMore(rows: seq<AckRow>, cs: seq<Closing>, c: Closing, now: int)
    ensures var (done, n) := CloseEach(rows, cs, now);
            var (after, ok) := AckAck(done, c.id, c.who, c.note, now);
            CloseEach(rows, cs + [c], now) == (after, if ok then n + 1 else n)
  {
    assert (cs + [c])[..|cs|] == cs;
  }

  lemma {:induction false} ReplyClosingsMore(rows: seq<AckRow>, r: AckRow, panes: set<string>)
    ensures ReplyClosings(rows + [r], panes)
         == ReplyClosings(rows, panes) + if ReplyCloses(r, panes) then [ReplyClosing(r)] else []
  {
    if rows == [] {
      assert rows + [r] == [r];
    } else {
      assert (rows + [r])[1..] == rows[1..] + [r];
      ReplyClosingsMore(rows[1..], r, panes);
    }
  }

  class AckStore {
    var rows: seq<AckRow>

    constructor (rows: seq<AckRow>)
      ensures this.rows == rows
    {
      this.rows := rows;
    }

    /** The row with exactly the stripped id, else the first whose stripped id begins with it. */
    method Find(id: string) returns (i: nat)
      ensures i == FindAck(rows, id)
    {
      var needle := Bare(id);
      if needle == "" {
        return |rows|;
      }
      i := 0;
      while i < |rows| && rows[i].id != needle
        invariant 0 <= i <= |rows|
        invariant forall k :: 0 <= k < i ==> rows[k].id != needle
      {
        i := i + 1;
      }
      if i < |rows| {
        return;
      }
      i := 0;
      while i < |rows| && !StartsWith(Bare(rows[i].id), needle)
        invariant 0 <= i <= |rows|
        invariant forall k :: 0 <= k < i ==> !StartsWith(Bare(rows[k].id), needle)
      {
        i := i + 1;
      }
    }

    method Ack(id: string, who: AckCloseBy, note: string, now: int) returns (ok: bool)
      modifies this
      ensures (rows, ok) == AckAck(old(rows), id, who, note, now)
    {
      var i := Find(id);
      if i == |rows| || !IsOpen(rows[i]) {
        return false;
      }
      var row := CloseAckRow(rows[i], who, note, now);
      rows := RemoveId(rows, row.id) + [row];
      ok := true;
    }

    /** One more closing on top of those already tried. */
    method CloseNext(ghost before: seq<AckRow>, ghost cs: seq<Closing>, c: Closing, now: int, n: nat) returns (m: nat)
      requires (rows, n) == CloseEach(before, cs, now)
      modifies this
      ensures (rows, m) == CloseEach(before, cs + [c], now)
    {
      CloseEachMore(before, cs, c, now);
      var ok := Ack(c.id, c.who, c.note, now);
      m := if ok then n + 1 else n;
    }

    method CloseMatched(acks: seq<FiledAck>, now: int) returns (n: nat)
      requires forall k :: 0 <= k < |acks| ==> acks[k].row < |rows|
      modifies this
      ensures (rows, n) == CloseEach(old(rows), FiledClosings(old(rows), acks), now)
    {
      n := 0;
      var snapshot := rows;
      ghost var cs := FiledClosings(snapshot, acks);
      for k := 0 to |acks|
        invariant (rows, n) == CloseEach(snapshot, cs[..k], now)
      {
        var c := Closing(snapshot[acks[k].row].id, Filed, acks[k].note);
        NextFiled(snapshot, acks, cs, k);
        n := CloseNext(snapshot, cs[..k], c, now, n);
      }
      assert cs[..|acks|] == cs;
    }

    method CloseAcksOnFilings(filings: seq<SeatFiling>, now: int) returns (n: nat)
      modifies this
      ensures (rows, n) == Sweep(old(rows), filings, now)
    {
      var open := OpenAcks(rows);
      if open == [] {
        return 0;
      }
      var matched := MatchFiledAcks(rows, FilingsSince(filings, OldestAt(open)));
      n := CloseMatched(matched, now);
    }

    method CloseOperatorAcksOnPaneReply(panes: set<string>, now: int) returns (n: nat)
      modifies this
      ensures (rows, n) == CloseEach(old(rows), ReplyClosings(old(rows), panes), now)
    {
      n := 0;
      var snapshot := rows;
      for i := 0 to |snapshot|
        invariant (rows, n) == CloseEach(snapshot, ReplyClosings(snapshot[..i], panes), now)
      {
        var row := snapshot[i];
        ghost var tried := ReplyClosings(snapshot[..i], panes);
        ReplyClosingsMore(snapshot[..i], row, panes);
        assert snapshot[..i] + [row] == snapshot[..i + 1];
        if IsOpen(row) && row.source == Operator && row.paneId in panes {
          n := CloseNext(snapshot, tried, ReplyClosing(row), now, n);
        } else {
          assert tried + [] == tried;
        }
      }
      assert snapshot[..|snapshot|] == snapshot;
    }
  }
}
