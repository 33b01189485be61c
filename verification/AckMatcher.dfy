/** `matchFiledAcks` with the program's per-seat queues, proved equal to the reference matching. */
module AckMatcher {
  import opened AckLedger
  import opened StableOrder

  /** A ledger position to close, with the audit note of the filing that closes it. */
  datatype FiledAck = FiledAck(row: nat, note: string)

  function WithNotes(ms: seq<Match>, fs: seq<SeatFiling>): (r: seq<FiledAck>)
    requires forall n :: 0 <= n < |ms| ==> ms[n].filing < |fs|
    ensures |r| == |ms|
    ensures forall n :: 0 <= n < |ms| ==> r[n] == FiledAck(ms[n].row, fs[ms[n].filing].what)
  {
    seq(|ms|, n requires 0 <= n < |ms| => FiledAck(ms[n].row, fs[ms[n].filing].what))
  }

  /** The reference matching from filing `k` on, as the list of rows to close and their notes. */
  function NotesFrom(rows: seq<AckRow>, fs: seq<SeatFiling>, k: nat, taken: set<nat>): (acks: seq<FiledAck>)
    requires k <= |fs|
    ensures forall n :: 0 <= n < |acks| ==> acks[n].row < |rows|
    decreases |fs| - k
  {
    if k == |fs| then []
    else
      var i := OldestEligible(rows, fs[k], taken, 0);
      if i == |rows| then NotesFrom(rows, fs, k + 1, taken)
      else [FiledAck(i, fs[k].what)] + NotesFrom(rows, fs, k + 1, taken + {i})
  }

  lemma {:induction false} NotesOfMatches(rows: seq<AckRow>, fs: seq<SeatFiling>, k: nat, taken: set<nat>)
    requires k <= |fs|
    ensures NotesFrom(rows, fs, k, taken) == WithNotes(MatchFrom(rows, fs, k, taken), fs)
    decreases |fs| - k
  {
    if k < |fs| {
      var i := OldestEligible(rows, fs[k], taken, 0);
      NotesOfMatches(rows, fs, k + 1, if i == |rows| then taken else taken + {i});
    }
  }

  function FiledAcks(rows: seq<AckRow>, filings: seq<SeatFiling>): seq<FiledAck> {
    NotesFrom(rows, SortFilings(filings), 0, {})
  }

  function AgeKeys(rows: seq<AckRow>): seq<Key> {
    seq(|rows|, i requires 0 <= i < |rows| => Key(rows[i].at, 0))
  }

  type Queues = map<string, seq<nat>>

  predicate Waiting(rows: seq<AckRow>, seat: string, i: nat) {
    i < |rows| && IsOpen(rows[i]) && rows[i].seat == seat
  }

  /** The open rows before position `n`, listed per seat in ledger order. */
  ghost predicate Grouped(rows: seq<AckRow>, n: nat, bySeat: Queues) {
    && (forall seat :: seat in bySeat ==> Ascending(bySeat[seat]))
    && (forall seat, i: nat :: seat in bySeat && i in bySeat[seat] ==> i < n && Waiting(rows, seat, i))
    && (forall i: nat :: i < n && i < |rows| && IsOpen(rows[i]) ==>
          rows[i].seat in bySeat && i in bySeat[rows[i].seat])
  }

  /** The open rows that are not taken, listed per seat by age. */
  ghost predicate Queued(rows: seq<AckRow>, taken: set<nat>, bySeat: Queues) {
    && (forall seat :: seat in bySeat ==>
          InTable(AgeKeys(rows), bySeat[seat]) && Ordered(AgeKeys(rows), bySeat[seat]))
    && (forall seat, i: nat :: seat in bySeat && i in bySeat[seat] ==> Waiting(rows, seat, i) && i !in taken)
    && (forall i: nat :: i < |rows| && IsOpen(rows[i]) && i !in taken ==>
          rows[i].seat in bySeat && i in bySeat[rows[i].seat])
  }

  function SortQueues(rows: seq<AckRow>, bySeat: Queues): Queues
    requires Grouped(rows, |rows|, bySeat)
  {
    map seat | seat in bySeat ::
      (assert forall k :: 0 <= k < |bySeat[seat]| ==> bySeat[seat][k] in bySeat[seat];
       Sort(AgeKeys(rows), bySeat[seat]))
  }

  lemma SortedQueuesAreQueued(rows: seq<AckRow>, bySeat: Queues)
    requires Grouped(rows, |rows|, bySeat)
    ensures Queued(rows, {}, SortQueues(rows, bySeat))
  {
    forall seat | seat in bySeat
      ensures InTable(AgeKeys(rows), bySeat[seat])
      ensures Ordered(AgeKeys(rows), Sort(AgeKeys(rows), bySeat[seat]))
      ensures forall x :: x in bySeat[seat] <==> x in SortQueues(rows, bySeat)[seat]
    {
      assert forall k :: 0 <= k < |bySeat[seat]| ==> bySeat[seat][k] in bySeat[seat];
      SortIsOrdered(AgeKeys(rows), bySeat[seat]);
    }
  }

  /** First queue entry opened strictly before the filing; `|list|` when there is none. */
  function FindEarlier(rows: seq<AckRow>, list: seq<nat>, at: int): (idx: nat)
    requires InTable(AgeKeys(rows), list)
    ensures idx <= |list|
    ensures idx < |list| ==> rows[list[idx]].at < at
    ensures forall n :: 0 <= n < idx ==> rows[list[n]].at >= at
  {
    if list == [] then 0
    else if rows[list[0]].at < at then 0
    else 1 + FindEarlier(rows, list[1..], at)
  }

  /** Taking the first fitting entry of the seat's queue takes the oldest eligible ask. */
  lemma QueueHeadIsOldest(rows: seq<AckRow>, taken: set<nat>, bySeat: Queues, f: SeatFiling)
    requires Queued(rows, taken, bySeat)
    ensures f.seat !in bySeat ==> OldestEligible(rows, f, taken, 0) == |rows|
    ensures f.seat in bySeat ==>
              var idx := FindEarlier(rows, bySeat[f.seat], f.at);
              OldestEligible(rows, f, taken, 0) == if idx < |bySeat[f.seat]| then bySeat[f.seat][idx] else |rows|
  {
    var i := OldestEligible(rows, f, taken, 0);
    if i < |rows| {
      assert i in bySeat[f.seat];
    }
    if f.seat in bySeat {
      var list := bySeat[f.seat];
      var idx := FindEarlier(rows, list, f.at);
      if idx < |list| {
        assert list[idx] in list;
        assert Waiting(rows, f.seat, list[idx]);
        assert Eligible(rows, f, taken, list[idx]);
        var n :| 0 <= n < |list| && list[n] == i;
        assert n >= idx;
        if n > idx {
          assert Before(AgeKeys(rows), list[idx], list[n]);
        }
      }
    }
  }

  lemma RemoveKeepsOrder(keys: seq<Key>, list: seq<nat>, idx: nat)
    requires InTable(keys, list) && Ordered(keys, list) && idx < |list|
    ensures var rest := list[..idx] + list[idx + 1..];
            && InTable(keys, rest) && Ordered(keys, rest)
            && forall x: nat :: x in rest <==> x in list && x != list[idx]
  {
    var rest := list[..idx] + list[idx + 1..];
    forall a, b | 0 <= a < b < |rest|
      ensures Before(keys, rest[a], rest[b])
    {
      var a' := if a < idx then a else a + 1;
      var b' := if b < idx then b else b + 1;
      assert Before(keys, list[a'], list[b']);
    }
    forall a | 0 <= a < |list| && a != idx
      ensures list[a] != list[idx] && list[a] in rest
    {
      assert a < idx ==> Before(keys, list[a], list[idx]);
      assert idx < a ==> Before(keys, list[idx], list[a]);
      assert rest[if a < idx then a else a - 1] == list[a];
    }
    forall a | 0 <= a < |rest|
      ensures rest[a] in list && rest[a] != list[idx]
    {
      assert rest[a] == list[if a < idx then a else a + 1];
    }
  }

  lemma TakeKeepsQueued(rows: seq<AckRow>, taken: set<nat>, bySeat: Queues, seat: string, idx: nat)
    requires Queued(rows, taken, bySeat) && seat in bySeat && idx < |bySeat[seat]|
    ensures var list := bySeat[seat];
            Queued(rows, taken + {list[idx]}, bySeat[seat := list[..idx] + list[idx + 1..]])
  {
    var list := bySeat[seat];
    RemoveKeepsOrder(AgeKeys(rows), list, idx);
    assert list[idx] in list;
  }

  lemma AppendAscending(list: seq<nat>, i: nat)
    requires Ascending(list) && forall x: nat :: x in list ==> x < i
    ensures Ascending(list + [i])
  {
    forall k | 0 <= k < |list|
      ensures list[k] < i
    {
      assert list[k] in list;
    }
  }

  lemma GroupOneMore(rows: seq<AckRow>, i: nat, bySeat: Queues)
    requires i < |rows| && IsOpen(rows[i]) && Grouped(rows, i, bySeat)
    ensures var key := rows[i].seat;
            var list := if key in bySeat then bySeat[key] else [];
            Grouped(rows, i + 1, bySeat[key := list + [i]])
  {
    var key := rows[i].seat;
    var list := if key in bySeat then bySeat[key] else [];
    AppendAscending(list, i);
    var next := bySeat[key := list + [i]];
    forall seat, j: nat | seat in next && j in next[seat]
      ensures j < i + 1 && Waiting(rows, seat, j)
    {
      assert j == i || (seat in bySeat && j in bySeat[seat]);
    }
  }

  /** Per-seat lists of the open rows, then each list sorted by age. */
  method QueueBySeat(rows: seq<AckRow>) returns (bySeat: Queues)
    ensures Queued(rows, {}, bySeat)
  {
    bySeat := map[];
    for i := 0 to |rows|
      invariant Grouped(rows, i, bySeat)
    {
      if IsOpen(rows[i]) {
        GroupOneMore(rows, i, bySeat);
        var key := rows[i].seat;
        var list := if key in bySeat then bySeat[key] else [];
        bySeat := bySeat[key := list + [i]];
      }
    }
    SortedQueuesAreQueued(rows, bySeat);
    bySeat := SortQueues(rows, bySeat);
  }

  /** Find the seat's queue and splice out its first entry older than the filing. */
  method TakeOldest(rows: seq<AckRow>, bySeat: Queues, f: SeatFiling, ghost taken: set<nat>)
    returns (next: Queues, row: nat)
    requires Queued(rows, taken, bySeat)
    ensures row == OldestEligible(rows, f, taken, 0)
    ensures Queued(rows, if row == |rows| then taken else taken + {row}, next)
  {
    QueueHeadIsOldest(rows, taken, bySeat, f);
    next, row := bySeat, |rows|;
    if f.seat in bySeat && bySeat[f.seat] != [] {
      var list := bySeat[f.seat];
      var idx := FindEarlier(rows, list, f.at);
      if idx < |list| {
        TakeKeepsQueued(rows, taken, bySeat, f.seat, idx);
        next, row := bySeat[f.seat := list[..idx] + list[idx + 1..]], list[idx];
      }
    }
  }

  method MatchFiledAcks(rows: seq<AckRow>, filings: seq<SeatFiling>) returns (matched: seq<FiledAck>)
    ensures matched == FiledAcks(rows, filings)
  {
    var bySeat := QueueBySeat(rows);
    matched := [];
    var sorted := SortFilings(filings);
    ghost var taken: set<nat> := {};
    for k := 0 to |sorted|
      invariant Queued(rows, taken, bySeat)
      invariant FiledAcks(rows, filings) == matched + NotesFrom(rows, sorted, k, taken)
    {
      var row;
      bySeat, row := TakeOldest(rows, bySeat, sorted[k], taken);
      if row < |rows| {
        var ack := FiledAck(row, sorted[k].what);
        taken := taken + {row};
        assert matched + ([ack] + NotesFrom(rows, sorted, k + 1, taken))
            == matched + [ack] + NotesFrom(rows, sorted, k + 1, taken);
        matched := matched + [ack];
      }
    }
  }
}
