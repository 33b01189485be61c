/**
 * Leads-left placement of mini seats on a grid. `WantOrder` follows the program's nested loops;
 * the lemmas say exactly when it fails and what it places, and that looking a mini up in the
 * order gives back the lead of its row.
 */
module Minis {
  import opened Basics

  datatype NotEnoughMinis = NotEnoughMinis

  /** The minis 1..n that are not leads, ascending. */
  function NonLeads(n: nat, leads: seq<int>): (r: seq<int>)
    ensures forall x :: x in r <==> 1 <= x <= n && x !in leads
    ensures forall i, j :: 0 <= i < j < |r| ==> r[i] < r[j]
  {
    if n == 0 then []
    else if n in leads then NonLeads(n - 1, leads)
    else
      var rest := NonLeads(n - 1, leads);
      assert forall i :: 0 <= i < |rest| ==> rest[i] in rest;
      rest + [n]
  }

  function SkipTaken(non: seq<int>, want: seq<int>, k: nat): (r: nat)
    requires k <= |non|
    ensures k <= r <= |non|
    ensures r < |non| ==> non[r] !in want
    ensures forall j :: k <= j < r ==> non[j] in want
    decreases |non| - k
  {
    if k < |non| && non[k] in want then SkipTaken(non, want, k + 1) else k
  }

  /** The program's loops from cell (row, col) on; a full order leaves the row early. */
  function FillFrom(cols: nat, rows: nat, total: nat, leads: seq<int>, non: seq<int>,
                    row: nat, col: nat, want: seq<int>, nonIdx: nat): Result<seq<int>, NotEnoughMinis>
    requires nonIdx <= |non|
    decreases rows - row, cols - col
  {
    if row >= rows then Ok(want[..Min(total, |want|)])
    else if col >= cols || |want| >= total then FillFrom(cols, rows, total, leads, non, row + 1, 0, want, nonIdx)
    else if col == 0 && row < |leads| then
      FillFrom(cols, rows, total, leads, non, row, col + 1, want + [leads[row]], nonIdx)
    else
      var k := SkipTaken(non, want, nonIdx);
      if k == |non| then Err(NotEnoughMinis)
      else FillFrom(cols, rows, total, leads, non, row, col + 1, want + [non[k]], k + 1)
  }

  function WantOrder(cols: nat, rows: nat, max: nat, leads: seq<int>): Result<seq<int>, NotEnoughMinis> {
    var total := Min(max, cols * rows);
    FillFrom(cols, rows, total, leads, NonLeads(total, leads), 0, 0, [], 0)
  }

  // ---------------------------------------------------------------------------
  // A full grid with distinct leads
  // ---------------------------------------------------------------------------

  ghost predicate GoodLeads(max: nat, leads: seq<int>) {
    Distinct(leads) && forall i :: 0 <= i < |leads| ==> 1 <= leads[i] <= max
  }

  ghost function LeadsUpTo(n: nat, leads: seq<int>): set<int> {
    set x | x in leads && 1 <= x <= n
  }

  function LeadCount(n: nat, leads: seq<int>): nat {
    if n == 0 then 0 else LeadCount(n - 1, leads) + if n in leads then 1 else 0
  }

  lemma OneMoreLead(n: nat, leads: seq<int>)
    requires n > 0
    ensures |LeadsUpTo(n, leads)| == |LeadsUpTo(n - 1, leads)| + if n in leads then 1 else 0
  {
    var before := LeadsUpTo(n - 1, leads);
    if n in leads {
      assert LeadsUpTo(n, leads) == before + {n};
    } else {
      assert LeadsUpTo(n, leads) == before;
    }
  }

  lemma {:induction false} LeadCountIsSize(n: nat, leads: seq<int>)
    ensures LeadCount(n, leads) == |LeadsUpTo(n, leads)|
  {
    if n == 0 {
      assert LeadsUpTo(0, leads) == {};
    } else {
      LeadCountIsSize(n - 1, leads);
      OneMoreLead(n, leads);
    }
  }

  lemma {:induction false} NonLeadsCount(n: nat, leads: seq<int>)
    ensures |NonLeads(n, leads)| + LeadCount(n, leads) == n
  {
    if n > 0 {
      NonLeadsCount(n - 1, leads);
    }
  }

  lemma GoodLeadsLeaveTheRest(max: nat, leads: seq<int>)
    requires GoodLeads(max, leads)
    ensures |NonLeads(max, leads)| == max - |leads|
  {
    NonLeadsCount(max, leads);
    LeadCountIsSize(max, leads);
    DistinctCount(leads);
    assert LeadsUpTo(max, leads) == set x | x in leads;
  }

  /** Leads placed before cell (row, col). */
  function LeadsPlaced(leads: seq<int>, row: nat, col: nat): nat {
    var touched := if col == 0 then row else row + 1;
    if touched <= |leads| then touched else |leads|
  }

  /** The cell at the left of a row, counted by adding up the rows above it. */
  function Left(cols: nat, row: nat): nat {
    if row == 0 then 0 else Left(cols, row - 1) + cols
  }

  lemma {:induction false} LeftIsProduct(cols: nat, row: nat)
    ensures Left(cols, row) == row * cols
  {
    if row > 0 {
      LeftIsProduct(cols, row - 1);
      assert row * cols == (row - 1) * cols + cols;
    }
  }

  lemma {:induction false} LeftGrows(cols: nat, row: nat, rows: nat)
    requires cols >= 1 && row <= rows
    ensures Left(cols, rows) >= Left(cols, row) + (rows - row)
    decreases rows
  {
    if row < rows {
      LeftGrows(cols, row, rows - 1);
    }
  }

  /** The first `n` leads stand at the left of their rows. */
  ghost predicate LeadsInPlace(cols: nat, leads: seq<int>, n: nat, want: seq<int>)
    requires n <= |leads|
  {
    forall r: nat :: r < n ==> Left(cols, r) < |want| && want[Left(cols, r)] == leads[r]
  }

  ghost predicate OthersAscend(leads: seq<int>, want: seq<int>) {
    forall i, j :: 0 <= i < j < |want| && want[i] !in leads && want[j] !in leads ==> want[i] < want[j]
  }

  /** `want` holds exactly the first leads and the first other minis. */
  ghost predicate TakenFrom(leads: seq<int>, n: nat, non: seq<int>, nonIdx: nat, want: seq<int>)
    requires n <= |leads| && nonIdx <= |non|
  {
    && (forall i :: 0 <= i < |want| ==> want[i] in leads[..n] || want[i] in non[..nonIdx])
    && (forall k :: 0 <= k < nonIdx ==> non[k] in want)
  }

  /** What holds in front of cell (row, col) of a full grid. */
  ghost predicate Filled(cols: nat, leads: seq<int>, non: seq<int>, row: nat, col: nat, want: seq<int>, nonIdx: nat) {
    && nonIdx <= |non|
    && |want| == Left(cols, row) + col
    && nonIdx + LeadsPlaced(leads, row, col) == |want|
    && Distinct(want)
    && TakenFrom(leads, LeadsPlaced(leads, row, col), non, nonIdx, want)
    && LeadsInPlace(cols, leads, LeadsPlaced(leads, row, col), want)
    && OthersAscend(leads, want)
  }

  lemma LeadsStayInPlace(cols: nat, leads: seq<int>, n: nat, want: seq<int>, x: int)
    requires n <= |leads| && LeadsInPlace(cols, leads, n, want)
    ensures LeadsInPlace(cols, leads, n, want + [x])
    ensures n < |leads| && Left(cols, n) == |want| && x == leads[n] ==> LeadsInPlace(cols, leads, n + 1, want + [x])
  {
    forall r: nat | r < n
      ensures Left(cols, r) < |want + [x]| && (want + [x])[Left(cols, r)] == leads[r]
    {
      assert want[Left(cols, r)] == leads[r];
    }
  }

  lemma TakeLead(leads: seq<int>, n: nat, non: seq<int>, nonIdx: nat, want: seq<int>)
    requires Distinct(leads) && n < |leads| && nonIdx <= |non| && Distinct(want)
    requires forall x :: x in non ==> x !in leads
    requires TakenFrom(leads, n, non, nonIdx, want) && OthersAscend(leads, want)
    ensures TakenFrom(leads, n + 1, non, nonIdx, want + [leads[n]])
    ensures Distinct(want + [leads[n]]) && OthersAscend(leads, want + [leads[n]])
  {
    var more := want + [leads[n]];
    assert leads[..n + 1] == leads[..n] + [leads[n]];
    assert leads[n] in leads;
    forall i | 0 <= i < |want|
      ensures want[i] != leads[n]
    {
      if want[i] in leads[..n] {
        var r :| 0 <= r < n && leads[r] == want[i];
      } else {
        assert want[i] in non;
      }
    }
    forall k | 0 <= k < nonIdx
      ensures non[k] in more
    {
      assert non[k] in want;
    }
  }

  lemma TakeOther(leads: seq<int>, n: nat, non: seq<int>, nonIdx: nat, want: seq<int>)
    requires n <= |leads| && nonIdx < |non| && Distinct(want)
    requires forall x :: x in non ==> x !in leads
    requires forall i, j :: 0 <= i < j < |non| ==> non[i] < non[j]
    requires TakenFrom(leads, n, non, nonIdx, want) && OthersAscend(leads, want)
    ensures non[nonIdx] !in want
    ensures TakenFrom(leads, n, non, nonIdx + 1, want + [non[nonIdx]])
    ensures Distinct(want + [non[nonIdx]]) && OthersAscend(leads, want + [non[nonIdx]])
  {
    var x := non[nonIdx];
    var more := want + [x];
    assert x in non;
    assert non[..nonIdx + 1] == non[..nonIdx] + [x];
    forall i | 0 <= i < |want|
      ensures want[i] != x && (want[i] !in leads ==> want[i] < x)
    {
      if want[i] in leads[..n] {
        assert want[i] in leads;
      } else {
        var k :| 0 <= k < nonIdx && non[k] == want[i];
      }
    }
    forall k | 0 <= k < nonIdx + 1
      ensures non[k] in more
    {
      assert k < nonIdx ==> non[k] in want;
    }
  }

  lemma PlaceLead(cols: nat, leads: seq<int>, non: seq<int>, row: nat, want: seq<int>, nonIdx: nat)
    requires Distinct(leads) && row < |leads| && cols >= 1
    requires forall x :: x in non ==> x !in leads
    requires Filled(cols, leads, non, row, 0, want, nonIdx)
    ensures Filled(cols, leads, non, row, 1, want + [leads[row]], nonIdx)
  {
    LeadsStayInPlace(cols, leads, row, want, leads[row]);
    TakeLead(leads, row, non, nonIdx, want);
  }

  lemma PlaceNonLead(cols: nat, leads: seq<int>, non: seq<int>, row: nat, col: nat, want: seq<int>, nonIdx: nat)
    requires col < cols && !(col == 0 && row < |leads|) && nonIdx < |non|
    requires forall x :: x in non ==> x !in leads
    requires forall i, j :: 0 <= i < j < |non| ==> non[i] < non[j]
    requires Filled(cols, leads, non, row, col, want, nonIdx)
    ensures SkipTaken(non, want, nonIdx) == nonIdx
    ensures Filled(cols, leads, non, row, col + 1, want + [non[nonIdx]], nonIdx + 1)
  {
    var placed := LeadsPlaced(leads, row, col);
    assert placed == LeadsPlaced(leads, row, col + 1);
    LeadsStayInPlace(cols, leads, placed, want, non[nonIdx]);
    TakeOther(leads, placed, non, nonIdx, want);
  }

  lemma NextRow(cols: nat, leads: seq<int>, non: seq<int>, row: nat, want: seq<int>, nonIdx: nat)
    requires cols >= 1 && Filled(cols, leads, non, row, cols, want, nonIdx)
    ensures Filled(cols, leads, non, row + 1, 0, want, nonIdx)
  {
  }

  /** The cell in front of which the other minis run out lies past more leads than rows. */
  lemma OutOfMinis(cols: nat, rows: nat, leads: seq<int>, non: seq<int>, row: nat, col: nat,
                   want: seq<int>, nonIdx: nat)
    requires row < rows && col < cols && Filled(cols, leads, non, row, col, want, nonIdx)
    requires nonIdx == |non| == Left(cols, rows) - |leads|
    requires !(col == 0 && row < |leads|)
    ensures |leads| > rows
  {
    LeftGrows(cols, row + 1, rows);
  }

  /** A lead's cell, in a grid that is never full before its last cell. */
  lemma FillCell(cols: nat, rows: nat, total: nat, leads: seq<int>, non: seq<int>, row: nat,
                 want: seq<int>, nonIdx: nat)
    requires row < rows && cols >= 1 && total == Left(cols, rows) && Filled(cols, leads, non, row, 0, want, nonIdx)
    requires row < |leads|
    ensures FillFrom(cols, rows, total, leads, non, row, 0, want, nonIdx)
         == FillFrom(cols, rows, total, leads, non, row, 1, want + [leads[row]], nonIdx)
  {
    LeftGrows(cols, row, rows);
  }

  lemma FillOther(cols: nat, rows: nat, total: nat, leads: seq<int>, non: seq<int>, row: nat, col: nat,
                  want: seq<int>, nonIdx: nat)
    requires row < rows && col < cols && total == Left(cols, rows) && Filled(cols, leads, non, row, col, want, nonIdx)
    requires !(col == 0 && row < |leads|) && nonIdx <= |non|
    requires SkipTaken(non, want, nonIdx) == nonIdx
    ensures FillFrom(cols, rows, total, leads, non, row, col, want, nonIdx)
         == if nonIdx == |non| then Err(NotEnoughMinis)
            else FillFrom(cols, rows, total, leads, non, row, col + 1, want + [non[nonIdx]], nonIdx + 1)
  {
    LeftGrows(cols, row + 1, rows);
  }

  /** Every cell placed. */
  ghost predicate Placed(cols: nat, total: nat, leads: seq<int>, order: seq<int>) {
    && |order| == total
    && Distinct(order)
    && (forall x :: x in order <==> 1 <= x <= total)
    && LeadsInPlace(cols, leads, |leads|, order)
    && OthersAscend(leads, order)
  }

  ghost predicate FillEnds(cols: nat, rows: nat, total: nat, leads: seq<int>, r: Result<seq<int>, NotEnoughMinis>) {
    if |leads| <= rows then r.Ok? && Placed(cols, total, leads, r.value) else r.Err?
  }

  lemma FillIsOver(cols: nat, rows: nat, total: nat, leads: seq<int>, non: seq<int>, want: seq<int>, nonIdx: nat)
    requires GoodLeads(total, leads) && non == NonLeads(total, leads) && total == Left(cols, rows)
    requires Filled(cols, leads, non, rows, 0, want, nonIdx)
    ensures FillEnds(cols, rows, total, leads, FillFrom(cols, rows, total, leads, non, rows, 0, want, nonIdx))
  {
    GoodLeadsLeaveTheRest(total, leads);
    assert want[..|want|] == want;
    forall x
      ensures x in want <==> 1 <= x <= total
    {
      AllTaken(cols, leads, non, want, x);
      assert x in leads ==> 1 <= x <= total;
    }
  }

  lemma AllTaken(cols: nat, leads: seq<int>, non: seq<int>, want: seq<int>, x: int)
    requires TakenFrom(leads, |leads|, non, |non|, want) && LeadsInPlace(cols, leads, |leads|, want)
    ensures x in want <==> x in leads || x in non
  {
    assert leads[..|leads|] == leads && non[..|non|] == non;
    if x in leads {
      var r: nat :| r < |leads| && leads[r] == x;
      assert want[Left(cols, r)] == x;
    }
    if x in non {
      var k :| 0 <= k < |non| && non[k] == x;
      assert non[k] in want;
    }
  }

  lemma StepRow(cols: nat, rows: nat, total: nat, leads: seq<int>, non: seq<int>, row: nat, want: seq<int>, nonIdx: nat)
    requires cols >= 1 && row < rows && nonIdx <= |non| && Filled(cols, leads, non, row, cols, want, nonIdx)
    ensures Filled(cols, leads, non, row + 1, 0, want, nonIdx)
    ensures FillFrom(cols, rows, total, leads, non, row, cols, want, nonIdx)
         == FillFrom(cols, rows, total, leads, non, row + 1, 0, want, nonIdx)
  {
    NextRow(cols, leads, non, row, want, nonIdx);
  }

  lemma StepOther(cols: nat, rows: nat, total: nat, leads: seq<int>, non: seq<int>, row: nat, col: nat,
                  want: seq<int>, nonIdx: nat)
    requires row < rows && col < cols && total == Left(cols, rows) && !(col == 0 && row < |leads|)
    requires non == NonLeads(total, leads) && nonIdx < |non| && Filled(cols, leads, non, row, col, want, nonIdx)
    ensures Filled(cols, leads, non, row, col + 1, want + [non[nonIdx]], nonIdx + 1)
    ensures FillFrom(cols, rows, total, leads, non, row, col, want, nonIdx)
         == FillFrom(cols, rows, total, leads, non, row, col + 1, want + [non[nonIdx]], nonIdx + 1)
  {
    PlaceNonLead(cols, leads, non, row, col, want, nonIdx);
    FillOther(cols, rows, total, leads, non, row, col, want, nonIdx);
  }

  lemma StepLead(cols: nat, rows: nat, total: nat, leads: seq<int>, non: seq<int>, row: nat,
                 want: seq<int>, nonIdx: nat)
    requires row < rows && cols >= 1 && total == Left(cols, rows) && row < |leads| && Distinct(leads)
    requires non == NonLeads(total, leads) && Filled(cols, leads, non, row, 0, want, nonIdx)
    ensures Filled(cols, leads, non, row, 1, want + [leads[row]], nonIdx)
    ensures FillFrom(cols, rows, total, leads, non, row, 0, want, nonIdx)
         == FillFrom(cols, rows, total, leads, non, row, 1, want + [leads[row]], nonIdx)
  {
    FillCell(cols, rows, total, leads, non, row, want, nonIdx);
    PlaceLead(cols, leads, non, row, want, nonIdx);
  }

  /** One cell further, with the same result. */
  ghost predicate Moves(cols: nat, rows: nat, total: nat, leads: seq<int>, non: seq<int>,
                        row: nat, col: nat, want: seq<int>, nonIdx: nat,
                        row': nat, col': nat, want': seq<int>, nonIdx': nat) {
    && nonIdx <= |non| && nonIdx' <= |non|
    && row' <= rows && col' <= cols && (row' == rows ==> col' == 0)
    && (row' > row || (row' == row && col' > col))
    && Filled(cols, leads, non, row', col', want', nonIdx')
    && FillFrom(cols, rows, total, leads, non, row, col, want, nonIdx)
       == FillFrom(cols, rows, total, leads, non, row', col', want', nonIdx')
  }

  lemma RowMoves(cols: nat, rows: nat, total: nat, leads: seq<int>, non: seq<int>, row: nat,
                 want: seq<int>, nonIdx: nat)
    requires cols >= 1 && row < rows && Filled(cols, leads, non, row, cols, want, nonIdx)
    ensures Moves(cols, rows, total, leads, non, row, cols, want, nonIdx, row + 1, 0, want, nonIdx)
  {
    StepRow(cols, rows, total, leads, non, row, want, nonIdx);
  }

  lemma LeadMoves(cols: nat, rows: nat, total: nat, leads: seq<int>, non: seq<int>, row: nat,
                  want: seq<int>, nonIdx: nat)
    requires row < rows && cols >= 1 && total == Left(cols, rows) && row < |leads| && Distinct(leads)
    requires non == NonLeads(total, leads) && Filled(cols, leads, non, row, 0, want, nonIdx)
    ensures Moves(cols, rows, total, leads, non, row, 0, want, nonIdx, row, 1, want + [leads[row]], nonIdx)
  {
    StepLead(cols, rows, total, leads, non, row, want, nonIdx);
  }

  lemma OtherMoves(cols: nat, rows: nat, total: nat, leads: seq<int>, non: seq<int>, row: nat, col: nat,
                   want: seq<int>, nonIdx: nat)
    requires row < rows && col < cols && total == Left(cols, rows) && !(col == 0 && row < |leads|)
    requires non == NonLeads(total, leads) && nonIdx < |non| && Filled(cols, leads, non, row, col, want, nonIdx)
    ensures Moves(cols, rows, total, leads, non, row, col, want, nonIdx,
                  row, col + 1, want + [non[nonIdx]], nonIdx + 1)
  {
    StepOther(cols, rows, total, leads, non, row, col, want, nonIdx);
  }

  lemma FillStep(cols: nat, rows: nat, total: nat, leads: seq<int>, non: seq<int>,
                 row: nat, col: nat, want: seq<int>, nonIdx: nat)
    returns (row': nat, col': nat, want': seq<int>, nonIdx': nat)
    requires cols >= 1 && row < rows && col <= cols
    requires GoodLeads(total, leads) && non == NonLeads(total, leads) && total == Left(cols, rows)
    requires Filled(cols, leads, non, row, col, want, nonIdx)
    requires col == cols || (col == 0 && row < |leads|) || nonIdx < |non|
    ensures Moves(cols, rows, total, leads, non, row, col, want, nonIdx, row', col', want', nonIdx')
  {
    if col == cols {
      RowMoves(cols, rows, total, leads, non, row, want, nonIdx);
      return row + 1, 0, want, nonIdx;
    } else if col == 0 && row < |leads| {
      LeadMoves(cols, rows, total, leads, non, row, want, nonIdx);
      return row, 1, want + [leads[row]], nonIdx;
    } else {
      OtherMoves(cols, rows, total, leads, non, row, col, want, nonIdx);
      return row, col + 1, want + [non[nonIdx]], nonIdx + 1;
    }
  }

  lemma FillRunsOut(cols: nat, rows: nat, total: nat, leads: seq<int>, non: seq<int>,
                    row: nat, col: nat, want: seq<int>, nonIdx: nat)
    requires row < rows && col < cols && !(col == 0 && row < |leads|) && nonIdx == |non|
    requires GoodLeads(total, leads) && non == NonLeads(total, leads) && total == Left(cols, rows)
    requires Filled(cols, leads, non, row, col, want, nonIdx)
    ensures FillEnds(cols, rows, total, leads, FillFrom(cols, rows, total, leads, non, row, col, want, nonIdx))
  {
    GoodLeadsLeaveTheRest(total, leads);
    OutOfMinis(cols, rows, leads, non, row, col, want, nonIdx);
    FillOther(cols, rows, total, leads, non, row, col, want, nonIdx);
  }

  lemma {:induction false} FillReachesEnd(cols: nat, rows: nat, total: nat, leads: seq<int>, non: seq<int>,
                                          row: nat, col: nat, want: seq<int>, nonIdx: nat)
    requires cols >= 1 && row <= rows && col <= cols && (row == rows ==> col == 0)
    requires GoodLeads(total, leads) && non == NonLeads(total, leads) && total == Left(cols, rows)
    requires Filled(cols, leads, non, row, col, want, nonIdx)
    ensures FillEnds(cols, rows, total, leads, FillFrom(cols, rows, total, leads, non, row, col, want, nonIdx))
    decreases rows - row, cols - col
  {
    if row == rows {
      FillIsOver(cols, rows, total, leads, non, want, nonIdx);
    } else if col == cols || (col == 0 && row < |leads|) || nonIdx < |non| {
      var row', col', want', nonIdx' := FillStep(cols, rows, total, leads, non, row, col, want, nonIdx);
      FillReachesEnd(cols, rows, total, leads, non, row', col', want', nonIdx');
    } else {
      FillRunsOut(cols, rows, total, leads, non, row, col, want, nonIdx);
    }
  }

  /** The complete order of a full grid. */
  ghost predicate IsLayout(cols: nat, rows: nat, leads: seq<int>, order: seq<int>) {
    && |order| == cols * rows
    && Distinct(order)
    && (forall x :: x in order <==> 1 <= x <= cols * rows)
    && (forall r: nat :: r < |leads| ==> r * cols < |order| && order[r * cols] == leads[r])
    && OthersAscend(leads, order)
  }

  lemma PlacedIsLayout(cols: nat, rows: nat, leads: seq<int>, order: seq<int>)
    requires Placed(cols, cols * rows, leads, order)
    ensures IsLayout(cols, rows, leads, order)
  {
    forall r: nat | r < |leads|
      ensures r * cols < |order| && order[r * cols] == leads[r]
    {
      LeftIsProduct(cols, r);
    }
  }

  lemma {:induction false} FillsAtMost(cols: nat, rows: nat, total: nat, leads: seq<int>, non: seq<int>,
                                       row: nat, col: nat, want: seq<int>, nonIdx: nat)
    requires nonIdx <= |non|
    ensures var r := FillFrom(cols, rows, total, leads, non, row, col, want, nonIdx); r.Ok? ==> |r.value| <= total
    decreases rows - row, cols - col
  {
    if row < rows {
      if col >= cols || |want| >= total {
        FillsAtMost(cols, rows, total, leads, non, row + 1, 0, want, nonIdx);
      } else if col == 0 && row < |leads| {
        FillsAtMost(cols, rows, total, leads, non, row, col + 1, want + [leads[row]], nonIdx);
      } else {
        var k := SkipTaken(non, want, nonIdx);
        if k < |non| {
          FillsAtMost(cols, rows, total, leads, non, row, col + 1, want + [non[k]], k + 1);
        }
      }
    }
  }

  /** On any grid the order holds no more minis than there are, nor than there are cells. */
  lemma OrderFitsGrid(cols: nat, rows: nat, max: nat, leads: seq<int>)
    ensures var r := WantOrder(cols, rows, max, leads); r.Ok? ==> |r.value| <= max && |r.value| <= cols * rows
  {
    var total := Min(max, cols * rows);
    FillsAtMost(cols, rows, total, leads, NonLeads(total, leads), 0, 0, [], 0);
  }

  /**
   * On a full grid with distinct leads in range: the order exists exactly when there are no more
   * leads than rows, and then it is a permutation of the minis with lead r at the left of row r
   * and the other minis ascending.
   */
  lemma WantOrderIsLayout(cols: nat, rows: nat, leads: seq<int>)
    requires cols >= 1 && GoodLeads(cols * rows, leads)
    ensures WantOrder(cols, rows, cols * rows, leads).Ok? <==> |leads| <= rows
    ensures |leads| <= rows ==> IsLayout(cols, rows, leads, WantOrder(cols, rows, cols * rows, leads).value)
  {
    var total := cols * rows;
    LeftIsProduct(cols, rows);
    assert Left(cols, rows) == total;
    FillReachesEnd(cols, rows, total, leads, NonLeads(total, leads), 0, 0, [], 0);
    if |leads| <= rows {
      PlacedIsLayout(cols, rows, leads, WantOrder(cols, rows, total, leads).value);
    }
  }

  lemma MulMonotone(a: nat, b: nat, c: nat)
    requires a <= b
    ensures a * c <= b * c
  {
  }

  // ---------------------------------------------------------------------------
  // The inverse lookup
  // ---------------------------------------------------------------------------

  function IndexOf(s: seq<int>, x: int): (i: nat)
    ensures i <= |s|
    ensures i < |s| ==> s[i] == x
    ensures forall j :: 0 <= j < i ==> s[j] != x
  {
    if s == [] then 0 else if s[0] == x then 0 else 1 + IndexOf(s[1..], x)
  }

  /** The lead of a mini's row; None for an unknown mini or a row past the last lead. */
  function RowLead(mini: int, cols: nat, rows: nat, max: nat, leads: seq<int>): Result<Option<int>, NotEnoughMinis>
    requires cols >= 1
  {
    match WantOrder(cols, rows, max, leads)
    case Err(e) => Err(e)
    case Ok(order) =>
      var idx := IndexOf(order, mini);
      if idx == |order| then Ok(None)
      else
        var row := idx / cols;
        if row < |leads| then Ok(Some(leads[row])) else Ok(None)
  }

  lemma CellRow(row: nat, col: nat, cols: nat)
    requires col < cols
    ensures (row * cols + col) / cols == row
  {
    var q := (row * cols + col) / cols;
    assert q * cols <= row * cols + col < q * cols + cols;
    if q < row {
      MulMonotone(q + 1, row, cols);
    } else if q > row {
      MulMonotone(row + 1, q, cols);
    }
  }

  lemma CellInGrid(row: nat, col: nat, cols: nat, rows: nat)
    requires row < rows && col < cols
    ensures row * cols + col < cols * rows
  {
    LeftIsProduct(cols, row);
    LeftIsProduct(cols, rows);
    LeftGrows(cols, row + 1, rows);
  }

  /** Every mini placed in row r is led by lead r, or by nobody past the last lead. */
  lemma RowLeadInvertsOrder(cols: nat, rows: nat, leads: seq<int>, row: nat, col: nat)
    requires cols >= 1 && GoodLeads(cols * rows, leads) && |leads| <= rows
    requires row < rows && col < cols
    ensures WantOrder(cols, rows, cols * rows, leads).Ok?
    ensures var order := WantOrder(cols, rows, cols * rows, leads).value;
            row * cols + col < |order|
            && RowLead(order[row * cols + col], cols, rows, cols * rows, leads)
               == Ok(if row < |leads| then Some(leads[row]) else None)
  {
    WantOrderIsLayout(cols, rows, leads);
    CellInGrid(row, col, cols, rows);
    CellRow(row, col, cols);
    var order := WantOrder(cols, rows, cols * rows, leads).value;
    var idx := IndexOf(order, order[row * cols + col]);
    assert idx == row * cols + col;
  }

  // ---------------------------------------------------------------------------
  // The loops of the program
  // ---------------------------------------------------------------------------

  method SkipPlaced(nonLeads: seq<int>, want: seq<int>, from: nat) returns (nonIdx: nat)
    requires from <= |nonLeads|
    ensures nonIdx == SkipTaken(nonLeads, want, from)
  {
    nonIdx := from;
    while nonIdx < |nonLeads| && nonLeads[nonIdx] in want
      invariant from <= nonIdx <= |nonLeads|
      invariant SkipTaken(nonLeads, want, from) == SkipTaken(nonLeads, want, nonIdx)
    {
      nonIdx := nonIdx + 1;
    }
  }

  /** The cells of one row; a full order leaves the row early. */
  method FillRow(cols: nat, rows: nat, total: nat, leads: seq<int>, nonLeads: seq<int>, row: nat,
                 want0: seq<int>, nonIdx0: nat)
    returns (want: seq<int>, nonIdx: nat, ok: bool)
    requires row < rows && nonIdx0 <= |nonLeads|
    ensures nonIdx <= |nonLeads|
    ensures FillFrom(cols, rows, total, leads, nonLeads, row, 0, want0, nonIdx0)
         == if ok then FillFrom(cols, rows, total, leads, nonLeads, row + 1, 0, want, nonIdx) else Err(NotEnoughMinis)
  {
    want, nonIdx, ok := want0, nonIdx0, true;
    var col := 0;
    while col < cols && |want| < total
      invariant 0 <= col <= cols && 0 <= nonIdx <= |nonLeads|
      invariant FillFrom(cols, rows, total, leads, nonLeads, row, 0, want0, nonIdx0)
             == FillFrom(cols, rows, total, leads, nonLeads, row, col, want, nonIdx)
    {
      if col == 0 && row < |leads| {
        want := want + [leads[row]];
      } else {
        nonIdx := SkipPlaced(nonLeads, want, nonIdx);
        if nonIdx >= |nonLeads| {
          return want, nonIdx, false;
        }
        want := want + [nonLeads[nonIdx]];
        nonIdx := nonIdx + 1;
      }
      col := col + 1;
    }
  }

  method ComputeMinisWantOrder(cols: nat, rows: nat, max: nat, leads: seq<int>)
    returns (r: Result<seq<int>, NotEnoughMinis>)
    ensures r == WantOrder(cols, rows, max, leads)
  {
    var total := Min(max, cols * rows);
    var nonLeads := NonLeads(total, leads);
    var want: seq<int> := [];
    var nonIdx := 0;
    for row := 0 to rows
      invariant 0 <= nonIdx <= |nonLeads|
      invariant FillFrom(cols, rows, total, leads, nonLeads, row, 0, want, nonIdx)
             == FillFrom(cols, rows, total, leads, nonLeads, 0, 0, [], 0)
    {
      var ok;
      want, nonIdx, ok := FillRow(cols, rows, total, leads, nonLeads, row, want, nonIdx);
      if !ok {
        return Err(NotEnoughMinis);
      }
    }
    return Ok(want[..Min(total, |want|)]);
  }
}
