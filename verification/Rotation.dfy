/** Taking a window of a ring and moving on by its width reaches every position. */
module Rotation {
  import opened Basics

  /** Where the k-th window starts. */
  function Offset(n: int, w: int, start: nat, k: nat): (r: nat)
    requires n > 0 && w >= 0
    decreases k
  {
    if k == 0 then start else (Offset(n, w, start, k - 1) + w) % n
  }

  lemma AtLeast(a: int, b: int)
    requires a >= 1 && b >= 0
    ensures a * b >= b
  {
    assert a * b == (a - 1) * b + b;
  }

  lemma SplitIsUnique(n: int, q: int, r: int, q': int, r': int)
    requires 0 <= r < n && 0 <= r' < n && q * n + r == q' * n + r'
    ensures q == q' && r == r'
  {
    if q > q' {
      AtLeast(q - q', n);
    } else if q' > q {
      AtLeast(q' - q, n);
    }
  }

  lemma Split(a: int, n: int)
    requires n > 0
    ensures a == (a / n) * n + a % n && 0 <= a % n < n
  {
  }

  lemma ModUnique(a: int, n: int, q: int, r: int)
    requires n > 0 && a == q * n + r && 0 <= r < n
    ensures a % n == r
  {
    Split(a, n);
    SplitIsUnique(n, q, r, a / n, a % n);
  }

  lemma Distribute(q: int, p: int, n: int)
    ensures (q + p) * n == q * n + p * n
  {
  }

  lemma ModShift(a: int, b: int, n: int)
    requires n > 0
    ensures (a % n + b) % n == (a + b) % n
  {
    var q, c := a / n, a % n + b;
    Split(a, n);
    Split(c, n);
    Distribute(q, c / n, n);
    ModUnique(a + b, n, q + c / n, c % n);
  }

  lemma {:induction false} OffsetIsLinear(n: int, w: int, start: nat, k: nat, d: int)
    requires n > 0 && w >= 0
    ensures (Offset(n, w, start, k) + d) % n == (start + k * w + d) % n
    decreases k
  {
    if k > 0 {
      var o := Offset(n, w, start, k - 1);
      ModShift(o + w, d, n);
      OffsetIsLinear(n, w, start, k - 1, w + d);
      assert start + (k - 1) * w + (w + d) == start + k * w + d;
    }
  }

  lemma WindowsSpan(n: int, w: int)
    requires n > 0 && w > 0
    ensures CeilDiv(n, w) * w >= n
  {
    Split(n, w);
    Distribute(n / w, 1, w);
  }

  lemma QuotientBound(d: int, n: int, w: int)
    requires 0 <= d < n && w > 0
    ensures 0 <= d / w < CeilDiv(n, w)
  {
    var q, top := d / w, CeilDiv(n, w);
    Split(d, w);
    WindowsSpan(n, w);
    if q < 0 {
      AtLeast(-q, w);
    }
    if q > top {
      AtLeast(q - top, w);
    }
  }

  /** How far position i lies ahead of the start, as a window and a place in it. */
  lemma Ahead(n: int, w: int, start: nat, i: nat) returns (k: nat, d: nat)
    requires n > 0 && w > 0 && i < n
    ensures k < CeilDiv(n, w) && d < w
    ensures (start + k * w + d) % n == i
  {
    var ahead := (i - start) % n;
    Split(i - start, n);
    Split(ahead, w);
    QuotientBound(ahead, n, w);
    k, d := ahead / w, ahead % w;
    ModShift(i - start, start, n);
    ModUnique(i, n, 0, i);
    assert start + k * w + d == ahead + start;
  }

  /** Any ceil(n / w) windows in a row reach position i. */
  lemma WindowsCover(n: int, w: int, start: nat, i: nat) returns (k: nat, d: nat)
    requires n > 0 && w > 0 && i < n
    ensures k < CeilDiv(n, w) && d < w
    ensures (Offset(n, w, start, k) + d) % n == i
  {
    k, d := Ahead(n, w, start, i);
    OffsetIsLinear(n, w, start, k, d);
  }
}
