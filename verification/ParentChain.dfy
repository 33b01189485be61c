/** Following a parent function from a name: where such a walk ends, and when it comes back. */
module ParentChain {
  import opened Basics

  type Next = string -> Option<string>

  /** The `k`-th name up; None past the end. */
  function Nth(next: Next, name: string, k: nat): Option<string> {
    if k == 0 then Some(name)
    else
      match Nth(next, name, k - 1)
      case None => None
      case Some(x) => next(x)
  }

  lemma {:induction false} NoneStaysNone(next: Next, name: string, a: nat, b: nat)
    requires a <= b && Nth(next, name, a).None?
    ensures Nth(next, name, b).None?
    decreases b
  {
    if a < b {
      NoneStaysNone(next, name, a, b - 1);
    }
  }

  lemma {:induction false} SameNameSameRest(next: Next, name: string, i: nat, j: nat, d: nat)
    requires Nth(next, name, i) == Nth(next, name, j)
    ensures Nth(next, name, i + d) == Nth(next, name, j + d)
  {
    if d > 0 {
      SameNameSameRest(next, name, i, j, d - 1);
    }
  }

  predicate ComesBack(next: Next, name: string, i: nat, j: nat) {
    i < j && Nth(next, name, i).Some? && Nth(next, name, i) == Nth(next, name, j)
  }

  /** A walk that comes back to a name never ends. */
  lemma {:induction false} ComingBackNeverEnds(next: Next, name: string, i: nat, j: nat, m: nat)
    requires ComesBack(next, name, i, j)
    ensures Nth(next, name, m).Some?
    decreases m
  {
    if Nth(next, name, m).None? {
      if m <= j {
        NoneStaysNone(next, name, m, j);
      } else {
        SameNameSameRest(next, name, i, j, m - j);
        ComingBackNeverEnds(next, name, i, j, i + (m - j));
      }
    }
  }

  /** Walking from the parent is one step behind. */
  lemma {:induction false} NthOfNext(next: Next, name: string, n: nat)
    requires next(name).Some?
    ensures Nth(next, name, n + 1) == Nth(next, next(name).value, n)
  {
    if n > 0 {
      NthOfNext(next, name, n - 1);
    } else {
      assert Nth(next, name, 0) == Some(name);
    }
  }

  /** A walk has one end. */
  lemma OneEnd(next: Next, name: string, k: nat, m: nat)
    requires Nth(next, name, k).Some? && Nth(next, name, k + 1).None?
    requires Nth(next, name, m).Some?
    ensures m <= k
  {
    if k < m {
      NoneStaysNone(next, name, k + 1, m);
    }
  }

  // ---------------------------------------------------------------------------
  // What stands along a walk
  // ---------------------------------------------------------------------------

  /** `items` holds something for every name of the walk, the last name of it first, and the walk ends there. */
  ghost predicate Lists<T(!new)>(next: Next, holds: (string, T) -> bool, name: string, items: seq<T>) {
    && items != []
    && Nth(next, name, |items|).None?
    && forall k: nat :: k < |items| ==> HoldsAt(next, holds, name, items, k)
  }

  predicate HoldsAt<T>(next: Next, holds: (string, T) -> bool, name: string, items: seq<T>, k: nat)
    requires k < |items|
  {
    Nth(next, name, k).Some? && holds(Nth(next, name, k).value, items[|items| - 1 - k])
  }

  lemma ListsOne<T(!new)>(next: Next, holds: (string, T) -> bool, name: string, item: T)
    requires next(name).None? && holds(name, item)
    ensures Lists(next, holds, name, [item])
  {
    assert Nth(next, name, 0) == Some(name);
    assert HoldsAt(next, holds, name, [item], 0);
  }

  lemma ListsMore<T(!new)>(next: Next, holds: (string, T) -> bool, name: string, above: seq<T>, item: T)
    requires next(name).Some? && Lists(next, holds, next(name).value, above) && holds(name, item)
    ensures Lists(next, holds, name, above + [item])
  {
    var items := above + [item];
    NthOfNext(next, name, |above|);
    forall k: nat | k < |items|
      ensures HoldsAt(next, holds, name, items, k)
    {
      if k == 0 {
        assert Nth(next, name, 0) == Some(name);
      } else {
        NthOfNext(next, name, k - 1);
        assert HoldsAt(next, holds, next(name).value, above, k - 1);
      }
    }
  }

  lemma ListsAll<T(!new)>(next: Next, holds: (string, T) -> bool, name: string, items: seq<T>, k: nat)
    requires Lists(next, holds, name, items) && Nth(next, name, k).Some?
    ensures k < |items| && HoldsAt(next, holds, name, items, k) && items[|items| - 1 - k] in items
  {
    if |items| <= k {
      NoneStaysNone(next, name, |items|, k);
    }
  }

  predicate NamedAt<T>(next: Next, holds: (string, T) -> bool, name: string, items: seq<T>, x: string, i: nat)
    requires i < |items|
  {
    Nth(next, name, |items| - 1 - i) == Some(x) && holds(x, items[i])
  }

  lemma NameAt<T(!new)>(next: Next, holds: (string, T) -> bool, name: string, items: seq<T>, k: nat, i: nat)
    returns (x: string)
    requires Lists(next, holds, name, items) && k < |items| && i == |items| - 1 - k
    ensures NamedAt(next, holds, name, items, x, i)
  {
    assert HoldsAt(next, holds, name, items, k);
    x := Nth(next, name, k).value;
  }

  /** The names of the walk, its end first, each with what stands for it: the first n of them. */
  lemma {:induction false} ListNames<T(!new)>(next: Next, holds: (string, T) -> bool, name: string,
                                              items: seq<T>, n: nat)
    returns (names: seq<string>)
    requires Lists(next, holds, name, items) && n <= |items|
    ensures |names| == n && forall i: nat :: i < n ==> NamedAt(next, holds, name, items, names[i], i)
  {
    names := [];
    if n > 0 {
      var init := ListNames(next, holds, name, items, n - 1);
      var x := NameAt(next, holds, name, items, |items| - n, n - 1);
      names := init + [x];
    }
  }
}
