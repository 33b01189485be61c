/** Keyed lists as the role merge builds them: first occurrence wins, or last value wins in place. */
module Dedup {

  // ---------------------------------------------------------------------------
  // First occurrence wins
  // ---------------------------------------------------------------------------

  predicate HasKey<T>(xs: seq<T>, key: T -> string, k: string) {
    exists i :: 0 <= i < |xs| && key(xs[i]) == k
  }

  function FirstBy<T>(xs: seq<T>, key: T -> string): (r: seq<T>)
    ensures |r| <= |xs|
  {
    if xs == [] then []
    else
      var r := FirstBy(xs[..|xs| - 1], key);
      if HasKey(r, key, key(xs[|xs| - 1])) then r else r + [xs[|xs| - 1]]
  }

  ghost predicate UniqueKeys<T>(xs: seq<T>, key: T -> string) {
    forall i, j :: 0 <= i < j < |xs| ==> key(xs[i]) != key(xs[j])
  }

  lemma {:induction false} FirstByKeys<T>(xs: seq<T>, key: T -> string, k: string)
    ensures HasKey(FirstBy(xs, key), key, k) <==> HasKey(xs, key, k)
  {
    if xs != [] {
      var init, x := xs[..|xs| - 1], xs[|xs| - 1];
      var r := FirstBy(init, key);
      FirstByKeys(init, key, k);
      HasKeySnoc(init, x, key, k);
      assert xs == init + [x];
      HasKeySnoc(r, x, key, k);
    }
  }

  lemma HasKeySnoc<T>(xs: seq<T>, x: T, key: T -> string, k: string)
    ensures HasKey(xs + [x], key, k) <==> HasKey(xs, key, k) || key(x) == k
  {
    var more := xs + [x];
    if HasKey(xs, key, k) {
      var i :| 0 <= i < |xs| && key(xs[i]) == k;
      assert key(more[i]) == k;
    }
    assert more[|xs|] == x;
  }

  lemma FirstByUnique<T>(r: seq<T>, x: T, key: T -> string)
    requires UniqueKeys(r, key) && !HasKey(r, key, key(x))
    ensures UniqueKeys(r + [x], key)
  {
    forall i | 0 <= i < |r|
      ensures key(r[i]) != key(x)
    {
    }
  }

  /** Keys are unique, and each key keeps the element that came first. */
  lemma {:induction false} FirstByKeepsFirst<T>(xs: seq<T>, key: T -> string)
    ensures UniqueKeys(FirstBy(xs, key), key)
    ensures forall x :: x in FirstBy(xs, key) ==> x in xs
    ensures forall i :: 0 <= i < |xs| && (forall j :: 0 <= j < i ==> key(xs[j]) != key(xs[i]))
              ==> xs[i] in FirstBy(xs, key)
  {
    if xs != [] {
      var n := |xs| - 1;
      var r := FirstBy(xs[..n], key);
      FirstByKeepsFirst(xs[..n], key);
      FirstByKeys(xs[..n], key, key(xs[n]));
      if !HasKey(r, key, key(xs[n])) {
        FirstByUnique(r, xs[n], key);
      }
      forall i | 0 <= i < |xs| && (forall j :: 0 <= j < i ==> key(xs[j]) != key(xs[i]))
        ensures xs[i] in FirstBy(xs, key)
      {
        if i < n {
          assert xs[..n][i] == xs[i];
        }
      }
    }
  }

  lemma {:induction false} FirstByFixed<T>(xs: seq<T>, key: T -> string)
    requires UniqueKeys(xs, key)
    ensures FirstBy(xs, key) == xs
  {
    if xs != [] {
      FirstByFixed(xs[..|xs| - 1], key);
    }
  }

  lemma {:induction false} FirstByLeft<T>(a: seq<T>, b: seq<T>, key: T -> string)
    ensures FirstBy(FirstBy(a, key) + b, key) == FirstBy(a + b, key)
    decreases |b|
  {
    var r := FirstBy(a, key);
    if b == [] {
      FirstByKeepsFirst(a, key);
      FirstByFixed(r, key);
      assert r + b == r && a + b == a;
    } else {
      var n := |b| - 1;
      assert (r + b)[..|r + b| - 1] == r + b[..n];
      assert (a + b)[..|a + b| - 1] == a + b[..n];
      FirstByLeft(a, b[..n], key);
    }
  }

  lemma {:induction false} FirstByRight<T>(a: seq<T>, b: seq<T>, key: T -> string)
    ensures FirstBy(a + FirstBy(b, key), key) == FirstBy(a + b, key)
    decreases |b|
  {
    if b != [] {
      var n := |b| - 1;
      var init, x := b[..n], b[n];
      var r := FirstBy(init, key);
      FirstByRight(a, init, key);
      assert (a + b)[..|a + b| - 1] == a + init;
      if HasKey(r, key, key(x)) {
        FirstByKeys(init, key, key(x));
        FirstByKeys(a + init, key, key(x));
        var i :| 0 <= i < |init| && key(init[i]) == key(x);
        assert (a + init)[|a| + i] == init[i];
      } else {
        assert (a + (r + [x]))[..|a + r|] == a + r;
      }
    }
  }

  /** The places where a key comes up for the first time, in order. */
  ghost predicate FirstPlaces<T>(xs: seq<T>, key: T -> string, at: seq<nat>) {
    && (forall a, b :: 0 <= a < b < |at| ==> at[a] < at[b])
    && (forall a :: 0 <= a < |at| ==> at[a] < |xs|)
    && (forall i: nat :: i < |xs| ==> (i in at <==> forall j: nat :: j < i ==> key(xs[j]) != key(xs[i])))
  }

  lemma OneMorePlace<T>(init: seq<T>, x: T, key: T -> string, at: seq<nat>)
    requires FirstPlaces(init, key, at)
    ensures FirstPlaces(init + [x], key, if HasKey(init, key, key(x)) then at else at + [|init|])
  {
    var xs, n := init + [x], |init|;
    var at' := if HasKey(init, key, key(x)) then at else at + [n];
    forall i: nat | i < |xs|
      ensures i in at' <==> forall j: nat :: j < i ==> key(xs[j]) != key(xs[i])
    {
      assert forall j: nat :: j < n ==> xs[j] == init[j];
      if i == n {
        assert i !in at;
      }
    }
  }

  /** `r` holds exactly the elements at those places, in their order. */
  ghost predicate KeptAt<T>(xs: seq<T>, key: T -> string, at: seq<nat>, r: seq<T>) {
    && FirstPlaces(xs, key, at) && |r| == |at|
    && forall k :: 0 <= k < |at| ==> r[k] == xs[at[k]]
  }

  lemma OldKeyKept<T>(init: seq<T>, x: T, key: T -> string, at: seq<nat>, r: seq<T>)
    requires KeptAt(init, key, at, r) && HasKey(init, key, key(x))
    ensures KeptAt(init + [x], key, at, r)
  {
    OneMorePlace(init, x, key, at);
  }

  lemma NewKeyKept<T>(init: seq<T>, x: T, key: T -> string, at: seq<nat>, r: seq<T>)
    requires KeptAt(init, key, at, r) && !HasKey(init, key, key(x))
    ensures KeptAt(init + [x], key, at + [|init|], r + [x])
  {
    OneMorePlace(init, x, key, at);
  }

  lemma FirstBySnoc<T>(init: seq<T>, x: T, key: T -> string)
    ensures FirstBy(init + [x], key)
         == if HasKey(init, key, key(x)) then FirstBy(init, key) else FirstBy(init, key) + [x]
  {
    assert (init + [x])[..|init|] == init;
    FirstByKeys(init, key, key(x));
  }

  /** Exactly what stays, and in which order. */
  lemma {:induction false} FirstByPlaces<T>(xs: seq<T>, key: T -> string) returns (at: seq<nat>)
    ensures KeptAt(xs, key, at, FirstBy(xs, key))
  {
    at := [];
    if xs != [] {
      var init, x := xs[..|xs| - 1], xs[|xs| - 1];
      at := FirstByPlaces(init, key);
      FirstBySnoc(init, x, key);
      assert init + [x] == xs;
      if HasKey(init, key, key(x)) {
        OldKeyKept(init, x, key, at, FirstBy(init, key));
      } else {
        NewKeyKept(init, x, key, at, FirstBy(init, key));
        at := at + [|init|];
      }
    }
  }

  // ---------------------------------------------------------------------------
  // Last value wins, in the place of the first
  // ---------------------------------------------------------------------------

  function IndexOfKey<T>(xs: seq<T>, key: T -> string, k: string): (i: nat)
    ensures i <= |xs|
    ensures i < |xs| ==> key(xs[i]) == k
    ensures forall j :: 0 <= j < i ==> key(xs[j]) != k
  {
    if xs == [] then 0
    else if key(xs[0]) == k then 0
    else 1 + IndexOfKey(xs[1..], key, k)
  }

  /** Set an entry of an insertion-ordered map. */
  function Put<T>(xs: seq<T>, x: T, key: T -> string): seq<T> {
    var i := IndexOfKey(xs, key, key(x));
    if i < |xs| then xs[i := x] else xs + [x]
  }

  function PutAll<T>(xs: seq<T>, key: T -> string): seq<T> {
    if xs == [] then [] else Put(PutAll(xs[..|xs| - 1], key), xs[|xs| - 1], key)
  }

  lemma PutEffect<T>(xs: seq<T>, x: T, key: T -> string)
    requires UniqueKeys(xs, key)
    ensures UniqueKeys(Put(xs, x, key), key)
    ensures forall y :: y in Put(xs, x, key) <==> y == x || (y in xs && key(y) != key(x))
  {
    var i := IndexOfKey(xs, key, key(x));
    var r := Put(xs, x, key);
    assert r[i] == x;
    forall y | y in xs && key(y) != key(x)
      ensures y in r
    {
      var j :| 0 <= j < |xs| && xs[j] == y;
      assert r[j] == y;
    }
  }

  /** Keys are unique, and each key keeps the value that came last. */
  lemma {:induction false} PutAllKeepsLast<T>(xs: seq<T>, key: T -> string)
    ensures UniqueKeys(PutAll(xs, key), key)
    ensures forall x :: x in PutAll(xs, key) ==> x in xs
    ensures forall i :: 0 <= i < |xs| && (forall j :: i < j < |xs| ==> key(xs[j]) != key(xs[i]))
              ==> xs[i] in PutAll(xs, key)
  {
    if xs != [] {
      var n := |xs| - 1;
      PutAllKeepsLast(xs[..n], key);
      PutEffect(PutAll(xs[..n], key), xs[n], key);
      forall x | x in PutAll(xs, key)
        ensures x in xs
      {
        assert x == xs[n] || x in xs[..n];
      }
      forall i | 0 <= i < |xs| && (forall j :: i < j < |xs| ==> key(xs[j]) != key(xs[i]))
        ensures xs[i] in PutAll(xs, key)
      {
        if i < n {
          assert xs[..n][i] == xs[i];
          assert key(xs[n]) != key(xs[i]);
        }
      }
    }
  }

  lemma PutNew<T>(xs: seq<T>, x: T, key: T -> string)
    requires forall k :: 0 <= k < |xs| ==> key(xs[k]) != key(x)
    ensures Put(xs, x, key) == xs + [x]
  {
  }

  lemma {:induction false} PutAllFixed<T>(xs: seq<T>, key: T -> string)
    requires UniqueKeys(xs, key)
    ensures PutAll(xs, key) == xs
  {
    if xs != [] {
      var init, x := xs[..|xs| - 1], xs[|xs| - 1];
      PutAllFixed(init, key);
      PutNew(init, x, key);
      assert init + [x] == xs;
    }
  }

  lemma {:induction false} PutAllLeft<T>(a: seq<T>, b: seq<T>, key: T -> string)
    ensures PutAll(PutAll(a, key) + b, key) == PutAll(a + b, key)
    decreases |b|
  {
    var r := PutAll(a, key);
    if b == [] {
      PutAllKeepsLast(a, key);
      PutAllFixed(r, key);
      assert r + b == r && a + b == a;
    } else {
      var n := |b| - 1;
      assert (r + b)[..|r + b| - 1] == r + b[..n];
      assert (a + b)[..|a + b| - 1] == a + b[..n];
      PutAllLeft(a, b[..n], key);
    }
  }

  lemma IndexIs<T>(xs: seq<T>, key: T -> string, i: nat)
    requires UniqueKeys(xs, key) && i < |xs|
    ensures IndexOfKey(xs, key, key(xs[i])) == i
  {
  }

  lemma PutAgain<T>(xs: seq<T>, x: T, y: T, key: T -> string)
    requires UniqueKeys(xs, key) && key(x) == key(y)
    ensures Put(Put(xs, y, key), x, key) == Put(xs, x, key)
  {
    var i := IndexOfKey(xs, key, key(x));
    PutEffect(xs, y, key);
    IndexIs(Put(xs, y, key), key, i);
  }

  lemma ReplaceKeepsKeys<T>(xs: seq<T>, x: T, i: nat, key: T -> string, j: nat)
    requires UniqueKeys(xs, key) && i < |xs| && key(x) == key(xs[i]) && j < |xs|
    ensures UniqueKeys(xs[i := x], key) && key(xs[i := x][j]) == key(xs[j])
    ensures IndexOfKey(xs[i := x], key, key(xs[j])) == j
  {
    var r := xs[i := x];
    assert forall k :: 0 <= k < |xs| ==> key(r[k]) == key(xs[k]);
    IndexIs(r, key, j);
  }

  lemma PutsCommuteInside<T>(xs: seq<T>, x: T, z: T, key: T -> string)
    requires UniqueKeys(xs, key) && key(x) != key(z) && HasKey(xs, key, key(x)) && HasKey(xs, key, key(z))
    ensures Put(Put(xs, x, key), z, key) == Put(Put(xs, z, key), x, key)
  {
    var i, j := IndexOfKey(xs, key, key(x)), IndexOfKey(xs, key, key(z));
    ReplaceKeepsKeys(xs, x, i, key, j);
    ReplaceKeepsKeys(xs, z, j, key, i);
    assert xs[i := x][j := z] == xs[j := z][i := x];
  }

  lemma PutsCommuteBeyond<T>(xs: seq<T>, x: T, z: T, key: T -> string)
    requires UniqueKeys(xs, key) && key(x) != key(z) && HasKey(xs, key, key(x)) && !HasKey(xs, key, key(z))
    ensures Put(Put(xs, x, key), z, key) == Put(Put(xs, z, key), x, key)
  {
    var i := IndexOfKey(xs, key, key(x));
    var px, pz := xs[i := x], xs + [z];
    PutEffect(xs, z, key);
    IndexIs(pz, key, i);
    assert IndexOfKey(px, key, key(z)) == |px|;
    assert px + [z] == pz[i := x];
  }

  lemma PutsCommute<T>(xs: seq<T>, x: T, z: T, key: T -> string)
    requires UniqueKeys(xs, key) && key(x) != key(z) && HasKey(xs, key, key(x))
    ensures Put(Put(xs, x, key), z, key) == Put(Put(xs, z, key), x, key)
  {
    if HasKey(xs, key, key(z)) {
      PutsCommuteInside(xs, x, z, key);
    } else {
      PutsCommuteBeyond(xs, x, z, key);
    }
  }

  lemma PutAllSnoc<T>(xs: seq<T>, x: T, key: T -> string)
    ensures PutAll(xs + [x], key) == Put(PutAll(xs, key), x, key)
  {
    assert (xs + [x])[..|xs|] == xs;
  }

  lemma PutInsideLast<T>(s: seq<T>, z: T, x: T, key: T -> string)
    requires key(z) == key(x)
    ensures PutAll(s + [x], key) == Put(PutAll(s + [z], key), x, key)
  {
    PutAllSnoc(s, x, key);
    PutAllSnoc(s, z, key);
    PutAllKeepsLast(s, key);
    PutAgain(PutAll(s, key), x, z, key);
  }

  lemma PutInsideStep<T>(s: seq<T>, s': seq<T>, z: T, x: T, key: T -> string)
    requires key(z) != key(x) && HasKey(PutAll(s, key), key, key(x))
    requires PutAll(s', key) == Put(PutAll(s, key), x, key)
    ensures PutAll(s' + [z], key) == Put(PutAll(s + [z], key), x, key)
  {
    PutAllSnoc(s, z, key);
    PutAllSnoc(s', z, key);
    PutAllKeepsLast(s, key);
    PutsCommute(PutAll(s, key), x, z, key);
  }

  /** Replacing an entry inside the right-hand list has the effect of setting it afterwards. */
  lemma {:induction false} PutInside<T>(a: seq<T>, r: seq<T>, i: nat, x: T, key: T -> string)
    requires UniqueKeys(r, key) && i < |r| && key(r[i]) == key(x)
    ensures PutAll(a + r[i := x], key) == Put(PutAll(a + r, key), x, key)
    decreases |r|
  {
    var n := |r| - 1;
    var init, z := r[..n], r[n];
    assert a + r == (a + init) + [z];
    if i == n {
      assert a + r[i := x] == (a + init) + [x];
      PutInsideLast(a + init, z, x, key);
    } else {
      assert a + r[i := x] == (a + init[i := x]) + [z];
      PutInside(a, init, i, x, key);
      assert (a + init)[|a| + i] == r[i];
      PutAllHasKey(a + init, |a| + i, key);
      PutInsideStep(a + init, a + init[i := x], z, x, key);
    }
  }

  lemma {:induction false} PutAllHasKey<T>(xs: seq<T>, i: nat, key: T -> string)
    requires i < |xs|
    ensures HasKey(PutAll(xs, key), key, key(xs[i]))
  {
    var n := |xs| - 1;
    PutAllKeepsLast(xs[..n], key);
    var r := PutAll(xs[..n], key);
    PutEffect(r, xs[n], key);
    if key(xs[i]) == key(xs[n]) {
      assert xs[n] in Put(r, xs[n], key);
    } else {
      assert xs[..n][i] == xs[i];
      PutAllHasKey(xs[..n], i, key);
      var k :| 0 <= k < |r| && key(r[k]) == key(xs[i]);
      assert r[k] in Put(r, xs[n], key);
    }
  }

  lemma PutAllRightStep<T>(a: seq<T>, r: seq<T>, x: T, key: T -> string)
    requires UniqueKeys(r, key)
    ensures PutAll(a + Put(r, x, key), key) == Put(PutAll(a + r, key), x, key)
  {
    var i := IndexOfKey(r, key, key(x));
    if i < |r| {
      PutInside(a, r, i, x, key);
    } else {
      assert a + (r + [x]) == (a + r) + [x];
      PutAllSnoc(a + r, x, key);
    }
  }

  lemma {:induction false} PutAllRight<T>(a: seq<T>, b: seq<T>, key: T -> string)
    ensures PutAll(a + PutAll(b, key), key) == PutAll(a + b, key)
    decreases |b|
  {
    if b != [] {
      var n := |b| - 1;
      var init, x := b[..n], b[n];
      PutAllRight(a, init, key);
      PutAllKeepsLast(init, key);
      PutAllRightStep(a, PutAll(init, key), x, key);
      PutAllSnoc(a + init, x, key);
      assert a + b == (a + init) + [x];
    }
  }

  /** In a longer list the last entry of a key is the one that is kept. */
  lemma LastWins<T>(a: seq<T>, b: seq<T>, i: nat, key: T -> string)
    requires i < |b| && forall j :: i < j < |b| ==> key(b[j]) != key(b[i])
    ensures b[i] in PutAll(a + b, key)
    ensures forall p :: p in PutAll(a + b, key) && key(p) == key(b[i]) ==> p == b[i]
  {
    var all := a + b;
    PutAllKeepsLast(all, key);
    assert all[|a| + i] == b[i];
    forall j | |a| + i < j < |all|
      ensures key(all[j]) != key(b[i])
    {
      assert all[j] == b[j - |a|];
    }
  }

  lemma FirstByAssociative<T>(a: seq<T>, b: seq<T>, c: seq<T>, key: T -> string)
    ensures FirstBy(FirstBy(a + b, key) + c, key) == FirstBy(a + FirstBy(b + c, key), key)
  {
    FirstByLeft(a + b, c, key);
    FirstByRight(a, b + c, key);
    assert a + b + c == a + (b + c);
  }

  lemma Regroup<T>(a: seq<T>, b: seq<T>, c: seq<T>)
    ensures (a + b) + c == a + (b + c)
  {
  }

  lemma PutAllAssociative<T>(a: seq<T>, b: seq<T>, c: seq<T>, key: T -> string)
    ensures PutAll(PutAll(a + b, key) + c, key) == PutAll(a + PutAll(b + c, key), key)
  {
    calc {
      PutAll(PutAll(a + b, key) + c, key);
      { PutAllLeft(a + b, c, key); }
      PutAll((a + b) + c, key);
      { Regroup(a, b, c); }
      PutAll(a + (b + c), key);
      { PutAllRight(a, b + c, key); }
      PutAll(a + PutAll(b + c, key), key);
    }
  }

  lemma PutThenRest<T>(table: seq<T>, x: T, rest: seq<T>, key: T -> string)
    requires UniqueKeys(table, key)
    ensures PutAll(Put(table, x, key) + rest, key) == PutAll(table + ([x] + rest), key)
  {
    PutAllFixed(table, key);
    PutAllSnoc(table, x, key);
    PutAllLeft(table + [x], rest, key);
    assert table + [x] + rest == table + ([x] + rest);
  }

  lemma PutSnoc<T>(r: seq<T>, x: T, key: T -> string)
    ensures Put(r, x, key) == if HasKey(r, key, key(x)) then r[IndexOfKey(r, key, key(x)) := x] else r + [x]
  {
  }

  /** `r` has the keys of `xs`, in the order they first come up. */
  ghost predicate KeysAt<T>(xs: seq<T>, key: T -> string, at: seq<nat>, r: seq<T>) {
    && FirstPlaces(xs, key, at) && |r| == |at|
    && forall k :: 0 <= k < |at| ==> key(r[k]) == key(xs[at[k]])
  }

  lemma OldKeyAt<T>(init: seq<T>, x: T, key: T -> string, at: seq<nat>, r: seq<T>, i: nat)
    requires KeysAt(init, key, at, r) && i < |r| && key(r[i]) == key(x) && HasKey(init, key, key(x))
    ensures KeysAt(init + [x], key, at, r[i := x])
  {
    OneMorePlace(init, x, key, at);
  }

  lemma NewKeyAt<T>(init: seq<T>, x: T, key: T -> string, at: seq<nat>, r: seq<T>)
    requires KeysAt(init, key, at, r) && !HasKey(init, key, key(x))
    ensures KeysAt(init + [x], key, at + [|init|], r + [x])
  {
    OneMorePlace(init, x, key, at);
  }

  lemma {:induction false} PutAllKeys<T>(xs: seq<T>, key: T -> string, k: string)
    ensures HasKey(PutAll(xs, key), key, k) <==> HasKey(xs, key, k)
  {
    if HasKey(xs, key, k) {
      var i :| 0 <= i < |xs| && key(xs[i]) == k;
      PutAllHasKey(xs, i, key);
    }
    if HasKey(PutAll(xs, key), key, k) {
      var i :| 0 <= i < |PutAll(xs, key)| && key(PutAll(xs, key)[i]) == k;
      PutAllKeepsLast(xs, key);
      assert PutAll(xs, key)[i] in xs;
    }
  }

  lemma KeysAtNext<T>(init: seq<T>, x: T, key: T -> string, at: seq<nat>, r: seq<T>) returns (at': seq<nat>)
    requires KeysAt(init, key, at, r) && (HasKey(r, key, key(x)) <==> HasKey(init, key, key(x)))
    ensures KeysAt(init + [x], key, at', Put(r, x, key))
  {
    PutSnoc(r, x, key);
    if HasKey(init, key, key(x)) {
      OldKeyAt(init, x, key, at, r, IndexOfKey(r, key, key(x)));
      at' := at;
    } else {
      NewKeyAt(init, x, key, at, r);
      at' := at + [|init|];
    }
  }

  /** The keys stand where they first came up, each with the value that came last (`PutAllKeepsLast`). */
  lemma {:induction false} PutAllPlaces<T>(xs: seq<T>, key: T -> string) returns (at: seq<nat>)
    ensures KeysAt(xs, key, at, PutAll(xs, key))
  {
    at := [];
    if xs != [] {
      var init, x := xs[..|xs| - 1], xs[|xs| - 1];
      var before := PutAllPlaces(init, key);
      PutAllKeys(init, key, key(x));
      at := KeysAtNext(init, x, key, before, PutAll(init, key));
      PutAllSnoc(init, x, key);
      assert init + [x] == xs;
    }
  }
}
