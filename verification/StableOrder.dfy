/**
 * The stable sort the source takes from its runtime library, on the indices of a table of
 * keys. Sorting indices rather than rows keeps ties visible: equal keys stay in index order.
 */
module StableOrder {

  datatype Key = Key(major: int, minor: int)

  predicate KeyLess(a: Key, b: Key) {
    a.major < b.major || (a.major == b.major && a.minor < b.minor)
  }

  /** The strict total order a stable sort realises: key first, then position. */
  predicate Before(keys: seq<Key>, i: nat, j: nat)
    requires i < |keys| && j < |keys|
  {
    KeyLess(keys[i], keys[j]) || (keys[i] == keys[j] && i < j)
  }

  ghost predicate InTable(keys: seq<Key>, s: seq<nat>) {
    forall k :: 0 <= k < |s| ==> s[k] < |keys|
  }

  ghost predicate Ordered(keys: seq<Key>, s: seq<nat>)
    requires InTable(keys, s)
  {
    forall a, b :: 0 <= a < b < |s| ==> Before(keys, s[a], s[b])
  }

  ghost predicate Ascending(s: seq<nat>) {
    forall a, b :: 0 <= a < b < |s| ==> s[a] < s[b]
  }

  /** Insert in front of every entry whose key is not smaller. */
  function Insert(keys: seq<Key>, x: nat, s: seq<nat>): (r: seq<nat>)
    requires x < |keys| && InTable(keys, s)
    ensures InTable(keys, r)
    ensures multiset(r) == multiset(s) + multiset{x}
  {
    if s == [] then [x]
    else if KeyLess(keys[s[0]], keys[x]) then
      assert s == [s[0]] + s[1..];
      [s[0]] + Insert(keys, x, s[1..])
    else
      [x] + s
  }

  function Sort(keys: seq<Key>, s: seq<nat>): (r: seq<nat>)
    requires InTable(keys, s)
    ensures InTable(keys, r)
    ensures multiset(r) == multiset(s)
  {
    if s == [] then []
    else
      assert s == [s[0]] + s[1..];
      Insert(keys, s[0], Sort(keys, s[1..]))
  }

  lemma {:induction false} InsertKeepsOrder(keys: seq<Key>, x: nat, s: seq<nat>)
    requires x < |keys| && InTable(keys, s) && Ordered(keys, s)
    requires forall k :: 0 <= k < |s| ==> x < s[k]
    ensures Ordered(keys, Insert(keys, x, s))
  {
    if s != [] && KeyLess(keys[s[0]], keys[x]) {
      var rest := Insert(keys, x, s[1..]);
      InsertKeepsOrder(keys, x, s[1..]);
      forall k | 0 <= k < |rest|
        ensures Before(keys, s[0], rest[k])
      {
        assert rest[k] in multiset(rest);
        if rest[k] != x {
          assert rest[k] in s[1..];
        }
      }
    } else if s != [] {
      forall b | 0 <= b < |s|
        ensures Before(keys, x, s[b])
      {
        if b > 0 {
          assert Before(keys, s[0], s[b]);
        }
      }
    }
  }

  /** A stable sort of positions listed in source order is strictly ordered by (key, position). */
  lemma {:induction false} SortIsOrdered(keys: seq<Key>, s: seq<nat>)
    requires InTable(keys, s) && Ascending(s)
    ensures Ordered(keys, Sort(keys, s))
    ensures forall x :: x in s <==> x in Sort(keys, s)
  {
    if s != [] {
      SortIsOrdered(keys, s[1..]);
      var rest := Sort(keys, s[1..]);
      forall k | 0 <= k < |rest|
        ensures s[0] < rest[k]
      {
        assert rest[k] in s[1..];
      }
      InsertKeepsOrder(keys, s[0], rest);
    }
    assert forall x :: x in s <==> x in multiset(s);
    assert forall x :: x in Sort(keys, s) <==> x in multiset(Sort(keys, s));
  }

  /** There is only one way to list a given set of positions in order. */
  lemma {:induction false} OrderedIsUnique(keys: seq<Key>, a: seq<nat>, b: seq<nat>)
    requires InTable(keys, a) && InTable(keys, b) && Ordered(keys, a) && Ordered(keys, b)
    requires forall x :: x in a <==> x in b
    ensures a == b
  {
    assert a != [] ==> a[0] in b;
    assert b != [] ==> b[0] in a;
    if a != [] {
      assert a[0] == b[0];
      forall x
        ensures x in a[1..] <==> x in b[1..]
      {
        assert x in a <==> x in b;
        assert a == [a[0]] + a[1..] && b == [b[0]] + b[1..];
      }
      OrderedIsUnique(keys, a[1..], b[1..]);
    }
  }
}
