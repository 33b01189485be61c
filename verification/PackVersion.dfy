/**
 * Dotted version numbers, compared part by part with missing parts read as 0. Two loops of the
 * program do this separately; both are proved against one comparison, which is a total preorder.
 */
module PackVersion {
  import opened Basics

  /** A part in canonical digits, or any other text with the number parsed off its front (0 if none). */
  datatype Part = Digits(n: int) | Odd(text: string, n: int)

  type Version = seq<Part>

  /** Part i as a number. */
  function At(v: Version, i: nat): int {
    if i < |v| then v[i].n else 0
  }

  function CompareFrom(a: Version, b: Version, i: nat): int
    decreases Max(|a|, |b|) - i
  {
    if i >= Max(|a|, |b|) then 0
    else if At(a, i) < At(b, i) then -1
    else if At(a, i) > At(b, i) then 1
    else CompareFrom(a, b, i + 1)
  }

  function Compare(a: Version, b: Version): int {
    CompareFrom(a, b, 0)
  }

  ghost predicate SameBelow(a: Version, b: Version, k: nat) {
    forall i: nat :: i < k ==> At(a, i) == At(b, i)
  }

  /** `a` is smaller at the first part where the two differ. */
  ghost predicate SmallerAt(a: Version, b: Version, k: nat) {
    SameBelow(a, b, k) && At(a, k) < At(b, k)
  }

  ghost predicate Same(a: Version, b: Version) {
    forall i: nat :: At(a, i) == At(b, i)
  }

  lemma {:induction false} CompareFinds(a: Version, b: Version, i: nat) returns (k: nat)
    requires SameBelow(a, b, i)
    ensures CompareFrom(a, b, i) in {-1, 0, 1}
    ensures CompareFrom(a, b, i) == -1 ==> SmallerAt(a, b, k)
    ensures CompareFrom(a, b, i) == 1 ==> SmallerAt(b, a, k)
    ensures CompareFrom(a, b, i) == 0 ==> Same(a, b)
    decreases Max(|a|, |b|) - i
  {
    k := i;
    if i < Max(|a|, |b|) && At(a, i) == At(b, i) {
      k := CompareFinds(a, b, i + 1);
    }
  }

  /** The comparison is decided by the first differing part, missing parts counting as 0. */
  lemma CompareIsLexicographic(a: Version, b: Version)
    ensures Compare(a, b) == -1 <==> exists k: nat :: SmallerAt(a, b, k)
    ensures Compare(a, b) == 1 <==> exists k: nat :: SmallerAt(b, a, k)
    ensures Compare(a, b) == 0 <==> Same(a, b)
    ensures Compare(a, b) in {-1, 0, 1}
  {
    var k := CompareFinds(a, b, 0);
    forall m: nat | SmallerAt(a, b, m)
      ensures Compare(a, b) == -1
    {
      FirstDifferenceIsUnique(a, b, k, m);
    }
    forall m: nat | SmallerAt(b, a, m)
      ensures Compare(a, b) == 1
    {
      FirstDifferenceIsUnique(b, a, k, m);
    }
  }

  lemma FirstDifferenceIsUnique(a: Version, b: Version, k: nat, m: nat)
    requires SmallerAt(a, b, m)
    ensures !Same(a, b) && !SmallerAt(b, a, k)
  {
  }

  lemma CompareFlips(a: Version, b: Version)
    ensures Compare(b, a) == -Compare(a, b)
    ensures Compare(a, a) == 0
  {
    CompareIsLexicographic(a, b);
    CompareIsLexicographic(b, a);
    CompareIsLexicographic(a, a);
  }

  /** No version is above another that is above it, across any three versions. */
  lemma CompareIsTransitive(a: Version, b: Version, c: Version)
    requires Compare(a, b) <= 0 && Compare(b, c) <= 0
    ensures Compare(a, c) <= 0
    ensures Compare(a, b) < 0 || Compare(b, c) < 0 ==> Compare(a, c) < 0
  {
    CompareIsLexicographic(a, b);
    CompareIsLexicographic(b, c);
    CompareIsLexicographic(a, c);
    if Compare(a, b) == -1 {
      var k: nat :| SmallerAt(a, b, k);
      if Compare(b, c) == -1 {
        var m: nat :| SmallerAt(b, c, m);
        assert SmallerAt(a, c, if k <= m then k else m);
      } else {
        assert SmallerAt(a, c, k);
      }
    } else if Compare(b, c) == -1 {
      var m: nat :| SmallerAt(b, c, m);
      assert SmallerAt(a, c, m);
    }
  }

  method CompareRolePackVersion(a: Version, b: Version) returns (r: int)
    ensures r == Compare(a, b)
  {
    var n := Max(|a|, |b|);
    var i := 0;
    while i < n
      invariant 0 <= i <= n && CompareFrom(a, b, i) == Compare(a, b)
    {
      var da := if i < |a| then a[i].n else 0;
      var db := if i < |b| then b[i].n else 0;
      if da < db {
        return -1;
      }
      if da > db {
        return 1;
      }
      i := i + 1;
    }
    return 0;
  }

  /** The update nudge's own comparison; it agrees with the other one. */
  method SemverLess(a: Version, b: Version) returns (less: bool)
    ensures less <==> Compare(a, b) < 0
  {
    var i := 0;
    while i < Max(|a|, |b|)
      invariant 0 <= i <= Max(|a|, |b|) && CompareFrom(a, b, i) == Compare(a, b)
    {
      var av := At(a, i);
      var bv := At(b, i);
      if av < bv {
        return true;
      }
      if av > bv {
        return false;
      }
      i := i + 1;
    }
    return false;
  }
}
