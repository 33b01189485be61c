/**
 * The role index merge. Files are given parsed, with `kind` already defaulted to the file's role
 * name; an absent list is an empty one. Main results: the merge is associative, a chain of merges
 * equals one flat merge of all its files, and the exact meaning of allow and deny along a chain.
 */
module RoleIndex {
  import opened Basics
  import opened Dedup

  datatype ReadFirst = ReadFirst(path: string, note: string)

  datatype Policy = Policy(
    id: string, text: Option<string>, path: Option<string>, rule: Option<string>, cmd: Option<string>)

  datatype AllowDeny = AllowDeny(allow: Option<seq<string>>, deny: seq<string>)

  datatype Role = Role(
    kind: string,
    parent: Option<string>,
    banner: seq<string>,
    readFirst: seq<ReadFirst>,
    policies: seq<Policy>,
    files: seq<string>,
    inject: seq<string>,
    vars: map<string, string>,
    guards: Option<AllowDeny>,
    funcs: Option<AllowDeny>,
    locked: Option<seq<string>>)

  const EMPTY_ROLE := Role("", None, [], [], [], [], [], map[], None, None, None)

  function PathOf(e: ReadFirst): string {
    e.path
  }

  function IdOf(p: Policy): string {
    p.id
  }

  function Itself(s: string): string {
    s
  }

  function OrElse<T>(a: Option<T>, b: Option<T>): Option<T> {
    if a.Some? then a else b
  }

  // ---------------------------------------------------------------------------
  // The merges
  // ---------------------------------------------------------------------------

  /** Denials add up; the role's own allow list, when it has one, replaces the base's. */
  function MergeAllowDeny(base: Option<AllowDeny>, role: Option<AllowDeny>): Option<AllowDeny> {
    if base.None? && role.None? then None
    else Some(AllowDeny(OrElse(AllowOf(role), AllowOf(base)), FirstBy(DenyOf(base) + DenyOf(role), Itself)))
  }

  function AllowOf(x: Option<AllowDeny>): Option<seq<string>> {
    if x.Some? then x.value.allow else None
  }

  function DenyOf(x: Option<AllowDeny>): seq<string> {
    if x.Some? then x.value.deny else []
  }

  function Merge(base: Role, role: Role): Role {
    role.(
      banner := base.banner + role.banner,
      readFirst := FirstBy(base.readFirst + role.readFirst, PathOf),
      policies := PutAll(base.policies + role.policies, IdOf),
      files := FirstBy(base.files + role.files, Itself),
      inject := base.inject + role.inject,
      vars := base.vars + role.vars,
      guards := MergeAllowDeny(base.guards, role.guards),
      funcs := MergeAllowDeny(base.funcs, role.funcs),
      locked := OrElse(role.locked, base.locked))
  }

  /** The extend file's policies on top of a table: ids of a locked table are not replaced. */
  function ExtendPolicies(table: seq<Policy>, ps: seq<Policy>, locked: bool): seq<Policy>
    decreases |ps|
  {
    if ps == [] then table
    else
      var known := IndexOfKey(table, IdOf, ps[0].id) < |table|;
      ExtendPolicies(if locked && known then table else Put(table, ps[0], IdOf), ps[1..], locked)
  }

  function ExtendAllowDeny(vendor: Option<AllowDeny>, ext: Option<AllowDeny>, locked: bool): Option<AllowDeny> {
    if ext.None? then vendor
    else MergeAllowDeny(vendor, if locked then Some(ext.value.(allow := None)) else ext)
  }

  /** The user's extend file merged onto the vendor file under the vendor's locks. */
  function MergeExtend(vendor: Role, ext: Role, locked: seq<string>): Role {
    Role(
      ext.kind,
      OrElse(ext.parent, vendor.parent),
      vendor.banner + ext.banner,
      FirstBy(vendor.readFirst + ext.readFirst, PathOf),
      ExtendPolicies(PutAll(vendor.policies, IdOf), ext.policies, "policies" in locked),
      FirstBy(vendor.files + ext.files, Itself),
      vendor.inject + ext.inject,
      vendor.vars + ext.vars,
      ExtendAllowDeny(vendor.guards, ext.guards, "guards" in locked),
      ExtendAllowDeny(vendor.funcs, ext.funcs, "funcs" in locked),
      Some(locked))
  }

  /** Deny wins; otherwise a non-empty allow list restricts; otherwise everything is allowed. */
  predicate RoleAllows(rule: Option<AllowDeny>, id: string) {
    if rule.None? then true
    else if id in rule.value.deny then false
    else if rule.value.allow.Some? && rule.value.allow.value != [] then id in rule.value.allow.value
    else true
  }

  // ---------------------------------------------------------------------------
  // Associativity
  // ---------------------------------------------------------------------------

  lemma MergedParts(base: Option<AllowDeny>, role: Option<AllowDeny>)
    ensures var m := MergeAllowDeny(base, role);
            && (m.None? <==> base.None? && role.None?)
            && AllowOf(m) == OrElse(AllowOf(role), AllowOf(base))
            && DenyOf(m) == FirstBy(DenyOf(base) + DenyOf(role), Itself)
  {
  }

  lemma MergeAllowDenyAssociative(a: Option<AllowDeny>, b: Option<AllowDeny>, c: Option<AllowDeny>)
    ensures MergeAllowDeny(MergeAllowDeny(a, b), c) == MergeAllowDeny(a, MergeAllowDeny(b, c))
  {
    MergedParts(a, b);
    MergedParts(b, c);
    var left, right := MergeAllowDeny(MergeAllowDeny(a, b), c), MergeAllowDeny(a, MergeAllowDeny(b, c));
    MergedParts(MergeAllowDeny(a, b), c);
    MergedParts(a, MergeAllowDeny(b, c));
    FirstByAssociative(DenyOf(a), DenyOf(b), DenyOf(c), Itself);
    assert AllowOf(left) == AllowOf(right) && DenyOf(left) == DenyOf(right);
  }

  lemma MergeAssociative(a: Role, b: Role, c: Role)
    ensures Merge(Merge(a, b), c) == Merge(a, Merge(b, c))
  {
    var left, right := Merge(Merge(a, b), c), Merge(a, Merge(b, c));
    assert left.banner == right.banner && left.inject == right.inject && left.vars == right.vars;
    assert left.readFirst == right.readFirst by {
      FirstByAssociative(a.readFirst, b.readFirst, c.readFirst, PathOf);
    }
    assert left.files == right.files by {
      FirstByAssociative(a.files, b.files, c.files, Itself);
    }
    assert left.policies == right.policies by {
      PutAllAssociative(a.policies, b.policies, c.policies, IdOf);
    }
    assert left.guards == right.guards by {
      MergeAllowDenyAssociative(a.guards, b.guards, c.guards);
    }
    assert left.funcs == right.funcs by {
      MergeAllowDenyAssociative(a.funcs, b.funcs, c.funcs);
    }
    assert left.locked == right.locked;
  }

  // ---------------------------------------------------------------------------
  // Chains
  // ---------------------------------------------------------------------------

  /** The chain is listed root first. */
  function FoldMerge(chain: seq<Role>): Role {
    if chain == [] then EMPTY_ROLE else Merge(FoldMerge(chain[..|chain| - 1]), chain[|chain| - 1])
  }

  function Concat<A, B>(xs: seq<A>, f: A -> seq<B>): seq<B> {
    if xs == [] then [] else Concat(xs[..|xs| - 1], f) + f(xs[|xs| - 1])
  }

  function Banner(r: Role): seq<string> { r.banner }
  function ReadFirsts(r: Role): seq<ReadFirst> { r.readFirst }
  function Policies(r: Role): seq<Policy> { r.policies }
  function Files(r: Role): seq<string> { r.files }
  function Injects(r: Role): seq<string> { r.inject }
  function GuardDeny(r: Role): seq<string> { DenyOf(r.guards) }
  function FuncDeny(r: Role): seq<string> { DenyOf(r.funcs) }

  /** The allow list that counts along a chain: the last one given. */
  function LastAllow(chain: seq<Role>, f: Role -> Option<AllowDeny>): Option<seq<string>> {
    if chain == [] then None
    else OrElse(AllowOf(f(chain[|chain| - 1])), LastAllow(chain[..|chain| - 1], f))
  }

  function Guards(r: Role): Option<AllowDeny> { r.guards }
  function Funcs(r: Role): Option<AllowDeny> { r.funcs }

  /** One pass over all files of a chain, list by list, gives what merging file by file gives. */
  ghost predicate IsFlatMerge(chain: seq<Role>, r: Role) {
    && r.banner == Concat(chain, Banner)
    && r.inject == Concat(chain, Injects)
    && r.readFirst == FirstBy(Concat(chain, ReadFirsts), PathOf)
    && r.files == FirstBy(Concat(chain, Files), Itself)
    && r.policies == PutAll(Concat(chain, Policies), IdOf)
    && DenyOf(r.guards) == FirstBy(Concat(chain, GuardDeny), Itself)
    && DenyOf(r.funcs) == FirstBy(Concat(chain, FuncDeny), Itself)
    && AllowOf(r.guards) == LastAllow(chain, Guards)
    && AllowOf(r.funcs) == LastAllow(chain, Funcs)
    && LastVars(chain, r.vars)
  }

  /** Every variable of the chain, each with the value given nearest the leaf. */
  ghost predicate LastVars(chain: seq<Role>, vars: map<string, string>) {
    && (forall v :: v in vars ==> exists k :: 0 <= k < |chain| && v in chain[k].vars)
    && (forall k, v :: IsLastVar(chain, k, v) ==> v in vars && vars[v] == chain[k].vars[v])
  }

  predicate IsLastVar(chain: seq<Role>, k: int, v: string) {
    0 <= k < |chain| && v in chain[k].vars && forall j :: k < j < |chain| ==> v !in chain[j].vars
  }

  lemma DenyStep(base: Option<AllowDeny>, role: Option<AllowDeny>, before: seq<string>)
    requires DenyOf(base) == FirstBy(before, Itself)
    ensures DenyOf(MergeAllowDeny(base, role)) == FirstBy(before + DenyOf(role), Itself)
  {
    MergedParts(base, role);
    FirstByLeft(before, DenyOf(role), Itself);
  }

  lemma VarsStep(init: seq<Role>, last: Role, vars: map<string, string>)
    requires LastVars(init, vars)
    ensures LastVars(init + [last], vars + last.vars)
  {
    var chain := init + [last];
    forall v | v in vars + last.vars
      ensures exists k :: 0 <= k < |chain| && v in chain[k].vars
    {
      if v in last.vars {
        assert v in chain[|init|].vars;
      } else {
        var k :| 0 <= k < |init| && v in init[k].vars;
        assert v in chain[k].vars;
      }
    }
    forall k, v | IsLastVar(chain, k, v)
      ensures v in vars + last.vars && (vars + last.vars)[v] == chain[k].vars[v]
    {
      assert chain[|init|] == last;
      if k < |init| {
        assert forall j :: 0 <= j < |init| ==> chain[j] == init[j];
        assert IsLastVar(init, k, v);
      }
    }
  }

  lemma ListsStep(init: seq<Role>, last: Role, base: Role)
    requires IsFlatMerge(init, base)
    ensures IsFlatMerge(init + [last], Merge(base, last))
  {
    var chain := init + [last];
    assert chain[..|chain| - 1] == init;
    FirstByLeft(Concat(init, ReadFirsts), last.readFirst, PathOf);
    FirstByLeft(Concat(init, Files), last.files, Itself);
    PutAllLeft(Concat(init, Policies), last.policies, IdOf);
    DenyStep(base.guards, last.guards, Concat(init, GuardDeny));
    DenyStep(base.funcs, last.funcs, Concat(init, FuncDeny));
    MergedParts(base.guards, last.guards);
    MergedParts(base.funcs, last.funcs);
    VarsStep(init, last, base.vars);
  }

  lemma NothingIsFlat()
    ensures IsFlatMerge([], FoldMerge([]))
  {
  }

  lemma {:induction false} FoldIsFlat(chain: seq<Role>)
    ensures IsFlatMerge(chain, FoldMerge(chain))
  {
    if chain == [] {
      NothingIsFlat();
    } else {
      var init, last := chain[..|chain| - 1], chain[|chain| - 1];
      assert init + [last] == chain;
      FoldIsFlat(init);
      ListsStep(init, last, FoldMerge(init));
    }
  }

  /** Nearer the root wins for what to read first; nearer the leaf wins for policies. */
  lemma ChainWinners(chain: seq<Role>)
    ensures var r := FoldMerge(chain);
            var entries, policies := Concat(chain, ReadFirsts), Concat(chain, Policies);
            && UniqueKeys(r.readFirst, PathOf) && UniqueKeys(r.policies, IdOf)
            && (forall i :: 0 <= i < |entries| && (forall j :: 0 <= j < i ==> entries[j].path != entries[i].path)
                  ==> entries[i] in r.readFirst)
            && (forall i :: 0 <= i < |policies| && (forall j :: i < j < |policies| ==> policies[j].id != policies[i].id)
                  ==> policies[i] in r.policies)
  {
    FoldIsFlat(chain);
    FirstByKeepsFirst(Concat(chain, ReadFirsts), PathOf);
    PutAllKeepsLast(Concat(chain, Policies), IdOf);
  }

  // ---------------------------------------------------------------------------
  // Allow and deny along a chain
  // ---------------------------------------------------------------------------

  lemma {:induction false} ConcatMember<A, B>(xs: seq<A>, f: A -> seq<B>, y: B)
    ensures y in Concat(xs, f) <==> exists k :: 0 <= k < |xs| && y in f(xs[k])
  {
    if xs != [] {
      var n := |xs| - 1;
      ConcatMember(xs[..n], f, y);
      if y in Concat(xs[..n], f) {
        var k :| 0 <= k < n && y in f(xs[..n][k]);
        assert y in f(xs[k]);
      }
      if k :| 0 <= k < |xs| && y in f(xs[k]) {
        assert k < n ==> y in f(xs[..n][k]);
      }
    }
  }

  lemma {:induction false} FirstByMembers(xs: seq<string>)
    ensures forall y :: y in FirstBy(xs, Itself) <==> y in xs
  {
    if xs != [] {
      FirstByMembers(xs[..|xs| - 1]);
    }
  }

  /**
   * Along a chain an id is usable exactly when no file denies it and the last allow list given is
   * empty or names it. In particular a later `allow: []` lifts every earlier restriction.
   */
  lemma ChainAllows(chain: seq<Role>, id: string)
    ensures var last := LastAllow(chain, Guards);
            RoleAllows(FoldMerge(chain).guards, id) <==>
            (forall k :: 0 <= k < |chain| ==> id !in DenyOf(chain[k].guards))
            && (last.None? || last.value == [] || id in last.value)
    ensures var last := LastAllow(chain, Funcs);
            RoleAllows(FoldMerge(chain).funcs, id) <==>
            (forall k :: 0 <= k < |chain| ==> id !in DenyOf(chain[k].funcs))
            && (last.None? || last.value == [] || id in last.value)
  {
    FoldIsFlat(chain);
    FirstByMembers(Concat(chain, GuardDeny));
    FirstByMembers(Concat(chain, FuncDeny));
    ConcatMember(chain, GuardDeny, id);
    ConcatMember(chain, FuncDeny, id);
  }

  /** A vendor file's denials and its extend file's denials both reach the merged file, locked or not. */
  lemma ExtendKeepsDenials(vendor: Role, ext: Role, locked: seq<string>, id: string)
    ensures id in DenyOf(MergeExtend(vendor, ext, locked).guards)
            <==> id in DenyOf(vendor.guards) || id in DenyOf(ext.guards)
    ensures id in DenyOf(MergeExtend(vendor, ext, locked).funcs)
            <==> id in DenyOf(vendor.funcs) || id in DenyOf(ext.funcs)
  {
    FirstByMembers(DenyOf(vendor.guards) + DenyOf(ext.guards));
    FirstByMembers(DenyOf(vendor.funcs) + DenyOf(ext.funcs));
  }

  /** Under the lock an extend file cannot change the vendor's allow list; without it, its own list wins. */
  lemma ExtendAllowUnderLock(vendor: Role, ext: Role, locked: seq<string>)
    ensures AllowOf(MergeExtend(vendor, ext, locked).guards) ==
            if "guards" in locked then AllowOf(vendor.guards) else OrElse(AllowOf(ext.guards), AllowOf(vendor.guards))
    ensures AllowOf(MergeExtend(vendor, ext, locked).funcs) ==
            if "funcs" in locked then AllowOf(vendor.funcs) else OrElse(AllowOf(ext.funcs), AllowOf(vendor.funcs))
  {
  }

  // ---------------------------------------------------------------------------
  // The other fields
  // ---------------------------------------------------------------------------

  /** The first list in front and whole, then the second. */
  ghost predicate Follows<T>(a: seq<T>, b: seq<T>, r: seq<T>) {
    |r| == |a| + |b| && r[..|a|] == a && r[|a|..] == b
  }

  /** Of both lists, in order, each key where it first comes up. */
  ghost predicate FirstsOf<T>(a: seq<T>, b: seq<T>, key: T -> string, r: seq<T>) {
    exists at :: KeptAt(a + b, key, at, r)
  }

  /** The variables of both, where the second wins. */
  ghost predicate Overlays(a: map<string, string>, b: map<string, string>, r: map<string, string>) {
    && (forall v :: v in r <==> v in a || v in b)
    && (forall v :: v in b ==> r[v] == b[v])
    && (forall v :: v in a && v !in b ==> r[v] == a[v])
  }

  /** What both merges do to the lists that no lock concerns. */
  ghost predicate AddsUp(base: Role, role: Role, r: Role) {
    && Follows(base.banner, role.banner, r.banner) && Follows(base.inject, role.inject, r.inject)
    && FirstsOf(base.readFirst, role.readFirst, PathOf, r.readFirst)
    && FirstsOf(base.files, role.files, Itself, r.files)
    && Overlays(base.vars, role.vars, r.vars)
  }

  lemma FirstByIsFirsts<T>(a: seq<T>, b: seq<T>, key: T -> string)
    ensures FirstsOf(a, b, key, FirstBy(a + b, key))
  {
    var at := FirstByPlaces(a + b, key);
  }

  /**
   * The extend file adds to the vendor's lines and never clears them: vendor lines come first and are
   * all kept, an entry of a known path or file is dropped, and its variables win. Its parent is used
   * if it names one; the kind is its own, which is the role's name if the file gives none.
   */
  lemma ExtendAddsUp(vendor: Role, ext: Role, locked: seq<string>)
    ensures AddsUp(vendor, ext, MergeExtend(vendor, ext, locked))
    ensures var r := MergeExtend(vendor, ext, locked);
            && r.parent == (if ext.parent.Some? then ext.parent else vendor.parent)
            && r.kind == ext.kind && r.locked == Some(locked)
  {
    FirstByIsFirsts(vendor.readFirst, ext.readFirst, PathOf);
    FirstByIsFirsts(vendor.files, ext.files, Itself);
  }

  /** A child role adds to its parent's lines in the same way; parent and kind are its own. */
  lemma ChildAddsUp(base: Role, role: Role)
    ensures AddsUp(base, role, Merge(base, role))
    ensures var r := Merge(base, role);
            r.parent == role.parent && r.kind == role.kind
            && r.locked == (if role.locked.Some? then role.locked else base.locked)
  {
    FirstByIsFirsts(base.readFirst, role.readFirst, PathOf);
    FirstByIsFirsts(base.files, role.files, Itself);
  }

  /** With the key function of the first list's own entries: each path of the base keeps its own entry. */
  lemma BaseEntryIsKept<T>(a: seq<T>, b: seq<T>, key: T -> string, r: seq<T>, i: nat)
    requires FirstsOf(a, b, key, r) && i < |a| && forall j: nat :: j < i ==> key(a[j]) != key(a[i])
    ensures a[i] in r
  {
    var at :| KeptAt(a + b, key, at, r);
    assert forall j: nat :: j < |a| ==> (a + b)[j] == a[j];
    assert i in at;
    var k :| 0 <= k < |at| && at[k] == i;
    assert r[k] == a[i];
  }

  // ---------------------------------------------------------------------------
  // Locked policies
  // ---------------------------------------------------------------------------

  lemma {:induction false} LockedTableSurvives(table: seq<Policy>, ps: seq<Policy>)
    requires UniqueKeys(table, IdOf)
    ensures UniqueKeys(ExtendPolicies(table, ps, true), IdOf)
    ensures forall p :: p in table ==> p in ExtendPolicies(table, ps, true)
    decreases |ps|
  {
    if ps != [] {
      var i := IndexOfKey(table, IdOf, ps[0].id);
      var next := if i < |table| then table else Put(table, ps[0], IdOf);
      PutEffect(table, ps[0], IdOf);
      LockedTableSurvives(next, ps[1..]);
    }
  }

  lemma {:induction false} UnlockedIsPutAll(table: seq<Policy>, ps: seq<Policy>)
    requires UniqueKeys(table, IdOf)
    ensures ExtendPolicies(table, ps, false) == PutAll(table + ps, IdOf)
    decreases |ps|
  {
    if ps == [] {
      assert table + ps == table;
      PutAllFixed(table, IdOf);
    } else {
      var next := Put(table, ps[0], IdOf);
      PutEffect(table, ps[0], IdOf);
      UnlockedIsPutAll(next, ps[1..]);
      PutThenRest(table, ps[0], ps[1..], IdOf);
      assert [ps[0]] + ps[1..] == ps;
    }
  }

  ghost predicate LastOfItsId(ps: seq<Policy>, i: nat) {
    i < |ps| && forall j :: i < j < |ps| ==> ps[j].id != ps[i].id
  }

  /** With `policies` locked every vendor policy survives the extend file. */
  lemma LockedPoliciesSurviveExtend(vendor: Role, ext: Role, locked: seq<string>, i: nat)
    requires "policies" in locked && LastOfItsId(vendor.policies, i)
    ensures vendor.policies[i] in MergeExtend(vendor, ext, locked).policies
    ensures UniqueKeys(MergeExtend(vendor, ext, locked).policies, IdOf)
  {
    PutAllKeepsLast(vendor.policies, IdOf);
    LockedTableSurvives(PutAll(vendor.policies, IdOf), ext.policies);
  }

  /** Without the lock the extend file's policies replace the vendor's of the same id. */
  lemma UnlockedPoliciesYield(vendor: Role, ext: Role, locked: seq<string>, i: nat)
    requires "policies" !in locked && LastOfItsId(ext.policies, i)
    ensures var r := MergeExtend(vendor, ext, locked);
            ext.policies[i] in r.policies
            && forall p :: p in r.policies && p.id == ext.policies[i].id ==> p == ext.policies[i]
  {
    PutAllKeepsLast(vendor.policies, IdOf);
    UnlockedIsPutAll(PutAll(vendor.policies, IdOf), ext.policies);
    LastWins(PutAll(vendor.policies, IdOf), ext.policies, i, IdOf);
  }

  ghost predicate FirstOfItsId(ps: seq<Policy>, i: nat) {
    i < |ps| && forall j :: 0 <= j < i ==> ps[j].id != ps[i].id
  }

  predicate HasId(ps: seq<Policy>, id: string) {
    exists k :: 0 <= k < |ps| && ps[k].id == id
  }

  /** What an extend file may add under the lock: each new id once, with the policy given first. */
  lemma {:induction false} LockedTableAdds(table: seq<Policy>, ps: seq<Policy>, p: Policy)
    requires UniqueKeys(table, IdOf)
    ensures p in ExtendPolicies(table, ps, true) <==>
              p in table || exists i: nat :: FirstOfItsId(ps, i) && ps[i] == p && !HasId(table, p.id)
    decreases |ps|
  {
    if ps != [] {
      var x := ps[0];
      var i := IndexOfKey(table, IdOf, x.id);
      var next := if i < |table| then table else Put(table, x, IdOf);
      PutEffect(table, x, IdOf);
      LockedTableAdds(next, ps[1..], p);
      LockedStep(table, ps, p, next);
    }
  }

  lemma LockedStep(table: seq<Policy>, ps: seq<Policy>, p: Policy, next: seq<Policy>)
    requires ps != [] && next == if HasId(table, ps[0].id) then table else table + [ps[0]]
    ensures p in next || (exists i: nat :: FirstOfItsId(ps[1..], i) && ps[1..][i] == p && !HasId(next, p.id))
            <==> p in table || (exists i: nat :: FirstOfItsId(ps, i) && ps[i] == p && !HasId(table, p.id))
  {
    var x, rest := ps[0], ps[1..];
    assert forall j: nat :: j < |rest| ==> rest[j] == ps[j + 1];
    assert HasId(next, p.id) <==> HasId(table, p.id) || p.id == x.id by {
      if HasId(table, p.id) {
        var k :| 0 <= k < |table| && table[k].id == p.id;
        assert next[k].id == p.id;
      }
      if !HasId(table, x.id) {
        assert next[|table|] == x;
      }
    }
    if i: nat :| FirstOfItsId(rest, i) && rest[i] == p && !HasId(next, p.id) {
      assert FirstOfItsId(ps, i + 1) && ps[i + 1] == p;
    }
    if i: nat :| FirstOfItsId(ps, i) && ps[i] == p && !HasId(table, p.id) {
      if i == 0 {
        assert next[|table|] == p;
      } else {
        assert FirstOfItsId(rest, i - 1) && rest[i - 1] == p && ps[0].id != p.id;
      }
    }
    if p in next && p !in table {
      assert p == x && FirstOfItsId(ps, 0);
    }
  }

  /**
   * Exactly which policies stand under the lock: the vendor's last one of each id, and for every
   * other id the first one of the extend file.
   */
  lemma LockedPoliciesIff(vendor: Role, ext: Role, locked: seq<string>, p: Policy)
    requires "policies" in locked
    ensures p in MergeExtend(vendor, ext, locked).policies <==>
              || (exists i: nat :: LastOfItsId(vendor.policies, i) && vendor.policies[i] == p)
              || (exists i: nat :: FirstOfItsId(ext.policies, i) && ext.policies[i] == p
                                   && !HasId(vendor.policies, p.id))
  {
    var table := PutAll(vendor.policies, IdOf);
    PutAllKeepsLast(vendor.policies, IdOf);
    PutAllKeys(vendor.policies, IdOf, p.id);
    LockedTableAdds(table, ext.policies, p);
    InPutAllIff(vendor.policies, p);
    assert HasId(table, p.id) <==> HasKey(table, IdOf, p.id);
    assert HasId(vendor.policies, p.id) <==> HasKey(vendor.policies, IdOf, p.id);
  }

  lemma LastOfBoth(a: seq<Policy>, b: seq<Policy>, p: Policy)
    ensures (exists i: nat :: LastOfItsId(a + b, i) && (a + b)[i] == p) <==>
              || (exists i: nat :: LastOfItsId(b, i) && b[i] == p)
              || (exists i: nat :: LastOfItsId(a, i) && a[i] == p && !HasId(b, p.id))
  {
    var all := a + b;
    assert forall j: nat :: j < |a| ==> all[j] == a[j];
    assert forall j: nat :: j < |b| ==> all[|a| + j] == b[j];
    if i: nat :| LastOfItsId(all, i) && all[i] == p {
      if i < |a| {
        forall j | 0 <= j < |b|
          ensures b[j].id != p.id
        {
          assert all[|a| + j].id != all[i].id;
        }
        forall j | i < j < |a|
          ensures a[j].id != a[i].id
        {
          assert all[j].id != all[i].id;
        }
        assert LastOfItsId(a, i) && a[i] == p && !HasId(b, p.id);
      } else {
        assert LastOfItsId(b, i - |a|) && b[i - |a|] == p;
      }
    }
    if i: nat :| LastOfItsId(b, i) && b[i] == p {
      assert LastOfItsId(all, |a| + i);
    }
    if i: nat :| LastOfItsId(a, i) && a[i] == p && !HasId(b, p.id) {
      assert LastOfItsId(all, i);
    }
  }

  /**
   * Exactly which policies stand where the later ones win, in an extend without the lock and in a
   * child role: the later list's last one of each id, and for every other id the earlier list's.
   */
  lemma LaterPoliciesIff(base: seq<Policy>, role: seq<Policy>, p: Policy)
    ensures p in PutAll(base + role, IdOf) <==>
              || (exists i: nat :: LastOfItsId(role, i) && role[i] == p)
              || (exists i: nat :: LastOfItsId(base, i) && base[i] == p && !HasId(role, p.id))
  {
    InPutAllIff(base + role, p);
    LastOfBoth(base, role, p);
  }

  lemma UnlockedPoliciesIff(vendor: Role, ext: Role, locked: seq<string>, p: Policy)
    requires "policies" !in locked
    ensures p in MergeExtend(vendor, ext, locked).policies <==>
              || (exists i: nat :: LastOfItsId(ext.policies, i) && ext.policies[i] == p)
              || (exists i: nat :: LastOfItsId(vendor.policies, i) && vendor.policies[i] == p
                                   && !HasId(ext.policies, p.id))
  {
    PutAllKeepsLast(vendor.policies, IdOf);
    UnlockedIsPutAll(PutAll(vendor.policies, IdOf), ext.policies);
    PutAllLeft(vendor.policies, ext.policies, IdOf);
    LaterPoliciesIff(vendor.policies, ext.policies, p);
  }

  lemma ChildPoliciesIff(base: Role, role: Role, p: Policy)
    ensures p in Merge(base, role).policies <==>
              || (exists i: nat :: LastOfItsId(role.policies, i) && role.policies[i] == p)
              || (exists i: nat :: LastOfItsId(base.policies, i) && base.policies[i] == p
                                   && !HasId(role.policies, p.id))
  {
    LaterPoliciesIff(base.policies, role.policies, p);
  }

  lemma {:induction false} InPutAllIff(ps: seq<Policy>, p: Policy)
    ensures p in PutAll(ps, IdOf) <==> exists i: nat :: LastOfItsId(ps, i) && ps[i] == p
  {
    PutAllKeepsLast(ps, IdOf);
    if p in PutAll(ps, IdOf) {
      var k :| 0 <= k < |PutAll(ps, IdOf)| && PutAll(ps, IdOf)[k] == p;
      var i := LastPlace(ps, p);
      assert ps[i] in PutAll(ps, IdOf);
      var m :| 0 <= m < |PutAll(ps, IdOf)| && PutAll(ps, IdOf)[m] == ps[i];
      assert k == m;
    }
  }

  lemma {:induction false} LastPlace(ps: seq<Policy>, p: Policy) returns (i: nat)
    requires p in ps
    ensures LastOfItsId(ps, i) && ps[i].id == p.id
  {
    var n := |ps| - 1;
    if ps[n].id == p.id {
      i := n;
    } else {
      assert p in ps[..n];
      i := LastPlace(ps[..n], p);
    }
  }

  /** The lock ends at the file: a child role replaces an inherited policy of the same id. */
  lemma ChildReplacesInheritedPolicy(base: Role, role: Role, i: nat)
    requires LastOfItsId(role.policies, i)
    ensures var r := Merge(base, role);
            role.policies[i] in r.policies
            && forall p :: p in r.policies && p.id == role.policies[i].id ==> p == role.policies[i]
  {
    LastWins(base.policies, role.policies, i, IdOf);
  }

  // ---------------------------------------------------------------------------
  // The merges as the program runs them
  // ---------------------------------------------------------------------------

  method DedupReadFirst(items: seq<ReadFirst>) returns (r: seq<ReadFirst>)
    ensures r == FirstBy(items, PathOf)
  {
    r := [];
    var seen: set<string> := {};
    for i := 0 to |items|
      invariant r == FirstBy(items[..i], PathOf)
      invariant forall k :: k in seen <==> HasKey(r, PathOf, k)
    {
      assert items[..i + 1][..i] == items[..i];
      if items[i].path !in seen {
        forall k
          ensures HasKey(r + [items[i]], PathOf, k) <==> HasKey(r, PathOf, k) || k == items[i].path
        {
          HasKeySnoc(r, items[i], PathOf, k);
        }
        seen := seen + {items[i].path};
        r := r + [items[i]];
      }
    }
    assert items[..|items|] == items;
  }

  method MergeRoleIndex(base: Role, role: Role) returns (r: Role)
    ensures r == Merge(base, role)
  {
    var readFirst := DedupReadFirst(base.readFirst + role.readFirst);
    var policyById: seq<Policy> := [];
    var ps := base.policies + role.policies;
    for i := 0 to |ps|
      invariant policyById == PutAll(ps[..i], IdOf)
    {
      assert ps[..i + 1][..i] == ps[..i];
      policyById := Put(policyById, ps[i], IdOf);
    }
    assert ps[..|ps|] == ps;
    r := role.(
      banner := base.banner + role.banner,
      readFirst := readFirst,
      policies := policyById,
      files := FirstBy(base.files + role.files, Itself),
      inject := base.inject + role.inject,
      vars := base.vars + role.vars,
      guards := MergeAllowDeny(base.guards, role.guards),
      funcs := MergeAllowDeny(base.funcs, role.funcs),
      locked := OrElse(role.locked, base.locked));
  }

  method MergeExtendRespectingLocked(vendor: Role, ext: Role, locked: seq<string>) returns (r: Role)
    ensures r == MergeExtend(vendor, ext, locked)
  {
    var policyById: seq<Policy> := [];
    for i := 0 to |vendor.policies|
      invariant policyById == PutAll(vendor.policies[..i], IdOf)
    {
      assert vendor.policies[..i + 1][..i] == vendor.policies[..i];
      policyById := Put(policyById, vendor.policies[i], IdOf);
    }
    assert vendor.policies[..|vendor.policies|] == vendor.policies;
    for i := 0 to |ext.policies|
      invariant ExtendPolicies(policyById, ext.policies[i..], "policies" in locked) ==
                MergeExtend(vendor, ext, locked).policies
    {
      var p := ext.policies[i];
      if !("policies" in locked && IndexOfKey(policyById, IdOf, p.id) < |policyById|) {
        policyById := Put(policyById, p, IdOf);
      }
    }
    var readFirst := DedupReadFirst(vendor.readFirst + ext.readFirst);
    var guards, funcs := vendor.guards, vendor.funcs;
    if ext.guards.Some? {
      guards := MergeAllowDeny(vendor.guards,
                               if "guards" in locked then Some(ext.guards.value.(allow := None)) else ext.guards);
    }
    if ext.funcs.Some? {
      funcs := MergeAllowDeny(vendor.funcs,
                              if "funcs" in locked then Some(ext.funcs.value.(allow := None)) else ext.funcs);
    }
    r := Role(
      ext.kind,
      OrElse(ext.parent, vendor.parent),
      vendor.banner + ext.banner,
      readFirst,
      policyById,
      FirstBy(vendor.files + ext.files, Itself),
      vendor.inject + ext.inject,
      vendor.vars + ext.vars,
      guards,
      funcs,
      Some(locked));
  }
}
