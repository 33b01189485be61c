/**
 * What the loader makes of the files themselves: vendor, extend and flat files of all roles on the
 * parent chain. Main result: banner, read_first, files, inject and vars of a loaded role are those
 * of all its files in use, from the root down and vendor before extend, with nothing left out.
 */
module RoleFiles {
  import opened Basics
  import opened Dedup
  import opened RoleIndex
  import opened ParentChain
  import opened RoleLoader

  /** The files of one role that are in use, in the order they are merged. */
  function FilesOf(dir: RoleDir, x: string): seq<Role>
    requires Exists(dir, x)
  {
    if x !in dir.vendor then [dir.flat[x]]
    else if x in dir.extend then [dir.vendor[x], dir.extend[x]]
    else [dir.vendor[x]]
  }

  /** The files of the first m roles of the chain, whose root is the k-th role up. */
  function FilesFrom(dir: RoleDir, name: string, k: nat, m: nat): seq<Role>
    requires m <= k + 1
  {
    if m == 0 then []
    else
      var x := Ancestor(dir, name, k + 1 - m);
      FilesFrom(dir, name, k, m - 1)
      + (if x.Some? && Exists(dir, x.value) then FilesOf(dir, x.value) else [])
  }

  /** All files of the chain that ends at the k-th role up, root first. */
  function ChainFiles(dir: RoleDir, name: string, k: nat): seq<Role> {
    FilesFrom(dir, name, k, k + 1)
  }

  /** The lists of `r` are those of the files; keyed lists may still hold an entry twice. */
  ghost predicate Gathers(files: seq<Role>, r: Role) {
    && r.banner == Concat(files, Banner) && r.inject == Concat(files, Injects)
    && FirstBy(r.readFirst, PathOf) == FirstBy(Concat(files, ReadFirsts), PathOf)
    && FirstBy(r.files, Itself) == FirstBy(Concat(files, Files), Itself)
    && LastVars(files, r.vars)
  }

  lemma {:induction false} ConcatAppend<A, B>(xs: seq<A>, ys: seq<A>, f: A -> seq<B>)
    ensures Concat(xs + ys, f) == Concat(xs, f) + Concat(ys, f)
    decreases |ys|
  {
    if ys == [] {
      assert xs + ys == xs && Concat(xs, f) + [] == Concat(xs, f);
    } else {
      var n := |ys| - 1;
      assert (xs + ys)[..|xs| + n] == xs + ys[..n];
      ConcatAppend(xs, ys[..n], f);
      Dedup.Regroup(Concat(xs, f), Concat(ys[..n], f), f(ys[n]));
    }
  }

  lemma VarsAppend(a: seq<Role>, b: seq<Role>, va: map<string, string>, vb: map<string, string>)
    requires LastVars(a, va) && LastVars(b, vb)
    ensures LastVars(a + b, va + vb)
  {
    var all := a + b;
    assert forall j :: 0 <= j < |a| ==> all[j] == a[j];
    assert forall j :: 0 <= j < |b| ==> all[|a| + j] == b[j];
    forall v | v in va + vb
      ensures exists k :: 0 <= k < |all| && v in all[k].vars
    {
      if v in vb {
        var k :| 0 <= k < |b| && v in b[k].vars;
        assert v in all[|a| + k].vars;
      } else {
        var k :| 0 <= k < |a| && v in a[k].vars;
        assert v in all[k].vars;
      }
    }
    forall k, v | IsLastVar(all, k, v)
      ensures v in va + vb && (va + vb)[v] == all[k].vars[v]
    {
      if k >= |a| {
        assert IsLastVar(b, k - |a|, v);
      } else {
        assert IsLastVar(a, k, v);
        assert v !in vb;
      }
    }
  }

  lemma FirstsAppend<T>(a: seq<T>, b: seq<T>, x: seq<T>, y: seq<T>, key: T -> string)
    requires FirstBy(x, key) == FirstBy(a, key) && FirstBy(y, key) == FirstBy(b, key)
    ensures FirstBy(x + y, key) == FirstBy(a + b, key)
  {
    FirstByLeft(x, y, key);
    FirstByLeft(a, b, key);
    FirstByRight(FirstBy(a, key), y, key);
    FirstByRight(FirstBy(a, key), b, key);
  }

  lemma FirstsTwice<T>(x: seq<T>, key: T -> string)
    ensures FirstBy(FirstBy(x, key), key) == FirstBy(x, key)
  {
    FirstByKeepsFirst(x, key);
    FirstByFixed(FirstBy(x, key), key);
  }

  /** A merge gathers the files of both sides. */
  lemma MergeGathers(a: seq<Role>, b: seq<Role>, base: Role, role: Role, r: Role)
    requires Gathers(a, base) && Gathers(b, role)
    requires r.banner == base.banner + role.banner && r.inject == base.inject + role.inject
    requires r.readFirst == FirstBy(base.readFirst + role.readFirst, PathOf)
    requires r.files == FirstBy(base.files + role.files, Itself)
    requires r.vars == base.vars + role.vars
    ensures Gathers(a + b, r)
  {
    ConcatAppend(a, b, Banner);
    ConcatAppend(a, b, Injects);
    ConcatAppend(a, b, ReadFirsts);
    ConcatAppend(a, b, Files);
    FirstsAppend(Concat(a, ReadFirsts), Concat(b, ReadFirsts), base.readFirst, role.readFirst, PathOf);
    FirstsAppend(Concat(a, Files), Concat(b, Files), base.files, role.files, Itself);
    FirstsTwice(base.readFirst + role.readFirst, PathOf);
    FirstsTwice(base.files + role.files, Itself);
    VarsAppend(a, b, base.vars, role.vars);
  }

  lemma ConcatOne<A, B>(x: A, f: A -> seq<B>)
    ensures Concat([x], f) == f(x)
  {
    assert [x][..0] == [] && Concat([x][..0], f) + f(x) == f(x);
  }

  lemma OneVars(file: Role)
    ensures LastVars([file], file.vars)
  {
    forall v | v in file.vars
      ensures exists k :: 0 <= k < |[file]| && v in [file][k].vars
    {
      assert v in [file][0].vars;
    }
  }

  lemma OneGathers(r: Role, file: Role)
    requires r.banner == file.banner && r.inject == file.inject && r.readFirst == file.readFirst
    requires r.files == file.files && r.vars == file.vars
    ensures Gathers([file], r)
  {
    ConcatOne(file, Banner);
    ConcatOne(file, Injects);
    ConcatOne(file, ReadFirsts);
    ConcatOne(file, Files);
    OneVars(file);
  }

  lemma NothingGathers()
    ensures Gathers([], EMPTY_ROLE)
  {
  }

  lemma ContributionGathers(dir: RoleDir, x: string)
    requires Exists(dir, x)
    ensures Gathers(FilesOf(dir, x), Contribution(dir, x))
  {
    var r := Contribution(dir, x);
    if x !in dir.vendor {
      OneGathers(r, dir.flat[x]);
    } else if x in dir.extend {
      OneGathers(dir.vendor[x], dir.vendor[x]);
      OneGathers(dir.extend[x], dir.extend[x]);
      MergeGathers([dir.vendor[x]], [dir.extend[x]], dir.vendor[x], dir.extend[x], r);
      assert [dir.vendor[x]] + [dir.extend[x]] == FilesOf(dir, x);
    } else {
      OneGathers(r, dir.vendor[x]);
    }
  }

  lemma OneRoleMore(dir: RoleDir, files: seq<Role>, base: Role, x: string, role: Role)
    requires Gathers(files, base) && Exists(dir, x) && role == Contribution(dir, x)
    ensures Gathers(files + FilesOf(dir, x), Merge(base, role))
  {
    ContributionGathers(dir, x);
    MergeGathers(files, FilesOf(dir, x), base, role, Merge(base, role));
  }

  /** The roles of a list of names are what these contribute. */
  ghost predicate Contribute(dir: RoleDir, names: seq<string>, roles: seq<Role>) {
    && |names| == |roles|
    && forall i :: 0 <= i < |names| ==> Exists(dir, names[i]) && roles[i] == Contribution(dir, names[i])
  }

  function AllFiles(dir: RoleDir, names: seq<string>): seq<Role> {
    if names == [] then []
    else
      var x := names[|names| - 1];
      AllFiles(dir, names[..|names| - 1]) + (if Exists(dir, x) then FilesOf(dir, x) else [])
  }

  /** Folding what some roles contribute gathers all their files. */
  lemma {:induction false} FoldGathers(dir: RoleDir, names: seq<string>, roles: seq<Role>)
    requires Contribute(dir, names, roles)
    ensures Gathers(AllFiles(dir, names), FoldMerge(roles))
  {
    if names == [] {
      NothingGathers();
    } else {
      var n := |names| - 1;
      FoldGathers(dir, names[..n], roles[..n]);
      OneRoleMore(dir, AllFiles(dir, names[..n]), FoldMerge(roles[..n]), names[n], roles[n]);
    }
  }

  /** The names of the chain, root first. */
  ghost predicate NamesChain(dir: RoleDir, name: string, k: nat, names: seq<string>) {
    |names| == k + 1 && forall i :: 0 <= i <= k ==> Ancestor(dir, name, k - i) == Some(names[i])
  }

  lemma {:induction false} NamedFiles(dir: RoleDir, name: string, k: nat, names: seq<string>, m: nat)
    requires NamesChain(dir, name, k, names) && m <= k + 1
    ensures FilesFrom(dir, name, k, m) == AllFiles(dir, names[..m])
    decreases m
  {
    if m > 0 {
      NamedFiles(dir, name, k, names, m - 1);
      assert Ancestor(dir, name, k - (m - 1)) == Some(names[m - 1]);
      assert names[..m][..m - 1] == names[..m - 1];
    }
  }

  lemma ChainNames(dir: RoleDir, name: string, lineage: seq<Role>) returns (names: seq<string>)
    requires IsChain(dir, name, lineage)
    ensures |lineage| > 0 && NamesChain(dir, name, |lineage| - 1, names) && Contribute(dir, names, lineage)
  {
    var n := |lineage|;
    names := ListNames(Up(dir), Stands(dir), name, lineage, n);
    forall i: nat | i < n
      ensures Ancestor(dir, name, n - 1 - i) == Some(names[i])
      ensures Exists(dir, names[i]) && lineage[i] == Contribution(dir, names[i])
    {
      assert NamedAt(Up(dir), Stands(dir), name, lineage, names[i], i);
    }
  }

  lemma EndsOnce(next: Next, name: string, n: nat, k: nat)
    requires n > 0 && Nth(next, name, n - 1).Some? && Nth(next, name, n).None?
    requires Nth(next, name, k).Some? && Nth(next, name, k + 1).None?
    ensures n == k + 1
  {
    if n <= k {
      NoneStaysNone(next, name, n, k);
    } else if k + 1 < n {
      NoneStaysNone(next, name, k + 1, n - 1);
    }
  }

  lemma ChainEnd(dir: RoleDir, name: string, lineage: seq<Role>)
    requires IsChain(dir, name, lineage)
    ensures |lineage| > 0 && Nth(Up(dir), name, |lineage| - 1).Some? && Nth(Up(dir), name, |lineage|).None?
  {
    assert HoldsAt(Up(dir), Stands(dir), name, lineage, |lineage| - 1);
  }

  lemma ChainIsAsLong(dir: RoleDir, name: string, lineage: seq<Role>, k: nat)
    requires IsChain(dir, name, lineage) && RootAt(dir, name, k)
    ensures |lineage| == k + 1
  {
    EndsThere(dir, name, k);
    ChainEnd(dir, name, lineage);
    EndsOnce(Up(dir), name, |lineage|, k);
  }

  /** The lists of a loaded role are exactly those of its files in use. */
  ghost predicate IsOfFiles(files: seq<Role>, r: Role) {
    && r.banner == Concat(files, Banner) && r.inject == Concat(files, Injects)
    && (exists at :: KeptAt(Concat(files, ReadFirsts), PathOf, at, r.readFirst))
    && (exists at :: KeptAt(Concat(files, Files), Itself, at, r.files))
    && LastVars(files, r.vars)
  }

  /**
   * With the root of its chain k roles up, the loaded role holds the banner and inject lines of all
   * vendor, extend and flat files in use, in order, every read_first path and file once and where
   * it first comes up, and every variable with the value of the last file that sets it.
   */
  lemma LoadedFromFiles(dir: RoleDir, name: string, k: nat)
    requires RootAt(dir, name, k)
    ensures Load(dir, name, {}).Ok? && IsOfFiles(ChainFiles(dir, name, k), Load(dir, name, {}).value)
  {
    LoadOutcome(dir, name);
    assert EndsAtRoot(dir, name);
    LineageIsChain(dir, name, {});
    LoadIsFold(dir, name, {});
    ChainFolds(dir, name, k, Lineage(dir, name, {}));
  }

  lemma ChainFolds(dir: RoleDir, name: string, k: nat, lineage: seq<Role>)
    requires RootAt(dir, name, k) && IsChain(dir, name, lineage)
    ensures IsOfFiles(ChainFiles(dir, name, k), FoldMerge(lineage))
  {
    ChainIsAsLong(dir, name, lineage, k);
    var names := ChainNames(dir, name, lineage);
    NamedFiles(dir, name, k, names, k + 1);
    assert names[..k + 1] == names;
    FoldGathers(dir, names, lineage);
    LoadedIsDeduped(lineage);
    GathersDeduped(ChainFiles(dir, name, k), FoldMerge(lineage));
  }

  lemma LoadedIsDeduped(chain: seq<Role>)
    ensures FirstBy(FoldMerge(chain).readFirst, PathOf) == FoldMerge(chain).readFirst
    ensures FirstBy(FoldMerge(chain).files, Itself) == FoldMerge(chain).files
  {
    FoldIsFlat(chain);
    FirstsTwice(Concat(chain, ReadFirsts), PathOf);
    FirstsTwice(Concat(chain, Files), Itself);
  }

  lemma GathersDeduped(files: seq<Role>, r: Role)
    requires Gathers(files, r)
    requires FirstBy(r.readFirst, PathOf) == r.readFirst && FirstBy(r.files, Itself) == r.files
    ensures IsOfFiles(files, r)
  {
    var at := FirstByPlaces(Concat(files, ReadFirsts), PathOf);
    var at' := FirstByPlaces(Concat(files, Files), Itself);
  }

  /** Nothing is cleared: every line of every file in use is in the loaded role. */
  lemma EveryLineIsLoaded(dir: RoleDir, name: string, k: nat, f: Role)
    requires RootAt(dir, name, k) && f in ChainFiles(dir, name, k)
    ensures Load(dir, name, {}).Ok?
    ensures var r := Load(dir, name, {}).value;
            && (forall x :: x in f.banner ==> x in r.banner) && (forall x :: x in f.inject ==> x in r.inject)
            && (forall x :: x in f.files ==> x in r.files)
            && (forall e :: e in f.readFirst ==> HasKey(r.readFirst, PathOf, e.path))
            && (forall v :: v in f.vars ==> v in r.vars)
  {
    LoadedFromFiles(dir, name, k);
    var r, files := Load(dir, name, {}).value, ChainFiles(dir, name, k);
    LinesOfFile(files, f, r);
  }

  lemma KeyStays<T>(xs: seq<T>, key: T -> string, at: seq<nat>, r: seq<T>, x: T)
    requires KeptAt(xs, key, at, r) && x in xs
    ensures HasKey(r, key, key(x))
  {
    var i: nat :| i < |xs| && xs[i] == x;
    var j := FirstPlace(xs, key, i);
    var k :| 0 <= k < |at| && at[k] == j;
    assert key(r[k]) == key(x);
  }

  lemma {:induction false} FirstPlace<T>(xs: seq<T>, key: T -> string, i: nat) returns (j: nat)
    requires i < |xs|
    ensures j <= i && key(xs[j]) == key(xs[i]) && forall m: nat :: m < j ==> key(xs[m]) != key(xs[j])
    decreases i
  {
    if m: nat :| m < i && key(xs[m]) == key(xs[i]) {
      j := FirstPlace(xs, key, m);
    } else {
      j := i;
    }
  }

  lemma LinesOfFile(files: seq<Role>, f: Role, r: Role)
    requires IsOfFiles(files, r) && f in files
    ensures (forall x :: x in f.banner ==> x in r.banner) && (forall x :: x in f.inject ==> x in r.inject)
    ensures forall x :: x in f.files ==> x in r.files
    ensures forall e :: e in f.readFirst ==> HasKey(r.readFirst, PathOf, e.path)
    ensures forall v :: v in f.vars ==> v in r.vars
  {
    var k: nat :| k < |files| && files[k] == f;
    forall x | x in f.banner
      ensures x in r.banner
    {
      ConcatMember(files, Banner, x);
    }
    forall x | x in f.inject
      ensures x in r.inject
    {
      ConcatMember(files, Injects, x);
    }
    forall x | x in f.files
      ensures x in r.files
    {
      ConcatMember(files, Files, x);
      var at :| KeptAt(Concat(files, Files), Itself, at, r.files);
      KeyStays(Concat(files, Files), Itself, at, r.files, x);
    }
    forall e | e in f.readFirst
      ensures HasKey(r.readFirst, PathOf, e.path)
    {
      ConcatMember(files, ReadFirsts, e);
      var at :| KeptAt(Concat(files, ReadFirsts), PathOf, at, r.readFirst);
      KeyStays(Concat(files, ReadFirsts), PathOf, at, r.readFirst, e);
    }
    forall v | v in f.vars
      ensures v in r.vars
    {
      var last := LastWith(files, v, k);
      assert IsLastVar(files, last, v);
    }
  }

  lemma {:induction false} LastWith(files: seq<Role>, v: string, k: nat) returns (last: nat)
    requires k < |files| && v in files[k].vars
    ensures IsLastVar(files, last, v)
    decreases |files| - k
  {
    if m: nat :| k < m < |files| && v in files[m].vars {
      last := LastWith(files, v, m);
    } else {
      last := k;
    }
  }

  /**
   * The kind of a loaded role is its own: that of its extend file where there is one, else of its
   * vendor or flat file; for a root named common it is common.
   */
  lemma LoadedKind(dir: RoleDir, name: string)
    requires Load(dir, name, {}).Ok?
    ensures Exists(dir, name)
    ensures Load(dir, name, {}).value.kind ==
            if name == "common" && Parent(dir, name).None? then "common"
            else FilesOf(dir, name)[|FilesOf(dir, name)| - 1].kind
  {
    LoadedStep(dir, name, {});
  }

  /** The parent a role's files name: the extend file's, or else that of the vendor or flat file. */
  function NamedParent(dir: RoleDir, x: string): string
    requires Exists(dir, x)
  {
    var fs := FilesOf(dir, x);
    if fs[|fs| - 1].parent.Some? then fs[|fs| - 1].parent.value else fs[0].parent.GetOr("")
  }

  /**
   * The next role up, told from the files: "manager" for the old name "master", any other name as it
   * is; without a name `common`, if there is such a role and this is not it.
   */
  lemma ParentFromFiles(dir: RoleDir, x: string)
    requires Exists(dir, x)
    ensures NamedParent(dir, x) == "master" ==> Parent(dir, x) == Some("manager")
    ensures NamedParent(dir, x) != "master" && NamedParent(dir, x) != "" ==> Parent(dir, x) == Some(NamedParent(dir, x))
    ensures NamedParent(dir, x) == "" ==>
              Parent(dir, x) == if x != "common" && Exists(dir, "common") then Some("common") else None
  {
  }

  /** The locks of a loaded role are those of its own vendor or flat file; only a vendor file has locks by default. */
  lemma LoadedLocks(dir: RoleDir, name: string)
    requires Load(dir, name, {}).Ok?
    ensures Exists(dir, name)
    ensures var own := FilesOf(dir, name)[0].locked.GetOr([]);
            Load(dir, name, {}).value.locked ==
            Some(if own != [] || name !in dir.vendor then own else ["banner", "read_first", "policies"])
  {
    LoadedStep(dir, name, {});
  }

  /** A vendor file that gives no lock list of its own still protects its policies. */
  lemma UnlistedVendorPoliciesReachIndex(dir: RoleDir, name: string, i: nat)
    requires Load(dir, name, {}).Ok? && name in dir.vendor && LastOfItsId(dir.vendor[name].policies, i)
    requires dir.vendor[name].locked.None? || dir.vendor[name].locked == Some([])
    ensures dir.vendor[name].policies[i] in Load(dir, name, {}).value.policies
    ensures Load(dir, name, {}).value.locked == Some(["banner", "read_first", "policies"])
  {
    LockedVendorPoliciesReachIndex(dir, name, i);
    LoadedStep(dir, name, {});
  }
}
