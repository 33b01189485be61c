/**
 * The recursive role loader over a directory of parsed role files. Main results: the loader ends
 * in exactly one of three ways, told by the parent chain alone, and its result is the flat merge
 * of the chain.
 */
module RoleLoader {
  import opened Basics
  import opened Dedup
  import opened RoleIndex
  import opened ParentChain

  /** Parsed files by role name: `_vendor/<name>`, `<name>.extend` and the old flat `<name>`. */
  datatype RoleDir = RoleDir(vendor: map<string, Role>, extend: map<string, Role>, flat: map<string, Role>)

  datatype LoadError = MissingRole(name: string) | RoleCycle(name: string)

  const DEFAULT_LOCKED := ["banner", "read_first", "policies"]

  /** Parent names are stored trimmed; "master" is the old name of "manager". */
  function NormalizeRoleKind(kind: string): string {
    if kind == "master" then "manager" else kind
  }

  predicate Exists(dir: RoleDir, name: string) {
    name in dir.vendor || name in dir.flat
  }

  function LockedSections(dir: RoleDir, name: string): seq<string>
    requires Exists(dir, name)
  {
    if name in dir.vendor then
      var own := dir.vendor[name].locked.GetOr([]);
      if own != [] then own else DEFAULT_LOCKED
    else dir.flat[name].locked.GetOr([])
  }

  /** The role's own file: vendor and extend merged under the locks, or the flat file. */
  function OwnRole(dir: RoleDir, name: string): Role
    requires Exists(dir, name)
  {
    var locked := LockedSections(dir, name);
    if name in dir.vendor && name in dir.extend then MergeExtend(dir.vendor[name], dir.extend[name], locked)
    else (if name in dir.vendor then dir.vendor[name] else dir.flat[name]).(locked := Some(locked))
  }

  /** The next role up: the one named by `extends`, else `common` when there is such a role. */
  function Parent(dir: RoleDir, name: string): Option<string>
    requires Exists(dir, name)
  {
    var explicit := OwnRole(dir, name).parent.GetOr("");
    if explicit != "" then Some(NormalizeRoleKind(explicit))
    else if name == "common" then None
    else if Exists(dir, "common") then Some("common")
    else None
  }

  /** The role as it is merged; the implicit root is always of kind `common`. */
  function Contribution(dir: RoleDir, name: string): Role
    requires Exists(dir, name)
  {
    var own := OwnRole(dir, name);
    if name == "common" && Parent(dir, name).None? then own.(kind := "common") else own
  }

  function Names(dir: RoleDir): set<string> {
    dir.vendor.Keys + dir.flat.Keys
  }

  function Load(dir: RoleDir, name: string, visiting: set<string>): Result<Role, LoadError>
    decreases Names(dir) - visiting
  {
    if name in visiting then Err(RoleCycle(name))
    else if !Exists(dir, name) then Err(MissingRole(name))
    else
      match Parent(dir, name)
      case None => Ok(Merge(EMPTY_ROLE, Contribution(dir, name)))
      case Some(p) =>
        assert name in Names(dir) - visiting;
        match Load(dir, p, visiting + {name})
        case Err(e) => Err(e)
        case Ok(parent) => Ok(Merge(parent, Contribution(dir, name)))
  }

  // ---------------------------------------------------------------------------
  // The parent chain
  // ---------------------------------------------------------------------------

  /** One step up from an existing role. */
  function Up(dir: RoleDir): Next {
    x => if Exists(dir, x) then Parent(dir, x) else None
  }

  /** The `k`-th role up from `name`; None past a root or past a missing role. */
  function Ancestor(dir: RoleDir, name: string, k: nat): Option<string> {
    Nth(Up(dir), name, k)
  }

  predicate RootAt(dir: RoleDir, name: string, k: nat) {
    var x := Ancestor(dir, name, k);
    x.Some? && Exists(dir, x.value) && Parent(dir, x.value).None?
  }

  predicate MissingAt(dir: RoleDir, name: string, k: nat) {
    var x := Ancestor(dir, name, k);
    x.Some? && !Exists(dir, x.value)
  }

  predicate RevisitAt(dir: RoleDir, name: string, i: nat, j: nat) {
    i < j && Ancestor(dir, name, i).Some? && Ancestor(dir, name, i) == Ancestor(dir, name, j)
  }

  ghost predicate EndsAtRoot(dir: RoleDir, name: string) {
    exists k: nat :: RootAt(dir, name, k)
  }

  ghost predicate RunsIntoMissing(dir: RoleDir, name: string) {
    exists k: nat :: MissingAt(dir, name, k)
  }

  ghost predicate Revisits(dir: RoleDir, name: string) {
    exists i: nat, j: nat :: RevisitAt(dir, name, i, j)
  }

  /** Behind a root or a missing role there is nothing, and the walk does not come back. */
  lemma EndsThere(dir: RoleDir, name: string, k: nat)
    requires RootAt(dir, name, k) || MissingAt(dir, name, k)
    ensures Ancestor(dir, name, k).Some? && Ancestor(dir, name, k + 1).None?
    ensures !Revisits(dir, name)
  {
    if Revisits(dir, name) {
      var i: nat, j: nat :| RevisitAt(dir, name, i, j);
      ComingBackNeverEnds(Up(dir), name, i, j, k + 1);
    }
  }

  lemma EndingsExclude(dir: RoleDir, name: string)
    ensures !(EndsAtRoot(dir, name) && RunsIntoMissing(dir, name))
    ensures !(EndsAtRoot(dir, name) && Revisits(dir, name))
    ensures !(RunsIntoMissing(dir, name) && Revisits(dir, name))
  {
    forall k: nat | RootAt(dir, name, k) || MissingAt(dir, name, k)
      ensures !Revisits(dir, name)
    {
      EndsThere(dir, name, k);
    }
    forall k: nat, m: nat | RootAt(dir, name, k) && MissingAt(dir, name, m)
      ensures false
    {
      EndsThere(dir, name, k);
      EndsThere(dir, name, m);
      OneEnd(Up(dir), name, k, m);
      OneEnd(Up(dir), name, m, k);
    }
  }

  /** `walked` lists the first roles of the chain. */
  ghost predicate Walked(dir: RoleDir, name: string, walked: seq<string>) {
    forall i: nat :: i < |walked| ==> Ancestor(dir, name, i) == Some(walked[i])
  }

  lemma WalkOneMore(dir: RoleDir, name: string, walked: seq<string>, at: string)
    requires Walked(dir, name, walked) && Ancestor(dir, name, |walked|) == Some(at)
    ensures Walked(dir, name, walked + [at])
  {
    var more := walked + [at];
    forall i: nat | i < |more|
      ensures Ancestor(dir, name, i) == Some(more[i])
    {
      if i < |walked| {
        assert more[i] == walked[i];
      }
    }
  }

  lemma {:induction false} LoadFollowsChain(
      dir: RoleDir, name: string, walked: seq<string>, at: string, visiting: set<string>)
    requires Walked(dir, name, walked) && Ancestor(dir, name, |walked|) == Some(at)
    requires forall x :: x in visiting <==> x in walked
    ensures Load(dir, at, visiting).Ok? ==> EndsAtRoot(dir, name)
    ensures Load(dir, at, visiting).Err? && Load(dir, at, visiting).error.MissingRole? ==> RunsIntoMissing(dir, name)
    ensures Load(dir, at, visiting).Err? && Load(dir, at, visiting).error.RoleCycle? ==> Revisits(dir, name)
    decreases Names(dir) - visiting
  {
    var n := |walked|;
    if at in visiting {
      var i: nat :| i < n && walked[i] == at;
      assert RevisitAt(dir, name, i, n);
    } else if !Exists(dir, at) {
      assert MissingAt(dir, name, n);
    } else if Parent(dir, at).None? {
      assert RootAt(dir, name, n);
    } else {
      assert at in Names(dir) - visiting;
      WalkOneMore(dir, name, walked, at);
      var p := Parent(dir, at).value;
      assert Ancestor(dir, name, n + 1) == Some(p);
      LoadFollowsChain(dir, name, walked + [at], p, visiting + {at});
    }
  }

  /** The parent chain alone decides how loading ends, and it ends in exactly one way. */
  lemma LoadOutcome(dir: RoleDir, name: string)
    ensures Load(dir, name, {}).Ok? <==> EndsAtRoot(dir, name)
    ensures Load(dir, name, {}).Err? && Load(dir, name, {}).error.MissingRole? <==> RunsIntoMissing(dir, name)
    ensures Load(dir, name, {}).Err? && Load(dir, name, {}).error.RoleCycle? <==> Revisits(dir, name)
  {
    LoadFollowsChain(dir, name, [], name, {});
    EndingsExclude(dir, name);
  }

  // ---------------------------------------------------------------------------
  // The loaded value
  // ---------------------------------------------------------------------------

  /** What the roles of a chain contribute, root first. */
  function Lineage(dir: RoleDir, name: string, visiting: set<string>): seq<Role>
    decreases Names(dir) - visiting
  {
    if name in visiting || !Exists(dir, name) then []
    else
      match Parent(dir, name)
      case None => [Contribution(dir, name)]
      case Some(p) =>
        assert name in Names(dir) - visiting;
        Lineage(dir, p, visiting + {name}) + [Contribution(dir, name)]
  }

  lemma {:induction false} LoadIsFold(dir: RoleDir, name: string, visiting: set<string>)
    requires Load(dir, name, visiting).Ok?
    ensures Load(dir, name, visiting).value == FoldMerge(Lineage(dir, name, visiting))
    ensures Lineage(dir, name, visiting) != []
    ensures Lineage(dir, name, visiting)[|Lineage(dir, name, visiting)| - 1] == Contribution(dir, name)
    decreases Names(dir) - visiting
  {
    match Parent(dir, name) {
      case None =>
        assert [Contribution(dir, name)][..0] == [];
      case Some(p) =>
        assert name in Names(dir) - visiting;
        LoadIsFold(dir, p, visiting + {name});
    }
  }

  /** The role exists and this is what it contributes. */
  function Stands(dir: RoleDir): (string, Role) -> bool {
    (x, r) => Exists(dir, x) && r == Contribution(dir, x)
  }

  /** `lineage` is what the roles of the parent chain contribute, from its root down to `name`. */
  ghost predicate IsChain(dir: RoleDir, name: string, lineage: seq<Role>) {
    Lists(Up(dir), Stands(dir), name, lineage)
  }

  lemma RootChain(dir: RoleDir, name: string)
    requires Exists(dir, name) && Parent(dir, name).None?
    ensures IsChain(dir, name, [Contribution(dir, name)])
  {
    ListsOne(Up(dir), Stands(dir), name, Contribution(dir, name));
  }

  lemma LongerChain(dir: RoleDir, name: string, above: seq<Role>)
    requires Exists(dir, name) && Parent(dir, name).Some? && IsChain(dir, Parent(dir, name).value, above)
    ensures IsChain(dir, name, above + [Contribution(dir, name)])
  {
    ListsMore(Up(dir), Stands(dir), name, above, Contribution(dir, name));
  }

  /** What is merged is the parent chain, role by role and in order, from a root to the role itself. */
  lemma {:induction false} LineageIsChain(dir: RoleDir, name: string, visiting: set<string>)
    requires Load(dir, name, visiting).Ok?
    ensures IsChain(dir, name, Lineage(dir, name, visiting))
    decreases Names(dir) - visiting
  {
    assert name in Names(dir) - visiting;
    match Parent(dir, name) {
      case None => RootChain(dir, name);
      case Some(p) =>
        LineageIsChain(dir, p, visiting + {name});
        LongerChain(dir, name, Lineage(dir, p, visiting + {name}));
    }
  }

  /** The loader's result is one flat merge of the parent chain, root first. */
  lemma LoadIsFlatMerge(dir: RoleDir, name: string)
    requires Load(dir, name, {}).Ok?
    ensures IsFlatMerge(Lineage(dir, name, {}), Load(dir, name, {}).value)
    ensures IsChain(dir, name, Lineage(dir, name, {}))
  {
    LoadIsFold(dir, name, {});
    FoldIsFlat(Lineage(dir, name, {}));
    LineageIsChain(dir, name, {});
  }

  lemma LoadedStep(dir: RoleDir, name: string, visiting: set<string>)
    requires Load(dir, name, visiting).Ok?
    ensures Exists(dir, name)
    ensures Contribution(dir, name) in Lineage(dir, name, visiting)
    ensures Parent(dir, name).Some? ==>
              var p := Parent(dir, name).value;
              && Load(dir, p, visiting + {name}).Ok?
              && Load(dir, name, visiting).value
                  == Merge(Load(dir, p, visiting + {name}).value, Contribution(dir, name))
              && forall r :: r in Lineage(dir, p, visiting + {name}) ==> r in Lineage(dir, name, visiting)
    ensures Parent(dir, name).None? ==> Load(dir, name, visiting).value == Merge(EMPTY_ROLE, Contribution(dir, name))
  {
    assert name in Names(dir) - visiting;
  }

  /** The `n`-th role up is one of those the loader merged. */
  lemma AncestorInLineage(dir: RoleDir, name: string, n: nat)
    requires Load(dir, name, {}).Ok? && Ancestor(dir, name, n).Some?
    ensures Exists(dir, Ancestor(dir, name, n).value)
    ensures Contribution(dir, Ancestor(dir, name, n).value) in Lineage(dir, name, {})
  {
    LineageIsChain(dir, name, {});
    ListsAll(Up(dir), Stands(dir), name, Lineage(dir, name, {}), n);
  }

  predicate FileDenies(x: Option<AllowDeny>, id: string) {
    id in DenyOf(x)
  }

  /** Some file of role `x` (vendor, extend or flat, whichever is in use) denies the guard `id`. */
  predicate RoleDeniesGuard(dir: RoleDir, x: string, id: string) {
    if x in dir.vendor then
      FileDenies(dir.vendor[x].guards, id) || (x in dir.extend && FileDenies(dir.extend[x].guards, id))
    else x in dir.flat && FileDenies(dir.flat[x].guards, id)
  }

  predicate RoleDeniesFunc(dir: RoleDir, x: string, id: string) {
    if x in dir.vendor then
      FileDenies(dir.vendor[x].funcs, id) || (x in dir.extend && FileDenies(dir.extend[x].funcs, id))
    else x in dir.flat && FileDenies(dir.flat[x].funcs, id)
  }

  lemma ContributionDenies(dir: RoleDir, x: string, id: string)
    requires Exists(dir, x)
    ensures RoleDeniesGuard(dir, x, id) <==> id in DenyOf(Contribution(dir, x).guards)
    ensures RoleDeniesFunc(dir, x, id) <==> id in DenyOf(Contribution(dir, x).funcs)
  {
    if x in dir.vendor && x in dir.extend {
      ExtendKeepsDenials(dir.vendor[x], dir.extend[x], LockedSections(dir, x), id);
    }
  }

  /** Denied by any file of any role on the chain: refused by the loaded role, whatever others allow. */
  lemma DeniedAnywhereIsRefused(dir: RoleDir, name: string, n: nat, id: string)
    requires Load(dir, name, {}).Ok? && Ancestor(dir, name, n).Some?
    ensures RoleDeniesGuard(dir, Ancestor(dir, name, n).value, id) ==> !RoleAllows(Load(dir, name, {}).value.guards, id)
    ensures RoleDeniesFunc(dir, Ancestor(dir, name, n).value, id) ==> !RoleAllows(Load(dir, name, {}).value.funcs, id)
  {
    var x := Ancestor(dir, name, n).value;
    AncestorInLineage(dir, name, n);
    ContributionDenies(dir, x, id);
    LoadIsFold(dir, name, {});
    var chain := Lineage(dir, name, {});
    ChainAllows(chain, id);
    var k :| 0 <= k < |chain| && chain[k] == Contribution(dir, x);
  }

  /** With `policies` locked every vendor policy of the requested role reaches the loaded index. */
  lemma LockedVendorPoliciesReachIndex(dir: RoleDir, name: string, i: nat)
    requires Load(dir, name, {}).Ok? && name in dir.vendor
    requires "policies" in LockedSections(dir, name) && LastOfItsId(dir.vendor[name].policies, i)
    ensures dir.vendor[name].policies[i] in Load(dir, name, {}).value.policies
  {
    OwnKeepsLockedPolicy(dir, name, i);
    LoadedStep(dir, name, {});
    var own := Contribution(dir, name);
    var k: nat :| LastOfItsId(own.policies, k) && own.policies[k] == dir.vendor[name].policies[i];
    var base := match Parent(dir, name) case None => EMPTY_ROLE case Some(x) => Load(dir, x, {} + {name}).value;
    ChildReplacesInheritedPolicy(base, own, k);
  }

  lemma OwnKeepsLockedPolicy(dir: RoleDir, name: string, i: nat)
    requires name in dir.vendor
    requires "policies" in LockedSections(dir, name) && LastOfItsId(dir.vendor[name].policies, i)
    ensures exists k: nat :: LastOfItsId(Contribution(dir, name).policies, k)
                             && Contribution(dir, name).policies[k] == dir.vendor[name].policies[i]
  {
    var own := Contribution(dir, name);
    if name in dir.extend {
      LockedPoliciesSurviveExtend(dir.vendor[name], dir.extend[name], LockedSections(dir, name), i);
      var k :| 0 <= k < |own.policies| && own.policies[k] == dir.vendor[name].policies[i];
      assert LastOfItsId(own.policies, k);
    } else {
      assert own.policies == dir.vendor[name].policies;
      assert LastOfItsId(own.policies, i);
    }
  }

  // ---------------------------------------------------------------------------
  // The recursion over a shared visiting set
  // ---------------------------------------------------------------------------

  class Loader {
    const dir: RoleDir
    var visiting: set<string>

    constructor (dir: RoleDir)
      ensures this.dir == dir && visiting == {}
    {
      this.dir, visiting := dir, {};
    }

    method OwnIndex(name: string) returns (own: Role)
      requires Exists(dir, name)
      ensures own == OwnRole(dir, name)
    {
      var locked := LockedSections(dir, name);
      if name !in dir.vendor {
        own := dir.flat[name].(locked := Some(locked));
      } else if name in dir.extend {
        own := MergeExtendRespectingLocked(dir.vendor[name], dir.extend[name], locked);
      } else {
        own := dir.vendor[name].(locked := Some(locked));
      }
    }

    /** The set comes back as it was, unless an error leaves the roles under way in it. */
    method LoadRoleFileChain(name: string) returns (r: Result<Role, LoadError>)
      modifies this
      ensures r == Load(dir, name, old(visiting))
      ensures r.Ok? ==> visiting == old(visiting)
      decreases Names(dir) - visiting
    {
      if name in visiting {
        return Err(RoleCycle(name));
      }
      ghost var before := visiting;
      visiting := visiting + {name};
      if !Exists(dir, name) {
        return Err(MissingRole(name));
      }
      assert name in Names(dir) - before;
      var own := OwnIndex(name);
      var explicit := own.parent.GetOr("");
      var merged;
      if explicit != "" {
        var parent := LoadRoleFileChain(NormalizeRoleKind(explicit));
        if parent.Err? {
          return parent;
        }
        merged := MergeRoleIndex(parent.value, own);
      } else if name == "common" {
        merged := MergeRoleIndex(EMPTY_ROLE, own.(kind := "common"));
      } else if Exists(dir, "common") {
        var common := LoadRoleFileChain("common");
        if common.Err? {
          return common;
        }
        merged := MergeRoleIndex(common.value, own);
      } else {
        merged := MergeRoleIndex(EMPTY_ROLE, own);
      }
      visiting := visiting - {name};
      assert visiting == before;
      return Ok(merged);
    }
  }
}
