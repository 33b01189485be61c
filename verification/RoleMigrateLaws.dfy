/**
 * What migration does to every single path, and what follows: repeating it, going down and up
 * again, what happens to a user's own files, and what a dry run foretells.
 */
module RoleMigrateLaws {
  import opened Basics
  import opened PackVersion
  import opened RoleMigrate

  // ---------------------------------------------------------------------------
  // One path at a time
  // ---------------------------------------------------------------------------

  /** The template file that ends up under a name: the last one copied there. */
  function Latest(entries: seq<Entry>, name: VendorName): Option<File> {
    if entries == [] then None
    else if entries[|entries| - 1].name == name then Some(entries[|entries| - 1].file)
    else Latest(entries[..|entries| - 1], name)
  }

  function VendorAfter(files: Files, entries: seq<Entry>, name: VendorName): Option<File> {
    var l := Latest(entries, name);
    if l.Some? then l else Get(files, Vendor(name))
  }

  lemma {:induction false} SyncGet(d: Dir, entries: seq<Entry>, p: Path)
    ensures Get(SyncEntries(d, entries, false).files, p)
         == if p.Vendor? then VendorAfter(d.files, entries, p.name) else Get(d.files, p)
  {
    if entries != [] {
      SyncGet(d, entries[..|entries| - 1], p);
    }
  }

  function ExtendAfter(files: Files, vendor: Option<File>, k: Kind): File {
    if Extend(k) in files then files[Extend(k)] else NewExtend(Get(files, Flat(k)), vendor, k)
  }

  lemma {:induction false} PromoteGet(d: Dir, n: nat, p: Path)
    requires n <= |KINDS|
    ensures Get(Promote(d, n, false).files, p)
         == if p.Extend? && IndexOf(p.kind) < n
             then Some(ExtendAfter(d.files, Get(d.files, Vendor(KindYaml(p.kind))), p.kind))
            else Get(d.files, p)
    decreases n
  {
    if n > 0 {
      var k := KINDS[n - 1];
      assert IndexOf(k) == n - 1;
      PromoteGet(d, n - 1, p);
      PromoteGet(d, n - 1, Extend(k));
      PromoteGet(d, n - 1, Flat(k));
      PromoteGet(d, n - 1, Vendor(KindYaml(k)));
    }
  }

  lemma {:induction false} ArchiveGet(d: Dir, n: nat, p: Path)
    requires n <= |KINDS|
    ensures Get(ArchiveFlats(d, n, false).files, p)
         == if p.Flat? && IndexOf(p.kind) < n then None
            else if p.Archive? && IndexOf(p.kind) < n && Flat(p.kind) in d.files then Get(d.files, Flat(p.kind))
            else Get(d.files, p)
    decreases n
  {
    if n > 0 {
      var k := KINDS[n - 1];
      assert IndexOf(k) == n - 1;
      ArchiveGet(d, n - 1, p);
      ArchiveGet(d, n - 1, Flat(k));
    }
  }

  lemma {:induction false} FlattenGet(d: Dir, n: nat, p: Path)
    requires n <= |KINDS|
    ensures Get(Flatten(d, n, false).files, p)
         == if p.Flat? && IndexOf(p.kind) < n && (Vendor(KindYaml(p.kind)) in d.files || Extend(p.kind) in d.files)
            then Some(Flattened(Get(d.files, Vendor(KindYaml(p.kind))), Get(d.files, Extend(p.kind))))
            else Get(d.files, p)
    decreases n
  {
    if n > 0 {
      var k := KINDS[n - 1];
      assert IndexOf(k) == n - 1;
      FlattenGet(d, n - 1, p);
      FlattenGet(d, n - 1, Extend(k));
      FlattenGet(d, n - 1, Vendor(KindYaml(k)));
    }
  }

  /** What stands under a path after the 1.0 to 1.1 step. */
  function UpFile(files: Files, entries: seq<Entry>, p: Path): Option<File> {
    match p
    case Vendor(name) => if name.Manifest? then Some(Stamp(Some(V110))) else VendorAfter(files, entries, name)
    case Extend(k) => Some(ExtendAfter(files, VendorAfter(files, entries, KindYaml(k)), k))
    case Flat(_) => None
    case Archive(k) => if Flat(k) in files then Get(files, Flat(k)) else Get(files, p)
  }

  /** What stands under a path after the 1.1 to 1.0 step. */
  function DownFile(files: Files, p: Path): Option<File> {
    match p
    case Vendor(name) => if name.Manifest? then Some(Stamp(Some(V100))) else Get(files, p)
    case Flat(k) =>
      if Vendor(KindYaml(k)) in files || Extend(k) in files
      then Some(Flattened(Get(files, Vendor(KindYaml(k))), Get(files, Extend(k))))
      else Get(files, p)
    case Extend(_) => Get(files, p)
    case Archive(_) => Get(files, p)
  }

  lemma UpGet(d: Dir, entries: seq<Entry>, p: Path)
    ensures Get(Up(d, Some(entries), false).files, p) == UpFile(d.files, entries, p)
  {
    var synced := SyncEntries(d, entries, false);
    var promoted := Promote(synced, |KINDS|, false);
    ArchiveGet(promoted, |KINDS|, p);
    PromoteGet(synced, |KINDS|, p);
    SyncGet(d, entries, p);
    if p.Extend? {
      SyncGet(d, entries, Vendor(KindYaml(p.kind)));
      SyncGet(d, entries, Flat(p.kind));
    } else if p.Archive? {
      PromoteGet(synced, |KINDS|, Flat(p.kind));
      SyncGet(d, entries, Flat(p.kind));
    }
  }

  lemma DownGet(d: Dir, p: Path)
    ensures Get(Down(d, false).files, p) == DownFile(d.files, p)
  {
    FlattenGet(d, |KINDS|, p);
  }

  /**
   * The up step, role by role: an extend file that is there stays; a missing one becomes an empty stub
   * where there is no flat file or it says what the vendor file says now, and otherwise all the flat
   * file says but the engine keys.
   */
  lemma UpExtendIs(d: Dir, entries: seq<Entry>, k: Kind)
    ensures var after := Up(d, Some(entries), false).files;
            var flat, vendor := Get(d.files, Flat(k)), Get(after, Vendor(KindYaml(k)));
            Get(after, Extend(k)) ==
            if Extend(k) in d.files then Get(d.files, Extend(k))
            else if flat.None? || (vendor.Some? && RoleOf(flat) == RoleOf(vendor)) then Some(Stub(k))
            else Some(Yaml(RoleOf(flat)))
  {
    UpGet(d, entries, Extend(k));
    UpGet(d, entries, Vendor(KindYaml(k)));
  }

  /** What a loader reads of a file: everything but the engine keys. */
  lemma RoleOfIs(f: Option<File>)
    ensures forall k :: k in RoleOf(f) <==> k in BodyOf(f) && k !in {"locked", "role_pack", "schema_version"}
    ensures forall k :: k in RoleOf(f) ==> RoleOf(f)[k] == BodyOf(f)[k]
  {
  }

  // ---------------------------------------------------------------------------
  // What a flat file holds
  // ---------------------------------------------------------------------------

  /** What stands under a key that both files have. */
  ghost predicate JoinsValues(was: Value, add: Value, r: Value) {
    && (was.Items? && add.Items? ==> r == Items(was.items + add.items))
    && (add.Scalar? ==> r == add)
    && (add.Items? && !was.Items? ==> r == add)
    && (add.Object? && was.Scalar? ==> r == add)
    && (was.Object? && add.Object? ==>
          && r.Object? && r.fields.Keys == was.fields.Keys + add.fields.Keys
          && forall f :: f in r.fields ==> r.fields[f] == if f in add.fields then add.fields[f] else was.fields[f])
    && (was.Items? && add.Object? ==>
          && r.Object?
          && (forall f :: f in add.fields ==> f in r.fields && r.fields[f] == add.fields[f])
          && (forall i: nat :: i < |was.items| && Index(i) !in add.fields ==>
                Index(i) in r.fields && r.fields[Index(i)] == was.items[i])
          && (forall f :: f in r.fields ==> f in add.fields || (f.Index? && f.i < |was.items|)))
  }

  /** Key by key: what only one file has is kept, and what both have is joined; engine keys are gone. */
  ghost predicate JoinsFiles(vendor: Body, ext: Body, r: Body) {
    && (forall k :: k in r <==> (k in vendor || k in ext) && k !in {"locked", "role_pack", "schema_version"})
    && (forall k :: k in r && k !in ext ==> r[k] == vendor[k])
    && (forall k :: k in r && k !in vendor ==> r[k] == ext[k])
    && (forall k :: k in r && k in vendor && k in ext ==> JoinsValues(vendor[k], ext[k], r[k]))
  }

  lemma MergeJoins(was: Value, add: Value)
    ensures JoinsValues(was, add, MergeValue(was, add))
  {
  }

  /** The keys of a file that is there; a stub, a document and no file at all have none. */
  function BodyOf(f: Option<File>): Body {
    match f
    case Some(Yaml(body)) => body
    case _ => map[]
  }

  lemma FlattenedJoins(vendor: Option<File>, ext: Option<File>)
    ensures Flattened(vendor, ext).Yaml? && JoinsFiles(BodyOf(vendor), BodyOf(ext), Flattened(vendor, ext).body)
  {
    var v, e, r := BodyOf(vendor), BodyOf(ext), Flattened(vendor, ext).body;
    forall k | k in r && k in v && k in e
      ensures JoinsValues(v[k], e[k], r[k])
    {
      MergeJoins(v[k], e[k]);
    }
  }

  /**
   * The down step, key by key: a role with a vendor or an extend file gets a flat file that joins
   * them, vendor entries of a list first and the extend file's scalars winning; one with neither
   * keeps the flat file it has.
   */
  lemma DownJoinsFiles(d: Dir, k: Kind)
    ensures var vendor, ext := Get(d.files, Vendor(KindYaml(k))), Get(d.files, Extend(k));
            var flat := Get(Down(d, false).files, Flat(k));
            if vendor.None? && ext.None? then flat == Get(d.files, Flat(k))
            else flat.Some? && flat.value.Yaml? && JoinsFiles(BodyOf(vendor), BodyOf(ext), flat.value.body)
  {
    DownGet(d, Flat(k));
    FlattenedJoins(Get(d.files, Vendor(KindYaml(k))), Get(d.files, Extend(k)));
  }

  // ---------------------------------------------------------------------------
  // Which targets can be reached
  // ---------------------------------------------------------------------------

  lemma StepVersions()
    ensures Compare(V100, V110) == -1 && Compare(V110, V100) == 1
    ensures Compare(V100, V100) == 0 && Compare(V110, V110) == 0
    ensures Normalize(Some(V100)) == V100 && Normalize(Some(V110)) == V110
  {
    CompareIsLexicographic(V100, V110);
    assert SmallerAt(V100, V110, 1);
    CompareFlips(V100, V110);
    CompareFlips(V100, V100);
    CompareFlips(V110, V110);
  }

  lemma UpPathCases(from: Version, to: Version)
    requires Compare(from, to) < 0
    ensures UpPath(from, to, 0)
         == if from != V100 then Err(NoStep(from))
            else if Compare(V110, to) >= 0 then Ok(1) else Err(NoStep(V110))
  {
    StepVersions();
  }

  lemma DownPathCases(from: Version, to: Version)
    requires Compare(from, to) > 0
    ensures DownPath(from, to, 0)
         == if from != V110 then Err(NoStep(from))
            else if Compare(V100, to) <= 0 then Ok(1) else Err(NoStep(V100))
  {
    StepVersions();
  }

  /**
   * A target is reachable exactly when it compares equal to the installed version, or lies in
   * (1.0.0, 1.1.0] seen from 1.0.0, or in [1.0.0, 1.1.0) seen from 1.1.0; and never takes more
   * than one step. In particular an installed "1.0" cannot move to 1.1.0.
   */
  lemma ReachableTargets(from: Version, to: Version)
    ensures PathBetween(from, to).Ok? <==>
              || Compare(from, to) == 0
              || (from == V100 && Compare(V100, to) < 0 && Compare(to, V110) <= 0)
              || (from == V110 && Compare(V100, to) <= 0 && Compare(to, V110) < 0)
    ensures PathBetween(from, to).Ok? ==>
              && PathBetween(from, to).value.steps == (if Compare(from, to) == 0 then 0 else 1)
              && (Compare(from, to) < 0 ==> PathBetween(from, to).value.up)
              && (Compare(from, to) > 0 ==> !PathBetween(from, to).value.up)
    ensures var v10: Version := [Digits(1), Digits(0)];
            Normalize(Some(v10)) == v10 && PathBetween(v10, V110) == Err(NoStep(v10))
  {
    StepVersions();
    CompareIsLexicographic(from, to);
    CompareFlips(from, to);
    CompareFlips(to, V110);
    CompareFlips(from, from);
    if Compare(from, to) < 0 {
      UpPathCases(from, to);
    } else if Compare(from, to) > 0 {
      DownPathCases(from, to);
    }
    var v10: Version := [Digits(1), Digits(0)];
    CompareIsLexicographic(v10, V110);
    assert SmallerAt(v10, V110, 1);
    UpPathCases(v10, V110);
  }

  // ---------------------------------------------------------------------------
  // Up
  // ---------------------------------------------------------------------------

  /** Templates that bring every role file and some documentation. */
  ghost predicate Complete(entries: seq<Entry>) {
    && (forall k: Kind :: Latest(entries, KindYaml(k)).Some?)
    && (exists name :: Latest(entries, Doc(name)).Some?)
  }

  lemma UpHasDocs(d: Dir, entries: seq<Entry>)
    requires Complete(entries)
    ensures HasDocs(Up(d, Some(entries), false).files)
  {
    var name :| Latest(entries, Doc(name)).Some?;
    UpGet(d, entries, Vendor(Doc(name)));
    assert Vendor(Doc(name)) in Up(d, Some(entries), false).files;
  }

  lemma UpSettles(d: Dir, entries: seq<Entry>)
    requires Complete(entries)
    ensures Installed(Up(d, Some(entries), false).files) == Some(V110)
    ensures !NeedsMigrate(Up(d, Some(entries), false).files, V110)
  {
    var files := Up(d, Some(entries), false).files;
    StepVersions();
    UpGet(d, entries, Vendor(Manifest));
    forall k: Kind
      ensures Vendor(KindYaml(k)) in files && Flat(k) !in files
    {
      UpGet(d, entries, Vendor(KindYaml(k)));
      UpGet(d, entries, Flat(k));
    }
  }

  /** When a migration to 1.1.0 applies the up step, and that nothing else happens then. */
  ghost predicate AppliesUp(files: Files) {
    Normalize(Installed(files)) == V100 || (Normalize(Installed(files)) == V110 && NeedsMigrate(files, V110))
  }

  lemma MigrateUpIsUp(files: Files, entries: seq<Entry>)
    requires Complete(entries) && AppliesUp(files)
    ensures Migrate(files, Some(entries), V110, false) == Ok(Up(Dir(files, []), Some(entries), false))
  {
    StepVersions();
    ReachableTargets(V100, V110);
    UpHasDocs(Dir(files, []), entries);
    var plan := Plan(true, 1);
    assert Repeat(Dir(files, []), plan.(steps := 0), Some(entries), false) == Dir(files, []);
    assert Repeat(Dir(files, []), plan, Some(entries), false) == Up(Dir(files, []), Some(entries), false);
  }

  /**
   * A directory stamped 1.1.0 is left alone exactly when every role has its vendor file and flat files
   * are not all there is; otherwise the whole up step is applied again.
   */
  lemma StampedIsRepairedIff(files: Files, entries: seq<Entry>)
    requires Complete(entries) && Installed(files) == Some(V110)
    ensures Migrate(files, Some(entries), V110, false) ==
            if (forall k: Kind :: Vendor(KindYaml(k)) in files)
               && ((exists k: Kind :: Flat(k) in files) ==> exists k: Kind :: Extend(k) in files)
            then Ok(Dir(files, []))
            else Ok(Up(Dir(files, []), Some(entries), false))
  {
    StepVersions();
    if NeedsMigrate(files, V110) {
      MigrateUpIsUp(files, entries);
    }
  }

  /** A directory without a version, or with an empty one, or of any version 1.0.x, gets the up step. */
  lemma OldOrUnstampedIsMigrated(files: Files, entries: seq<Entry>)
    requires Complete(entries)
    requires Installed(files).None? || Installed(files) == Some([Odd("", 0)])
             || (|Installed(files).value| >= 3
                 && Installed(files).value[0] == Digits(1) && Installed(files).value[1] == Digits(0))
    ensures Migrate(files, Some(entries), V110, false) == Ok(Up(Dir(files, []), Some(entries), false))
  {
    var v := Installed(files);
    if v.Some? && |v.value| >= 3 {
      assert v.value[..2] == [Digits(1), Digits(0)] && V100[..2] == [Digits(1), Digits(0)];
    }
    MigrateUpIsUp(files, entries);
  }

  /**
   * Migrating to 1.1.0 with complete templates, from any directory: it fails exactly when the
   * installed version is neither 1.0.0 nor equal to 1.1.0; otherwise, unless the version is some
   * other spelling of 1.1.0, nothing is left to migrate and doing it again changes nothing.
   */
  lemma MigrateUpIsIdempotent(files: Files, entries: seq<Entry>)
    requires Complete(entries)
    ensures var from, r := Normalize(Installed(files)), Migrate(files, Some(entries), V110, false);
            && (r.Err? <==> from != V100 && Compare(from, V110) != 0)
            && (r.Ok? && (from == V100 || from == V110) ==>
                  && !NeedsMigrate(r.value.files, V110)
                  && Migrate(r.value.files, Some(entries), V110, false) == Ok(Dir(r.value.files, [])))
  {
    var from := Normalize(Installed(files));
    StepVersions();
    ReachableTargets(from, V110);
    CompareIsLexicographic(from, V110);
    if AppliesUp(files) {
      MigrateUpIsUp(files, entries);
      UpSettles(Dir(files, []), entries);
    }
  }

  /** Another spelling of 1.1.0 is taken for up to date even when files are missing. */
  lemma OtherSpellingIsNeverRepaired(files: Files, entries: seq<Entry>)
    requires var v := Normalize(Installed(files)); v != V110 && Compare(v, V110) == 0
    ensures Migrate(files, Some(entries), V110, false) == Ok(Dir(files, []))
  {
    StepVersions();
    ReachableTargets(Normalize(Installed(files)), V110);
    CompareFlips(Normalize(Installed(files)), V110);
  }

  /** A flat file without an extend file survives the step: as the extend, or because the vendor says the same. */
  lemma UpKeepsCustomisations(files: Files, entries: seq<Entry>, k: Kind)
    requires Flat(k) in files && Extend(k) !in files
    ensures var up := Up(Dir(files, []), Some(entries), false).files;
            && Extend(k) in up && Archive(k) in up && Flat(k) !in up
            && up[Archive(k)] == files[Flat(k)]
            && (Parse(up[Extend(k)]) == RoleOf(Some(files[Flat(k)]))
                || RoleOf(Get(up, Vendor(KindYaml(k)))) == RoleOf(Some(files[Flat(k)])))
  {
    UpGet(Dir(files, []), entries, Extend(k));
    UpGet(Dir(files, []), entries, Archive(k));
    UpGet(Dir(files, []), entries, Flat(k));
    UpGet(Dir(files, []), entries, Vendor(KindYaml(k)));
  }

  // ---------------------------------------------------------------------------
  // Up, down, up
  // ---------------------------------------------------------------------------

  lemma MigrateDownIsDown(files: Files, template: Template)
    requires Normalize(Installed(files)) == V110
    ensures Migrate(files, template, V100, false) == Ok(Down(Dir(files, []), false))
  {
    StepVersions();
    ReachableTargets(V110, V100);
    var plan := Plan(false, 1);
    assert Repeat(Dir(files, []), plan.(steps := 0), template, false) == Dir(files, []);
    assert Repeat(Dir(files, []), plan, template, false) == Down(Dir(files, []), false);
  }

  lemma UpAgainGet(d1: Dir, d2: Dir, d3: Dir, entries: seq<Entry>, d0: Dir, p: Path)
    requires Complete(entries)
    requires d1.files == Up(d0, Some(entries), false).files
    requires d2.files == Down(d1, false).files && d3.files == Up(d2, Some(entries), false).files
    ensures Get(d3.files, p)
         == if p.Archive? then Some(Flattened(Get(d1.files, Vendor(KindYaml(p.kind))), Get(d1.files, Extend(p.kind))))
            else Get(d1.files, p)
  {
    UpGet(d2, entries, p);
    DownGet(d1, p);
    UpGet(d0, entries, p);
    if p.Archive? || p.Extend? {
      DownGet(d1, Flat(p.kind));
      DownGet(d1, Vendor(KindYaml(p.kind)));
      UpGet(d0, entries, Vendor(KindYaml(p.kind)));
    }
  }

  /**
   * Up, down and up again leaves every vendor, extend and manifest file as the first up left it
   * and no flat file; only the archive changes: whatever it held, it now holds the flattened
   * vendor + extend.
   */
  lemma UpDownUp(files: Files, entries: seq<Entry>, p: Path)
    requires Complete(entries) && AppliesUp(files)
    ensures var one := Migrate(files, Some(entries), V110, false);
            one.Ok? && var two := Migrate(one.value.files, Some(entries), V100, false);
            two.Ok? && var three := Migrate(two.value.files, Some(entries), V110, false);
            three.Ok? &&
            Get(three.value.files, p)
              == (if p.Archive?
                  then Some(Flattened(Get(one.value.files, Vendor(KindYaml(p.kind))),
                                      Get(one.value.files, Extend(p.kind))))
                  else Get(one.value.files, p))
  {
    MigrateUpIsUp(files, entries);
    var one := Up(Dir(files, []), Some(entries), false);
    UpSettles(Dir(files, []), entries);
    StepVersions();
    MigrateDownIsDown(one.files, Some(entries));
    var two := Down(Dir(one.files, []), false);
    DownGet(Dir(one.files, []), Vendor(Manifest));
    assert Installed(two.files) == Some(V100);
    MigrateUpIsUp(two.files, entries);
    var three := Up(Dir(two.files, []), Some(entries), false);
    UpAgainGet(Dir(one.files, []), Dir(two.files, []), three, entries, Dir(files, []), p);
  }

  // ---------------------------------------------------------------------------
  // Extend files belong to the user
  // ---------------------------------------------------------------------------

  ghost predicate KeepsExtends(files: Files, files': Files) {
    forall k: Kind :: Extend(k) in files ==> Extend(k) in files' && files'[Extend(k)] == files[Extend(k)]
  }

  lemma {:induction false} SyncKeepsExtends(d: Dir, entries: seq<Entry>, dry: bool)
    ensures KeepsExtends(d.files, SyncEntries(d, entries, dry).files)
  {
    if entries != [] {
      SyncKeepsExtends(d, entries[..|entries| - 1], dry);
    }
  }

  lemma {:induction false} PromoteKeepsExtends(d: Dir, n: nat, dry: bool)
    requires n <= |KINDS|
    ensures KeepsExtends(d.files, Promote(d, n, dry).files)
    decreases n
  {
    if n > 0 {
      PromoteKeepsExtends(d, n - 1, dry);
    }
  }

  lemma {:induction false} ArchiveKeepsExtends(d: Dir, n: nat, dry: bool)
    requires n <= |KINDS|
    ensures KeepsExtends(d.files, ArchiveFlats(d, n, dry).files)
    decreases n
  {
    if n > 0 {
      ArchiveKeepsExtends(d, n - 1, dry);
    }
  }

  lemma {:induction false} FlattenKeepsExtends(d: Dir, n: nat, dry: bool)
    requires n <= |KINDS|
    ensures KeepsExtends(d.files, Flatten(d, n, dry).files)
    decreases n
  {
    if n > 0 {
      FlattenKeepsExtends(d, n - 1, dry);
    }
  }

  lemma UpKeepsExtends(d: Dir, template: Template, dry: bool)
    ensures KeepsExtends(d.files, Sync(d, template, dry).files)
    ensures KeepsExtends(d.files, Up(d, template, dry).files)
  {
    if template.Some? {
      SyncKeepsExtends(d, template.value, dry);
    }
    var synced := Sync(d, template, dry);
    PromoteKeepsExtends(synced, |KINDS|, dry);
    ArchiveKeepsExtends(Promote(synced, |KINDS|, dry), |KINDS|, dry);
  }

  lemma {:induction false} RepeatKeepsExtends(d: Dir, plan: Plan, template: Template, dry: bool)
    ensures KeepsExtends(d.files, Repeat(d, plan, template, dry).files)
    decreases plan.steps
  {
    if plan.steps > 0 {
      var less := plan.(steps := plan.steps - 1);
      RepeatKeepsExtends(d, less, template, dry);
      UpKeepsExtends(Repeat(d, less, template, dry), template, dry);
      FlattenKeepsExtends(Repeat(d, less, template, dry), |KINDS|, dry);
    }
  }

  datatype Request = Request(template: Template, target: Version, dry: bool)

  /** Any requests one after the other; a failing one changes nothing. */
  function MigrateAll(files: Files, requests: seq<Request>): Files {
    if requests == [] then files
    else
      var before := MigrateAll(files, requests[..|requests| - 1]);
      var q := requests[|requests| - 1];
      match Migrate(before, q.template, q.target, q.dry) case Ok(d) => d.files case Err(_) => before
  }

  lemma MigrateKeepsExtends(files: Files, q: Request)
    requires Migrate(files, q.template, q.target, q.dry).Ok?
    ensures KeepsExtends(files, Migrate(files, q.template, q.target, q.dry).value.files)
  {
    var to, from := Normalize(Some(q.target)), Normalize(Installed(files));
    var plan := if from == to then Plan(true, if to == V110 then 1 else 0)
                else match PathBetween(from, to) case Ok(p) => p case Err(_) => Plan(true, 0);
    var d := Repeat(Dir(files, []), plan, q.template, q.dry);
    RepeatKeepsExtends(Dir(files, []), plan, q.template, q.dry);
    UpKeepsExtends(d, q.template, q.dry);
  }

  /** No sequence of migrations, up or down, with whatever templates, changes an existing extend file. */
  lemma {:induction false} ExtendsNeverChange(files: Files, requests: seq<Request>)
    ensures KeepsExtends(files, MigrateAll(files, requests))
  {
    if requests != [] {
      var before := MigrateAll(files, requests[..|requests| - 1]);
      var q := requests[|requests| - 1];
      ExtendsNeverChange(files, requests[..|requests| - 1]);
      if Migrate(before, q.template, q.target, q.dry).Ok? {
        MigrateKeepsExtends(before, q);
      }
    }
  }

  // ---------------------------------------------------------------------------
  // Dry runs
  // ---------------------------------------------------------------------------

  lemma {:induction false} DrySync(d: Dir, entries: seq<Entry>)
    ensures SyncEntries(d, entries, true).files == d.files
    ensures SyncEntries(d, entries, true).touched == SyncEntries(d, entries, false).touched
    ensures forall p: Path :: !p.Vendor? ==> Get(SyncEntries(d, entries, false).files, p) == Get(d.files, p)
  {
    if entries != [] {
      DrySync(d, entries[..|entries| - 1]);
    }
  }

  /** Two directories that promotion and archiving cannot tell apart, whatever their vendor files. */
  ghost predicate Alike(a: Dir, b: Dir) {
    && a.touched == b.touched
    && (forall k: Kind :: Extend(k) in a.files <==> Extend(k) in b.files)
    && (forall k: Kind :: Flat(k) in a.files <==> Flat(k) in b.files)
  }

  lemma {:induction false} DryPromote(a: Dir, b: Dir, n: nat)
    requires n <= |KINDS| && Alike(a, b)
    ensures Promote(a, n, true).files == a.files
    ensures Promote(a, n, true).touched == Promote(b, n, false).touched
    ensures forall k: Kind :: Extend(k) in Promote(b, n, false).files <==> Extend(k) in b.files || IndexOf(k) < n
    ensures forall k: Kind :: Flat(k) in Promote(b, n, false).files <==> Flat(k) in b.files
    decreases n
  {
    if n > 0 {
      assert IndexOf(KINDS[n - 1]) == n - 1;
      DryPromote(a, b, n - 1);
    }
  }

  lemma {:induction false} DryArchive(a: Dir, b: Dir, n: nat)
    requires n <= |KINDS| && a.touched == b.touched
    requires forall k: Kind :: Flat(k) in a.files <==> Flat(k) in b.files
    ensures ArchiveFlats(a, n, true).files == a.files
    ensures ArchiveFlats(a, n, true).touched == ArchiveFlats(b, n, false).touched
    ensures forall k: Kind :: Flat(k) in ArchiveFlats(b, n, false).files <==> Flat(k) in b.files && IndexOf(k) >= n
    decreases n
  {
    if n > 0 {
      assert IndexOf(KINDS[n - 1]) == n - 1;
      DryArchive(a, b, n - 1);
    }
  }

  lemma {:induction false} DryFlatten(d: Dir, n: nat)
    requires n <= |KINDS|
    ensures Flatten(d, n, true).files == d.files
    ensures Flatten(d, n, true).touched == Flatten(d, n, false).touched
    ensures forall p: Path :: !p.Flat? ==> Get(Flatten(d, n, false).files, p) == Get(d.files, p)
    decreases n
  {
    if n > 0 {
      DryFlatten(d, n - 1);
    }
  }

  lemma DryUp(d: Dir, template: Template)
    ensures Up(d, template, true).files == d.files
    ensures Up(d, template, true).touched == Up(d, template, false).touched
  {
    var a, b := Sync(d, template, true), Sync(d, template, false);
    if template.Some? {
      DrySync(d, template.value);
      forall k: Kind
        ensures Extend(k) in a.files <==> Extend(k) in b.files
        ensures Flat(k) in a.files <==> Flat(k) in b.files
      {
        assert Get(b.files, Extend(k)) == Get(d.files, Extend(k));
        assert Get(b.files, Flat(k)) == Get(d.files, Flat(k));
      }
    }
    DryPromote(a, b, |KINDS|);
    DryArchive(Promote(a, |KINDS|, true), Promote(b, |KINDS|, false), |KINDS|);
  }

  /** The steps of a plan, before the check for documents. */
  function Planned(files: Files, target: Version): Plan {
    var to, from := Normalize(Some(target)), Normalize(Installed(files));
    if from == to then Plan(true, if to == V110 && NeedsMigrate(files, to) then 1 else 0)
    else match PathBetween(from, to) case Ok(p) => p case Err(_) => Plan(true, 0)
  }

  lemma PlannedAtMostOne(files: Files, target: Version)
    ensures Planned(files, target).steps <= 1
  {
    ReachableTargets(Normalize(Installed(files)), Normalize(Some(target)));
  }

  lemma DryRepeat(d: Dir, plan: Plan, template: Template)
    requires plan.steps <= 1
    ensures Repeat(d, plan, template, true).files == d.files
    ensures Repeat(d, plan, template, true).touched == Repeat(d, plan, template, false).touched
  {
    if plan.steps == 1 {
      assert Repeat(d, plan.(steps := 0), template, true) == d;
      assert Repeat(d, plan.(steps := 0), template, false) == d;
      DryUp(d, template);
      DryFlatten(d, |KINDS|);
    }
  }

  function Copied(template: Template): seq<Path> {
    match template
    case None => []
    case Some(entries) => seq(|entries|, i requires 0 <= i < |entries| => Vendor(entries[i].name))
  }

  lemma {:induction false} SyncTouches(d: Dir, template: Template, dry: bool)
    ensures Sync(d, template, dry).touched == d.touched + Copied(template)
    decreases if template.Some? then |template.value| else 0
  {
    if template.Some? && template.value != [] {
      var init, e := template.value[..|template.value| - 1], template.value[|template.value| - 1];
      SyncTouches(d, Some(init), dry);
      assert Copied(template) == Copied(Some(init)) + [Vendor(e.name)];
    } else {
      assert Copied(template) == [];
    }
  }

  /** Whether the real run finds no documents after its steps and copies the templates again. */
  predicate CopiesAgain(files: Files, template: Template, target: Version) {
    var to, from := Normalize(Some(target)), Normalize(Installed(files));
    && !(from == to && !NeedsMigrate(files, to))
    && Planned(files, target).up
    && !HasDocs(Repeat(Dir(files, []), Planned(files, target), template, false).files)
  }

  /**
   * A dry run changes no file, fails exactly when the real run fails, and lists exactly the
   * paths the real run writes, but for the second copy of the templates when documents are missing.
   */
  lemma DryRunForetells(files: Files, template: Template, target: Version)
    ensures var sham, done := Migrate(files, template, target, true), Migrate(files, template, target, false);
            && (sham.Ok? <==> done.Ok?)
            && (sham.Ok? ==>
                  && sham.value.files == files
                  && done.value.touched
                     == sham.value.touched + if CopiesAgain(files, template, target) then Copied(template) else [])
  {
    PlannedAtMostOne(files, target);
    DryRepeat(Dir(files, []), Planned(files, target), template);
    SyncTouches(Repeat(Dir(files, []), Planned(files, target), template, false), template, false);
  }

  // ---------------------------------------------------------------------------
  // What a run reports
  // ---------------------------------------------------------------------------

  /** Every path that changed is listed, a flat file that went by its archive; and every listed path is there. */
  ghost predicate Tells(before: Files, d: Dir) {
    && (forall p: Path :: Get(d.files, p) != Get(before, p) ==>
          p in d.touched || (p.Flat? && Archive(p.kind) in d.touched))
    && (forall p: Path :: p in d.touched ==> p in d.files || p.Flat?)
  }

  lemma WriteTells(before: Files, d: Dir, p: Path, f: File)
    requires Tells(before, d)
    ensures Tells(before, Write(d, p, f, false))
  {
    var d' := Write(d, p, f, false);
    forall q: Path | Get(d'.files, q) != Get(before, q)
      ensures q in d'.touched || (q.Flat? && Archive(q.kind) in d'.touched)
    {
      assert q != p ==> Get(d'.files, q) == Get(d.files, q);
    }
  }

  lemma ArchiveOneTells(before: Files, d: Dir, k: Kind)
    requires Tells(before, d)
    ensures Tells(before, ArchiveOne(d, k, false))
  {
    var d' := ArchiveOne(d, k, false);
    if Flat(k) in d.files {
      assert Archive(k) in d'.touched;
      forall q: Path | Get(d'.files, q) != Get(before, q)
        ensures q in d'.touched || (q.Flat? && Archive(q.kind) in d'.touched)
      {
        assert q != Flat(k) && q != Archive(k) ==> Get(d'.files, q) == Get(d.files, q);
      }
    }
  }

  lemma {:induction false} SyncTells(before: Files, d: Dir, entries: seq<Entry>)
    requires Tells(before, d)
    ensures Tells(before, SyncEntries(d, entries, false))
  {
    if entries != [] {
      var init, e := entries[..|entries| - 1], entries[|entries| - 1];
      SyncTells(before, d, init);
      WriteTells(before, SyncEntries(d, init, false), Vendor(e.name), e.file);
    }
  }

  lemma {:induction false} PromoteTells(before: Files, d: Dir, n: nat)
    requires Tells(before, d) && n <= |KINDS|
    ensures Tells(before, Promote(d, n, false))
    decreases n
  {
    if n > 0 {
      var init, k := Promote(d, n - 1, false), KINDS[n - 1];
      PromoteTells(before, d, n - 1);
      if Extend(k) !in init.files {
        WriteTells(before, init, Extend(k),
                   NewExtend(Get(init.files, Flat(k)), Get(init.files, Vendor(KindYaml(k))), k));
      }
    }
  }

  lemma {:induction false} ArchiveTells(before: Files, d: Dir, n: nat)
    requires Tells(before, d) && n <= |KINDS|
    ensures Tells(before, ArchiveFlats(d, n, false))
    decreases n
  {
    if n > 0 {
      ArchiveTells(before, d, n - 1);
      ArchiveOneTells(before, ArchiveFlats(d, n - 1, false), KINDS[n - 1]);
    }
  }

  lemma {:induction false} FlattenTells(before: Files, d: Dir, n: nat)
    requires Tells(before, d) && n <= |KINDS|
    ensures Tells(before, Flatten(d, n, false))
    decreases n
  {
    if n > 0 {
      var init, k := Flatten(d, n - 1, false), KINDS[n - 1];
      FlattenTells(before, d, n - 1);
      if Vendor(KindYaml(k)) in init.files || Extend(k) in init.files {
        WriteTells(before, init, Flat(k),
                   Flattened(Get(init.files, Vendor(KindYaml(k))), Get(init.files, Extend(k))));
      }
    }
  }

  lemma StepTells(before: Files, d: Dir, up: bool, template: Template)
    requires Tells(before, d)
    ensures Tells(before, if up then Up(d, template, false) else Down(d, false))
    ensures Tells(before, Sync(d, template, false))
  {
    if template.Some? {
      SyncTells(before, d, template.value);
    }
    var synced := Sync(d, template, false);
    if up {
      PromoteTells(before, synced, |KINDS|);
      var promoted := Promote(synced, |KINDS|, false);
      ArchiveTells(before, promoted, |KINDS|);
      WriteTells(before, ArchiveFlats(promoted, |KINDS|, false), Vendor(Manifest), Stamp(Some(V110)));
    } else {
      FlattenTells(before, d, |KINDS|);
      WriteTells(before, Flatten(d, |KINDS|, false), Vendor(Manifest), Stamp(Some(V100)));
    }
  }

  lemma {:induction false} RepeatTells(before: Files, d: Dir, plan: Plan, template: Template)
    requires Tells(before, d)
    ensures Tells(before, Repeat(d, plan, template, false))
    decreases plan.steps
  {
    if plan.steps > 0 {
      RepeatTells(before, d, plan.(steps := plan.steps - 1), template);
      StepTells(before, Repeat(d, plan.(steps := plan.steps - 1), template, false), plan.up, template);
    }
  }

  /**
   * The report of a run is complete and true: every path it changed is listed, a flat file that was
   * moved away under its archive, and whatever is listed is there afterwards.
   */
  lemma MigrateTells(files: Files, template: Template, target: Version)
    requires Migrate(files, template, target, false).Ok?
    ensures Tells(files, Migrate(files, template, target, false).value)
  {
    var start, plan := Dir(files, []), Planned(files, target);
    assert Tells(files, start);
    RepeatTells(files, start, plan, template);
    StepTells(files, Repeat(start, plan, template, false), true, template);
  }
}
