/** Migration as the program runs it: loops that write, rename and stamp files in place. */
module RoleMigrator {
  import opened Basics
  import opened PackVersion
  import opened RoleMigrate

  class Migrator {
    const template: Template
    const dryRun: bool
    var files: Files
    var touched: seq<Path>

    function State(): Dir
      reads this
    {
      Dir(files, touched)
    }

    constructor (files: Files, template: Template, dryRun: bool)
      ensures State() == Dir(files, []) && this.template == template && this.dryRun == dryRun
    {
      this.files, this.template, this.dryRun, touched := files, template, dryRun, [];
    }

    method WriteFile(dest: Path, body: File)
      modifies this
      ensures State() == Write(old(State()), dest, body, dryRun)
    {
      if !dryRun {
        files := files[dest := body];
      }
      touched := touched + [dest];
    }

    method SyncVendorFromTemplate()
      modifies this
      ensures State() == Sync(old(State()), template, dryRun)
    {
      if template.None? {
        return;
      }
      var entries := template.value;
      for i := 0 to |entries|
        invariant State() == SyncEntries(old(State()), entries[..i], dryRun)
      {
        assert entries[..i + 1][..i] == entries[..i];
        WriteFile(Vendor(entries[i].name), entries[i].file);
      }
      assert entries[..|entries|] == entries;
    }

    method PromoteLegacyFlatToExtend()
      modifies this
      ensures State() == Promote(old(State()), |KINDS|, dryRun)
    {
      for i := 0 to |KINDS|
        invariant State() == Promote(old(State()), i, dryRun)
      {
        var kind := KINDS[i];
        var flat, vendor, extend := Flat(kind), Vendor(KindYaml(kind)), Extend(kind);
        if flat !in files {
          if extend !in files {
            WriteFile(extend, Stub(kind));
          }
          continue;
        }
        if extend in files {
          continue;
        }
        var flatRaw := StripMeta(Parse(files[flat]));
        if vendor !in files {
          WriteFile(extend, Yaml(flatRaw));
          continue;
        }
        if flatRaw == StripMeta(Parse(files[vendor])) {
          WriteFile(extend, Stub(kind));
          continue;
        }
        WriteFile(extend, Yaml(flatRaw));
      }
    }

    method ArchiveLegacyFlat()
      modifies this
      ensures State() == ArchiveFlats(old(State()), |KINDS|, dryRun)
    {
      for i := 0 to |KINDS|
        invariant State() == ArchiveFlats(old(State()), i, dryRun)
      {
        var flat, dest := Flat(KINDS[i]), Archive(KINDS[i]);
        if flat !in files {
          continue;
        }
        if dryRun {
          touched := touched + [dest];
          continue;
        }
        var body := files[flat];
        files := files - {flat};
        files := files[dest := body];
        touched := touched + [dest];
      }
    }

    method FlattenToLegacy()
      modifies this
      ensures State() == Flatten(old(State()), |KINDS|, dryRun)
    {
      for i := 0 to |KINDS|
        invariant State() == Flatten(old(State()), i, dryRun)
      {
        var kind := KINDS[i];
        var vendor, extend := Vendor(KindYaml(kind)), Extend(kind);
        if vendor !in files && extend !in files {
          continue;
        }
        var merged: Body := map[];
        if vendor in files {
          merged := StripMeta(Parse(files[vendor]));
        }
        if extend in files {
          merged := MergeInto(merged, StripMeta(Parse(files[extend])));
        } else {
          assert MergeBody(merged, map[]) == merged;
        }
        WriteFile(Flat(kind), Yaml(merged));
      }
    }

    method UpStep()
      modifies this
      ensures State() == Up(old(State()), template, dryRun)
    {
      SyncVendorFromTemplate();
      PromoteLegacyFlatToExtend();
      ArchiveLegacyFlat();
      WriteFile(Vendor(Manifest), Stamp(Some(V110)));
    }

    method DownStep()
      modifies this
      ensures State() == Down(old(State()), dryRun)
    {
      FlattenToLegacy();
      WriteFile(Vendor(Manifest), Stamp(Some(V100)));
    }

    /** `err` tells an unreachable target; then nothing has been written. */
    method RunRolePackMigrate(target: Version) returns (err: Option<NoPath>)
      requires touched == []
      modifies this
      ensures var r := Migrate(old(files), template, target, dryRun);
              if r.Ok? then err.None? && State() == r.value else err == Some(r.error) && State() == old(State())
    {
      var to := Normalize(Some(target));
      var from := Normalize(Installed(files));
      if from == to && !NeedsMigrate(files, to) {
        return None;
      }
      var plan: Plan;
      if from == to {
        plan := Plan(true, if to == V110 then 1 else 0);
      } else {
        var found := WalkPath(from, to);
        if found.Err? {
          return Some(found.error);
        }
        plan := found.value;
      }
      for i := 0 to plan.steps
        invariant State() == Repeat(old(State()), plan.(steps := i), template, dryRun)
      {
        if plan.up {
          UpStep();
        } else {
          DownStep();
        }
      }
      if plan.up && !dryRun {
        if !HasDocs(files) {
          SyncVendorFromTemplate();
        }
      }
      return None;
    }
  }

  /** The entry loop of the flattening merge: extend entries land on the vendor body one by one. */
  method MergeInto(vendor: Body, ext: Body) returns (merged: Body)
    ensures merged == MergeBody(vendor, ext)
  {
    merged := vendor;
    var keys := ext.Keys;
    while keys != {}
      invariant keys <= ext.Keys
      invariant merged.Keys == vendor.Keys + (ext.Keys - keys)
      invariant forall k :: k in merged ==>
                  merged[k] == if k !in ext || k in keys then vendor[k]
                               else if k in vendor then MergeValue(vendor[k], ext[k]) else ext[k]
      decreases keys
    {
      var k :| k in keys;
      keys := keys - {k};
      merged := merged[k := if k in merged then MergeValue(merged[k], ext[k]) else ext[k]];
    }
  }

  /** The walk along the step table, up or down. */
  method WalkPath(from: Version, to: Version) returns (r: Result<Plan, NoPath>)
    ensures r == PathBetween(from, to)
  {
    if from == to {
      return Ok(Plan(true, 0));
    }
    var cur, walked := from, 0;
    if Compare(from, to) < 0 {
      while Compare(cur, to) < 0
        invariant 0 <= walked <= 20 && UpPath(cur, to, walked) == UpPath(from, to, 0)
        decreases 20 - walked
      {
        if cur != V100 {
          return Err(NoStep(cur));
        }
        if walked + 1 > 20 {
          return Err(TooLong);
        }
        walked, cur := walked + 1, V110;
      }
      return Ok(Plan(true, walked));
    }
    while Compare(cur, to) > 0
      invariant 0 <= walked <= 20 && DownPath(cur, to, walked) == DownPath(from, to, 0)
      decreases 20 - walked
    {
      if cur != V110 {
        return Err(NoStep(cur));
      }
      if walked + 1 > 20 {
        return Err(TooLong);
      }
      walked, cur := walked + 1, V100;
    }
    return Ok(Plan(false, walked));
  }
}
