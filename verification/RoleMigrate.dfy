/**
 * Role-pack migration between the flat 1.0 layout and the vendor + extend layout 1.1, over an
 * abstract map from path to file. Directories exist when something is in them.
 */
module RoleMigrate {
  import opened Basics
  import opened PackVersion

  datatype Kind = Common | Manager | Secretary | Worker | Mini

  const KINDS := [Common, Manager, Secretary, Worker, Mini]

  function IndexOf(k: Kind): (i: nat)
    ensures i < |KINDS| && KINDS[i] == k
    ensures forall j :: 0 <= j < |KINDS| && KINDS[j] == k ==> j == i
  {
    match k
    case Common => 0
    case Manager => 1
    case Secretary => 2
    case Worker => 3
    case Mini => 4
  }

  datatype VendorName = KindYaml(kind: Kind) | Doc(name: string) | Manifest | OtherFile(name: string)

  datatype Path = Flat(kind: Kind) | Extend(kind: Kind) | Archive(kind: Kind) | Vendor(name: VendorName)

  datatype Field = Name(name: string) | Index(i: nat)

  datatype Value = Items(items: seq<string>) | Object(fields: map<Field, string>) | Scalar(text: string)

  type Body = map<string, Value>

  /** A role file, an extend stub (all comments), the pack manifest, or anything else. */
  datatype File = Yaml(body: Body) | Stub(kind: Kind) | Stamp(version: Option<Version>) | Text(text: string)

  type Files = map<Path, File>

  function Get(files: Files, p: Path): Option<File> {
    if p in files then Some(files[p]) else None
  }

  function Parse(f: File): Body {
    if f.Yaml? then f.body else map[]
  }

  const META_KEYS := {"locked", "role_pack", "schema_version"}

  function StripMeta(body: Body): Body {
    map k | k in body && k !in META_KEYS :: body[k]
  }

  /** The role as an old or new loader reads it, engine keys removed. */
  function RoleOf(f: Option<File>): Body {
    match f
    case Some(file) => StripMeta(Parse(file))
    case None => map[]
  }

  // ---------------------------------------------------------------------------
  // The pieces of a step; `touched` lists every path written, also in a dry run
  // ---------------------------------------------------------------------------

  datatype Dir = Dir(files: Files, touched: seq<Path>)

  function Write(d: Dir, p: Path, f: File, dry: bool): Dir {
    Dir(if dry then d.files else d.files[p := f], d.touched + [p])
  }

  datatype Entry = Entry(name: VendorName, file: File)

  /** The engine's templates in directory order; None when the directory is missing. */
  type Template = Option<seq<Entry>>

  function SyncEntries(d: Dir, entries: seq<Entry>, dry: bool): Dir {
    if entries == [] then d
    else
      var e := entries[|entries| - 1];
      Write(SyncEntries(d, entries[..|entries| - 1], dry), Vendor(e.name), e.file, dry)
  }

  function Sync(d: Dir, template: Template, dry: bool): Dir {
    match template
    case Some(entries) => SyncEntries(d, entries, dry)
    case None => d
  }

  /** What a missing extend file starts as, from the flat file and the vendor file beside it. */
  function NewExtend(flat: Option<File>, vendor: Option<File>, k: Kind): File {
    if flat.None? then Stub(k)
    else if vendor.None? then Yaml(RoleOf(flat))
    else if RoleOf(flat) == RoleOf(vendor) then Stub(k)
    else Yaml(RoleOf(flat))
  }

  function PromoteOne(d: Dir, k: Kind, dry: bool): Dir {
    if Extend(k) in d.files then d
    else Write(d, Extend(k), NewExtend(Get(d.files, Flat(k)), Get(d.files, Vendor(KindYaml(k))), k), dry)
  }

  /** The first n kinds. */
  function Promote(d: Dir, n: nat, dry: bool): Dir
    requires n <= |KINDS|
  {
    if n == 0 then d else PromoteOne(Promote(d, n - 1, dry), KINDS[n - 1], dry)
  }

  function ArchiveOne(d: Dir, k: Kind, dry: bool): Dir {
    if Flat(k) !in d.files then d
    else Dir(if dry then d.files else (d.files - {Flat(k)})[Archive(k) := d.files[Flat(k)]], d.touched + [Archive(k)])
  }

  function ArchiveFlats(d: Dir, n: nat, dry: bool): Dir
    requires n <= |KINDS|
  {
    if n == 0 then d else ArchiveOne(ArchiveFlats(d, n - 1, dry), KINDS[n - 1], dry)
  }

  function IndexFields(items: seq<string>): map<Field, string> {
    map i: nat | i < |items| :: Index(i) := items[i]
  }

  function MergeValue(was: Value, add: Value): Value {
    if was.Items? && add.Items? then Items(was.items + add.items)
    else if was.Items? && add.Object? then Object(IndexFields(was.items) + add.fields)
    else if was.Object? && add.Object? then Object(was.fields + add.fields)
    else add
  }

  function MergeBody(vendor: Body, ext: Body): Body {
    map k | k in vendor.Keys + ext.Keys ::
      if k !in ext then vendor[k] else if k in vendor then MergeValue(vendor[k], ext[k]) else ext[k]
  }

  function Flattened(vendor: Option<File>, extend: Option<File>): File {
    Yaml(MergeBody(RoleOf(vendor), RoleOf(extend)))
  }

  function FlattenOne(d: Dir, k: Kind, dry: bool): Dir {
    if Vendor(KindYaml(k)) !in d.files && Extend(k) !in d.files then d
    else Write(d, Flat(k), Flattened(Get(d.files, Vendor(KindYaml(k))), Get(d.files, Extend(k))), dry)
  }

  function Flatten(d: Dir, n: nat, dry: bool): Dir
    requires n <= |KINDS|
  {
    if n == 0 then d else FlattenOne(Flatten(d, n - 1, dry), KINDS[n - 1], dry)
  }

  const V100: Version := [Digits(1), Digits(0), Digits(0)]
  const V110: Version := [Digits(1), Digits(1), Digits(0)]

  function Up(d: Dir, template: Template, dry: bool): Dir {
    Write(ArchiveFlats(Promote(Sync(d, template, dry), |KINDS|, dry), |KINDS|, dry),
          Vendor(Manifest), Stamp(Some(V110)), dry)
  }

  function Down(d: Dir, dry: bool): Dir {
    Write(Flatten(d, |KINDS|, dry), Vendor(Manifest), Stamp(Some(V100)), dry)
  }

  // ---------------------------------------------------------------------------
  // Versions, paths and the whole run
  // ---------------------------------------------------------------------------

  const EMPTY_TEXT: Version := [Odd("", 0)]

  function Installed(files: Files): Option<Version> {
    match Get(files, Vendor(Manifest))
    case Some(Stamp(v)) => v
    case _ => None
  }

  /** Anything that starts with "1.0." counts as 1.0.0, and so does no version at all. */
  function Normalize(v: Option<Version>): Version {
    if v.None? || v.value == EMPTY_TEXT then V100
    else if |v.value| >= 3 && v.value[..2] == V100[..2] then V100
    else v.value
  }

  predicate NeedsMigrate(files: Files, target: Version) {
    var v := Installed(files);
    || v.None? || v.value == EMPTY_TEXT
    || Compare(v.value, target) != 0
    || (exists k: Kind :: Vendor(KindYaml(k)) !in files)
    || ((exists k: Kind :: Flat(k) in files) && (forall k: Kind :: Extend(k) !in files))
  }

  datatype NoPath = NoStep(at: Version) | TooLong

  /** Steps still to walk upward from `cur`; the table holds the one step 1.0.0 to 1.1.0. */
  function UpPath(cur: Version, to: Version, walked: nat): Result<nat, NoPath>
    requires walked <= 20
    decreases 20 - walked
  {
    if Compare(cur, to) >= 0 then Ok(walked)
    else if cur != V100 then Err(NoStep(cur))
    else if walked + 1 > 20 then Err(TooLong)
    else UpPath(V110, to, walked + 1)
  }

  function DownPath(cur: Version, to: Version, walked: nat): Result<nat, NoPath>
    requires walked <= 20
    decreases 20 - walked
  {
    if Compare(cur, to) <= 0 then Ok(walked)
    else if cur != V110 then Err(NoStep(cur))
    else if walked + 1 > 20 then Err(TooLong)
    else DownPath(V100, to, walked + 1)
  }

  datatype Plan = Plan(up: bool, steps: nat)

  function PathBetween(from: Version, to: Version): Result<Plan, NoPath> {
    if from == to then Ok(Plan(true, 0))
    else if Compare(from, to) < 0 then
      match UpPath(from, to, 0) case Ok(n) => Ok(Plan(true, n)) case Err(e) => Err(e)
    else
      match DownPath(from, to, 0) case Ok(n) => Ok(Plan(false, n)) case Err(e) => Err(e)
  }

  function Repeat(d: Dir, plan: Plan, template: Template, dry: bool): Dir
    decreases plan.steps
  {
    if plan.steps == 0 then d
    else
      var before := Repeat(d, plan.(steps := plan.steps - 1), template, dry);
      if plan.up then Up(before, template, dry) else Down(before, dry)
  }

  predicate HasDocs(files: Files) {
    exists p :: p in files && p.Vendor? && p.name.Doc?
  }

  function EnsureDocs(d: Dir, up: bool, template: Template, dry: bool): Dir {
    if up && !dry && !HasDocs(d.files) then Sync(d, template, dry) else d
  }

  /** One migration to `target`; an unreachable target changes nothing. */
  function Migrate(files: Files, template: Template, target: Version, dry: bool): Result<Dir, NoPath> {
    var to := Normalize(Some(target));
    var from := Normalize(Installed(files));
    if from == to && !NeedsMigrate(files, to) then Ok(Dir(files, []))
    else
      var plan := if from == to then Ok(Plan(true, if to == V110 then 1 else 0)) else PathBetween(from, to);
      match plan
      case Err(e) => Err(e)
      case Ok(p) => Ok(EnsureDocs(Repeat(Dir(files, []), p, template, dry), p.up, template, dry))
  }
}
