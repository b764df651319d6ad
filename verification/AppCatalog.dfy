/** The manifest and catalog checks, and the catalog that is built from a Packages index. */
module AppCatalog {
  import opened PyText
  import opened AppId

  datatype Result<+T> = Ok(value: T) | ManifestError

  // --- manifests and their checks ----------------------------------------------------------

  datatype EntryKind = EXEC | DESKTOP

  datatype AppEntry = AppEntry(kind: EntryKind, target: string, argv: seq<string>)

  datatype DepKind = STAGE_TAR | APT

  datatype RootfsDep = RootfsDep(kind: DepKind, ref: string, installSizeBytes: int)

  datatype DisplayMode = WINDOWED | FULLSCREEN

  datatype DisplaySpec = DisplaySpec(mode: DisplayMode, width: int, height: int)

  datatype AppManifest = AppManifest(
    appId: string, name: string, summary: string, entry: AppEntry, category: string, description: string,
    icon: string, rootfsDeps: seq<RootfsDep>, requiredPermissions: seq<string>, display: DisplaySpec,
    minRuntime: string, installSizeBytes: int)

  /** The closed vocabularies: categories with the fallback among them, and permissions. */
  datatype Vocabulary = Vocabulary(categories: set<string>, fallback: string, permissions: set<string>)

  predicate IsVocabulary(v: Vocabulary) {
    v.fallback in v.categories
  }

  /** An absolute path without a `..` component. */
  predicate IsTarget(path: string) {
    path != "" && path[0] == '/' && ".." !in Split(path, '/')
  }

  /** A bare file name that ends in `.tar`. */
  predicate IsStageTar(ref: string) {
    '/' !in ref && '\\' !in ref && EndsWith(ref, ".tar")
  }

  /** What RootfsDep accepts. */
  predicate DepIsValid(d: RootfsDep) {
    && d.ref != "" && d.installSizeBytes >= 0
    && (d.kind == STAGE_TAR ==> IsStageTar(d.ref))
    && (d.kind == APT ==> IsDebianName(d.ref))
  }

  /** What DisplaySpec accepts. */
  predicate DisplayIsValid(d: DisplaySpec) {
    d.width >= 0 && d.height >= 0
  }

  /** What AppEntry accepts: an absolute path without a `..` component; a desktop entry names a
      `.desktop` file and carries no arguments. */
  predicate EntryIsValid(e: AppEntry) {
    && IsTarget(e.target)
    && (e.kind == DESKTOP ==> EndsWith(e.target, ".desktop") && e.argv == [])
  }

  predicate IsNumber(s: string) {
    s != "" && AllDigits(s)
  }

  /** `^[0-9]+(\.[0-9]+){1,3}(-[A-Za-z0-9._]+)?$` */
  predicate IsVersion(s: string) {
    var cut := Split(s, '-');
    var core := Split(cut[0], '.');
    && 2 <= |core| <= 4 && (forall i :: 0 <= i < |core| ==> IsNumber(core[i]))
    && |cut| <= 2
    && (|cut| == 2 ==> cut[1] != "" && forall i :: 0 <= i < |cut[1]| ==> IsWord(cut[1][i]) || cut[1][i] == '.')
  }

  predicate PermissionsAreValid(allowed: set<string>, perms: seq<string>) {
    Distinct(perms) && forall i :: 0 <= i < |perms| ==> perms[i] in allowed
  }

  /** What AppManifest accepts of parts already built; IsAppId is the app_id expression (AppId.AppIdIff). */
  predicate ManifestIsValid(v: Vocabulary, m: AppManifest) {
    && IsAppId(m.appId)
    && Strip(m.name) != ""
    && Strip(m.summary) != ""
    && m.category in v.categories
    && (m.icon == "" || m.icon[0] == '/' || EndsWith(m.icon, ".desktop"))
    && PermissionsAreValid(v.permissions, m.requiredPermissions)
    && IsVersion(m.minRuntime)
    && m.installSizeBytes >= 0
  }

  method CheckPermissions(allowed: set<string>, perms: seq<string>) returns (ok: bool)
    ensures ok <==> PermissionsAreValid(allowed, perms)
  {
    var seen: set<string> := {};
    for i := 0 to |perms|
      invariant PermissionsAreValid(allowed, perms[..i])
      invariant seen == Elements(perms[..i])
    {
      TakeNext(perms, i);
      if perms[i] !in allowed || perms[i] in seen {
        return false;
      }
      ElementsAppend(perms[..i], perms[i]);
      seen := seen + {perms[i]};
    }
    TakeAll(perms);
    return true;
  }

  /** The manifest constructor: it keeps the fields or raises. */
  method NewManifest(v: Vocabulary, m: AppManifest) returns (r: Result<AppManifest>)
    ensures r == if ManifestIsValid(v, m) then Ok(m) else ManifestError
  {
    if !IsAppId(m.appId) || Strip(m.name) == "" || Strip(m.summary) == "" || m.category !in v.categories {
      return ManifestError;
    }
    if !(m.icon == "" || m.icon[0] == '/' || EndsWith(m.icon, ".desktop")) {
      return ManifestError;
    }
    var ok := CheckPermissions(v.permissions, m.requiredPermissions);
    if !ok || !IsVersion(m.minRuntime) || m.installSizeBytes < 0 {
      return ManifestError;
    }
    return Ok(m);
  }

  function Ids(apps: seq<AppManifest>): (ids: seq<string>)
    ensures |ids| == |apps|
    ensures forall i :: 0 <= i < |apps| ==> ids[i] == apps[i].appId
  {
    seq(|apps|, i requires 0 <= i < |apps| => apps[i].appId)
  }

  /** The catalog constructor: app_ids must be unique. */
  method NewCatalog(apps: seq<AppManifest>) returns (r: Result<seq<AppManifest>>)
    ensures r == if Distinct(Ids(apps)) then Ok(apps) else ManifestError
  {
    var ids := Ids(apps);
    var seen: set<string> := {};
    for i := 0 to |ids|
      invariant Distinct(ids[..i]) && seen == Elements(ids[..i])
    {
      TakeNext(ids, i);
      if ids[i] in seen {
        assert !Distinct(ids) by { RepeatIsNotDistinct(ids, i); }
        return ManifestError;
      }
      ElementsAppend(ids[..i], ids[i]);
      seen := seen + {ids[i]};
    }
    TakeAll(ids);
    return Ok(apps);
  }

  lemma {:induction false} RepeatIsNotDistinct<T>(s: seq<T>, i: nat)
    requires i < |s| && s[i] in s[..i]
    ensures !Distinct(s)
  {
    var k :| 0 <= k < i && s[..i][k] == s[i];
  }

  // --- package entries ---------------------------------------------------------------------

  datatype PackageEntry = PackageEntry(
    name: string, section: string, description: string, longDescription: string, installedSizeKib: int)

  /** The stanza fields that are read; a missing field reads as "". */
  datatype Stanza = Stanza(package: string, section: string, description: string, installedSize: string)

  /** A Description field's first line is the summary. */
  function DescriptionSummary(value: string): string {
    if value == "" then "" else Strip(Split(value, '\n')[0])
  }

  /** In the lines behind it a lone '.' stands for a blank line. */
  function DescriptionBody(value: string): string {
    Strip(Join(BodyLines(Split(value, '\n')[1..]), '\n'))
  }

  function BodyLines(lines: seq<string>): seq<string> {
    if lines == [] then []
    else [if Strip(lines[0]) == "." then "" else Strip(lines[0])] + BodyLines(lines[1..])
  }

  /** `number` stands for the lenient integer reading of Installed-Size. */
  function EntryOf(number: string -> int, f: Stanza): PackageEntry {
    PackageEntry(f.package, f.section, DescriptionSummary(f.description), DescriptionBody(f.description),
                 number(f.installedSize))
  }

  /** What the section mapping consults: `str.lower` and the static section table. */
  datatype Sections = Sections(lower: string -> string, table: map<string, string>)

  /** `s.rsplit("/", 1)[-1]` */
  function AfterLastSlash(s: string): string {
    var parts := Split(s, '/');
    parts[|parts| - 1]
  }

  function SectionToCategory(v: Vocabulary, t: Sections, section: string): (category: string)
    requires IsVocabulary(v)
    ensures category in v.categories
  {
    if section == "" then v.fallback
    else
      var tail := t.lower(Strip(AfterLastSlash(section)));
      var category := if tail in t.table then t.table[tail] else v.fallback;
      if category in v.categories then category else v.fallback
  }

  function Summary(e: PackageEntry): string {
    if e.description != "" then e.description else e.name + " (apt package)"
  }

  /** The optional arguments of `manifest_from_package`. */
  datatype Options = Options(entryPath: Option<string>, argv: seq<string>, stageTar: Option<string>, minRuntime: string)

  const DEFAULTS := Options(None, [], None, "0.1")

  /** `entry_path or f"/usr/bin/{entry.name}"`: an empty path counts as none. */
  function Target(o: Options, e: PackageEntry): string {
    if o.entryPath.Some? && o.entryPath.value != "" then o.entryPath.value else "/usr/bin/" + e.name
  }

  function Deps(o: Options, e: PackageEntry): seq<RootfsDep> {
    if o.stageTar.Some? then [RootfsDep(STAGE_TAR, o.stageTar.value, e.installedSizeKib * 1024)] else []
  }

  function ManifestOf(v: Vocabulary, t: Sections, o: Options, e: PackageEntry): AppManifest
    requires IsVocabulary(v)
  {
    AppManifest(
      AppIdForPackage(e.name), e.name, Summary(e), AppEntry(EXEC, Target(o, e), o.argv),
      SectionToCategory(v, t, e.section), e.longDescription, "", Deps(o, e), [], DisplaySpec(WINDOWED, 0, 0),
      o.minRuntime, e.installedSizeKib * 1024)
  }

  predicate PartsAreValid(m: AppManifest) {
    && EntryIsValid(m.entry) && DisplayIsValid(m.display)
    && forall i :: 0 <= i < |m.rootfsDeps| ==> DepIsValid(m.rootfsDeps[i])
  }

  /** A manifest that its own constructor and those of its parts let through. */
  function Checked(v: Vocabulary, m: AppManifest): Result<AppManifest> {
    if PartsAreValid(m) && ManifestIsValid(v, m) then Ok(m) else ManifestError
  }

  /** A visible name, a description that is empty or visible, a size that is not negative, an absolute
      target without `..`, a bare tar name if any, and a version. */
  predicate IsAccepted(o: Options, e: PackageEntry) {
    && Strip(e.name) != "" && (e.description == "" || Strip(e.description) != "") && e.installedSizeKib >= 0
    && IsTarget(Target(o, e))
    && (o.stageTar.Some? ==> IsStageTar(o.stageTar.value))
    && IsVersion(o.minRuntime)
  }

  /** A visible name whose path under /usr/bin has no `..` component, and a size that is not negative. */
  predicate IsCataloguable(e: PackageEntry) {
    Strip(e.name) != "" && ".." !in Split("/usr/bin/" + e.name, '/') && e.installedSizeKib >= 0
  }

  lemma {:induction false} SummaryIsVisible(e: PackageEntry)
    ensures Strip(Summary(e)) != "" <==> e.description == "" || Strip(e.description) != ""
  {
    if e.description == "" {
      var s := Summary(e);
      assert s[|s| - 1] == ')';
      NonBlankStrip(s, |s| - 1);
    }
  }

  lemma {:induction false} DefaultsAreValid(v: Vocabulary, m: AppManifest)
    requires IsAppId(m.appId) && m.category in v.categories && m.icon == "" && m.requiredPermissions == []
    ensures ManifestIsValid(v, m) <==>
      Strip(m.name) != "" && Strip(m.summary) != "" && m.installSizeBytes >= 0 && IsVersion(m.minRuntime)
  {
  }

  lemma {:induction false} StageTarIsValid(ref: string, size: int)
    ensures DepIsValid(RootfsDep(STAGE_TAR, ref, size)) <==> IsStageTar(ref) && size >= 0
  {
  }

  lemma {:induction false} ExecPartsAreValid(o: Options, e: PackageEntry, m: AppManifest)
    requires m.entry == AppEntry(EXEC, Target(o, e), o.argv) && m.display == DisplaySpec(WINDOWED, 0, 0)
    requires m.rootfsDeps == Deps(o, e) && e.installedSizeKib >= 0
    ensures PartsAreValid(m) <==>
      IsTarget(Target(o, e)) && (o.stageTar.Some? ==> IsStageTar(o.stageTar.value))
  {
    if o.stageTar.Some? {
      StageTarIsValid(o.stageTar.value, e.installedSizeKib * 1024);
      assert m.rootfsDeps[0] == RootfsDep(STAGE_TAR, o.stageTar.value, e.installedSizeKib * 1024);
    }
  }

  /** Every other check holds of any package: in particular the app_id always matches the grammar. */
  lemma {:induction false} CheckedIffAccepted(v: Vocabulary, t: Sections, o: Options, e: PackageEntry)
    requires IsVocabulary(v)
    ensures Checked(v, ManifestOf(v, t, o, e)).Ok? <==> IsAccepted(o, e)
  {
    var m := ManifestOf(v, t, o, e);
    assert IsAppId(m.appId) by { AppIdIsAccepted(e.name); }
    SummaryIsVisible(e);
    DefaultsAreValid(v, m);
    if e.installedSizeKib >= 0 { ExecPartsAreValid(o, e, m); }
  }

  lemma {:induction false} AcceptedIffCataloguable(v: Vocabulary, t: Sections, e: PackageEntry)
    requires IsVocabulary(v) && IsStripped(e.description)
    ensures Checked(v, ManifestOf(v, t, DEFAULTS, e)).Ok? <==> IsCataloguable(e)
  {
    CheckedIffAccepted(v, t, DEFAULTS, e);
    DefaultsAccept(e);
  }

  lemma {:induction false} DefaultsAccept(e: PackageEntry)
    requires IsStripped(e.description)
    ensures IsAccepted(DEFAULTS, e) <==> IsCataloguable(e)
  {
    ZeroOneIsVersion();
    OwnPathIsAccepted(DEFAULTS, e);
  }

  lemma {:induction false} OwnPathIsAccepted(o: Options, e: PackageEntry)
    requires o.entryPath.None? && o.stageTar.None? && IsVersion(o.minRuntime) && IsStripped(e.description)
    ensures IsAccepted(o, e) <==> IsCataloguable(e)
  {
    UsrBinIsTarget(e.name);
    PlainOptionsAccept(o, e);
    StrippedIsVisible(e.description);
  }

  lemma {:induction false} StrippedIsVisible(s: string)
    requires IsStripped(s)
    ensures s == "" || Strip(s) != ""
  {
    StripIsStripped(s);
  }

  lemma {:induction false} UsrBinIsTarget(name: string)
    ensures IsTarget("/usr/bin/" + name) <==> ".." !in Split("/usr/bin/" + name, '/')
  {
  }

  lemma {:induction false} PlainOptionsAccept(o: Options, e: PackageEntry)
    requires o.stageTar.None? && IsVersion(o.minRuntime)
    ensures IsAccepted(o, e) <==>
      && Strip(e.name) != "" && (e.description == "" || Strip(e.description) != "") && e.installedSizeKib >= 0
      && IsTarget(Target(o, e))
  {
  }

  method ManifestFromPackage(v: Vocabulary, t: Sections, o: Options, e: PackageEntry)
    returns (r: Result<AppManifest>)
    requires IsVocabulary(v)
    ensures r == if IsAccepted(o, e) then Ok(ManifestOf(v, t, o, e)) else ManifestError
  {
    CheckedIffAccepted(v, t, o, e);
    var m := ManifestOf(v, t, o, e);
    if !PartsAreValid(m) {
      return ManifestError;
    }
    r := NewManifest(v, m);
  }

  lemma {:induction false} ZeroOneIsVersion()
    ensures IsVersion("0.1")
  {
    SplitFree("0.1", '-');
    assert "0.1" == "0" + ['.'] + "1";
    SplitAt("0", '.', "1");
    SplitFree("1", '.');
  }

  // --- the catalog of an index -------------------------------------------------------------

  type Index = map<string, Stanza>

  /** What the Packages parser returns: each stanza under its own non-empty package name. */
  predicate IsIndex(index: Index) {
    forall n :: n in index ==> n != "" && index[n].package == n
  }

  datatype Query = Query(
    v: Vocabulary, t: Sections, number: string -> int, wanted: Option<set<string>>, sections: seq<string>)

  predicate IsSelected(q: Query, index: Index, n: string) {
    && n in index
    && (q.wanted.Some? ==> n in q.wanted.value)
    && (q.sections != [] ==>
          q.t.lower(AfterLastSlash(index[n].section)) in
          set s | s in q.sections :: q.t.lower(AfterLastSlash(s)))
  }

  function EntryFor(q: Query, index: Index, n: string): PackageEntry {
    EntryOf(q.number, if n in index then index[n] else Stanza("", "", "", ""))
  }

  function Manifest(q: Query, index: Index, n: string): AppManifest
    requires IsVocabulary(q.v)
  {
    ManifestOf(q.v, q.t, DEFAULTS, EntryFor(q, index, n))
  }

  ghost predicate AllCataloguable(q: Query, index: Index) {
    forall n :: IsSelected(q, index, n) ==> IsCataloguable(EntryFor(q, index, n))
  }

  /** What the listing loop meets at one name: nothing to list, an app with its identifier, or an error. */
  datatype Item<I, A> = Skip | Made(id: I, app: A) | Raised

  /** Positions of items to list: in order, and no identifier twice. */
  ghost predicate IsListing<I, A>(items: seq<Item<I, A>>, at: seq<nat>) {
    && (forall i :: 0 <= i < |at| ==> at[i] < |items| && items[at[i]].Made?)
    && (forall i, j :: 0 <= i < j < |at| ==> at[i] < at[j] && items[at[i]].id != items[at[j]].id)
  }

  /** The item at `k` is listed, or an earlier listed item has its identifier. */
  ghost predicate IsCovered<I, A>(items: seq<Item<I, A>>, at: seq<nat>, k: nat)
    requires k < |items| && items[k].Made?
  {
    exists i :: 0 <= i < |at| && at[i] <= k && at[i] < |items| && items[at[i]].Made? && items[at[i]].id == items[k].id
  }

  ghost function IdsAt<I, A>(items: seq<Item<I, A>>, at: seq<nat>): set<I>
    requires forall i :: 0 <= i < |at| ==> at[i] < |items| && items[at[i]].Made?
  {
    set i | 0 <= i < |at| :: items[at[i]].id
  }

  /** The listing loop keeps the first app of every identifier; an error ends it. */
  method ListApps<I(==), A>(items: seq<Item<I, A>>) returns (r: Result<seq<nat>>)
    ensures r.Ok? <==> forall k :: 0 <= k < |items| ==> !items[k].Raised?
    ensures r.Ok? ==> IsListing(items, r.value)
    ensures r.Ok? ==> forall k :: 0 <= k < |items| && items[k].Made? ==> IsCovered(items, r.value, k)
  {
    var at: seq<nat> := [];
    var seen: set<I> := {};
    for k := 0 to |items|
      invariant IsListing(items, at) && forall i :: 0 <= i < |at| ==> at[i] < k
      invariant seen == IdsAt(items, at)
      invariant forall j :: 0 <= j < k ==> !items[j].Raised?
      invariant forall j :: 0 <= j < k && items[j].Made? ==> IsCovered(items, at, j)
    {
      match items[k] {
        case Skip =>
        case Raised => return ManifestError;
        case Made(id, app) =>
          if id !in seen {
            ListingGrows(items, at, k);
            seen := seen + {id};
            at := at + [k];
          }
      }
    }
    return Ok(at);
  }

  lemma {:induction false} ListingGrows<I, A>(items: seq<Item<I, A>>, at: seq<nat>, k: nat)
    requires IsListing(items, at) && forall i :: 0 <= i < |at| ==> at[i] < k
    requires k < |items| && items[k].Made? && items[k].id !in IdsAt(items, at)
    ensures IsListing(items, at + [k])
    ensures IdsAt(items, at + [k]) == IdsAt(items, at) + {items[k].id}
    ensures IsCovered(items, at + [k], k)
    ensures forall j :: 0 <= j < k && items[j].Made? && IsCovered(items, at, j) ==> IsCovered(items, at + [k], j)
  {
    var at' := at + [k];
    forall i | 0 <= i < |at| ensures items[at[i]].id in IdsAt(items, at) {}
    forall i, j | 0 <= i < j < |at'| ensures at'[i] < at'[j] && items[at'[i]].id != items[at'[j]].id {
      if j < |at| { assert at[i] < at[j]; }
    }
    IdsGrow(items, at, k);
    assert at'[|at|] == k;
    forall j | 0 <= j < k && items[j].Made? && IsCovered(items, at, j) ensures IsCovered(items, at', j) {
      CoverageGrows(items, at, k, j);
    }
  }

  lemma {:induction false} IdsGrow<I, A>(items: seq<Item<I, A>>, at: seq<nat>, k: nat)
    requires IsListing(items, at) && k < |items| && items[k].Made?
    ensures IdsAt(items, at + [k]) == IdsAt(items, at) + {items[k].id}
  {
    var at' := at + [k];
    forall x | x in IdsAt(items, at) ensures x in IdsAt(items, at') {
      var i :| 0 <= i < |at| && items[at[i]].id == x;
      assert items[at'[i]].id == x;
    }
    assert items[at'[|at|]].id in IdsAt(items, at');
  }

  lemma {:induction false} CoverageGrows<I, A>(items: seq<Item<I, A>>, at: seq<nat>, k: nat, j: nat)
    requires j < |items| && items[j].Made? && IsCovered(items, at, j)
    ensures IsCovered(items, at + [k], j)
  {
    var i :| 0 <= i < |at| && at[i] <= j && at[i] < |items| && items[at[i]].Made? && items[at[i]].id == items[j].id;
    assert (at + [k])[i] == at[i];
  }

  lemma {:induction false} DescriptionIsStripped(number: string -> int, f: Stanza)
    ensures IsStripped(EntryOf(number, f).description)
  {
    if f.description != "" {
      StripIsStripped(Split(f.description, '\n')[0]);
    }
  }

  /** Manifests of selected packages by increasing name, no app_id twice. */
  ghost predicate IsCatalogOf(q: Query, index: Index, apps: seq<AppManifest>)
    requires IsVocabulary(q.v)
  {
    && (forall i :: 0 <= i < |apps| ==>
      IsSelected(q, index, apps[i].name) && apps[i] == Manifest(q, index, apps[i].name))
    && (forall i, j :: 0 <= i < j < |apps| ==> StrLt(apps[i].name, apps[j].name) && apps[i].appId != apps[j].appId)
  }

  /** A listed package has the app_id of `n`, and it is `n` itself or smaller. */
  ghost predicate IsListedOrShadowed(apps: seq<AppManifest>, n: string, appId: string) {
    exists i :: 0 <= i < |apps| && apps[i].appId == appId && StrLe(apps[i].name, n)
  }

  /** No check is tripped exactly when every selected package is cataloguable. The catalog then lists
      manifests of selected packages by increasing name with distinct app_ids, and every selected
      package is listed or shares its app_id with a listed one of smaller name. */
  method BuildCatalogFromIndex(q: Query, index: Index) returns (r: Result<seq<AppManifest>>)
    requires IsIndex(index) && IsVocabulary(q.v)
    ensures r.Ok? <==> AllCataloguable(q, index)
    ensures r.Ok? ==> IsCatalogOf(q, index, r.value)
    ensures r.Ok? ==> forall n :: IsSelected(q, index, n) ==> IsListedOrShadowed(r.value, n, AppIdForPackage(n))
  {
    var names := SortSet(index.Keys);
    var items := MakeItems(q, index, names);
    var listing := ListApps(items);
    if listing.ManifestError? {
      RaisedMeans(q, index, names, items);
      return ManifestError;
    }
    NoneRaised(q, index, names, items);
    var at := listing.value;
    var apps := seq(|at|, i requires 0 <= i < |at| => items[at[i]].app);
    CatalogFromListing(q, index, names, items, at, apps);
    r := NewCatalog(apps);
  }

  /** What the loop meets at the name `n`. */
  ghost predicate IsItemOf(q: Query, index: Index, n: string, item: Item<string, AppManifest>)
    requires IsVocabulary(q.v)
  {
    match item
    case Skip => !IsSelected(q, index, n)
    case Raised => IsSelected(q, index, n) && !IsCataloguable(EntryFor(q, index, n))
    case Made(id, app) =>
      && IsSelected(q, index, n) && IsCataloguable(EntryFor(q, index, n))
      && id == app.appId == AppIdForPackage(n) && app.name == n && app == Manifest(q, index, n)
  }

  ghost predicate AreItemsOf(q: Query, index: Index, names: seq<string>, items: seq<Item<string, AppManifest>>)
    requires IsVocabulary(q.v)
  {
    |items| == |names| && forall k :: 0 <= k < |names| ==> IsItemOf(q, index, names[k], items[k])
  }

  lemma {:induction false} DefaultManifest(q: Query, index: Index, n: string)
    requires IsIndex(index) && IsVocabulary(q.v) && n in index
    ensures var e, m := EntryFor(q, index, n), Manifest(q, index, n);
      && (IsAccepted(DEFAULTS, e) <==> IsCataloguable(e)) && m == ManifestOf(q.v, q.t, DEFAULTS, e)
      && m.appId == AppIdForPackage(n) && m.name == n
  {
    DescriptionIsStripped(q.number, index[n]);
    DefaultsAccept(EntryFor(q, index, n));
  }

  method MakeItem(q: Query, index: Index, n: string) returns (item: Item<string, AppManifest>)
    requires IsIndex(index) && IsVocabulary(q.v) && n in index
    ensures IsItemOf(q, index, n, item)
  {
    if !IsSelected(q, index, n) {
      return Skip;
    }
    var entry := EntryFor(q, index, n);
    DefaultManifest(q, index, n);
    var manifest := ManifestFromPackage(q.v, q.t, DEFAULTS, entry);
    if manifest.ManifestError? {
      return Raised;
    }
    return Made(manifest.value.appId, manifest.value);
  }

  method MakeItems(q: Query, index: Index, names: seq<string>) returns (items: seq<Item<string, AppManifest>>)
    requires IsIndex(index) && IsVocabulary(q.v) && forall n :: n in names ==> n in index
    ensures AreItemsOf(q, index, names, items)
  {
    items := [];
    for k := 0 to |names|
      invariant |items| == k && forall j :: 0 <= j < k ==> IsItemOf(q, index, names[j], items[j])
    {
      var item := MakeItem(q, index, names[k]);
      items := items + [item];
    }
  }

  lemma {:induction false} RaisedMeans(
      q: Query, index: Index, names: seq<string>, items: seq<Item<string, AppManifest>>)
    requires IsVocabulary(q.v) && AreItemsOf(q, index, names, items)
    requires exists k :: 0 <= k < |items| && items[k].Raised?
    ensures !AllCataloguable(q, index)
  {
    var k :| 0 <= k < |items| && items[k].Raised?;
    assert IsItemOf(q, index, names[k], items[k]);
  }

  lemma {:induction false} NoneRaised(q: Query, index: Index, names: seq<string>, items: seq<Item<string, AppManifest>>)
    requires IsVocabulary(q.v) && AreItemsOf(q, index, names, items) && forall n :: n in index ==> n in names
    requires forall k :: 0 <= k < |items| ==> !items[k].Raised?
    ensures AllCataloguable(q, index)
  {
    forall n | IsSelected(q, index, n) ensures IsCataloguable(EntryFor(q, index, n)) {
      var k :| 0 <= k < |names| && names[k] == n;
      assert IsItemOf(q, index, names[k], items[k]);
    }
  }

  /** `app` is what the item at `k` lists. */
  ghost predicate IsAppAt(
      q: Query, index: Index, names: seq<string>, items: seq<Item<string, AppManifest>>, k: nat, app: AppManifest)
    requires IsVocabulary(q.v)
  {
    && k < |names| == |items| && items[k].Made? && app.appId == items[k].id && app.name == names[k]
    && IsSelected(q, index, app.name) && app == Manifest(q, index, app.name)
  }

  lemma {:induction false} AppOfItem(
      q: Query, index: Index, names: seq<string>, items: seq<Item<string, AppManifest>>, k: nat)
    requires IsVocabulary(q.v) && AreItemsOf(q, index, names, items) && k < |items| && items[k].Made?
    ensures IsAppAt(q, index, names, items, k, items[k].app)
  {
    assert IsItemOf(q, index, names[k], items[k]);
  }

  lemma {:induction false} SmallerName(names: seq<string>, i: nat, j: nat)
    requires Sorted(names) && Distinct(names) && i < j < |names|
    ensures StrLt(names[i], names[j])
  {
  }

  lemma {:induction false} ListedInOrder(
      q: Query, index: Index, names: seq<string>, items: seq<Item<string, AppManifest>>, at: seq<nat>,
      apps: seq<AppManifest>)
    requires IsVocabulary(q.v) && Sorted(names) && Distinct(names) && IsListing(items, at) && |apps| == |at|
    requires forall i :: 0 <= i < |at| ==> IsAppAt(q, index, names, items, at[i], apps[i])
    ensures IsCatalogOf(q, index, apps) && Distinct(Ids(apps))
  {
    forall i, j | 0 <= i < j < |apps| ensures StrLt(apps[i].name, apps[j].name) && apps[i].appId != apps[j].appId {
      assert IsAppAt(q, index, names, items, at[i], apps[i]) && IsAppAt(q, index, names, items, at[j], apps[j]);
      SmallerName(names, at[i], at[j]);
    }
    forall i | 0 <= i < |apps|
      ensures IsSelected(q, index, apps[i].name) && apps[i] == Manifest(q, index, apps[i].name) {
      assert IsAppAt(q, index, names, items, at[i], apps[i]);
    }
  }

  /** A catalog made of listed items, with the selected packages it covers. */
  lemma {:induction false} CatalogFromListing(
      q: Query, index: Index, names: seq<string>, items: seq<Item<string, AppManifest>>, at: seq<nat>,
      apps: seq<AppManifest>)
    requires IsVocabulary(q.v) && Sorted(names) && Distinct(names) && forall n :: n in index ==> n in names
    requires AreItemsOf(q, index, names, items) && IsListing(items, at)
    requires forall k :: 0 <= k < |items| && items[k].Made? ==> IsCovered(items, at, k)
    requires forall k :: 0 <= k < |items| ==> !items[k].Raised?
    requires |apps| == |at| && forall i :: 0 <= i < |at| ==> apps[i] == items[at[i]].app
    ensures IsCatalogOf(q, index, apps) && Distinct(Ids(apps))
    ensures forall n :: IsSelected(q, index, n) ==> IsListedOrShadowed(apps, n, AppIdForPackage(n))
  {
    forall i | 0 <= i < |at| ensures IsAppAt(q, index, names, items, at[i], apps[i]) {
      AppOfItem(q, index, names, items, at[i]);
    }
    ListedInOrder(q, index, names, items, at, apps);
    forall n | IsSelected(q, index, n) ensures IsListedOrShadowed(apps, n, AppIdForPackage(n)) {
      var k := ItemOfSelected(q, index, names, items, n);
      CoveredIsShadowed(q, index, names, items, at, apps, k);
    }
  }

  lemma {:induction false} ItemOfSelected(
      q: Query, index: Index, names: seq<string>, items: seq<Item<string, AppManifest>>, n: string) returns (k: nat)
    requires IsVocabulary(q.v) && IsSelected(q, index, n) && n in names
    requires AreItemsOf(q, index, names, items)
    requires forall k :: 0 <= k < |items| ==> !items[k].Raised?
    ensures k < |names| && names[k] == n && items[k].Made? && items[k].id == AppIdForPackage(n)
  {
    k :| 0 <= k < |names| && names[k] == n;
    assert IsItemOf(q, index, names[k], items[k]);
  }

  lemma {:induction false} CoveredIsShadowed(
      q: Query, index: Index, names: seq<string>, items: seq<Item<string, AppManifest>>, at: seq<nat>,
      apps: seq<AppManifest>, k: nat)
    requires IsVocabulary(q.v) && Sorted(names) && k < |items| == |names| && items[k].Made? && IsCovered(items, at, k)
    requires |apps| == |at| && forall i :: 0 <= i < |at| ==> IsAppAt(q, index, names, items, at[i], apps[i])
    ensures IsListedOrShadowed(apps, names[k], items[k].id)
  {
    var i := CoverOf(items, at, k);
    assert IsAppAt(q, index, names, items, at[i], apps[i]);
    ShadowedBy(names, apps, i, at[i], k, items[k].id);
  }

  lemma {:induction false} CoverOf<I, A>(items: seq<Item<I, A>>, at: seq<nat>, k: nat) returns (i: nat)
    requires k < |items| && items[k].Made? && IsCovered(items, at, k)
    ensures i < |at| && at[i] <= k && items[at[i]].Made? && items[at[i]].id == items[k].id
  {
    i :| 0 <= i < |at| && at[i] <= k && at[i] < |items| && items[at[i]].Made? && items[at[i]].id == items[k].id;
  }

  lemma {:induction false} ShadowedBy(
      names: seq<string>, apps: seq<AppManifest>, i: nat, j: nat, k: nat, appId: string)
    requires Sorted(names) && j <= k < |names| && i < |apps|
    requires apps[i].appId == appId && apps[i].name == names[j]
    ensures IsListedOrShadowed(apps, names[k], appId)
  {
    StrLeReflexive(names[k]);
    assert StrLe(apps[i].name, names[k]);
  }

  // --- Debian names ------------------------------------------------------------------------

  predicate IsDebianChar(c: char) {
    'a' <= c <= 'z' || '0' <= c <= '9' || c == '+' || c == '-' || c == '.'
  }

  /** `^[a-z0-9][a-z0-9+.\-]+$` */
  predicate IsDebianName(s: string) {
    && |s| >= 2 && ('a' <= s[0] <= 'z' || '0' <= s[0] <= '9')
    && forall i :: 0 <= i < |s| ==> IsDebianChar(s[i])
  }

  lemma {:induction false} PathParts(name: string)
    requires '/' !in name
    ensures Split("/usr/bin/" + name, '/') == [""] + (["usr"] + (["bin"] + [name]))
  {
    var path := "/usr/bin/" + name;
    assert path == "" + ['/'] + ("usr" + ['/'] + ("bin" + ['/'] + name));
    SplitAt("", '/', "usr" + ['/'] + ("bin" + ['/'] + name));
    SplitAt("usr", '/', "bin" + ['/'] + name);
    SplitAt("bin", '/', name);
    SplitFree(name, '/');
  }

  lemma {:induction false} DebianNameIsCataloguable(e: PackageEntry)
    requires IsDebianName(e.name) && e.installedSizeKib >= 0
    ensures IsCataloguable(e)
  {
    NonBlankStrip(e.name, 0);
    PathParts(e.name);
    assert e.name[0] != '.';
  }

  /** Debian-grammar names and sizes that are not negative never trip a check. */
  lemma {:induction false} DebianIndexIsAccepted(q: Query, index: Index)
    requires IsIndex(index)
    requires forall n :: n in index ==> IsDebianName(n) && EntryFor(q, index, n).installedSizeKib >= 0
    ensures AllCataloguable(q, index)
  {
    forall n | IsSelected(q, index, n) ensures IsCataloguable(EntryFor(q, index, n)) {
      DebianNameIsCataloguable(EntryFor(q, index, n));
    }
  }
}
