/** The content_shell stage tar: flat copies for the entrypoint's `$ORIGIN` libraries, and the gate on
    what the loader cannot resolve. */
module ContentShell {
  import opened PyText
  import opened StageTar

  const ENTRYPOINT := "/" + In(ORIGIN, "chromium-shell")

  /** The other spelling of the flat library directory. */
  const TOP_LIBDIR := In("lib", ARCH_TRIPLET)

  // --- what a tar provides on the flat path --------------------------------------------------

  predicate IsFlat(rel: string) {
    InDir(TOP_LIBDIR, rel) || InDir(LIBDIR, rel)
  }

  function FlatName<D>(m: Member<D>): set<string> {
    if m.File? && IsFlat(Rel(m.name)) then {PathName(Rel(m.name))} else {}
  }

  function FlatNames<D>(members: seq<Member<D>>): set<string> {
    UnionOf(members, m => FlatName(m))
  }

  method FlatLibBasenames<D>(tar: Tar<D>) returns (out: set<string>)
    ensures out == FlatNames(tar.members)
  {
    out := {};
    for i := 0 to |tar.members|
      invariant out == FlatNames(tar.members[..i])
    {
      UnionOfNext(tar.members, i, m => FlatName(m));
      var m := tar.members[i];
      if !m.File? { continue; }
      var rel := Rel(m.name);
      if IsFlat(rel) { out := out + {PathName(rel)}; }
    }
    TakeAll(tar.members);
  }

  // --- planning ------------------------------------------------------------------------------------

  /** A member name that lies next to the entrypoint and ends in `soname`. */
  predicate IsOriginOf(name: string, soname: string) {
    InDir(ORIGIN, Rel(name)) && PathName(Rel(name)) == soname
  }

  ghost predicate HasOriginCopy<D(!new)>(members: seq<Member<D>>, soname: string) {
    exists n :: n in Names(members) && IsOriginOf(n, soname)
  }

  /** A table of the files next to the entrypoint, by last part. */
  ghost predicate IsOriginIndex(files: map<string, string>, names: set<string>) {
    && (forall n, s :: n in names && IsOriginOf(n, s) ==> s in files)
    && (forall s :: s in files ==> exists n :: n in names && IsOriginOf(n, s) && files[s] == Rel(n))
  }

  /** A library the entrypoint needs, off the flat path and next to the entrypoint. */
  ghost predicate IsPlanned<D(!new)>(members: seq<Member<D>>, read: Member<D> -> seq<string>, soname: string) {
    && soname in EntryNeeded(members, ENTRYPOINT, read) && !IsLoader(soname)
    && soname !in FlatNames(members) && HasOriginCopy(members, soname)
  }

  /** The planned libraries, each with the path of one of its copies. */
  ghost predicate IsOriginPlan<D(!new)>(
      plan: map<string, string>, members: seq<Member<D>>, read: Member<D> -> seq<string>)
  {
    && (forall s :: s in plan <==> IsPlanned(members, read, s))
    && (forall s :: s in plan ==> exists n :: n in Names(members) && IsOriginOf(n, s) && plan[s] == Rel(n))
  }

  method OriginFiles(names: set<string>) returns (files: map<string, string>)
    ensures IsOriginIndex(files, names)
  {
    files := map[];
    var todo := names;
    while todo != {}
      invariant todo <= names && IsOriginIndex(files, names - todo)
      decreases |todo|
    {
      var n :| n in todo;
      todo := todo - {n};
      if InDir(ORIGIN, Rel(n)) {
        assert IsOriginOf(n, PathName(Rel(n)));
        files := files[PathName(Rel(n)) := Rel(n)];
      }
    }
    assert names - {} == names;
  }

  method OriginNeededToFlatten<D(!new)>(tar: Tar<D>, read: Member<D> -> seq<string>) returns (plan: map<string, string>)
    ensures IsOriginPlan(plan, tar.members, read)
  {
    var needed := EntryNeeded(tar.members, ENTRYPOINT, read);
    plan := map[];
    if needed == [] { return; }
    var flat := FlatLibBasenames(tar);
    var files := OriginFiles(Names(tar.members));
    for i := 0 to |needed|
      invariant forall s :: s in plan <==> s in needed[..i] && !IsLoader(s) && s !in flat && s in files
      invariant forall s :: s in plan ==> plan[s] == files[s]
    {
      var soname := needed[i];
      TakeNext(needed, i);
      if IsLoader(soname) || soname in flat { continue; }
      if soname in files { plan := plan[soname := files[soname]]; }
    }
    TakeAll(needed);
    forall s ensures s in files <==> HasOriginCopy(tar.members, s) {
    }
  }

  // --- flattening ------------------------------------------------------------------------------------

  function Dest(soname: string): string {
    "./" + In(LIBDIR, soname)
  }

  /** The planned libraries whose place on the flat path is free. */
  function Todo<D>(members: seq<Member<D>>, plan: map<string, string>): set<string> {
    set s | s in plan && Dest(s) !in Names(members)
  }

  predicate IsReadable<D>(members: seq<Member<D>>, plan: map<string, string>, soname: string) {
    soname in plan && Blob(members, "./" + plan[soname]).Some?
  }

  predicate AreReadable<D>(members: seq<Member<D>>, plan: map<string, string>, sonames: seq<string>) {
    forall i :: 0 <= i < |sonames| ==> IsReadable(members, plan, sonames[i])
  }

  function CopyOf<D>(members: seq<Member<D>>, plan: map<string, string>, soname: string): Member<D>
    requires IsReadable(members, plan, soname)
  {
    File(Dest(soname), Blob(members, "./" + plan[soname]).value)
  }

  function Copies<D>(members: seq<Member<D>>, plan: map<string, string>, sonames: seq<string>): seq<Member<D>>
    requires AreReadable(members, plan, sonames)
  {
    if sonames == [] then []
    else Copies(members, plan, sonames[..|sonames| - 1]) + [CopyOf(members, plan, sonames[|sonames| - 1])]
  }

  /** The libraries to copy, in name order. */
  function TodoList<D>(members: seq<Member<D>>, plan: map<string, string>): (todo: seq<string>)
    ensures Sorted(todo) && Distinct(todo)
    ensures forall s :: s in todo <==> s in plan && Dest(s) !in Names(members)
    ensures forall i :: 0 <= i < |todo| ==> todo[i] in plan
  {
    SortSet(Todo(members, plan))
  }

  /** The bytes of the copies, one by one. */
  ghost predicate AreBlobs<D>(members: seq<Member<D>>, plan: map<string, string>, todo: seq<string>, blobs: seq<D>) {
    && |blobs| == |todo| && AreReadable(members, plan, todo)
    && forall i :: 0 <= i < |todo| ==> CopyOf(members, plan, todo[i]) == File(Dest(todo[i]), blobs[i])
  }

  /** Reads the bytes of every copy before the tar is opened for writing. */
  method ReadBlobs<D>(tar: Tar<D>, plan: map<string, string>, todo: seq<string>) returns (r: Result<seq<D>>)
    requires forall i :: 0 <= i < |todo| ==> todo[i] in plan
    ensures r.Ok? <==> AreReadable(tar.members, plan, todo)
    ensures r.Ok? ==> AreBlobs(tar.members, plan, todo, r.value)
  {
    var blobs: seq<D> := [];
    for i := 0 to |todo|
      invariant |blobs| == i && AreBlobs(tar.members, plan, todo[..i], blobs)
    {
      var m := GetMember(tar.members, "./" + plan[todo[i]]);
      assert m.Some? && Bytes(m.value).Some? <==> IsReadable(tar.members, plan, todo[i]);
      if m.None? { return MissingMember; }
      var bytes := Bytes(m.value);
      if bytes.None? { return Unreadable; }
      blobs := blobs + [bytes.value];
    }
    TakeAll(todo);
    return Ok(blobs);
  }

  lemma {:induction false} CopiesStep<D>(
      members: seq<Member<D>>, plan: map<string, string>, sonames: seq<string>, i: nat)
    requires AreReadable(members, plan, sonames) && i < |sonames|
    ensures Copies(members, plan, sonames[..i + 1]) ==
      Copies(members, plan, sonames[..i]) + [CopyOf(members, plan, sonames[i])]
  {
    TakeNext(sonames, i);
    assert sonames[..i + 1][..i] == sonames[..i];
  }

  method AppendCopies<D>(
      tar: Tar<D>, ghost before: seq<Member<D>>, ghost plan: map<string, string>, todo: seq<string>, blobs: seq<D>)
    requires tar.members == before && AreBlobs(before, plan, todo, blobs)
    modifies tar
    ensures tar.members == before + Copies(before, plan, todo)
  {
    for i := 0 to |todo|
      invariant tar.members == before + Copies(before, plan, todo[..i])
    {
      CopiesStep(before, plan, todo, i);
      StoredPath(todo[i]);
      tar.AddBytes(In(LIBDIR, todo[i]), blobs[i]);
    }
    TakeAll(todo);
  }

  method FlattenOriginNeeded<D>(tar: Tar<D>, plan: map<string, string>) returns (r: Result<seq<string>>)
    modifies tar
    ensures r.Ok? <==> AreReadable(old(tar.members), plan, TodoList(old(tar.members), plan))
    ensures r.Ok? ==> r.value == TodoList(old(tar.members), plan)
    ensures r.Ok? ==> tar.members == Flattened(old(tar.members), plan)
    ensures !r.Ok? ==> tar.members == old(tar.members)
  {
    var todo := TodoList(tar.members, plan);
    var blobs := ReadBlobs(tar, plan, todo);
    if blobs.MissingMember? { return MissingMember; }
    if blobs.Unreadable? { return Unreadable; }
    AppendCopies(tar, tar.members, plan, todo, blobs.value);
    return Ok(todo);
  }

  lemma {:induction false} StoredPath(n: string)
    ensures Arc(In(LIBDIR, n)) == Dest(n)
  {
    RelOf(In(LIBDIR, n));
  }

  // --- the gate ----------------------------------------------------------------------------------------

  predicate IsMissing<D>(overlay: seq<Member<D>>, base: seq<Member<D>>, soname: string) {
    soname !in FlatNames(base) + FlatNames(overlay) && !IsLoader(soname)
  }

  /** What the entrypoint needs and the loader cannot find, sorted. */
  function UnsatisfiedNeeded<D>(
      overlay: seq<Member<D>>, base: seq<Member<D>>, read: Member<D> -> seq<string>): (misses: seq<string>)
  {
    Sort(Filter(EntryNeeded(overlay, ENTRYPOINT, read), n => IsMissing(overlay, base, n)))
  }

  /** The tar after flattening. */
  function Flattened<D>(members: seq<Member<D>>, plan: map<string, string>): seq<Member<D>>
    requires AreReadable(members, plan, TodoList(members, plan))
  {
    members + Copies(members, plan, TodoList(members, plan))
  }

  ghost predicate AreFileNames(sonames: seq<string>) {
    forall i :: 0 <= i < |sonames| ==> IsFileName(sonames[i])
  }

  lemma {:induction false} OriginHasName()
    ensures PathName(ORIGIN) != ""
  {
    assert ORIGIN == In("usr/lib", "chromium");
    PathNameIn("usr/lib", "chromium");
  }

  lemma {:induction false} OriginNamesFile(name: string, soname: string)
    requires IsOriginOf(name, soname)
    ensures IsFileName(soname)
  {
    var rel := Rel(name);
    InDirParts(ORIGIN, rel);
    PathNameIn(ORIGIN, rel[|ORIGIN| + 1..]);
    OriginHasName();
    PathNameIsFileName(rel);
  }

  lemma {:induction false} FlatNamesOfConcat<D>(a: seq<Member<D>>, b: seq<Member<D>>)
    ensures FlatNames(a + b) == FlatNames(a) + FlatNames(b)
  {
    UnionOfConcat(a, b, m => FlatName(m));
  }

  /** A copy provides its library on the flat path and touches nothing else. */
  lemma {:induction false} CopyIsFlat<D>(m: Member<D>, s: string)
    requires m.name == Dest(s) && m.File? && IsFileName(s)
    ensures FlatName(m) == {s} && IsAside(m.name)
  {
    CopyIsAside(s);
    StoredAt(LIBDIR, s);
  }

  lemma {:induction false} CopyIsAside(s: string)
    requires IsFileName(s)
    ensures IsAside(Dest(s))
  {
    EntryAtOrigin("chromium-shell");
    Apart(LIBDIR, ORIGIN, s, "chromium-shell");
  }

  lemma {:induction false} CopiesAreFlat<D>(members: seq<Member<D>>, plan: map<string, string>, sonames: seq<string>)
    requires AreReadable(members, plan, sonames) && AreFileNames(sonames)
    ensures FlatNames(Copies(members, plan, sonames)) == Elements(sonames)
  {
    if sonames != [] {
      var front, last := sonames[..|sonames| - 1], sonames[|sonames| - 1];
      CopiesAreFlat(members, plan, front);
      CopyIsFlat(CopyOf(members, plan, last), last);
      FlatNamesNext(Copies(members, plan, front), CopyOf(members, plan, last), last);
      LastElement(sonames);
    }
  }

  lemma {:induction false} LastElement(s: seq<string>)
    requires s != []
    ensures Elements(s) == Elements(s[..|s| - 1]) + {s[|s| - 1]}
  {
    assert s == s[..|s| - 1] + [s[|s| - 1]];
  }

  lemma {:induction false} FlatNamesNext<D>(members: seq<Member<D>>, m: Member<D>, s: string)
    requires FlatName(m) == {s}
    ensures FlatNames(members + [m]) == FlatNames(members) + {s}
  {
    FrontOf(members, m);
  }

  lemma {:induction false} CopiesAreNamed<D>(members: seq<Member<D>>, plan: map<string, string>, sonames: seq<string>)
    requires AreReadable(members, plan, sonames) && AreFileNames(sonames)
    ensures forall s :: s in sonames ==> Dest(s) in Names(Copies(members, plan, sonames))
    ensures forall n :: n in Names(Copies(members, plan, sonames)) ==> IsAside(n)
  {
    if sonames != [] {
      var front, last := sonames[..|sonames| - 1], sonames[|sonames| - 1];
      CopiesAreNamed(members, plan, front);
      CopyIsFlat(CopyOf(members, plan, last), last);
      FrontOf(Copies(members, plan, front), CopyOf(members, plan, last));
      assert forall s :: s in sonames <==> s in front || s == last;
    }
  }

  /** A name that is neither the entrypoint's nor next to it. */
  ghost predicate IsAside(name: string) {
    name != Arc(ENTRYPOINT) && forall t :: !IsOriginOf(name, t)
  }

  lemma {:induction false} PlannedAreFileNames<D(!new)>(
      members: seq<Member<D>>, plan: map<string, string>, read: Member<D> -> seq<string>)
    requires IsOriginPlan(plan, members, read)
    ensures AreFileNames(TodoList(members, plan))
  {
    var todo := TodoList(members, plan);
    forall i | 0 <= i < |todo| ensures IsFileName(todo[i]) {
      assert todo[i] in plan;
      var n :| n in Names(members) && IsOriginOf(n, todo[i]) && plan[todo[i]] == Rel(n);
      OriginNamesFile(n, todo[i]);
    }
  }

  /** What flattening does to the tar, as the planner and the gate see it. */
  lemma {:induction false} FlattenedView<D(!new)>(
      members: seq<Member<D>>, plan: map<string, string>, read: Member<D> -> seq<string>)
    requires IsOriginPlan(plan, members, read) && AreReadable(members, plan, TodoList(members, plan))
    ensures EntryNeeded(Flattened(members, plan), ENTRYPOINT, read) == EntryNeeded(members, ENTRYPOINT, read)
    ensures forall s :: s in FlatNames(Flattened(members, plan)) <==>
      s in FlatNames(members) || s in TodoList(members, plan)
    ensures forall s :: HasOriginCopy(Flattened(members, plan), s) <==> HasOriginCopy(members, s)
    ensures forall s :: s in TodoList(members, plan) ==> Dest(s) in Names(Flattened(members, plan))
    ensures Names(members) <= Names(Flattened(members, plan))
  {
    var todo := TodoList(members, plan);
    var copies := Copies(members, plan, todo);
    PlannedAreFileNames(members, plan, read);
    CopiesAreFlat(members, plan, todo);
    CopiesAreNamed(members, plan, todo);
    NamesOfConcat(members, copies);
    FlatNamesOfConcat(members, copies);
    assert Arc(ENTRYPOINT) !in Names(copies) by {
      assert Arc(ENTRYPOINT) in Names(copies) ==> IsAside(Arc(ENTRYPOINT));
    }
    GetMemberOfConcat(members, copies, Arc(ENTRYPOINT));
    forall s ensures HasOriginCopy(members + copies, s) <==> HasOriginCopy(members, s) {
      assert forall n :: n in Names(copies) ==> !IsOriginOf(n, s);
    }
  }

  // --- plan, mutation and gate agree --------------------------------------------------------------------

  /** After flattening, the gate's list is the old one without the libraries that were copied. */
  lemma {:induction false} FlattenThenGate<D(!new)>(
      members: seq<Member<D>>, base: seq<Member<D>>, plan: map<string, string>, read: Member<D> -> seq<string>)
    requires IsOriginPlan(plan, members, read) && AreReadable(members, plan, TodoList(members, plan))
    ensures UnsatisfiedNeeded(Flattened(members, plan), base, read) ==
      Filter(UnsatisfiedNeeded(members, base, read), n => n !in TodoList(members, plan))
  {
    var after := Flattened(members, plan);
    var needed := EntryNeeded(members, ENTRYPOINT, read);
    FlattenedView(members, plan, read);
    FilterOfSort(needed, n => IsMissing(members, base, n), n => n !in TodoList(members, plan),
      n => IsMissing(after, base, n));
  }

  lemma {:induction false} NoElements<T>(s: seq<T>)
    ensures (forall x :: x !in s) ==> s == []
  {
    if s != [] { assert s[0] in s; }
  }

  lemma {:induction false} UnsatisfiedMembers<D>(
      overlay: seq<Member<D>>, base: seq<Member<D>>, read: Member<D> -> seq<string>, s: string)
    ensures s in UnsatisfiedNeeded(overlay, base, read) <==>
      s in EntryNeeded(overlay, ENTRYPOINT, read) && IsMissing(overlay, base, s)
  {
    var missing := Filter(EntryNeeded(overlay, ENTRYPOINT, read), n => IsMissing(overlay, base, n));
    FilterMembers(EntryNeeded(overlay, ENTRYPOINT, read), n => IsMissing(overlay, base, n));
    SortKeepsMembers(missing);
  }

  lemma {:induction false} FilterAgrees(s: seq<string>, p: string -> bool, q: string -> bool)
    ensures Filter(s, p) == Filter(s, q) <==> forall x :: x in s ==> p(x) == q(x)
  {
    FilterMembers(s, p);
    FilterMembers(s, q);
    if forall x :: x in s ==> p(x) == q(x) {
      FilterSame(s, p, q);
    } else {
      var x :| x in s && p(x) != q(x);
      assert x in Filter(s, p) <==> x !in Filter(s, q);
    }
  }

  lemma {:induction false} FilterSame(s: seq<string>, p: string -> bool, q: string -> bool)
    requires forall x :: x in s ==> p(x) == q(x)
    ensures Filter(s, p) == Filter(s, q)
  {
    if s != [] {
      assert s[0] in s && forall x :: x in s[1..] ==> x in s;
      FilterSame(s[1..], p, q);
    }
  }

  /** The gate then lists exactly the old misses without a copy next to the entrypoint, if and only if
      no such copy's place on the flat path was already taken (by something that is no library file). */
  lemma {:induction false} FlattenDropsOriginCopies<D(!new)>(
      members: seq<Member<D>>, base: seq<Member<D>>, plan: map<string, string>, read: Member<D> -> seq<string>,
      hasCopy: string -> bool)
    requires IsOriginPlan(plan, members, read) && AreReadable(members, plan, TodoList(members, plan))
    requires forall s :: hasCopy(s) <==> HasOriginCopy(members, s)
    ensures
      var before := UnsatisfiedNeeded(members, base, read);
      UnsatisfiedNeeded(Flattened(members, plan), base, read) == Filter(before, n => !hasCopy(n)) <==>
        forall s :: s in before && hasCopy(s) ==> Dest(s) !in Names(members)
  {
    var before := UnsatisfiedNeeded(members, base, read);
    FlattenThenGate(members, base, plan, read);
    FilterAgrees(before, n => n !in TodoList(members, plan), n => !hasCopy(n));
    forall s | s in before ensures s in plan <==> hasCopy(s) {
      UnsatisfiedMembers(members, base, read, s);
      assert IsPlanned(members, read, s) <==> HasOriginCopy(members, s);
    }
  }

  /** The entrypoint, a library next to it and a link in the library's place on the flat path. */
  function LinkedTar<D>(entry: D, lib: D, link: Option<D>, soname: string): seq<Member<D>> {
    [File(Arc(ENTRYPOINT), entry), File("./" + In(ORIGIN, soname), lib), NoFile(Dest(soname), link)]
  }

  lemma {:induction false} OriginPlace<D>(m: Member<D>, soname: string)
    requires IsFileName(soname) && m.name == "./" + In(ORIGIN, soname)
    ensures FlatName(m) == {} && IsOriginOf(m.name, soname)
  {
    StoredAt(ORIGIN, soname);
    OtherDir(ORIGIN, LIBDIR, soname);
    OtherDir(ORIGIN, TOP_LIBDIR, soname);
  }

  /** What the planner and the gate see of three members: the entrypoint, a copy, and no file. */
  lemma {:induction false} ThreeMembers<D(!new)>(e: Member<D>, l: Member<D>, x: Member<D>, soname: string)
    requires e.name != l.name && e.name != x.name && FlatName(e) == {} && FlatName(l) == {} && !x.File?
    requires IsOriginOf(l.name, soname)
    ensures GetMember([e, l, x], e.name) == Some(e) && HasOriginCopy([e, l, x], soname)
    ensures soname !in FlatNames([e, l, x]) && x.name in Names([e, l, x])
  {
    ThreeNames(e, l, x);
    assert l.name in Names([e, l, x]);
    NoFlatNames([e, l, x], soname);
  }

  lemma {:induction false} NoFlatNames<D>(members: seq<Member<D>>, soname: string)
    requires forall i :: 0 <= i < |members| ==> FlatName(members[i]) == {}
    ensures soname !in FlatNames(members)
  {
    UnionOfMember(members, m => FlatName(m), soname);
  }

  lemma {:induction false} LinkedView<D(!new)>(entry: D, lib: D, link: Option<D>, soname: string)
    requires IsFileName(soname) && soname != "chromium-shell"
    ensures
      var members := LinkedTar(entry, lib, link, soname);
      && GetMember(members, Arc(ENTRYPOINT)) == Some(File(Arc(ENTRYPOINT), entry))
      && HasOriginCopy(members, soname) && soname !in FlatNames(members) && Dest(soname) in Names(members)
  {
    var e, l := File(Arc(ENTRYPOINT), entry), File("./" + In(ORIGIN, soname), lib);
    EntryAtOrigin("chromium-shell");
    OriginPlace(e, "chromium-shell");
    OriginPlace(l, soname);
    OriginDiffers(soname, "chromium-shell");
    CopyIsFlat(File(Dest(soname), lib), soname);
    ThreeMembers(e, l, NoFile(Dest(soname), link), soname);
  }

  lemma {:induction false} OriginDiffers(a: string, b: string)
    ensures "./" + In(ORIGIN, a) == "./" + In(ORIGIN, b) ==> a == b
  {
    assert ("./" + In(ORIGIN, a))[2 + |ORIGIN| + 1..] == a && ("./" + In(ORIGIN, b))[2 + |ORIGIN| + 1..] == b;
  }

  lemma {:induction false} ThreeNames<D>(e: Member<D>, l: Member<D>, x: Member<D>)
    requires e.name != l.name && e.name != x.name
    ensures GetMember([e, l, x], e.name) == Some(e) && Names([e, l, x]) == {e.name, l.name, x.name}
  {
    assert [e, l, x][..2] == [e, l] && [e, l][..1] == [e] && [e][..0] == [];
    assert GetMember([e], e.name) == Some(e) && Names([e]) == {e.name};
  }

  /** On such a tar nothing is copied, and the gate keeps a library that has a copy next to the
      entrypoint. */
  lemma {:induction false} LinkedPlaceIsMissed<D(!new)>(
      entry: D, lib: D, link: Option<D>, soname: string, read: Member<D> -> seq<string>, plan: map<string, string>)
    requires IsFileName(soname) && soname != "chromium-shell" && !IsLoader(soname)
    requires read(File(Arc(ENTRYPOINT), entry)) == [soname]
    requires IsOriginPlan(plan, LinkedTar(entry, lib, link, soname), read)
    ensures
      var members := LinkedTar(entry, lib, link, soname);
      && soname in plan && HasOriginCopy(members, soname)
      && TodoList(members, plan) == [] && soname in UnsatisfiedNeeded(Flattened(members, plan), [], read)
  {
    var members := LinkedTar(entry, lib, link, soname);
    LinkedView(entry, lib, link, soname);
    assert EntryNeeded(members, ENTRYPOINT, read) == [soname];
    assert IsPlanned(members, read, soname);
    var todo := TodoList(members, plan);
    forall s ensures s !in todo {
      assert s in plan ==> IsPlanned(members, read, s);
    }
    NoElements(todo);
    assert members + [] == members;
    UnsatisfiedMembers(members, [], read, soname);
  }

  /** Planning again asks only for libraries whose place is taken, and flattening again adds nothing. */
  lemma {:induction false} ReplanAddsNothing<D(!new)>(
      members: seq<Member<D>>, plan: map<string, string>, again: map<string, string>, read: Member<D> -> seq<string>)
    requires IsOriginPlan(plan, members, read) && AreReadable(members, plan, TodoList(members, plan))
    requires IsOriginPlan(again, Flattened(members, plan), read)
    ensures forall s :: s in again <==> s in plan && Dest(s) in Names(members)
    ensures TodoList(Flattened(members, plan), again) == [] &&
      Flattened(Flattened(members, plan), again) == Flattened(members, plan)
  {
    var after := Flattened(members, plan);
    FlattenedView(members, plan, read);
    forall s ensures s in again <==> s in plan && Dest(s) in Names(members) {
      assert IsPlanned(after, read, s) <==> IsPlanned(members, read, s) && s !in TodoList(members, plan);
    }
    var todo := TodoList(after, again);
    forall s ensures s !in todo {
      assert s in todo ==> s in again && Dest(s) !in Names(after);
    }
    NoElements(todo);
    assert after + [] == after;
  }

  /** No member is lost or changed: the tar only grows, by one regular file for each copied library,
      with the bytes of its copy next to the entrypoint. */
  lemma {:induction false} FlattenOnlyAdds<D>(members: seq<Member<D>>, plan: map<string, string>, i: nat)
    requires AreReadable(members, plan, TodoList(members, plan)) && i < |TodoList(members, plan)|
    ensures
      var s, after := TodoList(members, plan)[i], Flattened(members, plan);
      && |after| == |members| + |TodoList(members, plan)| && after[..|members|] == members
      && after[|members| + i] == File(Dest(s), Blob(members, "./" + plan[s]).value)
  {
    CopyAt(members, plan, TodoList(members, plan), i);
  }

  lemma {:induction false} CopyAt<D>(members: seq<Member<D>>, plan: map<string, string>, sonames: seq<string>, i: nat)
    requires AreReadable(members, plan, sonames) && i < |sonames|
    ensures |Copies(members, plan, sonames)| == |sonames| &&
      Copies(members, plan, sonames)[i] == CopyOf(members, plan, sonames[i])
  {
    if i == |sonames| - 1 {
      if i > 0 { CopyAt(members, plan, sonames[..i], i - 1); }
    } else {
      CopyAt(members, plan, sonames[..|sonames| - 1], i);
    }
  }

  /** The planner looks at the overlay's flat path alone: a library that the base already provides there
      is copied all the same, from next to the entrypoint. */
  lemma {:induction false} BaseLibraryIsCopied<D(!new)>(
      members: seq<Member<D>>, base: seq<Member<D>>, plan: map<string, string>, read: Member<D> -> seq<string>,
      s: string)
    requires IsOriginPlan(plan, members, read) && AreReadable(members, plan, TodoList(members, plan))
    requires s in FlatNames(base) && IsPlanned(members, read, s) && Dest(s) !in Names(members)
    ensures s !in UnsatisfiedNeeded(members, base, read) && s in FlatNames(Flattened(members, plan))
  {
    UnsatisfiedMembers(members, base, read, s);
    FlattenedView(members, plan, read);
  }

  /** Regular members under the tar's root, as the packers write them. */
  ghost predicate AreRegularAtOrigin<D>(members: seq<Member<D>>) {
    forall i :: 0 <= i < |members| && InDir(ORIGIN, Rel(members[i].name)) ==>
      members[i].File? && members[i].name == "./" + Rel(members[i].name)
  }

  /** For such members every planned copy can be read, so flattening succeeds. */
  lemma {:induction false} RegularCopiesAreReadable<D(!new)>(
      members: seq<Member<D>>, plan: map<string, string>, read: Member<D> -> seq<string>)
    requires IsOriginPlan(plan, members, read) && AreRegularAtOrigin(members)
    ensures AreReadable(members, plan, TodoList(members, plan))
  {
    var todo := TodoList(members, plan);
    forall i | 0 <= i < |todo| ensures IsReadable(members, plan, todo[i]) {
      var s := todo[i];
      var n :| n in Names(members) && IsOriginOf(n, s) && plan[s] == Rel(n);
      NamesOf(members, n);
      GetMemberIsMember(members, n);
    }
  }
}
