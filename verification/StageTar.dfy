/** In-memory tars: named members in order, paths inside them, and the two library directories. */
module StageTar {
  import opened PyText

  /** A regular file with its data, or another member with what reading it yields: the data of the file
      that a link points to, nothing for a directory or a dangling link. */
  datatype Member<D> = File(name: string, data: D) | NoFile(name: string, bytes: Option<D>)

  datatype Result<T> = Ok(value: T) | MissingMember | Unreadable

  // --- paths ---------------------------------------------------------------------------------

  /** `name.lstrip("./")`: any leading dots and slashes go. */
  function Rel(name: string): string {
    if name != "" && (name[0] == '.' || name[0] == '/') then Rel(name[1..]) else name
  }

  /** `PurePosixPath(path).name`: the last part that is neither empty nor a dot. */
  function PathName(path: string): string
    decreases |path|
  {
    var i := RFind(path, '/');
    var last := path[i + 1..];
    if last != "" && last != "." then last else if i < 0 then "" else PathName(path[..i])
  }

  /** `rel` names something directly in `dir`. */
  predicate InDir(dir: string, rel: string) {
    dir + "/" <= rel && '/' !in rel[|dir| + 1..]
  }

  /** The member name under which `_add_bytes` stores a path. */
  function Arc(path: string): string {
    "./" + LStripChar(path, '/')
  }

  /** A name that stays one when it is put into a directory. */
  predicate IsFileName(n: string) {
    n != "" && n != "." && '/' !in n
  }

  /** A directory as the tools write it: no dots or slashes in front. */
  predicate IsDirName(d: string) {
    d != "" && d[0] != '.' && d[0] != '/'
  }

  function In(dir: string, n: string): string {
    dir + "/" + n
  }

  lemma {:induction false} LastSlash(dir: string, n: string)
    requires '/' !in n
    ensures RFind(In(dir, n), '/') == |dir| && In(dir, n)[..|dir|] == dir && In(dir, n)[|dir| + 1..] == n
  {
    var p := In(dir, n);
    assert p[|dir|] == '/';
    forall j | |dir| < j < |p| ensures p[j] != '/' { assert p[j] == n[j - |dir| - 1]; }
    RFindAt(p, '/', |dir|);
  }

  lemma {:induction false} PathNameIn(dir: string, n: string)
    requires '/' !in n
    ensures PathName(In(dir, n)) == if n != "" && n != "." then n else PathName(dir)
  {
    LastSlash(dir, n);
  }

  /** Whatever lies directly in a directory is the directory and a slash-free rest. */
  lemma {:induction false} InDirParts(dir: string, rel: string)
    requires InDir(dir, rel)
    ensures var n := rel[|dir| + 1..]; '/' !in n && rel == In(dir, n)
  {
    assert rel == rel[..|dir| + 1] + rel[|dir| + 1..];
  }

  lemma {:induction false} InIsInDir(dir: string, n: string)
    requires '/' !in n
    ensures InDir(dir, In(dir, n))
  {
    assert In(dir, n)[|dir| + 1..] == n;
  }

  /** A path has one parent. */
  lemma {:induction false} OneParent(d: string, e: string, n: string)
    requires '/' !in n && InDir(e, In(d, n))
    ensures d == e
  {
    InDirParts(e, In(d, n));
    LastSlash(d, n);
    LastSlash(e, In(d, n)[|e| + 1..]);
  }

  lemma {:induction false} PathNameIsFileName(path: string)
    ensures PathName(path) != "" ==> IsFileName(PathName(path))
    decreases |path|
  {
    var i := RFind(path, '/');
    if i >= 0 { PathNameIsFileName(path[..i]); }
  }

  lemma {:induction false} RelOf(rel: string)
    requires IsDirName(rel)
    ensures Rel("./" + rel) == rel && Arc(rel) == "./" + rel
  {
    var name := "./" + rel;
    assert name[1..] == "/" + rel && name[1..][1..] == rel;
    assert Rel(rel) == rel;
  }

  lemma {:induction false} RFindBehind(front: string, s: string, c: char)
    ensures RFind(s, c) >= 0 ==> RFind(front + s, c) == |front| + RFind(s, c)
    ensures RFind(s, c) < 0 && front != "" && front[|front| - 1] == c ==> RFind(front + s, c) == |front| - 1
  {
    var t := front + s;
    assert forall j :: 0 <= j < |s| ==> t[|front| + j] == s[j];
    if RFind(s, c) >= 0 {
      forall j | |front| + RFind(s, c) < j < |t| ensures t[j] != c { assert t[j] == s[j - |front|]; }
      RFindAt(t, c, |front| + RFind(s, c));
    } else if front != "" && front[|front| - 1] == c {
      assert t[|front| - 1] == c;
      forall j | |front| - 1 < j < |t| ensures t[j] != c { assert t[j] == s[j - |front|]; }
      RFindAt(t, c, |front| - 1);
    }
  }

  lemma {:induction false} PathNameStep(path: string, i: int, last: string)
    requires RFind(path, '/') == i && path[i + 1..] == last
    ensures last != "" && last != "." ==> PathName(path) == last
    ensures (last == "" || last == ".") && i >= 0 ==> PathName(path) == PathName(path[..i])
  {
  }

  lemma {:induction false} RootedSlices(rel: string, i: nat)
    requires i < |rel|
    ensures ("./" + rel)[2 + i + 1..] == rel[i + 1..] && ("./" + rel)[..2 + i] == "./" + rel[..i]
  {
  }

  /** The leading `./` of a member name does not change its last part. */
  lemma {:induction false} PathNameOfRooted(rel: string)
    requires IsDirName(rel)
    ensures PathName("./" + rel) == PathName(rel)
    decreases |rel|
  {
    var i := RFind(rel, '/');
    RFindBehind("./", rel, '/');
    PathNameStep(rel, i, rel[i + 1..]);
    if i >= 0 {
      RootedSlices(rel, i);
      PathNameStep("./" + rel, 2 + i, rel[i + 1..]);
      assert i > 0;
      PathNameOfRooted(rel[..i]);
    } else {
      assert rel[0..] == rel && ("./" + rel)[2..] == rel;
      PathNameStep("./" + rel, 1, rel);
    }
  }

  /** `lstrip` takes off a front. */
  lemma {:induction false} RelSplit(name: string) returns (front: string)
    ensures name == front + Rel(name)
  {
    if name != "" && (name[0] == '.' || name[0] == '/') {
      var rest := RelSplit(name[1..]);
      front := [name[0]] + rest;
      assert name == [name[0]] + name[1..];
    } else {
      front := "";
    }
  }

  lemma {:induction false} InBehind(front: string, d: string, n: string)
    ensures front + In(d, n) == In(front + d, n)
  {
  }

  /** What stands in front of a directory does not change the last part of a name in it. */
  lemma {:induction false} PathNameBehind(front: string, d: string, last: string, n: string)
    requires IsFileName(last) && '/' !in n
    ensures PathName(front + In(In(d, last), n)) == PathName(In(In(d, last), n))
  {
    InBehind(front, In(d, last), n);
    InBehind(front, d, last);
    PathNameIn(In(front + d, last), n);
    PathNameIn(In(d, last), n);
    PathNameIn(front + d, last);
    PathNameIn(d, last);
  }

  /** Nothing lies directly in two directories. */
  lemma {:induction false} OtherDir(dir: string, other: string, n: string)
    requires '/' !in n && other != dir
    ensures !InDir(other, In(dir, n))
  {
    if InDir(other, In(dir, n)) { OneParent(dir, other, n); }
  }

  lemma {:induction false} DirsDiffer(d: string, e: string, x: string, y: string)
    requires '/' !in x && '/' !in y && d != e
    ensures "./" + In(d, x) != "./" + In(e, y)
  {
    LastSlash(d, x);
    LastSlash(e, y);
    assert ("./" + In(d, x))[2..] == In(d, x) && ("./" + In(e, y))[2..] == In(e, y);
  }

  /** A file stored in one directory is not found in another. */
  lemma {:induction false} Apart(dir: string, other: string, n: string, e: string)
    requires IsDirName(dir) && IsFileName(n) && IsFileName(e) && |dir| > |other|
    ensures !InDir(other, Rel("./" + In(dir, n))) && "./" + In(dir, n) != "./" + In(other, e)
  {
    StoredAt(dir, n);
    OtherDir(dir, other, n);
    DirsDiffer(dir, other, n, e);
  }

  /** Where a file stored directly in a directory is found again. */
  lemma {:induction false} StoredAt(dir: string, n: string)
    requires IsDirName(dir) && IsFileName(n)
    ensures Arc(In(dir, n)) == "./" + In(dir, n) && Rel("./" + In(dir, n)) == In(dir, n)
    ensures InDir(dir, In(dir, n)) && PathName(In(dir, n)) == n && PathName("./" + In(dir, n)) == n
  {
    RelOf(In(dir, n));
    InIsInDir(dir, n);
    PathNameIn(dir, n);
    PathNameOfRooted(In(dir, n));
  }

  lemma {:induction false} ArcDiffers(dir: string, a: string, b: string)
    requires IsDirName(dir) && Arc(In(dir, a)) == Arc(In(dir, b))
    ensures a == b
  {
    RelOf(In(dir, a));
    RelOf(In(dir, b));
    assert In(dir, a) == ("./" + In(dir, a))[2..] && In(dir, b) == ("./" + In(dir, b))[2..];
    assert a == In(dir, a)[|dir| + 1..] && b == In(dir, b)[|dir| + 1..];
  }

  // --- tars ----------------------------------------------------------------------------------------

  /** `_member_names`. */
  function Names<D>(members: seq<Member<D>>): (names: set<string>) {
    if members == [] then {} else Names(members[..|members| - 1]) + {members[|members| - 1].name}
  }

  /** What the members provide together. */
  function UnionOf<D>(members: seq<Member<D>>, of: Member<D> -> set<string>): set<string> {
    if members == [] then {} else UnionOf(members[..|members| - 1], of) + of(members[|members| - 1])
  }

  lemma {:induction false} UnionOfNext<D>(members: seq<Member<D>>, i: nat, of: Member<D> -> set<string>)
    requires i < |members|
    ensures UnionOf(members[..i + 1], of) == UnionOf(members[..i], of) + of(members[i])
  {
    assert members[..i + 1][..i] == members[..i];
  }

  lemma {:induction false} UnionOfConcat<D>(a: seq<Member<D>>, b: seq<Member<D>>, of: Member<D> -> set<string>)
    ensures UnionOf(a + b, of) == UnionOf(a, of) + UnionOf(b, of)
  {
    if b == [] {
      assert a + b == a;
    } else {
      UnionOfConcat(a, b[..|b| - 1], of);
      assert (a + b)[..|a + b| - 1] == a + b[..|b| - 1];
    }
  }

  lemma {:induction false} UnionOfMember<D>(members: seq<Member<D>>, of: Member<D> -> set<string>, x: string)
    ensures x in UnionOf(members, of) <==> exists i :: 0 <= i < |members| && x in of(members[i])
  {
    if members != [] {
      var front := members[..|members| - 1];
      UnionOfMember(front, of, x);
      assert forall i :: 0 <= i < |front| ==> front[i] == members[i];
    }
  }

  /** `getmember`: the last member of that name. */
  function GetMember<D>(members: seq<Member<D>>, name: string): Option<Member<D>> {
    if members == [] then None
    else if members[|members| - 1].name == name then Some(members[|members| - 1])
    else GetMember(members[..|members| - 1], name)
  }

  /** What `extractfile` finds behind a member. */
  function Bytes<D>(m: Member<D>): Option<D> {
    match m
    case File(_, data) => Some(data)
    case NoFile(_, bytes) => bytes
  }

  /** The bytes behind the last member of that name, when it can be read. */
  function Blob<D>(members: seq<Member<D>>, name: string): Option<D> {
    var m := GetMember(members, name);
    if m.Some? then Bytes(m.value) else None
  }

  lemma {:induction false} NamesOf<D>(members: seq<Member<D>>, name: string)
    ensures name in Names(members) <==> exists i :: 0 <= i < |members| && members[i].name == name
    ensures name in Names(members) <==> GetMember(members, name).Some?
  {
    if members != [] {
      var front := members[..|members| - 1];
      NamesOf(front, name);
      assert forall i :: 0 <= i < |front| ==> front[i] == members[i];
    }
  }

  lemma {:induction false} NamesOfConcat<D>(a: seq<Member<D>>, b: seq<Member<D>>)
    ensures Names(a + b) == Names(a) + Names(b)
  {
    if b == [] {
      assert a + b == a;
    } else {
      NamesOfConcat(a, b[..|b| - 1]);
      assert (a + b)[..|a + b| - 1] == a + b[..|b| - 1];
    }
  }

  lemma {:induction false} GetMemberOfConcat<D>(a: seq<Member<D>>, b: seq<Member<D>>, name: string)
    ensures GetMember(a + b, name) == if name in Names(b) then GetMember(b, name) else GetMember(a, name)
  {
    if b == [] {
      assert a + b == a;
    } else {
      GetMemberOfConcat(a, b[..|b| - 1], name);
      assert (a + b)[..|a + b| - 1] == a + b[..|b| - 1];
    }
  }

  lemma {:induction false} GetMemberIsMember<D>(members: seq<Member<D>>, name: string)
    requires GetMember(members, name).Some?
    ensures exists i :: 0 <= i < |members| && members[i] == GetMember(members, name).value && members[i].name == name
  {
    if members[|members| - 1].name != name {
      GetMemberIsMember(members[..|members| - 1], name);
    }
  }

  class Tar<D> {
    var members: seq<Member<D>>

    constructor ()
      ensures members == []
    {
      members := [];
    }

    /** `_add_bytes`. */
    method AddBytes(path: string, data: D)
      modifies this
      ensures members == old(members) + [File(Arc(path), data)]
    {
      members := members + [File(Arc(path), data)];
    }
  }

  /** The flat library directory, where added libraries go. */
  const LIBDIR := In("usr/lib", ARCH_TRIPLET)

  const ARCH_TRIPLET := "aarch64-linux-gnu"

  const ORIGIN := "usr/lib/chromium"

  /** `soname.startswith("ld-linux")`: the loader itself. */
  predicate IsLoader(soname: string) {
    "ld-linux" <= soname
  }

  /** The DT_NEEDED list of the entrypoint, empty when the tar lacks it. */
  function EntryNeeded<D>(members: seq<Member<D>>, entry: string, read: Member<D> -> seq<string>): seq<string> {
    var m := GetMember(members, Arc(entry));
    if m.Some? then read(m.value) else []
  }

  /** The entrypoint lies directly in its directory. */
  lemma {:induction false} EntryAtOrigin(n: string)
    requires IsFileName(n)
    ensures Arc("/" + In(ORIGIN, n)) == "./" + In(ORIGIN, n)
  {
    assert ("/" + In(ORIGIN, n))[1..] == In(ORIGIN, n);
    StoredAt(ORIGIN, n);
  }

  // --- filtering a list ----------------------------------------------------------------------------

  function Filter(s: seq<string>, keep: string -> bool): seq<string> {
    if s == [] then [] else (if keep(s[0]) then [s[0]] else []) + Filter(s[1..], keep)
  }

  lemma {:induction false} FilterMembers(s: seq<string>, keep: string -> bool)
    ensures forall x :: x in Filter(s, keep) <==> x in s && keep(x)
  {
    if s != [] {
      FilterMembers(s[1..], keep);
      assert s == [s[0]] + s[1..];
    }
  }

  lemma {:induction false} FilterCounts(s: seq<string>, keep: string -> bool, x: string)
    ensures multiset(Filter(s, keep))[x] == if keep(x) then multiset(s)[x] else 0
  {
    if s != [] {
      FilterCounts(s[1..], keep, x);
      assert s == [s[0]] + s[1..];
    }
  }

  lemma {:induction false} FilterSorted(s: seq<string>, keep: string -> bool)
    requires Sorted(s)
    ensures Sorted(Filter(s, keep))
  {
    if s != [] {
      var r := Filter(s[1..], keep);
      FilterSorted(s[1..], keep);
      FilterMembers(s[1..], keep);
      forall k | 0 <= k < |r| ensures StrLe(s[0], r[k]) {
        assert r[k] in s[1..];
      }
    }
  }

  /** Dropping some elements and sorting can be done in either order. */
  lemma {:induction false} FilterOfSort(s: seq<string>, p: string -> bool, q: string -> bool, both: string -> bool)
    requires forall x :: x in s ==> (both(x) <==> p(x) && q(x))
    ensures Sort(Filter(s, both)) == Filter(Sort(Filter(s, p)), q)
  {
    var a, b := Sort(Filter(s, both)), Filter(Sort(Filter(s, p)), q);
    FilterSorted(Sort(Filter(s, p)), q);
    forall x ensures multiset(a)[x] == multiset(b)[x] {
      FilterCounts(s, both, x);
      FilterCounts(s, p, x);
      FilterCounts(Sort(Filter(s, p)), q, x);
      assert multiset(s)[x] > 0 ==> x in s;
    }
    assert multiset(a) == multiset(b);
    SortedIsUnique(a, b);
  }
}
