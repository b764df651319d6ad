/** The LD_PRELOAD value of an apt drain process and of the children it execs. */
module PreloadChain {
  import opened PyText

  const INTERPOSE_REL := "usr/lib/androlinux/libalr_interpose.so"
  const FAKEROOT_REL := "usr/lib/androlinux/libalr_fakeroot.so"

  function Abs(rootfs: string, rel: string): string {
    RStripChar(rootfs, '/') + "/" + LStripChar(rel, '/')
  }

  // --- first occurrences -------------------------------------------------------------------

  /** The entries outside `skip`, each at its first occurrence. */
  function Keep<T(==)>(skip: set<T>, entries: seq<T>): seq<T> {
    if entries == [] then []
    else
      var kept, last := Keep(skip, entries[..|entries| - 1]), entries[|entries| - 1];
      if last in skip || last in kept then kept else kept + [last]
  }

  ghost predicate IsFirst<T>(entries: seq<T>, i: nat, x: T) {
    i < |entries| && entries[i] == x && x !in entries[..i]
  }

  /** What is kept: every entry outside `skip`, once, in the order of first occurrence. */
  lemma {:induction false} KeepFirstOccurrences<T>(skip: set<T>, entries: seq<T>)
    ensures var kept := Keep(skip, entries);
      && Distinct(kept)
      && (forall k :: 0 <= k < |kept| ==> kept[k] in entries && kept[k] !in skip)
      && (forall i :: 0 <= i < |entries| ==> entries[i] in kept || entries[i] in skip)
      && (forall a, b, i: nat, j: nat ::
           0 <= a < b < |kept| && IsFirst(entries, i, kept[a]) && IsFirst(entries, j, kept[b]) ==> i < j)
  {
    if entries != [] {
      var front, last := entries[..|entries| - 1], entries[|entries| - 1];
      KeepFirstOccurrences(skip, front);
      var before, kept := Keep(skip, front), Keep(skip, entries);
      assert forall i :: 0 <= i < |front| ==> entries[i] == front[i];
      forall a, b, i: nat, j: nat | 0 <= a < b < |kept| && IsFirst(entries, i, kept[a]) && IsFirst(entries, j, kept[b])
        ensures i < j
      {
        assert kept[a] == before[a] && kept[a] in front;
        assert i < |front| && front[..i] == entries[..i] && IsFirst(front, i, before[a]);
        if j < |front| {
          assert front[..j] == entries[..j];
          assert b < |before|;
          assert IsFirst(front, j, before[b]);
        }
      }
    }
  }

  lemma {:induction false} KeepSkipsPrefix<T>(skip: set<T>, ours: seq<T>, guests: seq<T>)
    requires forall i :: 0 <= i < |ours| ==> ours[i] in skip
    requires Distinct(guests) && forall i :: 0 <= i < |guests| ==> guests[i] !in skip
    ensures Keep(skip, ours + guests) == guests
  {
    var all := ours + guests;
    if guests != [] {
      var front := guests[..|guests| - 1];
      assert all[..|all| - 1] == ours + front;
      KeepSkipsPrefix(skip, ours, front);
      assert guests == front + [guests[|guests| - 1]];
    } else if ours != [] {
      assert all[..|all| - 1] == ours[..|ours| - 1] + guests;
      KeepSkipsPrefix(skip, ours[..|ours| - 1], guests);
    }
  }

  lemma {:induction false} KeepNext<T>(skip: set<T>, entries: seq<T>, i: nat, first: seq<T>)
    requires i < |entries| && forall k :: 0 <= k < |first| ==> first[k] in skip
    ensures var chain := first + Keep(skip, entries[..i]);
      first + Keep(skip, entries[..i + 1]) ==
        if entries[i] in skip || entries[i] in chain then chain else chain + [entries[i]]
  {
    assert entries[..i + 1][..i] == entries[..i];
    var kept := Keep(skip, entries[..i]);
    assert entries[i] in first + kept <==> entries[i] in first || entries[i] in kept;
    assert first + (kept + [entries[i]]) == first + kept + [entries[i]];
  }

  // --- the value and its entries -----------------------------------------------------------

  datatype Entry = Entry(path: string)

  /** The two shims of a rootfs. */
  datatype Shims = Shims(interpose: Entry, fakeroot: Entry)

  function ShimsOf(rootfs: string): Shims {
    Shims(Entry(Abs(rootfs, INTERPOSE_REL)), Entry(Abs(rootfs, FAKEROOT_REL)))
  }

  /** The stripped entries of a preload value, blank ones included. */
  function Parse(value: string): (entries: seq<Entry>)
    ensures |entries| == |Split(value, ':')|
    ensures forall i :: 0 <= i < |entries| ==> entries[i] == Entry(Strip(Split(value, ':')[i]))
  {
    var parts := Split(value, ':');
    seq(|parts|, i requires 0 <= i < |parts| => Entry(Strip(parts[i])))
  }

  function Print(entries: seq<Entry>): string {
    Join(Paths(entries), ':')
  }

  function Paths(entries: seq<Entry>): (paths: seq<string>)
    ensures |paths| == |entries|
    ensures forall i :: 0 <= i < |entries| ==> paths[i] == entries[i].path
  {
    seq(|entries|, i requires 0 <= i < |entries| => entries[i].path)
  }

  predicate IsClean(e: Entry) {
    IsStripped(e.path) && ':' !in e.path
  }

  ghost predicate AllClean(entries: seq<Entry>) {
    forall e :: e in entries ==> IsClean(e)
  }

  lemma {:induction false} ParseIsClean(value: string)
    ensures AllClean(Parse(value))
  {
    forall i | 0 <= i < |Parse(value)| ensures IsClean(Parse(value)[i]) {
      PartIsClean(value, i);
    }
  }

  lemma {:induction false} PartIsClean(value: string, i: nat)
    requires i < |Split(value, ':')|
    ensures IsClean(Entry(Strip(Split(value, ':')[i])))
  {
    SplitPartsFree(value, ':');
    StripIsStripped(Split(value, ':')[i]);
  }

  lemma {:induction false} ParsedAt(value: string, part: string, i: nat)
    requires i < |Split(value, ':')| && Split(value, ':')[i] == part
    ensures |Parse(value)| == |Split(value, ':')| && Parse(value)[i] == Entry(Strip(part))
  {
  }

  lemma {:induction false} PathsAreFree(entries: seq<Entry>)
    requires AllClean(entries)
    ensures FreeOf(Paths(entries), ':')
  {
    forall i | 0 <= i < |entries| ensures ':' !in Paths(entries)[i] {
      assert entries[i] in entries;
    }
  }

  lemma {:induction false} CleanIsKept(e: Entry)
    requires IsClean(e)
    ensures Entry(Strip(e.path)) == e
  {
    StripIsStripped(e.path);
  }

  lemma {:induction false} ParsePrint(entries: seq<Entry>)
    requires entries != [] && AllClean(entries)
    ensures Parse(Print(entries)) == entries
  {
    var value, paths := Print(entries), Paths(entries);
    PathsAreFree(entries);
    SplitJoin(paths, ':');
    ParsedAt(value, paths[0], 0);
    var parsed := Parse(value);
    forall i | 0 <= i < |entries| ensures parsed[i] == entries[i] {
      assert entries[i] in entries;
      CleanIsKept(entries[i]);
      ParsedAt(value, paths[i], i);
    }
  }

  // --- the chain ---------------------------------------------------------------------------

  function Ours(shims: Shims, fakeroot: bool): seq<Entry> {
    if fakeroot then [shims.fakeroot, shims.interpose] else [shims.interpose]
  }

  function Skipped(shims: Shims): set<Entry> {
    {Entry(""), shims.fakeroot, shims.interpose}
  }

  /** The entries of the preload value: ours, then the guest's. */
  function Entries(shims: Shims, fakeroot: bool, existing: seq<Entry>): seq<Entry> {
    Ours(shims, fakeroot) + Keep(Skipped(shims), existing)
  }

  function Chain(rootfs: string, fakeroot: bool, existing: string): string {
    Print(Entries(ShimsOf(rootfs), fakeroot, Parse(existing)))
  }

  method ChainLdPreload(rootfs: string, fakeroot: bool, existing: string) returns (r: string)
    ensures r == Chain(rootfs, fakeroot, existing)
  {
    var interpose, fakerootSo := Entry(Abs(rootfs, INTERPOSE_REL)), Entry(Abs(rootfs, FAKEROOT_REL));
    var chain := MergeGuests(Shims(interpose, fakerootSo), fakeroot, Parse(existing));
    return Print(chain);
  }

  method MergeGuests(shims: Shims, fakeroot: bool, entries: seq<Entry>) returns (chain: seq<Entry>)
    ensures chain == Entries(shims, fakeroot, entries)
  {
    chain := [];
    if fakeroot {
      chain := chain + [shims.fakeroot];
    }
    chain := chain + [shims.interpose];
    ghost var first, skip := chain, Skipped(shims);
    var ours := {shims.fakeroot, shims.interpose};
    var seen := set x | x in chain;
    for i := 0 to |entries|
      invariant chain == first + Keep(skip, entries[..i])
      invariant forall x :: x in seen <==> x in chain
    {
      KeepNext(skip, entries, i, first);
      var entry := entries[i];
      if entry.path == "" || entry in ours || entry in seen {
        continue;
      }
      seen := seen + {entry};
      chain := chain + [entry];
    }
    TakeAll(entries);
  }

  // --- re-injection in exec'd children -----------------------------------------------------

  /** No separator in the rootfs path, and no blank in front of it. */
  predicate IsCleanRootfs(rootfs: string) {
    ':' !in rootfs && (rootfs == "" || !IsSpace(rootfs[0]))
  }

  ghost predicate IsShimRel(rel: string) {
    ':' !in rel && rel != "" && rel[0] != '/' && rel[|rel| - 1] == 'o'
  }

  lemma {:induction false} InterposeRelIsClean()
    ensures IsShimRel(INTERPOSE_REL) && |INTERPOSE_REL| == 38
  {
  }

  lemma {:induction false} FakerootRelIsClean()
    ensures IsShimRel(FAKEROOT_REL) && |FAKEROOT_REL| == 37
  {
  }

  lemma {:induction false} AbsIsClean(rootfs: string, rel: string)
    requires IsShimRel(rel)
    ensures |Abs(rootfs, rel)| == |RStripChar(rootfs, '/')| + 1 + |rel| &&
      Abs(rootfs, rel)[|Abs(rootfs, rel)| - 1] == 'o'
    ensures ':' !in rootfs <==> ':' !in Abs(rootfs, rel)
    ensures IsCleanRootfs(rootfs) ==> IsClean(Entry(Abs(rootfs, rel)))
    ensures rootfs != "" && IsSpace(rootfs[0]) ==> IsSpace(Abs(rootfs, rel)[0])
  {
    var base, abs := RStripChar(rootfs, '/'), Abs(rootfs, rel);
    assert abs == base + "/" + rel;
    assert abs[|abs| - 1] == rel[|rel| - 1];
    if ':' in rootfs {
      var i :| 0 <= i < |rootfs| && rootfs[i] == ':';
      assert base[i] == ':' && abs[i] == ':';
    }
    assert base == "" ==> abs[0] == '/';
    assert base != "" ==> abs[0] == rootfs[0];
    assert rootfs != "" && IsSpace(rootfs[0]) ==> base != "";
  }

  /** What the arguments below need to know about the shims of a rootfs. */
  lemma {:induction false} ShimFacts(rootfs: string)
    ensures var s := ShimsOf(rootfs);
      && s.interpose != s.fakeroot && s.interpose.path != "" && s.fakeroot.path != ""
      && s.interpose.path[|s.interpose.path| - 1] == 'o'
      && (IsCleanRootfs(rootfs) ==> IsClean(s.interpose) && IsClean(s.fakeroot))
      && (':' in rootfs ==> ':' in s.interpose.path && ':' in s.fakeroot.path)
      && (rootfs != "" && IsSpace(rootfs[0]) ==> IsSpace(s.interpose.path[0]) && IsSpace(s.fakeroot.path[0]))
  {
    InterposeRelIsClean();
    FakerootRelIsClean();
    AbsIsClean(rootfs, INTERPOSE_REL);
    AbsIsClean(rootfs, FAKEROOT_REL);
  }

  lemma {:induction false} EntriesAreClean(shims: Shims, fakeroot: bool, value: string)
    requires IsClean(shims.interpose) && IsClean(shims.fakeroot)
    ensures AllClean(Entries(shims, fakeroot, Parse(value)))
  {
    ParseIsClean(value);
    KeepFirstOccurrences(Skipped(shims), Parse(value));
    var kept := Keep(Skipped(shims), Parse(value));
    forall e | e in kept ensures IsClean(e) {
      assert e in Parse(value);
    }
  }

  lemma {:induction false} MergeAgain(shims: Shims, f1: bool, f2: bool, existing: seq<Entry>)
    ensures Entries(shims, f2, Entries(shims, f1, existing)) == Entries(shims, f2, existing)
  {
    KeepFirstOccurrences(Skipped(shims), existing);
    KeepSkipsPrefix(Skipped(shims), Ours(shims, f1), Keep(Skipped(shims), existing));
  }

  /** A child that re-injects its parent's value gets what it would have got from the guest's own. */
  lemma {:induction false} Absorption(rootfs: string, f1: bool, f2: bool, existing: string)
    requires IsCleanRootfs(rootfs)
    ensures Chain(rootfs, f2, Chain(rootfs, f1, existing)) == Chain(rootfs, f2, existing)
  {
    ShimFacts(rootfs);
    EntriesAreClean(ShimsOf(rootfs), f1, existing);
    ParsePrint(Entries(ShimsOf(rootfs), f1, Parse(existing)));
    MergeAgain(ShimsOf(rootfs), f1, f2, Parse(existing));
  }

  ghost predicate Absorbs(rootfs: string) {
    forall f1, f2, existing :: Chain(rootfs, f2, Chain(rootfs, f1, existing)) == Chain(rootfs, f2, existing)
  }

  /** The law holds for exactly the clean rootfs paths. */
  lemma {:induction false} AbsorptionIffClean(rootfs: string)
    ensures Absorbs(rootfs) <==> IsCleanRootfs(rootfs)
  {
    if IsCleanRootfs(rootfs) {
      forall f1, f2, existing ensures Chain(rootfs, f2, Chain(rootfs, f1, existing)) == Chain(rootfs, f2, existing) {
        Absorption(rootfs, f1, f2, existing);
      }
    } else {
      UncleanAccumulates(rootfs);
      assert |Chain(rootfs, false, Chain(rootfs, false, ""))| > |Chain(rootfs, false, "")|;
    }
  }

  lemma {:induction false} LastPart(s: string, sep: char)
    requires s != [] && s[|s| - 1] != sep
    ensures var parts := Split(s, sep); var p := parts[|parts| - 1];
      |p| > 0 && p[|p| - 1] == s[|s| - 1]
  {
    if |s| > 1 {
      LastPart(s[1..], sep);
    } else {
      assert Split(s[1..], sep) == [[]];
    }
  }

  /** Under an unclean rootfs path even the bare chain grows when it is re-injected. */
  lemma {:induction false} UncleanAccumulates(rootfs: string)
    requires !IsCleanRootfs(rootfs)
    ensures |Chain(rootfs, false, Chain(rootfs, false, ""))| > |Chain(rootfs, false, "")|
  {
    var shims := ShimsOf(rootfs);
    ShimFacts(rootfs);
    BareChain(shims);
    assert !IsClean(shims.interpose) && !IsClean(shims.fakeroot);
    StrangerIsParsed(shims);
    KeepFirstOccurrences(Skipped(shims), Parse(shims.interpose.path));
    var guests := Keep(Skipped(shims), Parse(shims.interpose.path));
    assert guests != [];
    LongerPrint(shims.interpose, guests);
  }

  lemma {:induction false} BareChain(shims: Shims)
    ensures Print(Entries(shims, false, Parse(""))) == shims.interpose.path
  {
    var none := Parse("");
    assert Split("", ':') == [""] && Strip("") == "";
    assert none == [Entry("")];
    assert Keep(Skipped(shims), none[..0]) == [];
    assert Entries(shims, false, none) == [shims.interpose];
    assert Paths([shims.interpose]) == [shims.interpose.path];
  }

  /** Parsing the bare interpose entry yields an entry that is none of ours. */
  lemma {:induction false} StrangerIsParsed(shims: Shims)
    requires !IsClean(shims.interpose) && !IsClean(shims.fakeroot)
    requires shims.interpose.path != "" && shims.interpose.path[|shims.interpose.path| - 1] == 'o'
    ensures exists i :: 0 <= i < |Parse(shims.interpose.path)| && Parse(shims.interpose.path)[i] !in Skipped(shims)
  {
    var mine := shims.interpose.path;
    var last := |Split(mine, ':')| - 1;
    LastEntryIsNotBlank(mine, last);
    PartIsClean(mine, last);
    CleanIsNotOurs(shims, Parse(mine)[last]);
  }

  lemma {:induction false} CleanIsNotOurs(shims: Shims, e: Entry)
    requires !IsClean(shims.interpose) && !IsClean(shims.fakeroot)
    requires IsClean(e) && e.path != ""
    ensures e !in Skipped(shims)
  {
    assert e != shims.interpose;
    assert e != shims.fakeroot;
  }

  lemma {:induction false} VisibleEnd(s: string)
    requires |s| > 0 && s[|s| - 1] == 'o'
    ensures |Strip(s)| > 0
  {
    NonBlankStrip(s, |s| - 1);
  }

  lemma {:induction false} LastEntryIsNotBlank(value: string, last: nat)
    requires |value| > 0 && value[|value| - 1] == 'o' && last + 1 == |Split(value, ':')|
    ensures last + 1 == |Parse(value)| && |Parse(value)[last].path| > 0
  {
    LastPart(value, ':');
    var part := Split(value, ':')[last];
    VisibleEnd(part);
    ParsedAt(value, part, last);
  }

  lemma {:induction false} LongerPrint(first: Entry, guests: seq<Entry>)
    requires guests != []
    ensures |Print([first] + guests)| > |first.path|
  {
    var paths := Paths([first] + guests);
    assert paths[0] == first.path && |paths| > 1;
  }

  /** Along any chain of exec'd children only the last one's fakeroot choice remains visible. */
  function ExecChain(rootfs: string, flags: seq<bool>, existing: string): string {
    if flags == [] then existing
    else Chain(rootfs, flags[|flags| - 1], ExecChain(rootfs, flags[..|flags| - 1], existing))
  }

  lemma {:induction false} ExecChainCollapses(rootfs: string, flags: seq<bool>, existing: string)
    requires IsCleanRootfs(rootfs) && flags != []
    ensures ExecChain(rootfs, flags, existing) == Chain(rootfs, flags[|flags| - 1], existing)
    decreases |flags|
  {
    var front := flags[..|flags| - 1];
    if front != [] {
      ExecChainCollapses(rootfs, front, existing);
      Absorption(rootfs, front[|front| - 1], flags[|flags| - 1], existing);
    }
  }

  /** Read back from the value: the interpose entry once, fakeroot first exactly when asked for and
      otherwise absent, and behind them the guest's own entries, each once. */
  lemma {:induction false} ChainLayout(rootfs: string, fakeroot: bool, existing: string)
    requires IsCleanRootfs(rootfs)
    ensures var shims, entries := ShimsOf(rootfs), Parse(Chain(rootfs, fakeroot, existing));
      && Distinct(entries)
      && shims.interpose in entries
      && (shims.fakeroot in entries <==> fakeroot)
      && (entries[0] == shims.fakeroot <==> fakeroot)
      && entries[(if fakeroot then 2 else 1)..] == Keep(Skipped(shims), Parse(existing))
  {
    ShimFacts(rootfs);
    var shims := ShimsOf(rootfs);
    EntriesAreClean(shims, fakeroot, existing);
    ParsePrint(Entries(shims, fakeroot, Parse(existing)));
    LayoutOfEntries(shims, fakeroot, Parse(existing));
  }

  lemma {:induction false} LayoutOfEntries(shims: Shims, fakeroot: bool, existing: seq<Entry>)
    requires shims.interpose != shims.fakeroot
    ensures var entries := Entries(shims, fakeroot, existing);
      && Distinct(entries)
      && shims.interpose in entries
      && (shims.fakeroot in entries <==> fakeroot)
      && (entries[0] == shims.fakeroot <==> fakeroot)
      && entries[(if fakeroot then 2 else 1)..] == Keep(Skipped(shims), existing)
  {
    KeepFirstOccurrences(Skipped(shims), existing);
    var ours, entries := Ours(shims, fakeroot), Entries(shims, fakeroot, existing);
    assert entries[|ours| - 1] == shims.interpose;
    assert entries[|ours|..] == Keep(Skipped(shims), existing);
  }
}
