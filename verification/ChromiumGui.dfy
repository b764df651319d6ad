/** The chromium GUI stage tar: aliases for libraries wanted under another version, the added
    libraries, and the gate on what is still missing. */
module ChromiumGui {
  import opened PyText
  import opened StageTar

  const ENTRYPOINT := "/" + In(ORIGIN, "chromium")

  /** What `parse_solib` tells of a versioned library name. */
  datatype Lib = Lib(stem: string, version: seq<int>)

  /** Python's order on tuples of int. */
  predicate VersionLe(a: seq<int>, b: seq<int>) {
    a == [] || (b != [] && (a[0] < b[0] || (a[0] == b[0] && VersionLe(a[1..], b[1..]))))
  }

  lemma {:induction false} VersionLeTotal(a: seq<int>, b: seq<int>)
    ensures VersionLe(a, b) || VersionLe(b, a)
  {
    if a != [] && b != [] { VersionLeTotal(a[1..], b[1..]); }
  }

  lemma {:induction false} VersionLeTransitive(a: seq<int>, b: seq<int>, c: seq<int>)
    requires VersionLe(a, b) && VersionLe(b, c)
    ensures VersionLe(a, c)
  {
    if a != [] && a[0] == b[0] && b[0] == c[0] { VersionLeTransitive(a[1..], b[1..], c[1..]); }
  }

  // --- the libraries on the flat path --------------------------------------------------------

  /** One entry of the name-to-path dict. */
  datatype Real = Real(name: string, rel: string)

  /** Setting a key of the dict: in place, or behind the others. */
  function SetItem(reals: seq<Real>, r: Real): seq<Real> {
    if reals == [] then [r]
    else if reals[0].name == r.name then [r] + reals[1..]
    else [reals[0]] + SetItem(reals[1..], r)
  }

  predicate HasKey(reals: seq<Real>, name: string) {
    exists i :: 0 <= i < |reals| && reals[i].name == name
  }

  predicate IsRealLib<D>(m: Member<D>) {
    m.File? && InDir(LIBDIR, Rel(m.name))
  }

  function RealOf<D>(m: Member<D>): Real {
    Real(PathName(Rel(m.name)), Rel(m.name))
  }

  /** `_overlay_real_libs`. */
  function OverlayReals<D>(members: seq<Member<D>>): seq<Real> {
    if members == [] then []
    else
      var reals, m := OverlayReals(members[..|members| - 1]), members[|members| - 1];
      if IsRealLib(m) then SetItem(reals, RealOf(m)) else reals
  }

  method OverlayRealLibs<D>(tar: Tar<D>) returns (out: seq<Real>)
    ensures out == OverlayReals(tar.members)
  {
    out := [];
    for i := 0 to |tar.members|
      invariant out == OverlayReals(tar.members[..i])
    {
      var m := tar.members[i];
      assert tar.members[..i + 1][..i] == tar.members[..i];
      if !m.File? { continue; }
      var rel := Rel(m.name);
      if InDir(LIBDIR, rel) { out := SetItem(out, Real(PathName(rel), rel)); }
    }
    TakeAll(tar.members);
  }

  lemma {:induction false} SetItemKeys(reals: seq<Real>, r: Real, name: string)
    ensures HasKey(SetItem(reals, r), name) <==> HasKey(reals, name) || name == r.name
  {
    var after := SetItem(reals, r);
    if reals == [] {
      assert after[0] == r;
    } else if reals[0].name == r.name {
      assert after[0] == r && forall i :: 0 < i < |reals| ==> after[i] == reals[i];
    } else {
      SetItemKeys(reals[1..], r, name);
      HasKeySplit(reals, name);
      HasKeySplit(after, name);
      assert after[1..] == SetItem(reals[1..], r);
    }
  }

  lemma {:induction false} HasKeySplit(reals: seq<Real>, name: string)
    requires reals != []
    ensures HasKey(reals, name) <==> reals[0].name == name || HasKey(reals[1..], name)
  {
    assert forall i :: 0 <= i < |reals| - 1 ==> reals[1..][i] == reals[i + 1];
    if HasKey(reals, name) && reals[0].name != name {
      var i :| 0 <= i < |reals| && reals[i].name == name;
      assert reals[1..][i - 1].name == name;
    }
  }

  lemma {:induction false} SetItemEntries(reals: seq<Real>, r: Real)
    ensures forall x :: x in SetItem(reals, r) ==> x in reals || x == r
  {
    if reals != [] && reals[0].name != r.name { SetItemEntries(reals[1..], r); }
  }

  /** A library file on the flat path that goes by `name`. */
  ghost predicate HasReal<D>(members: seq<Member<D>>, name: string) {
    exists i :: 0 <= i < |members| && IsRealLib(members[i]) && RealOf(members[i]).name == name
  }

  lemma {:induction false} RealsOf<D>(members: seq<Member<D>>, name: string)
    ensures HasKey(OverlayReals(members), name) <==> HasReal(members, name)
  {
    if members != [] {
      var front, m := members[..|members| - 1], members[|members| - 1];
      RealsOf(front, name);
      if IsRealLib(m) { SetItemKeys(OverlayReals(front), RealOf(m), name); }
      HasRealNext(front, m, name);
      assert members == front + [m];
    }
  }

  lemma {:induction false} HasRealAt<D>(members: seq<Member<D>>, i: nat)
    requires i < |members| && IsRealLib(members[i])
    ensures HasReal(members, RealOf(members[i]).name)
  {
  }

  lemma {:induction false} WhereReal<D>(members: seq<Member<D>>, name: string) returns (i: nat)
    requires HasReal(members, name)
    ensures i < |members| && IsRealLib(members[i]) && RealOf(members[i]).name == name
  {
    i :| 0 <= i < |members| && IsRealLib(members[i]) && RealOf(members[i]).name == name;
  }

  lemma {:induction false} HasRealNext<D>(front: seq<Member<D>>, m: Member<D>, name: string)
    ensures HasReal(front + [m], name) <==> HasReal(front, name) || (IsRealLib(m) && RealOf(m).name == name)
  {
    var members := front + [m];
    if HasReal(members, name) {
      var i := WhereReal(members, name);
      if i < |front| {
        assert members[i] == front[i];
        HasRealAt(front, i);
      }
    }
    if HasReal(front, name) {
      var i := WhereReal(front, name);
      assert members[i] == front[i];
      HasRealAt(members, i);
    }
    if IsRealLib(m) {
      assert members[|front|] == m;
      HasRealAt(members, |front|);
    }
  }

  lemma {:induction false} RealsAreMembers<D>(members: seq<Member<D>>, r: Real)
    requires r in OverlayReals(members)
    ensures exists i :: 0 <= i < |members| && IsRealLib(members[i]) && RealOf(members[i]) == r
  {
    var front, m := members[..|members| - 1], members[|members| - 1];
    if IsRealLib(m) { SetItemEntries(OverlayReals(front), RealOf(m)); }
    if r in OverlayReals(front) {
      RealsAreMembers(front, r);
      var i :| 0 <= i < |front| && IsRealLib(front[i]) && RealOf(front[i]) == r;
      assert members[i] == front[i];
    } else {
      assert members[|members| - 1] == m;
    }
  }

  // --- planning an alias -----------------------------------------------------------------------------

  datatype Candidate = Candidate(version: seq<int>, source: Real)

  function CandidatesOf(reals: seq<Real>, parse: string -> Option<Lib>, stem: string): seq<Candidate> {
    if reals == [] then []
    else
      var front, r := CandidatesOf(reals[..|reals| - 1], parse, stem), reals[|reals| - 1];
      match parse(r.name)
      case Some(lib) => if lib.stem == stem then front + [Candidate(lib.version, r)] else front
      case None => front
  }

  /** One step of a stable sort by version: behind everything that is not above. */
  function InsertByVersion(s: seq<Candidate>, c: Candidate): seq<Candidate> {
    if s == [] || VersionLe(s[|s| - 1].version, c.version) then s + [c]
    else InsertByVersion(s[..|s| - 1], c) + [s[|s| - 1]]
  }

  function SortByVersion(s: seq<Candidate>): seq<Candidate> {
    if s == [] then [] else InsertByVersion(SortByVersion(s[..|s| - 1]), s[|s| - 1])
  }

  ghost predicate IsByVersion(s: seq<Candidate>) {
    forall i, j :: 0 <= i < j < |s| ==> VersionLe(s[i].version, s[j].version)
  }

  lemma {:induction false} InsertKeepsOrder(s: seq<Candidate>, c: Candidate)
    requires IsByVersion(s)
    ensures IsByVersion(InsertByVersion(s, c)) && multiset(InsertByVersion(s, c)) == multiset(s) + multiset{c}
  {
    if s == [] {
    } else if VersionLe(s[|s| - 1].version, c.version) {
      forall i | 0 <= i < |s| ensures VersionLe(s[i].version, c.version) {
        if i < |s| - 1 { VersionLeTransitive(s[i].version, s[|s| - 1].version, c.version); }
      }
    } else {
      var front, last := s[..|s| - 1], s[|s| - 1];
      VersionLeTotal(last.version, c.version);
      InsertKeepsOrder(front, c);
      assert s == front + [last];
      var r := InsertByVersion(front, c);
      forall i | 0 <= i < |r| ensures VersionLe(r[i].version, last.version) {
        assert r[i] in multiset(r);
        assert r[i] == c || r[i] in front;
      }
    }
  }

  lemma {:induction false} SplitLast<T>(s: seq<T>)
    requires s != []
    ensures s == s[..|s| - 1] + [s[|s| - 1]] && multiset(s) == multiset(s[..|s| - 1]) + multiset{s[|s| - 1]}
  {
    assert s == s[..|s| - 1] + [s[|s| - 1]];
  }

  lemma {:induction false} SortIsByVersion(s: seq<Candidate>)
    ensures IsByVersion(SortByVersion(s)) && multiset(SortByVersion(s)) == multiset(s)
  {
    if s != [] {
      SortIsByVersion(s[..|s| - 1]);
      InsertKeepsOrder(SortByVersion(s[..|s| - 1]), s[|s| - 1]);
      SplitLast(s);
    }
  }

  lemma {:induction false} SortOfSorted(s: seq<Candidate>)
    requires IsByVersion(s)
    ensures SortByVersion(s) == s
  {
    if s != [] {
      SortOfSorted(s[..|s| - 1]);
      assert s == s[..|s| - 1] + [s[|s| - 1]];
    }
  }

  /** The source picked for a stem: the last candidate after sorting. */
  function Pick(candidates: seq<Candidate>): Option<Real> {
    var s := SortByVersion(candidates);
    if s == [] then None else Some(s[|s| - 1].source)
  }

  function AliasSource(reals: seq<Real>, parse: string -> Option<Lib>, need: string): Option<Real> {
    match parse(need)
    case Some(lib) => Pick(CandidatesOf(reals, parse, lib.stem))
    case None => None
  }

  predicate IsAliased(
      needed: seq<string>, base: set<string>, reals: seq<Real>, parse: string -> Option<Lib>, need: string)
  {
    need in needed && CanAlias(base, reals, parse, need)
  }

  /** No exact provider, but a library of the same stem. */
  predicate CanAlias(base: set<string>, reals: seq<Real>, parse: string -> Option<Lib>, need: string) {
    need !in base && !HasKey(reals, need) && AliasSource(reals, parse, need).Some?
  }

  ghost predicate IsAliasPlan(
      plan: map<string, string>, needed: seq<string>, base: set<string>, reals: seq<Real>, parse: string -> Option<Lib>)
  {
    && (forall n :: n in plan <==> IsAliased(needed, base, reals, parse, n))
    && (forall n :: n in plan ==> plan[n] == AliasSource(reals, parse, n).value.rel)
  }

  /** The table of candidates, each list as it was built or sorted since. */
  ghost predicate IsStemIndex(byStem: map<string, seq<Candidate>>, reals: seq<Real>, parse: string -> Option<Lib>) {
    forall stem :: if stem in byStem
      then SortByVersion(byStem[stem]) == SortByVersion(CandidatesOf(reals, parse, stem)) && byStem[stem] != []
                   else CandidatesOf(reals, parse, stem) == []
  }

  method IndexByStem(reals: seq<Real>, parse: string -> Option<Lib>) returns (byStem: map<string, seq<Candidate>>)
    ensures IsStemIndex(byStem, reals, parse)
  {
    byStem := map[];
    for i := 0 to |reals|
      invariant forall stem :: if stem in byStem then byStem[stem] == CandidatesOf(reals[..i], parse, stem) &&
        byStem[stem] != []
                               else CandidatesOf(reals[..i], parse, stem) == []
    {
      var r := reals[i];
      assert reals[..i + 1][..i] == reals[..i];
      var lib := parse(r.name);
      if lib.None? { continue; }
      var stem := lib.value.stem;
      byStem := byStem[stem := (if stem in byStem then byStem[stem] else []) + [Candidate(lib.value.version, r)]];
    }
    TakeAll(reals);
  }

  lemma {:induction false} SortKeepsSize(s: seq<Candidate>)
    ensures |SortByVersion(s)| == |s| && SortByVersion(SortByVersion(s)) == SortByVersion(s)
  {
    SortIsByVersion(s);
    SortOfSorted(SortByVersion(s));
    assert |SortByVersion(s)| == |multiset(SortByVersion(s))| == |multiset(s)| == |s|;
  }

  /** Sorts the candidates of the need's stem in place and picks the last. */
  method PickSource(byStem: map<string, seq<Candidate>>, reals: seq<Real>, parse: string -> Option<Lib>, need: string)
    returns (table: map<string, seq<Candidate>>, source: Option<Real>)
    requires IsStemIndex(byStem, reals, parse)
    ensures IsStemIndex(table, reals, parse) && source == AliasSource(reals, parse, need)
  {
    table := byStem;
    var lib := parse(need);
    if lib.None? { return table, None; }
    var stem := lib.value.stem;
    if stem !in byStem { return table, None; }
    var sorted := SortByVersion(byStem[stem]);
    SortKeepsSize(byStem[stem]);
    table := byStem[stem := sorted];
    source := Some(sorted[|sorted| - 1].source);
  }

  method CompatAliasPlan(needed: seq<string>, base: set<string>, reals: seq<Real>, parse: string -> Option<Lib>)
    returns (plan: map<string, string>)
    ensures IsAliasPlan(plan, needed, base, reals, parse)
  {
    var byStem := IndexByStem(reals, parse);
    plan := map[];
    for i := 0 to |needed|
      invariant IsStemIndex(byStem, reals, parse) && IsAliasPlan(plan, needed[..i], base, reals, parse)
    {
      var need := needed[i];
      if need in base || HasKey(reals, need) {
        SkippedNeed(plan, needed, i, base, reals, parse);
        continue;
      }
      var source;
      byStem, source := PickSource(byStem, reals, parse, need);
      if source.None? {
        SkippedNeed(plan, needed, i, base, reals, parse);
        continue;
      }
      PlannedNeed(plan, needed, i, base, reals, parse, source.value.rel);
      plan := plan[need := source.value.rel];
    }
    TakeAll(needed);
  }

  lemma {:induction false} AliasedNext(
      needed: seq<string>, i: nat, base: set<string>, reals: seq<Real>, parse: string -> Option<Lib>, n: string)
    requires i < |needed|
    ensures IsAliased(needed[..i + 1], base, reals, parse, n) <==>
      IsAliased(needed[..i], base, reals, parse, n) || (n == needed[i] && CanAlias(base, reals, parse, n))
  {
    InNext(needed, i);
  }

  lemma {:induction false} SkippedNeed(
      plan: map<string, string>, needed: seq<string>, i: nat, base: set<string>, reals: seq<Real>,
      parse: string -> Option<Lib>)
    requires i < |needed| && IsAliasPlan(plan, needed[..i], base, reals, parse) &&
      !CanAlias(base, reals, parse, needed[i])
    ensures IsAliasPlan(plan, needed[..i + 1], base, reals, parse)
  {
    forall n ensures n in plan <==> IsAliased(needed[..i + 1], base, reals, parse, n) {
      AliasedNext(needed, i, base, reals, parse, n);
    }
  }

  lemma {:induction false} PlannedNeed(
      plan: map<string, string>, needed: seq<string>, i: nat, base: set<string>, reals: seq<Real>,
      parse: string -> Option<Lib>,
      rel: string)
    requires i < |needed| && IsAliasPlan(plan, needed[..i], base, reals, parse) &&
      CanAlias(base, reals, parse, needed[i])
    requires AliasSource(reals, parse, needed[i]).value.rel == rel
    ensures IsAliasPlan(plan[needed[i] := rel], needed[..i + 1], base, reals, parse)
  {
    var after := plan[needed[i] := rel];
    forall n ensures n in after <==> IsAliased(needed[..i + 1], base, reals, parse, n) {
      AliasedNext(needed, i, base, reals, parse, n);
    }
  }

  lemma {:induction false} InNext<T>(s: seq<T>, i: nat)
    requires i < |s|
    ensures forall x :: x in s[..i + 1] <==> x in s[..i] || x == s[i]
  {
    TakeNext(s, i);
  }

  // --- what the picked source is ------------------------------------------------------------------------

  predicate HasStem(parse: string -> Option<Lib>, name: string, stem: string) {
    parse(name).Some? && parse(name).value.stem == stem
  }

  lemma {:induction false} CandidatesAre(reals: seq<Real>, parse: string -> Option<Lib>, stem: string, c: Candidate)
    ensures c in CandidatesOf(reals, parse, stem) <==>
      c.source in reals && HasStem(parse, c.source.name, stem) && parse(c.source.name).value.version == c.version
  {
    if reals != [] {
      CandidatesAre(reals[..|reals| - 1], parse, stem, c);
      assert c.source in reals <==> c.source in reals[..|reals| - 1] || c.source == reals[|reals| - 1];
    }
  }

  /** `r` is a library of the stem, and no library of the stem has a higher version. */
  ghost predicate IsHighest(reals: seq<Real>, parse: string -> Option<Lib>, stem: string, r: Real) {
    && r in reals && HasStem(parse, r.name, stem)
    && forall x :: x in reals && HasStem(parse, x.name, stem) ==>
      VersionLe(parse(x.name).value.version, parse(r.name).value.version)
  }

  /** An alias source exists exactly when some library has the need's stem; it is one of the highest
      version. */
  lemma {:induction false} SourceIsHighest(reals: seq<Real>, parse: string -> Option<Lib>, need: string)
    ensures AliasSource(reals, parse, need).Some? <==>
      parse(need).Some? && exists r :: r in reals && HasStem(parse, r.name, parse(need).value.stem)
    ensures AliasSource(reals, parse, need).Some? ==>
      IsHighest(reals, parse, parse(need).value.stem, AliasSource(reals, parse, need).value)
  {
    if parse(need).Some? {
      var stem := parse(need).value.stem;
      var cs := CandidatesOf(reals, parse, stem);
      SortKeepsSize(cs);
      forall r | r in reals && HasStem(parse, r.name, stem) ensures Candidate(parse(r.name).value.version, r) in cs {
        CandidatesAre(reals, parse, stem, Candidate(parse(r.name).value.version, r));
      }
      if cs != [] {
        PickIsHighest(reals, parse, stem);
      }
    }
  }

  lemma {:induction false} PickIsHighest(reals: seq<Real>, parse: string -> Option<Lib>, stem: string)
    requires CandidatesOf(reals, parse, stem) != []
    ensures Pick(CandidatesOf(reals, parse, stem)).Some?
    ensures IsHighest(reals, parse, stem, Pick(CandidatesOf(reals, parse, stem)).value)
  {
    var cs := CandidatesOf(reals, parse, stem);
    var s := SortByVersion(cs);
    SortIsByVersion(cs);
    SortKeepsSize(cs);
    var top := s[|s| - 1];
    VersionLeTotal(top.version, top.version);
    assert top in multiset(s);
    CandidatesAre(reals, parse, stem, top);
    forall x | x in reals && HasStem(parse, x.name, stem) ensures VersionLe(parse(x.name).value.version, top.version) {
      var c := Candidate(parse(x.name).value.version, x);
      CandidatesAre(reals, parse, stem, c);
      assert c in multiset(s);
      var i :| 0 <= i < |s| && s[i] == c;
    }
  }

  // --- repacking --------------------------------------------------------------------------------------------

  predicate IsAt(s: string, i: int, part: string) {
    0 <= i <= |s| - |part| && s[i..i + |part|] == part
  }

  predicate Contains(s: string, part: string) {
    exists i :: 0 <= i <= |s| && IsAt(s, i, part)
  }

  predicate IsPulse(name: string) {
    Contains(name, "/pulseaudio/libpulsecommon-") && EndsWith(name, ".so")
  }

  /** Any one of the libpulsecommon members, if there is one: the set they are searched in has no
      order. */
  ghost predicate IsPulseChoice(names: set<string>, pulse: Option<string>) {
    match pulse
    case Some(p) => p in names && IsPulse(p)
    case None => forall n :: n in names ==> !IsPulse(n)
  }

  function Dest(name: string): string {
    "./" + In(LIBDIR, name)
  }

  function NssDest(name: string): string {
    "./" + In(NSSDIR, name)
  }

  const NSSDIR := In(LIBDIR, "nss")

  /** A copy at a free place of something readable. */
  function Copy<D>(members: seq<Member<D>>, dest: string, data: Option<D>): seq<Member<D>> {
    if dest in Names(members) || data.None? then [] else [File(dest, data.value)]
  }

  function PulseAdds<D>(members: seq<Member<D>>, pulse: Option<string>): seq<Member<D>> {
    if pulse.Some? then Copy(members, Dest(PathName(pulse.value)), Blob(members, pulse.value)) else []
  }

  /** One plugin, flat and nested. */
  function NssCopies<D>(members: seq<Member<D>>, f: string, data: D): seq<Member<D>> {
    Copy(members, Dest(f), Some(data)) + Copy(members, NssDest(f), Some(data))
  }

  function NssAdds<D>(members: seq<Member<D>>, nss: map<string, D>, names: seq<string>): seq<Member<D>>
    requires forall i :: 0 <= i < |names| ==> names[i] in nss
  {
    if names == [] then []
    else
      var f := names[|names| - 1];
      NssAdds(members, nss, names[..|names| - 1]) + NssCopies(members, f, nss[f])
  }

  /** One item of an alias plan. */
  datatype Alias = Alias(need: string, source: string)

  function AliasCopy<D>(members: seq<Member<D>>, a: Alias): seq<Member<D>> {
    Copy(members, Dest(a.need), Blob(members, Arc(a.source)))
  }

  function AliasAdds<D>(members: seq<Member<D>>, aliases: seq<Alias>): seq<Member<D>> {
    if aliases == [] then []
    else AliasAdds(members, aliases[..|aliases| - 1]) + AliasCopy(members, aliases[|aliases| - 1])
  }

  function NssNames<D>(nss: map<string, D>): (names: seq<string>)
    ensures Distinct(names) && forall f :: f in names <==> f in nss
    ensures forall i :: 0 <= i < |names| ==> names[i] in nss
  {
    var names := SortSet(nss.Keys);
    assert forall f :: f in names <==> f in nss;
    names
  }

  function AliasesOf(plan: map<string, string>, needs: seq<string>): (aliases: seq<Alias>)
    requires forall i :: 0 <= i < |needs| ==> needs[i] in plan
    ensures |aliases| == |needs| && forall i :: 0 <= i < |needs| ==> aliases[i] == Alias(needs[i], plan[needs[i]])
  {
    if needs == [] then []
    else AliasesOf(plan, needs[..|needs| - 1]) + [Alias(needs[|needs| - 1], plan[needs[|needs| - 1]])]
  }

  /** `sorted(alias_plan.items())`. */
  function Items(plan: map<string, string>): (aliases: seq<Alias>)
    ensures forall a :: a in aliases <==> a.need in plan && plan[a.need] == a.source
    ensures forall i, j :: 0 <= i < j < |aliases| ==> aliases[i].need != aliases[j].need
  {
    var needs := SortSet(plan.Keys);
    assert forall i :: 0 <= i < |needs| ==> needs[i] in plan.Keys;
    assert forall n :: n in plan ==> n in needs;
    AliasesOf(plan, needs)
  }

  /** A source that is read has to have bytes. */
  predicate CanCopy<D>(members: seq<Member<D>>, dest: string, source: string) {
    dest !in Names(members) && source in Names(members) ==> Blob(members, source).Some?
  }

  predicate CanRepack<D>(members: seq<Member<D>>, pulse: Option<string>, plan: map<string, string>) {
    && (pulse.Some? ==> CanCopy(members, Dest(PathName(pulse.value)), pulse.value))
    && AreCopied(members, Items(plan))
  }

  predicate IsCopied<D>(members: seq<Member<D>>, a: Alias) {
    CanCopy(members, Dest(a.need), Arc(a.source))
  }

  predicate AreCopied<D>(members: seq<Member<D>>, aliases: seq<Alias>) {
    aliases == [] || (AreCopied(members, aliases[..|aliases| - 1]) && IsCopied(members, aliases[|aliases| - 1]))
  }

  lemma {:induction false} CopiedNext<D>(members: seq<Member<D>>, aliases: seq<Alias>, i: nat)
    requires i < |aliases|
    ensures AreCopied(members, aliases[..i + 1]) <==> AreCopied(members, aliases[..i]) && IsCopied(members, aliases[i])
    ensures AreCopied(members, aliases) ==> IsCopied(members, aliases[i]) && AreCopied(members, aliases[..i + 1])
  {
    TakeNext(aliases, i);
    FrontOf(aliases[..i], aliases[i]);
    if i == |aliases| - 1 {
      TakeAll(aliases);
    } else {
      var front := aliases[..|aliases| - 1];
      CopiedNext(members, front, i);
      assert front[..i + 1] == aliases[..i + 1];
    }
  }

  lemma {:induction false} Stored(n: string)
    ensures Arc(In(LIBDIR, n)) == Dest(n) && Arc(In(NSSDIR, n)) == NssDest(n)
  {
    RelOf(In(LIBDIR, n));
    RelOf(In(NSSDIR, n));
  }

  method FindPulse(names: set<string>) returns (pulse: Option<string>)
    ensures IsPulseChoice(names, pulse)
  {
    var todo := names;
    while todo != {}
      invariant todo <= names && forall n :: n in names && n !in todo ==> !IsPulse(n)
      decreases |todo|
    {
      var n :| n in todo;
      if IsPulse(n) { return Some(n); }
      todo := todo - {n};
    }
    return None;
  }

  method CopyMembers<D>(src: Tar<D>, dst: Tar<D>)
    requires src != dst
    modifies dst
    ensures dst.members == src.members
  {
    dst.members := [];
    for i := 0 to |src.members|
      invariant dst.members == src.members[..i] && src.members == old(src.members)
    {
      TakeNext(src.members, i);
      dst.members := dst.members + [src.members[i]];
    }
    TakeAll(src.members);
  }

  /** Where libpulsecommon was added, if it was. */
  function PulseFlat<D>(members: seq<Member<D>>, pulse: Option<string>): Option<string> {
    if pulse.Some? && Dest(PathName(pulse.value)) !in Names(members) then Some(In(LIBDIR, PathName(pulse.value)))
      else None
  }

  method AddPulse<D>(src: Tar<D>, dst: Tar<D>, pulse: Option<string>) returns (r: Result<Option<string>>)
    requires src != dst && (pulse.Some? ==> pulse.value in Names(src.members))
    modifies dst
    ensures r.Ok? <==> pulse.Some? ==> CanCopy(src.members, Dest(PathName(pulse.value)), pulse.value)
    ensures r.Ok? ==> dst.members == old(dst.members) + PulseAdds(src.members, pulse)
    ensures r.Ok? ==> r.value == PulseFlat(src.members, pulse)
  {
    if pulse.None? { return Ok(None); }
    var flat := In(LIBDIR, PathName(pulse.value));
    if "./" + flat in Names(src.members) { return Ok(None); }
    var m := GetMember(src.members, pulse.value);
    NamesOf(src.members, pulse.value);
    if m.None? { return MissingMember; }
    var bytes := Bytes(m.value);
    if bytes.None? { return Unreadable; }
    Stored(PathName(pulse.value));
    dst.AddBytes(flat, bytes.value);
    return Ok(Some(flat));
  }

  lemma {:induction false} NssAddsNext<D>(
      before: seq<Member<D>>, members: seq<Member<D>>, nss: map<string, D>, names: seq<string>, i: nat)
    requires i < |names| && forall j :: 0 <= j < |names| ==> names[j] in nss
    ensures before + NssAdds(members, nss, names[..i + 1]) ==
      before + NssAdds(members, nss, names[..i]) + NssCopies(members, names[i], nss[names[i]])
  {
    TakeNext(names, i);
    FrontOf(names[..i], names[i]);
    Assoc(before, NssAdds(members, nss, names[..i]), NssCopies(members, names[i], nss[names[i]]));
  }

  lemma {:induction false} AssocFour<T>(a: seq<T>, b: seq<T>, c: seq<T>, d: seq<T>)
    ensures a + b + c + d == a + (b + c + d)
  {
  }

  predicate IsModule(f: string) {
    EndsWith(f, ".so")
  }

  /** `added` lists, once each, the modules among `names` for which a place is free. */
  ghost predicate ListsModules<D>(members: seq<Member<D>>, names: seq<string>, added: seq<string>) {
    Distinct(added) && forall f :: f in added <==> f in names && IsModule(f) && HasFreePlace(members, f)
  }

  lemma {:induction false} ListsNextModule<D>(members: seq<Member<D>>, names: seq<string>, i: nat, added: seq<string>)
    requires Distinct(names) && i < |names| && ListsModules(members, names[..i], added)
    ensures ListsModules(members, names[..i + 1],
      if IsModule(names[i]) && HasFreePlace(members, names[i]) then added + [names[i]] else added)
  {
    TakeNext(names, i);
    assert names[i] !in names[..i];
  }

  /** One of the plugin's two places is free. */
  predicate HasFreePlace<D>(members: seq<Member<D>>, f: string) {
    Dest(f) !in Names(members) || NssDest(f) !in Names(members)
  }

  method AddNssFile<D>(src: Tar<D>, dst: Tar<D>, f: string, data: D) returns (wroteAny: bool)
    requires src != dst
    modifies dst
    ensures dst.members == old(dst.members) + NssCopies(src.members, f, data)
    ensures wroteAny <==> HasFreePlace(src.members, f)
  {
    wroteAny := false;
    Stored(f);
    if Dest(f) !in Names(src.members) {
      dst.AddBytes(In(LIBDIR, f), data);
      wroteAny := true;
    }
    if NssDest(f) !in Names(src.members) {
      dst.AddBytes(In(NSSDIR, f), data);
      wroteAny := true;
    }
  }

  /** The plugins, and the modules among those for which a place was free. */
  method AddNss<D>(src: Tar<D>, dst: Tar<D>, nss: map<string, D>) returns (added: seq<string>)
    requires src != dst
    modifies dst
    ensures dst.members == old(dst.members) + NssAdds(src.members, nss, NssNames(nss))
    ensures Distinct(added)
    ensures forall f :: f in added <==> f in nss && IsModule(f) && HasFreePlace(src.members, f)
  {
    var names := NssNames(nss);
    added := [];
    ghost var before, members := dst.members, src.members;
    for i := 0 to |names|
      invariant src.members == members
      invariant dst.members == before + NssAdds(members, nss, names[..i])
      invariant ListsModules(members, names[..i], added)
    {
      NssAddsNext(before, members, nss, names, i);
      var wroteAny := AddNssFile(src, dst, names[i], nss[names[i]]);
      ListsNextModule(members, names, i, added);
      if wroteAny && EndsWith(names[i], ".so") { added := added + [names[i]]; }
    }
    TakeAll(names);
  }

  lemma {:induction false} AliasAddsNext<D>(
      before: seq<Member<D>>, members: seq<Member<D>>, aliases: seq<Alias>, i: nat)
    requires i < |aliases|
    ensures before + AliasAdds(members, aliases[..i + 1]) ==
      before + AliasAdds(members, aliases[..i]) + AliasCopy(members, aliases[i])
  {
    TakeNext(aliases, i);
    FrontOf(aliases[..i], aliases[i]);
    Assoc(before, AliasAdds(members, aliases[..i]), AliasCopy(members, aliases[i]));
  }

  lemma {:induction false} CopyCases<D>(members: seq<Member<D>>, dest: string, source: string)
    ensures dest in Names(members) || source !in Names(members) ==>
      CanCopy(members, dest, source) && Copy(members, dest, Blob(members, source)) == []
    ensures dest !in Names(members) && source in Names(members) ==>
      var m := GetMember(members, source);
      && m.Some?
      && (CanCopy(members, dest, source) <==> Bytes(m.value).Some?)
      && (Bytes(m.value).Some? ==> Copy(members, dest, Blob(members, source)) == [File(dest, Bytes(m.value).value)])
  {
    NamesOf(members, source);
  }

  predicate IsAdded<D>(members: seq<Member<D>>, a: Alias) {
    Dest(a.need) !in Names(members) && Arc(a.source) in Names(members)
  }

  /** The aliases that are added, in the order of the plan's items. */
  function Added<D>(members: seq<Member<D>>, aliases: seq<Alias>): seq<Alias> {
    if aliases == [] then []
    else
      var last := aliases[|aliases| - 1];
      Added(members, aliases[..|aliases| - 1]) + (if IsAdded(members, last) then [last] else [])
  }

  lemma {:induction false} AddedNext<D>(members: seq<Member<D>>, aliases: seq<Alias>, i: nat)
    requires i < |aliases|
    ensures Added(members, aliases[..i + 1]) ==
      Added(members, aliases[..i]) + (if IsAdded(members, aliases[i]) then [aliases[i]] else [])
  {
    TakeNext(aliases, i);
    FrontOf(aliases[..i], aliases[i]);
  }

  /** Where all sources can be read, every added member is reported, in order. */
  lemma {:induction false} AddedAreReported<D>(members: seq<Member<D>>, aliases: seq<Alias>)
    requires AreCopied(members, aliases)
    ensures |AliasAdds(members, aliases)| == |Added(members, aliases)|
    ensures forall i :: 0 <= i < |Added(members, aliases)| ==>
      AliasAdds(members, aliases)[i].name == Dest(Added(members, aliases)[i].need)
  {
    if aliases != [] {
      var front, last := aliases[..|aliases| - 1], aliases[|aliases| - 1];
      AddedAreReported(members, front);
      CopyCases(members, Dest(last.need), Arc(last.source));
      ReportedNext(AliasAdds(members, front), Added(members, front), AliasCopy(members, last),
        if IsAdded(members, last) then [last] else []);
    }
  }

  lemma {:induction false} ReportedNext<D>(
      adds: seq<Member<D>>, added: seq<Alias>, copy: seq<Member<D>>, one: seq<Alias>)
    requires |adds| == |added| && forall i :: 0 <= i < |added| ==> adds[i].name == Dest(added[i].need)
    requires |copy| == |one| && forall i :: 0 <= i < |one| ==> copy[i].name == Dest(one[i].need)
    ensures |adds + copy| == |added + one|
    ensures forall i :: 0 <= i < |added + one| ==> (adds + copy)[i].name == Dest((added + one)[i].need)
  {
  }

  /** `f"{need} <- {Path(src_rel).name}"` */
  function AliasText(a: Alias): string {
    a.need + " <- " + PathName(a.source)
  }

  function AliasTexts(aliases: seq<Alias>): (texts: seq<string>)
    ensures |texts| == |aliases| && forall i :: 0 <= i < |texts| ==> texts[i] == AliasText(aliases[i])
  {
    seq(|aliases|, i requires 0 <= i < |aliases| => AliasText(aliases[i]))
  }

  /** One alias, unless its place is taken or its source is not in the tar. */
  method AddAlias<D>(src: Tar<D>, dst: Tar<D>, a: Alias) returns (r: Result<bool>)
    requires src != dst
    modifies dst
    ensures r.Ok? <==> IsCopied(src.members, a)
    ensures r.Ok? ==> dst.members == old(dst.members) + AliasCopy(src.members, a)
    ensures r.Ok? ==> (r.value <==> IsAdded(src.members, a))
  {
    var arc := Arc(a.source);
    Stored(a.need);
    CopyCases(src.members, Dest(a.need), arc);
    if Dest(a.need) in Names(src.members) { return Ok(false); }
    if arc !in Names(src.members) { return Ok(false); }
    var m := GetMember(src.members, arc);
    if m.None? { return MissingMember; }
    var bytes := Bytes(m.value);
    if bytes.None? { return Unreadable; }
    dst.AddBytes(In(LIBDIR, a.need), bytes.value);
    return Ok(true);
  }

  method AddAliases<D>(src: Tar<D>, dst: Tar<D>, aliases: seq<Alias>) returns (r: Result<seq<Alias>>)
    requires src != dst
    modifies dst
    ensures r.Ok? <==> AreCopied(src.members, aliases)
    ensures r.Ok? ==> dst.members == old(dst.members) + AliasAdds(src.members, aliases)
    ensures r.Ok? ==> r.value == Added(src.members, aliases)
  {
    ghost var before, members := dst.members, src.members;
    var added := [];
    for i := 0 to |aliases|
      invariant src.members == members
      invariant dst.members == before + AliasAdds(members, aliases[..i])
      invariant AreCopied(members, aliases[..i])
      invariant added == Added(members, aliases[..i])
    {
      CopiedNext(members, aliases, i);
      AddedNext(members, aliases, i);
      AliasAddsNext(before, members, aliases, i);
      var one := AddAlias(src, dst, aliases[i]);
      if one.MissingMember? { return MissingMember; }
      if one.Unreadable? { return Unreadable; }
      if one.value { added := added + [aliases[i]]; }
    }
    TakeAll(aliases);
    return Ok(added);
  }

  /** What the repacking reports: the flat libpulsecommon, the added modules and the added aliases. */
  datatype Report = Report(pulse: Option<string>, nss: seq<string>, aliases: seq<string>)

  ghost predicate IsReport<D>(
      report: Report, members: seq<Member<D>>, pulse: Option<string>, nss: map<string, D>, plan: map<string, string>)
  {
    && report.pulse == PulseFlat(members, pulse)
    && Sorted(report.nss) && Distinct(report.nss)
    && (forall f :: f in report.nss <==> f in nss && IsModule(f) && HasFreePlace(members, f))
    && Sorted(report.aliases) && multiset(report.aliases) == multiset(AliasTexts(Added(members, Items(plan))))
  }

  /** `_repack_with_addons`: the produced tar is the source and its additions; which libpulsecommon is
      copied is left to the order of a set. */
  method RepackWithAddons<D>(src: Tar<D>, dst: Tar<D>, nss: map<string, D>, plan: map<string, string>)
    returns (r: Result<Report>, pulse: Option<string>)
    requires src != dst
    modifies dst
    ensures IsPulseChoice(Names(src.members), pulse)
    ensures r.Ok? <==> CanRepack(src.members, pulse, plan)
    ensures r.Ok? ==> dst.members == Repacked(src.members, Addons(pulse, nss, plan))
    ensures r.Ok? ==> IsReport(r.value, src.members, pulse, nss, plan)
  {
    pulse := FindPulse(Names(src.members));
    CopyMembers(src, dst);
    var flat := AddPulse(src, dst, pulse);
    if flat.MissingMember? { r := MissingMember; return; }
    if flat.Unreadable? { r := Unreadable; return; }
    var added := AddNss(src, dst, nss);
    var aliases := AddAliases(src, dst, Items(plan));
    if aliases.MissingMember? { r := MissingMember; return; }
    if aliases.Unreadable? { r := Unreadable; return; }
    SortKeepsMembers(added);
    r := Ok(Report(flat.value, Sort(added), Sort(AliasTexts(aliases.value))));
    AssocFour(src.members, PulseAdds(src.members, pulse), NssAdds(src.members, nss, NssNames(nss)),
      AliasAdds(src.members, Items(plan)));
  }

  // --- the gate ---------------------------------------------------------------------------------------------

  function LibName<D>(m: Member<D>): set<string> {
    if m.File? then {PathName(m.name)} else {}
  }

  /** `_lib_basenames`: the last parts of all regular files, wherever they lie. */
  function LibNames<D>(members: seq<Member<D>>): set<string> {
    UnionOf(members, m => LibName(m))
  }

  method LibBasenames<D>(tar: Tar<D>) returns (out: set<string>)
    ensures out == LibNames(tar.members)
  {
    out := {};
    for i := 0 to |tar.members|
      invariant out == UnionOf(tar.members[..i], m => LibName(m))
    {
      UnionOfNext(tar.members, i, m => LibName(m));
      if tar.members[i].File? { out := out + {PathName(tar.members[i].name)}; }
    }
    TakeAll(tar.members);
  }

  ghost predicate IsPlanFor<D>(
      plan: map<string, string>, overlay: seq<Member<D>>, base: seq<Member<D>>, read: Member<D> -> seq<string>,
      parse: string -> Option<Lib>)
  {
    IsAliasPlan(plan, EntryNeeded(overlay, ENTRYPOINT, read), LibNames(base), OverlayReals(overlay), parse)
  }

  method PlanAliasesFor<D>(overlay: Tar<D>, base: Tar<D>, read: Member<D> -> seq<string>, parse: string -> Option<Lib>)
    returns (plan: map<string, string>)
    ensures IsPlanFor(plan, overlay.members, base.members, read, parse)
  {
    var needed := EntryNeeded(overlay.members, ENTRYPOINT, read);
    if needed == [] { return map[]; }
    var baseNames := LibBasenames(base);
    var reals := OverlayRealLibs(overlay);
    plan := CompatAliasPlan(needed, baseNames, reals, parse);
  }

  predicate IsMissing<D>(overlay: seq<Member<D>>, base: seq<Member<D>>, soname: string) {
    soname !in LibNames(base) && soname !in LibNames(overlay) && !IsLoader(soname)
  }

  /** What the entrypoint needs and neither tar provides by name, sorted. */
  function UnsatisfiedNeeded<D>(
      overlay: seq<Member<D>>, base: seq<Member<D>>, read: Member<D> -> seq<string>): (misses: seq<string>)
  {
    Sort(Filter(EntryNeeded(overlay, ENTRYPOINT, read), n => IsMissing(overlay, base, n)))
  }

  // --- what the additions are ---------------------------------------------------------------------------------

  /** The additions of one repacking. */
  datatype Addons<!D> = Addons(pulse: Option<string>, nss: map<string, D>, plan: map<string, string>)

  /** Names of files that libraries are stored under. */
  ghost predicate AreFileAddons<D(!new)>(a: Addons<D>) {
    (forall f :: f in a.nss ==> IsFileName(f)) && (forall n :: n in a.plan ==> IsFileName(n)) &&
    (a.pulse.Some? ==> IsFileName(PathName(a.pulse.value)))
  }

  /** `name` is what one of the additions is called in the flat directory; an alias is none unless its source
      is in the tar. */
  ghost predicate IsFlatAddon<D(!new)>(members: seq<Member<D>>, a: Addons<D>, name: string) {
    || name in a.nss
    || (name in a.plan && Arc(a.plan[name]) in Names(members))
    || (a.pulse.Some? && name == PathName(a.pulse.value))
  }

  /** `name` is one of the places where the addition `x` goes. */
  ghost predicate IsAddonAt<D(!new)>(members: seq<Member<D>>, a: Addons<D>, x: string, name: string) {
    (IsFlatAddon(members, a, x) && name == Dest(x)) || (x in a.nss && name == NssDest(x))
  }

  ghost predicate IsAddonName<D(!new)>(members: seq<Member<D>>, a: Addons<D>, name: string) {
    exists x :: IsFileName(x) && IsAddonAt(members, a, x, name)
  }

  ghost predicate IsAddon<D(!new)>(members: seq<Member<D>>, a: Addons<D>, m: Member<D>) {
    m.File? && m.name !in Names(members) && IsAddonName(members, a, m.name)
  }

  ghost predicate AreAddons<D(!new)>(members: seq<Member<D>>, a: Addons<D>, adds: seq<Member<D>>) {
    forall i :: 0 <= i < |adds| ==> IsAddon(members, a, adds[i])
  }

  lemma {:induction false} CopyIsAddon<D(!new)>(
      members: seq<Member<D>>, a: Addons<D>, x: string, dest: string, data: Option<D>)
    requires IsFileName(x) && (data.Some? ==> IsAddonAt(members, a, x, dest))
    ensures AreAddons(members, a, Copy(members, dest, data))
  {
    if data.Some? { assert IsAddonName(members, a, dest); }
  }

  lemma {:induction false} AddonsConcat<D(!new)>(
      members: seq<Member<D>>, a: Addons<D>, s: seq<Member<D>>, t: seq<Member<D>>)
    requires AreAddons(members, a, s) && AreAddons(members, a, t)
    ensures AreAddons(members, a, s + t)
  {
  }

  lemma {:induction false} NssAreAddons<D(!new)>(members: seq<Member<D>>, a: Addons<D>, names: seq<string>)
    requires AreFileAddons(a) && forall i :: 0 <= i < |names| ==> names[i] in a.nss
    ensures AreAddons(members, a, NssAdds(members, a.nss, names))
  {
    if names != [] {
      var f, front := names[|names| - 1], names[..|names| - 1];
      var data := Some(a.nss[f]);
      NssAreAddons(members, a, front);
      CopyIsAddon(members, a, f, Dest(f), data);
      CopyIsAddon(members, a, f, NssDest(f), data);
      AddonsConcat(members, a, Copy(members, Dest(f), data), Copy(members, NssDest(f), data));
      AddonsConcat(members, a, NssAdds(members, a.nss, front), NssCopies(members, f, a.nss[f]));
    }
  }

  predicate IsItem(plan: map<string, string>, alias: Alias) {
    alias.need in plan && plan[alias.need] == alias.source
  }

  lemma {:induction false} AliasesAreAddons<D(!new)>(members: seq<Member<D>>, a: Addons<D>, aliases: seq<Alias>)
    requires AreFileAddons(a)
    requires forall i :: 0 <= i < |aliases| ==> IsItem(a.plan, aliases[i])
    ensures AreAddons(members, a, AliasAdds(members, aliases))
  {
    if aliases != [] {
      var one, front := aliases[|aliases| - 1], aliases[..|aliases| - 1];
      AliasesAreAddons(members, a, front);
      NamesOf(members, Arc(one.source));
      CopyIsAddon(members, a, one.need, Dest(one.need), Blob(members, Arc(one.source)));
      AddonsConcat(members, a, AliasAdds(members, front), AliasCopy(members, one));
    }
  }

  function Adds<D>(members: seq<Member<D>>, a: Addons<D>): seq<Member<D>> {
    PulseAdds(members, a.pulse) + NssAdds(members, a.nss, NssNames(a.nss)) + AliasAdds(members, Items(a.plan))
  }

  /** The repacked tar: everything as it was, then the additions. */
  function Repacked<D>(members: seq<Member<D>>, a: Addons<D>): seq<Member<D>> {
    members + Adds(members, a)
  }

  /** Every addition is a regular file at one of the additions' places, free in the source tar. */
  lemma {:induction false} AllAreAddons<D(!new)>(members: seq<Member<D>>, a: Addons<D>)
    requires AreFileAddons(a)
    ensures AreAddons(members, a, Adds(members, a))
  {
    if a.pulse.Some? {
      CopyIsAddon(members, a, PathName(a.pulse.value), Dest(PathName(a.pulse.value)), Blob(members, a.pulse.value));
    }
    NssAreAddons(members, a, NssNames(a.nss));
    var items := Items(a.plan);
    forall i | 0 <= i < |items| ensures IsItem(a.plan, items[i]) {
      assert items[i] in items;
    }
    AliasesAreAddons(members, a, items);
    AddonsConcat(members, a, PulseAdds(members, a.pulse), NssAdds(members, a.nss, NssNames(a.nss)));
    AddonsConcat(members, a, PulseAdds(members, a.pulse) + NssAdds(members, a.nss, NssNames(a.nss)),
      AliasAdds(members, Items(a.plan)));
  }

  // --- where the additions land -----------------------------------------------------------------------------

  /** What a file at a place in the flat directory is to the readers of the tar. */
  lemma {:induction false} FlatPlace<D>(m: Member<D>, x: string)
    requires IsFileName(x) && m.File? && m.name == Dest(x)
    ensures IsRealLib(m) && RealOf(m) == Real(x, In(LIBDIR, x)) && LibName(m) == {x}
  {
    StoredAt(LIBDIR, x);
  }

  lemma {:induction false} NssPlace<D>(m: Member<D>, x: string)
    requires IsFileName(x) && m.name == NssDest(x) && m.File?
    ensures !IsRealLib(m) && LibName(m) == {x}
  {
    StoredAt(NSSDIR, x);
    OtherDir(NSSDIR, LIBDIR, x);
  }

  lemma {:induction false} AddonIsNotEntry(x: string)
    requires IsFileName(x)
    ensures Dest(x) != Arc(ENTRYPOINT) && NssDest(x) != Arc(ENTRYPOINT)
  {
    EntryAtOrigin("chromium");
    DirsDiffer(LIBDIR, ORIGIN, x, "chromium");
    DirsDiffer(NSSDIR, ORIGIN, x, "chromium");
  }

  /** An addition is a library on the flat path only under its own name, and never the entrypoint. */
  lemma {:induction false} AddonPlace<D(!new)>(members: seq<Member<D>>, a: Addons<D>, m: Member<D>)
    requires IsAddon(members, a, m)
    ensures IsRealLib(m) ==> IsFlatAddon(members, a, RealOf(m).name)
    ensures forall x :: x in LibName(m) ==> IsAddonAt(members, a, x, m.name)
    ensures m.name != Arc(ENTRYPOINT)
  {
    var x :| IsFileName(x) && IsAddonAt(members, a, x, m.name);
    if m.name == Dest(x) { FlatPlace(m, x); } else { NssPlace(m, x); }
    AddonIsNotEntry(x);
  }

  /** The originals stay as they were, in order and under the same names. */
  lemma {:induction false} OriginalsStay<D(!new)>(members: seq<Member<D>>, a: Addons<D>, name: string)
    requires AreFileAddons(a)
    ensures Repacked(members, a)[..|members|] == members
    ensures name in Names(members) || name == Arc(ENTRYPOINT) ==>
      GetMember(Repacked(members, a), name) == GetMember(members, name)
  {
    var adds := Adds(members, a);
    AllAreAddons(members, a);
    NamesOf(adds, name);
    if name in Names(adds) {
      var i :| 0 <= i < |adds| && adds[i].name == name;
      AddonPlace(members, a, adds[i]);
    }
    GetMemberOfConcat(members, adds, name);
  }

  lemma {:induction false} EntryStays<D(!new)>(members: seq<Member<D>>, a: Addons<D>, read: Member<D> -> seq<string>)
    requires AreFileAddons(a)
    ensures EntryNeeded(Repacked(members, a), ENTRYPOINT, read) == EntryNeeded(members, ENTRYPOINT, read)
  {
    OriginalsStay(members, a, Arc(ENTRYPOINT));
  }

  lemma {:induction false} RealsAfter<D(!new)>(members: seq<Member<D>>, a: Addons<D>, name: string)
    requires AreFileAddons(a) && HasReal(Repacked(members, a), name)
    ensures HasReal(members, name) || IsFlatAddon(members, a, name)
  {
    var after, adds := Repacked(members, a), Adds(members, a);
    AllAreAddons(members, a);
    var i :| 0 <= i < |after| && IsRealLib(after[i]) && RealOf(after[i]).name == name;
    if i < |members| {
      assert after[i] == members[i];
    } else {
      assert after[i] == adds[i - |members|];
      AddonPlace(members, a, after[i]);
    }
  }

  lemma {:induction false} RealsStay<D>(members: seq<Member<D>>, a: Addons<D>, name: string)
    requires HasReal(members, name)
    ensures HasReal(Repacked(members, a), name)
  {
    var i :| 0 <= i < |members| && IsRealLib(members[i]) && RealOf(members[i]).name == name;
    assert Repacked(members, a)[i] == members[i];
  }

  // --- an alias holds its source ------------------------------------------------------------------------------

  lemma {:induction false} DestDiffers(a: string, b: string)
    ensures Dest(a) == Dest(b) ==> a == b
  {
    if Dest(a) == Dest(b) {
      Stored(a);
      Stored(b);
      ArcDiffers(LIBDIR, a, b);
    }
  }

  lemma {:induction false} CopyGet<D>(members: seq<Member<D>>, dest: string, data: Option<D>, name: string)
    ensures name in Names(Copy(members, dest, data)) <==> name == dest && dest !in Names(members) && data.Some?
    ensures name in Names(Copy(members, dest, data)) ==>
      GetMember(Copy(members, dest, data), name) == Some(File(dest, data.value))
  {
    if dest !in Names(members) && data.Some? {
      var m := File(dest, data.value);
      assert [m][..0] == [];
    }
  }

  /** The name and bytes of the copy that an alias adds. */
  ghost predicate IsAddedAs<D>(members: seq<Member<D>>, a: Alias, dest: string, data: D) {
    dest == Dest(a.need) && dest !in Names(members) && Blob(members, Arc(a.source)) == Some(data)
  }

  lemma {:induction false} LastAlias<D>(members: seq<Member<D>>, aliases: seq<Alias>, dest: string, data: D)
    requires aliases != [] && IsAddedAs(members, aliases[|aliases| - 1], dest, data)
    ensures GetMember(AliasAdds(members, aliases), dest) == Some(File(dest, data))
  {
    var last, front := aliases[|aliases| - 1], aliases[..|aliases| - 1];
    CopyGet(members, dest, Some(data), dest);
    GetMemberOfConcat(AliasAdds(members, front), AliasCopy(members, last), dest);
  }

  lemma {:induction false} EarlierAlias<D>(members: seq<Member<D>>, aliases: seq<Alias>, need: string)
    requires aliases != [] && aliases[|aliases| - 1].need != need
    ensures GetMember(AliasAdds(members, aliases), Dest(need)) ==
      GetMember(AliasAdds(members, aliases[..|aliases| - 1]), Dest(need))
  {
    var last, front := aliases[|aliases| - 1], aliases[..|aliases| - 1];
    DestDiffers(need, last.need);
    CopyGet(members, Dest(last.need), Blob(members, Arc(last.source)), Dest(need));
    GetMemberOfConcat(AliasAdds(members, front), AliasCopy(members, last), Dest(need));
  }

  ghost predicate NeedsDiffer(aliases: seq<Alias>) {
    forall i, j :: 0 <= i < j < |aliases| ==> aliases[i].need != aliases[j].need
  }

  lemma {:induction false} NeedsOfFront(aliases: seq<Alias>, k: nat)
    requires NeedsDiffer(aliases) && k < |aliases| - 1
    ensures var front := aliases[..|aliases| - 1];
      NeedsDiffer(front) && front[k] == aliases[k] && aliases[k].need != aliases[|aliases| - 1].need
  {
  }

  lemma {:induction false} AliasIsAdded<D>(members: seq<Member<D>>, aliases: seq<Alias>, k: nat, dest: string, data: D)
    requires k < |aliases| && NeedsDiffer(aliases) && IsAddedAs(members, aliases[k], dest, data)
    ensures GetMember(AliasAdds(members, aliases), dest) == Some(File(dest, data))
  {
    if k == |aliases| - 1 {
      LastAlias(members, aliases, dest, data);
    } else {
      NeedsOfFront(aliases, k);
      AliasIsAdded(members, aliases[..|aliases| - 1], k, dest, data);
      EarlierAlias(members, aliases, aliases[k].need);
    }
  }

  /** The libraries on the flat path lie under the tar's root, as the packers write them. */
  ghost predicate AreRooted<D>(members: seq<Member<D>>) {
    forall i :: 0 <= i < |members| && IsRealLib(members[i]) ==> members[i].name == "./" + Rel(members[i].name)
  }

  lemma {:induction false} InDirIsDirName(dir: string, rel: string)
    requires IsDirName(dir) && InDir(dir, rel)
    ensures IsDirName(rel)
  {
    InDirParts(dir, rel);
  }

  /** A source is read from its path under the tar's root. */
  lemma {:induction false} SourcePlace<D>(members: seq<Member<D>>, r: Real)
    requires r in OverlayReals(members)
    ensures Arc(r.rel) == "./" + r.rel && Rel("./" + r.rel) == r.rel
    ensures InDir(LIBDIR, r.rel) && r.name == PathName(r.rel)
    ensures HasReal(members, r.name)
  {
    RealsAreMembers(members, r);
    InDirIsDirName(LIBDIR, r.rel);
    RelOf(r.rel);
  }

  lemma {:induction false} SourceIsMember<D>(members: seq<Member<D>>, r: Real)
    requires AreRooted(members) && r in OverlayReals(members)
    ensures Arc(r.rel) in Names(members)
  {
    SourcePlace(members, r);
    RealsAreMembers(members, r);
    var i :| 0 <= i < |members| && IsRealLib(members[i]) && RealOf(members[i]) == r;
    NamesOf(members, members[i].name);
  }

  lemma {:induction false} ItemOf(plan: map<string, string>, need: string) returns (k: nat)
    requires need in plan
    ensures k < |Items(plan)| && Items(plan)[k] == Alias(need, plan[need])
  {
    var a := Alias(need, plan[need]);
    assert a in Items(plan);
    k :| 0 <= k < |Items(plan)| && Items(plan)[k] == a;
  }

  lemma {:induction false} EachIsCopied<D>(members: seq<Member<D>>, aliases: seq<Alias>, k: nat)
    requires AreCopied(members, aliases) && k < |aliases|
    ensures IsCopied(members, aliases[k])
  {
    CopiedNext(members, aliases, k);
  }

  lemma {:induction false} AliasInRepacked<D>(members: seq<Member<D>>, a: Addons<D>, need: string, data: D)
    requires need in a.plan && Dest(need) !in Names(members) && Blob(members, Arc(a.plan[need])) == Some(data)
    ensures GetMember(Repacked(members, a), Dest(need)) == Some(File(Dest(need), data))
    ensures Dest(need) in Names(Repacked(members, a))
  {
    var k := ItemOf(a.plan, need);
    var before, aliases := PulseAdds(members, a.pulse) + NssAdds(members, a.nss, NssNames(a.nss)),
      AliasAdds(members, Items(a.plan));
    AliasIsAdded(members, Items(a.plan), k, Dest(need), data);
    NamesOf(aliases, Dest(need));
    GetMemberOfConcat(before, aliases, Dest(need));
    NamesOf(before + aliases, Dest(need));
    GetMemberOfConcat(members, before + aliases, Dest(need));
    NamesOf(members + (before + aliases), Dest(need));
  }

  /** A plan made for the tar, additions included, that can be carried out. */
  ghost predicate IsSound<D>(
      members: seq<Member<D>>, base: seq<Member<D>>, a: Addons<D>, read: Member<D> -> seq<string>,
      parse: string -> Option<Lib>)
  {
    IsPlanFor(a.plan, members, base, read, parse) && CanRepack(members, a.pulse, a.plan)
  }

  /** An added alias holds the bytes of a library of the need's stem than which none on the flat path
      has a higher version. */
  lemma {:induction false} AliasHoldsHighest<D>(
      members: seq<Member<D>>, base: seq<Member<D>>, a: Addons<D>, read: Member<D> -> seq<string>,
      parse: string -> Option<Lib>, need: string)
    returns (source: Real)
    requires IsSound(members, base, a, read, parse) && need in a.plan && Dest(need) !in Names(members)
    requires Arc(a.plan[need]) in Names(members)
    ensures parse(need).Some? && IsHighest(OverlayReals(members), parse, parse(need).value.stem, source)
    ensures Blob(members, "./" + source.rel).Some?
    ensures GetMember(Repacked(members, a), Dest(need)) ==
      Some(File(Dest(need), Blob(members, "./" + source.rel).value))
    ensures Dest(need) in Names(Repacked(members, a))
  {
    var reals := OverlayReals(members);
    assert IsAliased(EntryNeeded(members, ENTRYPOINT, read), LibNames(base), reals, parse, need);
    source := AliasSource(reals, parse, need).value;
    SourceIsHighest(reals, parse, need);
    SourcePlace(members, source);
    var k := ItemOf(a.plan, need);
    EachIsCopied(members, Items(a.plan), k);
    AliasInRepacked(members, a, need, Blob(members, Arc(source.rel)).value);
  }

  // --- plan, repacking and gate agree ---------------------------------------------------------------------------

  lemma {:induction false} LibNamesOf<D>(members: seq<Member<D>>, i: nat)
    requires i < |members|
    ensures LibName(members[i]) <= LibNames(members)
  {
    forall x | x in LibName(members[i]) ensures x in LibNames(members) {
      UnionOfMember(members, m => LibName(m), x);
    }
  }

  /** A library on the flat path counts for the gate. */
  lemma {:induction false} RealCounts<D>(members: seq<Member<D>>, name: string)
    requires HasReal(members, name)
    ensures name in LibNames(members)
  {
    var i :| 0 <= i < |members| && IsRealLib(members[i]) && RealOf(members[i]).name == name;
    FlatNameStays(members[i].name);
    LibNamesOf(members, i);
  }

  /** What leads up to the flat directory does not change the last part of a name in it. */
  lemma {:induction false} FlatNameStays(name: string)
    requires InDir(LIBDIR, Rel(name))
    ensures PathName(name) == PathName(Rel(name))
  {
    var front := RelSplit(name);
    InDirParts(LIBDIR, Rel(name));
    var n := Rel(name)[|LIBDIR| + 1..];
    PathNameBehind(front, "usr/lib", ARCH_TRIPLET, n);
  }

  /** Some library on the flat path has the stem. */
  ghost predicate HasStemLib<D>(members: seq<Member<D>>, parse: string -> Option<Lib>, stem: string) {
    exists name :: HasReal(members, name) && HasStem(parse, name, stem)
  }

  lemma {:induction false} SourceExists<D>(members: seq<Member<D>>, parse: string -> Option<Lib>, need: string)
    ensures AliasSource(OverlayReals(members), parse, need).Some? <==>
      parse(need).Some? && HasStemLib(members, parse, parse(need).value.stem)
  {
    var reals := OverlayReals(members);
    SourceIsHighest(reals, parse, need);
    if parse(need).Some? {
      var stem := parse(need).value.stem;
      if HasStemLib(members, parse, stem) {
        var name :| HasReal(members, name) && HasStem(parse, name, stem);
        RealsOf(members, name);
        var i :| 0 <= i < |reals| && reals[i].name == name;
        assert reals[i] in reals;
      }
      if exists r :: r in reals && HasStem(parse, r.name, stem) {
        var r :| r in reals && HasStem(parse, r.name, stem);
        assert HasKey(reals, r.name);
        RealsOf(members, r.name);
      }
    }
  }

  lemma {:induction false} PlannedIsLacking<D>(
      members: seq<Member<D>>, base: seq<Member<D>>, a: Addons<D>, read: Member<D> -> seq<string>,
      parse: string -> Option<Lib>, n: string)
    requires IsPlanFor(a.plan, members, base, read, parse)
    ensures n in a.plan <==>
      n in EntryNeeded(members, ENTRYPOINT, read) && n !in LibNames(base) && !HasReal(members, n)
      && parse(n).Some? && HasStemLib(members, parse, parse(n).value.stem)
  {
    assert n in a.plan <==>
      IsAliased(EntryNeeded(members, ENTRYPOINT, read), LibNames(base), OverlayReals(members), parse, n);
    RealsOf(members, n);
    SourceExists(members, parse, n);
  }

  /** The flat place of a library is free, or a library lies there. */
  ghost predicate IsOpen<D>(members: seq<Member<D>>, n: string) {
    Dest(n) in Names(members) ==> HasReal(members, n)
  }

  /** A planned alias whose place is free is there after repacking. */
  lemma {:induction false} PlannedIsProvided<D>(
      members: seq<Member<D>>, base: seq<Member<D>>, a: Addons<D>, read: Member<D> -> seq<string>,
      parse: string -> Option<Lib>, n: string)
    requires IsSound(members, base, a, read, parse) && n in a.plan && Dest(n) !in Names(members) && IsFileName(n)
    requires Arc(a.plan[n]) in Names(members)
    ensures Dest(n) in Names(Repacked(members, a)) && n in LibNames(Repacked(members, a))
  {
    var source := AliasHoldsHighest(members, base, a, read, parse, n);
    FlatFileCounts(Repacked(members, a), n);
  }

  lemma {:induction false} FlatFileCounts<D>(members: seq<Member<D>>, n: string)
    requires IsFileName(n) && GetMember(members, Dest(n)).Some? && GetMember(members, Dest(n)).value.File?
    ensures Dest(n) in Names(members) && n in LibNames(members)
  {
    var m := GetMember(members, Dest(n)).value;
    GetMemberIsMember(members, Dest(n));
    var i :| 0 <= i < |members| && members[i] == m && members[i].name == Dest(n);
    FlatPlace(m, n);
    LibNamesOf(members, i);
    NamesOf(members, Dest(n));
  }

  lemma {:induction false} UnsatisfiedMembers<D>(
      overlay: seq<Member<D>>, base: seq<Member<D>>, read: Member<D> -> seq<string>, s: string)
    ensures s in UnsatisfiedNeeded(overlay, base, read) <==>
      s in EntryNeeded(overlay, ENTRYPOINT, read) && IsMissing(overlay, base, s)
  {
    var missing := Filter(EntryNeeded(overlay, ENTRYPOINT, read), n => IsMissing(overlay, base, n));
    FilterMembers(EntryNeeded(overlay, ENTRYPOINT, read), n => IsMissing(overlay, base, n));
    SortKeepsMembers(missing);
  }

  /** Neither libpulsecommon nor the plugins are versioned libraries. */
  ghost predicate AreNoLibs<D(!new)>(a: Addons<D>, parse: string -> Option<Lib>) {
    (forall f :: f in a.nss ==> parse(f).None?) && (a.pulse.Some? ==> parse(PathName(a.pulse.value)).None?)
  }

  lemma {:induction false} StemsAfter<D(!new)>(
      members: seq<Member<D>>, base: seq<Member<D>>, a: Addons<D>, read: Member<D> -> seq<string>,
      parse: string -> Option<Lib>, stem: string)
    requires IsPlanFor(a.plan, members, base, read, parse) && AreFileAddons(a) && AreNoLibs(a, parse)
    ensures HasStemLib(Repacked(members, a), parse, stem) <==> HasStemLib(members, parse, stem)
  {
    var after := Repacked(members, a);
    if HasStemLib(after, parse, stem) {
      var name :| HasReal(after, name) && HasStem(parse, name, stem);
      RealsAfter(members, a, name);
      PlannedIsLacking(members, base, a, read, parse, name);
    }
    if HasStemLib(members, parse, stem) {
      var name :| HasReal(members, name) && HasStem(parse, name, stem);
      RealsStay(members, a, name);
    }
  }

  lemma {:induction false} RealIsNamed<D>(members: seq<Member<D>>, n: string)
    ensures HasReal(members, n) ==> n in LibNames(members)
  {
    if HasReal(members, n) { RealCounts(members, n); }
  }

  /** Some addition brings `n`: it goes by that name, and one of its places is free. */
  ghost predicate Brings<D(!new)>(members: seq<Member<D>>, a: Addons<D>, n: string) {
    || (IsFlatAddon(members, a, n) && Dest(n) !in Names(members))
    || (n in a.nss && NssDest(n) !in Names(members))
  }

  lemma {:induction false} AddsProvide<D(!new)>(members: seq<Member<D>>, a: Addons<D>, n: string)
    requires AreFileAddons(a) && n in LibNames(Adds(members, a))
    ensures Brings(members, a, n)
  {
    var adds := Adds(members, a);
    AllAreAddons(members, a);
    UnionOfMember(adds, m => LibName(m), n);
    var i :| 0 <= i < |adds| && n in LibName(adds[i]);
    assert IsAddon(members, a, adds[i]);
    AddonPlace(members, a, adds[i]);
    assert IsAddonAt(members, a, n, adds[i].name);
  }

  lemma {:induction false} AddedMember<D(!new)>(members: seq<Member<D>>, a: Addons<D>, name: string) returns (i: nat)
    requires AreFileAddons(a) && name !in Names(members) && name in Names(Repacked(members, a))
    ensures i < |Repacked(members, a)| && Repacked(members, a)[i].name == name && Repacked(members, a)[i].File?
  {
    var adds := Adds(members, a);
    AllAreAddons(members, a);
    i := NewMember(members, adds, name);
    assert IsAddon(members, a, adds[i - |members|]);
  }

  lemma {:induction false} NewMember<D>(members: seq<Member<D>>, adds: seq<Member<D>>, name: string) returns (i: nat)
    requires name !in Names(members) && name in Names(members + adds)
    ensures |members| <= i < |members + adds| && (members + adds)[i] == adds[i - |members|]
    ensures adds[i - |members|].name == name
  {
    NamesOfConcat(members, adds);
    NamesOf(adds, name);
    var k :| 0 <= k < |adds| && adds[k].name == name;
    i := |members| + k;
  }

  /** A name at which something was added counts for the gate. */
  lemma {:induction false} AddedCounts<D(!new)>(members: seq<Member<D>>, a: Addons<D>, n: string, name: string)
    requires AreFileAddons(a) && IsFileName(n) && (name == Dest(n) || name == NssDest(n))
    requires name !in Names(members) && name in Names(Repacked(members, a))
    ensures n in LibNames(Repacked(members, a))
  {
    var after := Repacked(members, a);
    var i := AddedMember(members, a, name);
    if name == Dest(n) { FlatPlace(after[i], n); } else { NssPlace(after[i], n); }
    LibNamesOf(after, i);
  }

  lemma {:induction false} BroughtCounts<D(!new)>(
      members: seq<Member<D>>, base: seq<Member<D>>, a: Addons<D>, read: Member<D> -> seq<string>,
      parse: string -> Option<Lib>, n: string)
    requires IsSound(members, base, a, read, parse) && AreFileAddons(a) && IsFileName(n) && Brings(members, a, n)
    requires IsPulseChoice(Names(members), a.pulse)
    ensures n in LibNames(Repacked(members, a))
  {
    if n in a.nss {
      NssIsProvided(members, a, n);
      AddedCounts(members, a, n, if Dest(n) !in Names(members) then Dest(n) else NssDest(n));
    } else if n in a.plan && Arc(a.plan[n]) in Names(members) {
      PlannedIsProvided(members, base, a, read, parse, n);
    } else {
      PulseIsProvided(members, a);
      AddedCounts(members, a, n, Dest(n));
    }
  }

  /** The repacked tar provides what was there and what the additions bring. */
  lemma {:induction false} NamesAfterRepack<D(!new)>(
      members: seq<Member<D>>, base: seq<Member<D>>, a: Addons<D>, read: Member<D> -> seq<string>,
      parse: string -> Option<Lib>, n: string)
    requires IsSound(members, base, a, read, parse) && AreFileAddons(a) && IsFileName(n)
    requires IsPulseChoice(Names(members), a.pulse)
    ensures n in LibNames(Repacked(members, a)) <==> n in LibNames(members) || Brings(members, a, n)
  {
    UnionOfConcat(members, Adds(members, a), m => LibName(m));
    if n in LibNames(Adds(members, a)) { AddsProvide(members, a, n); }
    if Brings(members, a, n) { BroughtCounts(members, base, a, read, parse, n); }
  }

  /** Repacking takes off the gate's list exactly the needs that an addition brings. */
  lemma {:induction false} GateAfterRepack<D(!new)>(
      members: seq<Member<D>>, base: seq<Member<D>>, a: Addons<D>, read: Member<D> -> seq<string>,
      parse: string -> Option<Lib>, n: string)
    requires IsSound(members, base, a, read, parse) && AreFileAddons(a) && IsFileName(n)
    requires IsPulseChoice(Names(members), a.pulse)
    ensures n in UnsatisfiedNeeded(Repacked(members, a), base, read) <==>
      n in UnsatisfiedNeeded(members, base, read) && !Brings(members, a, n)
  {
    NamesAfterRepack(members, base, a, read, parse, n);
    UnsatisfiedMembers(Repacked(members, a), base, read, n);
    UnsatisfiedMembers(members, base, read, n);
    EntryStays(members, a, read);
  }

  /** A library of the need's stem lies on the flat path. */
  ghost predicate HasSameStem<D>(members: seq<Member<D>>, parse: string -> Option<Lib>, n: string) {
    parse(n).Some? && HasStemLib(members, parse, parse(n).value.stem)
  }

  /** The library that the planner picks for a need is in the tar where the repacking looks for it. */
  ghost predicate HasSourceIn<D>(members: seq<Member<D>>, parse: string -> Option<Lib>, n: string) {
    var source := AliasSource(OverlayReals(members), parse, n);
    source.Some? && Arc(source.value.rel) in Names(members)
  }

  /** As it is for every need with a same-stem library where libraries lie under the tar's root. */
  lemma {:induction false} RootedHasSource<D>(members: seq<Member<D>>, parse: string -> Option<Lib>, n: string)
    requires AreRooted(members)
    ensures HasSourceIn(members, parse, n) <==> HasSameStem(members, parse, n)
  {
    SourceExists(members, parse, n);
    SourceIsHighest(OverlayReals(members), parse, n);
    if HasSameStem(members, parse, n) { SourceIsMember(members, AliasSource(OverlayReals(members), parse, n).value); }
  }

  /** For a need that is neither a plugin nor libpulsecommon: the gate lists it after repacking exactly
      when it listed it before, unless its place on the flat path was free and a same-stem library in
      the tar. */
  lemma {:induction false} GateListsNeedIff<D(!new)>(
      members: seq<Member<D>>, base: seq<Member<D>>, a: Addons<D>, read: Member<D> -> seq<string>,
      parse: string -> Option<Lib>, n: string)
    requires IsSound(members, base, a, read, parse) && AreFileAddons(a) && IsFileName(n)
    requires IsPulseChoice(Names(members), a.pulse) && n !in a.nss && (a.pulse.Some? ==> n != PathName(a.pulse.value))
    ensures n in UnsatisfiedNeeded(Repacked(members, a), base, read) <==>
      n in UnsatisfiedNeeded(members, base, read) && !(HasSourceIn(members, parse, n) && Dest(n) !in Names(members))
  {
    GateAfterRepack(members, base, a, read, parse, n);
    UnsatisfiedMembers(members, base, read, n);
    PlannedIsLacking(members, base, a, read, parse, n);
    SourceExists(members, parse, n);
    RealIsNamed(members, n);
  }

  /** A need listed after repacking has a library of its stem only where its place was taken by something
      else or that library cannot be read; the repacking brings no stem of its own. */
  lemma {:induction false} GateListsGenuineMisses<D(!new)>(
      members: seq<Member<D>>, base: seq<Member<D>>, a: Addons<D>, read: Member<D> -> seq<string>,
      parse: string -> Option<Lib>, n: string)
    requires IsSound(members, base, a, read, parse) && AreFileAddons(a) && AreNoLibs(a, parse)
    requires IsPulseChoice(Names(members), a.pulse)
    requires n in UnsatisfiedNeeded(Repacked(members, a), base, read) && IsFileName(n)
    ensures HasSameStem(Repacked(members, a), parse, n) <==> HasSameStem(members, parse, n)
    ensures HasSameStem(members, parse, n) ==>
      !HasReal(members, n) && (Dest(n) in Names(members) || !HasSourceIn(members, parse, n))
    ensures IsOpen(members, n) && AreRooted(members) ==> !HasSameStem(members, parse, n)
  {
    GateAfterRepack(members, base, a, read, parse, n);
    UnsatisfiedMembers(members, base, read, n);
    PlannedIsLacking(members, base, a, read, parse, n);
    SourceExists(members, parse, n);
    RealIsNamed(members, n);
    if AreRooted(members) { RootedHasSource(members, parse, n); }
    if parse(n).Some? { StemsAfter(members, base, a, read, parse, parse(n).value.stem); }
  }

  /** Plan and gate agree: no need with a library of its stem is left on the list, if and only if every
      such need that was on the list had its place on the flat path free and its source in the tar. */
  lemma {:induction false} GateAgreesIff<D(!new)>(
      members: seq<Member<D>>, base: seq<Member<D>>, a: Addons<D>, read: Member<D> -> seq<string>,
      parse: string -> Option<Lib>)
    requires IsSound(members, base, a, read, parse) && AreFileAddons(a) && AreNoLibs(a, parse)
    requires IsPulseChoice(Names(members), a.pulse)
    requires forall n :: n in EntryNeeded(members, ENTRYPOINT, read) ==> IsFileName(n)
    ensures
      (forall n :: n in UnsatisfiedNeeded(Repacked(members, a), base, read) ==> !HasSameStem(members, parse, n)) <==>
        forall n :: n in UnsatisfiedNeeded(members, base, read) && HasSameStem(members, parse, n) ==>
          Dest(n) !in Names(members) && HasSourceIn(members, parse, n)
  {
    forall n | IsFileName(n) && HasSameStem(members, parse, n)
      ensures n in UnsatisfiedNeeded(Repacked(members, a), base, read) <==>
        n in UnsatisfiedNeeded(members, base, read) &&
        !(Dest(n) !in Names(members) && HasSourceIn(members, parse, n))
    {
      GateListsNeedIff(members, base, a, read, parse, n);
    }
    ListedAreFileNames(members, base, a, read);
  }

  lemma {:induction false} ListedAreFileNames<D(!new)>(
      members: seq<Member<D>>, base: seq<Member<D>>, a: Addons<D>, read: Member<D> -> seq<string>)
    requires AreFileAddons(a) && forall n :: n in EntryNeeded(members, ENTRYPOINT, read) ==> IsFileName(n)
    ensures forall n :: n in UnsatisfiedNeeded(members, base, read) ==> IsFileName(n)
    ensures forall n :: n in UnsatisfiedNeeded(Repacked(members, a), base, read) ==> IsFileName(n)
  {
    EntryStays(members, a, read);
    forall n | n in UnsatisfiedNeeded(members, base, read) ensures IsFileName(n) {
      UnsatisfiedMembers(members, base, read, n);
    }
    forall n | n in UnsatisfiedNeeded(Repacked(members, a), base, read) ensures IsFileName(n) {
      UnsatisfiedMembers(Repacked(members, a), base, read, n);
    }
  }

  /** The entrypoint, one library and a link in the place of the needed version. */
  function LinkedTar<D>(entry: D, lib: D, link: Option<D>, given: string, need: string): seq<Member<D>> {
    [File(Arc(ENTRYPOINT), entry), File(Dest(given), lib), NoFile(Dest(need), link)]
  }

  lemma {:induction false} FirstOfThree<D>(e: Member<D>, l: Member<D>, x: Member<D>)
    requires e.name != l.name && e.name != x.name
    ensures GetMember([e, l, x], e.name) == Some(e) && x.name in Names([e, l, x])
  {
    assert [e, l, x][..2] == [e, l] && [e, l][..1] == [e];
    assert GetMember([e], e.name) == Some(e);
  }

  lemma {:induction false} RealsOfThree<D>(e: Member<D>, l: Member<D>, x: Member<D>, given: string, need: string)
    requires !IsRealLib(e) && IsRealLib(l) && RealOf(l).name == given && !IsRealLib(x) && need != given
    ensures HasReal([e, l, x], given) && !HasReal([e, l, x], need)
  {
    var members := [e, l, x];
    assert members[1] == l;
    forall i | 0 <= i < 3 ensures IsRealLib(members[i]) ==> RealOf(members[i]).name == given {
      if i != 1 { assert members[i] == (if i == 0 then e else x); }
    }
  }

  lemma {:induction false} LibNamesOfThree<D>(e: Member<D>, l: Member<D>, x: Member<D>, need: string)
    requires need !in LibName(e) && need !in LibName(l) && !x.File?
    ensures need !in LibNames([e, l, x])
  {
    UnionOfMember([e, l, x], m => LibName(m), need);
  }

  /** What the entrypoint is to the readers of the tar. */
  lemma {:induction false} EntryPlace<D>(m: Member<D>)
    requires m.name == Arc(ENTRYPOINT) && m.File?
    ensures !IsRealLib(m) && LibName(m) == {"chromium"}
  {
    EntryAtOrigin("chromium");
    OriginPlace("chromium");
  }

  lemma {:induction false} OriginPlace(n: string)
    requires IsFileName(n)
    ensures !InDir(LIBDIR, Rel("./" + In(ORIGIN, n))) && PathName("./" + In(ORIGIN, n)) == n
  {
    StoredAt(ORIGIN, n);
    OtherDir(ORIGIN, LIBDIR, n);
  }

  /** Where the place of every planned need is taken, or its source is not found, the aliases add nothing. */
  lemma {:induction false} NothingToAlias<D>(members: seq<Member<D>>, plan: map<string, string>)
    requires forall n :: n in plan ==> Dest(n) in Names(members) || Arc(plan[n]) !in Names(members)
    ensures Repacked(members, Addons(None, map[], plan)) == members
  {
    var items := Items(plan);
    forall i | 0 <= i < |items| ensures !IsAdded(members, items[i]) { assert items[i] in items; }
    NoAliasAdds(members, items);
    NoNssAdds(members, map[], NssNames<D>(map[]));
    assert members + [] == members;
  }

  lemma {:induction false} LinkedView<D>(entry: D, lib: D, link: Option<D>, given: string, need: string)
    requires IsFileName(given) && IsFileName(need) && need != given && need != "chromium"
    ensures
      var members := LinkedTar(entry, lib, link, given, need);
      && GetMember(members, Arc(ENTRYPOINT)) == Some(File(Arc(ENTRYPOINT), entry)) &&
        Dest(need) in Names(members)
      && HasReal(members, given) && !HasReal(members, need) && need !in LibNames(members)
  {
    var e, l := File(Arc(ENTRYPOINT), entry), File(Dest(given), lib);
    EntryPlace(e);
    FlatPlace(l, given);
    AddonIsNotEntry(given);
    AddonIsNotEntry(need);
    var x := NoFile(Dest(need), link);
    FirstOfThree(e, l, x);
    RealsOfThree(e, l, x, given, need);
    LibNamesOfThree(e, l, x, need);
  }

  /** On such a tar the need is planned, the alias is skipped, and the gate lists the need although a
      library of its stem lies on the flat path. */
  lemma {:induction false} LinkedPlaceIsMissed<D(!new)>(
      entry: D, lib: D, link: Option<D>, given: string, need: string, read: Member<D> -> seq<string>,
      parse: string -> Option<Lib>, plan: map<string, string>)
    requires IsFileName(given) && IsFileName(need) && need != given && need != "chromium" && !IsLoader(need)
    requires read(File(Arc(ENTRYPOINT), entry)) == [need]
    requires parse(need).Some? && HasStem(parse, given, parse(need).value.stem)
    requires IsPlanFor(plan, LinkedTar(entry, lib, link, given, need), [], read, parse)
    ensures
      var members := LinkedTar(entry, lib, link, given, need);
      && need in plan && Repacked(members, Addons(None, map[], plan)) == members
      && need in UnsatisfiedNeeded(members, [], read) && HasSameStem(members, parse, need)
  {
    var members := LinkedTar(entry, lib, link, given, need);
    LinkedView(entry, lib, link, given, need);
    assert EntryNeeded(members, ENTRYPOINT, read) == [need];
    var a: Addons<D> := Addons(None, map[], plan);
    PlannedIsLacking(members, [], a, read, parse, need);
    UnsatisfiedMembers(members, [], read, need);
    forall n | n in plan ensures Dest(n) in Names(members) { PlannedIsLacking(members, [], a, read, parse, n); }
    NothingToAlias(members, plan);
  }

  /** The entrypoint and a library whose name lacks the root's mark. */
  function UnrootedTar<D>(entry: D, lib: D, given: string): seq<Member<D>> {
    [File(Arc(ENTRYPOINT), entry), File(In(LIBDIR, given), lib)]
  }

  lemma {:induction false} FlatWithoutRoot<D>(m: Member<D>, x: string)
    requires IsFileName(x) && m.File? && m.name == In(LIBDIR, x)
    ensures IsRealLib(m) && RealOf(m) == Real(x, In(LIBDIR, x)) && LibName(m) == {x}
    ensures Arc(In(LIBDIR, x)) != m.name
  {
    StoredAt(LIBDIR, x);
    assert m.name[0] == 'u';
    assert Rel(m.name) == m.name;
  }

  lemma {:induction false} OverlayRealsNext<D>(members: seq<Member<D>>, m: Member<D>)
    ensures OverlayReals(members + [m]) ==
      if IsRealLib(m) then SetItem(OverlayReals(members), RealOf(m)) else OverlayReals(members)
  {
    FrontOf(members, m);
  }

  lemma {:induction false} RealsOfTwo<D>(e: Member<D>, l: Member<D>, need: string)
    requires !IsRealLib(e) && IsRealLib(l) && RealOf(l).name != need
    ensures OverlayReals([e, l]) == [RealOf(l)]
    ensures HasReal([e, l], RealOf(l).name) && !HasReal([e, l], need)
  {
    OverlayRealsNext([], e);
    OverlayRealsNext([e], l);
    assert [] + [e] == [e] && [e] + [l] == [e, l];
    var reals := [RealOf(l)];
    RealsOf([e, l], RealOf(l).name);
    RealsOf([e, l], need);
    assert reals[0].name == RealOf(l).name;
  }

  lemma {:induction false} NamesOfTwo<D>(e: Member<D>, l: Member<D>, lost: string)
    requires e.name != l.name && lost != e.name && lost != l.name
    ensures GetMember([e, l], e.name) == Some(e) && lost !in Names([e, l])
  {
    FrontOf([], e);
    FrontOf([e], l);
    assert [] + [e] == [e] && [e] + [l] == [e, l];
    assert GetMember([e], e.name) == Some(e);
    NamesOf([e, l], lost);
  }

  lemma {:induction false} LibNamesOfTwo<D>(e: Member<D>, l: Member<D>, need: string)
    requires need !in LibName(e) && need !in LibName(l)
    ensures need !in LibNames([e, l])
  {
    UnionOfMember([e, l], m => LibName(m), need);
  }

  /** Of two members one is a library; neither provides `need`, and neither is called `lost`. */
  ghost predicate IsLoneLib<D>(e: Member<D>, l: Member<D>, r: Real, need: string, lost: string) {
    && e.name != l.name && lost != e.name && lost != l.name
    && !IsRealLib(e) && IsRealLib(l) && RealOf(l) == r && r.name != need
    && need !in LibName(e) && need !in LibName(l)
  }

  lemma {:induction false} ViewOfTwo<D>(e: Member<D>, l: Member<D>, r: Real, need: string, lost: string)
    requires IsLoneLib(e, l, r, need, lost)
    ensures
      var members := [e, l];
      && GetMember(members, e.name) == Some(e) && OverlayReals(members) == [r] && lost !in Names(members)
      && HasReal(members, r.name) && !HasReal(members, need) && need !in LibNames(members)
  {
    NamesOfTwo(e, l, lost);
    RealsOfTwo(e, l, need);
    LibNamesOfTwo(e, l, need);
  }

  lemma {:induction false} UnrootedNames(given: string)
    requires IsFileName(given)
    ensures Arc(ENTRYPOINT) != In(LIBDIR, given) && Arc(ENTRYPOINT) != Arc(In(LIBDIR, given))
  {
    AddonIsNotEntry(given);
    Stored(given);
    EntryAtOrigin("chromium");
    assert Arc(ENTRYPOINT)[0] == '.' && In(LIBDIR, given)[0] == 'u';
  }

  lemma {:induction false} UnrootedView<D>(entry: D, lib: D, given: string, need: string)
    requires IsFileName(given) && IsFileName(need) && need != given && need != "chromium"
    ensures
      var members := UnrootedTar(entry, lib, given);
      && GetMember(members, Arc(ENTRYPOINT)) == Some(File(Arc(ENTRYPOINT), entry))
      && OverlayReals(members) == [Real(given, In(LIBDIR, given))] && Arc(In(LIBDIR, given)) !in Names(members)
      && HasReal(members, given) && !HasReal(members, need) && need !in LibNames(members)
  {
    var e, l := File(Arc(ENTRYPOINT), entry), File(In(LIBDIR, given), lib);
    UnrootedIsLone(e, l, given, need);
    ViewOfTwo(e, l, Real(given, In(LIBDIR, given)), need, Arc(In(LIBDIR, given)));
  }

  lemma {:induction false} UnrootedIsLone<D>(e: Member<D>, l: Member<D>, given: string, need: string)
    requires IsFileName(given) && need != given && need != "chromium" && e.File? && l.File?
    requires e.name == Arc(ENTRYPOINT) && l.name == In(LIBDIR, given)
    ensures IsLoneLib(e, l, Real(given, In(LIBDIR, given)), need, Arc(In(LIBDIR, given)))
  {
    var place, lost := In(LIBDIR, given), Arc(In(LIBDIR, given));
    assert !IsRealLib(e) && need !in LibName(e) by { EntryPlace(e); }
    assert IsRealLib(l) && RealOf(l) == Real(given, place) && need !in LibName(l) && lost != l.name by {
      FlatWithoutRoot(l, given);
    }
    assert e.name != place && lost != e.name by { UnrootedNames(given); }
  }

  /** On such a tar the need is planned, the alias is skipped as its source is not found, and the gate lists
      the need although a library of its stem lies on the flat path. */
  lemma {:induction false} UnrootedSourceIsMissed<D(!new)>(
      entry: D, lib: D, given: string, need: string, read: Member<D> -> seq<string>, parse: string -> Option<Lib>,
      plan: map<string, string>)
    requires IsFileName(given) && IsFileName(need) && need != given && need != "chromium" && !IsLoader(need)
    requires read(File(Arc(ENTRYPOINT), entry)) == [need]
    requires parse(need).Some? && HasStem(parse, given, parse(need).value.stem)
    requires IsPlanFor(plan, UnrootedTar(entry, lib, given), [], read, parse)
    ensures
      var members := UnrootedTar(entry, lib, given);
      && need in plan && Repacked(members, Addons(None, map[], plan)) == members
      && need in UnsatisfiedNeeded(members, [], read) && HasSameStem(members, parse, need)
  {
    var members := UnrootedTar(entry, lib, given);
    UnrootedView(entry, lib, given, need);
    assert EntryNeeded(members, ENTRYPOINT, read) == [need];
    PlannedIsLacking(members, [], Addons(None, map[], plan), read, parse, need);
    UnsatisfiedMembers(members, [], read, need);
    forall n | n in plan ensures Arc(plan[n]) !in Names(members) {
      SourceIsOnly(members, read, parse, plan, n, Real(given, In(LIBDIR, given)));
    }
    NothingToAlias(members, plan);
  }

  lemma {:induction false} SourceIsOnly<D>(
      members: seq<Member<D>>, read: Member<D> -> seq<string>, parse: string -> Option<Lib>, plan: map<string, string>,
      n: string, only: Real)
    requires IsPlanFor(plan, members, [], read, parse) && n in plan && OverlayReals(members) == [only]
    ensures plan[n] == only.rel
  {
    assert IsAliased(EntryNeeded(members, ENTRYPOINT, read), LibNames<D>([]), OverlayReals(members), parse, n);
    SourceIsHighest(OverlayReals(members), parse, n);
  }

  /** Where only regular files have the names of needed libraries, every place is free or holds a
      library. */
  lemma {:induction false} RegularIsOpen<D>(members: seq<Member<D>>, n: string)
    requires IsFileName(n) && AreFiles(members, Dest(n))
    ensures IsOpen(members, n)
  {
    NamesOf(members, Dest(n));
    if Dest(n) in Names(members) {
      var i :| 0 <= i < |members| && members[i].name == Dest(n);
      FlatPlace(members[i], n);
    }
  }

  // --- repacking again ----------------------------------------------------------------------------------------------

  lemma {:induction false} SlashIn(dir: string, x: string, j: nat)
    requires '/' !in x && j < |In(dir, x)|
    ensures In(dir, x)[j] == '/' <==> (j < |dir| && dir[j] == '/') || j == |dir|
  {
    if j > |dir| { assert In(dir, x)[j] == x[j - |dir| - 1]; }
  }

  /** Where the slashes of an addition's name are. */
  lemma {:induction false} SlashesOf(name: string, x: string, j: nat)
    requires '/' !in x && (name == Dest(x) || name == NssDest(x)) && j < |name|
    ensures name[j] == '/' ==> j in {1, 5, 9, 27, 31}
  {
    var root := "./usr/lib";
    var flat := In(root, ARCH_TRIPLET);
    assert "./" + LIBDIR == flat && |flat| == 27;
    assert "./" + NSSDIR == In(flat, "nss");
    if j < |root| { assert root[j] == '/' ==> j == 1 || j == 5; }
    if j < |flat| { SlashIn(root, ARCH_TRIPLET, j); }
    if name == Dest(x) {
      assert name == In(flat, x);
      SlashIn(flat, x, j);
    } else {
      assert name == In(In(flat, "nss"), x);
      if j < |In(flat, "nss")| { SlashIn(flat, "nss", j); }
      SlashIn(In(flat, "nss"), x, j);
    }
  }

  lemma {:induction false} AddonIsNoPulse<D(!new)>(members: seq<Member<D>>, a: Addons<D>, name: string)
    requires IsAddonName(members, a, name)
    ensures !IsPulse(name)
  {
    var x :| IsFileName(x) && IsAddonAt(members, a, x, name);
    var part := "/pulseaudio/libpulsecommon-";
    assert part[0] == '/' && part[11] == '/';
    forall i | 0 <= i <= |name| ensures !IsAt(name, i, part) {
      if IsAt(name, i, part) {
        assert name[i] == name[i..i + |part|][0] && name[i + 11] == name[i..i + |part|][11];
        SlashesOf(name, x, i);
        SlashesOf(name, x, i + 11);
      }
    }
  }

  /** All libpulsecommon members go by the same last part. */
  ghost predicate HasOnePulse(names: set<string>) {
    forall p, q :: p in names && q in names && IsPulse(p) && IsPulse(q) ==> PathName(p) == PathName(q)
  }

  lemma {:induction false} PulseIsOriginal<D(!new)>(members: seq<Member<D>>, a: Addons<D>, p: string)
    requires AreFileAddons(a) && p in Names(Repacked(members, a)) && IsPulse(p)
    ensures p in Names(members)
  {
    var adds := Adds(members, a);
    AllAreAddons(members, a);
    NamesOfConcat(members, adds);
    NamesOf(adds, p);
    if p in Names(adds) {
      var i :| 0 <= i < |adds| && adds[i].name == p;
      AddonIsNoPulse(members, a, p);
    }
  }

  lemma {:induction false} PulseIsProvided<D>(members: seq<Member<D>>, a: Addons<D>)
    requires a.pulse.Some? && a.pulse.value in Names(members) && CanRepack(members, a.pulse, a.plan)
    ensures Dest(PathName(a.pulse.value)) in Names(Repacked(members, a))
  {
    var dest := Dest(PathName(a.pulse.value));
    var p, n, l := PulseAdds(members, a.pulse), NssAdds(members, a.nss, NssNames(a.nss)),
      AliasAdds(members, Items(a.plan));
    NamesOfConcat(members, p + n + l);
    NamesOfConcat(p + n, l);
    NamesOfConcat(p, n);
    CopyGet(members, dest, Blob(members, a.pulse.value), dest);
  }

  lemma {:induction false} NssIsAdded<D>(members: seq<Member<D>>, nss: map<string, D>, names: seq<string>, f: string)
    requires f in names && forall i :: 0 <= i < |names| ==> names[i] in nss
    ensures Dest(f) in Names(members) + Names(NssAdds(members, nss, names))
    ensures NssDest(f) in Names(members) + Names(NssAdds(members, nss, names))
  {
    var last, front := names[|names| - 1], names[..|names| - 1];
    var data := Some(nss[last]);
    var flat, nested := Copy(members, Dest(last), data), Copy(members, NssDest(last), data);
    NamesOfConcat(NssAdds(members, nss, front), flat + nested);
    NamesOfConcat(flat, nested);
    if f == last {
      CopyGet(members, Dest(last), data, Dest(last));
      CopyGet(members, NssDest(last), data, NssDest(last));
    } else {
      assert f in front;
      NssIsAdded(members, nss, front, f);
    }
  }

  lemma {:induction false} NssIsProvided<D>(members: seq<Member<D>>, a: Addons<D>, f: string)
    requires f in a.nss
    ensures Dest(f) in Names(Repacked(members, a)) && NssDest(f) in Names(Repacked(members, a))
  {
    var p, n, l := PulseAdds(members, a.pulse), NssAdds(members, a.nss, NssNames(a.nss)),
      AliasAdds(members, Items(a.plan));
    NssIsAdded(members, a.nss, NssNames(a.nss), f);
    NamesOfConcat(members, p + n + l);
    NamesOfConcat(p + n, l);
    NamesOfConcat(p, n);
  }

  lemma {:induction false} NoNssAdds<D>(members: seq<Member<D>>, nss: map<string, D>, names: seq<string>)
    requires forall i :: 0 <= i < |names| ==> names[i] in nss
    requires forall i :: 0 <= i < |names| ==> Dest(names[i]) in Names(members) && NssDest(names[i]) in Names(members)
    ensures NssAdds(members, nss, names) == []
  {
    if names != [] { NoNssAdds(members, nss, names[..|names| - 1]); }
  }

  lemma {:induction false} NoAliasAdds<D>(members: seq<Member<D>>, aliases: seq<Alias>)
    requires forall i :: 0 <= i < |aliases| ==> !IsAdded(members, aliases[i])
    ensures AliasAdds(members, aliases) == []
  {
    if aliases != [] {
      var last := aliases[|aliases| - 1];
      NoAliasAdds(members, aliases[..|aliases| - 1]);
      CopyCases(members, Dest(last.need), Arc(last.source));
    }
  }

  lemma {:induction false} CandidatesOfSetItem(reals: seq<Real>, r: Real, parse: string -> Option<Lib>, stem: string)
    requires !HasStem(parse, r.name, stem)
    ensures CandidatesOf(SetItem(reals, r), parse, stem) == CandidatesOf(reals, parse, stem)
  {
    if reals != [] {
      if reals[0].name == r.name {
        CandidatesOfCons(reals[0], reals[1..], parse, stem);
        CandidatesOfCons(r, reals[1..], parse, stem);
        assert reals == [reals[0]] + reals[1..];
      } else {
        CandidatesOfSetItem(reals[1..], r, parse, stem);
        CandidatesOfCons(reals[0], reals[1..], parse, stem);
        CandidatesOfCons(reals[0], SetItem(reals[1..], r), parse, stem);
        assert reals == [reals[0]] + reals[1..];
      }
    }
  }

  lemma {:induction false} CandidatesOfCons(r: Real, reals: seq<Real>, parse: string -> Option<Lib>, stem: string)
    ensures CandidatesOf([r] + reals, parse, stem) ==
      CandidatesOf([r], parse, stem) + CandidatesOf(reals, parse, stem)
  {
    if reals == [] {
      assert [r] + reals == [r];
    } else {
      assert ([r] + reals)[..|reals|] == [r] + reals[..|reals| - 1];
      CandidatesOfCons(r, reals[..|reals| - 1], parse, stem);
    }
  }

  /** Members that are no library of a stem leave its candidates as they are. */
  lemma {:induction false} CandidatesStay<D>(
      members: seq<Member<D>>, adds: seq<Member<D>>, parse: string -> Option<Lib>, stem: string)
    requires forall i :: 0 <= i < |adds| && IsRealLib(adds[i]) ==> !HasStem(parse, RealOf(adds[i]).name, stem)
    ensures CandidatesOf(OverlayReals(members + adds), parse, stem) == CandidatesOf(OverlayReals(members), parse, stem)
  {
    if adds == [] {
      assert members + adds == members;
    } else {
      var front, m := adds[..|adds| - 1], adds[|adds| - 1];
      assert (members + adds)[..|members + adds| - 1] == members + front;
      CandidatesStay(members, front, parse, stem);
      if IsRealLib(m) { CandidatesOfSetItem(OverlayReals(members + front), RealOf(m), parse, stem); }
    }
  }

  /** Needs of one stem have one source. */
  lemma {:induction false} OneSource(reals: seq<Real>, parse: string -> Option<Lib>, m: string, n: string)
    requires parse(n).Some? && HasStem(parse, m, parse(n).value.stem)
    ensures AliasSource(reals, parse, m) == AliasSource(reals, parse, n)
  {
  }

  /** What is added has the stem of no need whose source is missing from the tar. */
  lemma {:induction false} AddsLackStem<D(!new)>(
      members: seq<Member<D>>, base: seq<Member<D>>, a: Addons<D>, read: Member<D> -> seq<string>,
      parse: string -> Option<Lib>, n: string, m: Member<D>)
    requires IsPlanFor(a.plan, members, base, read, parse) && AreNoLibs(a, parse)
    requires parse(n).Some? && !HasSourceIn(members, parse, n)
    requires IsAddon(members, a, m) && IsRealLib(m)
    ensures !HasStem(parse, RealOf(m).name, parse(n).value.stem)
  {
    AddonPlace(members, a, m);
    var x := RealOf(m).name;
    if HasStem(parse, x, parse(n).value.stem) { OneSource(OverlayReals(members), parse, x, n); }
  }

  lemma {:induction false} SourceStays<D(!new)>(
      members: seq<Member<D>>, base: seq<Member<D>>, a: Addons<D>, read: Member<D> -> seq<string>,
      parse: string -> Option<Lib>, n: string)
    requires IsPlanFor(a.plan, members, base, read, parse) && AreFileAddons(a) && AreNoLibs(a, parse)
    requires parse(n).Some? && !HasSourceIn(members, parse, n)
    ensures AliasSource(OverlayReals(Repacked(members, a)), parse, n) == AliasSource(OverlayReals(members), parse, n)
  {
    var adds, stem := Adds(members, a), parse(n).value.stem;
    AllAreAddons(members, a);
    forall i | 0 <= i < |adds| && IsRealLib(adds[i]) ensures !HasStem(parse, RealOf(adds[i]).name, stem) {
      AddsLackStem(members, base, a, read, parse, n, adds[i]);
    }
    CandidatesStay(members, adds, parse, stem);
  }

  /** Nothing is added at a place where a library of that path would be looked for. */
  lemma {:induction false} NoAddonAtSource<D(!new)>(
      members: seq<Member<D>>, base: seq<Member<D>>, a: Addons<D>, read: Member<D> -> seq<string>,
      parse: string -> Option<Lib>, r: Real, m: Member<D>)
    requires IsPlanFor(a.plan, members, base, read, parse) && AreNoLibs(a, parse)
    requires r in OverlayReals(members) && parse(r.name).Some?
    requires IsAddon(members, a, m)
    ensures m.name != Arc(r.rel)
  {
    SourcePlace(members, r);
    AddonPlace(members, a, m);
    PlannedIsLacking(members, base, a, read, parse, r.name);
  }

  lemma {:induction false} SourceStaysMissing<D(!new)>(
      members: seq<Member<D>>, base: seq<Member<D>>, a: Addons<D>, read: Member<D> -> seq<string>,
      parse: string -> Option<Lib>, n: string)
    requires IsPlanFor(a.plan, members, base, read, parse) && AreFileAddons(a) && AreNoLibs(a, parse)
    requires parse(n).Some? && !HasSourceIn(members, parse, n)
    ensures !HasSourceIn(Repacked(members, a), parse, n)
  {
    var reals, adds := OverlayReals(members), Adds(members, a);
    SourceStays(members, base, a, read, parse, n);
    var source := AliasSource(reals, parse, n);
    if source.Some? {
      SourceIsHighest(reals, parse, n);
      AllAreAddons(members, a);
      NamesOfConcat(members, adds);
      NamesOf(adds, Arc(source.value.rel));
      forall i | 0 <= i < |adds| ensures adds[i].name != Arc(source.value.rel) {
        NoAddonAtSource(members, base, a, read, parse, source.value, adds[i]);
      }
    }
  }

  /** A need planned again was planned before, and it is not added: its place is taken by now, or its
      source is not in the tar. */
  lemma {:induction false} PlannedAgain<D(!new)>(
      members: seq<Member<D>>, base: seq<Member<D>>, a: Addons<D>, again: Addons<D>, read: Member<D> -> seq<string>,
      parse: string -> Option<Lib>, n: string)
    requires IsSound(members, base, a, read, parse) && AreFileAddons(a) && AreNoLibs(a, parse)
    requires IsPlanFor(again.plan, Repacked(members, a), base, read, parse) && n in again.plan
    requires IsFileName(n)
    ensures n in a.plan && (Dest(n) in Names(Repacked(members, a)) || !HasSourceIn(Repacked(members, a), parse, n))
  {
    var after := Repacked(members, a);
    PlannedIsLacking(after, base, again, read, parse, n);
    PlannedIsLacking(members, base, a, read, parse, n);
    EntryStays(members, a, read);
    StemsAfter(members, base, a, read, parse, parse(n).value.stem);
    if HasReal(members, n) { RealsStay(members, a, n); }
    PlannedIsDone(members, base, a, read, parse, n);
  }

  lemma {:induction false} PlannedIsDone<D(!new)>(
      members: seq<Member<D>>, base: seq<Member<D>>, a: Addons<D>, read: Member<D> -> seq<string>,
      parse: string -> Option<Lib>, n: string)
    requires IsSound(members, base, a, read, parse) && AreFileAddons(a) && AreNoLibs(a, parse)
    requires n in a.plan && parse(n).Some? && IsFileName(n)
    ensures Dest(n) in Names(Repacked(members, a)) || !HasSourceIn(Repacked(members, a), parse, n)
  {
    NamesOfConcat(members, Adds(members, a));
    if !HasSourceIn(members, parse, n) {
      SourceStaysMissing(members, base, a, read, parse, n);
    } else if Dest(n) !in Names(members) {
      SourceOfPlanned(members, base, a, read, parse, n);
      PlannedIsProvided(members, base, a, read, parse, n);
    }
  }

  lemma {:induction false} SourceOfPlanned<D>(
      members: seq<Member<D>>, base: seq<Member<D>>, a: Addons<D>, read: Member<D> -> seq<string>,
      parse: string -> Option<Lib>, n: string)
    requires IsPlanFor(a.plan, members, base, read, parse) && n in a.plan
    ensures HasSourceIn(members, parse, n) <==> Arc(a.plan[n]) in Names(members)
  {
    assert IsAliased(EntryNeeded(members, ENTRYPOINT, read), LibNames(base), OverlayReals(members), parse, n);
  }

  lemma {:induction false} PulseStays<D(!new)>(members: seq<Member<D>>, a: Addons<D>, p: string)
    requires AreFileAddons(a) && IsPulse(p)
    ensures p in Names(Repacked(members, a)) <==> p in Names(members)
    ensures Blob(Repacked(members, a), p) == Blob(members, p)
  {
    NamesOfConcat(members, Adds(members, a));
    if p in Names(Repacked(members, a)) { PulseIsOriginal(members, a, p); }
    NamesOf(members, p);
    NamesOf(Repacked(members, a), p);
    OriginalsStay(members, a, p);
  }

  /** Every libpulsecommon member that can be read has its flat place taken. */
  ghost predicate PulsesAreFlat<D(!new)>(members: seq<Member<D>>) {
    forall p :: p in Names(members) && IsPulse(p) && Blob(members, p).Some? ==> Dest(PathName(p)) in Names(members)
  }

  /** Then, and only then, no choice of libpulsecommon adds anything. */
  lemma {:induction false} NoPulseAddsIff<D(!new)>(members: seq<Member<D>>)
    ensures PulsesAreFlat(members) <==>
      forall pulse :: IsPulseChoice(Names(members), pulse) ==> PulseAdds(members, pulse) == []
  {
    if !PulsesAreFlat(members) {
      var p :| p in Names(members) && IsPulse(p) && Blob(members, p).Some? && Dest(PathName(p)) !in Names(members);
      assert IsPulseChoice(Names(members), Some(p)) && PulseAdds(members, Some(p)) != [];
    }
  }

  lemma {:induction false} SoEnd(p: string)
    requires EndsWith(p, ".so")
    ensures |p| >= 3 && p[|p| - 3] == '.' && p[|p| - 2] == 's' && p[|p| - 1] == 'o'
  {
    var tail := p[|p| - 3..];
    assert tail == ".so" && tail[0] == '.' && tail[1] == 's' && tail[2] == 'o';
  }

  lemma {:induction false} LastPartOfSo(p: string, i: int, last: string)
    requires |p| >= 3 && p[|p| - 3] == '.' && p[|p| - 2] == 's' && p[|p| - 1] == 'o'
    requires i == RFind(p, '/') && last == p[i + 1..]
    ensures |last| >= 3
  {
    assert i != |p| - 3 && i != |p| - 2 && i != |p| - 1;
  }

  lemma {:induction false} PulseIsFile(p: string)
    requires IsPulse(p)
    ensures IsFileName(PathName(p))
  {
    var i := RFind(p, '/');
    var last := p[i + 1..];
    SoEnd(p);
    LastPartOfSo(p, i, last);
    LongIsFileName(p, i, last);
  }

  lemma {:induction false} LongIsFileName(p: string, i: int, last: string)
    requires RFind(p, '/') == i && p[i + 1..] == last && |last| >= 3
    ensures IsFileName(PathName(p))
  {
    assert |"."| == 1;
    PathNameStep(p, i, last);
    PathNameIsFileName(p);
  }

  /** A flat place is taken after repacking exactly when it was before or an addition goes there. */
  lemma {:induction false} PlaceIsTakenIff<D(!new)>(
      members: seq<Member<D>>, base: seq<Member<D>>, a: Addons<D>, read: Member<D> -> seq<string>,
      parse: string -> Option<Lib>, x: string)
    requires IsSound(members, base, a, read, parse) && AreFileAddons(a) && IsFileName(x)
    requires IsPulseChoice(Names(members), a.pulse)
    ensures Dest(x) in Names(Repacked(members, a)) <==> Dest(x) in Names(members) || IsFlatAddon(members, a, x)
  {
    NamesOfConcat(members, Adds(members, a));
    if Dest(x) !in Names(members) {
      if Dest(x) in Names(Repacked(members, a)) {
        TakenByAddon(members, a, x);
      }
      if IsFlatAddon(members, a, x) {
        if x in a.nss {
          NssIsProvided(members, a, x);
        } else if x in a.plan && Arc(a.plan[x]) in Names(members) {
          PlannedIsProvided(members, base, a, read, parse, x);
        } else {
          PulseIsProvided(members, a);
        }
      }
    }
  }

  lemma {:induction false} TakenByAddon<D(!new)>(members: seq<Member<D>>, a: Addons<D>, x: string)
    requires AreFileAddons(a) && IsFileName(x)
    requires Dest(x) !in Names(members) && Dest(x) in Names(Repacked(members, a))
    ensures IsFlatAddon(members, a, x)
  {
    var adds := Adds(members, a);
    AllAreAddons(members, a);
    var i := NewMember(members, adds, Dest(x));
    var m := adds[i - |members|];
    assert IsAddon(members, a, m);
    AddonPlace(members, a, m);
    FlatPlace(m, x);
  }

  /** Every libpulsecommon member that can be read has its flat place taken, or an addition goes there. */
  ghost predicate PulsesHavePlaces<D(!new)>(members: seq<Member<D>>, a: Addons<D>) {
    forall p :: p in Names(members) && IsPulse(p) && Blob(members, p).Some? ==>
      Dest(PathName(p)) in Names(members) || IsFlatAddon(members, a, PathName(p))
  }

  lemma {:induction false} PulsesAreFlatIff<D(!new)>(
      members: seq<Member<D>>, base: seq<Member<D>>, a: Addons<D>, read: Member<D> -> seq<string>,
      parse: string -> Option<Lib>)
    requires IsSound(members, base, a, read, parse) && AreFileAddons(a)
    requires IsPulseChoice(Names(members), a.pulse)
    ensures PulsesAreFlat(Repacked(members, a)) <==> PulsesHavePlaces(members, a)
  {
    var after := Repacked(members, a);
    forall p | IsPulse(p)
      ensures p in Names(after) <==> p in Names(members)
      ensures Blob(after, p) == Blob(members, p)
      ensures Dest(PathName(p)) in Names(after) <==>
        Dest(PathName(p)) in Names(members) || IsFlatAddon(members, a, PathName(p))
    {
      PulseStays(members, a, p);
      PulseIsFile(p);
      PlaceIsTakenIff(members, base, a, read, parse, PathName(p));
    }
  }

  lemma {:induction false} NoNssAgain<D>(members: seq<Member<D>>, a: Addons<D>)
    ensures NssAdds(Repacked(members, a), a.nss, NssNames(a.nss)) == []
  {
    var names, after := NssNames(a.nss), Repacked(members, a);
    forall i | 0 <= i < |names| ensures Dest(names[i]) in Names(after) && NssDest(names[i]) in Names(after) {
      NssIsProvided(members, a, names[i]);
    }
    NoNssAdds(after, a.nss, names);
  }

  lemma {:induction false} NoAliasAgain<D(!new)>(
      members: seq<Member<D>>, base: seq<Member<D>>, a: Addons<D>, again: Addons<D>, read: Member<D> -> seq<string>,
      parse: string -> Option<Lib>)
    requires IsSound(members, base, a, read, parse) && AreFileAddons(a) && AreNoLibs(a, parse)
    requires forall n :: n in EntryNeeded(members, ENTRYPOINT, read) ==> IsFileName(n)
    requires IsPlanFor(again.plan, Repacked(members, a), base, read, parse)
    ensures AliasAdds(Repacked(members, a), Items(again.plan)) == []
  {
    var after, items := Repacked(members, a), Items(again.plan);
    EntryStays(members, a, read);
    forall i | 0 <= i < |items| ensures !IsAdded(after, items[i]) {
      assert items[i] in items;
      PlannedIsLacking(after, base, again, read, parse, items[i].need);
      PlannedAgain(members, base, a, again, read, parse, items[i].need);
      SourceOfPlanned(after, base, again, read, parse, items[i].need);
    }
    NoAliasAdds(after, items);
  }

  /** Planning for the produced tar and repacking it with the same plugins adds nothing, whichever
      libpulsecommon is found, if and only if the flat place of each of them was taken or is filled. */
  lemma {:induction false} RepackAgainIff<D(!new)>(
      members: seq<Member<D>>, base: seq<Member<D>>, a: Addons<D>, plan: map<string, string>,
      read: Member<D> -> seq<string>, parse: string -> Option<Lib>)
    requires IsSound(members, base, a, read, parse) && AreFileAddons(a) && AreNoLibs(a, parse)
    requires forall n :: n in EntryNeeded(members, ENTRYPOINT, read) ==> IsFileName(n)
    requires IsPulseChoice(Names(members), a.pulse)
    requires IsPlanFor(plan, Repacked(members, a), base, read, parse)
    ensures
      var after := Repacked(members, a);
      (forall pulse :: IsPulseChoice(Names(after), pulse) ==> Repacked(after, Addons(pulse, a.nss, plan)) == after) <==>
        PulsesHavePlaces(members, a)
  {
    var after := Repacked(members, a);
    PulsesAreFlatIff(members, base, a, read, parse);
    NoNssAgain(members, a);
    NoAliasAgain(members, base, a, Addons(None, a.nss, plan), read, parse);
    NoPulseAddsIff(after);
    forall pulse ensures Repacked(after, Addons(pulse, a.nss, plan)) == after <==> PulseAdds(after, pulse) == [] {
      OnlyPulseAdded(after, Addons(pulse, a.nss, plan));
    }
  }

  lemma {:induction false} OnlyPulseAdded<D>(members: seq<Member<D>>, a: Addons<D>)
    requires NssAdds(members, a.nss, NssNames(a.nss)) == [] && AliasAdds(members, Items(a.plan)) == []
    ensures Repacked(members, a) == members <==> PulseAdds(members, a.pulse) == []
  {
    assert |Repacked(members, a)| == |members| + |PulseAdds(members, a.pulse)|;
    assert members + ([] + [] + []) == members;
  }

  /** So it is where all libpulsecommon members share their last part. */
  lemma {:induction false} RepackAgainAddsNothing<D(!new)>(
      members: seq<Member<D>>, base: seq<Member<D>>, a: Addons<D>, again: Addons<D>, read: Member<D> -> seq<string>,
      parse: string -> Option<Lib>)
    requires IsSound(members, base, a, read, parse) && AreFileAddons(a) && AreNoLibs(a, parse)
    requires forall n :: n in EntryNeeded(members, ENTRYPOINT, read) ==> IsFileName(n)
    requires IsPulseChoice(Names(members), a.pulse) && HasOnePulse(Names(members))
    requires IsPulseChoice(Names(Repacked(members, a)), again.pulse) && again.nss == a.nss
    requires IsPlanFor(again.plan, Repacked(members, a), base, read, parse)
    ensures Repacked(Repacked(members, a), again) == Repacked(members, a)
  {
    assert PulsesHavePlaces(members, a);
    RepackAgainIff(members, base, a, again.plan, read, parse);
    assert again == Addons(again.pulse, a.nss, again.plan);
  }

  ghost predicate AreFiles<D>(members: seq<Member<D>>, name: string) {
    forall i :: 0 <= i < |members| && members[i].name == name ==> members[i].File?
  }

  /** Whatever has a library's name, or libpulsecommon's, is a regular file. */
  ghost predicate AreRegular<D>(members: seq<Member<D>>) {
    && (forall i :: 0 <= i < |members| && IsRealLib(members[i]) ==> AreFiles(members, members[i].name))
    && (forall i :: 0 <= i < |members| && IsPulse(members[i].name) ==> members[i].File?)
  }

  lemma {:induction false} RegularBlob<D>(members: seq<Member<D>>, name: string)
    requires name in Names(members) && AreFiles(members, name)
    ensures Blob(members, name).Some?
  {
    NamesOf(members, name);
    GetMemberIsMember(members, name);
  }

  lemma {:induction false} AllCopied<D>(members: seq<Member<D>>, aliases: seq<Alias>)
    requires forall i :: 0 <= i < |aliases| ==> IsCopied(members, aliases[i])
    ensures AreCopied(members, aliases)
  {
    if aliases != [] { AllCopied(members, aliases[..|aliases| - 1]); }
  }

  /** On a tar of rooted regular libraries the repacking goes through. */
  lemma {:induction false} RegularTarsRepack<D>(
      members: seq<Member<D>>, base: seq<Member<D>>, pulse: Option<string>, plan: map<string, string>,
      read: Member<D> -> seq<string>,
      parse: string -> Option<Lib>)
    requires AreRooted(members) && AreRegular(members) && IsPlanFor(plan, members, base, read, parse)
    requires IsPulseChoice(Names(members), pulse)
    ensures CanRepack(members, pulse, plan)
  {
    if pulse.Some? { RegularBlob(members, pulse.value); }
    var reals, items := OverlayReals(members), Items(plan);
    forall k | 0 <= k < |items| ensures IsCopied(members, items[k]) {
      assert items[k] in items;
      var n := items[k].need;
      assert IsAliased(EntryNeeded(members, ENTRYPOINT, read), LibNames(base), reals, parse, n);
      SourceIsHighest(reals, parse, n);
      SourceIsRegular(members, AliasSource(reals, parse, n).value);
    }
    AllCopied(members, items);
  }

  lemma {:induction false} SourceIsRegular<D>(members: seq<Member<D>>, r: Real)
    requires AreRooted(members) && AreRegular(members) && r in OverlayReals(members)
    ensures Blob(members, Arc(r.rel)).Some?
  {
    SourceIsMember(members, r);
    RealsAreMembers(members, r);
    RegularBlob(members, Arc(r.rel));
  }
}
