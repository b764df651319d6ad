/** The stage graph of `apt install`: which stages a terminal marker waits for, and whether one of
    them needs exec re-entry (gate G1). */
module StageGraph {
  import opened PyText

  datatype Gate = PURE | G1 | G2
  datatype Proc = IN_PROC | FORK_EXEC | NETWORK
  datatype Entry = APT | DPKG_I

  /** The ids of the chain, in the order it lists them; any other id is an `Other`. */
  datatype StageId =
    | AptIndex | AptFetch | AptSpawnDpkg
    | DpkgSuperuserGate | DpkgReadControl | DpkgExtractData | DpkgLayFiles | DpkgChown | DpkgChmodStat
    | DpkgMknod | DpkgRunPreinst | DpkgUnpacked | DpkgRunPostinst | DpkgConfigureNoscript | DpkgUpdateDb
    | Other(name: string)

  datatype Stage = Stage(id: StageId, proc: Proc, gate: Gate, dependsOn: seq<StageId>, optional: bool)

  datatype PackageProfile = PackageProfile(
    hasCompressedData: bool, hasMaintainerScripts: bool, hasDeviceNodes: bool, entry: Entry)

  // --- reachability over depends_on --------------------------------------------------------

  predicate HasStage(stages: seq<Stage>, id: StageId) {
    exists i :: 0 <= i < |stages| && stages[i].id == id
  }

  /** The stage an id names; when an id is repeated the later stage counts. */
  function StageOf(stages: seq<Stage>, id: StageId): Stage
    requires HasStage(stages, id)
  {
    var last := stages[|stages| - 1];
    if last.id == id then last else StageOf(stages[..|stages| - 1], id)
  }

  ghost predicate Step(stages: seq<Stage>, a: StageId, b: StageId) {
    HasStage(stages, a) && b in StageOf(stages, a).dependsOn
  }

  /** A chain of depends_on edges; only its last id may fail to name a stage. */
  ghost predicate IsChain(stages: seq<Stage>, p: seq<StageId>) {
    |p| > 0 && forall i :: 0 < i < |p| ==> Step(stages, p[i - 1], p[i])
  }

  ghost predicate Reaches(stages: seq<Stage>, a: StageId, b: StageId) {
    exists p :: IsChain(stages, p) && p[0] == a && p[|p| - 1] == b
  }

  lemma {:induction false} ReachesItself(stages: seq<Stage>, a: StageId)
    ensures Reaches(stages, a, a)
  {
    assert IsChain(stages, [a]);
  }

  lemma {:induction false} ReachesStep(stages: seq<Stage>, a: StageId, b: StageId, c: StageId)
    requires Reaches(stages, a, b) && Step(stages, b, c)
    ensures Reaches(stages, a, c)
  {
    var p :| IsChain(stages, p) && p[0] == a && p[|p| - 1] == b;
    assert IsChain(stages, p + [c]);
  }

  lemma {:induction false} ClosedSetHoldsChain(stages: seq<Stage>, seen: set<StageId>, p: seq<StageId>, k: nat)
    requires IsChain(stages, p) && p[0] in seen && k < |p|
    requires forall a, b :: a in seen && Step(stages, a, b) ==> b in seen
    ensures p[k] in seen
  {
    if k > 0 {
      ClosedSetHoldsChain(stages, seen, p, k - 1);
      assert Step(stages, p[k - 1], p[k]);
    }
  }

  // --- the search --------------------------------------------------------------------------

  /** `KeyError(id)`: the search met a depends_on id that names no stage. */
  datatype Search = Found(ids: set<StageId>) | KeyError(id: StageId)

  method ById(stages: seq<Stage>) returns (byId: map<StageId, Stage>)
    ensures forall id :: id in byId <==> HasStage(stages, id)
    ensures forall id :: id in byId ==> byId[id] == StageOf(stages, id)
  {
    byId := map[];
    for i := 0 to |stages|
      invariant forall id :: id in byId <==> HasStage(stages[..i], id)
      invariant forall id :: id in byId ==> byId[id] == StageOf(stages[..i], id)
    {
      assert stages[..i + 1][..i] == stages[..i] && stages[..i + 1][i] == stages[i];
      forall id ensures HasStage(stages[..i + 1], id) <==> HasStage(stages[..i], id) || id == stages[i].id {
        if HasStage(stages[..i], id) {
          var k :| 0 <= k < i && stages[..i][k].id == id;
          assert stages[..i + 1][k].id == id;
        }
      }
      byId := byId[stages[i].id := stages[i]];
    }
    TakeAll(stages);
  }

  method StagesOnPathTo(target: StageId, stages: seq<Stage>) returns (r: Search)
    ensures !HasStage(stages, target) ==> r == Found({})
    ensures HasStage(stages, target) && r.Found? ==>
      forall id :: id in r.ids <==> Reaches(stages, target, id)
    ensures r.KeyError? ==> Reaches(stages, target, r.id) && !HasStage(stages, r.id)
    ensures HasStage(stages, target) ==>
      (r.Found? <==> forall id :: Reaches(stages, target, id) ==> HasStage(stages, id))
  {
    var byId := ById(stages);
    if target !in byId {
      return Found({});
    }
    var seen: set<StageId> := {};
    var stack := [target];
    ReachesItself(stages, target);
    while stack != []
      invariant target in seen || target in stack
      invariant seen <= byId.Keys
      invariant forall id :: id in seen || id in stack ==> Reaches(stages, target, id)
      invariant forall a, b :: a in seen && Step(stages, a, b) ==> b in seen || b in stack
      decreases byId.Keys - seen, |stack|
    {
      var sid := stack[|stack| - 1];
      assert forall id :: id in stack <==> id in stack[..|stack| - 1] || id == sid by {
        assert stack == stack[..|stack| - 1] + [sid];
      }
      stack := stack[..|stack| - 1];
      if sid in seen {
        continue;
      }
      if sid !in byId {
        return KeyError(sid);
      }
      seen := seen + {sid};
      forall b | b in byId[sid].dependsOn ensures Reaches(stages, target, b) {
        ReachesStep(stages, target, sid, b);
      }
      stack := stack + byId[sid].dependsOn;
    }
    ClosedSetIsComplete(stages, target, seen);
    return Found(seen);
  }

  lemma {:induction false} ClosedSetIsComplete(stages: seq<Stage>, target: StageId, seen: set<StageId>)
    requires target in seen
    requires forall a, b :: a in seen && Step(stages, a, b) ==> b in seen
    ensures forall id :: Reaches(stages, target, id) ==> id in seen
  {
    forall id | Reaches(stages, target, id) ensures id in seen {
      var p :| IsChain(stages, p) && p[0] == target && p[|p| - 1] == id;
      ClosedSetHoldsChain(stages, seen, p, |p| - 1);
    }
  }

  // --- the chain of a package profile ------------------------------------------------------

  function Ids(stages: seq<Stage>): (ids: seq<StageId>)
    ensures |ids| == |stages|
    ensures forall i :: 0 <= i < |stages| ==> ids[i] == stages[i].id
  {
    seq(|stages|, i requires 0 <= i < |stages| => stages[i].id)
  }

  /** Every stage waits for exactly the one before it. */
  ghost predicate IsLinear(stages: seq<Stage>) {
    && (stages != [] ==> stages[0].dependsOn == [])
    && forall i :: 0 < i < |stages| ==> stages[i].dependsOn == [stages[i - 1].id]
  }

  ghost function Rank(id: StageId): nat {
    match id
    case AptIndex => 1 case AptFetch => 2 case AptSpawnDpkg => 3
    case DpkgSuperuserGate => 4 case DpkgReadControl => 5 case DpkgExtractData => 6
    case DpkgLayFiles => 7 case DpkgChown => 8 case DpkgChmodStat => 9 case DpkgMknod => 10
    case DpkgRunPreinst => 11 case DpkgUnpacked => 12 case DpkgRunPostinst => 13
    case DpkgConfigureNoscript => 14 case DpkgUpdateDb => 15 case Other(_) => 0
  }

  ghost predicate RanksRise(stages: seq<Stage>) {
    forall i, j :: 0 <= i < j < |stages| ==> Rank(stages[i].id) < Rank(stages[j].id)
  }

  ghost function LastId(stages: seq<Stage>): Option<StageId> {
    if stages == [] then None else Some(stages[|stages| - 1].id)
  }

  ghost predicate Follows(last: Option<StageId>, s: Stage) {
    match last
    case None => s.dependsOn == []
    case Some(id) => s.dependsOn == [id] && Rank(id) < Rank(s.id)
  }

  /** The same two properties, built up one appended stage at a time. */
  ghost predicate Chained(stages: seq<Stage>, last: Option<StageId>) {
    last == LastId(stages) &&
    (stages == [] ||
     var front := stages[..|stages| - 1];
     Follows(LastId(front), stages[|stages| - 1]) && Chained(front, LastId(front)))
  }

  ghost function IdSet(stages: seq<Stage>): set<StageId> {
    if stages == [] then {} else IdSet(stages[..|stages| - 1]) + {stages[|stages| - 1].id}
  }

  /** The ids of the stages behind a gate. */
  ghost function GateOf(stages: seq<Stage>, gate: Gate): set<StageId> {
    if stages == [] then {}
    else
      var last := stages[|stages| - 1];
      GateOf(stages[..|stages| - 1], gate) + if last.gate == gate then {last.id} else {}
  }

  ghost predicate HasGated(stages: seq<Stage>, gate: Gate, id: StageId) {
    exists i :: 0 <= i < |stages| && stages[i].gate == gate && stages[i].id == id
  }

  lemma {:induction false} SetsOf(stages: seq<Stage>)
    ensures forall id :: id in IdSet(stages) <==> HasStage(stages, id)
    ensures forall gate, id :: id in GateOf(stages, gate) <==> HasGated(stages, gate, id)
  {
    if stages != [] {
      var front, last := stages[..|stages| - 1], stages[|stages| - 1];
      SetsOf(front);
      forall id | HasStage(front, id) ensures HasStage(stages, id) {
        var i :| 0 <= i < |front| && front[i].id == id;
        assert stages[i].id == id;
      }
      forall gate, id | HasGated(front, gate, id) ensures HasGated(stages, gate, id) {
        var i :| 0 <= i < |front| && front[i].gate == gate && front[i].id == id;
        assert stages[i] == front[i];
      }
      assert HasGated(stages, last.gate, last.id);
      assert forall i :: 0 <= i < |front| ==> stages[i] == front[i];
    }
  }

  lemma {:induction false} ChainedMeans(stages: seq<Stage>)
    requires Chained(stages, LastId(stages))
    ensures IsLinear(stages) && RanksRise(stages) && Distinct(Ids(stages))
  {
    if stages != [] {
      var front, last := stages[..|stages| - 1], stages[|stages| - 1];
      ChainedMeans(front);
      assert forall i :: 0 <= i < |front| ==> stages[i] == front[i];
      if front != [] {
        var prev := front[|front| - 1];
        assert last.dependsOn == [prev.id] && Rank(prev.id) < Rank(last.id);
        forall i | 0 <= i < |front| ensures Rank(front[i].id) <= Rank(prev.id) {
          assert i < |front| - 1 ==> Rank(front[i].id) < Rank(front[|front| - 1].id);
        }
      }
    }
  }

  method Append(stages: seq<Stage>, ghost last: Option<StageId>, s: Stage) returns (longer: seq<Stage>)
    requires Chained(stages, last) && Follows(last, s)
    ensures Chained(longer, Some(s.id))
    ensures IdSet(stages) <= IdSet(longer) && s.id in IdSet(longer)
    ensures GateOf(longer, G1) == if s.gate == G1 then GateOf(stages, G1) + {s.id} else GateOf(stages, G1)
    ensures GateOf(longer, G2) == if s.gate == G2 then GateOf(stages, G2) + {s.id} else GateOf(stages, G2)
  {
    longer := stages + [s];
    assert longer[..|stages|] == stages;
  }

  /** The stages that fork a guest child: apt's dpkg, the decompressor, the two scripts. */
  function G1Ids(profile: PackageProfile): set<StageId> {
    (if profile.entry == APT then {AptSpawnDpkg} else {}) +
    (if profile.hasCompressedData then {DpkgExtractData} else {}) +
    (if profile.hasMaintainerScripts then {DpkgRunPreinst, DpkgRunPostinst} else {})
  }

  /** The stages that fakeroot satisfies: the superuser check and the metadata of the members. */
  function G2Ids(profile: PackageProfile): set<StageId> {
    {DpkgSuperuserGate, DpkgChown, DpkgChmodStat} + (if profile.hasDeviceNodes then {DpkgMknod} else {})
  }

  lemma {:induction false} G1Union(
      profile: PackageProfile, outer: set<StageId>, extracted: set<StageId>, unpacked: set<StageId>,
      all: set<StageId>)
    requires outer == if profile.entry == APT then {AptSpawnDpkg} else {}
    requires extracted == if profile.hasCompressedData then outer + {DpkgExtractData} else outer
    requires unpacked == if profile.hasMaintainerScripts then extracted + {DpkgRunPreinst} else extracted
    requires all == if profile.hasMaintainerScripts then unpacked + {DpkgRunPostinst} else unpacked
    ensures all == G1Ids(profile)
  {
  }

  lemma {:induction false} G2Union(
      profile: PackageProfile, outer: set<StageId>, extracted: set<StageId>, laid: set<StageId>)
    requires outer == {} && extracted == outer + {DpkgSuperuserGate}
    requires laid == extracted + {DpkgChown, DpkgChmodStat} + (if profile.hasDeviceNodes then {DpkgMknod} else {})
    ensures laid == G2Ids(profile)
  {
  }

  method BuildChain(profile: PackageProfile) returns (stages: seq<Stage>)
    ensures Chained(stages, Some(DpkgUpdateDb))
    ensures DpkgUnpacked in IdSet(stages)
    ensures GateOf(stages, G1) == G1Ids(profile) && GateOf(stages, G2) == G2Ids(profile)
  {
    var outer, gateDep := AptOuterStages(profile.entry);
    var extracted := ExtractStages(outer, if profile.entry == APT then Some(AptSpawnDpkg)
      else None, gateDep, profile.hasCompressedData);
    var laid, metaDep := MetadataStages(extracted, profile.hasDeviceNodes);
    var unpacked := UnpackedStages(laid, metaDep, profile.hasMaintainerScripts);
    stages := ConfigureStages(unpacked, profile.hasMaintainerScripts);
    G1Union(profile, GateOf(outer, G1), GateOf(extracted, G1), GateOf(unpacked, G1), GateOf(stages, G1));
    G2Union(profile, GateOf(outer, G2), GateOf(extracted, G2), GateOf(laid, G2));
  }

  method AptOuterStages(entry: Entry) returns (stages: seq<Stage>, gateDep: seq<StageId>)
    ensures Chained(stages, if entry == APT then Some(AptSpawnDpkg) else None)
    ensures GateOf(stages, G1) == (if entry == APT then {AptSpawnDpkg} else {}) && GateOf(stages, G2) == {}
    ensures gateDep == if entry == APT then [AptSpawnDpkg] else []
  {
    stages, gateDep := [], [];
    if entry == APT {
      stages := Append(stages, None, Stage(AptIndex, IN_PROC, PURE, [], false));
      stages := Append(stages, Some(AptIndex), Stage(AptFetch, NETWORK, PURE, [AptIndex], false));
      stages := Append(stages, Some(AptFetch), Stage(AptSpawnDpkg, FORK_EXEC, G1, [AptFetch], false));
      gateDep := [AptSpawnDpkg];
    }
  }

  method ExtractStages(outer: seq<Stage>, ghost last: Option<StageId>, gateDep: seq<StageId>, hasCompressedData: bool)
    returns (stages: seq<Stage>)
    requires Chained(outer, last) && last in {None, Some(AptSpawnDpkg)}
    requires gateDep == match last case None => [] case Some(id) => [id]
    ensures Chained(stages, Some(DpkgExtractData))
    ensures GateOf(stages, G1) == if hasCompressedData then GateOf(outer, G1) + {DpkgExtractData} else GateOf(outer, G1)
    ensures GateOf(stages, G2) == GateOf(outer, G2) + {DpkgSuperuserGate}
  {
    stages := Append(outer, last, Stage(DpkgSuperuserGate, IN_PROC, G2, gateDep, false));
    stages := Append(stages, Some(DpkgSuperuserGate),
      Stage(DpkgReadControl, IN_PROC, PURE, [DpkgSuperuserGate], false));
    if hasCompressedData {
      stages := Append(stages, Some(DpkgReadControl), Stage(DpkgExtractData, FORK_EXEC, G1, [DpkgReadControl], false));
    } else {
      stages := Append(stages, Some(DpkgReadControl), Stage(DpkgExtractData, IN_PROC, PURE, [DpkgReadControl], false));
    }
  }

  lemma {:induction false} TwoAdded(s: set<StageId>, a: StageId, b: StageId)
    ensures s + {a} + {b} == s + {a, b} && s + {a, b} + {} == s + {a, b}
  {
  }

  method MetadataStages(extracted: seq<Stage>, hasDeviceNodes: bool) returns (stages: seq<Stage>, metaDep: StageId)
    requires Chained(extracted, Some(DpkgExtractData))
    ensures Chained(stages, Some(metaDep)) && metaDep in {DpkgChmodStat, DpkgMknod}
    ensures GateOf(stages, G1) == GateOf(extracted, G1)
    ensures GateOf(stages, G2) ==
      GateOf(extracted, G2) + {DpkgChown, DpkgChmodStat} + (if hasDeviceNodes then {DpkgMknod} else {})
  {
    stages := Append(extracted, Some(DpkgExtractData), Stage(DpkgLayFiles, IN_PROC, PURE, [DpkgExtractData], false));
    stages := Append(stages, Some(DpkgLayFiles), Stage(DpkgChown, IN_PROC, G2, [DpkgLayFiles], false));
    stages := Append(stages, Some(DpkgChown), Stage(DpkgChmodStat, IN_PROC, G2, [DpkgChown], false));
    TwoAdded(GateOf(extracted, G2), DpkgChown, DpkgChmodStat);
    metaDep := DpkgChmodStat;
    if hasDeviceNodes {
      stages := Append(stages, Some(DpkgChmodStat), Stage(DpkgMknod, IN_PROC, G2, [DpkgChmodStat], true));
      metaDep := DpkgMknod;
    }
  }

  method UnpackedStages(laid: seq<Stage>, metaDep: StageId, hasMaintainerScripts: bool) returns (stages: seq<Stage>)
    requires Chained(laid, Some(metaDep)) && metaDep in {DpkgChmodStat, DpkgMknod}
    ensures Chained(stages, Some(DpkgUnpacked)) && DpkgUnpacked in IdSet(stages)
    ensures GateOf(stages, G1) == if hasMaintainerScripts then GateOf(laid, G1) + {DpkgRunPreinst} else GateOf(laid, G1)
    ensures GateOf(stages, G2) == GateOf(laid, G2)
  {
    stages := laid;
    var unpackDep := metaDep;
    if hasMaintainerScripts {
      stages := Append(stages, Some(metaDep), Stage(DpkgRunPreinst, FORK_EXEC, G1, [metaDep], true));
      unpackDep := DpkgRunPreinst;
    }
    stages := Append(stages, Some(unpackDep), Stage(DpkgUnpacked, IN_PROC, PURE, [unpackDep], false));
  }

  method ConfigureStages(unpacked: seq<Stage>, hasMaintainerScripts: bool) returns (stages: seq<Stage>)
    requires Chained(unpacked, Some(DpkgUnpacked))
    ensures Chained(stages, Some(DpkgUpdateDb)) && IdSet(unpacked) <= IdSet(stages)
    ensures GateOf(stages, G1) ==
      if hasMaintainerScripts then GateOf(unpacked, G1) + {DpkgRunPostinst} else GateOf(unpacked, G1)
    ensures GateOf(stages, G2) == GateOf(unpacked, G2)
  {
    var configureDep;
    if hasMaintainerScripts {
      stages := Append(unpacked, Some(DpkgUnpacked), Stage(DpkgRunPostinst, FORK_EXEC, G1, [DpkgUnpacked], true));
      configureDep := DpkgRunPostinst;
    } else {
      stages := Append(unpacked, Some(DpkgUnpacked),
        Stage(DpkgConfigureNoscript, IN_PROC, PURE, [DpkgUnpacked], false));
      configureDep := DpkgConfigureNoscript;
    }
    stages := Append(stages, Some(configureDep), Stage(DpkgUpdateDb, IN_PROC, PURE, [configureDep], false));
  }

  lemma {:induction false} StageOfDistinct(stages: seq<Stage>, i: nat)
    requires Distinct(Ids(stages)) && i < |stages|
    ensures HasStage(stages, stages[i].id) && StageOf(stages, stages[i].id) == stages[i]
  {
    var last := |stages| - 1;
    if i < last {
      var front := stages[..last];
      assert Distinct(Ids(front)) by {
        forall j, k | 0 <= j < k < last ensures Ids(front)[j] != Ids(front)[k] {
          assert Ids(stages)[j] != Ids(stages)[k];
        }
      }
      assert Ids(stages)[i] != Ids(stages)[last];
      StageOfDistinct(front, i);
    }
  }

  /** In a linear chain exactly the earlier stages, and the stage itself, are on the path to a stage. */
  lemma {:induction false} LinearReaches(stages: seq<Stage>, i: nat, id: StageId)
    requires IsLinear(stages) && Distinct(Ids(stages)) && i < |stages|
    ensures Reaches(stages, stages[i].id, id) <==> exists j :: 0 <= j <= i && stages[j].id == id
  {
    forall j | 0 <= j <= i ensures Reaches(stages, stages[i].id, stages[j].id) {
      LinearReachesEarlier(stages, i, j);
    }
    var earlier := set j | 0 <= j <= i :: stages[j].id;
    forall a, b | a in earlier && Step(stages, a, b) ensures b in earlier {
      var j :| 0 <= j <= i && stages[j].id == a;
      StageOfDistinct(stages, j);
      assert b in stages[j].dependsOn;
      if j > 0 {
        assert stages[j].dependsOn == [stages[j - 1].id];
        assert b == stages[j - 1].id;
      }
    }
    forall p | IsChain(stages, p) && p[0] == stages[i].id ensures p[|p| - 1] in earlier {
      ClosedSetHoldsChain(stages, earlier, p, |p| - 1);
    }
  }

  lemma {:induction false} LinearStep(stages: seq<Stage>, j: nat)
    requires IsLinear(stages) && Distinct(Ids(stages)) && j + 1 < |stages|
    ensures Step(stages, stages[j + 1].id, stages[j].id)
  {
    StageOfDistinct(stages, j + 1);
    assert stages[j + 1].dependsOn == [stages[j].id];
  }

  lemma {:induction false} LinearReachesEarlier(stages: seq<Stage>, i: nat, j: nat)
    requires IsLinear(stages) && Distinct(Ids(stages)) && j <= i < |stages|
    ensures Reaches(stages, stages[i].id, stages[j].id)
    decreases i - j
  {
    if i == j {
      ReachesItself(stages, stages[i].id);
    } else {
      LinearReachesEarlier(stages, i, j + 1);
      LinearStep(stages, j);
      ReachesStep(stages, stages[i].id, stages[j + 1].id, stages[j].id);
    }
  }

  // --- the verdict -------------------------------------------------------------------------

  datatype GateDecision = GateDecision(
    stages: seq<Stage>, pureStages: seq<StageId>, g2Stages: seq<StageId>, g1Stages: seq<StageId>,
    hostProvableStages: seq<StageId>, devicePendingStages: seq<StageId>,
    unpackedRequiresG1: bool, installedRequiresG1: bool, g1StageCount: nat)

  ghost predicate PathMeetsG1(stages: seq<Stage>, marker: StageId) {
    exists i :: 0 <= i < |stages| && stages[i].gate == G1 && Reaches(stages, marker, stages[i].id)
  }

  /** Every stage on the path to the marker is in the list. */
  ghost predicate Resolves(stages: seq<Stage>, marker: StageId) {
    forall id :: Reaches(stages, marker, id) ==> HasStage(stages, id)
  }

  /** Whatever the graph, cyclic or not, and whatever the marker: the intersection with the G1 stages is empty
      or not as a path meets one. None stands for the missing key of a path that leads out of the list. */
  method RequiresG1(stages: seq<Stage>, marker: StageId) returns (r: Option<bool>)
    ensures r.None? <==> HasStage(stages, marker) && !Resolves(stages, marker)
    ensures r.Some? ==> (r.value <==> PathMeetsG1(stages, marker))
  {
    var path := StagesOnPathTo(marker, stages);
    if path.KeyError? {
      return None;
    }
    var g1 := IdsWith(stages, {G1});
    IdsBehind(stages, G1);
    SetsOf(stages);
    if !HasStage(stages, marker) { StrangerReaches(stages, marker); }
    return Some(exists id :: id in g1 && id in path.ids);
  }

  /** From an id that names no stage no path leads on. */
  lemma {:induction false} StrangerReaches(stages: seq<Stage>, marker: StageId)
    requires !HasStage(stages, marker)
    ensures forall id :: Reaches(stages, marker, id) ==> id == marker
  {
    forall p | IsChain(stages, p) && p[0] == marker ensures p[|p| - 1] == marker {
      assert |p| > 1 ==> Step(stages, p[0], p[1]);
    }
  }

  lemma {:induction false} LinearResolves(stages: seq<Stage>, marker: StageId)
    requires IsLinear(stages) && Distinct(Ids(stages)) && HasStage(stages, marker)
    ensures Resolves(stages, marker)
  {
    var i :| 0 <= i < |stages| && stages[i].id == marker;
    forall id | Reaches(stages, marker, id) ensures HasStage(stages, id) {
      LinearReaches(stages, i, id);
    }
  }

  /** The ids of the stages behind these gates, in the order of the list. */
  function IdsWith(stages: seq<Stage>, gates: set<Gate>): seq<StageId> {
    if stages == [] then []
    else
      var last := stages[|stages| - 1];
      IdsWith(stages[..|stages| - 1], gates) + if last.gate in gates then [last.id] else []
  }

  lemma {:induction false} IdsWithMembers(stages: seq<Stage>, gates: set<Gate>)
    ensures forall id :: id in IdsWith(stages, gates) <==> exists gate :: gate in gates && HasGated(stages, gate, id)
  {
    if stages != [] {
      var front, last := stages[..|stages| - 1], stages[|stages| - 1];
      IdsWithMembers(front, gates);
      forall gate, id ensures HasGated(stages, gate, id) <==>
        HasGated(front, gate, id) || (last.gate == gate && last.id == id)
      {
        GatedNext(stages, gate, id);
      }
    }
  }

  lemma {:induction false} GatedNext(stages: seq<Stage>, gate: Gate, id: StageId)
    requires stages != []
    ensures var last := stages[|stages| - 1];
      HasGated(stages, gate, id) <==>
        HasGated(stages[..|stages| - 1], gate, id) || (last.gate == gate && last.id == id)
  {
    var front, last := stages[..|stages| - 1], |stages| - 1;
    if HasGated(front, gate, id) {
      var i :| 0 <= i < |front| && front[i].gate == gate && front[i].id == id;
      assert stages[i] == front[i];
    }
    if HasGated(stages, gate, id) {
      var i :| 0 <= i < |stages| && stages[i].gate == gate && stages[i].id == id;
      if i < last { assert front[i] == stages[i]; }
    }
  }

  lemma {:induction false} SplitNext<T>(a: seq<T>, b: seq<T>, whole: seq<T>, x: T)
    requires multiset(a) + multiset(b) == multiset(whole)
    ensures multiset(a + [x]) + multiset(b) == multiset(whole + [x]) == multiset(a) + multiset(b + [x])
  {
  }

  /** Two groups of gates that share none split the ids between them. */
  lemma {:induction false} IdsWithSplit(stages: seq<Stage>, a: set<Gate>, b: set<Gate>, both: set<Gate>)
    requires a !! b && both == a + b
    ensures multiset(IdsWith(stages, a)) + multiset(IdsWith(stages, b)) == multiset(IdsWith(stages, both))
  {
    if stages != [] {
      var front, last := stages[..|stages| - 1], stages[|stages| - 1];
      IdsWithSplit(front, a, b, both);
      SplitNext(IdsWith(front, a), IdsWith(front, b), IdsWith(front, both), last.id);
      assert forall gates :: last.gate !in gates ==> IdsWith(stages, gates) == IdsWith(front, gates);
    }
  }

  lemma {:induction false} IdsWithAll(stages: seq<Stage>)
    ensures IdsWith(stages, {PURE, G1, G2}) == Ids(stages)
  {
    if stages != [] {
      var front, last := stages[..|stages| - 1], stages[|stages| - 1];
      IdsWithAll(front);
      assert last.gate == PURE || last.gate == G1 || last.gate == G2;
      assert Ids(stages) == Ids(front) + [last.id];
    }
  }

  /** The order of the chain. */
  ghost predicate IsInOrder(ids: seq<StageId>) {
    forall i, j :: 0 <= i < j < |ids| ==> Rank(ids[i]) < Rank(ids[j])
  }

  lemma {:induction false} IdsWithInOrder(stages: seq<Stage>, gates: set<Gate>)
    requires RanksRise(stages)
    ensures IsInOrder(IdsWith(stages, gates))
  {
    if stages != [] {
      var front, last := stages[..|stages| - 1], stages[|stages| - 1];
      assert forall i :: 0 <= i < |front| ==> stages[i] == front[i];
      IdsWithInOrder(front, gates);
      IdsWithMembers(front, gates);
      forall id | id in IdsWith(front, gates) ensures Rank(id) < Rank(last.id) {
        var gate :| gate in gates && HasGated(front, gate, id);
      }
    }
  }

  /** The stage lists of a decision over a profile's chain, each in its order: G1, G2 and the rest, and what
      the host can prove and what has to wait for a device. */
  ghost predicate AreStageLists(profile: PackageProfile, d: GateDecision) {
    && IsInOrder(d.pureStages) && IsInOrder(d.g2Stages) && IsInOrder(d.g1Stages) && IsInOrder(d.hostProvableStages)
    && (forall id :: id in d.g1Stages <==> id in G1Ids(profile))
    && (forall id :: id in d.g2Stages <==> id in G2Ids(profile))
    && multiset(d.pureStages) + multiset(d.g2Stages) + multiset(d.g1Stages) == multiset(Ids(d.stages))
    && d.devicePendingStages == d.g1Stages
    && multiset(d.hostProvableStages) + multiset(d.devicePendingStages) == multiset(Ids(d.stages))
  }

  method Decide(profile: PackageProfile) returns (d: GateDecision)
    ensures Chained(d.stages, Some(DpkgUpdateDb)) && GateOf(d.stages, G1) == G1Ids(profile)
    ensures AreStageLists(profile, d)
    ensures d.unpackedRequiresG1 <==> PathMeetsG1(d.stages, DpkgUnpacked)
    ensures d.installedRequiresG1 <==> PathMeetsG1(d.stages, DpkgUpdateDb)
    ensures d.unpackedRequiresG1 <==> d.installedRequiresG1
    ensures d.unpackedRequiresG1 <==>
      profile.entry == APT || profile.hasCompressedData || profile.hasMaintainerScripts
    ensures d.g1StageCount == |d.g1Stages| == (if profile.entry == APT then 1 else 0) +
      (if profile.hasCompressedData then 1 else 0) + (if profile.hasMaintainerScripts then 2 else 0)
    ensures forall id :: HasStage(d.stages, id) <==> Reaches(d.stages, DpkgUpdateDb, id)
  {
    var stages := BuildChain(profile);
    MarkersOfChain(profile, stages);
    LinearResolves(stages, DpkgUnpacked);
    LinearResolves(stages, DpkgUpdateDb);
    var unpacked := RequiresG1(stages, DpkgUnpacked);
    var installed := RequiresG1(stages, DpkgUpdateDb);
    var g1 := IdsWith(stages, {G1});
    d := GateDecision(
      stages, IdsWith(stages, {PURE}), IdsWith(stages, {G2}), g1, IdsWith(stages, {PURE, G2}), IdsWith(stages, {G1}),
      unpacked.value, installed.value, |g1|);
    ListsOfChain(profile, d);
    G1Count(profile);
    CountedOnce(g1, G1Ids(profile));
  }

  lemma {:induction false} ListsOfChain(profile: PackageProfile, d: GateDecision)
    requires Chained(d.stages, Some(DpkgUpdateDb))
    requires GateOf(d.stages, G1) == G1Ids(profile) && GateOf(d.stages, G2) == G2Ids(profile)
    requires d.pureStages == IdsWith(d.stages, {PURE}) && d.g2Stages == IdsWith(d.stages, {G2})
    requires d.g1Stages == d.devicePendingStages == IdsWith(d.stages, {G1})
    requires d.hostProvableStages == IdsWith(d.stages, {PURE, G2})
    ensures AreStageLists(profile, d)
  {
    ChainedMeans(d.stages);
    IdsWithInOrder(d.stages, {PURE});
    IdsWithInOrder(d.stages, {G2});
    IdsWithInOrder(d.stages, {G1});
    IdsWithInOrder(d.stages, {PURE, G2});
    IdsBehind(d.stages, G1);
    IdsBehind(d.stages, G2);
    ListsPartition(d.stages);
  }

  lemma {:induction false} IdsBehind(stages: seq<Stage>, gate: Gate)
    ensures forall id :: id in IdsWith(stages, {gate}) <==> id in GateOf(stages, gate)
  {
    SetsOf(stages);
    IdsWithMembers(stages, {gate});
  }

  lemma {:induction false} ListsPartition(stages: seq<Stage>)
    ensures multiset(IdsWith(stages, {PURE})) + multiset(IdsWith(stages, {G2})) + multiset(IdsWith(stages, {G1})) ==
            multiset(Ids(stages))
    ensures multiset(IdsWith(stages, {PURE, G2})) + multiset(IdsWith(stages, {G1})) == multiset(Ids(stages))
  {
    IdsWithSplit(stages, {PURE}, {G2}, {PURE, G2});
    IdsWithSplit(stages, {PURE, G2}, {G1}, {PURE, G1, G2});
    IdsWithAll(stages);
  }

  lemma {:induction false} CountedOnce(ids: seq<StageId>, s: set<StageId>)
    requires IsInOrder(ids) && forall id :: id in ids <==> id in s
    ensures |ids| == |s|
  {
    if ids == [] {
      assert s == {};
    } else {
      var last := |ids| - 1;
      assert forall id :: id in ids <==> id in ids[..last] || id == ids[last];
      CountedOnce(ids[..last], s - {ids[last]});
    }
  }

  lemma {:induction false} MarkersOfChain(profile: PackageProfile, stages: seq<Stage>)
    requires Chained(stages, Some(DpkgUpdateDb)) && DpkgUnpacked in IdSet(stages)
    requires GateOf(stages, G1) == G1Ids(profile)
    ensures IsLinear(stages) && Distinct(Ids(stages))
    ensures HasStage(stages, DpkgUnpacked) && HasStage(stages, DpkgUpdateDb)
    ensures PathMeetsG1(stages, DpkgUnpacked) <==> G1Ids(profile) != {}
    ensures PathMeetsG1(stages, DpkgUpdateDb) <==> G1Ids(profile) != {}
    ensures forall id :: HasStage(stages, id) <==> Reaches(stages, DpkgUpdateDb, id)
  {
    ChainedMeans(stages);
    SetsOf(stages);
    EveryStageIsOnPath(stages);
    G1OnPath(profile, stages, DpkgUnpacked);
    G1OnPath(profile, stages, DpkgUpdateDb);
  }

  lemma {:induction false} G1Count(profile: PackageProfile)
    ensures |G1Ids(profile)| == (if profile.entry == APT then 1 else 0) +
      (if profile.hasCompressedData then 1 else 0) + (if profile.hasMaintainerScripts then 2 else 0)
    ensures G1Ids(profile) != {} <==>
      profile.entry == APT || profile.hasCompressedData || profile.hasMaintainerScripts
  {
  }

  lemma {:induction false} EveryStageIsOnPath(stages: seq<Stage>)
    requires IsLinear(stages) && Distinct(Ids(stages)) && stages != []
    ensures forall id :: HasStage(stages, id) <==> Reaches(stages, stages[|stages| - 1].id, id)
    ensures HasStage(stages, stages[|stages| - 1].id)
  {
    forall id ensures HasStage(stages, id) <==> Reaches(stages, stages[|stages| - 1].id, id) {
      LinearReaches(stages, |stages| - 1, id);
    }
  }

  /** Every G1 stage but the postinst comes before both markers, and so lies on their paths. */
  lemma {:induction false} G1OnPath(profile: PackageProfile, stages: seq<Stage>, marker: StageId)
    requires IsLinear(stages) && RanksRise(stages) && Distinct(Ids(stages)) && GateOf(stages, G1) == G1Ids(profile)
    requires HasStage(stages, marker) && Rank(marker) >= Rank(DpkgUnpacked)
    ensures PathMeetsG1(stages, marker) <==> G1Ids(profile) != {}
  {
    SetsOf(stages);
    var u :| 0 <= u < |stages| && stages[u].id == marker;
    if G1Ids(profile) != {} {
      var id := SomeEarlyG1(profile);
      var j :| 0 <= j < |stages| && stages[j].gate == G1 && stages[j].id == id;
      assert j <= u;
      LinearReaches(stages, u, id);
    } else {
      forall i | 0 <= i < |stages| ensures stages[i].gate != G1 {
        assert stages[i].id !in GateOf(stages, G1);
      }
    }
  }

  lemma {:induction false} SomeEarlyG1(profile: PackageProfile) returns (id: StageId)
    requires G1Ids(profile) != {}
    ensures id in G1Ids(profile) && Rank(id) < Rank(DpkgUnpacked)
  {
    id := if profile.entry == APT then AptSpawnDpkg
          else if profile.hasCompressedData then DpkgExtractData else DpkgRunPreinst;
  }
}
