/** The configure order that one top-level dpkg run gives a dependency closure: Kahn's algorithm
    over the intra-closure Depends edges, ties broken by name. */
module ClosureScheduler {
  import opened PyText

  datatype ClosurePackage = ClosurePackage(name: string, depends: seq<string>)

  datatype ClosureCompletion = ClosureCompletion(
    target: string,
    unpackOrder: seq<string>,
    configureOrder: seq<string>,
    allInstalled: bool,
    cyclic: bool)

  // --- the dependency graph, without any order ---------------------------------------------

  type Graph = map<string, set<string>>

  function Names(ps: seq<ClosurePackage>): (names: seq<string>)
    ensures |names| == |ps|
    ensures forall i :: 0 <= i < |ps| ==> names[i] == ps[i].name
  {
    seq(|ps|, i requires 0 <= i < |ps| => ps[i].name)
  }

  ghost predicate DependsOn(ps: seq<ClosurePackage>, n: string, d: string) {
    exists i :: 0 <= i < |ps| && ps[i].name == n && d in ps[i].depends
  }

  /** Each package with the closure members it depends on; base-provided dependencies are dropped. */
  ghost function GraphOf(ps: seq<ClosurePackage>): Graph {
    map n | n in Elements(Names(ps)) :: set d | d in Elements(Names(ps)) && DependsOn(ps, n, d)
  }

  ghost predicate IsClosed(g: Graph) {
    forall n :: n in g ==> g[n] <= g.Keys
  }

  ghost predicate IsPath(g: Graph, p: seq<string>) {
    && |p| > 0
    && (forall i :: 0 <= i < |p| ==> p[i] in g)
    && (forall i :: 0 < i < |p| ==> p[i] in g[p[i - 1]])
  }

  /** A dependency path that comes back to a package it has already visited. */
  ghost predicate IsLasso(g: Graph, p: seq<string>) {
    IsPath(g, p) && p[|p| - 1] in p[..|p| - 1]
  }

  ghost predicate ReachesCycle(g: Graph, n: string) {
    exists p :: IsLasso(g, p) && p[0] == n
  }

  ghost predicate IsCycle(g: Graph, p: seq<string>) {
    IsPath(g, p) && |p| >= 2 && p[0] == p[|p| - 1]
  }

  ghost predicate HasCycle(g: Graph) {
    exists p :: IsCycle(g, p)
  }

  // --- orders ------------------------------------------------------------------------------

  /** Every package comes once, after everything it depends on. */
  ghost predicate IsConfigureOrder(g: Graph, o: seq<string>) {
    && Distinct(o)
    && (forall i :: 0 <= i < |o| ==> o[i] in g)
    && (forall i, d :: 0 <= i < |o| && d in g[o[i]] ==> d in o[..i])
  }

  ghost function Ready(g: Graph, done: seq<string>): set<string> {
    set n | n in g && n !in done && (forall d :: d in g[n] ==> d in done)
  }

  /** Each package is the least of those that were ready when it was chosen. */
  ghost predicate IsGreedyPrefix(g: Graph, o: seq<string>) {
    forall k :: 0 <= k < |o| ==> IsLeast(o[k], Ready(g, o[..k]))
  }

  ghost predicate IsGreedyOrder(g: Graph, o: seq<string>) {
    IsGreedyPrefix(g, o) && Ready(g, o) == {}
  }

  /** Lexicographic order on sequences of names. */
  ghost predicate LexLe(a: seq<string>, b: seq<string>) {
    a <= b || exists k :: 0 <= k < |a| && k < |b| && a[..k] == b[..k] && StrLt(a[k], b[k])
  }

  lemma {:induction false} GreedyIsConfigureOrder(g: Graph, o: seq<string>)
    requires IsGreedyPrefix(g, o)
    ensures IsConfigureOrder(g, o)
  {
    forall i | 0 <= i < |o| ensures o[i] in Ready(g, o[..i]) {}
    forall i, j | 0 <= i < j < |o| ensures o[i] != o[j] {
      assert o[i] == o[..j][i];
    }
  }

  /** No configure order reaches a package the greedy one misses. */
  lemma {:induction false} GreedyIsLargest(g: Graph, o: seq<string>, other: seq<string>, k: nat)
    requires IsGreedyOrder(g, o) && IsConfigureOrder(g, other)
    requires k <= |other|
    ensures forall i :: 0 <= i < k ==> other[i] in o
  {
    if k > 0 {
      GreedyIsLargest(g, o, other, k - 1);
      var n := other[k - 1];
      forall d | d in g[n] ensures d in o {
        assert d in other[..k - 1];
      }
      assert n !in Ready(g, o);
    }
  }

  /** Among the orders of the same packages the greedy one is lexicographically least. */
  lemma {:induction false} GreedyIsLexLeast(g: Graph, o: seq<string>, other: seq<string>)
    requires IsGreedyOrder(g, o) && IsConfigureOrder(g, other) && Elements(o) == Elements(other)
    ensures LexLe(o, other)
  {
    GreedyIsConfigureOrder(g, o);
    DistinctSize(o);
    DistinctSize(other);
    GreedyIsLexLeastFrom(g, o, other, 0);
  }

  lemma {:induction false} GreedyIsLexLeastFrom(g: Graph, o: seq<string>, other: seq<string>, k: nat)
    requires IsGreedyPrefix(g, o) && IsConfigureOrder(g, other) && |o| == |other|
    requires k <= |o| && o[..k] == other[..k]
    ensures LexLe(o, other)
    decreases |o| - k
  {
    if k == |o| {
      assert o == o[..k] && other == other[..k];
    } else if o[k] == other[k] {
      assert o[..k + 1] == o[..k] + [o[k]] && other[..k + 1] == other[..k] + [other[k]];
      GreedyIsLexLeastFrom(g, o, other, k + 1);
    } else {
      assert other[k] !in other[..k];
      assert other[k] in Ready(g, other[..k]);
      assert StrLt(o[k], other[k]);
    }
  }

  lemma {:induction false} GreedyIsUniqueFrom(g: Graph, a: seq<string>, b: seq<string>, k: nat)
    requires IsGreedyPrefix(g, a) && IsGreedyPrefix(g, b) && |a| == |b|
    requires k <= |a| && a[..k] == b[..k]
    ensures a == b
    decreases |a| - k
  {
    if k == |a| {
      assert a == a[..k] && b == b[..k];
    } else {
      LeastIsUnique(a[k], b[k], Ready(g, a[..k]));
      assert a[..k + 1] == a[..k] + [a[k]] && b[..k + 1] == b[..k] + [b[k]];
      GreedyIsUniqueFrom(g, a, b, k + 1);
    }
  }

  lemma {:induction false} GreedyIsUnique(g: Graph, a: seq<string>, b: seq<string>)
    requires IsGreedyOrder(g, a) && IsGreedyOrder(g, b)
    ensures a == b
  {
    GreedyIsConfigureOrder(g, a);
    GreedyIsConfigureOrder(g, b);
    GreedyIsLargest(g, a, b, |b|);
    GreedyIsLargest(g, b, a, |a|);
    assert Elements(a) == Elements(b);
    DistinctSize(a);
    DistinctSize(b);
    GreedyIsUniqueFrom(g, a, b, 0);
  }

  // --- what is missing from the order ------------------------------------------------------

  /** Along a dependency path positions in the order strictly decrease. */
  lemma {:induction false} PositionsDecrease(g: Graph, o: seq<string>, p: seq<string>, i: nat, j: nat, a: nat)
    returns (b: nat)
    requires IsConfigureOrder(g, o) && IsPath(g, p)
    requires i < j < |p| && a < |o| && o[a] == p[i]
    ensures b < a && o[b] == p[j]
    decreases j
  {
    var c := a;
    if i + 1 < j { c := PositionsDecrease(g, o, p, i, j - 1, a); }
    assert o[c] == p[j - 1] && p[j] in g[p[j - 1]];
    assert p[j] in o[..c];
    b :| 0 <= b < c && o[..c][b] == p[j];
  }

  lemma {:induction false} LassoIsNeverConfigured(g: Graph, o: seq<string>, p: seq<string>)
    requires IsConfigureOrder(g, o) && IsLasso(g, p)
    ensures p[0] !in o
  {
    if p[0] in o {
      var a :| 0 <= a < |o| && o[a] == p[0];
      var last := |p| - 1;
      var i :| 0 <= i < last && p[..last][i] == p[last];
      if i > 0 {
        a := PositionsDecrease(g, o, p, 0, i, a);
      }
      var b := PositionsDecrease(g, o, p, i, last, a);
      assert false;
    }
  }

  /** A package that is not ready has a dependency that is not configured. */
  lemma {:induction false} UnmetDependency(g: Graph, o: seq<string>, n: string) returns (d: string)
    requires IsClosed(g) && Ready(g, o) == {} && n in g && n !in o
    ensures d in g[n] && d !in o && d in g
  {
    assert n !in Ready(g, o);
    d :| d in g[n] && d !in o;
  }

  lemma {:induction false} LongerPath(g: Graph, p: seq<string>, d: string)
    requires IsPath(g, p) && d in g && d in g[p[|p| - 1]]
    ensures IsPath(g, p + [d]) && (d in p ==> IsLasso(g, p + [d])) && (Distinct(p) && d !in p ==> Distinct(p + [d]))
  {
    var q := p + [d];
    assert q[..|q| - 1] == p;
  }

  lemma {:induction false} PathIsShort(g: Graph, p: seq<string>)
    requires IsPath(g, p) && Distinct(p)
    ensures |p| <= |g|
  {
    DistinctSize(p);
    SubsetSize(Elements(p), g.Keys);
  }

  /** From a package that never becomes ready, unmet dependencies can be followed into a cycle. */
  lemma {:induction false} StuckReachesCycle(g: Graph, o: seq<string>, p: seq<string>)
    requires IsClosed(g) && Ready(g, o) == {}
    requires IsPath(g, p) && Distinct(p) && (forall n :: n in p ==> n !in o)
    ensures ReachesCycle(g, p[0])
    decreases |g| - |p|
  {
    var d := UnmetDependency(g, o, p[|p| - 1]);
    var q := p + [d];
    LongerPath(g, p, d);
    assert q[0] == p[0];
    if d !in p {
      PathIsShort(g, q);
      StuckReachesCycle(g, o, q);
    }
  }

  lemma {:induction false} SubsetSize(a: set<string>, b: set<string>)
    requires a <= b
    ensures |a| <= |b|
    ensures |a| == |b| ==> a == b
  {
    assert b == a + (b - a);
  }

  /** The packages left out are exactly those with a dependency path into a cycle. */
  lemma {:induction false} MissingIffReachesCycle(g: Graph, o: seq<string>, n: string)
    requires IsClosed(g) && IsGreedyOrder(g, o) && n in g
    ensures n !in o <==> ReachesCycle(g, n)
  {
    GreedyIsConfigureOrder(g, o);
    if n !in o {
      assert IsPath(g, [n]);
      StuckReachesCycle(g, o, [n]);
    }
    forall p | IsLasso(g, p) && p[0] == n ensures n !in o {
      LassoIsNeverConfigured(g, o, p);
    }
  }

  lemma {:induction false} HasCycleIffSomeReachesCycle(g: Graph)
    ensures HasCycle(g) <==> exists n :: n in g && ReachesCycle(g, n)
  {
    forall p | IsCycle(g, p) ensures ReachesCycle(g, p[0]) {
      assert p[..|p| - 1][0] == p[|p| - 1];
      assert IsLasso(g, p);
    }
    forall p | IsLasso(g, p) ensures HasCycle(g) {
      var last := |p| - 1;
      var i :| 0 <= i < last && p[..last][i] == p[last];
      assert IsCycle(g, p[i..]);
    }
  }

  /** The order is shorter than the closure exactly when the Depends graph has a cycle. */
  lemma {:induction false} ShortIffCyclic(g: Graph, o: seq<string>)
    requires IsClosed(g) && IsGreedyOrder(g, o)
    ensures |o| != |g| <==> HasCycle(g)
    ensures !HasCycle(g) ==> Elements(o) == g.Keys
  {
    GreedyIsConfigureOrder(g, o);
    DistinctSize(o);
    SubsetSize(Elements(o), g.Keys);
    HasCycleIffSomeReachesCycle(g);
    if HasCycle(g) {
      var n :| n in g && ReachesCycle(g, n);
      MissingIffReachesCycle(g, o, n);
      assert n !in Elements(o);
    } else {
      forall n | n in g ensures n in Elements(o) {
        MissingIffReachesCycle(g, o, n);
      }
      assert Elements(o) == g.Keys;
    }
  }

  /** Neither the order of the command line nor dependencies outside it change the configure order. */
  lemma {:induction false} OrderIsIndependentOfPresentation(
      ps: seq<ClosurePackage>, qs: seq<ClosurePackage>, a: seq<string>, b: seq<string>)
    requires Elements(Names(ps)) == Elements(Names(qs))
    requires forall n, d :: n in Names(ps) && d in Names(ps) ==> (DependsOn(ps, n, d) <==> DependsOn(qs, n, d))
    requires IsGreedyOrder(GraphOf(ps), a) && IsGreedyOrder(GraphOf(qs), b)
    ensures a == b
  {
    var names := Elements(Names(ps));
    forall n | n in names ensures GraphOf(ps)[n] == GraphOf(qs)[n] {
      forall d | d in names ensures DependsOn(ps, n, d) <==> DependsOn(qs, n, d) {
        assert n in Names(ps) && d in Names(ps);
      }
    }
    assert GraphOf(ps) == GraphOf(qs);
    GreedyIsUnique(GraphOf(ps), a, b);
  }

  /** On an acyclic closure: each name once, dependencies first, lexicographically least. */
  lemma {:induction false} AcyclicOrder(ps: seq<ClosurePackage>, o: seq<string>)
    requires IsGreedyOrder(GraphOf(ps), o) && !HasCycle(GraphOf(ps))
    ensures Elements(o) == Elements(Names(ps)) && Distinct(o)
    ensures Distinct(Names(ps)) ==> multiset(o) == multiset(Names(ps))
    ensures IsConfigureOrder(GraphOf(ps), o)
    ensures forall other :: IsConfigureOrder(GraphOf(ps), other) && multiset(other) == multiset(o) ==> LexLe(o, other)
  {
    var g, names := GraphOf(ps), Names(ps);
    GreedyIsConfigureOrder(g, o);
    ShortIffCyclic(g, o);
    if Distinct(names) { SameMembers(o, names); }
    forall other | IsConfigureOrder(g, other) && multiset(other) == multiset(o) ensures LexLe(o, other) {
      forall x ensures x in o <==> x in other {
        assert x in multiset(o) <==> x in multiset(other);
      }
      GreedyIsLexLeast(g, o, other);
    }
  }

  lemma {:induction false} SameMembers(a: seq<string>, b: seq<string>)
    requires Distinct(a) && Distinct(b) && Elements(a) == Elements(b)
    ensures multiset(a) == multiset(b)
  {
    DistinctCounts(a);
    DistinctCounts(b);
    forall x ensures multiset(a)[x] == multiset(b)[x] {
      assert x in a <==> x in Elements(a);
      assert x in b <==> x in Elements(b);
    }
  }

  // --- the algorithm -----------------------------------------------------------------------

  /** How many dependency entries, repeats included, still wait for a closure member. */
  ghost function Pending(deps: seq<string>, names: set<string>, done: set<string>): nat {
    if deps == [] then 0
    else Pending(deps[..|deps| - 1], names, done) + (if deps[|deps| - 1] in names - done then 1 else 0)
  }

  lemma {:induction false} PendingStep(deps: seq<string>, names: set<string>, done: set<string>, n: string)
    requires n in names && n !in done
    ensures Pending(deps, names, done) == Pending(deps, names, done + {n}) + multiset(deps)[n]
  {
    if deps != [] {
      PendingStep(deps[..|deps| - 1], names, done, n);
      assert deps == deps[..|deps| - 1] + [deps[|deps| - 1]];
    }
  }

  lemma {:induction false} PendingZero(deps: seq<string>, names: set<string>, done: set<string>)
    ensures Pending(deps, names, done) == 0 <==> (forall d :: d in deps && d in names ==> d in done)
  {
    if deps != [] {
      PendingZero(deps[..|deps| - 1], names, done);
      assert deps == deps[..|deps| - 1] + [deps[|deps| - 1]];
    }
  }

  /** The closure's names, once each. */
  ghost function Members(ps: seq<ClosurePackage>): (names: seq<string>)
    ensures Distinct(names) && Elements(names) == Elements(Names(ps))
  {
    SortSet(Elements(Names(ps)))
  }

  /** The Depends entries of all packages of that name. */
  ghost function Needs(ps: seq<ClosurePackage>, n: string): seq<string> {
    if ps == [] then []
    else Needs(ps[..|ps| - 1], n) + (if ps[|ps| - 1].name == n then ps[|ps| - 1].depends else [])
  }

  ghost function NeedsOf(ps: seq<ClosurePackage>, names: seq<string>): (deps: seq<seq<string>>)
    ensures |deps| == |names| && forall k :: 0 <= k < |names| ==> deps[k] == Needs(ps, names[k])
  {
    seq(|names|, k requires 0 <= k < |names| => Needs(ps, names[k]))
  }

  lemma {:induction false} NeedsAreDependencies(ps: seq<ClosurePackage>, n: string, d: string)
    ensures d in Needs(ps, n) <==> DependsOn(ps, n, d)
  {
    if ps != [] {
      var front := ps[..|ps| - 1];
      NeedsAreDependencies(front, n, d);
      if DependsOn(front, n, d) {
        var i :| 0 <= i < |front| && front[i].name == n && d in front[i].depends;
        assert ps[i] == front[i];
      }
      if DependsOn(ps, n, d) {
        var i :| 0 <= i < |ps| && ps[i].name == n && d in ps[i].depends;
        assert i < |front| ==> front[i] == ps[i];
      }
    }
  }

  ghost predicate InDegrees(names: seq<string>, deps: seq<seq<string>>, done: set<string>, indeg: map<string, int>) {
    && |deps| == |names|
    && indeg.Keys == Elements(names)
    && forall k :: 0 <= k < |names| ==> indeg[names[k]] == Pending(deps[k], Elements(names), done)
  }

  /** `users` lists the dependents of `d`, once for each Depends entry that names it. */
  ghost predicate Dependents(names: seq<string>, deps: seq<seq<string>>, d: string, users: seq<string>) {
    && |deps| == |names|
    && (forall m :: m in users ==> m in names)
    && forall k :: 0 <= k < |names| ==> multiset(users)[names[k]] == multiset(deps[k])[d]
  }

  /** In-degrees and reverse adjacency lists for the Depends entries in `deps`. */
  ghost predicate Edges(
      names: seq<string>, deps: seq<seq<string>>, indeg: map<string, int>, radj: map<string, seq<string>>)
  {
    && InDegrees(names, deps, {}, indeg)
    && radj.Keys == Elements(names)
    && forall d :: d in radj ==> Dependents(names, deps, d, radj[d])
  }

  lemma {:induction false} DependentsStep(
      names: seq<string>, seen: seq<seq<string>>, i: nat, entry: string, d: string, users: seq<string>)
    requires Distinct(names) && Dependents(names, seen, d, users) && i < |names|
    ensures Dependents(names, seen[i := seen[i] + [entry]], d, if d == entry then users + [names[i]] else users)
  {
    var users' := if d == entry then users + [names[i]] else users;
    forall k | 0 <= k < |names|
      ensures multiset(users')[names[k]] == multiset(seen[i := seen[i] + [entry]][k])[d]
    {
      assert k != i ==> names[k] != names[i];
    }
  }

  lemma {:induction false} InDegreesStep(
      names: seq<string>, seen: seq<seq<string>>, i: nat, entry: string, indeg: map<string, int>)
    requires Distinct(names) && InDegrees(names, seen, {}, indeg) && i < |names|
    ensures names[i] in indeg
    ensures InDegrees(names, seen[i := seen[i] + [entry]], {},
                      if entry in Elements(names) then indeg[names[i] := indeg[names[i]] + 1] else indeg)
  {
    assert names[i] in Elements(names);
    var seen' := seen[i := seen[i] + [entry]];
    var indeg' := if entry in Elements(names) then indeg[names[i] := indeg[names[i]] + 1] else indeg;
    forall k | 0 <= k < |names| ensures indeg'[names[k]] == Pending(seen'[k], Elements(names), {}) {
      assert names[k] in Elements(names);
      if k == i {
        assert seen'[i][..|seen'[i]| - 1] == seen[i];
      } else {
        assert names[k] != names[i];
      }
    }
  }

  lemma {:induction false} NeedsNext(ps: seq<ClosurePackage>, i: nat, names: seq<string>, k: nat)
    requires i < |ps| && k < |names| && Distinct(names) && names[k] == ps[i].name
    ensures NeedsOf(ps[..i + 1], names) == NeedsOf(ps[..i], names)[k := Needs(ps[..i], names[k]) + ps[i].depends]
  {
    TakeNext(ps, i);
    FrontOf(ps[..i], ps[i]);
    var next := NeedsOf(ps[..i], names)[k := Needs(ps[..i], names[k]) + ps[i].depends];
    forall j | 0 <= j < |names| ensures NeedsOf(ps[..i + 1], names)[j] == next[j] {
      assert j != k ==> names[j] != names[k];
    }
  }

  function ZeroDegrees(names: seq<string>): map<string, int> {
    map n | n in Elements(names) :: 0
  }

  function NoDependents(names: seq<string>): map<string, seq<string>> {
    map n | n in Elements(names) :: []
  }

  lemma {:induction false} NoEdges(names: seq<string>, members: seq<string>)
    requires Elements(names) == Elements(members)
    ensures Edges(members, NeedsOf([], members), ZeroDegrees(names), NoDependents(names))
  {
    forall k | 0 <= k < |members| ensures members[k] in ZeroDegrees(names) {
      assert members[k] in Elements(members);
    }
  }

  method BuildEdges(ps: seq<ClosurePackage>) returns (indeg: map<string, int>, radj: map<string, seq<string>>)
    ensures Edges(Members(ps), NeedsOf(ps, Members(ps)), indeg, radj)
  {
    ghost var members := Members(ps);
    indeg, radj := ZeroDegrees(Names(ps)), NoDependents(Names(ps));
    NoEdges(Names(ps), members);
    for i := 0 to |ps|
      invariant Edges(members, NeedsOf(ps[..i], members), indeg, radj)
    {
      ghost var k := Position(ps, i);
      NeedsNext(ps, i, members, k);
      indeg, radj := AddPackage(members, NeedsOf(ps[..i], members), k, ps[i], indeg, radj);
    }
    TakeAll(ps);
  }

  lemma {:induction false} Position(ps: seq<ClosurePackage>, i: nat) returns (k: nat)
    requires i < |ps|
    ensures k < |Members(ps)| && Members(ps)[k] == ps[i].name
  {
    assert Names(ps)[i] in Elements(Names(ps));
    k :| 0 <= k < |Members(ps)| && Members(ps)[k] == ps[i].name;
  }

  method AddPackage(
      ghost names: seq<string>, ghost seen: seq<seq<string>>, ghost k: nat, p: ClosurePackage,
      indegIn: map<string, int>, radjIn: map<string, seq<string>>)
    returns (indeg: map<string, int>, radj: map<string, seq<string>>)
    requires Distinct(names) && Edges(names, seen, indegIn, radjIn)
    requires k < |names| && names[k] == p.name
    ensures Edges(names, seen[k := seen[k] + p.depends], indeg, radj)
  {
    indeg, radj := indegIn, radjIn;
    assert seen[k] + p.depends[..0] == seen[k];
    for j := 0 to |p.depends|
      invariant Edges(names, seen[k := seen[k] + p.depends[..j]], indeg, radj)
    {
      TakeNext(p.depends, j);
      Assoc(seen[k], p.depends[..j], [p.depends[j]]);
      UpdateAgain(seen, k, seen[k] + p.depends[..j], seen[k] + p.depends[..j + 1]);
      indeg, radj := AddEntry(names, seen[k := seen[k] + p.depends[..j]], k, p.name, p.depends[j], indeg, radj);
    }
    TakeAll(p.depends);
  }

  lemma {:induction false} UpdateAgain<T>(s: seq<T>, i: nat, a: T, b: T)
    requires i < |s|
    ensures s[i := a][i] == a && s[i := a][i := b] == s[i := b]
  {
  }

  /** One Depends entry: counted and recorded when it names a closure member, ignored otherwise. */
  method AddEntry(
      ghost names: seq<string>, ghost seen: seq<seq<string>>, ghost i: nat, name: string, d: string,
      indegIn: map<string, int>, radjIn: map<string, seq<string>>)
    returns (indeg: map<string, int>, radj: map<string, seq<string>>)
    requires Distinct(names) && i < |names| && names[i] == name && Edges(names, seen, indegIn, radjIn)
    ensures Edges(names, seen[i := seen[i] + [d]], indeg, radj)
  {
    indeg, radj := indegIn, radjIn;
    assert names[i] in Elements(names);
    if d in radj {
      indeg := indeg[name := indeg[name] + 1];
      radj := radj[d := radj[d] + [name]];
    }
    EdgesStep(names, seen, i, d, indegIn, radjIn, indeg, radj);
  }

  lemma {:induction false} EdgesStep(
      names: seq<string>, seen: seq<seq<string>>, i: nat, d: string, indeg: map<string, int>,
                  radj: map<string, seq<string>>, indeg': map<string, int>, radj': map<string, seq<string>>)
    requires Distinct(names) && i < |names| && Edges(names, seen, indeg, radj)
    requires names[i] in indeg
    requires indeg' == if d in Elements(names) then indeg[names[i] := indeg[names[i]] + 1] else indeg
    requires radj'.Keys == radj.Keys
    requires forall e :: e in radj ==> radj'[e] == if d == e then radj[e] + [names[i]] else radj[e]
    ensures Edges(names, seen[i := seen[i] + [d]], indeg', radj')
  {
    InDegreesStep(names, seen, i, d, indeg);
    DependentsSteps(names, seen, i, d, radj);
  }

  lemma {:induction false} DependentsSteps(
      names: seq<string>, seen: seq<seq<string>>, i: nat, d: string, radj: map<string, seq<string>>)
    requires Distinct(names) && |seen| == |names| && i < |names|
    requires forall e :: e in radj ==> Dependents(names, seen, e, radj[e])
    ensures forall e :: e in radj ==>
      Dependents(names, seen[i := seen[i] + [d]], e, if d == e then radj[e] + [names[i]] else radj[e])
  {
    forall e | e in radj
      ensures Dependents(names, seen[i := seen[i] + [d]], e, if d == e then radj[e] + [names[i]] else radj[e])
    {
      DependentsStep(names, seen, i, d, e, radj[e]);
    }
  }

  /** The packages whose in-degree has come down to zero, once each. */
  ghost predicate IsFreed(before: map<string, int>, after: map<string, int>, freed: seq<string>) {
    && Distinct(freed) && after.Keys == before.Keys
    && forall m :: m in freed <==> m in after && before[m] > 0 >= after[m]
  }

  /** Configuring a package lowers the in-degree of its dependents, once for each edge. */
  method ReleaseDependents(users: seq<string>, indegIn: map<string, int>, readyIn: seq<string>)
    returns (indeg: map<string, int>, ready: seq<string>, ghost freed: seq<string>)
    requires forall m :: m in users ==> m in indegIn
    ensures indeg.Keys == indegIn.Keys
    ensures forall m :: m in indeg ==> indeg[m] + multiset(users)[m] == indegIn[m]
    ensures ready == readyIn + freed && IsFreed(indegIn, indeg, freed)
  {
    indeg, ready, freed := indegIn, readyIn, [];
    for j := 0 to |users|
      invariant indeg.Keys == indegIn.Keys
      invariant forall m :: m in indeg ==> indeg[m] + multiset(users[..j])[m] == indegIn[m]
      invariant ready == readyIn + freed && IsFreed(indegIn, indeg, freed)
    {
      var m := users[j];
      assert users[..j + 1] == users[..j] + [m];
      indeg := indeg[m := indeg[m] - 1];
      if indeg[m] == 0 {
        assert m !in freed;
        ready := ready + [m];
        freed := freed + [m];
      }
    }
    assert users[..|users|] == users;
  }

  /** `sorted(n for n in names if indeg[n] == 0)`: as often as the closure names them. */
  method ZeroDegree(names: seq<string>, indeg: map<string, int>) returns (ready: seq<string>)
    requires indeg.Keys == Elements(names)
    ensures Sorted(ready)
    ensures forall m :: m in indeg ==> multiset(ready)[m] == if indeg[m] == 0 then multiset(names)[m] else 0
    ensures forall m :: m in ready ==> m in indeg
  {
    var zero: seq<string> := [];
    for i := 0 to |names|
      invariant forall m :: m in indeg ==> multiset(zero)[m] == if indeg[m] == 0 then multiset(names[..i])[m] else 0
      invariant forall m :: m in zero ==> m in indeg
    {
      assert names[..i + 1] == names[..i] + [names[i]];
      assert names[i] in names;
      if indeg[names[i]] == 0 {
        zero := zero + [names[i]];
      }
    }
    assert names[..|names|] == names;
    SortKeepsMembers(zero);
    ready := Sort(zero);
  }

  /** A package without dependencies in the closure. */
  ghost predicate IsSource(ps: seq<ClosurePackage>, n: string) {
    n in Names(ps) && GraphOf(ps)[n] == {}
  }

  ghost predicate SourcesAreDistinct(ps: seq<ClosurePackage>) {
    forall n :: IsSource(ps, n) ==> multiset(Names(ps))[n] == 1
  }

  lemma {:induction false} DistinctNamesSuffice(ps: seq<ClosurePackage>)
    requires Distinct(Names(ps))
    ensures SourcesAreDistinct(ps)
  {
    DistinctCounts(Names(ps));
    forall n | IsSource(ps, n) ensures multiset(Names(ps))[n] == 1 {
      assert n in multiset(Names(ps));
    }
  }

  /** A closure whose order comes out wrong: a package without dependencies that is given twice. */
  lemma {:induction false} RepeatedLeaf(p: ClosurePackage, rest: seq<ClosurePackage>)
    requires p.depends == [] && p.name !in Names(rest)
    ensures !SourcesAreDistinct([p, p] + rest)
  {
    var ps := [p, p] + rest;
    CountedTwice(Names(ps), p.name);
    forall i | 2 <= i < |ps| ensures ps[i].name != p.name {
      assert Names(rest)[i - 2] in Names(rest);
    }
    LeafIsSource(ps, p.name);
  }

  lemma {:induction false} LeafIsSource(ps: seq<ClosurePackage>, n: string)
    requires n in Names(ps) && forall i :: 0 <= i < |ps| && ps[i].name == n ==> ps[i].depends == []
    ensures IsSource(ps, n)
  {
    assert forall d :: !DependsOn(ps, n, d);
  }

  lemma {:induction false} CountedTwice(s: seq<string>, x: string)
    requires |s| >= 2 && s[0] == s[1] == x
    ensures multiset(s)[x] >= 2 && x in s
  {
    assert s == [x] + ([x] + s[2..]);
  }

  // --- runs, whatever names are repeated -----------------------------------------------------

  /** How often the Depends entries of `m` name `d`. */
  ghost function Uses(ps: seq<ClosurePackage>, m: string, d: string): nat {
    multiset(Needs(ps, m))[d]
  }

  /** How many Depends entries of `m` name a member of the closure. */
  ghost function Due(ps: seq<ClosurePackage>, m: string): nat {
    Pending(Needs(ps, m), Elements(Names(ps)), {})
  }

  /** By how much the configured packages have lowered the in-degree of `m`: a package that was configured
      twice counts twice. */
  ghost function Fed(ps: seq<ClosurePackage>, m: string, done: seq<string>): nat {
    if done == [] then 0 else Fed(ps, m, done[..|done| - 1]) + Uses(ps, m, done[|done| - 1])
  }

  ghost function Times(ps: seq<ClosurePackage>, m: string): nat {
    multiset(Names(ps))[m]
  }

  /** How often `m` stands on the ready list once `done` are configured: a package without due entries as
      often as it was named and not yet configured, any other once it has been fed. */
  ghost function Slots(ps: seq<ClosurePackage>, done: seq<string>, m: string): int {
    if Due(ps, m) == 0 then Times(ps, m) - multiset(done)[m]
    else if m !in done && Fed(ps, m, done) >= Due(ps, m) then 1 else 0
  }

  ghost function Open(ps: seq<ClosurePackage>, done: seq<string>): set<string> {
    set m | m in Elements(Names(ps)) && Slots(ps, done, m) > 0
  }

  /** Each package stood on the ready list when it was configured. */
  ghost predicate IsFedOrder(ps: seq<ClosurePackage>, o: seq<string>) {
    o == [] || (IsFedOrder(ps, o[..|o| - 1]) && o[|o| - 1] in Open(ps, o[..|o| - 1]))
  }

  /** What the scheduler does: each package was the least on the ready list when it was configured. */
  ghost predicate IsRunPrefix(ps: seq<ClosurePackage>, o: seq<string>) {
    o == [] || (IsRunPrefix(ps, o[..|o| - 1]) && IsLeast(o[|o| - 1], Open(ps, o[..|o| - 1])))
  }

  /** The scheduler stops when the ready list is empty. */
  ghost predicate IsRun(ps: seq<ClosurePackage>, o: seq<string>) {
    IsRunPrefix(ps, o) && Open(ps, o) == {}
  }

  lemma {:induction false} RunStep(ps: seq<ClosurePackage>, o: seq<string>, n: string)
    requires IsRunPrefix(ps, o) && IsLeast(n, Open(ps, o))
    ensures IsRunPrefix(ps, o + [n])
  {
    FrontOf(o, n);
  }

  lemma {:induction false} RunIsFed(ps: seq<ClosurePackage>, o: seq<string>)
    requires IsRunPrefix(ps, o)
    ensures IsFedOrder(ps, o)
  {
    if o != [] { RunIsFed(ps, o[..|o| - 1]); }
  }

  lemma {:induction false} FrontAndLast<T>(s: seq<T>)
    requires s != []
    ensures s == s[..|s| - 1] + [s[|s| - 1]]
  {
  }

  lemma {:induction false} FedNext(ps: seq<ClosurePackage>, m: string, done: seq<string>, n: string)
    ensures Fed(ps, m, done + [n]) == Fed(ps, m, done) + Uses(ps, m, n)
  {
    FrontOf(done, n);
  }

  /** An order holds a package without due entries at most as often as the closure names it, and any other
      at most once, and only when it has been fed. */
  ghost predicate IsWithinSlots(ps: seq<ClosurePackage>, o: seq<string>, m: string) {
    && (Due(ps, m) == 0 ==> multiset(o)[m] <= Times(ps, m))
    && (Due(ps, m) > 0 ==> multiset(o)[m] <= 1 && (m in o ==> Fed(ps, m, o) >= Due(ps, m)))
    && (m in o ==> m in Names(ps))
  }

  lemma {:induction false} CountNext(o: seq<string>, n: string, m: string)
    ensures multiset(o + [n])[m] == multiset(o)[m] + (if m == n then 1 else 0)
    ensures m in o <==> multiset(o)[m] > 0
    ensures m in o + [n] <==> m in o || m == n
  {
  }

  lemma {:induction false} SlotsLeft(ps: seq<ClosurePackage>, o: seq<string>, n: string, m: string)
    requires IsWithinSlots(ps, o, m) && n in Open(ps, o)
    ensures IsWithinSlots(ps, o + [n], m)
  {
    CountNext(o, n, m);
    FedNext(ps, m, o, n);
  }

  lemma {:induction false} FedCounts(ps: seq<ClosurePackage>, o: seq<string>, m: string)
    requires IsFedOrder(ps, o)
    ensures IsWithinSlots(ps, o, m)
  {
    if o != [] {
      FedCounts(ps, o[..|o| - 1], m);
      SlotsLeft(ps, o[..|o| - 1], o[|o| - 1], m);
      FrontAndLast(o);
    }
  }

  // --- a run against other orders ------------------------------------------------------------

  lemma {:induction false} FedWithout(ps: seq<ClosurePackage>, m: string, done: seq<string>, i: nat)
    requires i < |done|
    ensures var rest := done[..i] + done[i + 1..];
      Fed(ps, m, done) == Fed(ps, m, rest) + Uses(ps, m, done[i])
    decreases |done|
  {
    var last := |done| - 1;
    var rest := done[..i] + done[i + 1..];
    if i == last {
      assert rest == done[..last];
    } else {
      FedWithout(ps, m, done[..last], i);
      assert rest[..|rest| - 1] == done[..last][..i] + done[..last][i + 1..] && rest[|rest| - 1] == done[last];
    }
  }

  lemma {:induction false} FoundInMore(front: seq<string>, n: string, b: seq<string>) returns (i: nat)
    requires multiset(front + [n]) <= multiset(b)
    ensures i < |b| && b[i] == n && multiset(front) <= multiset(b[..i] + b[i + 1..])
  {
    assert n in multiset(b);
    i :| 0 <= i < |b| && b[i] == n;
    var rest := b[..i] + b[i + 1..];
    assert b == b[..i] + [b[i]] + b[i + 1..];
    assert multiset(b) == multiset(rest) + multiset{n};
    forall x ensures multiset(front)[x] <= multiset(rest)[x] {
      assert multiset(front + [n])[x] <= multiset(b)[x];
    }
  }

  lemma {:induction false} MoreFeeds(ps: seq<ClosurePackage>, m: string, a: seq<string>, b: seq<string>)
    requires multiset(a) <= multiset(b)
    ensures Fed(ps, m, a) <= Fed(ps, m, b)
  {
    if a != [] {
      var front, last := a[..|a| - 1], a[|a| - 1];
      assert a == front + [last];
      var i := FoundInMore(front, last, b);
      MoreFeeds(ps, m, front, b[..i] + b[i + 1..]);
      FedWithout(ps, m, b, i);
    }
  }

  lemma {:induction false} OneMore(a: seq<string>, n: string, b: seq<string>)
    requires multiset(a) <= multiset(b) && multiset(a)[n] < multiset(b)[n]
    ensures multiset(a + [n]) <= multiset(b)
  {
  }

  lemma {:induction false} RunHasMore(ps: seq<ClosurePackage>, o: seq<string>, front: seq<string>, n: string)
    requires IsRun(ps, o) && IsFedOrder(ps, front) && multiset(front) <= multiset(o) && n in Open(ps, front)
    ensures multiset(front)[n] < multiset(o)[n]
  {
    MoreFeeds(ps, n, front, o);
    assert n !in Open(ps, o);
    CountNext(o, n, n);
    CountNext(front, n, n);
  }

  /** No fed order configures anything more, or more often, than a run: what a run leaves out cannot be
      configured. */
  lemma {:induction false} RunIsLargest(ps: seq<ClosurePackage>, o: seq<string>, other: seq<string>)
    requires IsRun(ps, o) && IsFedOrder(ps, other)
    ensures multiset(other) <= multiset(o)
  {
    if other != [] {
      var front, n := other[..|other| - 1], other[|other| - 1];
      RunIsLargest(ps, o, front);
      RunHasMore(ps, o, front, n);
      OneMore(front, n, o);
      FrontAndLast(other);
    }
  }

  lemma {:induction false} RunAt(ps: seq<ClosurePackage>, o: seq<string>, k: nat)
    requires IsRunPrefix(ps, o) && k < |o|
    ensures IsLeast(o[k], Open(ps, o[..k]))
  {
    if k < |o| - 1 {
      RunAt(ps, o[..|o| - 1], k);
      assert o[..|o| - 1][..k] == o[..k];
    }
  }

  lemma {:induction false} SameNext(ps: seq<ClosurePackage>, a: seq<string>, b: seq<string>, k: nat)
    requires IsRunPrefix(ps, a) && IsRunPrefix(ps, b) && k < |a| && k < |b| && a[..k] == b[..k]
    ensures a[..k + 1] == b[..k + 1]
  {
    RunAt(ps, a, k);
    RunAt(ps, b, k);
    LeastIsUnique(a[k], b[k], Open(ps, a[..k]));
    TakeNext(a, k);
    TakeNext(b, k);
  }

  lemma {:induction false} RunIsUniqueFrom(ps: seq<ClosurePackage>, a: seq<string>, b: seq<string>, k: nat)
    requires IsRunPrefix(ps, a) && IsRunPrefix(ps, b) && |a| == |b|
    requires k <= |a| && a[..k] == b[..k]
    ensures a == b
    decreases |a| - k
  {
    if k == |a| {
      TakeAll(a);
      TakeAll(b);
    } else {
      SameNext(ps, a, b, k);
      RunIsUniqueFrom(ps, a, b, k + 1);
    }
  }

  /** A closure has one run. */
  lemma {:induction false} RunIsUnique(ps: seq<ClosurePackage>, a: seq<string>, b: seq<string>)
    requires IsRun(ps, a) && IsRun(ps, b)
    ensures a == b
  {
    RunIsFed(ps, a);
    RunIsFed(ps, b);
    RunIsLargest(ps, a, b);
    RunIsLargest(ps, b, a);
    assert |multiset(a)| == |a| && |multiset(b)| == |b| && multiset(a) == multiset(b);
    RunIsUniqueFrom(ps, a, b, 0);
  }

  lemma {:induction false} AsManyIsAll<T>(a: seq<T>, b: seq<T>)
    requires multiset(a) <= multiset(b)
    ensures |a| <= |b| && (|a| == |b| <==> multiset(a) == multiset(b))
  {
    assert multiset(b) == multiset(a) + (multiset(b) - multiset(a));
    assert |multiset(b)| == |multiset(a)| + |multiset(b) - multiset(a)|;
  }

  /** The length test of the source: a run is as long as the name list exactly when it is a permutation of
      it, that is, when every package is configured and only packages without due entries are repeated. */
  lemma {:induction false} ShortIffIncomplete(ps: seq<ClosurePackage>, o: seq<string>)
    requires IsRun(ps, o)
    ensures |o| == |Names(ps)| <==> multiset(o) == multiset(Names(ps))
    ensures |o| == |Names(ps)| <==>
      (forall n :: n in Names(ps) ==> n in o && (Times(ps, n) == 1 || Due(ps, n) == 0))
  {
    var names := Names(ps);
    RunIsFed(ps, o);
    forall m ensures multiset(o)[m] <= multiset(names)[m] {
      FedCounts(ps, o, m);
      assert m in o <==> multiset(o)[m] > 0;
      assert m in names <==> multiset(names)[m] > 0;
    }
    AsManyIsAll(o, names);
    forall n | n in names
      ensures multiset(o)[n] == multiset(names)[n] <==> n in o && (Times(ps, n) == 1 || Due(ps, n) == 0)
    {
      FedCounts(ps, o, n);
      assert n in o <==> multiset(o)[n] > 0;
      assert n !in Open(ps, o) && multiset(names)[n] > 0;
    }
    SameCounts(o, names);
  }

  lemma {:induction false} SameCounts(a: seq<string>, b: seq<string>)
    requires multiset(a) <= multiset(b)
    ensures multiset(a) == multiset(b) <==> forall n :: n in b ==> multiset(a)[n] == multiset(b)[n]
  {
    if forall n :: n in b ==> multiset(a)[n] == multiset(b)[n] {
      forall n ensures multiset(a)[n] == multiset(b)[n] {
        assert n in b <==> multiset(b)[n] > 0;
      }
    }
  }

  // --- runs and greedy orders ------------------------------------------------------------------

  /** What a list of distinct packages has fed and what is pending add up. */
  lemma {:induction false} FedAndPending(ps: seq<ClosurePackage>, m: string, done: seq<string>)
    requires Distinct(done) && forall d :: d in done ==> d in Names(ps)
    ensures Fed(ps, m, done) + Pending(Needs(ps, m), Elements(Names(ps)), Elements(done)) == Due(ps, m)
  {
    if done == [] {
      assert Elements(done) == {};
    } else {
      var front, last := done[..|done| - 1], done[|done| - 1];
      FedAndPending(ps, m, front);
      assert done == front + [last];
      ElementsAppend(front, last);
      assert last in Elements(Names(ps)) && last !in Elements(front);
      PendingStep(Needs(ps, m), Elements(Names(ps)), Elements(front), last);
    }
  }

  lemma {:induction false} MetMeansFed(ps: seq<ClosurePackage>, m: string, done: seq<string>)
    requires Distinct(done) && (forall d :: d in done ==> d in Names(ps)) && m in Names(ps)
    ensures Fed(ps, m, done) >= Due(ps, m) <==> forall d :: d in GraphOf(ps)[m] ==> d in done
  {
    FedAndPending(ps, m, done);
    PendingZero(Needs(ps, m), Elements(Names(ps)), Elements(done));
    assert m in Elements(Names(ps));
    forall d ensures d in Needs(ps, m) <==> DependsOn(ps, m, d) {
      NeedsAreDependencies(ps, m, d);
    }
  }

  lemma {:induction false} SourceIffNothingDue(ps: seq<ClosurePackage>, m: string)
    requires m in Names(ps)
    ensures IsSource(ps, m) <==> Due(ps, m) == 0
  {
    MetMeansFed(ps, m, []);
  }

  /** While nothing is repeated, the ready list holds what is ready in the graph. */
  lemma {:induction false} OpenIsReady(ps: seq<ClosurePackage>, done: seq<string>)
    requires SourcesAreDistinct(ps) && Distinct(done) && forall d :: d in done ==> d in Names(ps)
    ensures Open(ps, done) == Ready(GraphOf(ps), done)
  {
    forall m ensures m in Open(ps, done) <==> m in Ready(GraphOf(ps), done) {
      assert m in Elements(Names(ps)) <==> m in GraphOf(ps);
      if m in Names(ps) {
        MetMeansFed(ps, m, done);
        SourceIffNothingDue(ps, m);
        DistinctCounts(done);
        assert m in done <==> multiset(done)[m] > 0;
      }
    }
  }

  lemma {:induction false} RunIsDistinct(ps: seq<ClosurePackage>, o: seq<string>)
    requires SourcesAreDistinct(ps) && IsRunPrefix(ps, o)
    ensures Distinct(o) && forall d :: d in o ==> d in Names(ps)
  {
    RunIsFed(ps, o);
    forall m ensures multiset(o)[m] <= 1 && (m in o ==> m in Names(ps)) {
      FedCounts(ps, o, m);
      assert m in o <==> multiset(o)[m] > 0;
      if m in Names(ps) { SourceIffNothingDue(ps, m); }
    }
    CountsDistinct(o);
  }

  lemma {:induction false} RunPrefixIsGreedy(ps: seq<ClosurePackage>, o: seq<string>)
    requires SourcesAreDistinct(ps) && IsRunPrefix(ps, o)
    ensures IsGreedyPrefix(GraphOf(ps), o)
  {
    if o != [] {
      var front := o[..|o| - 1];
      RunPrefixIsGreedy(ps, front);
      RunIsDistinct(ps, front);
      OpenIsReady(ps, front);
      GreedyStep(GraphOf(ps), front, o[|o| - 1]);
      FrontAndLast(o);
    }
  }

  lemma {:induction false} GreedyStep(g: Graph, o: seq<string>, n: string)
    requires IsGreedyPrefix(g, o) && IsLeast(n, Ready(g, o))
    ensures IsGreedyPrefix(g, o + [n])
  {
    forall k | 0 <= k < |o| + 1 ensures IsLeast((o + [n])[k], Ready(g, (o + [n])[..k])) {
      assert (o + [n])[..k] == o[..k];
      assert k == |o| ==> o[..k] == o;
    }
  }

  /** The run of a closure is its greedy configure order exactly when no package without dependencies in the
      closure is named twice; otherwise it repeats that package. */
  lemma {:induction false} RunIsGreedyIff(ps: seq<ClosurePackage>, o: seq<string>)
    requires IsRun(ps, o)
    ensures IsGreedyOrder(GraphOf(ps), o) <==> SourcesAreDistinct(ps)
    ensures Distinct(o) <==> SourcesAreDistinct(ps)
  {
    if SourcesAreDistinct(ps) {
      RunIsDistinct(ps, o);
      RunPrefixIsGreedy(ps, o);
      OpenIsReady(ps, o);
    } else {
      var n :| IsSource(ps, n) && multiset(Names(ps))[n] != 1;
      assert n in multiset(Names(ps));
      SourceIffNothingDue(ps, n);
      assert n !in Open(ps, o) && n in Elements(Names(ps));
      RepeatedIsNotDistinct(o, n);
      if IsGreedyOrder(GraphOf(ps), o) { GreedyIsConfigureOrder(GraphOf(ps), o); }
    }
  }

  lemma {:induction false} RepeatedIsNotDistinct(o: seq<string>, n: string)
    requires multiset(o)[n] >= 2
    ensures !Distinct(o)
  {
    if Distinct(o) { DistinctCounts(o); }
  }

  // --- a cycle that is not reported --------------------------------------------------------------

  /** A package that needs itself and a leaf, with the leaf given twice. */
  function LeafTwice(leaf: string, m: string): seq<ClosurePackage> {
    [ClosurePackage(leaf, []), ClosurePackage(leaf, []), ClosurePackage(m, [m, leaf])]
  }

  lemma {:induction false} NeedsOfThree(a: ClosurePackage, b: ClosurePackage, c: ClosurePackage, n: string)
    ensures Needs([a, b, c], n) ==
      (if a.name == n then a.depends else []) + (if b.name == n then b.depends else []) +
      (if c.name == n then c.depends else [])
  {
    assert [a, b, c][..2] == [a, b] && [a, b][..1] == [a] && [a][..0] == [];
    assert Needs([a], n) == if a.name == n then a.depends else [];
    assert Needs([a, b], n) == Needs([a], n) + if b.name == n then b.depends else [];
  }

  lemma {:induction false} PendingOfTwo(d: string, e: string, names: set<string>)
    requires d in names && e in names
    ensures Pending([d, e], names, {}) == 2
  {
    assert [d, e][..1] == [d] && [d][..0] == [];
    assert Pending([d], names, {}) == 1;
  }

  lemma {:induction false} LeafTwiceFacts(leaf: string, m: string)
    requires leaf != m
    ensures
      var ps := LeafTwice(leaf, m);
      && Names(ps) == [leaf, leaf, m] && Due(ps, leaf) == 0 && Due(ps, m) == 2 && Uses(ps, m, leaf) == 1
  {
    var ps := LeafTwice(leaf, m);
    NeedsOfThree(ps[0], ps[1], ps[2], leaf);
    NeedsOfThree(ps[0], ps[1], ps[2], m);
    assert Names(ps) == [leaf, leaf, m];
    assert Needs(ps, leaf) == [] && Needs(ps, m) == [m, leaf];
    PendingOfTwo(m, leaf, Elements(Names(ps)));
  }

  lemma {:induction false} FedTwice(ps: seq<ClosurePackage>, m: string, leaf: string)
    ensures Fed(ps, m, [leaf, leaf]) == 2 * Uses(ps, m, leaf)
  {
    FedNext(ps, m, [], leaf);
    FedNext(ps, m, [leaf], leaf);
    assert [] + [leaf] == [leaf] && [leaf] + [leaf] == [leaf, leaf];
  }

  lemma {:induction false} SelfCycle(ps: seq<ClosurePackage>, m: string)
    requires m in Names(ps) && DependsOn(ps, m, m)
    ensures HasCycle(GraphOf(ps))
  {
    assert m in Elements(Names(ps));
    assert IsCycle(GraphOf(ps), [m, m]);
  }

  /** The leaf lowers the in-degree twice, so that the package is configured and no cycle is reported. */
  lemma {:induction false} RepeatedLeafHidesCycle(leaf: string, m: string, o: seq<string>)
    requires leaf != m && IsRun(LeafTwice(leaf, m), o)
    ensures HasCycle(GraphOf(LeafTwice(leaf, m))) && |o| == |Names(LeafTwice(leaf, m))|
  {
    var ps := LeafTwice(leaf, m);
    LeafTwiceFacts(leaf, m);
    assert ps[2].name == m && m in ps[2].depends;
    SelfCycle(ps, m);
    LeavesFeed(ps, leaf, m, o);
    ShortIffIncomplete(ps, o);
  }

  lemma {:induction false} LeavesFeed(ps: seq<ClosurePackage>, leaf: string, m: string, o: seq<string>)
    requires leaf != m && IsRun(ps, o) && Names(ps) == [leaf, leaf, m]
    requires Due(ps, leaf) == 0 && Due(ps, m) == 2 && Uses(ps, m, leaf) == 1
    ensures forall n :: n in Names(ps) ==> n in o && (Times(ps, n) == 1 || Due(ps, n) == 0)
  {
    var names := Names(ps);
    assert leaf in Elements(names) && m in Elements(names);
    assert leaf !in Open(ps, o) && m !in Open(ps, o);
    assert Times(ps, leaf) == 2 && Times(ps, m) == 1;
    FedByTwo(ps, m, leaf, o);
    assert leaf in multiset(o);
  }

  lemma {:induction false} FedByTwo(ps: seq<ClosurePackage>, m: string, leaf: string, o: seq<string>)
    requires multiset(o)[leaf] >= 2
    ensures Fed(ps, m, o) >= 2 * Uses(ps, m, leaf)
  {
    assert multiset([leaf, leaf]) <= multiset(o);
    MoreFeeds(ps, m, [leaf, leaf], o);
    FedTwice(ps, m, leaf);
  }

  // --- the loop ----------------------------------------------------------------------------------

  /** What holds between two rounds: the in-degrees are what is due less what has been fed, and the ready
      list holds each package as often as it has slots. */
  ghost predicate Scheduled(ps: seq<ClosurePackage>, order: seq<string>, indeg: map<string, int>, ready: seq<string>) {
    && IsRunPrefix(ps, order)
    && indeg.Keys == Elements(Names(ps))
    && (forall m :: m in indeg ==> indeg[m] == Due(ps, m) - Fed(ps, m, order))
    && (forall m :: m in indeg ==> multiset(ready)[m] == Slots(ps, order, m))
    && (forall m :: m in ready ==> m in indeg)
  }

  lemma {:induction false} ReadyIsOpen(
      ps: seq<ClosurePackage>, order: seq<string>, indeg: map<string, int>, ready: seq<string>)
    requires Scheduled(ps, order, indeg, ready)
    ensures Elements(ready) == Open(ps, order)
  {
    forall m ensures m in ready <==> m in Open(ps, order) {
      assert m in ready <==> multiset(ready)[m] > 0;
    }
  }

  lemma {:induction false} EdgesAreDue(ps: seq<ClosurePackage>, indeg: map<string, int>, m: string)
    requires InDegrees(Members(ps), NeedsOf(ps, Members(ps)), {}, indeg) && m in Names(ps)
    ensures m in indeg && indeg[m] == Due(ps, m)
  {
    var names := Members(ps);
    assert m in Elements(names);
    var k :| 0 <= k < |names| && names[k] == m;
  }

  lemma {:induction false} SlotsAtStart(ps: seq<ClosurePackage>, m: string)
    ensures Fed(ps, m, []) == 0 && Slots(ps, [], m) == if Due(ps, m) == 0 then Times(ps, m) else 0
  {
  }

  lemma {:induction false} StartIsScheduled(ps: seq<ClosurePackage>, indeg: map<string, int>, ready: seq<string>)
    requires InDegrees(Members(ps), NeedsOf(ps, Members(ps)), {}, indeg)
    requires forall m :: m in indeg ==> multiset(ready)[m] == if indeg[m] == 0 then Times(ps, m) else 0
    requires forall m :: m in ready ==> m in indeg
    ensures Scheduled(ps, [], indeg, ready)
  {
    forall m | m in indeg ensures indeg[m] == Due(ps, m) {
      assert m in Elements(Names(ps));
      EdgesAreDue(ps, indeg, m);
    }
    forall m | m in indeg
      ensures indeg[m] == Due(ps, m) - Fed(ps, m, []) && multiset(ready)[m] == Slots(ps, [], m)
    {
      SlotsAtStart(ps, m);
    }
  }

  /** One round of the loop behind `ready.pop(0)`. */
  method Configure(users: seq<string>, indegIn: map<string, int>, readyIn: seq<string>)
    returns (indeg: map<string, int>, ready: seq<string>, ghost freed: seq<string>)
    requires forall m :: m in users ==> m in indegIn
    ensures forall m :: m in indegIn ==> m in indeg && indeg[m] + multiset(users)[m] == indegIn[m]
    ensures IsFreed(indegIn, indeg, freed)
    ensures Sorted(ready) && ready == Sort(readyIn + freed)
  {
    indeg, ready, freed := ReleaseDependents(users, indegIn, readyIn);
    ready := Sort(ready);
  }

  /** `users` lists the dependents of `d`, once for each Depends entry that names it. */
  ghost predicate AreUsers(ps: seq<ClosurePackage>, d: string, users: seq<string>) {
    && (forall m :: m in users ==> m in Names(ps))
    && forall m :: m in Names(ps) ==> multiset(users)[m] == Uses(ps, m, d)
  }

  lemma {:induction false} DependentsAreUsers(ps: seq<ClosurePackage>, d: string, users: seq<string>)
    requires Dependents(Members(ps), NeedsOf(ps, Members(ps)), d, users)
    ensures AreUsers(ps, d, Sort(users))
  {
    var names := Members(ps);
    SortKeepsMembers(users);
    forall m | m in users ensures m in Names(ps) { assert m in Elements(names); }
    forall m | m in Names(ps) ensures multiset(users)[m] == Uses(ps, m, d) {
      assert m in Elements(names);
      var k :| 0 <= k < |names| && names[k] == m;
    }
  }

  /** What a round does to the slots of one package. */
  lemma {:induction false} SlotsNext(ps: seq<ClosurePackage>, order: seq<string>, n: string, m: string, before: int)
    requires IsFedOrder(ps, order) && n in Open(ps, order) && before == Due(ps, m) - Fed(ps, m, order)
    ensures Slots(ps, order + [n], m) ==
      Slots(ps, order, m) - (if m == n then 1 else 0) + (if before > 0 >= before - Uses(ps, m, n) then 1 else 0)
  {
    FedNext(ps, m, order, n);
    FedCounts(ps, order, m);
  }

  lemma {:induction false} ReadyNext(
      ready: seq<string>, freed: seq<string>, before: map<string, int>, after: map<string, int>, m: string)
    requires ready != [] && IsFreed(before, after, freed) && m in after
    ensures multiset(Sort(ready[1..] + freed))[m] ==
      multiset(ready)[m] - (if m == ready[0] then 1 else 0) + (if before[m] > 0 >= after[m] then 1 else 0)
  {
    assert ready == [ready[0]] + ready[1..];
    DistinctCounts(freed);
    assert m in freed <==> multiset(freed)[m] > 0;
  }

  /** A round keeps the schedule. */
  lemma {:induction false} RoundIsScheduled(
      ps: seq<ClosurePackage>, order: seq<string>, users: seq<string>, indeg: map<string, int>, ready: seq<string>,
      indeg': map<string, int>, freed: seq<string>)
    requires Scheduled(ps, order, indeg, ready) && ready != [] && Sorted(ready)
    requires AreUsers(ps, ready[0], users)
    requires forall m :: m in indeg ==> m in indeg' && indeg'[m] + multiset(users)[m] == indeg[m]
    requires IsFreed(indeg, indeg', freed)
    ensures Scheduled(ps, order + [ready[0]], indeg', Sort(ready[1..] + freed))
  {
    var n := ready[0];
    ReadyIsOpen(ps, order, indeg, ready);
    StrLeReflexive(n);
    assert IsLeast(n, Elements(ready));
    RunStep(ps, order, n);
    RunIsFed(ps, order);
    forall m | m in indeg'
      ensures indeg'[m] == Due(ps, m) - Fed(ps, m, order + [n])
      ensures multiset(Sort(ready[1..] + freed))[m] == Slots(ps, order + [n], m)
    {
      assert m in Elements(Names(ps));
      FedNext(ps, m, order, n);
      SlotsNext(ps, order, n, m, indeg[m]);
      ReadyNext(ready, freed, indeg, indeg', m);
    }
    SortKeepsMembers(ready[1..] + freed);
  }

  /** What remains to be done: packages listed as ready, and packages that wait. */
  ghost function Work(indeg: map<string, int>, ready: seq<string>): nat {
    |ready| + |Waiting(indeg)|
  }

  ghost function Waiting(indeg: map<string, int>): set<string> {
    set m | m in indeg && indeg[m] > 0
  }

  lemma {:induction false} RoundIsWork(
      indeg: map<string, int>, ready: seq<string>, indeg': map<string, int>, freed: seq<string>)
    requires ready != [] && forall m :: m in indeg ==> m in indeg' && indeg'[m] <= indeg[m]
    requires IsFreed(indeg, indeg', freed)
    ensures Work(indeg', Sort(ready[1..] + freed)) < Work(indeg, ready)
  {
    SortKeepsMembers(ready[1..] + freed);
    DistinctSize(freed);
    assert Waiting(indeg) == Waiting(indeg') + Elements(freed);
  }

  /** The order is the closure's run, whatever names are repeated. */
  method ConfigureOrder(packages: seq<ClosurePackage>) returns (order: seq<string>)
    ensures IsRun(packages, order)
    ensures IsGreedyOrder(GraphOf(packages), order) <==> SourcesAreDistinct(packages)
  {
    var indeg, radj := BuildEdges(packages);
    ghost var names, deps := Members(packages), NeedsOf(packages, Members(packages));
    var ready := ZeroDegree(Names(packages), indeg);
    order := [];
    StartIsScheduled(packages, indeg, ready);
    while ready != []
      invariant Sorted(ready) && Scheduled(packages, order, indeg, ready) && radj.Keys == Elements(Names(packages))
      invariant forall d :: d in radj ==> Dependents(names, deps, d, radj[d])
      decreases Work(indeg, ready)
    {
      var n := ready[0];
      assert n in Elements(Names(packages));
      DependentsAreUsers(packages, n, radj[n]);
      ghost var before, list := indeg, ready;
      ghost var freed;
      indeg, ready, freed := Configure(Sort(radj[n]), indeg, ready[1..]);
      RoundIsWork(before, list, indeg, freed);
      RoundIsScheduled(packages, order, Sort(radj[n]), before, list, indeg, freed);
      order := order + [n];
    }
    ReadyIsOpen(packages, order, indeg, ready);
    RunIsGreedyIff(packages, order);
  }

  /** For every closure the order is its run and the flag says whether the run is no permutation of the
      names. Where no package without dependencies is repeated, the order is the greedy one, and the flag
      reports a cycle exactly when there is one or a name is repeated. */
  method CompleteClosureViaDpkg(packages: seq<ClosurePackage>, target: string) returns (r: ClosureCompletion)
    ensures r.target == target
    ensures Sorted(r.unpackOrder) && multiset(r.unpackOrder) == multiset(Names(packages))
    ensures IsRun(packages, r.configureOrder)
    ensures r.cyclic <==> multiset(r.configureOrder) != multiset(Names(packages))
    ensures r.cyclic <==> !IsComplete(packages, r.configureOrder)
    ensures r.allInstalled <==> !r.cyclic && target in Names(packages)
    ensures IsGreedyOrder(GraphOf(packages), r.configureOrder) <==> SourcesAreDistinct(packages)
    ensures SourcesAreDistinct(packages) ==>
      && (r.cyclic <==> HasCycle(GraphOf(packages)) || !Distinct(Names(packages)))
      && (forall n :: n in Names(packages) ==> (n !in r.configureOrder <==> ReachesCycle(GraphOf(packages), n)))
  {
    var names := Names(packages);
    var unpackOrder := Sort(names);
    var configureOrder := ConfigureOrder(packages);
    var cyclic := |configureOrder| != |names|;
    LengthTest(packages, configureOrder);
    if SourcesAreDistinct(packages) { CycleTest(packages, configureOrder); }
    r := ClosureCompletion(target, unpackOrder, configureOrder, !cyclic && target in configureOrder, cyclic);
  }

  /** Every package is configured, and only packages without dependencies in the closure are repeated. */
  ghost predicate IsComplete(ps: seq<ClosurePackage>, o: seq<string>) {
    forall n :: n in Names(ps) ==> n in o && (Times(ps, n) == 1 || IsSource(ps, n))
  }

  lemma {:induction false} LengthTest(ps: seq<ClosurePackage>, o: seq<string>)
    requires IsRun(ps, o)
    ensures |o| != |Names(ps)| <==> multiset(o) != multiset(Names(ps))
    ensures |o| == |Names(ps)| <==> IsComplete(ps, o)
    ensures |o| == |Names(ps)| ==> forall n :: n in o <==> n in Names(ps)
  {
    ShortIffIncomplete(ps, o);
    RunIsFed(ps, o);
    forall n | n in Names(ps) ensures Times(ps, n) > 0 && (IsSource(ps, n) <==> Due(ps, n) == 0) {
      assert n in multiset(Names(ps));
      SourceIffNothingDue(ps, n);
    }
    forall n | n in o ensures n in Names(ps) { FedCounts(ps, o, n); }
  }

  lemma {:induction false} CycleTest(ps: seq<ClosurePackage>, o: seq<string>)
    requires IsRun(ps, o) && SourcesAreDistinct(ps)
    ensures |o| != |Names(ps)| <==> HasCycle(GraphOf(ps)) || !Distinct(Names(ps))
    ensures forall n :: n in Names(ps) ==> (n !in o <==> ReachesCycle(GraphOf(ps), n))
  {
    var g := GraphOf(ps);
    RunIsGreedyIff(ps, o);
    GreedyIsConfigureOrder(g, o);
    ShortIffCyclic(g, o);
    DistinctSize(Names(ps));
    DistinctSize(o);
    assert g.Keys == Elements(Names(ps));
    SubsetSize(Elements(o), g.Keys);
    forall n | n in Names(ps) ensures n !in o <==> ReachesCycle(g, n) {
      assert n in Elements(Names(ps));
      MissingIffReachesCycle(g, o, n);
    }
  }
}
