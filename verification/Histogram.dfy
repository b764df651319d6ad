/** The syscall histograms of a run report: the scanner of their `nr:count` pairs, and the path and
    non-path trap totals computed from them. */
module Histogram {
  import opened PyText

  // --- decimal numbers ---------------------------------------------------------------------

  /** What a character is worth as a decimal digit, and a negative number for any other: the ten digits of
      ASCII, and whatever other scripts have; neither the colon nor the blank. */
  ghost predicate IsDecimal(d: char -> int) {
    && (forall c :: '0' <= c <= '9' ==> d(c) == c as int - '0' as int)
    && d(':') < 0 && d(' ') < 0
  }

  function AsciiValue(c: char): int {
    if '0' <= c <= '9' then c as int - '0' as int else -1
  }

  type Digits = d: char -> int | IsDecimal(d) ghost witness AsciiValue

  predicate HasValue(d: Digits, c: char) {
    d(c) >= 0
  }

  predicate AreDigits(d: Digits, s: string) {
    forall i :: 0 <= i < |s| ==> HasValue(d, s[i])
  }

  /** How many digits `s` starts with: what `\d+` takes greedily. */
  function DigitRun(d: Digits, s: string): (n: nat)
    ensures n <= |s| && AreDigits(d, s[..n])
    ensures n < |s| ==> !HasValue(d, s[n])
  {
    if s == "" || !HasValue(d, s[0]) then 0 else 1 + DigitRun(d, s[1..])
  }

  /** Python's `int(s)`. */
  function Value(d: Digits, s: string): nat
    requires AreDigits(d, s)
  {
    if s == "" then 0
    else
      assert HasValue(d, s[|s| - 1]);
      10 * Value(d, s[..|s| - 1]) + d(s[|s| - 1])
  }

  function Decimal(n: nat): (s: string)
    ensures s != "" && AllDigits(s)
  {
    var last := ['0' + (n % 10) as char];
    if n < 10 then last else Decimal(n / 10) + last
  }

  lemma {:induction false} DecimalIsRead(d: Digits, n: nat)
    ensures AreDigits(d, Decimal(n)) && Value(d, Decimal(n)) == n
  {
    var last := '0' + (n % 10) as char;
    assert d(last) == n % 10;
    if n < 10 {
      assert Decimal(n) == [last] && [last][..0] == "";
    } else {
      DecimalIsRead(d, n / 10);
      assert Decimal(n)[..|Decimal(n)| - 1] == Decimal(n / 10);
    }
  }

  // --- the scanner -------------------------------------------------------------------------

  datatype Match = Match(nr: nat, count: nat, size: nat) | NoMatch

  /** A match of `(\d+):(\d+)` at the start of `s`. */
  function MatchHere(d: Digits, s: string): (m: Match)
    ensures m.Match? ==> 0 < m.size <= |s|
  {
    var n := DigitRun(d, s);
    if n == 0 || n == |s| || s[n] != ':' then NoMatch
    else
      var k := DigitRun(d, s[n + 1..]);
      if k == 0 then NoMatch else Match(Value(d, s[..n]), Value(d, s[n + 1..][..k]), n + 1 + k)
  }

  datatype Pair = Pair(nr: nat, count: nat)

  /** The matches `finditer` yields: leftmost first, each search starting behind the last match. */
  function FindAll(d: Digits, s: string): seq<Pair>
    decreases |s|
  {
    if s == "" then []
    else
      match MatchHere(d, s)
      case NoMatch => FindAll(d, s[1..])
      case Match(nr, count, size) => [Pair(nr, count)] + FindAll(d, s[size..])
  }

  lemma {:induction false} BlankIsSkipped(d: Digits, b: string)
    ensures FindAll(d, " " + b) == FindAll(d, b)
  {
    var s := " " + b;
    assert s[0] == ' ' && DigitRun(d, s) == 0;
    assert s[1..] == b;
  }

  /** A blank is never part of a match, so it cuts the scan in two. */
  lemma {:induction false} FindAllConcat(d: Digits, a: string, b: string)
    ensures FindAll(d, a + " " + b) == FindAll(d, a) + FindAll(d, b)
    decreases |a|
  {
    var s := a + " " + b;
    if a == "" {
      BlankIsSkipped(d, b);
      assert s == " " + b && FindAll(d, a) == [];
    } else {
      MatchBeforeBlank(d, a, b);
      match MatchHere(d, a) {
        case NoMatch =>
          assert s[1..] == a[1..] + " " + b;
          FindAllConcat(d, a[1..], b);
        case Match(nr, count, size) =>
          assert s[size..] == a[size..] + " " + b;
          FindAllConcat(d, a[size..], b);
          Assoc([Pair(nr, count)], FindAll(d, a[size..]), FindAll(d, b));
      }
    }
  }

  lemma {:induction false} DigitRunBefore(d: Digits, a: string, rest: string)
    requires rest == "" || !HasValue(d, rest[0])
    ensures DigitRun(d, a + rest) == DigitRun(d, a)
  {
    if a != "" && HasValue(d, a[0]) {
      assert (a + rest)[1..] == a[1..] + rest;
      DigitRunBefore(d, a[1..], rest);
    } else if a == "" {
      assert a + rest == rest;
    }
  }

  lemma {:induction false} MatchBeforeBlank(d: Digits, a: string, b: string)
    ensures MatchHere(d, a + " " + b) == MatchHere(d, a)
  {
    var rest := " " + b;
    var s := a + rest;
    assert s == a + " " + b;
    DigitRunBefore(d, a, rest);
    var n := DigitRun(d, a);
    assert s[..n] == a[..n];
    if 0 < n < |a| && a[n] == ':' {
      assert s[n + 1..] == a[n + 1..] + rest;
      DigitRunBefore(d, a[n + 1..], rest);
      assert s[n + 1..][..DigitRun(d, a[n + 1..])] == a[n + 1..][..DigitRun(d, a[n + 1..])];
    }
  }

  // --- the dict ----------------------------------------------------------------------------

  /** A dict from syscall number to count, in insertion order. */
  type Hist = seq<Pair>

  ghost predicate DistinctKeys(h: Hist) {
    forall i, j :: 0 <= i < j < |h| ==> h[i].nr != h[j].nr
  }

  function Get(h: Hist, nr: nat): nat {
    if h == [] then 0 else if h[0].nr == nr then h[0].count else Get(h[1..], nr)
  }

  predicate HasKey(h: Hist, nr: nat) {
    exists i :: 0 <= i < |h| && h[i].nr == nr
  }

  /** `h[nr] = value`: an existing key keeps its place, a new one goes to the end. */
  function Put(h: Hist, nr: nat, value: nat): (r: Hist)
    ensures forall k :: HasKey(r, k) <==> HasKey(h, k) || k == nr
    ensures DistinctKeys(h) ==> DistinctKeys(r)
  {
    if h == [] then
      assert HasKey([Pair(nr, value)], nr) by { assert [Pair(nr, value)][0].nr == nr; }
      [Pair(nr, value)]
    else if h[0].nr == nr then
      var r := [Pair(nr, value)] + h[1..];
      PutKeys(h, r, nr, h[1..]);
      r
    else
      var r := [h[0]] + Put(h[1..], nr, value);
      PutRest(h, r, nr, Put(h[1..], nr, value));
      r
  }

  lemma {:induction false} PutKeys(h: Hist, r: Hist, nr: nat, rest: Hist)
    requires h != [] && r != [] && h[1..] == r[1..] == rest && h[0].nr == r[0].nr == nr
    ensures forall k :: HasKey(r, k) <==> HasKey(h, k) || k == nr
  {
    assert forall i :: 0 <= i < |h| ==> h[i].nr == r[i].nr by {
      assert forall i :: 0 < i < |h| ==> h[i] == rest[i - 1] && r[i] == rest[i - 1];
    }
    assert HasKey(r, nr) by { assert r[0].nr == nr; }
  }

  lemma {:induction false} PutRest(h: Hist, r: Hist, nr: nat, rest: Hist)
    requires h != [] && r == [h[0]] + rest && h[0].nr != nr
    requires forall k :: HasKey(rest, k) <==> HasKey(h[1..], k) || k == nr
    requires DistinctKeys(h[1..]) ==> DistinctKeys(rest)
    ensures forall k :: HasKey(r, k) <==> HasKey(h, k) || k == nr
    ensures DistinctKeys(h) ==> DistinctKeys(r)
  {
    KeysOfCons(h[0], h[1..]);
    KeysOfCons(h[0], rest);
    assert h == [h[0]] + h[1..];
    if DistinctKeys(h) {
      assert forall i :: 0 <= i < |h[1..]| ==> h[1..][i] == h[i + 1];
      assert !HasKey(h[1..], h[0].nr);
      assert !HasKey(rest, h[0].nr);
      assert forall i :: 0 < i < |r| ==> r[i] == rest[i - 1];
    }
  }

  lemma {:induction false} KeysOfCons(p: Pair, rest: Hist)
    ensures forall k :: HasKey([p] + rest, k) <==> p.nr == k || HasKey(rest, k)
  {
    forall k ensures HasKey([p] + rest, k) <==> p.nr == k || HasKey(rest, k) {
      assert ([p] + rest)[0] == p;
      if HasKey(rest, k) {
        var i :| 0 <= i < |rest| && rest[i].nr == k;
        assert ([p] + rest)[i + 1].nr == k;
      }
    }
  }

  lemma {:induction false} GetPut(h: Hist, nr: nat, value: nat, k: nat)
    ensures Get(Put(h, nr, value), k) == if k == nr then value else Get(h, k)
  {
    if h != [] && h[0].nr != nr {
      GetPut(h[1..], nr, value, k);
      assert ([h[0]] + Put(h[1..], nr, value))[1..] == Put(h[1..], nr, value);
    } else if h != [] {
      assert ([Pair(nr, value)] + h[1..])[1..] == h[1..];
    }
  }

  /** `out[nr] = out.get(nr, 0) + count` for each pair in turn. */
  function Tally(ps: seq<Pair>): (h: Hist)
    ensures DistinctKeys(h)
  {
    if ps == [] then []
    else
      var front, p := Tally(ps[..|ps| - 1]), ps[|ps| - 1];
      Put(front, p.nr, Get(front, p.nr) + p.count)
  }

  method ParseHistPairs(d: Digits, body: string) returns (out: Hist)
    ensures out == Tally(FindAll(d, body))
  {
    out := [];
    var matches := FindAll(d, body);
    for i := 0 to |matches|
      invariant out == Tally(matches[..i])
    {
      assert matches[..i + 1][..i] == matches[..i];
      var nr, count := matches[i].nr, matches[i].count;
      out := Put(out, nr, Get(out, nr) + count);
    }
    assert matches[..|matches|] == matches;
  }

  function Scan(d: Digits, body: string): Hist {
    Tally(FindAll(d, body))
  }

  // --- what scanning recovers --------------------------------------------------------------

  /** The counts that a list of pairs gives to one syscall, summed. */
  ghost function Sum(ps: seq<Pair>, nr: nat): nat {
    if ps == [] then 0
    else Sum(ps[..|ps| - 1], nr) + if ps[|ps| - 1].nr == nr then ps[|ps| - 1].count else 0
  }

  lemma {:induction false} TallySums(ps: seq<Pair>, nr: nat)
    ensures Get(Tally(ps), nr) == Sum(ps, nr)
  {
    if ps != [] {
      var front, p := ps[..|ps| - 1], ps[|ps| - 1];
      TallySums(front, nr);
      GetPut(Tally(front), p.nr, Get(Tally(front), p.nr) + p.count, nr);
    }
  }

  lemma {:induction false} SumConcat(a: seq<Pair>, b: seq<Pair>, nr: nat)
    ensures Sum(a + b, nr) == Sum(a, nr) + Sum(b, nr)
  {
    if b == [] {
      assert a + b == a;
    } else {
      assert (a + b)[..|a + b| - 1] == a + b[..|b| - 1];
      SumConcat(a, b[..|b| - 1], nr);
    }
  }

  /** Scanning two bodies with a blank between them adds the two histograms pointwise. */
  lemma {:induction false} ScanConcat(d: Digits, a: string, b: string, nr: nat)
    ensures Get(Scan(d, a + " " + b), nr) == Get(Scan(d, a), nr) + Get(Scan(d, b), nr)
  {
    FindAllConcat(d, a, b);
    TallySums(FindAll(d, a + " " + b), nr);
    TallySums(FindAll(d, a), nr);
    TallySums(FindAll(d, b), nr);
    SumConcat(FindAll(d, a), FindAll(d, b), nr);
  }

  /** The supervisor's line body: the pairs, blank-separated. */
  function Print(ps: seq<Pair>): string {
    if ps == [] then ""
    else if |ps| == 1 then PrintPair(ps[0])
    else PrintPair(ps[0]) + " " + Print(ps[1..])
  }

  function PrintPair(p: Pair): string {
    Decimal(p.nr) + ":" + Decimal(p.count)
  }

  lemma {:induction false} DigitRunOfDigits(d: Digits, s: string)
    requires AreDigits(d, s)
    ensures DigitRun(d, s) == |s|
  {
    if s != "" { DigitRunOfDigits(d, s[1..]); }
  }

  lemma {:induction false} FindOnePair(d: Digits, p: Pair)
    ensures FindAll(d, PrintPair(p)) == [p]
  {
    var s := PrintPair(p);
    MatchPrinted(d, p);
    assert s[|s|..] == "";
  }

  lemma {:induction false} MatchPrinted(d: Digits, p: Pair)
    ensures MatchHere(d, PrintPair(p)) == Match(p.nr, p.count, |PrintPair(p)|)
  {
    var a, b := Decimal(p.nr), Decimal(p.count);
    DecimalIsRead(d, p.nr);
    DecimalIsRead(d, p.count);
    DigitRunBefore(d, a, ":" + b);
    DigitRunOfDigits(d, a);
    DigitRunOfDigits(d, b);
    AroundColon(a, b);
  }

  lemma {:induction false} AroundColon(a: string, b: string)
    ensures var s := a + ":" + b;
      s == a + (":" + b) && s[..|a|] == a && s[|a|] == ':' && s[|a| + 1..] == b && b[..|b|] == b
  {
  }

  lemma {:induction false} FindPrinted(d: Digits, ps: seq<Pair>)
    ensures FindAll(d, Print(ps)) == ps
  {
    if |ps| == 1 {
      FindOnePair(d, ps[0]);
    } else if |ps| > 1 {
      FindOnePair(d, ps[0]);
      FindAllConcat(d, PrintPair(ps[0]), Print(ps[1..]));
      FindPrinted(d, ps[1..]);
      assert [ps[0]] + ps[1..] == ps;
    }
  }

  lemma {:induction false} PutNew(h: Hist, p: Pair)
    requires !HasKey(h, p.nr)
    ensures Put(h, p.nr, p.count) == h + [p] && Get(h, p.nr) == 0
  {
    if h != [] {
      assert h == [h[0]] + h[1..];
      KeysOfCons(h[0], h[1..]);
      PutNew(h[1..], p);
    }
  }

  lemma {:induction false} LastKeyIsNew(h: Hist)
    requires DistinctKeys(h) && h != []
    ensures DistinctKeys(h[..|h| - 1]) && !HasKey(h[..|h| - 1], h[|h| - 1].nr)
  {
  }

  lemma {:induction false} TallySnoc(front: seq<Pair>, p: Pair)
    ensures Tally(front + [p]) == Put(Tally(front), p.nr, Get(Tally(front), p.nr) + p.count)
  {
    assert (front + [p])[..|front|] == front;
  }

  lemma {:induction false} TallyOfHist(h: Hist)
    requires DistinctKeys(h)
    ensures Tally(h) == h
  {
    if h != [] {
      var front, p := h[..|h| - 1], h[|h| - 1];
      LastKeyIsNew(h);
      TallyOfHist(front);
      PutNew(front, p);
      assert h == front + [p];
      TallySnoc(front, p);
    }
  }

  /** A printed histogram is scanned back, order included. */
  lemma {:induction false} ScanPrinted(d: Digits, h: Hist)
    requires DistinctKeys(h)
    ensures Scan(d, Print(h)) == h
  {
    FindPrinted(d, h);
    TallyOfHist(h);
  }

  // --- trap totals -------------------------------------------------------------------------

  const PATH_NRS: set<nat> := {34, 35, 48, 56, 78, 79, 291, 437, 439}

  /** The summed counts of the entries whose syscall is (or is not) among `nrs`. */
  function CountWhere(h: seq<Pair>, nrs: set<nat>, among: bool): nat {
    if h == [] then 0
    else CountWhere(h[1..], nrs, among) + if (h[0].nr in nrs) == among then h[0].count else 0
  }

  function PathTrap(h: Hist): nat {
    CountWhere(h, PATH_NRS, true)
  }

  function NonPathTrap(h: Hist): nat {
    CountWhere(h, PATH_NRS, false)
  }

  ghost function Total(ps: seq<Pair>): nat {
    if ps == [] then 0 else Total(ps[1..]) + ps[0].count
  }

  lemma {:induction false} CountCons(p: Pair, rest: Hist, nrs: set<nat>, among: bool)
    ensures CountWhere([p] + rest, nrs, among) ==
      CountWhere(rest, nrs, among) + if (p.nr in nrs) == among then p.count else 0
  {
    assert ([p] + rest)[1..] == rest;
  }

  lemma {:induction false} CountAfterPut(h: Hist, nr: nat, count: nat, nrs: set<nat>, among: bool)
    ensures CountWhere(Put(h, nr, Get(h, nr) + count), nrs, among) ==
      CountWhere(h, nrs, among) + if (nr in nrs) == among then count else 0
  {
    if h == [] {
      assert [Pair(nr, count)] == [Pair(nr, count)] + [];
      CountCons(Pair(nr, count), [], nrs, among);
    } else {
      var value := Get(h, nr) + count;
      if h[0].nr == nr {
        CountCons(Pair(nr, value), h[1..], nrs, among);
      } else {
        CountAfterPut(h[1..], nr, count, nrs, among);
        CountCons(h[0], Put(h[1..], nr, value), nrs, among);
      }
    }
  }

  lemma {:induction false} CountSnoc(ps: seq<Pair>, p: Pair, nrs: set<nat>, among: bool)
    ensures CountWhere(ps + [p], nrs, among) ==
      CountWhere(ps, nrs, among) + if (p.nr in nrs) == among then p.count else 0
  {
    if ps != [] {
      assert (ps + [p])[1..] == ps[1..] + [p];
      CountSnoc(ps[1..], p, nrs, among);
    } else {
      assert [p][1..] == [];
    }
  }

  /** Accumulating the pairs in a dict neither loses nor moves a count. */
  lemma {:induction false} TallyConserves(ps: seq<Pair>, nrs: set<nat>, among: bool)
    ensures CountWhere(Tally(ps), nrs, among) == CountWhere(ps, nrs, among)
  {
    if ps != [] {
      var front, p := ps[..|ps| - 1], ps[|ps| - 1];
      TallyConserves(front, nrs, among);
      CountAfterPut(Tally(front), p.nr, p.count, nrs, among);
      CountSnoc(front, p, nrs, among);
      assert ps == front + [p];
    }
  }

  lemma {:induction false} CountsAddUp(ps: seq<Pair>, nrs: set<nat>)
    ensures CountWhere(ps, nrs, true) + CountWhere(ps, nrs, false) == Total(ps)
  {
    if ps != [] { CountsAddUp(ps[1..], nrs); }
  }

  /** Whatever pairs were printed, repeats included: the path and non-path trap totals are the counts
      printed for path and for other syscalls, and together all of them. */
  lemma {:induction false} TrapsAreConserved(d: Digits, ps: seq<Pair>)
    ensures PathTrap(Scan(d, Print(ps))) == CountWhere(ps, PATH_NRS, true)
    ensures NonPathTrap(Scan(d, Print(ps))) == CountWhere(ps, PATH_NRS, false)
    ensures PathTrap(Scan(d, Print(ps))) + NonPathTrap(Scan(d, Print(ps))) == Total(ps)
  {
    FindPrinted(d, ps);
    TallyConserves(ps, PATH_NRS, true);
    TallyConserves(ps, PATH_NRS, false);
    CountsAddUp(ps, PATH_NRS);
  }
}
