/** The reverse-DNS app_id grammar of the manifest validator, and the rewriting that turns any package
    name into an app_id. */
module AppId {
  import opened PyText

  // --- the grammar, as the validator's regular expression ----------------------------------

  predicate IsLetter(c: char) {
    'a' <= c <= 'z' || 'A' <= c <= 'Z'
  }

  predicate IsWord(c: char) {
    IsLetter(c) || '0' <= c <= '9' || c == '_'
  }

  predicate AllWord(s: string) {
    forall i :: 0 <= i < |s| ==> IsWord(s[i])
  }

  /** `(-[a-zA-Z0-9_]+)*` */
  ghost predicate MatchesSegments(s: string)
    decreases |s|
  {
    s == "" || (s[0] == '-' && exists k :: 2 <= k <= |s| && AllWord(s[1..k]) && MatchesSegments(s[k..]))
  }

  /** `[a-zA-Z][a-zA-Z0-9_]*(-[a-zA-Z0-9_]+)*` */
  ghost predicate MatchesLabel(s: string) {
    s != "" && IsLetter(s[0]) && exists k :: 1 <= k <= |s| && AllWord(s[1..k]) && MatchesSegments(s[k..])
  }

  /** `(\.LABEL)*` */
  ghost predicate MatchesDotted(s: string)
    decreases |s|
  {
    s == "" || (s[0] == '.' && exists k :: 1 <= k <= |s| && MatchesLabel(s[1..k]) && MatchesDotted(s[k..]))
  }

  /** `^LABEL(\.LABEL)+$` */
  ghost predicate MatchesAppId(s: string) {
    exists k :: 0 <= k < |s| && MatchesLabel(s[..k]) && MatchesDotted(s[k..])
  }

  // --- the same grammar, as checks a program can make ---------------------------------------

  predicate IsLabelChar(c: char) {
    IsWord(c) || c == '-'
  }

  /** Label characters only, and every '-' is followed by a word character. */
  predicate IsSegmented(s: string) {
    forall i :: 0 <= i < |s| ==> IsSegmentChar(s, i)
  }

  predicate IsSegmentChar(s: string, i: nat)
    requires i < |s|
  {
    IsLabelChar(s[i]) && (s[i] == '-' ==> i + 1 < |s| && s[i + 1] != '-')
  }

  predicate IsLabel(s: string) {
    s != "" && IsLetter(s[0]) && IsSegmented(s)
  }

  predicate IsAppId(s: string) {
    var labels := Split(s, '.');
    |labels| >= 2 && forall i :: 0 <= i < |labels| ==> IsLabel(labels[i])
  }

  /** How many word characters `s` starts with. */
  function WordRun(s: string): (n: nat)
    ensures n <= |s| && AllWord(s[..n])
    ensures n < |s| ==> !IsWord(s[n])
  {
    if s == "" || !IsWord(s[0]) then 0 else 1 + WordRun(s[1..])
  }

  lemma {:induction false} SegmentsIff(s: string)
    ensures MatchesSegments(s) <==> s == "" || (s[0] == '-' && IsSegmented(s))
    decreases |s|
  {
    if s != "" && s[0] == '-' {
      if IsSegmented(s) {
        var k := 1 + WordRun(s[1..]);
        assert s[1..][..k - 1] == s[1..k];
        SegmentedTail(s, k);
        assert IsSegmentChar(s, 0) && IsSegmentChar(s, 1);
        assert k >= 2;
        assert k < |s| ==> s[k] == s[1..][k - 1] && IsSegmentChar(s, k) && s[k..][0] == '-';
        SegmentsIff(s[k..]);
      }
      forall k | 2 <= k <= |s| && AllWord(s[1..k]) && MatchesSegments(s[k..]) ensures IsSegmented(s) {
        SegmentsIff(s[k..]);
        assert forall i :: 1 <= i < k ==> s[i] == s[1..k][i - 1];
        SegmentedJoin(s, k);
      }
    }
  }

  lemma {:induction false} SegmentedTail(s: string, k: nat)
    requires IsSegmented(s) && k <= |s|
    ensures IsSegmented(s[k..])
  {
    var t := s[k..];
    forall i | 0 <= i < |t| ensures IsSegmentChar(t, i) {
      assert IsSegmentChar(s, k + i);
      assert i + 1 < |t| ==> t[i + 1] == s[k + i + 1];
    }
  }

  /** A word run with an optional '-' in front, followed by segments. */
  lemma {:induction false} SegmentedJoin(s: string, k: nat)
    requires 1 <= k <= |s| && IsLabelChar(s[0]) && (s[0] == '-' ==> k >= 2)
    requires forall i :: 1 <= i < k ==> IsWord(s[i])
    requires IsSegmented(s[k..])
    ensures IsSegmented(s)
  {
    forall i | 0 <= i < |s| ensures IsSegmentChar(s, i) {
      if i >= k {
        assert IsSegmentChar(s[k..], i - k);
        assert i + 1 < |s| ==> s[i + 1] == s[k..][i - k + 1];
      }
    }
  }

  lemma {:induction false} LabelIff(s: string)
    ensures MatchesLabel(s) <==> IsLabel(s)
  {
    if s != "" && IsLetter(s[0]) {
      if IsSegmented(s) {
        var k := 1 + WordRun(s[1..]);
        assert s[1..][..k - 1] == s[1..k];
        SegmentedTail(s, k);
        assert k < |s| ==> s[k] == s[1..][k - 1] && IsSegmentChar(s, k) && s[k..][0] == '-';
        SegmentsIff(s[k..]);
      }
      forall k | 1 <= k <= |s| && AllWord(s[1..k]) && MatchesSegments(s[k..]) ensures IsSegmented(s) {
        SegmentsIff(s[k..]);
        assert forall i :: 1 <= i < k ==> s[i] == s[1..k][i - 1];
        SegmentedJoin(s, k);
      }
    }
  }

  lemma {:induction false} LabelHasNoDot(s: string)
    requires IsLabel(s)
    ensures '.' !in s
  {
    forall i | 0 <= i < |s| ensures s[i] != '.' {
      assert IsSegmentChar(s, i);
    }
  }

  ghost predicate AllLabels(parts: seq<string>) {
    forall i :: 0 <= i < |parts| ==> IsLabel(parts[i])
  }

  lemma {:induction false} ConsLabels(first: string, rest: seq<string>)
    ensures AllLabels([first] + rest) <==> IsLabel(first) && AllLabels(rest)
  {
    var all := [first] + rest;
    assert all[0] == first;
    if AllLabels(all) {
      forall i | 0 <= i < |rest| ensures IsLabel(rest[i]) { assert all[i + 1] == rest[i]; }
    }
  }

  /** A dotted rest can only be cut at its next dot. */
  lemma {:induction false} DottedStep(s: string, n: nat)
    requires s != "" && s[0] == '.' && n == DotAt(s[1..], 0)
    ensures MatchesDotted(s) <==> MatchesLabel(s[1..n + 1]) && MatchesDotted(s[n + 1..])
  {
    assert forall j :: 1 <= j < n + 1 ==> s[j] == s[1..][j - 1];
    forall k | 1 <= k <= |s| && MatchesLabel(s[1..k]) && MatchesDotted(s[k..]) ensures k == n + 1 {
      LabelIff(s[1..k]);
      LabelHasNoDot(s[1..k]);
      assert forall j :: 1 <= j < k ==> s[j] == s[1..k][j - 1];
    }
  }

  /** The dotted rest of an id matches exactly when every part between its dots is a label. */
  lemma {:induction false} DottedIff(s: string)
    requires s != "" && s[0] == '.'
    ensures MatchesDotted(s) <==> AllLabels(Split(s[1..], '.'))
    decreases |s|
  {
    var t := s[1..];
    var n := DotAt(t, 0);
    var first, rest := s[1..n + 1], s[n + 1..];
    DottedStep(s, n);
    LabelIff(first);
    assert t[..n] == first && t[n..] == rest;
    if n == |t| {
      assert t == first && rest == "";
      SplitFree(t, '.');
      ConsLabels(t, []);
      assert [t] + [] == [t];
    } else {
      assert t == first + ['.'] + rest[1..];
      SplitAt(first, '.', rest[1..]);
      ConsLabels(first, Split(rest[1..], '.'));
      DottedIff(rest);
    }
  }

  /** The first dot at or behind `i`, or the end. */
  function DotAt(s: string, i: nat): (n: nat)
    requires i <= |s|
    ensures i <= n <= |s| && (n < |s| ==> s[n] == '.')
    ensures forall j :: i <= j < n ==> s[j] != '.'
    ensures i == 0 ==> '.' !in s[..n]
    decreases |s| - i
  {
    if i == |s| || s[i] == '.' then i else DotAt(s, i + 1)
  }

  /** The checks accept exactly what the regular expression matches. */
  lemma {:induction false} AppIdIff(s: string)
    ensures MatchesAppId(s) <==> IsAppId(s)
  {
    var n := DotAt(s, 0);
    LabelIff(s[..n]);
    if n < |s| {
      assert s == s[..n] + ['.'] + s[n + 1..];
      SplitAt(s[..n], '.', s[n + 1..]);
      ConsLabels(s[..n], Split(s[n + 1..], '.'));
      assert s[n..][1..] == s[n + 1..];
      DottedIff(s[n..]);
      assert IsAppId(s) <==> AllLabels(Split(s, '.'));
    } else {
      assert s[..n] == s;
      SplitFree(s, '.');
    }
    forall k | 0 <= k < |s| && MatchesLabel(s[..k]) && MatchesDotted(s[k..]) ensures k == n {
      LabelIff(s[..k]);
      LabelHasNoDot(s[..k]);
      assert s[k..][0] == s[k] == '.';
      assert forall j :: 0 <= j < k ==> s[j] == s[..k][j];
    }
  }

  // --- the rewriting -----------------------------------------------------------------------

  const APP_ID_PREFIX := "org.debian"

  /** `.replace("+", "plus").replace(".", "-")` */
  function SpellOut(s: string): string {
    if s == "" then ""
    else (if s[0] == '+' then "plus" else if s[0] == '.' then "-" else [s[0]]) + SpellOut(s[1..])
  }

  /** `re.sub(r"[^A-Za-z0-9_-]", "-", s)` */
  function Admit(s: string): (r: string)
    ensures |r| == |s|
    ensures forall i :: 0 <= i < |s| ==> r[i] == if IsLabelChar(s[i]) then s[i] else '-'
  {
    seq(|s|, i requires 0 <= i < |s| => if IsLabelChar(s[i]) then s[i] else '-')
  }

  /** `re.sub(r"-{2,}", "-", s)` */
  function Collapse(s: string): string {
    if |s| <= 1 then s
    else if s[0] == '-' && s[1] == '-' then Collapse(s[1..])
    else [s[0]] + Collapse(s[1..])
  }

  function Trim(s: string): string {
    RStripChar(LStripChar(s, '-'), '-')
  }

  function Anchor(s: string): string {
    var t := if s == "" then "pkg" else s;
    if IsLetter(t[0]) then t else "p" + t
  }

  function Sanitize(pkg: string): string {
    Anchor(Trim(Collapse(Admit(SpellOut(pkg)))))
  }

  function AppIdForPackage(pkg: string): string {
    APP_ID_PREFIX + "." + Sanitize(pkg)
  }

  method SanitizeAppIdLabel(pkg: string) returns (s: string)
    ensures s == Sanitize(pkg)
    ensures IsLabel(s)
  {
    s := SpellOut(pkg);
    s := Admit(s);
    s := Collapse(s);
    s := RStripChar(LStripChar(s, '-'), '-');
    if s == "" {
      s := "pkg";
    }
    if !IsLetter(s[0]) {
      s := "p" + s;
    }
    SanitizeIsLabel(pkg);
  }

  ghost predicate IsDashPair(s: string, i: nat) {
    i + 1 < |s| && s[i] == '-' && s[i + 1] == '-'
  }

  ghost predicate NoDoubleDash(s: string) {
    forall i: nat :: !IsDashPair(s, i)
  }

  predicate AllLabelChars(s: string) {
    forall i :: 0 <= i < |s| ==> IsLabelChar(s[i])
  }

  lemma {:induction false} CollapseFacts(s: string)
    requires AllLabelChars(s)
    ensures NoDoubleDash(Collapse(s)) && AllLabelChars(Collapse(s))
    ensures s != "" ==> Collapse(s) != "" && Collapse(s)[0] == s[0]
  {
    if |s| > 1 {
      var rest := Collapse(s[1..]);
      CollapseFacts(s[1..]);
      if !(s[0] == '-' && s[1] == '-') {
        forall i: nat ensures !IsDashPair([s[0]] + rest, i) {
          if i > 0 { assert !IsDashPair(rest, i - 1); }
        }
      }
    }
  }

  lemma {:induction false} TrimFacts(s: string)
    requires NoDoubleDash(s) && AllLabelChars(s)
    ensures IsSegmented(Trim(s))
  {
    var l, t := LStripChar(s, '-'), Trim(s);
    forall i | 0 <= i < |t| ensures IsSegmentChar(t, i) {
      var k := |s| - |l| + i;
      assert t[i] == l[i] == s[k];
      assert i + 1 < |t| ==> t[i + 1] == l[i + 1] == s[k + 1];
      assert !IsDashPair(s, k);
    }
  }

  lemma {:induction false} AnchorFacts(s: string)
    requires IsSegmented(s)
    ensures IsLabel(Anchor(s))
  {
    var t := Anchor(s);
    if s != "" {
      assert IsSegmentChar(s, 0);
      forall i | 0 <= i < |t| ensures IsSegmentChar(t, i) {
        var k := if IsLetter(s[0]) then i else i - 1;
        if k >= 0 {
          assert IsSegmentChar(s, k);
        }
      }
    }
  }

  lemma {:induction false} SanitizeIsLabel(pkg: string)
    ensures IsLabel(Sanitize(pkg))
  {
    CollapseFacts(Admit(SpellOut(pkg)));
    TrimFacts(Collapse(Admit(SpellOut(pkg))));
    AnchorFacts(Trim(Collapse(Admit(SpellOut(pkg)))));
  }

  /** Every package name, whatever its characters, yields an id the validator's expression matches. */
  lemma {:induction false} AppIdMatches(pkg: string)
    ensures MatchesAppId(AppIdForPackage(pkg))
  {
    AppIdIsAccepted(pkg);
    AppIdIff(AppIdForPackage(pkg));
  }

  lemma {:induction false} AppIdIsAccepted(pkg: string)
    ensures IsAppId(AppIdForPackage(pkg))
  {
    var tail := Sanitize(pkg);
    SanitizeIsLabel(pkg);
    LabelHasNoDot(tail);
    SplitFree(tail, '.');
    PrefixIsLabels();
    PrependLabel("debian", tail);
    PrependLabel("org", "debian" + ['.'] + tail);
    PrefixParts(tail);
  }

  lemma {:induction false} PrefixParts(tail: string)
    ensures APP_ID_PREFIX + "." + tail == "org" + ['.'] + ("debian" + ['.'] + tail)
  {
  }

  lemma {:induction false} PrefixIsLabels()
    ensures IsLabel("org") && IsLabel("debian")
  {
  }

  lemma {:induction false} PrependLabel(first: string, s: string)
    requires IsLabel(first) && AllLabels(Split(s, '.'))
    ensures AllLabels(Split(first + ['.'] + s, '.')) && |Split(first + ['.'] + s, '.')| >= 2
  {
    LabelHasNoDot(first);
    SplitAt(first, '.', s);
    ConsLabels(first, Split(s, '.'));
  }

  /** The rewriting leaves a name alone exactly when it is a label already; so it is idempotent. */
  lemma {:induction false} SanitizeFixesLabels(pkg: string)
    ensures Sanitize(pkg) == pkg <==> IsLabel(pkg)
    ensures Sanitize(Sanitize(pkg)) == Sanitize(pkg)
  {
    SanitizeIsLabel(pkg);
    SanitizeKeepsLabel(Sanitize(pkg));
    if IsLabel(pkg) { SanitizeKeepsLabel(pkg); }
  }

  lemma {:induction false} SpellOutKeeps(s: string)
    requires AllLabelChars(s)
    ensures SpellOut(s) == s
  {
    if s != "" {
      SpellOutKeeps(s[1..]);
      assert s == [s[0]] + s[1..];
    }
  }

  lemma {:induction false} CollapseKeeps(s: string)
    requires NoDoubleDash(s)
    ensures Collapse(s) == s
  {
    if |s| > 1 {
      assert !IsDashPair(s, 0);
      forall i: nat ensures !IsDashPair(s[1..], i) {
        assert !IsDashPair(s, i + 1);
      }
      CollapseKeeps(s[1..]);
      assert s == [s[0]] + s[1..];
    }
  }

  lemma {:induction false} SanitizeKeepsLabel(s: string)
    requires IsLabel(s)
    ensures Sanitize(s) == s
  {
    forall i | 0 <= i < |s| ensures IsLabelChar(s[i]) && !IsDashPair(s, i) {
      assert IsSegmentChar(s, i);
    }
    SpellOutKeeps(s);
    assert Admit(s) == s;
    CollapseKeeps(s);
    assert IsSegmentChar(s, |s| - 1);
    assert Trim(s) == s;
  }
}
