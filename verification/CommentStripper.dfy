/** The C comment stripper that the fakeroot overlay builder runs over the shim source. */
module CommentStripper {

  /** A character-at-a-time reader: in code, behind a slash, in a block comment (behind a star), or in
      a line comment. */
  datatype State = Code | Slash | Block | Star | Line

  /** What the reader emits for `s` from state `q`. */
  function Run(q: State, s: string): string
    decreases |s|
  {
    if s == "" then (if q == Slash then "/" else "")
    else
      var c, rest := s[0], s[1..];
      match q
      case Code => if c == '/' then Run(Slash, rest) else [c] + Run(Code, rest)
      case Slash =>
        if c == '*' then Run(Block, rest)
        else if c == '/' then Run(Line, rest)
        else ['/', c] + Run(Code, rest)
      case Block => Run(if c == '*' then Star else Block, rest)
      case Star => Run(if c == '/' then Code else if c == '*' then Star else Block, rest)
      case Line => if c == '\n' then [c] + Run(Code, rest) else Run(Line, rest)
  }

  predicate HasOpenerAt(s: string, i: nat) {
    i + 1 < |s| && s[i] == '/' && (s[i + 1] == '*' || s[i + 1] == '/')
  }

  ghost predicate HasNoOpener(s: string) {
    forall i: nat :: !HasOpenerAt(s, i)
  }

  lemma {:induction false} PrependKeepsNoOpener(c: char, s: string)
    requires HasNoOpener(s) && !HasOpenerAt([c] + s, 0)
    ensures HasNoOpener([c] + s)
  {
    forall i: nat ensures !HasOpenerAt([c] + s, i) {
      if i > 0 {
        assert !HasOpenerAt(s, i - 1);
      }
    }
  }

  /** Stripping leaves neither a block nor a line comment opener. */
  lemma {:induction false} RunHasNoOpener(q: State, s: string)
    ensures HasNoOpener(Run(q, s))
    decreases |s|
  {
    if s != "" {
      var c, rest := s[0], s[1..];
      match q {
        case Code =>
          RunHasNoOpener(Slash, rest);
          RunHasNoOpener(Code, rest);
          if c != '/' { PrependKeepsNoOpener(c, Run(Code, rest)); }
        case Slash =>
          RunHasNoOpener(Block, rest);
          RunHasNoOpener(Line, rest);
          RunHasNoOpener(Code, rest);
          if c != '*' && c != '/' {
            PrependKeepsNoOpener(c, Run(Code, rest));
            PrependKeepsNoOpener('/', [c] + Run(Code, rest));
            assert ['/'] + ([c] + Run(Code, rest)) == ['/', c] + Run(Code, rest);
          }
        case Block => RunHasNoOpener(if c == '*' then Star else Block, rest);
        case Star => RunHasNoOpener(if c == '/' then Code else if c == '*' then Star else Block, rest);
        case Line =>
          RunHasNoOpener(Code, rest);
          RunHasNoOpener(Line, rest);
          if c == '\n' { PrependKeepsNoOpener(c, Run(Code, rest)); }
      }
    }
  }

  lemma {:induction false} RunKeepsCode(s: string)
    requires HasNoOpener(s)
    ensures Run(Code, s) == s
    ensures s == "" || (s[0] != '*' && s[0] != '/') ==> Run(Slash, s) == "/" + s
  {
    if s != "" {
      var rest := s[1..];
      forall i: nat ensures !HasOpenerAt(rest, i) {
        assert !HasOpenerAt(s, i + 1);
      }
      assert !HasOpenerAt(s, 0);
      RunKeepsCode(rest);
      assert s == [s[0]] + rest;
    }
  }

  /** Stripping changes nothing exactly when there is no opener; hence it is idempotent. */
  lemma {:induction false} IdentityIffNoOpener(s: string)
    ensures Run(Code, s) == s <==> HasNoOpener(s)
    ensures Run(Code, Run(Code, s)) == Run(Code, s)
  {
    RunHasNoOpener(Code, s);
    RunKeepsCode(Run(Code, s));
    if HasNoOpener(s) {
      RunKeepsCode(s);
    }
  }

  // --- the scanner -------------------------------------------------------------------------

  predicate StartsWith(s: string, pat: string, i: nat) {
    i + |pat| <= |s| && s[i..i + |pat|] == pat
  }

  /** Python's `s.find(pat, i)` for a non-empty pattern: the first occurrence from `i` on, or -1. */
  function Find(s: string, pat: string, i: nat): (r: int)
    requires pat != ""
    ensures r != -1 ==> i <= r && StartsWith(s, pat, r)
    ensures forall k :: i <= k && (r == -1 || k < r) ==> !StartsWith(s, pat, k)
    decreases |s| - i
  {
    if i + |pat| > |s| then -1 else if StartsWith(s, pat, i) then i else Find(s, pat, i + 1)
  }

  method StripCComments(src: string) returns (r: string)
    ensures r == Run(Code, src)
  {
    r := [];
    var i, n := 0, |src|;
    while i < n
      invariant 0 <= i <= n
      invariant r + Run(Code, src[i..]) == Run(Code, src)
    {
      if StartsWith(src, "/*", i) {
        var end := Find(src, "*/", i + 2);
        SkipBlock(src, i, end);
        i := if end != -1 then end + 2 else n;
      } else if StartsWith(src, "//", i) {
        var end := Find(src, "\n", i);
        SkipLine(src, i, end);
        i := if end != -1 then end else n;
      } else {
        EmitOne(src, i);
        assert r + ([src[i]] + Run(Code, src[i + 1..])) == (r + [src[i]]) + Run(Code, src[i + 1..]);
        r := r + [src[i]];
        i := i + 1;
      }
    }
  }

  lemma {:induction false} EmitOne(s: string, i: nat)
    requires i < |s| && !StartsWith(s, "/*", i) && !StartsWith(s, "//", i)
    ensures Run(Code, s[i..]) == [s[i]] + Run(Code, s[i + 1..])
  {
    var t := s[i..];
    assert t[1..] == s[i + 1..];
    if s[i] == '/' && i + 1 < |s| {
      assert s[i..i + 2] == [s[i], s[i + 1]];
      assert s[i + 1] != '*' && s[i + 1] != '/';
      assert t[1..][1..] == s[i + 1..][1..];
      assert ['/', s[i + 1]] + Run(Code, t[1..][1..]) == ['/'] + ([s[i + 1]] + Run(Code, t[1..][1..]));
    }
  }

  lemma {:induction false} SkipBlock(s: string, i: nat, end: int)
    requires StartsWith(s, "/*", i) && end == Find(s, "*/", i + 2)
    ensures Run(Code, s[i..]) == if end != -1 then Run(Code, s[end + 2..]) else ""
  {
    assert s[i] == s[i..i + 2][0] && s[i + 1] == s[i..i + 2][1];
    assert s[i..][1..] == s[i + 1..] && s[i + 1..][1..] == s[i + 2..];
    InBlock(s, i + 2, end);
  }

  /** From inside a block comment the reader comes back to code right behind the first closer. */
  lemma {:induction false} InBlock(s: string, k: nat, end: int)
    requires k <= |s| && (end == -1 || (k <= end && StartsWith(s, "*/", end)))
    requires forall j :: k <= j && (end == -1 || j < end) ==> !StartsWith(s, "*/", j)
    ensures Run(Block, s[k..]) == if end != -1 then Run(Code, s[end + 2..]) else ""
    ensures k < |s| && s[k] == '*' ==> Run(Star, s[k + 1..]) == if end != -1 then Run(Code, s[end + 2..]) else ""
    decreases |s| - k
  {
    if k < |s| {
      assert s[k..][1..] == s[k + 1..];
      if end == k {
        assert s[k] == s[k..k + 2][0] && s[k + 1] == s[k..k + 2][1];
        assert s[k + 1..][1..] == s[k + 2..];
      } else {
        InBlock(s, k + 1, end);
        assert !StartsWith(s, "*/", k);
        if s[k] == '*' && k + 1 < |s| {
          assert s[k..k + 2] == [s[k], s[k + 1]];
          assert s[k + 1..][1..] == s[k + 2..];
        }
      }
    }
  }

  lemma {:induction false} SkipLine(s: string, i: nat, end: int)
    requires StartsWith(s, "//", i) && end == Find(s, "\n", i)
    ensures end != -1 ==> end > i
    ensures Run(Code, s[i..]) == if end != -1 then Run(Code, s[end..]) else ""
  {
    assert s[i] == s[i..i + 2][0] && s[i + 1] == s[i..i + 2][1];
    assert s[i..][1..] == s[i + 1..] && s[i + 1..][1..] == s[i + 2..];
    if end != -1 {
      assert s[end] == s[end..end + 1][0] == '\n';
    }
    InLine(s, i + 2, end);
  }

  lemma {:induction false} InLine(s: string, k: nat, end: int)
    requires k <= |s| && (end == -1 || (k <= end && StartsWith(s, "\n", end)))
    requires forall j :: k <= j && (end == -1 || j < end) ==> !StartsWith(s, "\n", j)
    ensures Run(Line, s[k..]) == if end != -1 then Run(Code, s[end..]) else ""
    decreases |s| - k
  {
    if k < |s| {
      assert s[k..][1..] == s[k + 1..];
      assert s[k..k + 1] == [s[k]];
      if end != k {
        assert !StartsWith(s, "\n", k);
        InLine(s, k + 1, end);
      }
    }
  }
}
