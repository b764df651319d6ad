/** The dpkg status database: the printer of its stanzas, and the repository's reader of the same
    format. */
module DpkgStatus {
  import opened PyText

  /** A field name. */
  datatype Key = Key(name: string)

  type Fields = map<Key, string>

  type Index = map<string, Fields>

  /** The field names and fixed texts of a stanza. The first five fields are printed one by one, the
      carried ones in a loop. */
  datatype Layout = Layout(
    package: Key, priority: Key, status: Key, architecture: Key, version: Key, carry: seq<Key>,
    installed: string, defaultArch: string)

  // --- the reader --------------------------------------------------------------------------

  datatype Line = Blank | Continuation(text: string) | Field(key: Key, value: string) | Ignored

  function Classify(line: string): Line {
    if Strip(line) == "" then Blank
    else if line[0] == ' ' || line[0] == '\t' then Continuation(Strip(line))
    else SplitField(line, CharAt(line, ':'))
  }

  function SplitField(line: string, n: nat): Line
    requires n <= |line|
  {
    if n == |line| then Ignored else Field(Key(Strip(line[..n])), Strip(line[n + 1..]))
  }

  /** The stanzas read so far, and the fields of the stanza being read with the last key set in it. */
  datatype Reader = Reader(index: Index, fields: Fields, key: Option<Key>)

  const START := Reader(map[], map[], None)

  /** A stanza ends: it is kept under its package name when it has one. */
  function Flush(L: Layout, r: Reader): Reader {
    Reader(if L.package in r.fields &&
      r.fields[L.package] != "" then r.index[r.fields[L.package] := r.fields] else r.index,
           map[], None)
  }

  function Feed(L: Layout, r: Reader, line: string): Reader {
    match Classify(line)
    case Blank => Flush(L, r)
    case Ignored => r
    case Field(k, v) => Reader(r.index, r.fields[k := v], Some(k))
    case Continuation(t) =>
      if r.key.Some? && r.key.value in r.fields
      then r.(fields := r.fields[r.key.value := r.fields[r.key.value] + "\n" + t])
      else r
  }

  function Read(L: Layout, r: Reader, text: string): Reader
    decreases |text|
  {
    if text == "" then r
    else
      var n := LineEnd(text);
      if n == |text| then Feed(L, r, text)
      else Read(L, Feed(L, r, text[..n]), text[NextLine(text, n)..])
  }

  /** `parse_packages`: its passes over lines, stanzas and fields in one. */
  function ParsePackages(L: Layout, text: string): Index {
    Flush(L, Read(L, START, text)).index
  }

  lemma {:induction false} ReadLine(L: Layout, r: Reader, line: string, rest: string)
    requires IsBreakFree(line)
    ensures Read(L, r, line + "\n" + rest) == Read(L, Feed(L, r, line), rest)
  {
    var text := line + "\n" + rest;
    LineEndOf(line, rest);
    assert text[..|line|] == line && text[|line|] == '\n';
    assert text[|line| + 1..] == rest;
  }

  // --- values ------------------------------------------------------------------------------

  predicate IsPlain(s: string) {
    IsStripped(s) && IsBreakFree(s)
  }

  /** The lines behind a value's first one: stripped and visible. */
  ghost predicate IsBody(v: string)
    decreases |v|
  {
    var n := CharAt(v, '\n');
    IsPlain(v[..n]) && n > 0 && (n < |v| ==> IsBody(v[n + 1..]))
  }

  /** A value as the reader stores it: stripped lines, none blank but perhaps the first. */
  ghost predicate IsCanonical(v: string) {
    var n := CharAt(v, '\n');
    IsPlain(v[..n]) && (n < |v| ==> IsBody(v[n + 1..]))
  }

  predicate IsSingleLine(v: string) {
    '\n' !in v
  }

  lemma {:induction false} PlainIsSingleLine(s: string)
    requires IsBreakFree(s)
    ensures IsSingleLine(s) && CharAt(s, '\n') == |s| && s[..|s|] == s
  {
    forall i | 0 <= i < |s| ensures s[i] != '\n' { assert !IsBreak(s[i]); }
    CharAtAbsent(s, '\n');
  }

  lemma {:induction false} PlainIsCanonical(s: string)
    requires IsPlain(s)
    ensures IsCanonical(s) && IsSingleLine(s)
    ensures s != "" ==> IsBody(s)
  {
    PlainIsSingleLine(s);
  }

  lemma {:induction false} SingleLineIsPlain(v: string)
    requires IsCanonical(v) && IsSingleLine(v)
    ensures IsPlain(v)
  {
    CharAtAbsent(v, '\n');
  }

  lemma {:induction false} AppendAtEnd(v: string, n: nat, t: string)
    requires n == CharAt(v, '\n') && IsBreakFree(t)
    ensures n == |v| ==> CharAt(v + "\n" + t, '\n') == n && (v + "\n" + t)[..n] == v && (v + "\n" + t)[n + 1..] == t
    ensures n < |v| ==> (CharAt(v + "\n" + t, '\n') == n && (v + "\n" + t)[..n] == v[..n]
      && (v + "\n" + t)[n + 1..] == v[n + 1..] + "\n" + t)
  {
    if n == |v| {
      assert v[..n] == v;
      CharAtPresent(v, '\n', t);
    } else {
      assert v + "\n" + t == v[..n] + ['\n'] + (v[n + 1..] + "\n" + t);
      CharAtPresent(v[..n], '\n', v[n + 1..] + "\n" + t);
    }
  }

  lemma {:induction false} BodyAppend(v: string, t: string)
    requires IsBody(v) && IsPlain(t) && t != ""
    ensures IsBody(v + "\n" + t)
    decreases |v|
  {
    var n := CharAt(v, '\n');
    AppendAtEnd(v, n, t);
    if n == |v| {
      assert v[..n] == v;
      PlainIsCanonical(t);
    } else {
      BodyAppend(v[n + 1..], t);
    }
  }

  lemma {:induction false} CanonicalAppend(v: string, t: string)
    requires IsCanonical(v) && IsPlain(t) && t != ""
    ensures IsCanonical(v + "\n" + t)
  {
    var n := CharAt(v, '\n');
    AppendAtEnd(v, n, t);
    if n == |v| {
      assert v[..n] == v;
      PlainIsCanonical(t);
    } else {
      BodyAppend(v[n + 1..], t);
    }
  }

  // --- everything the reader stores is canonical --------------------------------------------

  ghost predicate FieldsAreCanonical(f: Fields) {
    forall k :: k in f ==> IsCanonical(f[k])
  }

  /** A stanza as it is kept: canonical values, under its own non-empty package name. */
  ghost predicate StanzaIsCanonical(L: Layout, name: string, f: Fields) {
    FieldsAreCanonical(f) && name != "" && L.package in f && f[L.package] == name
  }

  ghost predicate IndexIsCanonical(L: Layout, index: Index) {
    forall n :: n in index ==> StanzaIsCanonical(L, n, index[n])
  }

  ghost predicate ReaderIsCanonical(L: Layout, r: Reader) {
    IndexIsCanonical(L, r.index) && FieldsAreCanonical(r.fields)
  }

  lemma {:induction false} StripKeepsBreakFree(s: string)
    requires IsBreakFree(s)
    ensures IsPlain(Strip(s))
  {
    StripIsStripped(s);
    forall i | 0 <= i < |Strip(s)| ensures !IsBreak(Strip(s)[i]) {
      assert Strip(s)[i] in s;
    }
  }

  lemma {:induction false} TailIsBreakFree(s: string, n: nat)
    requires IsBreakFree(s) && n <= |s|
    ensures IsBreakFree(s[n..])
  {
  }

  ghost predicate HoldsPlain(l: Line) {
    (l.Field? ==> IsPlain(l.value)) && (l.Continuation? ==> IsPlain(l.text) && l.text != "")
  }

  lemma {:induction false} FieldIsPlain(line: string, n: nat)
    requires IsBreakFree(line) && n <= |line|
    ensures HoldsPlain(SplitField(line, n))
  {
    if n < |line| {
      TailIsBreakFree(line, n + 1);
      StripKeepsBreakFree(line[n + 1..]);
    }
  }

  lemma {:induction false} ClassifiedIsPlain(line: string)
    requires IsBreakFree(line)
    ensures HoldsPlain(Classify(line))
  {
    StripKeepsBreakFree(line);
    FieldIsPlain(line, CharAt(line, ':'));
  }

  lemma {:induction false} SetIsCanonical(f: Fields, k: Key, v: string)
    requires FieldsAreCanonical(f) && IsCanonical(v)
    ensures FieldsAreCanonical(f[k := v])
  {
  }

  lemma {:induction false} FlushIsCanonical(L: Layout, r: Reader)
    requires ReaderIsCanonical(L, r)
    ensures ReaderIsCanonical(L, Flush(L, r))
  {
    if L.package in r.fields && r.fields[L.package] != "" {
      var name := r.fields[L.package];
      assert StanzaIsCanonical(L, name, r.fields);
    }
  }

  lemma {:induction false} FeedIsCanonical(L: Layout, r: Reader, line: string)
    requires ReaderIsCanonical(L, r) && IsBreakFree(line)
    ensures ReaderIsCanonical(L, Feed(L, r, line))
  {
    ClassifiedIsPlain(line);
    match Classify(line) {
      case Blank => FlushIsCanonical(L, r);
      case Ignored =>
      case Field(k, v) =>
        PlainIsCanonical(v);
        SetIsCanonical(r.fields, k, v);
      case Continuation(t) =>
        if r.key.Some? && r.key.value in r.fields {
          var k := r.key.value;
          CanonicalAppend(r.fields[k], t);
          SetIsCanonical(r.fields, k, r.fields[k] + "\n" + t);
        }
    }
  }

  lemma {:induction false} ReadIsCanonical(L: Layout, r: Reader, text: string)
    requires ReaderIsCanonical(L, r)
    ensures ReaderIsCanonical(L, Read(L, r, text))
    decreases |text|
  {
    if text != "" {
      var n := LineEnd(text);
      FeedIsCanonical(L, r, text[..n]);
      if n == |text| {
        assert text[..n] == text;
      } else {
        ReadIsCanonical(L, Feed(L, r, text[..n]), text[NextLine(text, n)..]);
      }
    }
  }

  lemma {:induction false} ParsedIsCanonical(L: Layout, text: string)
    ensures IndexIsCanonical(L, ParsePackages(L, text))
  {
    ReadIsCanonical(L, START, text);
  }

  // --- the printer -------------------------------------------------------------------------

  function Get(f: Fields, k: Key): string {
    if k in f then f[k] else ""
  }

  /** A field name the reader takes as it stands. */
  predicate IsCleanKey(k: Key) {
    k.name != "" && IsPlain(k.name) && ':' !in k.name
  }

  function Heads(L: Layout): seq<Key> {
    [L.package, L.priority, L.status, L.architecture, L.version]
  }

  predicate IsLayout(L: Layout) {
    && Distinct(Heads(L) + L.carry)
    && (forall i :: 0 <= i < |Heads(L)| ==> IsCleanKey(Heads(L)[i]))
    && (forall i :: 0 <= i < |L.carry| ==> IsCleanKey(L.carry[i]))
    && IsPlain(L.installed) && IsPlain(L.defaultArch)
  }

  /** Each line behind a value's first one, indented by one blank. */
  function IndentAll(lines: seq<string>): seq<string> {
    if lines == [] then [] else [" " + lines[0]] + IndentAll(lines[1..])
  }

  function RenderField(key: Key, value: string): string {
    if '\n' !in value then key.name + ": " + value
    else
      var lines := Split(value, '\n');
      Join([key.name + ": " + lines[0]] + IndentAll(lines[1..]), '\n')
  }

  function Arch(L: Layout, f: Fields): string {
    if L.architecture in f then f[L.architecture] else L.defaultArch
  }

  /** One printed field: the carried ones are folded, the others are not. */
  datatype Out = Out(key: Key, value: string, folded: bool)

  function OutText(o: Out): string {
    if o.folded then RenderField(o.key, o.value) else o.key.name + ": " + o.value
  }

  function Texts(outs: seq<Out>): seq<string> {
    if outs == [] then [] else [OutText(outs[0])] + Texts(outs[1..])
  }

  function Optional(f: Fields, k: Key, folded: bool): seq<Out> {
    if Get(f, k) != "" then [Out(k, f[k], folded)] else []
  }

  function HeadOuts(L: Layout, name: string, f: Fields): seq<Out> {
    [Out(L.package, name, false)] + Optional(f, L.priority, false) + [Out(L.status, L.installed, false)] +
    [Out(L.architecture, Arch(L, f), false)] + Optional(f, L.version, false)
  }

  function CarryOuts(f: Fields, keys: seq<Key>): seq<Out> {
    if keys == [] then [] else CarryOuts(f, keys[..|keys| - 1]) + Optional(f, keys[|keys| - 1], true)
  }

  function Outs(L: Layout, name: string, f: Fields): (outs: seq<Out>)
    ensures outs != []
  {
    HeadOuts(L, name, f) + CarryOuts(f, L.carry)
  }

  function StanzaText(outs: seq<Out>): string {
    Join(Texts(outs), '\n')
  }

  predicate AreIn(names: seq<string>, index: Index) {
    forall i :: 0 <= i < |names| ==> names[i] in index
  }

  function StatusText(L: Layout, names: seq<string>, index: Index): string
    requires AreIn(names, index)
  {
    if names == [] then ""
    else StatusText(L, names[..|names| - 1], index) +
         (StanzaText(Outs(L, names[|names| - 1], index[names[|names| - 1]])) + "\n\n")
  }

  lemma {:induction false} StripBlankPrefix(v: string)
    requires IsStripped(v)
    ensures Strip(" " + v) == v
  {
    var s := " " + v;
    assert s[1..] == v;
    StripIsStripped(v);
    StripLeading(s);
  }

  lemma {:induction false} StripLeading(s: string)
    requires s != [] && IsSpace(s[0])
    ensures Strip(s) == Strip(s[1..])
  {
  }

  lemma {:induction false} HeadParts(name: string, v: string)
    requires ':' !in name
    ensures CharAt(name + ": " + v, ':') == |name|
    ensures (name + ": " + v)[..|name|] == name && (name + ": " + v)[|name| + 1..] == " " + v
  {
    assert name + ": " + v == name + [':'] + (" " + v);
    CharAtPresent(name, ':', " " + v);
  }

  lemma {:induction false} SplitHeadLine(k: Key, v: string)
    requires IsCleanKey(k) && IsPlain(v)
    ensures SplitField(k.name + ": " + v, |k.name|) == Field(k, v)
  {
    HeadParts(k.name, v);
    StripIsStripped(k.name);
    StripBlankPrefix(v);
  }

  lemma {:induction false} ClassifyHead(k: Key, v: string)
    requires IsCleanKey(k) && IsPlain(v)
    ensures Classify(k.name + ": " + v) == Field(k, v)
  {
    var line := k.name + ": " + v;
    assert line[0] == k.name[0];
    NonBlankStrip(line, 0);
    HeadParts(k.name, v);
    SplitHeadLine(k, v);
  }

  lemma {:induction false} HeadIsBreakFree(name: string, v: string)
    requires IsBreakFree(name) && IsBreakFree(v)
    ensures IsBreakFree(name + ": " + v)
  {
  }

  lemma {:induction false} ReadHead(L: Layout, r: Reader, k: Key, v: string, rest: string)
    requires IsCleanKey(k) && IsPlain(v)
    ensures Read(L, r, k.name + ": " + v + "\n" + rest) == Read(L, Reader(r.index, r.fields[k := v], Some(k)), rest)
  {
    ClassifyHead(k, v);
    HeadIsBreakFree(k.name, v);
    ReadLine(L, r, k.name + ": " + v, rest);
  }

  /** A value with every line behind the first indented by one blank. */
  function Indent(v: string): string
    decreases |v|
  {
    var n := CharAt(v, '\n');
    if n == |v| then v
    else
      var first, rest := v[..n], v[n + 1..];
      first + "\n " + Indent(rest)
  }

  lemma {:induction false} IndentedIsBreakFree(t: string)
    requires IsBreakFree(t)
    ensures IsBreakFree(" " + t)
  {
  }

  lemma {:induction false} ClassifyIndented(t: string)
    requires IsPlain(t) && t != ""
    ensures Classify(" " + t) == Continuation(t)
  {
    StripBlankPrefix(t);
  }

  lemma {:induction false} FeedIndented(L: Layout, r: Reader, k: Key, t: string)
    requires IsPlain(t) && t != "" && r.key == Some(k) && k in r.fields
    ensures Feed(L, r, " " + t) == r.(fields := r.fields[k := r.fields[k] + "\n" + t])
  {
    ClassifyIndented(t);
  }

  lemma {:induction false} SetTwice<K, V>(f: map<K, V>, k: K, a: V, b: V)
    ensures f[k := a][k := b] == f[k := b]
  {
  }

  lemma {:induction false} IndentStepText(a: string, w: string, rest: string)
    ensures " " + (a + "\n " + w) + "\n" + rest == (" " + a) + "\n" + (" " + w + "\n" + rest)
  {
  }

  lemma {:induction false} IndentUnfold(v: string, n: nat)
    requires n < |v| && n == CharAt(v, '\n')
    ensures Indent(v) == v[..n] + "\n " + Indent(v[n + 1..])
  {
  }

  lemma {:induction false} RejoinLine(v: string, n: nat)
    requires n < |v| && v[n] == '\n'
    ensures v == v[..n] + "\n" + v[n + 1..]
  {
  }

  lemma {:induction false} IndentStep(v: string, n: nat, rest: string)
    requires n < |v| && n == CharAt(v, '\n')
    ensures " " + Indent(v) + "\n" + rest == (" " + v[..n]) + "\n" + (" " + Indent(v[n + 1..]) + "\n" + rest)
    ensures v == v[..n] + "\n" + v[n + 1..]
  {
    IndentUnfold(v, n);
    IndentStepText(v[..n], Indent(v[n + 1..]), rest);
    RejoinLine(v, n);
  }

  lemma {:induction false} AppendTwice(acc: string, t: string, w: string)
    ensures acc + "\n" + t + "\n" + w == acc + "\n" + (t + "\n" + w)
  {
  }

  lemma {:induction false} ReadBody(L: Layout, r: Reader, k: Key, v: string, rest: string)
    requires IsBody(v) && r.key == Some(k) && k in r.fields
    ensures Read(L, r, " " + Indent(v) + "\n" + rest) ==
      Read(L, r.(fields := r.fields[k := r.fields[k] + "\n" + v]), rest)
    decreases |v|
  {
    var n := CharAt(v, '\n');
    var t := v[..n];
    FeedIndented(L, r, k, t);
    IndentedIsBreakFree(t);
    if n == |v| {
      assert t == v;
      ReadLine(L, r, " " + t, rest);
    } else {
      var w := v[n + 1..];
      IndentStep(v, n, rest);
      ReadLine(L, r, " " + t, " " + Indent(w) + "\n" + rest);
      var acc := r.fields[k] + "\n" + t;
      ReadBody(L, r.(fields := r.fields[k := acc]), k, w, rest);
      AppendTwice(r.fields[k], t, w);
      SetTwice(r.fields, k, acc, acc + "\n" + w);
    }
  }

  lemma {:induction false} IndentHead(head: string, v: string, n: nat, rest: string)
    requires n < |v| && n == CharAt(v, '\n')
    ensures head + Indent(v) + "\n" + rest == head + v[..n] + "\n" + (" " + Indent(v[n + 1..]) + "\n" + rest)
  {
    var more := Indent(v[n + 1..]);
    assert head + (v[..n] + "\n " + more) == head + v[..n] + "\n" + (" " + more);
  }

  lemma {:induction false} ReadIndented(L: Layout, r: Reader, k: Key, v: string, rest: string)
    requires IsCleanKey(k) && IsCanonical(v)
    ensures Read(L, r, k.name + ": " + Indent(v) + "\n" + rest) ==
      Read(L, Reader(r.index, r.fields[k := v], Some(k)), rest)
  {
    var n := CharAt(v, '\n');
    if n == |v| {
      assert v[..n] == v;
      ReadHead(L, r, k, v, rest);
    } else {
      var t, w := v[..n], v[n + 1..];
      IndentHead(k.name + ": ", v, n, rest);
      ReadHead(L, r, k, t, " " + Indent(w) + "\n" + rest);
      ReadBody(L, Reader(r.index, r.fields[k := t], Some(k)), k, w, rest);
      IndentStep(v, n, rest);
      SetTwice(r.fields, k, t, v);
    }
  }

  lemma {:induction false} JoinTwo(first: string, rest: seq<string>)
    requires rest != []
    ensures Join([first] + rest, '\n') == first + ['\n'] + Join(rest, '\n')
  {
    assert ([first] + rest)[1..] == rest;
  }

  lemma {:induction false} IndentFirst(lines: seq<string>)
    requires lines != []
    ensures IndentAll(lines) == [" " + lines[0]] + IndentAll(lines[1..])
  {
  }

  lemma {:induction false} SplitStep(v: string, n: nat)
    requires n == CharAt(v, '\n')
    ensures n == |v| ==> Split(v, '\n') == [v]
    ensures n < |v| ==> Split(v, '\n') == [v[..n]] + Split(v[n + 1..], '\n')
    ensures (n < |v|) == ('\n' in v)
  {
    if n == |v| {
      assert v[..n] == v;
      SplitFree(v, '\n');
    } else {
      assert v == v[..n] + ['\n'] + v[n + 1..];
      SplitAt(v[..n], '\n', v[n + 1..]);
    }
  }

  lemma {:induction false} MoveBlank(first: string, text: string)
    ensures first + ['\n'] + (" " + text) == first + "\n " + text
  {
  }

  lemma {:induction false} MoveBlankBefore(a: string, b: string)
    ensures " " + (a + b) == " " + a + b
  {
  }

  lemma {:induction false} IndentLine(first: string, v: string, n: nat)
    requires n == CharAt(v, '\n')
    ensures n == |v| ==> first + ['\n'] + (" " + v) == first + "\n " + Indent(v)
    ensures n < |v| ==> first + ['\n'] + (" " + v[..n] + "\n " + Indent(v[n + 1..])) == first + "\n " + Indent(v)
  {
    MoveBlank(first, Indent(v));
    if n < |v| {
      var more := Indent(v[n + 1..]);
      assert Indent(v) == v[..n] + "\n " + more;
      MoveBlankBefore(v[..n] + "\n ", more);
      MoveBlankBefore(v[..n], "\n ");
    }
  }

  lemma {:induction false} JoinIndented(first: string, v: string)
    ensures Join([first] + IndentAll(Split(v, '\n')), '\n') == first + "\n " + Indent(v)
    decreases |v|
  {
    var n := CharAt(v, '\n');
    var lines := Split(v, '\n');
    SplitStep(v, n);
    IndentFirst(lines);
    var more := IndentAll(lines);
    JoinTwo(first, more);
    IndentLine(first, v, n);
    if n < |v| {
      assert lines[1..] == Split(v[n + 1..], '\n');
      assert more == [" " + v[..n]] + IndentAll(Split(v[n + 1..], '\n'));
      JoinIndented(" " + v[..n], v[n + 1..]);
    } else {
      assert more == [" " + v];
    }
  }

  /** Rendering a field indents its value. */
  lemma {:induction false} RenderIsIndent(k: Key, v: string)
    ensures RenderField(k, v) == k.name + ": " + Indent(v)
  {
    var n := CharAt(v, '\n');
    var lines := Split(v, '\n');
    SplitStep(v, n);
    if n < |v| {
      var head := k.name + ": ";
      assert lines[0] == v[..n] && lines[1..] == Split(v[n + 1..], '\n');
      JoinIndented(head + v[..n], v[n + 1..]);
      HeadFirst(head, v[..n], Indent(v[n + 1..]));
    }
  }

  lemma {:induction false} HeadFirst(head: string, line: string, more: string)
    ensures head + line + "\n " + more == head + (line + "\n " + more)
  {
  }

  // --- what a printed stanza stands for ------------------------------------------------------

  function Lookup(f: Fields, k: Key): Option<string> {
    if k in f then Some(f[k]) else None
  }

  /** The value the last of the printed fields gives to a key. */
  function Last(outs: seq<Out>, k: Key): Option<string> {
    if outs == [] then None
    else if Last(outs[1..], k).Some? then Last(outs[1..], k)
    else if outs[0].key == k then Some(outs[0].value) else None
  }

  function Collect(f: Fields, outs: seq<Out>): Fields
    decreases |outs|
  {
    if outs == [] then f else Collect(f[outs[0].key := outs[0].value], outs[1..])
  }

  lemma {:induction false} CollectKeepsLast(f: Fields, outs: seq<Out>, k: Key)
    ensures Lookup(Collect(f, outs), k) == if Last(outs, k).Some? then Last(outs, k) else Lookup(f, k)
    decreases |outs|
  {
    if outs != [] {
      CollectKeepsLast(f[outs[0].key := outs[0].value], outs[1..], k);
    }
  }

  lemma {:induction false} LastOfConcat(a: seq<Out>, b: seq<Out>, k: Key)
    ensures Last(a + b, k) == if Last(b, k).Some? then Last(b, k) else Last(a, k)
  {
    if a == [] {
      assert a + b == b;
    } else {
      assert (a + b)[1..] == a[1..] + b;
      LastOfConcat(a[1..], b, k);
    }
  }

  /** A key's non-empty value. */
  function Visible(f: Fields, k: Key): Option<string> {
    if Get(f, k) != "" then Some(f[k]) else None
  }

  lemma {:induction false} LastOfCarried(f: Fields, keys: seq<Key>, k: Key)
    ensures Last(CarryOuts(f, keys), k) == if k in keys then Visible(f, k) else None
    decreases |keys|
  {
    if keys != [] {
      var front, last := keys[..|keys| - 1], keys[|keys| - 1];
      assert k in keys <==> k in front || k == last;
      LastOfCarried(f, front, k);
      LastOfConcat(CarryOuts(f, front), Optional(f, last, true), k);
    }
  }

  lemma {:induction false} LastOfHeads(L: Layout, name: string, f: Fields, k: Key)
    requires Distinct(Heads(L))
    ensures Last(HeadOuts(L, name, f), k) ==
      if k == L.package then Some(name)
      else if k == L.status then Some(L.installed)
      else if k == L.architecture then Some(Arch(L, f))
      else if k == L.priority || k == L.version then Visible(f, k) else None
  {
    var p, s, a := [Out(L.package, name, false)], [Out(L.status, L.installed, false)],
      [Out(L.architecture, Arch(L, f), false)];
    var priority, version := Optional(f, L.priority, false), Optional(f, L.version, false);
    HeadsDiffer(L);
    LastOfConcat(p, priority, k);
    LastOfConcat(p + priority, s, k);
    LastOfConcat(p + priority + s, a, k);
    LastOfConcat(p + priority + s + a, version, k);
  }

  lemma {:induction false} HeadsDiffer(L: Layout)
    requires Distinct(Heads(L))
    ensures L.package != L.priority && L.package != L.status && L.package != L.architecture && L.package != L.version
    ensures L.priority != L.status && L.priority != L.architecture && L.priority != L.version
    ensures L.status != L.architecture && L.status != L.version && L.architecture != L.version
  {
    var h := Heads(L);
    assert h[0] == L.package && h[1] == L.priority && h[2] == L.status && h[3] == L.architecture && h[4] == L.version;
  }

  /** The fields dpkg is to know of an installed package: its name, the fixed status, its architecture
      or the default one, and every other known field of its stanza that is not empty. */
  function Attestation(L: Layout, name: string, f: Fields, k: Key): Option<string> {
    if k == L.package then Some(name)
    else if k == L.status then Some(L.installed)
    else if k == L.architecture then Some(Arch(L, f))
    else if k == L.priority || k == L.version || k in L.carry then Visible(f, k)
    else None
  }

  ghost predicate Attests(L: Layout, stored: Fields, name: string, f: Fields) {
    forall k: Key :: Lookup(stored, k) == Attestation(L, name, f, k)
  }

  function Stored(L: Layout, name: string, f: Fields): Fields {
    Collect(map[], Outs(L, name, f))
  }

  lemma {:induction false} LayoutParts(L: Layout)
    requires IsLayout(L)
    ensures Distinct(Heads(L)) && forall k :: k in L.carry ==> k !in Heads(L)
  {
    var all := Heads(L) + L.carry;
    forall i, j | 0 <= i < j < |Heads(L)| ensures Heads(L)[i] != Heads(L)[j] {
      assert all[i] == Heads(L)[i] && all[j] == Heads(L)[j];
    }
    forall i, j | 0 <= i < |Heads(L)| && 0 <= j < |L.carry| ensures Heads(L)[i] != L.carry[j] {
      assert all[i] == Heads(L)[i] && all[|Heads(L)| + j] == L.carry[j];
    }
  }

  lemma {:induction false} StoredAttests(L: Layout, name: string, f: Fields)
    requires IsLayout(L)
    ensures Attests(L, Stored(L, name, f), name, f)
  {
    LayoutParts(L);
    forall k: Key ensures Lookup(Stored(L, name, f), k) == Attestation(L, name, f, k) {
      CollectKeepsLast(map[], Outs(L, name, f), k);
      LastOfConcat(HeadOuts(L, name, f), CarryOuts(f, L.carry), k);
      LastOfCarried(f, L.carry, k);
      LastOfHeads(L, name, f, k);
      assert k in Heads(L) <==>
        k == L.package || k == L.priority || k == L.status || k == L.architecture || k == L.version;
    }
  }

  // --- reading a printed stanza ----------------------------------------------------------------

  /** A field the printer can be given: a known key with a value as the reader stores it. */
  predicate IsHead(L: Layout, k: Key) {
    k in Heads(L)
  }

  ghost predicate IsReadable(L: Layout, o: Out) {
    IsCleanKey(o.key) && IsCanonical(o.value) && (o.folded ==> !IsHead(L, o.key))
  }

  ghost predicate AreReadable(L: Layout, outs: seq<Out>) {
    forall i :: 0 <= i < |outs| ==> IsReadable(L, outs[i])
  }

  /** A field printed so that it reads back: folded, or of one line. */
  predicate IsFaithful(o: Out) {
    o.folded || IsSingleLine(o.value)
  }

  predicate AreFaithful(outs: seq<Out>) {
    forall i :: 0 <= i < |outs| ==> IsFaithful(outs[i])
  }

  lemma {:induction false} ReadOut(L: Layout, r: Reader, o: Out, rest: string)
    requires IsReadable(L, o) && IsFaithful(o)
    ensures Read(L, r, OutText(o) + "\n" + rest) ==
      Read(L, Reader(r.index, r.fields[o.key := o.value], Some(o.key)), rest)
  {
    if o.folded {
      RenderIsIndent(o.key, o.value);
      ReadIndented(L, r, o.key, o.value, rest);
    } else {
      SingleLineIsPlain(o.value);
      ReadHead(L, r, o.key, o.value, rest);
    }
  }

  lemma {:induction false} StanzaStep(outs: seq<Out>, rest: string)
    requires outs != []
    ensures |outs| == 1 ==> StanzaText(outs) + "\n" + rest == OutText(outs[0]) + "\n" + rest
    ensures |outs| > 1 ==>
      (StanzaText(outs) + "\n" + rest == OutText(outs[0]) + "\n" + (StanzaText(outs[1..]) + "\n" + rest))
  {
    var tail := Texts(outs[1..]);
    assert Texts(outs) == [OutText(outs[0])] + tail;
    if |outs| > 1 { JoinTwo(OutText(outs[0]), tail); }
  }

  lemma {:induction false} CollectStep(f: Fields, outs: seq<Out>)
    requires outs != []
    ensures Collect(f, outs) == Collect(f[outs[0].key := outs[0].value], outs[1..])
    ensures |outs| == 1 ==> Collect(f, outs) == f[outs[0].key := outs[0].value]
  {
  }

  lemma {:induction false} ReadOuts(L: Layout, r: Reader, outs: seq<Out>, rest: string, text: string)
    requires outs != [] && AreReadable(L, outs) && AreFaithful(outs)
    requires text == StanzaText(outs) + "\n" + rest
    ensures Read(L, r, text) == Read(L, Reader(r.index, Collect(r.fields, outs), Some(outs[|outs| - 1].key)), rest)
    decreases |outs|
  {
    StanzaStep(outs, rest);
    var o := outs[0];
    CollectStep(r.fields, outs);
    if |outs| == 1 {
      ReadOut(L, r, o, rest);
    } else {
      var more := StanzaText(outs[1..]) + "\n" + rest;
      ReadOut(L, r, o, more);
      ReadOuts(L, Reader(r.index, r.fields[o.key := o.value], Some(o.key)), outs[1..], rest, more);
    }
  }

  lemma {:induction false} ReadBlank(L: Layout, r: Reader, rest: string)
    ensures Read(L, r, "\n" + rest) == Read(L, Flush(L, r), rest)
  {
    ReadLine(L, r, "", rest);
    assert "" + "\n" + rest == "\n" + rest;
  }

  // --- the fields of one stanza ------------------------------------------------------------------

  /** The four fields printed without folding have one line each. */
  predicate HasSingleLineHeads(L: Layout, name: string, f: Fields) {
    IsSingleLine(name) && IsSingleLine(Get(f, L.priority)) && IsSingleLine(Arch(L, f)) &&
      IsSingleLine(Get(f, L.version))
  }

  lemma {:induction false} ReadableConcat(L: Layout, a: seq<Out>, b: seq<Out>)
    requires AreReadable(L, a) && AreReadable(L, b)
    ensures AreReadable(L, a + b)
    ensures AreFaithful(a) && AreFaithful(b) ==> AreFaithful(a + b)
  {
  }

  lemma {:induction false} OptionalIsReadable(L: Layout, f: Fields, k: Key, folded: bool)
    requires FieldsAreCanonical(f) && IsCleanKey(k) && (folded ==> !IsHead(L, k))
    ensures AreReadable(L, Optional(f, k, folded))
    ensures folded || IsSingleLine(Get(f, k)) ==> AreFaithful(Optional(f, k, folded))
  {
  }

  lemma {:induction false} CarriedIsReadable(L: Layout, f: Fields, keys: seq<Key>)
    requires FieldsAreCanonical(f)
    requires forall i :: 0 <= i < |keys| ==> IsCleanKey(keys[i]) && !IsHead(L, keys[i])
    ensures AreReadable(L, CarryOuts(f, keys)) && AreFaithful(CarryOuts(f, keys))
    decreases |keys|
  {
    if keys != [] {
      var front, last := keys[..|keys| - 1], keys[|keys| - 1];
      CarriedIsReadable(L, f, front);
      OptionalIsReadable(L, f, last, true);
      ReadableConcat(L, CarryOuts(f, front), Optional(f, last, true));
    }
  }

  lemma {:induction false} PrintedIsReadable(L: Layout, k: Key, v: string)
    requires IsCleanKey(k) && IsCanonical(v)
    ensures AreReadable(L, [Out(k, v, false)]) && (IsSingleLine(v) ==> AreFaithful([Out(k, v, false)]))
  {
  }

  lemma {:induction false} HeadsAreReadable(L: Layout, name: string, f: Fields)
    requires IsLayout(L) && FieldsAreCanonical(f) && IsCanonical(name)
    ensures AreReadable(L, HeadOuts(L, name, f))
    ensures HasSingleLineHeads(L, name, f) ==> AreFaithful(HeadOuts(L, name, f))
  {
    var p, s, a := [Out(L.package, name, false)], [Out(L.status, L.installed, false)],
      [Out(L.architecture, Arch(L, f), false)];
    var priority, version := Optional(f, L.priority, false), Optional(f, L.version, false);
    var h := Heads(L);
    assert h[0] == L.package && h[1] == L.priority && h[2] == L.status && h[3] == L.architecture && h[4] == L.version;
    PlainIsCanonical(L.installed);
    PlainIsCanonical(L.defaultArch);
    PrintedIsReadable(L, L.package, name);
    PrintedIsReadable(L, L.status, L.installed);
    PrintedIsReadable(L, L.architecture, Arch(L, f));
    OptionalIsReadable(L, f, L.priority, false);
    OptionalIsReadable(L, f, L.version, false);
    ReadableConcat(L, p, priority);
    ReadableConcat(L, p + priority, s);
    ReadableConcat(L, p + priority + s, a);
    ReadableConcat(L, p + priority + s + a, version);
  }

  lemma {:induction false} OutsAreReadable(L: Layout, name: string, f: Fields)
    requires IsLayout(L) && StanzaIsCanonical(L, name, f)
    ensures AreReadable(L, Outs(L, name, f))
    ensures HasSingleLineHeads(L, name, f) ==> AreFaithful(Outs(L, name, f))
  {
    LayoutParts(L);
    HeadsAreReadable(L, name, f);
    forall i | 0 <= i < |L.carry| ensures !IsHead(L, L.carry[i]) { assert L.carry[i] in L.carry; }
    CarriedIsReadable(L, f, L.carry);
    ReadableConcat(L, HeadOuts(L, name, f), CarryOuts(f, L.carry));
  }

  // --- reading the whole status file back --------------------------------------------------------

  ghost predicate AreNamed(L: Layout, names: seq<string>, index: Index) {
    AreIn(names, index) && forall i :: 0 <= i < |names| ==> StanzaIsCanonical(L, names[i], index[names[i]])
  }

  ghost predicate AllSingleLine(L: Layout, names: seq<string>, index: Index) {
    AreIn(names, index) && forall i :: 0 <= i < |names| ==> HasSingleLineHeads(L, names[i], index[names[i]])
  }

  /** The stanzas of `names`, one after the other. */
  ghost function Recorded(L: Layout, names: seq<string>, index: Index): Index
    requires AreIn(names, index)
  {
    if names == [] then map[]
    else
      var last := names[|names| - 1];
      Recorded(L, names[..|names| - 1], index)[last := Stored(L, last, index[last])]
  }

  lemma {:induction false} RecordedIsStored(L: Layout, names: seq<string>, index: Index, n: string)
    requires AreIn(names, index)
    ensures n in Recorded(L, names, index) <==> n in names
    ensures n in names ==> Recorded(L, names, index)[n] == Stored(L, n, index[n])
  {
    if names != [] {
      var front, last := names[..|names| - 1], names[|names| - 1];
      RecordedIsStored(L, front, index, n);
      assert n in names <==> n in front || n == last;
    }
  }

  lemma {:induction false} ReadStanza(L: Layout, base: Index, name: string, f: Fields, rest: string, text: string)
    requires IsLayout(L) && StanzaIsCanonical(L, name, f) && HasSingleLineHeads(L, name, f)
    requires text == StanzaText(Outs(L, name, f)) + "\n" + ("\n" + rest)
    ensures Read(L, Reader(base, map[], None), text) ==
      Read(L, Reader(base[name := Stored(L, name, f)], map[], None), rest)
  {
    var r := Reader(base, map[], None);
    var outs := Outs(L, name, f);
    OutsAreReadable(L, name, f);
    ReadOuts(L, r, outs, "\n" + rest, text);
    var r' := Reader(base, Stored(L, name, f), Some(outs[|outs| - 1].key));
    StoredAttests(L, name, f);
    assert Lookup(r'.fields, L.package) == Some(name);
    ReadBlank(L, r', rest);
  }

  lemma {:induction false} StatusStep(front: string, stanza: string, rest: string)
    ensures front + (stanza + "\n\n") + rest == front + (stanza + "\n" + ("\n" + rest))
  {
  }

  lemma {:induction false} ReadStatus(L: Layout, names: seq<string>, index: Index, rest: string)
    requires IsLayout(L) && AreNamed(L, names, index) && AllSingleLine(L, names, index)
    ensures Read(L, START, StatusText(L, names, index) + rest) ==
      Read(L, Reader(Recorded(L, names, index), map[], None), rest)
    decreases |names|
  {
    if names == [] {
      assert "" + rest == rest;
    } else {
      var front, last := names[..|names| - 1], names[|names| - 1];
      var stanza := StanzaText(Outs(L, last, index[last]));
      var more := stanza + "\n" + ("\n" + rest);
      StatusStep(StatusText(L, front, index), stanza, rest);
      ReadStatus(L, front, index, more);
      ReadStanza(L, Recorded(L, front, index), last, index[last], rest, more);
    }
  }

  // --- what an unfolded field of several lines does ---------------------------------------------

  ghost predicate HeadsStaySingle(L: Layout, f: Fields) {
    forall k :: IsHead(L, k) && k in f ==> IsSingleLine(f[k])
  }

  ghost predicate ReaderStaysSingle(L: Layout, r: Reader) {
    HeadsStaySingle(L, r.fields) && forall n :: n in r.index ==> HeadsStaySingle(L, r.index[n])
  }

  lemma {:induction false} SetStaysSingle(L: Layout, r: Reader, k: Key, v: string)
    requires ReaderStaysSingle(L, r) && (IsHead(L, k) ==> IsSingleLine(v))
    ensures ReaderStaysSingle(L, Reader(r.index, r.fields[k := v], Some(k)))
  {
    assert HeadsStaySingle(L, r.fields[k := v]);
  }

  lemma {:induction false} FlushStaysSingle(L: Layout, r: Reader)
    requires ReaderStaysSingle(L, r)
    ensures ReaderStaysSingle(L, Flush(L, r))
  {
    assert HeadsStaySingle(L, map[]);
  }

  /** A line without a leading blank never extends a value. */
  lemma {:induction false} UnindentedStaysSingle(L: Layout, r: Reader, line: string)
    requires ReaderStaysSingle(L, r) && IsPlain(line) && line != ""
    ensures ReaderStaysSingle(L, Feed(L, r, line))
  {
    NonBlankStrip(line, 0);
    ClassifiedIsPlain(line);
    match Classify(line) {
      case Field(k, v) =>
        PlainIsCanonical(v);
        SetStaysSingle(L, r, k, v);
      case _ =>
    }
  }

  lemma {:induction false} BodyStep(v: string, n: nat, rest: string)
    requires n == CharAt(v, '\n') && n < |v|
    ensures v + "\n" + rest == v[..n] + "\n" + (v[n + 1..] + "\n" + rest)
  {
  }

  lemma {:induction false} ReadUnfolded(L: Layout, r: Reader, v: string, rest: string) returns (r': Reader)
    requires ReaderStaysSingle(L, r) && IsBody(v)
    ensures ReaderStaysSingle(L, r') && Read(L, r, v + "\n" + rest) == Read(L, r', rest)
    decreases |v|
  {
    var n := CharAt(v, '\n');
    r' := Feed(L, r, v[..n]);
    UnindentedStaysSingle(L, r, v[..n]);
    if n == |v| {
      assert v[..n] == v;
      ReadLine(L, r, v, rest);
    } else {
      BodyStep(v, n, rest);
      ReadLine(L, r, v[..n], v[n + 1..] + "\n" + rest);
      r' := ReadUnfolded(L, r', v[n + 1..], rest);
    }
  }

  lemma {:induction false} UnfoldedStep(head: string, v: string, n: nat, rest: string)
    requires n == CharAt(v, '\n') && n < |v|
    ensures head + v + "\n" + rest == head + v[..n] + "\n" + (v[n + 1..] + "\n" + rest)
  {
    BodyStep(v, n, rest);
    assert head + v + "\n" + rest == head + (v + "\n" + rest);
  }

  lemma {:induction false} ReadAnyOut(L: Layout, r: Reader, o: Out, rest: string) returns (r': Reader)
    requires IsReadable(L, o) && ReaderStaysSingle(L, r)
    ensures ReaderStaysSingle(L, r') && Read(L, r, OutText(o) + "\n" + rest) == Read(L, r', rest)
  {
    var n := CharAt(o.value, '\n');
    if IsFaithful(o) {
      r' := Reader(r.index, r.fields[o.key := o.value], Some(o.key));
      SetStaysSingle(L, r, o.key, o.value);
      ReadOut(L, r, o, rest);
    } else {
      SplitStep(o.value, n);
      var head, w := o.value[..n], o.value[n + 1..];
      PlainIsCanonical(head);
      UnfoldedStep(o.key.name + ": ", o.value, n, rest);
      ReadHead(L, r, o.key, head, w + "\n" + rest);
      r' := Reader(r.index, r.fields[o.key := head], Some(o.key));
      SetStaysSingle(L, r, o.key, head);
      r' := ReadUnfolded(L, r', w, rest);
    }
  }

  lemma {:induction false} ReadAnyOuts(
      L: Layout, r: Reader, outs: seq<Out>, rest: string, text: string)
    returns (r': Reader)
    requires outs != [] && AreReadable(L, outs) && ReaderStaysSingle(L, r)
    requires text == StanzaText(outs) + "\n" + rest
    ensures ReaderStaysSingle(L, r') && Read(L, r, text) == Read(L, r', rest)
    decreases |outs|
  {
    StanzaStep(outs, rest);
    if |outs| == 1 {
      r' := ReadAnyOut(L, r, outs[0], rest);
    } else {
      var more := StanzaText(outs[1..]) + "\n" + rest;
      r' := ReadAnyOut(L, r, outs[0], more);
      r' := ReadAnyOuts(L, r', outs[1..], rest, more);
    }
  }

  lemma {:induction false} ReadAnyStatus(L: Layout, names: seq<string>, index: Index, rest: string) returns (r': Reader)
    requires IsLayout(L) && AreNamed(L, names, index)
    ensures ReaderStaysSingle(L, r') && Read(L, START, StatusText(L, names, index) + rest) == Read(L, r', rest)
    decreases |names|
  {
    if names == [] {
      r' := START;
      assert "" + rest == rest;
    } else {
      var front, last := names[..|names| - 1], names[|names| - 1];
      var outs := Outs(L, last, index[last]);
      var more := StanzaText(outs) + "\n" + ("\n" + rest);
      StatusStep(StatusText(L, front, index), StanzaText(outs), rest);
      OutsAreReadable(L, last, index[last]);
      r' := ReadAnyStatus(L, front, index, more);
      r' := ReadAnyOuts(L, r', outs, "\n" + rest, more);
      ReadBlank(L, r', rest);
      FlushStaysSingle(L, r');
      r' := Flush(L, r');
    }
  }

  // --- the round trip --------------------------------------------------------------------------

  /** The wanted packages that the index knows, in name order. */
  function Selected(packages: set<string>, index: Index): (names: seq<string>)
    ensures AreIn(names, index) && Sorted(names) && Distinct(names)
    ensures forall n :: n in names <==> n in packages && n in index
  {
    var names := SortSet(packages * index.Keys);
    assert forall i :: 0 <= i < |names| ==> names[i] in packages * index.Keys;
    names
  }

  function Status(L: Layout, packages: set<string>, index: Index): string {
    StatusText(L, Selected(packages, index), index)
  }

  /** The database holds just the wanted packages of the index, each with its fields. */
  ghost predicate IsDatabaseFor(L: Layout, db: Index, packages: set<string>, index: Index) {
    && (forall n :: n in db <==> n in packages && n in index)
    && (forall n :: n in packages && n in index ==> n in db && Attests(L, db[n], n, index[n]))
  }

  lemma {:induction false} ReadEnd(L: Layout, r: Reader)
    ensures Read(L, r, "") == r
  {
  }

  lemma {:induction false} ParseStatus(L: Layout, names: seq<string>, index: Index)
    requires IsLayout(L) && AreNamed(L, names, index) && AllSingleLine(L, names, index)
    ensures ParsePackages(L, StatusText(L, names, index)) == Recorded(L, names, index)
  {
    ReadStatus(L, names, index, "");
    assert StatusText(L, names, index) + "" == StatusText(L, names, index);
    ReadEnd(L, Reader(Recorded(L, names, index), map[], None));
  }

  lemma {:induction false} ParseAnyStatus(L: Layout, names: seq<string>, index: Index, n: string)
    requires IsLayout(L) && AreNamed(L, names, index)
    requires n in ParsePackages(L, StatusText(L, names, index))
    ensures HeadsStaySingle(L, ParsePackages(L, StatusText(L, names, index))[n])
  {
    var r := ReadAnyStatus(L, names, index, "");
    assert StatusText(L, names, index) + "" == StatusText(L, names, index);
    ReadEnd(L, r);
    FlushStaysSingle(L, r);
  }

  lemma {:induction false} AttestedHeadsAreSingle(L: Layout, stored: Fields, name: string, f: Fields)
    requires IsLayout(L) && Attests(L, stored, name, f) && HeadsStaySingle(L, stored)
    ensures HasSingleLineHeads(L, name, f)
  {
    LayoutParts(L);
    HeadsDiffer(L);
    var h := Heads(L);
    assert h[0] == L.package && h[1] == L.priority && h[3] == L.architecture && h[4] == L.version;
    forall k | k in [L.package, L.priority, L.architecture, L.version]
      ensures IsHead(L, k) && Lookup(stored, k) == Attestation(L, name, f, k)
    {
    }
    assert Lookup(stored, L.package) == Some(name);
    assert Lookup(stored, L.architecture) == Some(Arch(L, f));
    assert Lookup(stored, L.priority) == Visible(f, L.priority);
    assert Lookup(stored, L.version) == Visible(f, L.version);
  }

  ghost predicate AreSingleLine(L: Layout, packages: set<string>, index: Index) {
    forall n :: n in packages && n in index ==> HasSingleLineHeads(L, n, index[n])
  }

  lemma {:induction false} SingleLineStatus(L: Layout, packages: set<string>, index: Index)
    requires IsLayout(L) && IndexIsCanonical(L, index) && AreSingleLine(L, packages, index)
    ensures IsDatabaseFor(L, ParsePackages(L, Status(L, packages, index)), packages, index)
  {
    var names := Selected(packages, index);
    assert AreNamed(L, names, index) && AllSingleLine(L, names, index);
    ParseStatus(L, names, index);
    var db := Recorded(L, names, index);
    forall n ensures n in db <==> n in names {
      RecordedIsStored(L, names, index, n);
    }
    forall n | n in names ensures Attests(L, db[n], n, index[n]) {
      RecordedIsStored(L, names, index, n);
      StoredAttests(L, n, index[n]);
    }
  }

  lemma {:induction false} FaithfulStatus(L: Layout, packages: set<string>, index: Index, db: Index)
    requires IsLayout(L) && IndexIsCanonical(L, index)
    requires db == ParsePackages(L, Status(L, packages, index)) && IsDatabaseFor(L, db, packages, index)
    ensures AreSingleLine(L, packages, index)
  {
    var names := Selected(packages, index);
    assert AreNamed(L, names, index);
    forall n | n in packages && n in index ensures HasSingleLineHeads(L, n, index[n]) {
      ParseAnyStatus(L, names, index, n);
      AttestedHeadsAreSingle(L, db[n], n, index[n]);
    }
  }

  /** For any index the reader can produce, reading the printed status file gives back the database
      of the wanted packages exactly when the name, the priority, the architecture and the version of
      each of them have one line: those four are printed without folding. */
  lemma {:induction false} StatusRoundTrip(L: Layout, packages: set<string>, index: Index)
    requires IsLayout(L) && IndexIsCanonical(L, index)
    ensures IsDatabaseFor(L, ParsePackages(L, Status(L, packages, index)), packages, index) <==>
      AreSingleLine(L, packages, index)
  {
    var db := ParsePackages(L, Status(L, packages, index));
    if AreSingleLine(L, packages, index) { SingleLineStatus(L, packages, index); }
    if IsDatabaseFor(L, db, packages, index) { FaithfulStatus(L, packages, index, db); }
  }

  /** A stanza with a package name and a version folded the way the reader expects. */
  function FoldedText(L: Layout, name: string, version: string): string {
    L.package.name + ": " + name + "\n" + (L.version.name + ": " + Indent(version) + "\n" + "")
  }

  lemma {:induction false} FoldedIsRead(L: Layout, name: string, version: string)
    requires IsLayout(L) && IsPlain(name) && name != "" && IsCanonical(version)
    ensures ParsePackages(L, FoldedText(L, name, version)) == map[name := map[L.package := name, L.version := version]]
  {
    var h := Heads(L);
    assert h[0] == L.package && h[4] == L.version;
    LayoutParts(L);
    HeadsDiffer(L);
    ReadHead(L, START, L.package, name, L.version.name + ": " + Indent(version) + "\n" + "");
    ReadIndented(L, Reader(map[], map[L.package := name], Some(L.package)), L.version, version, "");
  }

  /** The reader takes a folded version whole; printed again, it is lost. */
  lemma {:induction false} FoldedVersionIsLost(L: Layout, name: string, version: string)
    requires IsLayout(L) && IsPlain(name) && name != "" && IsCanonical(version) && !IsSingleLine(version)
    ensures
      var index := ParsePackages(L, FoldedText(L, name, version));
      name in index && !IsDatabaseFor(L, ParsePackages(L, Status(L, {name}, index)), {name}, index)
  {
    var index := ParsePackages(L, FoldedText(L, name, version));
    FoldedIsRead(L, name, version);
    ParsedIsCanonical(L, FoldedText(L, name, version));
    assert Get(index[name], L.version) == version;
    StatusRoundTrip(L, {name}, index);
  }

  // --- the field names of dpkg --------------------------------------------------------------------

  const IDENTITY := [Key("Essential"), Key("Multi-Arch"), Key("Source"), Key("Provides")]

  const NEEDS := [Key("Depends"), Key("Pre-Depends"), Key("Recommends"), Key("Suggests"), Key("Conflicts")]

  const REST := [Key("Breaks"), Key("Replaces"), Key("Section"), Key("Description")]

  const DPKG := Layout(
    Key("Package"), Key("Priority"), Key("Status"), Key("Architecture"), Key("Version"), IDENTITY + (NEEDS + REST),
    "install ok installed", "arm64")

  /** Where a field name of dpkg stands in the layout, told by its length and one letter. */
  function Place(n: string): int {
    match |n|
    case 6 => if n[2] == 'a' then 2 else if n[2] == 'u' then 7 else 14
    case 7 => if n[0] == 'P' then 0 else if n[0] == 'V' then 4 else if n[0] == 'D' then 9 else 16
    case 8 => if n[2] == 'i' then 1 else if n[2] == 'o' then 8 else if n[2] == 'g' then 12 else 15
    case 9 => if n[0] == 'E' then 5 else 13
    case 10 => if n[0] == 'M' then 6 else 11
    case 11 => if n[0] == 'P' then 10 else 17
    case _ => 3
  }

  predicate IsFieldName(k: Key) {
    k.name != "" && forall i :: 0 <= i < |k.name| ==> 'A' <= k.name[i] <= 'z' || k.name[i] == '-'
  }

  lemma {:induction false} WordIsClean(k: Key)
    requires IsFieldName(k)
    ensures IsCleanKey(k)
  {
    forall i | 0 <= i < |k.name| ensures !IsBreak(k.name[i]) && k.name[i] != ':' {
    }
  }

  predicate AreWords(keys: seq<Key>, first: int) {
    forall i :: 0 <= i < |keys| ==> Place(keys[i].name) == first + i && IsFieldName(keys[i])
  }

  lemma {:induction false} WordsAreLayout(L: Layout)
    requires AreWords(Heads(L), 0) && AreWords(L.carry, 5)
    requires IsPlain(L.installed) && IsPlain(L.defaultArch)
    ensures IsLayout(L)
  {
    var keys := Heads(L) + L.carry;
    assert forall i :: 0 <= i < |keys| ==> Place(keys[i].name) == i;
    forall k | IsFieldName(k) ensures IsCleanKey(k) { WordIsClean(k); }
  }

  lemma {:induction false} WordsConcat(a: seq<Key>, b: seq<Key>, first: int)
    requires AreWords(a, first) && AreWords(b, first + |a|)
    ensures AreWords(a + b, first)
  {
  }

  lemma {:induction false} DpkgHeads()
    ensures AreWords(Heads(DPKG), 0)
  {
  }

  lemma {:induction false} DpkgIdentity()
    ensures AreWords(IDENTITY, 5)
  {
  }

  lemma {:induction false} DpkgNeeds()
    ensures AreWords(NEEDS, 9)
  {
  }

  lemma {:induction false} DpkgRest()
    ensures AreWords(REST, 14)
  {
  }

  /** The field names of dpkg form a layout: distinct words. */
  lemma {:induction false} DpkgIsLayout()
    ensures IsLayout(DPKG)
  {
    DpkgHeads();
    DpkgIdentity();
    DpkgNeeds();
    DpkgRest();
    WordsConcat(NEEDS, REST, 9);
    WordsConcat(IDENTITY, NEEDS + REST, 5);
    WordsAreLayout(DPKG);
  }

  // --- the imperative printer -----------------------------------------------------------------------

  lemma {:induction false} TextsAppend(outs: seq<Out>, o: Out)
    ensures Texts(outs + [o]) == Texts(outs) + [OutText(o)]
  {
    if outs == [] {
      assert outs + [o] == [o];
    } else {
      assert (outs + [o])[1..] == outs[1..] + [o];
      TextsAppend(outs[1..], o);
    }
  }

  method AppendOptional(
      ghost outs: seq<Out>, lines: seq<string>, f: Fields, key: Key, folded: bool)
    returns (r: seq<string>)
    requires lines == Texts(outs)
    ensures r == Texts(outs + Optional(f, key, folded))
  {
    r := lines;
    if Get(f, key) != "" {
      TextsAppend(outs, Out(key, f[key], folded));
      r := r + [if folded then RenderField(key, f[key]) else key.name + ": " + f[key]];
    } else {
      assert outs + [] == outs;
    }
  }

  method AppendLine(ghost outs: seq<Out>, lines: seq<string>, key: Key, value: string) returns (r: seq<string>)
    requires lines == Texts(outs)
    ensures r == Texts(outs + [Out(key, value, false)])
  {
    TextsAppend(outs, Out(key, value, false));
    r := lines + [key.name + ": " + value];
  }

  method HeadLines(L: Layout, name: string, f: Fields) returns (lines: seq<string>)
    ensures lines == Texts(HeadOuts(L, name, f))
  {
    lines := [L.package.name + ": " + name];
    ghost var outs := [Out(L.package, name, false)];
    lines := AppendOptional(outs, lines, f, L.priority, false);
    outs := outs + Optional(f, L.priority, false);
    lines := AppendLine(outs, lines, L.status, L.installed);
    outs := outs + [Out(L.status, L.installed, false)];
    lines := AppendLine(outs, lines, L.architecture, Arch(L, f));
    outs := outs + [Out(L.architecture, Arch(L, f), false)];
    lines := AppendOptional(outs, lines, f, L.version, false);
  }

  lemma {:induction false} CarryNext(outs: seq<Out>, f: Fields, keys: seq<Key>, i: nat)
    requires i < |keys|
    ensures outs + CarryOuts(f, keys[..i + 1]) == outs + CarryOuts(f, keys[..i]) + Optional(f, keys[i], true)
  {
    TakeNext(keys, i);
    FrontOf(keys[..i], keys[i]);
  }

  method StanzaLines(L: Layout, name: string, f: Fields) returns (lines: seq<string>)
    ensures lines == Texts(Outs(L, name, f))
  {
    lines := HeadLines(L, name, f);
    ghost var outs := HeadOuts(L, name, f);
    assert outs == outs + CarryOuts(f, L.carry[..0]);
    for i := 0 to |L.carry|
      invariant lines == Texts(outs + CarryOuts(f, L.carry[..i]))
    {
      CarryNext(outs, f, L.carry, i);
      lines := AppendOptional(outs + CarryOuts(f, L.carry[..i]), lines, f, L.carry[i], true);
    }
    TakeAll(L.carry);
  }

  ghost predicate AreStanzas(L: Layout, stanzas: seq<string>, names: seq<string>, index: Index)
    requires AreIn(names, index)
  {
    |stanzas| <= |names| && forall j :: 0 <= j < |stanzas| ==>
      stanzas[j] == StanzaText(Outs(L, names[j], index[names[j]]))
  }

  method Stanzas(L: Layout, names: seq<string>, index: Index) returns (stanzas: seq<string>)
    requires AreIn(names, index)
    ensures |stanzas| == |names| && AreStanzas(L, stanzas, names, index)
  {
    stanzas := [];
    for i := 0 to |names|
      invariant |stanzas| == i && AreStanzas(L, stanzas, names, index)
    {
      var lines := StanzaLines(L, names[i], index[names[i]]);
      stanzas := stanzas + [Join(lines, '\n')];
    }
  }

  lemma {:induction false} StatusTextStep(L: Layout, names: seq<string>, index: Index, i: nat)
    requires AreIn(names, index) && i < |names|
    ensures StatusText(L, names[..i + 1], index) ==
      StatusText(L, names[..i], index) + (StanzaText(Outs(L, names[i], index[names[i]])) + "\n\n")
  {
    TakeNext(names, i);
    assert names[..i + 1][..i] == names[..i];
  }

  method BuildStatus(L: Layout, packages: set<string>, index: Index) returns (text: string)
    ensures text == Status(L, packages, index)
  {
    var names := Selected(packages, index);
    var stanzas := Stanzas(L, names, index);
    text := "";
    for i := 0 to |stanzas|
      invariant text == StatusText(L, names[..i], index)
    {
      StatusTextStep(L, names, index, i);
      text := text + (stanzas[i] + "\n\n");
    }
    TakeAll(names);
  }
}
