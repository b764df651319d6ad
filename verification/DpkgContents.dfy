/** The Contents reader of the dpkg database builder, the file lists written from it and the count
    of base files it attributes. */
module DpkgContents {
  import opened PyText

  /** One entry of the path-to-package dict. */
  datatype Claim = Claim(path: string, package: string)

  /** A dict in insertion order. */
  type Contents = seq<Claim>

  ghost predicate IsDict(c: Contents) {
    forall i, j :: 0 <= i < j < |c| ==> c[i].path != c[j].path
  }

  /** The first package claiming a path. */
  function Find(c: seq<Claim>, path: string): Option<string> {
    if c == [] then None
    else if Find(c[..|c| - 1], path).Some? then Find(c[..|c| - 1], path)
    else if c[|c| - 1].path == path then Some(c[|c| - 1].package) else None
  }

  function SetDefault(c: Contents, claim: Claim): Contents {
    if Find(c, claim.path).Some? then c else c + [claim]
  }

  // --- one line ------------------------------------------------------------------------------

  /** The package of the first entry of a package column. */
  function PackageOf(column: string): string {
    var first := Strip(column[..CharAt(column, ',')]);
    Strip(first[RFind(first, '/') + 1..])
  }

  function ParseColumns(path: string, column: string): Option<Claim> {
    if path == "" || column == "" || '/' !in column || PackageOf(column) == "" then None
    else Some(Claim(LStripChar(path, '/'), PackageOf(column)))
  }

  function ParseLine(line: string): Option<Claim> {
    if Strip(line) == "" then None
    else
      var i := RFind(line, ' ');
      if i < 0 then None else ParseColumns(RStrip(line[..i]), Strip(line[i + 1..]))
  }

  function ParseLines(lines: seq<string>): seq<Option<Claim>> {
    if lines == [] then [] else ParseLines(lines[..|lines| - 1]) + [ParseLine(lines[|lines| - 1])]
  }

  /** The claims in order, each path's first one kept. */
  function Merge(claims: seq<Option<Claim>>): Contents {
    if claims == [] then []
    else
      var c, last := Merge(claims[..|claims| - 1]), claims[|claims| - 1];
      if last.Some? then SetDefault(c, last.value) else c
  }

  /** `parse_contents`. */
  function Parsed(text: string): Contents {
    Merge(ParseLines(SplitLines(text)))
  }

  lemma {:induction false} FindNone(c: seq<Claim>, path: string)
    ensures Find(c, path).None? <==> forall i :: 0 <= i < |c| ==> c[i].path != path
  {
    if c != [] {
      FindNone(c[..|c| - 1], path);
      assert forall i :: 0 <= i < |c| - 1 ==> c[i] == c[..|c| - 1][i];
    }
  }

  lemma {:induction false} SetDefaultKeepsDict(c: Contents, claim: Claim)
    requires IsDict(c)
    ensures IsDict(SetDefault(c, claim))
  {
    FindNone(c, claim.path);
  }

  lemma {:induction false} MergeIsDict(claims: seq<Option<Claim>>)
    ensures IsDict(Merge(claims))
  {
    if claims != [] {
      MergeIsDict(claims[..|claims| - 1]);
      var last := claims[|claims| - 1];
      if last.Some? { SetDefaultKeepsDict(Merge(claims[..|claims| - 1]), last.value); }
    }
  }

  lemma {:induction false} ParseLinesStep(lines: seq<string>, k: nat)
    requires k < |lines|
    ensures ParseLines(lines[..k + 1]) == ParseLines(lines[..k]) + [ParseLine(lines[k])]
  {
    TakeNext(lines, k);
    FrontOf(lines[..k], lines[k]);
  }

  method ParseContents(text: string) returns (mapping: Contents)
    ensures mapping == Parsed(text)
  {
    var lines := SplitLines(text);
    mapping := [];
    for k := 0 to |lines|
      invariant mapping == Merge(ParseLines(lines[..k]))
    {
      ParseLinesStep(lines, k);
      FrontOf(ParseLines(lines[..k]), ParseLine(lines[k]));
      var claim := ParseLine(lines[k]);
      if claim.Some? && Find(mapping, claim.value.path).None? {
        mapping := mapping + [claim.value];
      }
    }
    TakeAll(lines);
  }

  // --- a printed index is read back ------------------------------------------------------------

  /** A path as Contents lists it: bare of the root's `/`; it may hold blanks, even in front. */
  ghost predicate IsPath(p: string) {
    p != "" && p[0] != '/' && !IsSpace(p[|p| - 1]) && IsBreakFree(p)
  }

  predicate IsToken(s: string) {
    s != "" && forall i :: 0 <= i < |s| ==> !IsSpace(s[i]) && s[i] != ','
  }

  /** One `area/package` entry; the area may have several parts. */
  datatype Home = Home(area: string, package: string)

  predicate IsHome(h: Home) {
    IsToken(h.area) && IsToken(h.package) && '/' !in h.package
  }

  predicate AreHomes(homes: seq<Home>) {
    homes != [] && forall i :: 0 <= i < |homes| ==> IsHome(homes[i])
  }

  function HomeText(h: Home): string {
    h.area + "/" + h.package
  }

  function HomeTexts(homes: seq<Home>): seq<string> {
    if homes == [] then [] else [HomeText(homes[0])] + HomeTexts(homes[1..])
  }

  function Column(homes: seq<Home>): string {
    Join(HomeTexts(homes), ',')
  }

  /** White space on one line: blanks, tabs and the like. */
  predicate IsGap(s: string) {
    s != "" && forall i :: 0 <= i < |s| ==> IsSpace(s[i]) && !IsBreak(s[i])
  }

  /** A line of an index: a note without a `/`, or a path and its packages. */
  datatype Item = Note(text: string) | Entry(path: string, gap: string, homes: seq<Home>)

  ghost predicate IsItem(item: Item) {
    match item
    case Note(text) => IsBreakFree(text) && '/' !in text
    case Entry(path, gap, homes) => IsPath(path) && IsGap(gap) && ' ' in gap && AreHomes(homes)
  }

  function ItemText(item: Item): string {
    match item
    case Note(text) => text
    case Entry(path, gap, homes) => path + gap + Column(homes)
  }

  function ItemTexts(items: seq<Item>): seq<string> {
    if items == [] then [] else ItemTexts(items[..|items| - 1]) + [ItemText(items[|items| - 1])]
  }

  /** What a line of the index says. */
  ghost function ItemClaim(item: Item): Option<Claim>
    requires IsItem(item)
  {
    if item.Entry? then Some(Claim(item.path, item.homes[0].package)) else None
  }

  /** The package of the first line for a path: what reading the index should give. */
  ghost function Owner(items: seq<Item>, path: string): Option<string>
    requires AreItems(items)
  {
    if items == [] then None
    else if items[0].Entry? && items[0].path == path then Some(items[0].homes[0].package)
    else Owner(items[1..], path)
  }

  ghost predicate AreItems(items: seq<Item>) {
    forall i :: 0 <= i < |items| ==> IsItem(items[i])
  }

  // --- columns ---------------------------------------------------------------------------------

  /** No blank and no line boundary anywhere. */
  predicate IsSolid(s: string) {
    forall i :: 0 <= i < |s| ==> !IsSpace(s[i])
  }

  lemma {:induction false} SolidIsBreakFree(s: string)
    requires IsSolid(s)
    ensures IsBreakFree(s)
  {
    forall i | 0 <= i < |s| ensures !IsBreak(s[i]) { assert !IsSpace(s[i]); }
  }

  lemma {:induction false} SolidHasNoBlank(s: string)
    requires IsSolid(s)
    ensures ' ' !in s
  {
    assert IsSpace(' ');
  }

  lemma {:induction false} SolidIsStripped(s: string)
    requires IsSolid(s)
    ensures Strip(s) == s && ' ' !in s && IsBreakFree(s)
  {
    SolidIsBreakFree(s);
    SolidHasNoBlank(s);
    StripIsStripped(s);
  }

  lemma {:induction false} HomeTextIsSolid(h: Home)
    requires IsHome(h)
    ensures IsSolid(HomeText(h)) && ',' !in HomeText(h)
    ensures RFind(HomeText(h), '/') == |h.area| && HomeText(h)[|h.area| + 1..] == h.package
  {
    var t := HomeText(h);
    assert !IsSpace('/');
    forall i | 0 <= i < |t| ensures !IsSpace(t[i]) && t[i] != ',' {
      if i < |h.area| { assert t[i] == h.area[i]; } else if i > |h.area| { assert t[i] == h.package[i - |h.area| - 1]; }
    }
    forall j | |h.area| < j < |t| ensures t[j] != '/' { assert t[j] == h.package[j - |h.area| - 1]; }
    RFindAt(t, '/', |h.area|);
  }

  lemma {:induction false} ColumnStep(homes: seq<Home>)
    requires homes != []
    ensures |homes| == 1 ==> Column(homes) == HomeText(homes[0])
    ensures |homes| > 1 ==> Column(homes) == HomeText(homes[0]) + [','] + Column(homes[1..])
  {
    var texts := HomeTexts(homes);
    assert texts[1..] == HomeTexts(homes[1..]);
  }

  lemma {:induction false} SolidConcat(a: string, b: string)
    requires IsSolid(a) && IsSolid(b)
    ensures IsSolid(a + [','] + b)
  {
    assert !IsSpace(',');
  }

  lemma {:induction false} ColumnIsSolid(homes: seq<Home>)
    requires AreHomes(homes)
    ensures IsSolid(Column(homes))
  {
    ColumnStep(homes);
    HomeTextIsSolid(homes[0]);
    if |homes| > 1 {
      ColumnIsSolid(homes[1..]);
      SolidConcat(HomeText(homes[0]), Column(homes[1..]));
    }
  }

  /** A column starts with its first entry. */
  lemma {:induction false} ColumnParts(homes: seq<Home>)
    requires AreHomes(homes)
    ensures CharAt(Column(homes), ',') == |HomeText(homes[0])|
    ensures Column(homes)[..|HomeText(homes[0])|] == HomeText(homes[0])
  {
    ColumnStep(homes);
    var first := HomeText(homes[0]);
    HomeTextIsSolid(homes[0]);
    if |homes| == 1 {
      CharAtAbsent(first, ',');
    } else {
      CharAtPresent(first, ',', Column(homes[1..]));
    }
  }

  lemma {:induction false} ColumnHasSlash(homes: seq<Home>)
    requires AreHomes(homes)
    ensures '/' in Column(homes)
  {
    ColumnStep(homes);
    assert HomeText(homes[0])[|homes[0].area|] == '/';
    assert Column(homes)[|homes[0].area|] == '/';
  }

  lemma {:induction false} ColumnNames(homes: seq<Home>)
    requires AreHomes(homes)
    ensures PackageOf(Column(homes)) == homes[0].package
  {
    ColumnParts(homes);
    HomeTextIsSolid(homes[0]);
    SolidIsStripped(HomeText(homes[0]));
    SolidIsStripped(homes[0].package);
  }

  // --- lines -------------------------------------------------------------------------------------

  lemma {:induction false} TailLacks(s: string, i: nat, c: char)
    requires i <= |s| && c !in s
    ensures c !in Strip(s[i..])
  {
    StripIsStripped(s[i..]);
  }

  lemma {:induction false} NoteIsSkipped(text: string)
    requires '/' !in text
    ensures ParseLine(text).None?
  {
    TailLacks(text, RFind(text, ' ') + 1, '/');
  }

  ghost predicate IsColumn(column: string) {
    column != "" && IsStripped(column)
  }

  /** `line` is a path, white space and a column, told by position. */
  ghost predicate IsLine(line: string, path: string, gap: string, column: string) {
    && |line| == |path| + |gap| + |column|
    && (forall j :: 0 <= j < |path| ==> line[j] == path[j])
    && (forall j :: |path| <= j < |path| + |gap| ==> line[j] == gap[j - |path|])
    && (forall j :: |path| + |gap| <= j < |line| ==> line[j] == column[j - |path| - |gap|])
  }

  lemma {:induction false} ConcatIsLine(path: string, gap: string, column: string)
    ensures IsLine(path + gap + column, path, gap, column)
  {
  }

  /** Without a blank in the column the last blank of the line is that of the gap. */
  lemma {:induction false} LastBlankOfGap(line: string, path: string, gap: string, column: string)
    requires IsLine(line, path, gap, column) && ' ' in gap && ' ' !in column
    ensures RFind(line, ' ') == |path| + RFind(gap, ' ')
  {
    var k := RFind(gap, ' ');
    assert k >= 0 && line[|path| + k] == gap[k];
    forall j | |path| + k < j < |line| ensures line[j] != ' ' {
      if j < |path| + |gap| {
        assert line[j] == gap[j - |path|];
      } else {
        assert line[j] == column[j - |path| - |gap|];
      }
    }
    RFindAt(line, ' ', |path| + k);
  }

  lemma {:induction false} LastBlankOfColumn(line: string, path: string, gap: string, column: string)
    requires IsLine(line, path, gap, column) && IsColumn(column) && ' ' in column
    ensures RFind(line, ' ') > |path| + |gap|
  {
    var j :| 0 <= j < |column| && column[j] == ' ';
    assert IsSpace(' ');
    assert line[|path| + |gap| + j] == column[j];
  }

  /** Without one in the gap either, a blank can only be inside the path. */
  lemma {:induction false} LastBlankOfPath(line: string, path: string, gap: string, column: string)
    requires IsLine(line, path, gap, column) && ' ' !in gap && ' ' !in column
    ensures RFind(line, ' ') < |path|
  {
    forall j | |path| <= j < |line| ensures line[j] != ' ' {
      if j < |path| + |gap| {
        assert line[j] == gap[j - |path|];
      } else {
        assert line[j] == column[j - |path| - |gap|];
      }
    }
  }

  lemma {:induction false} LineIsVisible(line: string, path: string, gap: string, column: string)
    requires IsLine(line, path, gap, column) && IsPath(path)
    ensures Strip(line) != ""
  {
    assert line[|path| - 1] == path[|path| - 1];
    NonBlankStrip(line, |path| - 1);
  }

  lemma {:induction false} StripBehindPath(path: string, space: string)
    requires IsPath(path) && forall i :: 0 <= i < |space| ==> IsSpace(space[i])
    ensures RStrip(path + space) == path
  {
    var s := path + space;
    assert s[|path| - 1] == path[|path| - 1];
    RStripIs(s, |path|);
    assert s[..|path|] == path;
  }

  lemma {:induction false} PathIsBare(path: string)
    requires IsPath(path)
    ensures LStripChar(path, '/') == path
  {
  }

  lemma {:induction false} LStripIs(s: string, n: nat)
    requires n < |s| && !IsSpace(s[n]) && forall i :: 0 <= i < n ==> IsSpace(s[i])
    ensures LStrip(s) == s[n..]
  {
    var r := LStrip(s);
    assert |r| > 0 ==> r[0] == s[|s| - |r|];
  }

  lemma {:induction false} StripBeforeColumn(space: string, column: string)
    requires IsColumn(column) && forall i :: 0 <= i < |space| ==> IsSpace(space[i])
    ensures Strip(space + column) == column
  {
    LStripBefore(space, column);
    StripIsStripped(column);
    LStripIs(column, 0);
  }

  lemma {:induction false} LStripBefore(space: string, column: string)
    requires IsColumn(column) && forall i :: 0 <= i < |space| ==> IsSpace(space[i])
    ensures LStrip(space + column) == column
  {
    var s := space + column;
    assert s[|space|] == column[0];
    LStripIs(s, |space|);
    assert s[|space|..] == column;
  }

  lemma {:induction false} BlankOfLine(path: string, gap: string, column: string)
    requires IsPath(path) && ' ' in gap && ' ' !in column
    ensures Strip(path + gap + column) != "" && RFind(path + gap + column, ' ') == |path| + RFind(gap, ' ')
  {
    var line := path + gap + column;
    ConcatIsLine(path, gap, column);
    LineIsVisible(line, path, gap, column);
    LastBlankOfGap(line, path, gap, column);
  }

  lemma {:induction false} ColumnsAround(line: string, path: string, gap: string, column: string, k: nat, i: nat)
    requires line == path + gap + column && i == |path| + k
    requires IsPath(path) && IsGap(gap) && k < |gap| && IsColumn(column)
    ensures i < |line| && RStrip(line[..i]) == path && Strip(line[i + 1..]) == column
  {
    assert line[..i] == path + gap[..k] && line[i + 1..] == gap[k + 1..] + column;
    StripBehindPath(path, gap[..k]);
    StripBeforeColumn(gap[k + 1..], column);
  }

  ghost predicate IsCut(line: string, i: nat, path: string, column: string) {
    && i < |line| && Strip(line) != "" && RFind(line, ' ') == i
    && RStrip(line[..i]) == path && Strip(line[i + 1..]) == column
  }

  lemma {:induction false} ParseLineAt(line: string, i: nat, path: string, column: string)
    requires IsCut(line, i, path, column)
    ensures ParseLine(line) == ParseColumns(path, column)
  {
  }

  lemma {:induction false} LineParts(path: string, gap: string, column: string) returns (i: nat)
    requires IsPath(path) && IsGap(gap) && ' ' in gap && IsColumn(column) && ' ' !in column
    ensures IsCut(path + gap + column, i, path, column)
  {
    var k := RFind(gap, ' ');
    i := |path| + k;
    BlankOfLine(path, gap, column);
    ColumnsAround(path + gap + column, path, gap, column, k, i);
  }

  lemma {:induction false} SolidColumnIsRead(path: string, gap: string, column: string)
    requires IsPath(path) && IsGap(gap) && ' ' in gap && IsColumn(column) && ' ' !in column
    ensures ParseLine(path + gap + column) == ParseColumns(path, column)
  {
    var i := LineParts(path, gap, column);
    ParseLineAt(path + gap + column, i, path, column);
  }

  lemma {:induction false} RStripKeeps(s: string, k: nat)
    requires k < |s| && !IsSpace(s[k])
    ensures |RStrip(s)| > k
  {
  }

  lemma {:induction false} LongerLeft(path: string, left: string, k: nat)
    requires IsPath(path) && |path| <= k < |left| && !IsSpace(left[k]) && left[0] == path[0]
    ensures |LStripChar(RStrip(left), '/')| > |path|
  {
    RStripKeeps(left, k);
  }

  lemma {:induction false} LineAt(path: string, gap: string, column: string, i: nat)
    requires path != "" && column != "" && |path| + |gap| < i < |path + gap + column|
    ensures
      var left := (path + gap + column)[..i];
      left[0] == path[0] && left[|path| + |gap|] == column[0]
  {
  }

  lemma {:induction false} BlankInColumnIsLost(path: string, gap: string, column: string)
    requires IsPath(path) && IsColumn(column) && ' ' in column
    ensures var claim := ParseLine(path + gap + column); claim.Some? ==> |claim.value.path| > |path|
  {
    var line := path + gap + column;
    ConcatIsLine(path, gap, column);
    LastBlankOfColumn(line, path, gap, column);
    var i := RFind(line, ' ');
    LineAt(path, gap, column, i);
    LongerLeft(path, line[..i], |path| + |gap|);
  }

  lemma {:induction false} NoBlankIsLost(path: string, gap: string, column: string)
    requires ' ' !in gap && ' ' !in column
    ensures var claim := ParseLine(path + gap + column); claim.Some? ==> |claim.value.path| < |path|
  {
    ConcatIsLine(path, gap, column);
    LastBlankOfPath(path + gap + column, path, gap, column);
  }

  /** A line's path is recovered exactly when the white space behind it holds a blank, and its package
      column holds none and names an area and a package. */
  lemma {:induction false} PathIsRecoveredIff(path: string, gap: string, column: string)
    requires IsPath(path) && IsGap(gap) && IsColumn(column)
    ensures
      var claim := ParseLine(path + gap + column);
      claim.Some? && claim.value.path == path <==>
        ' ' in gap && ' ' !in column && '/' in column && PackageOf(column) != ""
  {
    if ' ' in column {
      BlankInColumnIsLost(path, gap, column);
    } else if ' ' in gap {
      SolidColumnIsRead(path, gap, column);
      PathIsBare(path);
    } else {
      NoBlankIsLost(path, gap, column);
    }
  }

  /** A line without any blank is skipped, whatever other white space separates its columns. */
  lemma {:induction false} TabLineIsSkipped(path: string, gap: string, column: string)
    requires ' ' !in path && ' ' !in gap && ' ' !in column
    ensures ParseLine(path + gap + column).None?
  {
    var line := path + gap + column;
    ConcatIsLine(path, gap, column);
    LastBlankOfPath(line, path, gap, column);
    forall j | 0 <= j < |path| ensures line[j] != ' ' { assert line[j] == path[j]; }
  }

  lemma {:induction false} ColumnsAreRead(path: string, homes: seq<Home>)
    requires IsPath(path) && AreHomes(homes)
    ensures ParseColumns(path, Column(homes)) == Some(Claim(path, homes[0].package))
  {
    ColumnHasSlash(homes);
    ColumnNames(homes);
    PathIsBare(path);
  }

  lemma {:induction false} ColumnIsColumn(homes: seq<Home>)
    requires AreHomes(homes)
    ensures IsColumn(Column(homes)) && ' ' !in Column(homes)
  {
    ColumnIsSolid(homes);
    ColumnHasSlash(homes);
    SolidIsStripped(Column(homes));
    StripIsStripped(Column(homes));
  }

  lemma {:induction false} EntryIsRead(path: string, gap: string, homes: seq<Home>)
    requires IsPath(path) && IsGap(gap) && ' ' in gap && AreHomes(homes)
    ensures ParseLine(path + gap + Column(homes)) == Some(Claim(path, homes[0].package))
  {
    ColumnIsColumn(homes);
    ColumnsAreRead(path, homes);
    SolidColumnIsRead(path, gap, Column(homes));
  }

  lemma {:induction false} OddPath(path: string, gap: string, a: Home)
    requires IsPath(path) && IsGap(gap) && IsHome(a)
    ensures IsPath(path + gap + HomeText(a) + ",")
  {
    var odd := path + gap + HomeText(a) + ",";
    HomeTextIsSolid(a);
    SolidIsStripped(HomeText(a));
    assert odd[0] == path[0] && !IsSpace(',') && !IsBreak(',');
  }

  lemma {:induction false} ColumnOfOne(h: Home)
    ensures Column([h]) == HomeText(h)
  {
    assert HomeTexts([h]) == [HomeText(h)];
  }

  /** With white space that holds a blank behind the comma, the line names a path that does not exist and
      the last package. */
  lemma {:induction false} BlankSeparatorMisreads(path: string, gap: string, a: Home, more: string, b: Home)
    requires IsPath(path) && IsGap(gap) && IsHome(a) && IsGap(more) && ' ' in more && IsHome(b)
    ensures ParseLine(path + gap + HomeText(a) + "," + more + HomeText(b)) ==
      Some(Claim(path + gap + HomeText(a) + ",", b.package))
  {
    OddPath(path, gap, a);
    EntryIsRead(path + gap + HomeText(a) + ",", more, [b]);
    ColumnOfOne(b);
  }

  lemma {:induction false} CharAtShift(front: string, a: string, c: char)
    requires c !in front
    ensures CharAt(front + a, c) == |front| + CharAt(a, c)
  {
    if front == "" {
      assert front + a == a;
    } else {
      assert (front + a)[1..] == front[1..] + a;
      CharAtShift(front[1..], a, c);
    }
  }

  lemma {:induction false} PackageIs(column: string, first: string, package: string)
    requires column[..CharAt(column, ',')] == first && IsStripped(first)
    requires first[RFind(first, '/') + 1..] == package && IsStripped(package)
    ensures PackageOf(column) == package
  {
    StripIsStripped(first);
    StripIsStripped(package);
  }

  /** `whole` is `text` behind `front`. */
  lemma {:induction false} PartsBehind(whole: string, front: string, text: string, k: nat, n: nat)
    requires whole == front + text && k <= |text| && n == |front| + k
    ensures n <= |whole| && whole[..n] == front + text[..k] && whole[n..] == text[k..]
  {
  }

  lemma {:induction false} EndsBehind(whole: string, front: string, text: string)
    requires whole == front + text && front != "" && !IsSpace(front[0]) && text != "" && !IsSpace(text[|text| - 1])
    ensures whole != "" && IsStripped(whole)
  {
  }

  lemma {:induction false} HomeBehind(first: string, front: string, h: Home)
    requires first == front + HomeText(h) && front != "" && !IsSpace(front[0]) && IsHome(h)
    ensures IsStripped(first) && first[RFind(first, '/') + 1..] == h.package
  {
    var text := HomeText(h);
    HomeTextIsSolid(h);
    EndsBehind(first, front, text);
    RFindShift(front, text, '/');
    PartsBehind(first, front, text, |h.area| + 1, RFind(first, '/') + 1);
  }

  lemma {:induction false} PackageBehind(column: string, front: string, homes: seq<Home>)
    requires column == front + Column(homes) && AreHomes(homes)
    requires front != "" && !IsSpace(front[0]) && ',' !in front
    ensures PackageOf(column) == homes[0].package
  {
    var text := HomeText(homes[0]);
    ColumnParts(homes);
    CharAtShift(front, Column(homes), ',');
    PartsBehind(column, front, Column(homes), |text|, CharAt(column, ','));
    HomeBehind(front + text, front, homes[0]);
    SolidIsStripped(homes[0].package);
    StripIsStripped(homes[0].package);
    PackageIs(column, front + text, homes[0].package);
  }

  /** What stands in front of a column when a tab and not a blank separates it from the path. */
  ghost predicate IsTabbed(front: string) {
    && front != "" && !IsSpace(front[0])
    && forall i :: 0 <= i < |front| ==> front[i] != ' ' && front[i] != ',' && !IsBreak(front[i])
  }

  lemma {:induction false} TabbedColumn(column: string, front: string, homes: seq<Home>)
    requires column == front + Column(homes) && IsTabbed(front) && AreHomes(homes)
    ensures IsColumn(column) && ' ' !in column && '/' in column && PackageOf(column) == homes[0].package
  {
    ColumnIsColumn(homes);
    ColumnHasSlash(homes);
    EndsBehind(column, front, Column(homes));
    PackageBehind(column, front, homes);
  }

  lemma {:induction false} ColumnIsRead(path: string, gap: string, column: string, package: string)
    requires IsPath(path) && IsGap(gap) && ' ' in gap && IsColumn(column) && ' ' !in column
    requires '/' in column && PackageOf(column) == package && package != ""
    ensures ParseLine(path + gap + column) == Some(Claim(path, package))
  {
    SolidColumnIsRead(path, gap, column);
    PathIsBare(path);
  }

  /** Where the last white space with a blank is inside the path and not behind it, the line names the part
      of the path in front of it. */
  lemma {:induction false} TabSeparatorMisreads(path: string, gap: string, front: string, homes: seq<Home>)
    requires IsPath(path) && IsGap(gap) && ' ' in gap && IsTabbed(front) && AreHomes(homes)
    ensures ParseLine(path + gap + (front + Column(homes))) == Some(Claim(path, homes[0].package))
  {
    TabbedColumn(front + Column(homes), front, homes);
    ColumnIsRead(path, gap, front + Column(homes), homes[0].package);
  }

  // --- the whole index -----------------------------------------------------------------------------

  lemma {:induction false} ItemIsRead(item: Item)
    requires IsItem(item)
    ensures ParseLine(ItemText(item)) == ItemClaim(item)
  {
    match item {
      case Note(text) => NoteIsSkipped(text);
      case Entry(path, gap, homes) => EntryIsRead(path, gap, homes);
    }
  }

  lemma {:induction false} BreakFreeConcat(a: string, b: string)
    requires IsBreakFree(a) && IsBreakFree(b)
    ensures IsBreakFree(a + b)
  {
  }

  lemma {:induction false} ItemIsBreakFree(item: Item)
    requires IsItem(item)
    ensures IsBreakFree(ItemText(item))
  {
    if item.Entry? {
      var column := Column(item.homes);
      ColumnIsSolid(item.homes);
      SolidIsStripped(column);
      BreakFreeConcat(item.path, item.gap);
      BreakFreeConcat(item.path + item.gap, column);
    }
  }

  lemma {:induction false} ItemsAreBreakFree(items: seq<Item>)
    requires AreItems(items)
    ensures AreBreakFree(ItemTexts(items)) && |ItemTexts(items)| == |items|
  {
    if items != [] {
      ItemsAreBreakFree(items[..|items| - 1]);
      ItemIsBreakFree(items[|items| - 1]);
    }
  }

  /** The first claim on a path. */
  function FirstClaim(claims: seq<Option<Claim>>, path: string): Option<string> {
    if claims == [] then None
    else if FirstClaim(claims[..|claims| - 1], path).Some? then FirstClaim(claims[..|claims| - 1], path)
    else
      var last := claims[|claims| - 1];
      if last.Some? && last.value.path == path then Some(last.value.package) else None
  }

  lemma {:induction false} FindOfSetDefault(c: Contents, claim: Claim, path: string)
    ensures Find(SetDefault(c, claim), path) ==
      if Find(c, path).Some? then Find(c, path) else if claim.path == path then Some(claim.package) else None
  {
    FrontOf(c, claim);
  }

  lemma {:induction false} MergeKeepsFirst(claims: seq<Option<Claim>>, path: string)
    ensures Find(Merge(claims), path) == FirstClaim(claims, path)
  {
    if claims != [] {
      var front, last := claims[..|claims| - 1], claims[|claims| - 1];
      MergeKeepsFirst(front, path);
      if last.Some? { FindOfSetDefault(Merge(front), last.value, path); }
    }
  }

  ghost function ItemClaims(items: seq<Item>): seq<Option<Claim>>
    requires AreItems(items)
  {
    if items == [] then [] else ItemClaims(items[..|items| - 1]) + [ItemClaim(items[|items| - 1])]
  }

  lemma {:induction false} ItemsAreRead(items: seq<Item>)
    requires AreItems(items)
    ensures ParseLines(ItemTexts(items)) == ItemClaims(items)
  {
    if items != [] {
      var front, last := items[..|items| - 1], items[|items| - 1];
      ItemsAreRead(front);
      ItemIsRead(last);
      FrontOf(ItemTexts(front), ItemText(last));
    }
  }

  lemma {:induction false} OwnerAppend(items: seq<Item>, last: Item, path: string)
    requires AreItems(items) && IsItem(last)
    ensures Owner(items + [last], path) ==
      if Owner(items, path).Some? then Owner(items, path)
      else if last.Entry? && last.path == path then Some(last.homes[0].package) else None
  {
    if items == [] {
      assert items + [last] == [last];
    } else {
      assert (items + [last])[1..] == items[1..] + [last];
      OwnerAppend(items[1..], last, path);
    }
  }

  lemma {:induction false} OwnerIsFirstClaim(items: seq<Item>, path: string)
    requires AreItems(items)
    ensures FirstClaim(ItemClaims(items), path) == Owner(items, path)
  {
    if items != [] {
      var front, last := items[..|items| - 1], items[|items| - 1];
      OwnerIsFirstClaim(front, path);
      FrontOf(ItemClaims(front), ItemClaim(last));
      OwnerAppend(front, last, path);
      assert items == front + [last];
    }
  }

  /** Reading a printed index gives each path the first package of its first line, notes between the
      lines and blanks inside the paths included. */
  lemma {:induction false} ContentsRoundTrip(items: seq<Item>, path: string)
    requires AreItems(items)
    ensures Find(Parsed(Unlines(ItemTexts(items))), path) == Owner(items, path)
  {
    ItemsAreBreakFree(items);
    SplitUnlines(ItemTexts(items));
    ItemsAreRead(items);
    MergeKeepsFirst(ItemClaims(items), path);
    OwnerIsFirstClaim(items, path);
  }

  // --- what the reader can return ----------------------------------------------------------------

  /** A path without the root's `/`, on one line. */
  ghost predicate IsBare(p: string) {
    IsBreakFree(p) && (p != "" ==> p[0] != '/')
  }

  ghost predicate IsBareClaim(claim: Claim) {
    IsBare(claim.path) && claim.package != ""
  }

  ghost predicate AreBare(c: seq<Claim>) {
    forall i :: 0 <= i < |c| ==> IsBareClaim(c[i])
  }

  lemma {:induction false} LStripCharKeepsBreakFree(path: string)
    requires IsBreakFree(path)
    ensures IsBare(LStripChar(path, '/'))
  {
    var bare := LStripChar(path, '/');
    forall i | 0 <= i < |bare| ensures !IsBreak(bare[i]) {
      assert bare[i] == path[i + (|path| - |bare|)];
    }
  }

  lemma {:induction false} ColumnsAreBare(path: string, column: string)
    requires IsBreakFree(path) && ParseColumns(path, column).Some?
    ensures IsBareClaim(ParseColumns(path, column).value)
  {
    LStripCharKeepsBreakFree(path);
  }

  lemma {:induction false} LeftIsBreakFree(line: string, i: nat)
    requires IsBreakFree(line) && i < |line|
    ensures IsBreakFree(RStrip(line[..i]))
  {
    assert IsBreakFree(line[..i]);
  }

  lemma {:induction false} LineIsBare(line: string)
    requires IsBreakFree(line) && ParseLine(line).Some?
    ensures IsBareClaim(ParseLine(line).value)
  {
    var i := RFind(line, ' ');
    LeftIsBreakFree(line, i);
    ColumnsAreBare(RStrip(line[..i]), Strip(line[i + 1..]));
  }

  ghost predicate IsBareOption(o: Option<Claim>) {
    o.Some? ==> IsBareClaim(o.value)
  }

  ghost predicate AreBareClaims(claims: seq<Option<Claim>>) {
    forall i :: 0 <= i < |claims| ==> IsBareOption(claims[i])
  }

  lemma {:induction false} BareAppend(claims: seq<Option<Claim>>, o: Option<Claim>)
    requires AreBareClaims(claims) && IsBareOption(o)
    ensures AreBareClaims(claims + [o])
  {
  }

  lemma {:induction false} LinesAreBare(lines: seq<string>)
    requires AreBreakFree(lines)
    ensures AreBareClaims(ParseLines(lines))
  {
    if lines != [] {
      var claim := ParseLine(lines[|lines| - 1]);
      LinesAreBare(lines[..|lines| - 1]);
      if claim.Some? { LineIsBare(lines[|lines| - 1]); }
      BareAppend(ParseLines(lines[..|lines| - 1]), claim);
    }
  }

  lemma {:induction false} MergeIsBare(claims: seq<Option<Claim>>)
    requires AreBareClaims(claims)
    ensures AreBare(Merge(claims))
  {
    if claims != [] {
      MergeIsBare(claims[..|claims| - 1]);
    }
  }

  /** Whatever the text, the reader returns a dict of bare paths with named packages. */
  lemma {:induction false} ParsedIsBareDict(text: string)
    ensures IsDict(Parsed(text)) && AreBare(Parsed(text))
  {
    SplitLinesAreBreakFree(text);
    LinesAreBare(SplitLines(text));
    MergeIsBare(ParseLines(SplitLines(text)));
    MergeIsDict(ParseLines(SplitLines(text)));
  }

  // --- the file list of each package ---------------------------------------------------------------

  /** The listed form of a path. */
  function Rooted(path: string): string {
    "/" + LStripChar(path, '/')
  }

  /** The paths of one package, in dict order. */
  function PathsOf(c: Contents, package: string): seq<string> {
    if c == [] then []
    else
      var last := c[|c| - 1];
      PathsOf(c[..|c| - 1], package) + (if last.package == package then [Rooted(last.path)] else [])
  }

  function ListBody(c: Contents, package: string): string {
    Unlines(Sort(PathsOf(c, package)))
  }

  method BuildInfoLists(packages: seq<string>, contents: Contents) returns (out: map<string, string>)
    ensures out.Keys == Elements(packages)
    ensures forall name :: name in packages ==> out[name] == ListBody(contents, name)
  {
    var byPackage: map<string, seq<string>> := map name | name in packages :: [];
    for i := 0 to |contents|
      invariant byPackage.Keys == Elements(packages)
      invariant forall name :: name in packages ==> byPackage[name] == PathsOf(contents[..i], name)
    {
      var claim := contents[i];
      TakeNext(contents, i);
      FrontOf(contents[..i], claim);
      if claim.package in byPackage {
        byPackage := byPackage[claim.package := byPackage[claim.package] + [Rooted(claim.path)]];
      }
    }
    TakeAll(contents);
    out := map name | name in byPackage :: Unlines(Sort(byPackage[name]));
  }

  lemma {:induction false} BareIsRooted(path: string)
    requires IsBare(path)
    ensures Rooted(path) == "/" + path && IsBreakFree(Rooted(path))
  {
    assert !IsBreak('/');
  }

  lemma {:induction false} RootedDiffer(a: string, b: string)
    requires a != b
    ensures "/" + a != "/" + b
  {
    assert ("/" + a)[1..] == a && ("/" + b)[1..] == b;
  }

  /** How often a package's paths name one path: once for its own claim, never for another's. */
  lemma {:induction false} PathsCount(c: Contents, package: string, path: string)
    requires IsDict(c) && AreBare(c) && IsBare(path)
    ensures multiset(PathsOf(c, package))[Rooted(path)] ==
      if Find(c, path) == Some(package) then 1 else 0
  {
    if c != [] {
      var front, last := c[..|c| - 1], c[|c| - 1];
      PathsCount(front, package, path);
      BareIsRooted(path);
      BareIsRooted(last.path);
      FindNone(front, path);
      if last.path == path {
        assert forall i :: 0 <= i < |front| ==> front[i] == c[i];
        assert Find(front, path).None?;
      } else {
        RootedDiffer(last.path, path);
      }
    }
  }

  lemma {:induction false} BreakFreeAppend(lines: seq<string>, line: string)
    requires AreBreakFree(lines) && IsBreakFree(line)
    ensures AreBreakFree(lines + [line])
  {
  }

  lemma {:induction false} LastIsBare(c: Contents)
    requires c != [] && AreBare(c)
    ensures AreBare(c[..|c| - 1]) && IsBreakFree(Rooted(c[|c| - 1].path))
  {
    assert IsBareClaim(c[|c| - 1]);
    BareIsRooted(c[|c| - 1].path);
  }

  lemma {:induction false} PathsAreBreakFree(c: Contents, package: string)
    requires AreBare(c)
    ensures AreBreakFree(PathsOf(c, package))
  {
    if c != [] {
      var front, line := PathsOf(c[..|c| - 1], package), Rooted(c[|c| - 1].path);
      LastIsBare(c);
      PathsAreBreakFree(c[..|c| - 1], package);
      BreakFreeAppend(front, line);
      assert PathsOf(c, package) == (if c[|c| - 1].package == package then front + [line] else front);
    }
  }

  lemma {:induction false} SortKeepsBreakFree(lines: seq<string>)
    requires AreBreakFree(lines)
    ensures AreBreakFree(Sort(lines))
  {
    SortKeepsMembers(lines);
    var r := Sort(lines);
    forall i | 0 <= i < |r| ensures IsBreakFree(r[i]) { assert r[i] in lines; }
  }

  /** For every dict the reader returns, a file list splits into its lines in order, and a path stands
      once in the list of the package it belongs to and in no other list. */
  lemma {:induction false} InfoListsPartition(c: Contents, package: string, path: string)
    requires IsDict(c) && AreBare(c) && IsBare(path)
    ensures
      var lines := SplitLines(ListBody(c, package));
      && Sorted(lines)
      && multiset(lines) == multiset(PathsOf(c, package))
      && multiset(lines)["/" + path] == if Find(c, path) == Some(package) then 1 else 0
  {
    PathsAreBreakFree(c, package);
    SortKeepsBreakFree(PathsOf(c, package));
    SplitUnlines(Sort(PathsOf(c, package)));
    PathsCount(c, package, path);
    BareIsRooted(path);
  }

  // --- the packages of the base ------------------------------------------------------------------------

  function Drop(s: string, n: nat): string {
    if n <= |s| then s[n..] else ""
  }

  /** A directory that a merged-usr system keeps under both roots. */
  const TOPS := ["lib/", "bin/", "sbin/", "lib64/"]

  const USR := "usr/"

  /** The other spelling of a path under one such directory. */
  function Twin(path: string, top: string): seq<string> {
    if USR + top <= path then [Drop(path, |USR|)]
    else if top <= path then [USR + path]
    else []
  }

  /** `_mergedusr_aliases`. */
  function Aliases(path: string, tops: seq<string>): seq<string> {
    [path] + Twins(path, tops)
  }

  function Twins(path: string, tops: seq<string>): seq<string> {
    if tops == [] then [] else Twin(path, tops[0]) + Twins(path, tops[1..])
  }

  /** The last lookup over the aliases, or the first that names a package. */
  function LookUpAliases(c: Contents, aliases: seq<string>): Option<string> {
    if aliases == [] then None
    else
      var found := Find(c, aliases[0]);
      if (found.Some? && found.value != "") || |aliases| == 1 then found else LookUpAliases(c, aliases[1..])
  }

  function Basename(path: string): string {
    path[RFind(path, '/') + 1..]
  }

  predicate HasSoname(soname: string -> Option<string>, path: string, wanted: string) {
    soname(Basename(path)) == Some(wanted)
  }

  /** The package of the first path that has the property. */
  function FirstWhere(c: Contents, holds: string -> bool): Option<string> {
    if c == [] then None
    else if FirstWhere(c[..|c| - 1], holds).Some? then FirstWhere(c[..|c| - 1], holds)
    else if holds(c[|c| - 1].path) then Some(c[|c| - 1].package) else None
  }

  /** The package of the first path whose basename has this soname. */
  function FirstOfSoname(c: Contents, soname: string -> Option<string>, wanted: string): Option<string> {
    FirstWhere(c, path => HasSoname(soname, path, wanted))
  }

  function Resolve(c: Contents, soname: string -> Option<string>, file: string): Option<string> {
    if Find(c, file).Some? then Find(c, file)
    else if LookUpAliases(c, Aliases(file, TOPS)).Some? then LookUpAliases(c, Aliases(file, TOPS))
    else
      var name := soname(Basename(file));
      if name.Some? then FirstOfSoname(c, soname, name.value) else None
  }

  datatype InstalledSet = InstalledSet(packages: set<string>, mapped: nat, unmapped: nat)

  function ResolvedTo(c: Contents, soname: string -> Option<string>, files: seq<string>): seq<Option<string>> {
    if files == [] then []
    else ResolvedTo(c, soname, files[..|files| - 1]) + [Resolve(c, soname, files[|files| - 1])]
  }

  function CountSome(found: seq<Option<string>>): nat {
    if found == [] then 0 else CountSome(found[..|found| - 1]) + (if found[|found| - 1].Some? then 1 else 0)
  }

  method SonameMap(c: Contents, soname: string -> Option<string>) returns (bySoname: map<string, string>)
    ensures forall name :: name in bySoname <==> FirstOfSoname(c, soname, name).Some?
    ensures forall name :: name in bySoname ==> FirstOfSoname(c, soname, name) == Some(bySoname[name])
  {
    bySoname := map[];
    for i := 0 to |c|
      invariant forall name :: name in bySoname <==> FirstOfSoname(c[..i], soname, name).Some?
      invariant forall name :: name in bySoname ==> FirstOfSoname(c[..i], soname, name) == Some(bySoname[name])
    {
      TakeNext(c, i);
      FrontOf(c[..i], c[i]);
      var name := soname(Basename(c[i].path));
      if name.Some? && name.value !in bySoname {
        bySoname := bySoname[name.value := c[i].package];
      }
    }
    TakeAll(c);
  }

  /** The fallback table holds the package of each soname's first path. */
  ghost predicate IsSonameMap(c: Contents, soname: string -> Option<string>, bySoname: map<string, string>) {
    && (forall name :: name in bySoname <==> FirstOfSoname(c, soname, name).Some?)
    && forall name :: name in bySoname ==> FirstOfSoname(c, soname, name) == Some(bySoname[name])
  }

  method ResolveFile(
      c: Contents, soname: string -> Option<string>, bySoname: map<string, string>, file: string)
    returns (package: Option<string>)
    requires IsSonameMap(c, soname, bySoname)
    ensures package == Resolve(c, soname, file)
  {
    package := Find(c, file);
    if package.None? { package := LookUpAliases(c, Aliases(file, TOPS)); }
    if package.None? {
      var name := soname(Basename(file));
      if name.Some? && name.value in bySoname { package := Some(bySoname[name.value]); }
    }
  }

  lemma {:induction false} ResolvedNext(c: Contents, soname: string -> Option<string>, files: seq<string>, i: nat)
    requires i < |files|
    ensures ResolvedTo(c, soname, files[..i + 1]) ==
      ResolvedTo(c, soname, files[..i]) + [Resolve(c, soname, files[i])]
  {
    TakeNext(files, i);
    FrontOf(files[..i], files[i]);
  }

  /** The packages and the number of files that were attributed. */
  ghost predicate IsTally(found: seq<Option<string>>, packages: set<string>, mapped: nat) {
    mapped == CountSome(found) && forall p :: p in packages <==> Some(p) in found
  }

  lemma {:induction false} TallyNext(
      found: seq<Option<string>>, one: Option<string>, packages: set<string>, mapped: nat)
    requires IsTally(found, packages, mapped)
    ensures one.None? ==> IsTally(found + [one], packages, mapped)
    ensures one.Some? ==> IsTally(found + [one], packages + {one.value}, mapped + 1)
  {
    FrontOf(found, one);
  }

  method InstalledPackages(files: seq<string>, c: Contents, soname: string -> Option<string>) returns (r: InstalledSet)
    ensures r.mapped + r.unmapped == |files|
    ensures r.mapped == CountSome(ResolvedTo(c, soname, files))
    ensures forall p :: p in r.packages <==> Some(p) in ResolvedTo(c, soname, files)
  {
    var bySoname := SonameMap(c, soname);
    var packages: set<string> := {};
    var mapped, unmapped: nat := 0, 0;
    for i := 0 to |files|
      invariant mapped + unmapped == i && IsTally(ResolvedTo(c, soname, files[..i]), packages, mapped)
    {
      var package := ResolveFile(c, soname, bySoname, files[i]);
      ResolvedNext(c, soname, files, i);
      TallyNext(ResolvedTo(c, soname, files[..i]), package, packages, mapped);
      if package.None? {
        unmapped := unmapped + 1;
        continue;
      }
      packages := packages + {package.value};
      mapped := mapped + 1;
    }
    TakeAll(files);
    r := InstalledSet(packages, mapped, unmapped);
  }

  // --- what the attribution means ------------------------------------------------------------------

  lemma {:induction false} AliasesFound(c: Contents, aliases: seq<string>)
    requires AreBare(c) && aliases != []
    ensures LookUpAliases(c, aliases).None? <==> forall i :: 0 <= i < |aliases| ==> Find(c, aliases[i]).None?
  {
    FoundIsNamed(c, aliases[0]);
    if |aliases| > 1 { AliasesFound(c, aliases[1..]); }
  }

  lemma {:induction false} FoundIsNamed(c: Contents, path: string)
    requires AreBare(c)
    ensures Find(c, path) != Some("")
  {
    if c != [] {
      FoundIsNamed(c[..|c| - 1], path);
      assert IsBareClaim(c[|c| - 1]);
    }
  }

  lemma {:induction false} FoundWhere(c: Contents, holds: string -> bool)
    ensures FirstWhere(c, holds).None? <==> forall i :: 0 <= i < |c| ==> !holds(c[i].path)
  {
    if c != [] {
      FoundWhere(c[..|c| - 1], holds);
      assert forall i :: 0 <= i < |c| - 1 ==> c[..|c| - 1][i] == c[i];
    }
  }

  lemma {:induction false} SonameFound(c: Contents, soname: string -> Option<string>, wanted: string)
    ensures FirstOfSoname(c, soname, wanted).None? <==>
      forall i :: 0 <= i < |c| ==> !HasSoname(soname, c[i].path, wanted)
  {
    FoundWhere(c, path => HasSoname(soname, path, wanted));
  }

  ghost predicate Lists(c: Contents, path: string) {
    exists i :: 0 <= i < |c| && c[i].path == path
  }

  ghost predicate ListsSoname(c: Contents, soname: string -> Option<string>, name: string) {
    exists i :: 0 <= i < |c| && HasSoname(soname, c[i].path, name)
  }

  /** A base file stays unattributed exactly when Contents lists none of its spellings and no library
      of its soname. */
  lemma {:induction false} UnmappedIff(c: Contents, soname: string -> Option<string>, file: string)
    requires AreBare(c)
    ensures Resolve(c, soname, file).None? <==>
      && (forall i :: 0 <= i < |Aliases(file, TOPS)| ==> !Lists(c, Aliases(file, TOPS)[i]))
      && (soname(Basename(file)).Some? ==> !ListsSoname(c, soname, soname(Basename(file)).value))
  {
    var aliases := Aliases(file, TOPS);
    AliasesFound(c, aliases);
    forall i | 0 <= i < |aliases| ensures Find(c, aliases[i]).None? <==> !Lists(c, aliases[i]) {
      FindNone(c, aliases[i]);
    }
    assert aliases[0] == file;
    if soname(Basename(file)).Some? { SonameFound(c, soname, soname(Basename(file)).value); }
  }

  lemma {:induction false} PrefixAgrees(p: string, s: string, i: nat)
    requires i < |p|
    ensures p <= s ==> i < |s| && s[i] == p[i]
  {
  }

  lemma {:induction false} TopsDiffer(j: nat, k: nat)
    requires j < |TOPS| && k < |TOPS|
    ensures |TOPS[j]| >= 4 && TOPS[j][0] != 'u' && TOPS[j][|TOPS[j]| - 1] == '/'
    ensures j != k ==> TOPS[j][0] != TOPS[k][0] || TOPS[j][3] != TOPS[k][3]
  {
  }

  lemma {:induction false} OtherTop(j: nat, k: nat, rest: string)
    requires j < |TOPS| && k < |TOPS| && j != k
    ensures Twin(TOPS[k] + rest, TOPS[j]) == [] && Twin(USR + (TOPS[k] + rest), TOPS[j]) == []
  {
    var p, q, a, b := TOPS[j], TOPS[k], TOPS[k] + rest, USR + (TOPS[k] + rest);
    TopsDiffer(j, k);
    TopsDiffer(k, k);
    assert a[0] == q[0] && a[3] == q[3] && b[0] == 'u' && b[4] == q[0] && b[7] == q[3];
    assert (USR + p)[0] == 'u' && (USR + p)[4] == p[0] && (USR + p)[7] == p[3];
    PrefixAgrees(p, a, 0);
    PrefixAgrees(p, a, 3);
    PrefixAgrees(p, b, 0);
    PrefixAgrees(USR + p, a, 0);
    PrefixAgrees(USR + p, b, 4);
    PrefixAgrees(USR + p, b, 7);
  }

  lemma {:induction false} OwnTop(k: nat, rest: string)
    requires k < |TOPS|
    ensures Twin(TOPS[k] + rest, TOPS[k]) == [USR + (TOPS[k] + rest)]
    ensures Twin(USR + (TOPS[k] + rest), TOPS[k]) == [TOPS[k] + rest]
  {
    var q, a, b := TOPS[k], TOPS[k] + rest, USR + (TOPS[k] + rest);
    TopsDiffer(k, k);
    assert a[0] == q[0] && q <= a;
    assert (USR + q)[0] == 'u';
    PrefixAgrees(USR + q, a, 0);
    assert b == USR + q + rest && USR + q <= b && b[4..] == a;
  }

  lemma {:induction false} NoTwin(path: string, tops: seq<string>)
    requires forall j :: 0 <= j < |tops| ==> Twin(path, tops[j]) == []
    ensures Twins(path, tops) == []
  {
    if tops != [] { NoTwin(path, tops[1..]); }
  }

  lemma {:induction false} OnlyTwin(path: string, tops: seq<string>, k: nat, twin: string)
    requires k < |tops| && Twin(path, tops[k]) == [twin]
    requires forall j :: 0 <= j < |tops| && j != k ==> Twin(path, tops[j]) == []
    ensures Twins(path, tops) == [twin]
  {
    if k == 0 {
      NoTwin(path, tops[1..]);
    } else {
      OnlyTwin(path, tops[1..], k - 1, twin);
    }
  }

  /** A path and its merged-usr spelling are each other's only alias. */
  lemma {:induction false} OneTwin(k: nat, rest: string)
    requires k < |TOPS|
    ensures Aliases(TOPS[k] + rest, TOPS) == [TOPS[k] + rest, USR + (TOPS[k] + rest)]
    ensures Aliases(USR + (TOPS[k] + rest), TOPS) == [USR + (TOPS[k] + rest), TOPS[k] + rest]
  {
    OwnTop(k, rest);
    forall j | 0 <= j < |TOPS| && j != k
      ensures Twin(TOPS[k] + rest, TOPS[j]) == [] && Twin(USR + (TOPS[k] + rest), TOPS[j]) == []
    {
      OtherTop(j, k, rest);
    }
    OnlyTwin(TOPS[k] + rest, TOPS, k, USR + (TOPS[k] + rest));
    OnlyTwin(USR + (TOPS[k] + rest), TOPS, k, TOPS[k] + rest);
  }

  lemma {:induction false} RFindShift(front: string, a: string, c: char)
    requires RFind(a, c) >= 0
    ensures RFind(front + a, c) == |front| + RFind(a, c)
  {
    var i := RFind(a, c);
    assert (front + a)[|front| + i] == a[i];
    forall j | |front| + i < j < |front + a| ensures (front + a)[j] != c { assert (front + a)[j] == a[j - |front|]; }
    RFindAt(front + a, c, |front| + i);
  }

  lemma {:induction false} TailShift(front: string, a: string, i: nat)
    requires i <= |a|
    ensures (front + a)[|front| + i..] == a[i..]
  {
  }

  lemma {:induction false} SameBasename(k: nat, rest: string)
    requires k < |TOPS|
    ensures Basename(TOPS[k] + rest) == Basename(USR + (TOPS[k] + rest))
  {
    var a := TOPS[k] + rest;
    TopsDiffer(k, k);
    assert a[|TOPS[k]| - 1] == '/';
    RFindShift(USR, a, '/');
    TailShift(USR, a, RFind(a, '/') + 1);
  }

  /** Both spellings of a merged-usr path go to the same package exactly unless Contents lists both with
      different packages. */
  lemma {:induction false} MergedUsrAgrees(c: Contents, soname: string -> Option<string>, k: nat, rest: string)
    requires AreBare(c) && k < |TOPS|
    ensures
      var a, b := TOPS[k] + rest, USR + (TOPS[k] + rest);
      Resolve(c, soname, a) == Resolve(c, soname, b) <==>
        !(Lists(c, a) && Lists(c, b) && Find(c, a) != Find(c, b))
  {
    var a, b := TOPS[k] + rest, USR + (TOPS[k] + rest);
    OneTwin(k, rest);
    SameBasename(k, rest);
    FindNone(c, a);
    FindNone(c, b);
    FoundIsNamed(c, a);
    FoundIsNamed(c, b);
    PairOfAliases(c, a, b);
    PairOfAliases(c, b, a);
  }

  lemma {:induction false} PairOfAliases(c: Contents, a: string, b: string)
    requires AreBare(c)
    ensures LookUpAliases(c, [a, b]) == if Find(c, a).Some? then Find(c, a) else Find(c, b)
  {
    FoundIsNamed(c, a);
    assert [a, b][1..] == [b];
  }
}
