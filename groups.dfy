/**
 * `parseToolGroupsFromReadme` (lib/readme.ts lines 184-267): the level-3 headings
 * of a document read as tools, grouped under the categories its table of contents
 * lists.
 */
module Groups {
  import opened Optional
  import opened Strings
  import opened Patterns
  import opened ReadmeTypes
  import opened Tags
  import opened Markup

  // ---------------------------------------------------------------------------
  // First pass: the category names listed under "## Table of Contents".
  // ---------------------------------------------------------------------------

  /** `/^##\s+Table of Contents/i.test(line.trim())`. */
  predicate IsTocLine(line: string) {
    IsTocHeading(Trim(line))
  }

  /** `lines.findIndex((line) => /^##\s+Table of Contents/i.test(line.trim()))`. */
  function TocIndex(lines: seq<string>): (r: int)
    ensures -1 <= r < |lines|
    ensures r >= 0 ==> IsTocLine(lines[r]) && forall k :: 0 <= k < r ==> !IsTocLine(lines[k])
    ensures r == -1 ==> forall k :: 0 <= k < |lines| ==> !IsTocLine(lines[k])
  {
    TocFrom(lines, 0)
  }

  /** The search of `TocIndex` from index `i` on. */
  function TocFrom(lines: seq<string>, i: nat): (r: int)
    requires i <= |lines|
    ensures r == -1 || i <= r < |lines|
    ensures r >= 0 ==> IsTocLine(lines[r]) && forall k :: i <= k < r ==> !IsTocLine(lines[k])
    ensures r == -1 ==> forall k :: i <= k < |lines| ==> !IsTocLine(lines[k])
    decreases |lines| - i
  {
    if i == |lines| then -1
    else if IsTocLine(lines[i]) then i
    else TocFrom(lines, i + 1)
  }

  /** A line that, trimmed, ends the table of contents: a `## ` heading or a `***` rule. */
  predicate Stops(line: string) {
    var t := Trim(line);
    StartsLevel2(t) || IsStarBreak(t)
  }

  /** `cleanInline(line.trim().match(/^###\s+(.+)$/)[1])`: the cleaned text of a `### ` line. */
  function HeadingOf(line: string): (r: Option<string>)
    ensures r.Some? <==> Level3Text(Trim(line)).Some?
  {
    match Level3Text(Trim(line))
    case None => None
    case Some(text) => Some(CleanInline(text))
  }

  /** A `### ` line is neither blank nor a line that ends the table of contents. */
  lemma HeadingNotStop(line: string)
    requires Level3Text(Trim(line)).Some?
    ensures Trim(line) != "" && !Stops(line)
  {
    var t := Trim(line);
    assert t[..3] == "###";
    assert t[0] == '#' && t[2] == '#';
    assert CharRun(t, 0, '*') == 0;
  }

  // ---------------------------------------------------------------------------
  // The block of lines under a tool heading.
  // ---------------------------------------------------------------------------

  /** `/^###\s+/.test(line.trim())`: the line opens the next tool's block. */
  predicate OpensBlock(line: string) {
    StartsLevel3(Trim(line))
  }

  /** The index of the first line at or after `j` that opens a block, or the line count. */
  function BlockEnd(lines: seq<string>, j: nat): (e: nat)
    requires j <= |lines|
    ensures j <= e <= |lines|
    ensures e < |lines| ==> OpensBlock(lines[e])
    ensures forall m :: j <= m < e ==> !OpensBlock(lines[m])
    decreases |lines| - j
  {
    if j == |lines| || OpensBlock(lines[j]) then j else BlockEnd(lines, j + 1)
  }

  /** The inner loop: the untrimmed lines after line `i` up to the next `### ` heading. */
  method BlockLines(lines: seq<string>, i: nat) returns (sectionLines: seq<string>)
    requires i < |lines|
    ensures sectionLines == lines[i + 1..BlockEnd(lines, i + 1)]
  {
    sectionLines := [];
    for j := i + 1 to |lines|
      invariant sectionLines == lines[i + 1..j]
      invariant BlockEnd(lines, i + 1) == BlockEnd(lines, j)
    {
      var nextLine := Trim(lines[j]);
      if StartsLevel3(nextLine) {
        return;
      }
      assert lines[i + 1..j + 1] == lines[i + 1..j] + [lines[j]];
      sectionLines := sectionLines + [lines[j]];
    }
  }

  /** The line, trimmed, can describe a tool: it is not blank and does not start with 🔗. */
  predicate IsTextLine(line: string) {
    var text := Trim(line);
    |text| > 0 && !StartsWithLinkEmoji(text)
  }

  /** The first text line of the block, trimmed. */
  function FirstTextLine(block: seq<string>): (r: Option<string>)
    ensures r.Some? ==> exists k :: 0 <= k < |block| && IsTextLine(block[k]) && r.value == Trim(block[k])
    ensures r.Some? ==> r.value != ""
    ensures r.None? <==> forall k :: 0 <= k < |block| ==> !IsTextLine(block[k])
    decreases |block|
  {
    if block == [] then None
    else if IsTextLine(block[0]) then Some(Trim(block[0]))
    else
      var r := FirstTextLine(block[1..]);
      assert forall k :: 1 <= k < |block| ==> block[k] == block[1..][k - 1];
      if r.Some? then
        var k :| 0 <= k < |block[1..]| && IsTextLine(block[1..][k]) && r.value == Trim(block[1..][k]);
        assert block[k + 1] == block[1..][k];
        r
      else r
  }

  /** `line.match(/\[(.+?)\]\((https?:\/\/[^)]+)\)/)?.[2]`: the URL of the line's first link. */
  function LinkOf(line: string): (r: Option<string>)
    ensures r.None? <==> Find(UrlLink, line).None?
    ensures r.Some? ==> r.value == Target(UrlLink, line, Find(UrlLink, line).value)
  {
    match Find(UrlLink, line)
    case None => None
    case Some(h) => Some(Target(UrlLink, line, h))
  }

  /**
   * `sectionLines.map((text) => text.match(…)).find((match) => match)`, read at
   * its URL group: the URL of the first line of the block that has a link.
   */
  function FirstLink(block: seq<string>): (r: Option<string>)
    ensures r.None? <==> forall k :: 0 <= k < |block| ==> LinkOf(block[k]).None?
    ensures r.Some? ==> exists k :: (0 <= k < |block| && r == LinkOf(block[k])
      && forall m :: 0 <= m < k ==> LinkOf(block[m]).None?)
  {
    var k := LinkIndex(block, 0);
    if k < |block| then LinkOf(block[k]) else None
  }

  /** The index of the first line at or after `i` that has a link, or the line count. */
  function LinkIndex(block: seq<string>, i: nat): (k: nat)
    requires i <= |block|
    ensures i <= k <= |block|
    ensures k < |block| ==> LinkOf(block[k]).Some?
    ensures forall m :: i <= m < k ==> LinkOf(block[m]).None?
    decreases |block| - i
  {
    if i == |block| || LinkOf(block[i]).Some? then i else LinkIndex(block, i + 1)
  }

  /** `new RegExp(`^\*\*${heading}\*\*\s*`, 'i')` replaced by nothing, with the heading read literally. */
  function StripEcho(d: string, heading: string): (r: string)
    ensures |r| <= |d|
    ensures !StartsWithIgnoreCase(d, "**" + heading + "**") ==> r == d
    ensures StartsWithIgnoreCase(d, "**" + heading + "**") ==> |r| + |heading| + 4 <= |d| && r == d[|d| - |r|..]
    ensures StartsWithIgnoreCase(d, "**" + heading + "**") ==>
      AllSpace(d[|heading| + 4..|d| - |r|]) && (r == [] || !IsSpace(r[0]))
  {
    var p := "**" + heading + "**";
    if StartsWithIgnoreCase(d, p) then d[|p| + SpaceRun(d, |p|)..] else d
  }

  /**
   * A tool's description: its block's first text line cleaned (the placeholder
   * when there is none), without a bold echo of its heading and without a leading
   * `- ` bullet; the placeholder when nothing is left.
   */
  function Describe(heading: string, block: seq<string>): (r: string)
    ensures r != ""
  {
    var d0 := match FirstTextLine(block) case Some(line) => CleanInline(line) case None => Placeholder;
    var d1 := Trim(StripEcho(d0, heading));
    var d2 := Trim(StripDashBullet(d1));
    OrPlaceholder(d2)
  }

  /**
   * The inner loop and the description steps for the tool heading at line `i`:
   * its description and its URL.
   */
  method ReadBlock(lines: seq<string>, i: nat, headingText: string) returns (description: string, url: Option<string>)
    requires i < |lines|
    ensures var block := lines[i + 1..BlockEnd(lines, i + 1)];
      description == Describe(headingText, block) && url == FirstLink(block)
  {
    var sectionLines := BlockLines(lines, i);
    var firstTextLine := FirstTextLine(sectionLines);
    url := FirstLink(sectionLines);
    description := if firstTextLine.Some? then CleanInline(firstTextLine.value) else Placeholder;
    description := Trim(StripEcho(description, headingText));
    description := Trim(StripDashBullet(description));
    description := OrPlaceholder(description);
  }

  /** A first text line that cleans to text not starting with `*` or `-` is the description as it is. */
  lemma DescribeFirstLine(heading: string, block: seq<string>)
    requires FirstTextLine(block).Some?
    requires var c := CleanInline(FirstTextLine(block).value); c != "" && c[0] != '*' && c[0] != '-'
    ensures Describe(heading, block) == CleanInline(FirstTextLine(block).value)
  {
    var c := CleanInline(FirstTextLine(block).value);
    NoEcho(c, heading);
    TrimIdempotent(c);
  }

  /** A first text line that cleans to `- ` and text not starting with `-` is described by that text. */
  lemma DescribeDashLine(heading: string, block: seq<string>, rest: string)
    requires FirstTextLine(block).Some? && CleanInline(FirstTextLine(block).value) == "- " + rest
    requires rest != "" && rest[0] != '-'
    ensures Describe(heading, block) == rest
  {
    var c := CleanInline(FirstTextLine(block).value);
    NoEcho(c, heading);
    TrimIdempotent(c);
    assert c[1] == ' ' && c[2] == rest[0];
    assert !IsSpace(rest[0]);
    assert SpaceRun(c, 2) == 0;
    assert SpaceRun(c, 1) == 1;
    assert c[2..] == rest;
    assert rest[|rest| - 1] == c[|c| - 1];
    TrimIdempotent(rest);
  }

  /** Text that does not start with `*` does not start with a bold echo of any heading. */
  lemma NoEcho(c: string, heading: string)
    requires c != "" && c[0] != '*'
    ensures StripEcho(c, heading) == c
  {
    var p := "**" + heading + "**";
    if |p| <= |c| {
      assert Lower(c[..|p|])[0] == LowerChar(c[0]) != '*';
      assert Lower(p)[0] == '*';
    }
  }

  /** A block with no text line describes its tool with the placeholder. */
  lemma EmptyBlockPlaceholder(heading: string, block: seq<string>)
    requires forall k :: 0 <= k < |block| ==> !IsTextLine(block[k])
    ensures Describe(heading, block) == Placeholder
  {
    var p := "**" + heading + "**";
    assert !StartsWithIgnoreCase(Placeholder, p) by {
      if |p| <= |Placeholder| {
        assert Lower(Placeholder[..|p|])[0] == 'p';
        assert Lower(p)[0] == '*';
      }
    }
    assert IsTrimmed(Placeholder);
    TrimIdempotent(Placeholder);
  }

  // ---------------------------------------------------------------------------
  // What the two passes read off each line.
  // ---------------------------------------------------------------------------

  /**
   * A line as the first pass sees it: blank after trimming; ending the table of
   * contents; its cleaned `### ` heading text.
   */
  datatype LineKind = LineKind(blank: bool, stops: bool, heading: Option<string>)

  /** What a line is to the first pass. */
  function KindOf(line: string): (r: LineKind)
    ensures r.blank ==> !r.stops && r.heading.None?
    ensures r.heading.Some? ==> !r.stops
    ensures r.heading == HeadingOf(line)
  {
    var heading := HeadingOf(line);
    var blank := Trim(line) == "";
    var stops := Stops(line);
    if heading.Some? then
      HeadingNotStop(line);
      LineKind(blank, stops, heading)
    else
      assert blank ==> !stops by {
        if blank {
          BlankNotStop(line);
        }
      }
      LineKind(blank, stops, heading)
  }

  /** A blank line does not end the table of contents. */
  lemma BlankNotStop(line: string)
    requires Trim(line) == ""
    ensures !Stops(line)
  {
    assert CharRun(Trim(line), 0, '*') == 0;
  }

  /** Every line's kind. */
  function Kinds(lines: seq<string>): (r: seq<LineKind>)
    ensures |r| == |lines|
    ensures forall i :: 0 <= i < |lines| ==> r[i] == KindOf(lines[i])
  {
    seq(|lines|, i requires 0 <= i < |lines| => KindOf(lines[i]))
  }

  /** The kinds meet what `KindOf` ensures. */
  predicate KindsConsistent(kinds: seq<LineKind>) {
    forall k :: 0 <= k < |kinds| ==>
      (kinds[k].blank ==> !kinds[k].stops && kinds[k].heading.None?)
      && (kinds[k].heading.Some? ==> !kinds[k].stops)
  }

  lemma KindsAreConsistent(lines: seq<string>)
    ensures KindsConsistent(Kinds(lines))
  {
    var kinds := Kinds(lines);
    forall k | 0 <= k < |kinds|
      ensures (kinds[k].blank ==> !kinds[k].stops && kinds[k].heading.None?)
        && (kinds[k].heading.Some? ==> !kinds[k].stops)
    {
      assert kinds[k] == KindOf(lines[k]);
    }
  }

  /**
   * Line `i` as the second pass sees it: its cleaned `### ` heading text and,
   * for a heading, the description and the URL of the block under it.
   */
  datatype LineInfo = LineInfo(heading: Option<string>, description: string, url: Option<string>)

  /** What line `i` says to the second pass. */
  function Classify(lines: seq<string>, i: nat): (r: LineInfo)
    requires i < |lines|
    ensures r.heading == HeadingOf(lines[i])
    ensures r.heading.Some? ==> r.description != ""
  {
    var heading := HeadingOf(lines[i]);
    var block := lines[i + 1..BlockEnd(lines, i + 1)];
    if heading.Some? then LineInfo(heading, Describe(heading.value, block), FirstLink(block))
    else LineInfo(heading, "", None)
  }

  /** Every line classified. */
  function Classified(lines: seq<string>): (r: seq<LineInfo>)
    ensures |r| == |lines|
    ensures forall i :: 0 <= i < |lines| ==> r[i] == Classify(lines, i)
  {
    seq(|lines|, i requires 0 <= i < |lines| => Classify(lines, i))
  }

  /** Every heading of the classification has a description. */
  predicate Consistent(infos: seq<LineInfo>) {
    forall k :: 0 <= k < |infos| ==> infos[k].heading.Some? ==> infos[k].description != ""
  }

  lemma ClassifiedConsistent(lines: seq<string>)
    ensures Consistent(Classified(lines))
  {
    var infos := Classified(lines);
    forall k | 0 <= k < |infos| ensures infos[k].heading.Some? ==> infos[k].description != "" {
      assert infos[k] == Classify(lines, k);
    }
  }

  // ---------------------------------------------------------------------------
  // First pass: the category names under "## Table of Contents".
  // ---------------------------------------------------------------------------

  /**
   * `acc` with the category names of the `### ` lines from `i` on, up to the line
   * that ends the table.
   */
  function TocNames(kinds: seq<LineKind>, i: nat, acc: set<string>): set<string>
    requires i <= |kinds|
    decreases |kinds| - i
  {
    if i == |kinds| then acc
    else if kinds[i].blank then TocNames(kinds, i + 1, acc)
    else if kinds[i].stops then acc
    else match kinds[i].heading
      case Some(name) => TocNames(kinds, i + 1, acc + {name})
      case None => TocNames(kinds, i + 1, acc)
  }

  /** The category names of a document: none when it has no table of contents. */
  function CategoryNames(lines: seq<string>): set<string> {
    var t := TocIndex(lines);
    if t < 0 then {} else TocNames(Kinds(lines), t + 1, {})
  }

  /** Line `k` is a `### ` line at or after `i` with no line ending the table before it. */
  predicate TocEntry(kinds: seq<LineKind>, i: nat, k: nat) {
    i <= k < |kinds| && kinds[k].heading.Some?
    && forall m :: i <= m < k ==> !kinds[m].stops
  }

  /** A name is collected exactly when some `### ` line before the end of the table gives it. */
  lemma {:induction false} TocNamesAre(kinds: seq<LineKind>, i: nat, acc: set<string>, x: string)
    requires i <= |kinds| && KindsConsistent(kinds)
    ensures x in TocNames(kinds, i, acc) <==>
      x in acc || exists k: nat :: TocEntry(kinds, i, k) && kinds[k].heading == Some(x)
    decreases |kinds| - i
  {
    if i < |kinds| {
      var info := kinds[i];
      var acc' := if !info.blank && !info.stops && info.heading.Some? then acc + {info.heading.value} else acc;
      TocNamesAre(kinds, i + 1, acc', x);
      if info.stops {
        forall k: nat | TocEntry(kinds, i, k) ensures false {
          assert false;
        }
      } else {
        assert TocNames(kinds, i, acc) == TocNames(kinds, i + 1, acc');
        if exists k: nat :: TocEntry(kinds, i, k) && kinds[k].heading == Some(x) {
          var k: nat :| TocEntry(kinds, i, k) && kinds[k].heading == Some(x);
          if k > i {
            assert TocEntry(kinds, i + 1, k);
          }
        }
        if exists k: nat :: TocEntry(kinds, i + 1, k) && kinds[k].heading == Some(x) {
          var k: nat :| TocEntry(kinds, i + 1, k) && kinds[k].heading == Some(x);
          assert TocEntry(kinds, i, k);
        }
      }
    }
  }

  /**
   * The category names of a document: exactly the cleaned texts of the `### `
   * lines after the table-of-contents heading and before the first line that
   * ends the table.
   */
  lemma CategoryNamesAre(lines: seq<string>, x: string)
    requires TocIndex(lines) >= 0
    ensures x in CategoryNames(lines) <==>
      exists k: nat :: TocEntry(Kinds(lines), TocIndex(lines) + 1, k) && HeadingOf(lines[k]) == Some(x)
  {
    KindsAreConsistent(lines);
    TocNamesAre(Kinds(lines), TocIndex(lines) + 1, {}, x);
  }

  /**
   * The first pass: from the line after the table-of-contents heading, skip blank
   * lines, stop at the next `## ` heading or `***` rule, and collect every `### `
   * heading's cleaned text.
   */
  method CollectCategoryNames(lines: seq<string>) returns (names: set<string>)
    ensures names == CategoryNames(lines)
  {
    var tocIndex := TocIndex(lines);
    if tocIndex < 0 {
      return {};
    }
    names := CollectFrom(lines, tocIndex + 1);
  }

  /** The loop of the first pass, from line `start` on. */
  method CollectFrom(lines: seq<string>, start: nat) returns (names: set<string>)
    requires start <= |lines|
    ensures names == TocNames(Kinds(lines), start, {})
  {
    names := {};
    ghost var kinds := Kinds(lines);
    for i := start to |lines|
      invariant TocNames(kinds, i, names) == TocNames(kinds, start, {})
    {
      var kind := ReadTocLine(lines[i]);
      assert kinds[i] == kind;
      if kind.blank {
        continue;
      }
      if kind.stops {
        break;
      }
      if kind.heading.Some? {
        names := names + {kind.heading.value};
      }
    }
  }

  /**
   * One line of the table of contents, read as the first pass reads it: trimmed,
   * checked for blankness, for a `## ` heading or `***` rule, and for a `### `
   * heading whose text is cleaned.
   */
  method ReadTocLine(raw: string) returns (kind: LineKind)
    ensures kind == KindOf(raw)
  {
    var line := Trim(raw);
    var blank := line == "";
    var stops := StartsLevel2(line) || IsStarBreak(line);
    var headingMatch := Level3Text(line);
    var heading := if headingMatch.Some? then Some(CleanInline(headingMatch.value)) else None;
    kind := LineKind(blank, stops, heading);
  }


  // ---------------------------------------------------------------------------
  // Second pass: headings become groups and tools.
  // ---------------------------------------------------------------------------

  /** `groups.some((group) => group.category === c)`. */
  predicate HasGroup(groups: seq<ToolGroup>, c: string) {
    exists j :: 0 <= j < |groups| && groups[j].category == c
  }

  /** `groups.findIndex((entry) => entry.category === c)`. */
  function FindGroup(groups: seq<ToolGroup>, c: string): (k: int)
    ensures -1 <= k < |groups|
    ensures k >= 0 ==> groups[k].category == c && forall j :: 0 <= j < k ==> groups[j].category != c
    ensures k == -1 <==> !HasGroup(groups, c)
    decreases |groups|
  {
    if groups == [] then -1
    else if groups[0].category == c then 0
    else
      var k := FindGroup(groups[1..], c);
      if k == -1 then
        assert forall j :: 1 <= j < |groups| ==> groups[j] == groups[1..][j - 1];
        -1
      else k + 1
  }

  /** `groups.find(…)?.tools.push(tool)`: the tool appended to the first group of category `c`, if any. */
  function AddTool(groups: seq<ToolGroup>, c: string, t: Tool): (r: seq<ToolGroup>)
    ensures |r| == |groups|
    ensures forall j :: 0 <= j < |r| ==> r[j].category == groups[j].category
    ensures !HasGroup(groups, c) ==> r == groups
    ensures HasGroup(groups, c) ==> exists k :: (0 <= k < |r| && r[k].category == c
      && (forall j :: 0 <= j < k ==> groups[j].category != c)
      && r[k].tools == groups[k].tools + [t]
      && forall j :: 0 <= j < |r| && j != k ==> r[j] == groups[j])
  {
    var k := FindGroup(groups, c);
    if k < 0 then groups else groups[k := groups[k].(tools := groups[k].tools + [t])]
  }

  /** The second pass's variables: the groups so far and the current category ("" for none). */
  datatype State = State(groups: seq<ToolGroup>, current: string)

  /**
   * What a `### ` heading does to the state: it opens the first category when
   * there is no table of contents, it switches to a listed category (adding its
   * group once), or it is a tool of the current category ("Tools" when there is
   * none yet), with the given description and URL.
   */
  function Apply(names: set<string>, heading: string, description: string, url: Option<string>, st: State): State {
    if |names| == 0 && st.current == "" then
      State(st.groups + [ToolGroup(heading, [])], heading)
    else if heading in names then
      State(if HasGroup(st.groups, heading) then st.groups else st.groups + [ToolGroup(heading, [])], heading)
    else
      var groups := if st.current == "" then st.groups + [ToolGroup("Tools", [])] else st.groups;
      var current := if st.current == "" then "Tools" else st.current;
      State(AddTool(groups, current, Tool(heading, description, DedupeTags([current]), url)), current)
  }

  /** What line `i` does to the state: only `### ` lines change it. */
  function Step(names: set<string>, info: LineInfo, st: State): State {
    match info.heading
    case None => st
    case Some(heading) => Apply(names, heading, info.description, info.url, st)
  }

  /** The state after lines `i..` have been read, starting from `st`. */
  function Fold(names: set<string>, infos: seq<LineInfo>, i: nat, st: State): State
    requires i <= |infos|
    decreases |infos| - i
  {
    if i == |infos| then st else Fold(names, infos, i + 1, Step(names, infos[i], st))
  }

  /** `groups.filter((group) => group.tools.length > 0)`. */
  function NonEmptyGroups(groups: seq<ToolGroup>): (r: seq<ToolGroup>)
    ensures forall g :: g in r <==> g in groups && g.tools != []
    decreases |groups|
  {
    if groups == [] then []
    else if groups[0].tools != [] then [groups[0]] + NonEmptyGroups(groups[1..])
    else NonEmptyGroups(groups[1..])
  }

  /** The groups with tools after all lines have been read. */
  function GroupsOf(names: set<string>, infos: seq<LineInfo>): seq<ToolGroup> {
    NonEmptyGroups(Fold(names, infos, 0, State([], "")).groups)
  }

  /** The tool groups of a document. */
  function ToolGroups(markdown: string): seq<ToolGroup> {
    var lines := Lines(markdown);
    GroupsOf(CategoryNames(lines), Classified(lines))
  }

  /**
   * `parseToolGroupsFromReadme`: every `### ` heading either opens a category (the
   * first heading when there is no table of contents, or a listed name) or is a
   * tool of the current category, described by the lines under it; the groups
   * that received no tool are dropped.
   */
  method ParseToolGroupsFromReadme(markdown: string) returns (r: seq<ToolGroup>)
    ensures r == ToolGroups(markdown)
  {
    var lines := Lines(markdown);
    var categoryNames := CollectCategoryNames(lines);
    var groups := ReadGroups(lines, categoryNames);
    r := NonEmptyGroups(groups);
  }

  /** The loop of the second pass: the groups, empty ones included, after every line. */
  method ReadGroups(lines: seq<string>, categoryNames: set<string>) returns (groups: seq<ToolGroup>)
    ensures groups == Fold(categoryNames, Classified(lines), 0, State([], "")).groups
  {
    ghost var infos := Classified(lines);
    groups := [];
    var currentCategory := "";
    for i := 0 to |lines|
      invariant Fold(categoryNames, infos, i, State(groups, currentCategory))
        == Fold(categoryNames, infos, 0, State([], ""))
    {
      assert infos[i] == Classify(lines, i);
      groups, currentCategory := ReadLine(lines, i, categoryNames, groups, currentCategory);
    }
  }

  /**
   * One turn of the second pass's loop: line `i`, when it is a `### ` heading,
   * opens or switches the category or adds a tool read from the block under it.
   */
  method ReadLine(lines: seq<string>, i: nat, categoryNames: set<string>, groups: seq<ToolGroup>, currentCategory: string)
    returns (groups': seq<ToolGroup>, currentCategory': string)
    requires i < |lines|
    ensures State(groups', currentCategory') == Step(categoryNames, Classify(lines, i), State(groups, currentCategory))
  {
    groups', currentCategory' := groups, currentCategory;
    ghost var info := Classify(lines, i);
    var line := Trim(lines[i]);
    var headingMatch := Level3Text(line);
    if headingMatch.None? {
      assert info.heading.None?;
      return;
    }
    var headingText := CleanInline(headingMatch.value);
    assert info.heading == Some(headingText);
    if |categoryNames| == 0 && currentCategory' == "" {
      currentCategory' := headingText;
      groups' := groups' + [ToolGroup(currentCategory', [])];
      return;
    }
    if headingText in categoryNames {
      currentCategory' := headingText;
      if !HasGroup(groups', currentCategory') {
        groups' := groups' + [ToolGroup(currentCategory', [])];
      }
      return;
    }
    if currentCategory' == "" {
      currentCategory' := "Tools";
      groups' := groups' + [ToolGroup(currentCategory', [])];
    }
    var description, url := ReadBlock(lines, i, headingText);
    assert description == info.description && url == info.url;
    var tool := Tool(headingText, description, DedupeTags([currentCategory']), url);
    assert Step(categoryNames, info, State(groups, currentCategory))
      == State(AddTool(groups', currentCategory', tool), currentCategory');
    groups' := PushTool(groups', currentCategory', tool);
  }

  /** `groups.find((group) => group.category === c)?.tools.push(t)` on the groups held in a variable. */
  method PushTool(groups: seq<ToolGroup>, c: string, t: Tool) returns (r: seq<ToolGroup>)
    ensures r == AddTool(groups, c, t)
  {
    r := groups;
    var k := FindGroup(groups, c);
    if k >= 0 {
      r := r[k := r[k].(tools := r[k].tools + [t])];
    }
  }


  // ---------------------------------------------------------------------------
  // What the groups are.
  // ---------------------------------------------------------------------------

  /** Every tool is tagged with its group's category alone and has a description. */
  predicate ToolsTagged(groups: seq<ToolGroup>) {
    forall j, i :: 0 <= j < |groups| && 0 <= i < |groups[j].tools| ==> Tagged(groups[j].tools[i], groups[j].category)
  }

  /** A tool tagged with category `c` alone, with a description. */
  predicate Tagged(t: Tool, c: string) {
    t.tags == DedupeTags([c]) && t.description != ""
  }

  /** Only the first group of a category ever holds tools. */
  predicate FirstHoldsTools(groups: seq<ToolGroup>) {
    forall a, b :: 0 <= a < b < |groups| && groups[a].category == groups[b].category ==> groups[b].tools == []
  }

  /** What the second pass keeps true of its state. */
  predicate Valid(names: set<string>, st: State) {
    ToolsTagged(st.groups) && FirstHoldsTools(st.groups)
    && (st.current != "" ==> HasGroup(st.groups, st.current))
    && (names != {} ==> forall g :: g in st.groups ==> g.category in names || g.category == "Tools")
    && (names == {} ==> forall g :: g in st.groups && g.tools != [] ==> g.category == st.current)
    && (names == {} && st.current == "" ==> forall g :: g in st.groups ==> g.tools == [])
  }

  /** Appending an empty group keeps both group invariants. */
  lemma PushEmpty(groups: seq<ToolGroup>, c: string)
    requires ToolsTagged(groups) && FirstHoldsTools(groups)
    ensures ToolsTagged(groups + [ToolGroup(c, [])]) && FirstHoldsTools(groups + [ToolGroup(c, [])])
    ensures HasGroup(groups + [ToolGroup(c, [])], c)
  {
    var r := groups + [ToolGroup(c, [])];
    assert r[|groups|].category == c;
    forall a, b | 0 <= a < b < |r| && r[a].category == r[b].category ensures r[b].tools == [] {
      if b < |groups| {
        assert r[a] == groups[a] && r[b] == groups[b];
      }
    }
  }

  /** Adding a tool tagged with the category to its first group keeps both group invariants. */
  lemma AddToolKeeps(groups: seq<ToolGroup>, c: string, t: Tool)
    requires ToolsTagged(groups) && FirstHoldsTools(groups) && HasGroup(groups, c)
    requires Tagged(t, c)
    ensures ToolsTagged(AddTool(groups, c, t)) && FirstHoldsTools(AddTool(groups, c, t))
  {
    var r := AddTool(groups, c, t);
    var k :| 0 <= k < |r| && r[k].category == c
      && (forall j :: 0 <= j < k ==> groups[j].category != c)
      && r[k].tools == groups[k].tools + [t]
      && forall j :: 0 <= j < |r| && j != k ==> r[j] == groups[j];
    AddToolTagged(groups, r, k, t);
    AddToolFirst(groups, r, k);
  }

  lemma AddToolTagged(groups: seq<ToolGroup>, r: seq<ToolGroup>, k: nat, t: Tool)
    requires ToolsTagged(groups) && |r| == |groups| && k < |r|
    requires r[k].category == groups[k].category && r[k].tools == groups[k].tools + [t]
    requires forall j :: 0 <= j < |r| && j != k ==> r[j] == groups[j]
    requires Tagged(t, r[k].category)
    ensures ToolsTagged(r)
  {
    forall j, i | 0 <= j < |r| && 0 <= i < |r[j].tools| ensures Tagged(r[j].tools[i], r[j].category) {
      if j != k {
        assert r[j] == groups[j];
      } else if i < |groups[k].tools| {
        assert r[k].tools[i] == groups[k].tools[i];
      }
    }
  }

  lemma AddToolFirst(groups: seq<ToolGroup>, r: seq<ToolGroup>, k: nat)
    requires FirstHoldsTools(groups) && |r| == |groups| && k < |r|
    requires forall j :: 0 <= j < |r| ==> r[j].category == groups[j].category
    requires forall j :: 0 <= j < k ==> groups[j].category != r[k].category
    requires forall j :: 0 <= j < |r| && j != k ==> r[j] == groups[j]
    ensures FirstHoldsTools(r)
  {
    forall a, b | 0 <= a < b < |r| && r[a].category == r[b].category ensures r[b].tools == [] {
      assert b != k;
      assert r[b] == groups[b];
      assert groups[a].category == groups[b].category;
    }
  }

  /** A tool heading keeps the state valid: the tool joins the first group of the current category. */
  lemma ToolKeeps(names: set<string>, heading: string, description: string, url: Option<string>, st: State)
    requires Valid(names, st) && description != ""
    requires !(|names| == 0 && st.current == "") && heading !in names
    ensures Valid(names, Apply(names, heading, description, url, st))
  {
    var groups := if st.current == "" then st.groups + [ToolGroup("Tools", [])] else st.groups;
    var current := if st.current == "" then "Tools" else st.current;
    if st.current == "" {
      PushEmpty(st.groups, "Tools");
    }
    var tool := Tool(heading, description, DedupeTags([current]), url);
    AddToolKeeps(groups, current, tool);
    var r := AddTool(groups, current, tool);
    assert Apply(names, heading, description, url, st) == State(r, current);
    assert HasGroup(r, current) by {
      var k := FindGroup(groups, current);
      assert r[k].category == current;
    }
    if names != {} {
      forall g | g in groups ensures g.category in names || g.category == "Tools" {
        if g !in st.groups {
          assert g == ToolGroup("Tools", []);
        }
      }
      AddToolListed(names, groups, current, tool);
    } else {
      assert groups == st.groups && current == st.current;
      AddToolSameCategory(groups, current, tool);
    }
  }

  /** Adding a tool keeps every category listed (or "Tools"). */
  lemma AddToolListed(names: set<string>, groups: seq<ToolGroup>, c: string, t: Tool)
    requires forall g :: g in groups ==> g.category in names || g.category == "Tools"
    ensures forall g :: g in AddTool(groups, c, t) ==> g.category in names || g.category == "Tools"
  {
    var r := AddTool(groups, c, t);
    forall g | g in r ensures g.category in names || g.category == "Tools" {
      var j :| 0 <= j < |r| && r[j] == g;
      assert groups[j] in groups;
    }
  }

  /** Adding a tool to category `c` keeps every group with tools in category `c`. */
  lemma AddToolSameCategory(groups: seq<ToolGroup>, c: string, t: Tool)
    requires forall g :: g in groups && g.tools != [] ==> g.category == c
    ensures forall g :: g in AddTool(groups, c, t) && g.tools != [] ==> g.category == c
  {
    var r := AddTool(groups, c, t);
    forall g | g in r && g.tools != [] ensures g.category == c {
      var j :| 0 <= j < |r| && r[j] == g;
      if r[j] != groups[j] {
        var k := FindGroup(groups, c);
        assert j == k;
      } else {
        assert groups[j] in groups;
      }
    }
  }

  /** A category heading keeps the state valid. */
  lemma CategoryKeeps(names: set<string>, heading: string, description: string, url: Option<string>, st: State)
    requires Valid(names, st)
    requires (|names| == 0 && st.current == "") || heading in names
    ensures Valid(names, Apply(names, heading, description, url, st))
  {
    if |names| == 0 && st.current == "" {
      PushEmpty(st.groups, heading);
      assert Apply(names, heading, description, url, st) == State(st.groups + [ToolGroup(heading, [])], heading);
    } else if !HasGroup(st.groups, heading) {
      PushEmpty(st.groups, heading);
    }
  }

  /** Every line keeps the state valid. */
  lemma StepKeeps(names: set<string>, info: LineInfo, st: State)
    requires Valid(names, st) && (info.heading.Some? ==> info.description != "")
    ensures Valid(names, Step(names, info, st))
  {
    match info.heading
    case None =>
    case Some(heading) =>
      if (|names| == 0 && st.current == "") || heading in names {
        CategoryKeeps(names, heading, info.description, info.url, st);
      } else {
        ToolKeeps(names, heading, info.description, info.url, st);
      }
  }

  /** Reading the remaining lines keeps the state valid. */
  lemma {:induction false} FoldKeeps(names: set<string>, infos: seq<LineInfo>, i: nat, st: State)
    requires i <= |infos| && Consistent(infos) && Valid(names, st)
    ensures Valid(names, Fold(names, infos, i, st))
    decreases |infos| - i
  {
    if i < |infos| {
      StepKeeps(names, infos[i], st);
      FoldKeeps(names, infos, i + 1, Step(names, infos[i], st));
    }
  }

  /** Only first groups hold tools in the groups after the first, too. */
  lemma FirstHoldsToolsTail(groups: seq<ToolGroup>)
    requires groups != [] && FirstHoldsTools(groups)
    ensures FirstHoldsTools(groups[1..])
  {
    var rest := groups[1..];
    forall a, b | 0 <= a < b < |rest| && rest[a].category == rest[b].category ensures rest[b].tools == [] {
      assert rest[a] == groups[a + 1] && rest[b] == groups[b + 1];
    }
  }

  /** A later group that holds tools has another category than the first group. */
  lemma FirstCategoryDiffers(groups: seq<ToolGroup>, g: ToolGroup)
    requires groups != [] && FirstHoldsTools(groups)
    requires g in groups[1..] && g.tools != []
    ensures g.category != groups[0].category
  {
    var j :| 0 <= j < |groups[1..]| && groups[1..][j] == g;
    assert groups[j + 1] == g;
  }

  /**
   * What the parser promises of its groups: none is empty, every tool is tagged
   * with its group's category and has a description, and no category repeats.
   */
  predicate WellFormedGroups(r: seq<ToolGroup>) {
    (forall g :: g in r ==> g.tools != [])
    && (forall g, t :: g in r && t in g.tools ==> t.tags == DedupeTags([g.category]) && t.description != "")
    && DistinctCategories(r)
  }

  /** No two groups share a category. */
  predicate DistinctCategories(groups: seq<ToolGroup>) {
    forall a, b :: 0 <= a < b < |groups| ==> groups[a].category != groups[b].category
  }

  /** Dropping the empty groups leaves groups of distinct categories when only first groups hold tools. */
  lemma {:induction false} NonEmptyDistinct(groups: seq<ToolGroup>)
    requires FirstHoldsTools(groups)
    ensures DistinctCategories(NonEmptyGroups(groups))
    decreases |groups|
  {
    if groups != [] {
      var rest := groups[1..];
      FirstHoldsToolsTail(groups);
      NonEmptyDistinct(rest);
      var tail := NonEmptyGroups(rest);
      if groups[0].tools != [] {
        assert NonEmptyGroups(groups) == [groups[0]] + tail;
        forall h | h in tail ensures h.category != groups[0].category {
          assert h in rest && h.tools != [];
          FirstCategoryDiffers(groups, h);
        }
        ConsDistinct(groups[0], tail);
      }
    }
  }

  /** A group whose category no later group has keeps the categories distinct. */
  lemma ConsDistinct(g: ToolGroup, tail: seq<ToolGroup>)
    requires DistinctCategories(tail)
    requires forall h :: h in tail ==> h.category != g.category
    ensures DistinctCategories([g] + tail)
  {
    var r := [g] + tail;
    forall a, b | 0 <= a < b < |r| ensures r[a].category != r[b].category {
      assert r[b] == tail[b - 1];
      if a > 0 {
        assert r[a] == tail[a - 1];
      } else {
        assert tail[b - 1] in tail;
      }
    }
  }

  /** The groups read off consistently classified lines. */
  lemma GroupsShape(names: set<string>, infos: seq<LineInfo>)
    requires Consistent(infos)
    ensures var r := GroupsOf(names, infos);
      WellFormedGroups(r)
      && (names != {} ==> forall g :: g in r ==> g.category in names || g.category == "Tools")
      && (names == {} ==> |r| <= 1)
  {
    var st := Fold(names, infos, 0, State([], ""));
    FoldKeeps(names, infos, 0, State([], ""));
    var r := NonEmptyGroups(st.groups);
    assert GroupsOf(names, infos) == r;
    NonEmptyDistinct(st.groups);
    NonEmptyTagged(st.groups);
    if names == {} {
      AtMostOne(st.groups, st.current);
    }
  }

  /** The kept groups carry the tagging of all groups, read by membership. */
  lemma NonEmptyTagged(groups: seq<ToolGroup>)
    requires ToolsTagged(groups)
    ensures var r := NonEmptyGroups(groups);
      forall g, t :: g in r && t in g.tools ==> t.tags == DedupeTags([g.category]) && t.description != ""
  {
    var r := NonEmptyGroups(groups);
    forall g, t | g in r && t in g.tools ensures t.tags == DedupeTags([g.category]) && t.description != "" {
      var j :| 0 <= j < |groups| && groups[j] == g;
      var i :| 0 <= i < |g.tools| && g.tools[i] == t;
      assert Tagged(groups[j].tools[i], groups[j].category);
    }
  }

  lemma InNonEmpty(groups: seq<ToolGroup>, g: ToolGroup)
    requires g in NonEmptyGroups(groups)
    ensures g in groups && g.tools != []
  {
  }

  /** When every group with tools has category `c`, at most one group is kept. */
  lemma AtMostOne(groups: seq<ToolGroup>, c: string)
    requires forall g :: g in groups && g.tools != [] ==> g.category == c
    ensures DistinctCategories(NonEmptyGroups(groups)) ==> |NonEmptyGroups(groups)| <= 1
  {
    var r := NonEmptyGroups(groups);
    if |r| >= 2 {
      InNonEmpty(groups, r[0]);
      InNonEmpty(groups, r[1]);
      assert r[0].category == r[1].category;
    }
  }

  /**
   * The groups of a document: each holds at least one tool, every tool is tagged
   * with its group's category and has a description, and no two groups share a
   * category.
   */
  lemma ToolGroupsShape(markdown: string)
    ensures WellFormedGroups(ToolGroups(markdown))
  {
    var lines := Lines(markdown);
    var names := CategoryNames(lines);
    var infos := Classified(lines);
    ClassifiedConsistent(lines);
    GroupsShape(names, infos);
  }

  /** Tool `t` is the one some `### ` line describes: its heading text, description and URL. */
  predicate FromLine(infos: seq<LineInfo>, t: Tool) {
    exists k :: 0 <= k < |infos| && infos[k].heading == Some(t.name)
      && infos[k].description == t.description && infos[k].url == t.url
  }

  /** Every tool of the groups comes from a `### ` line. */
  predicate Sourced(infos: seq<LineInfo>, groups: seq<ToolGroup>) {
    forall g, t :: g in groups && t in g.tools ==> FromLine(infos, t)
  }

  /** Appending a tool that comes from a line keeps every tool sourced. */
  lemma AddToolSourced(infos: seq<LineInfo>, groups: seq<ToolGroup>, c: string, t: Tool)
    requires Sourced(infos, groups) && FromLine(infos, t)
    ensures Sourced(infos, AddTool(groups, c, t))
  {
    var r := AddTool(groups, c, t);
    if HasGroup(groups, c) {
      var k :| 0 <= k < |r| && r[k].tools == groups[k].tools + [t]
        && forall j :: 0 <= j < |r| && j != k ==> r[j] == groups[j];
      forall g, u | g in r && u in g.tools ensures FromLine(infos, u) {
        var j :| 0 <= j < |r| && r[j] == g;
        if j != k {
          assert groups[j] == g;
        } else if u != t {
          assert u in groups[k].tools;
          assert groups[k] in groups;
        }
      }
    }
  }

  /** Appending an empty group keeps every tool sourced. */
  lemma PushSourced(infos: seq<LineInfo>, groups: seq<ToolGroup>, c: string)
    requires Sourced(infos, groups)
    ensures Sourced(infos, groups + [ToolGroup(c, [])])
  {
    forall g, u | g in groups + [ToolGroup(c, [])] && u in g.tools ensures FromLine(infos, u) {
      assert g in groups;
    }
  }

  /** Line `i` adds only the tool it describes. */
  lemma StepSourced(names: set<string>, infos: seq<LineInfo>, i: nat, st: State)
    requires i < |infos| && Sourced(infos, st.groups)
    ensures Sourced(infos, Step(names, infos[i], st).groups)
  {
    var info := infos[i];
    if info.heading.Some? {
      var heading := info.heading.value;
      if |names| == 0 && st.current == "" {
        PushSourced(infos, st.groups, heading);
      } else if heading in names {
        if !HasGroup(st.groups, heading) {
          PushSourced(infos, st.groups, heading);
        }
      } else {
        var groups := if st.current == "" then st.groups + [ToolGroup("Tools", [])] else st.groups;
        var current := if st.current == "" then "Tools" else st.current;
        if st.current == "" {
          PushSourced(infos, st.groups, "Tools");
        }
        var t := Tool(heading, info.description, DedupeTags([current]), info.url);
        assert FromLine(infos, t);
        AddToolSourced(infos, groups, current, t);
      }
    }
  }

  /** Reading the remaining lines adds only tools that come from lines. */
  lemma {:induction false} FoldSourced(names: set<string>, infos: seq<LineInfo>, i: nat, st: State)
    requires i <= |infos| && Sourced(infos, st.groups)
    ensures Sourced(infos, Fold(names, infos, i, st).groups)
    decreases |infos| - i
  {
    if i < |infos| {
      StepSourced(names, infos, i, st);
      FoldSourced(names, infos, i + 1, Step(names, infos[i], st));
    }
  }

  /** The kept groups hold only tools that come from lines. */
  lemma GroupsSourced(names: set<string>, infos: seq<LineInfo>)
    ensures Sourced(infos, GroupsOf(names, infos))
  {
    FoldSourced(names, infos, 0, State([], ""));
  }

  /**
   * Tool `t` is what the `### ` line `k` of `lines` makes: named by its cleaned
   * heading text, described by the block under it, linked to the block's first
   * http(s) link.
   */
  predicate ToolOfLine(lines: seq<string>, k: nat, t: Tool) {
    k < |lines| && HeadingOf(lines[k]) == Some(t.name)
    && var block := lines[k + 1..BlockEnd(lines, k + 1)];
    t.description == Describe(t.name, block) && t.url == FirstLink(block)
  }

  /** A tool read off the classification of line `k` is that line's tool. */
  lemma LineTool(lines: seq<string>, k: nat, t: Tool)
    requires k < |lines|
    requires var info := Classified(lines)[k];
      info.heading == Some(t.name) && info.description == t.description && info.url == t.url
    ensures ToolOfLine(lines, k, t)
  {
    assert Classified(lines)[k] == Classify(lines, k);
  }

  /** Every grouped tool is the tool of some `### ` line of the document. */
  lemma ToolsFromHeadings(markdown: string)
    ensures forall g, t :: g in ToolGroups(markdown) && t in g.tools ==> exists k :: ToolOfLine(Lines(markdown), k, t)
  {
    var lines := Lines(markdown);
    var infos := Classified(lines);
    GroupsSourced(CategoryNames(lines), infos);
    forall g, t | g in ToolGroups(markdown) && t in g.tools ensures exists k :: ToolOfLine(lines, k, t) {
      assert FromLine(infos, t);
      var k :| 0 <= k < |infos| && infos[k].heading == Some(t.name)
        && infos[k].description == t.description && infos[k].url == t.url;
      LineTool(lines, k, t);
    }
  }

  /** With a table of contents, every group is one of its categories or the fallback "Tools". */
  lemma ListedCategories(markdown: string)
    requires CategoryNames(Lines(markdown)) != {}
    ensures forall g :: g in ToolGroups(markdown) ==> g.category in CategoryNames(Lines(markdown)) || g.category == "Tools"
  {
    var lines := Lines(markdown);
    var names := CategoryNames(lines);
    var infos := Classified(lines);
    ClassifiedConsistent(lines);
    GroupsShape(names, infos);
  }

  /**
   * Without a table of contents, all tools fall into one group: the category is
   * the first `### ` heading whose text is not empty, and its tools are the
   * `### ` headings after it, in order.
   */
  lemma SingleGroup(markdown: string)
    requires CategoryNames(Lines(markdown)) == {}
    ensures |ToolGroups(markdown)| <= 1
    ensures ToolGroups(markdown) == UntitledGroups(Classified(Lines(markdown)))
  {
    var lines := Lines(markdown);
    var names := CategoryNames(lines);
    var infos := Classified(lines);
    ClassifiedConsistent(lines);
    GroupsShape(names, infos);
    var k := FirstNamed(infos, 0);
    BlankPrefix(names, infos, 0, k, []);
  }

  /** A `### ` line whose heading text is not empty. */
  predicate Named(info: LineInfo) {
    info.heading.Some? && info.heading.value != ""
  }

  /** The first line at or after `i` with a non-empty heading, or the count. */
  function FirstNamed(infos: seq<LineInfo>, i: nat): (k: nat)
    requires i <= |infos|
    ensures i <= k <= |infos|
    ensures k < |infos| ==> Named(infos[k])
    ensures forall j :: i <= j < k ==> !Named(infos[j])
    decreases |infos| - i
  {
    if i == |infos| || Named(infos[i]) then i else FirstNamed(infos, i + 1)
  }

  /** The tools the `### ` lines from `i` on make in category `c`, in order. */
  function LaterTools(infos: seq<LineInfo>, i: nat, c: string): (r: seq<Tool>)
    requires i <= |infos|
    ensures forall t :: t in r ==> t.tags == DedupeTags([c])
    decreases |infos| - i
  {
    if i == |infos| then []
    else
      var here := match infos[i].heading
        case None => []
        case Some(h) => [Tool(h, infos[i].description, DedupeTags([c]), infos[i].url)];
      here + LaterTools(infos, i + 1, c)
  }

  /**
   * The groups of a document without a table of contents, read off its lines
   * directly: none when no heading has text or no tool follows the first one
   * that has, otherwise that heading's category with the tools after it.
   */
  function UntitledGroups(infos: seq<LineInfo>): (r: seq<ToolGroup>)
    ensures |r| <= 1
  {
    var k := FirstNamed(infos, 0);
    if k == |infos| then []
    else
      var c := infos[k].heading.value;
      var tools := LaterTools(infos, k + 1, c);
      if tools == [] then [] else [ToolGroup(c, tools)]
  }

  /** Groups opened by headings with empty text: a category "" and no tools. */
  predicate AllBlank(groups: seq<ToolGroup>) {
    forall j :: 0 <= j < |groups| ==> groups[j] == ToolGroup("", [])
  }

  /**
   * Before the first named heading, the state keeps an empty current category
   * and gains only blank groups; from there on the result is `UntitledGroups`.
   */
  lemma {:induction false} BlankPrefix(names: set<string>, infos: seq<LineInfo>, i: nat, k: nat, groups: seq<ToolGroup>)
    requires names == {} && i <= k && k == FirstNamed(infos, 0) && AllBlank(groups)
    requires forall j :: 0 <= j < i ==> !Named(infos[j])
    ensures NonEmptyGroups(Fold(names, infos, i, State(groups, "")).groups) == UntitledGroups(infos)
    decreases k - i
  {
    if i < k {
      var next := Step(names, infos[i], State(groups, ""));
      assert Fold(names, infos, i, State(groups, "")) == Fold(names, infos, i + 1, next);
      BlankStep(names, infos[i], groups);
      BlankPrefix(names, infos, i + 1, k, next.groups);
    } else if k == |infos| {
      assert Fold(names, infos, i, State(groups, "")) == State(groups, "");
      NonEmptyBlank(groups, []);
      assert groups + [] == groups;
      assert UntitledGroups(infos) == [];
    } else {
      assert i == k;
      var c := infos[k].heading.value;
      var tools := LaterTools(infos, k + 1, c);
      assert UntitledGroups(infos) == if tools == [] then [] else [ToolGroup(c, tools)];
      FirstCategory(names, infos, k, groups);
    }
  }

  /** A line before the first named heading adds at most a blank group. */
  lemma BlankStep(names: set<string>, info: LineInfo, groups: seq<ToolGroup>)
    requires names == {} && !Named(info) && AllBlank(groups)
    ensures Step(names, info, State(groups, "")).current == ""
    ensures AllBlank(Step(names, info, State(groups, "")).groups)
  {
  }

  /** The first named heading opens the only category, which collects every later tool. */
  lemma FirstCategory(names: set<string>, infos: seq<LineInfo>, k: nat, groups: seq<ToolGroup>)
    requires names == {} && k < |infos| && Named(infos[k]) && AllBlank(groups)
    ensures var c := infos[k].heading.value;
      var tools := LaterTools(infos, k + 1, c);
      NonEmptyGroups(Fold(names, infos, k, State(groups, "")).groups)
        == if tools == [] then [] else [ToolGroup(c, tools)]
  {
    var c := infos[k].heading.value;
    assert Step(names, infos[k], State(groups, "")) == State(groups + [ToolGroup(c, [])], c);
    assert !HasGroup(groups, c);
    NamedTail(infos, k + 1, c, groups, []);
    assert [] + LaterTools(infos, k + 1, c) == LaterTools(infos, k + 1, c);
    NonEmptyBlank(groups, [ToolGroup(c, LaterTools(infos, k + 1, c))]);
  }

  /** Blank groups in front of `rest` are dropped with the other empty groups. */
  lemma {:induction false} NonEmptyBlank(groups: seq<ToolGroup>, rest: seq<ToolGroup>)
    requires AllBlank(groups)
    ensures NonEmptyGroups(groups + rest) == NonEmptyGroups(rest)
    decreases |groups|
  {
    if groups == [] {
      assert groups + rest == rest;
    } else {
      assert (groups + rest)[0] == ToolGroup("", []);
      assert (groups + rest)[1..] == groups[1..] + rest;
      NonEmptyBlank(groups[1..], rest);
    }
  }

  /**
   * After the category `c` is open and is the last group, each later `### ` line
   * appends its tool to that group and nothing else changes.
   */
  lemma {:induction false} NamedTail(infos: seq<LineInfo>, i: nat, c: string, groups: seq<ToolGroup>, tools: seq<Tool>)
    requires i <= |infos| && c != "" && !HasGroup(groups, c)
    ensures Fold({}, infos, i, State(groups + [ToolGroup(c, tools)], c))
      == State(groups + [ToolGroup(c, tools + LaterTools(infos, i, c))], c)
    decreases |infos| - i
  {
    var st := State(groups + [ToolGroup(c, tools)], c);
    if i == |infos| {
      assert tools + [] == tools;
    } else {
      var info := infos[i];
      var here: seq<Tool> := match info.heading
        case None => []
        case Some(h) => [Tool(h, info.description, DedupeTags([c]), info.url)];
      if info.heading.Some? {
        var t := Tool(info.heading.value, info.description, DedupeTags([c]), info.url);
        assert Step({}, info, st) == State(AddTool(groups + [ToolGroup(c, tools)], c, t), c);
        AddToLast(groups, c, tools, t);
      } else {
        assert tools + here == tools;
      }
      assert Step({}, info, st) == State(groups + [ToolGroup(c, tools + here)], c);
      NamedTail(infos, i + 1, c, groups, tools + here);
      assert LaterTools(infos, i, c) == here + LaterTools(infos, i + 1, c);
      assert tools + here + LaterTools(infos, i + 1, c) == tools + (here + LaterTools(infos, i + 1, c));
    }
  }

  /** The only group of category `c` is the last one, so the tool goes there. */
  lemma AddToLast(groups: seq<ToolGroup>, c: string, tools: seq<Tool>, t: Tool)
    requires !HasGroup(groups, c)
    ensures AddTool(groups + [ToolGroup(c, tools)], c, t) == groups + [ToolGroup(c, tools + [t])]
  {
    var all := groups + [ToolGroup(c, tools)];
    var r := AddTool(all, c, t);
    assert all[|groups|].category == c;
    assert HasGroup(all, c);
    var k :| 0 <= k < |r| && r[k].category == c
      && (forall j :: 0 <= j < k ==> all[j].category != c)
      && r[k].tools == all[k].tools + [t]
      && forall j :: 0 <= j < |r| && j != k ==> r[j] == all[j];
    assert forall j :: 0 <= j < |groups| ==> all[j] == groups[j];
    assert k == |groups|;
    assert r == groups + [ToolGroup(c, tools + [t])];
  }
}
