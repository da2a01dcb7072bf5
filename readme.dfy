/**
 * `parseReadme` (lib/readme.ts lines 269-303): the sections, the introduction and
 * its first sentence, the tools listed in the tools section (or its table), and
 * the grouped tools, which win over the listed ones whenever they hold any tool.
 */
module Readme {
  import opened Optional
  import opened Strings
  import opened Patterns
  import opened ReadmeTypes
  import Sections
  import ToolLine
  import Table
  import Groups
  import Tags

  // ---------------------------------------------------------------------------
  // The introduction.
  // ---------------------------------------------------------------------------

  /** `section.title.toLowerCase() === 'intro'`. */
  predicate IsIntro(s: Section) {
    Lower(s.title) == "intro"
  }

  /** The index of the first section at or after `i` titled "intro" in any case, or the count. */
  function IntroIndex(sections: seq<Section>, i: nat): (k: nat)
    requires i <= |sections|
    ensures i <= k <= |sections|
    ensures k < |sections| ==> IsIntro(sections[k])
    ensures forall j :: i <= j < k ==> !IsIntro(sections[j])
    decreases |sections| - i
  {
    if i == |sections| || IsIntro(sections[i]) then i else IntroIndex(sections, i + 1)
  }

  /**
   * `(sections.find(…intro…) || sections[0])?.content ?? ''`: the content of the
   * first section titled "intro", else of the first section, else empty.
   */
  function IntroOf(sections: seq<Section>): (r: string)
    ensures forall k :: (0 <= k < |sections| && IsIntro(sections[k])
      && forall j :: 0 <= j < k ==> !IsIntro(sections[j])) ==> r == sections[k].content
    ensures (forall k :: 0 <= k < |sections| ==> !IsIntro(sections[k])) ==>
      r == (if sections == [] then "" else sections[0].content)
  {
    var k := IntroIndex(sections, 0);
    if k < |sections| then sections[k].content
    else if sections != [] then sections[0].content
    else ""
  }

  /** `extractValueProp(intro) || fallbackValueProp`. */
  function ValueProposition(intro: string, fallbackValueProp: string): (r: string)
    ensures Sections.ExtractValueProp(intro) != "" ==> r == Sections.ExtractValueProp(intro)
    ensures Collapse(intro) == "" ==> r == fallbackValueProp
  {
    var v := Sections.ExtractValueProp(intro);
    if v != "" then v else fallbackValueProp
  }

  // ---------------------------------------------------------------------------
  // The tools section.
  // ---------------------------------------------------------------------------

  /** `/tools|stack|tooling|apps/i.test(section.title)`. */
  predicate IsToolsTitle(s: Section) {
    ContainsIgnoreCase(s.title, "tools") || ContainsIgnoreCase(s.title, "stack")
    || ContainsIgnoreCase(s.title, "tooling") || ContainsIgnoreCase(s.title, "apps")
  }

  /** The index of the first tools section at or after `i`, or the count. */
  function ToolsIndex(sections: seq<Section>, i: nat): (k: nat)
    requires i <= |sections|
    ensures i <= k <= |sections|
    ensures k < |sections| ==> IsToolsTitle(sections[k])
    ensures forall j :: i <= j < k ==> !IsToolsTitle(sections[j])
    decreases |sections| - i
  {
    if i == |sections| || IsToolsTitle(sections[i]) then i else ToolsIndex(sections, i + 1)
  }

  /** `/^([-*+]|\d+\.)\s+/.test(line.trim())`: the line is a list item. */
  predicate IsListItem(line: string) {
    ListMarker(Trim(line)).Some?
  }

  /** The tool a line of the tools section contributes: a list item that parses. */
  function ItemTool(line: string): (r: Option<Tool>)
    ensures r.Some? <==> IsListItem(line) && ToolLine.StripMarker(Trim(line)) != ""
  {
    if IsListItem(line) then ToolLine.ParseToolLine(Trim(line)) else None
  }

  /** The tools of the list items among `lines`, in line order. */
  function ListTools(lines: seq<string>): (r: seq<Tool>)
    ensures |r| <= |lines|
    decreases |lines|
  {
    if lines == [] then []
    else
      var last := ItemTool(lines[|lines| - 1]);
      ListTools(lines[..|lines| - 1]) + (if last.Some? then [last.value] else [])
  }

  /** The number of lines that are list items with a non-empty text. */
  function ItemCount(lines: seq<string>): nat
    decreases |lines|
  {
    if lines == [] then 0
    else ItemCount(lines[..|lines| - 1]) + (if ItemTool(lines[|lines| - 1]).Some? then 1 else 0)
  }

  /** Exactly one tool per list item whose text is not empty. */
  lemma {:induction false} ListToolsCount(lines: seq<string>)
    ensures |ListTools(lines)| == ItemCount(lines)
    decreases |lines|
  {
    if lines != [] {
      ListToolsCount(lines[..|lines| - 1]);
    }
  }

  /** Every listed tool is what `parseToolLine` makes of some list item of the section. */
  lemma {:induction false} ListToolsFrom(lines: seq<string>)
    ensures forall t :: t in ListTools(lines) ==>
      exists k :: 0 <= k < |lines| && IsListItem(lines[k]) && ToolLine.ParseToolLine(Trim(lines[k])) == Some(t)
    decreases |lines|
  {
    if lines != [] {
      var init := lines[..|lines| - 1];
      ListToolsFrom(init);
      forall t | t in ListTools(lines)
        ensures exists k :: 0 <= k < |lines| && IsListItem(lines[k]) && ToolLine.ParseToolLine(Trim(lines[k])) == Some(t)
      {
        if t in ListTools(init) {
          var k :| 0 <= k < |init| && IsListItem(init[k]) && ToolLine.ParseToolLine(Trim(init[k])) == Some(t);
          assert lines[k] == init[k];
        } else {
          assert IsListItem(lines[|lines| - 1]) && ToolLine.ParseToolLine(Trim(lines[|lines| - 1])) == Some(t);
        }
      }
    }
  }

  /**
   * The loop over the tools section's lines: list items are parsed with
   * `parseToolLine` and the tools they give are pushed in order.
   */
  method CollectListTools(lines: seq<string>) returns (tools: seq<Tool>)
    ensures tools == ListTools(lines)
  {
    tools := [];
    for i := 0 to |lines|
      invariant tools == ListTools(lines[..i])
    {
      var line := lines[i];
      assert lines[..i + 1][..i] == lines[..i];
      if ListMarker(Trim(line)).None? {
        continue;
      }
      var parsed := ToolLine.ParseToolLine(Trim(line));
      if parsed.Some? {
        tools := tools + [parsed.value];
      }
    }
    assert lines[..|lines|] == lines;
  }

  /** The tools of the tools section: its list items, or its table when no list item gave one. */
  function SectionTools(sections: seq<Section>): (r: seq<Tool>)
    ensures ToolsIndex(sections, 0) == |sections| ==> r == []
    ensures var k := ToolsIndex(sections, 0);
      k < |sections| && ListTools(Lines(sections[k].content)) != [] ==> r == ListTools(Lines(sections[k].content))
    ensures var k := ToolsIndex(sections, 0);
      k < |sections| && ListTools(Lines(sections[k].content)) == [] ==> r == Table.ParseToolTable(sections[k].content)
  {
    var k := ToolsIndex(sections, 0);
    if k == |sections| then []
    else
      var listed := ListTools(Lines(sections[k].content));
      if listed != [] then listed else Table.ParseToolTable(sections[k].content)
  }

  /** The `if (toolsSection)` block of `parseReadme`. */
  method ReadSectionTools(sections: seq<Section>) returns (tools: seq<Tool>)
    ensures tools == SectionTools(sections)
  {
    tools := [];
    var k := ToolsIndex(sections, 0);
    if k < |sections| {
      var toolsSection := sections[k];
      tools := CollectListTools(Lines(toolsSection.content));
      if |tools| == 0 {
        tools := Table.ParseToolTable(toolsSection.content);
      }
    }
  }

  // ---------------------------------------------------------------------------
  // The grouped tools, flattened.
  // ---------------------------------------------------------------------------

  /** `toolGroups.flatMap((group) => group.tools)`. */
  function Flatten(groups: seq<ToolGroup>): (r: seq<Tool>)
    decreases |groups|
  {
    if groups == [] then [] else groups[0].tools + Flatten(groups[1..])
  }

  /** The flattened list holds exactly the tools of the groups. */
  lemma {:induction false} FlattenMembers(groups: seq<ToolGroup>)
    ensures forall t :: t in Flatten(groups) <==>
      exists j, i :: 0 <= j < |groups| && 0 <= i < |groups[j].tools| && groups[j].tools[i] == t
    decreases |groups|
  {
    if groups != [] {
      var rest := groups[1..];
      FlattenMembers(rest);
      forall t | t in Flatten(groups)
        ensures exists j, i :: 0 <= j < |groups| && 0 <= i < |groups[j].tools| && groups[j].tools[i] == t
      {
        if t in groups[0].tools {
          var i :| 0 <= i < |groups[0].tools| && groups[0].tools[i] == t;
        } else {
          assert t in Flatten(rest);
          var j, i :| 0 <= j < |rest| && 0 <= i < |rest[j].tools| && rest[j].tools[i] == t;
          assert groups[j + 1] == rest[j];
        }
      }
      forall t, j, i | 0 <= j < |groups| && 0 <= i < |groups[j].tools| && groups[j].tools[i] == t
        ensures t in Flatten(groups)
      {
        if j > 0 {
          assert rest[j - 1] == groups[j];
        }
      }
    }
  }

  /** The flattened list is empty exactly when every group is. */
  lemma {:induction false} FlattenEmpty(groups: seq<ToolGroup>)
    ensures Flatten(groups) == [] <==> forall j :: 0 <= j < |groups| ==> groups[j].tools == []
    decreases |groups|
  {
    if groups != [] {
      FlattenEmpty(groups[1..]);
      assert forall j :: 1 <= j < |groups| ==> groups[j] == groups[1..][j - 1];
    }
  }

  /** The tools of the result: the grouped tools when there are any, else those of the tools section. */
  function ChosenTools(groups: seq<ToolGroup>, sections: seq<Section>): (r: seq<Tool>)
    ensures Flatten(groups) != [] ==> r == Flatten(groups)
    ensures Flatten(groups) == [] ==> r == SectionTools(sections)
  {
    var flattened := Flatten(groups);
    if |flattened| > 0 then flattened else SectionTools(sections)
  }

  /**
   * `parseReadme`: the sections of the document, the introduction, its value
   * proposition (or the fallback), the groups of `parseToolGroupsFromReadme`, and
   * the tools: the grouped ones when any, else the tools section's list items,
   * else its table.
   */
  method ParseReadme(markdown: string, fallbackValueProp: string) returns (r: ParsedReadme)
    ensures r.sections == Sections.Sectioned(markdown)
    ensures r.intro == IntroOf(r.sections)
    ensures r.valueProposition == ValueProposition(r.intro, fallbackValueProp)
    ensures r.toolGroups == Groups.ToolGroups(markdown)
    ensures r.tools == ChosenTools(r.toolGroups, r.sections)
  {
    var sections := Sections.SplitIntoSections(markdown);
    var intro := IntroOf(sections);
    var valueProposition := Sections.ExtractValueProp(intro);
    if valueProposition == "" {
      valueProposition := fallbackValueProp;
    }
    var tools := ReadSectionTools(sections);
    var toolGroups := Groups.ParseToolGroupsFromReadme(markdown);
    var flattened := Flatten(toolGroups);
    r := ParsedReadme(intro, valueProposition, sections, if |flattened| > 0 then flattened else tools, toolGroups);
  }

  // ---------------------------------------------------------------------------
  // What the result promises.
  // ---------------------------------------------------------------------------

  /** A document that does not start with a heading has its "Intro" section as introduction. */
  lemma IntroFirst(markdown: string)
    requires Sections.Classified(Lines(markdown))[0].heading.None?
    ensures IntroOf(Sections.Sectioned(markdown)) == Sections.Sectioned(markdown)[0].content
  {
    var sections := Sections.Sectioned(markdown);
    Sections.SectionTitles(markdown);
    assert Sections.Titles(sections)[0] == sections[0].title;
    assert sections[0].title == "Intro";
    assert Lower("Intro") == "intro";
  }

  /** Whenever the group parser finds a group, the result's tools are exactly the grouped tools. */
  lemma GroupedToolsWin(markdown: string, sections: seq<Section>)
    requires Groups.ToolGroups(markdown) != []
    ensures ChosenTools(Groups.ToolGroups(markdown), sections) == Flatten(Groups.ToolGroups(markdown))
  {
    var groups := Groups.ToolGroups(markdown);
    Groups.ToolGroupsShape(markdown);
    assert groups[0] in groups;
    FlattenEmpty(groups);
  }

  /**
   * Every grouped tool the result holds carries its group's category as its only
   * tag and has a description.
   */
  lemma GroupedToolsTagged(markdown: string)
    ensures var groups := Groups.ToolGroups(markdown);
      forall t :: t in Flatten(groups) ==> t.description != "" && exists g :: g in groups && t.tags == Tags.DedupeTags([g.category])
  {
    var groups := Groups.ToolGroups(markdown);
    Groups.ToolGroupsShape(markdown);
    FlattenMembers(groups);
    forall t | t in Flatten(groups) ensures t.description != "" && exists g :: g in groups && t.tags == Tags.DedupeTags([g.category]) {
      var j, i :| 0 <= j < |groups| && 0 <= i < |groups[j].tools| && groups[j].tools[i] == t;
      assert groups[j] in groups && t in groups[j].tools;
    }
  }
}
