/**
 * `splitIntoSections` and `extractValueProp` (lib/readme.ts lines 14-54): the
 * document cut at its heading lines, and the first sentence of its introduction.
 */
module Sections {
  import opened Optional
  import opened Strings
  import opened Patterns
  import opened ReadmeTypes

  /**
   * A line of the document together with what `^(#{1,6})\s+(.+)$` captures of
   * it: `None` when the line is not a heading.
   */
  datatype Line = Line(raw: string, heading: Option<string>)

  /** Every line read once against the heading pattern. */
  function Classified(lines: seq<string>): (r: seq<Line>)
    ensures |r| == |lines|
    ensures forall k :: 0 <= k < |lines| ==> r[k] == Line(lines[k], HeadingText(lines[k]))
  {
    seq(|lines|, k requires 0 <= k < |lines| => Line(lines[k], HeadingText(lines[k])))
  }

  predicate IsHeading(l: Line) {
    l.heading.Some?
  }

  /** The title a heading line gives its section: the captured text, trimmed. */
  function HeadingTitle(l: Line): string
    requires IsHeading(l)
  {
    Trim(l.heading.value)
  }

  /** The lines each followed by a line feed, as `current.content += `${line}\n`` builds them. */
  function Joined(ls: seq<Line>): string
    decreases |ls|
  {
    if ls == [] then "" else ls[0].raw + "\n" + Joined(ls[1..])
  }

  /** The number of lines before the first heading line. */
  function Body(ls: seq<Line>): (k: nat)
    ensures k <= |ls|
    ensures k < |ls| ==> IsHeading(ls[k])
    decreases |ls|
  {
    if ls == [] || IsHeading(ls[0]) then 0 else 1 + Body(ls[1..])
  }

  /**
   * The section opened before the first heading: `open` extended by the lines
   * `body`, or an "Intro" section when none is open and `body` has lines.
   */
  function Lead(open: Option<Section>, body: seq<Line>): seq<Section> {
    match open
    case None => if body == [] then [] else [Section("Intro", Trim(Joined(body)))]
    case Some(s) => [Section(s.title, Trim(s.content + Joined(body)))]
  }

  /**
   * The sections of lines that start with a heading: each heading line opens an
   * empty section, filled by `Cut` with the lines up to the next heading.
   */
  function Headed(ls: seq<Line>): (r: seq<Section>)
    requires ls == [] || IsHeading(ls[0])
    ensures ls != [] ==> |r| >= 1
    decreases |ls|, 0
  {
    if ls == [] then [] else Cut(Some(Section(HeadingTitle(ls[0]), "")), ls[1..])
  }

  lemma {:induction false} HeadedTrimmed(ls: seq<Line>)
    requires ls == [] || IsHeading(ls[0])
    ensures forall s :: s in Headed(ls) ==> IsTrimmed(s.content)
    decreases |ls|
  {
    if ls != [] {
      var rest := ls[1..];
      HeadedTrimmed(rest[Body(rest)..]);
    }
  }

  /** The section still being filled, closed: its content trimmed. */
  function Flush(open: Option<Section>): seq<Section> {
    match open
    case None => []
    case Some(s) => [Section(s.title, Trim(s.content))]
  }

  /**
   * The sections still to come when `open` is being filled and `ls` are left,
   * line by line: a heading line closes `open` and opens an empty section titled
   * by the heading; any other line is appended, with its line feed, to `open`
   * (to a new "Intro" section when none is open); at the end `open` is closed.
   */
  function Scan(open: Option<Section>, ls: seq<Line>): seq<Section>
    decreases |ls|
  {
    if ls == [] then Flush(open)
    else if IsHeading(ls[0]) then Flush(open) + Scan(Some(Section(HeadingTitle(ls[0]), "")), ls[1..])
    else Scan(Some(Extend(open, ls[0])), ls[1..])
  }

  /** The open section, or a new empty "Intro" section when none is open. */
  function Opened(open: Option<Section>): Section {
    if open.Some? then open.value else Section("Intro", "")
  }

  /** The open section with a text line and its line feed appended. */
  function Extend(open: Option<Section>, l: Line): Section {
    Section(Opened(open).title, Opened(open).content + l.raw + "\n")
  }

  /**
   * The same sections read off the document at once: the lines before the first
   * heading go into the section led by `open`, the rest is cut at its headings.
   */
  function Cut(open: Option<Section>, ls: seq<Line>): seq<Section>
    decreases |ls|, 1
  {
    var k := Body(ls);
    Lead(open, ls[..k]) + Headed(ls[k..])
  }

  /** The sections of a document, in document order. */
  function Sectioned(markdown: string): (r: seq<Section>)
    ensures |r| >= 1
    ensures forall s :: s in r ==> IsTrimmed(s.content)
  {
    var ls := Classified(Lines(markdown));
    ScanShape(None, ls);
    Scan(None, ls)
  }

  lemma {:induction false} ScanShape(open: Option<Section>, ls: seq<Line>)
    ensures open.Some? || ls != [] ==> |Scan(open, ls)| >= 1
    ensures forall s :: s in Scan(open, ls) ==> IsTrimmed(s.content)
    decreases |ls|
  {
    if ls != [] {
      if IsHeading(ls[0]) {
        ScanShape(Some(Section(HeadingTitle(ls[0]), "")), ls[1..]);
      } else {
        ScanShape(Some(Extend(open, ls[0])), ls[1..]);
      }
    }
  }

  /** Lines that start at a heading: `Cut` closes the open section and cuts the rest at its headings. */
  lemma CutAtHeading(open: Option<Section>, ls: seq<Line>)
    requires ls == [] || IsHeading(ls[0])
    ensures Cut(open, ls) == Flush(open) + Headed(ls)
  {
    assert Body(ls) == 0;
    assert ls[..0] == [] && ls[0..] == ls;
    assert Joined([]) == "";
    if open.Some? {
      assert open.value.content + "" == open.value.content;
    }
  }

  /** A section opened empty holds just the lines that follow it. */
  lemma LeadFresh(title: string, body: seq<Line>)
    ensures Lead(Some(Section(title, "")), body) == [Section(title, Trim(Joined(body)))]
  {
    assert "" + Joined(body) == Joined(body);
  }

  /** At a heading line, `Cut` closes the open section and goes on from an empty one. */
  lemma CutHeading(open: Option<Section>, ls: seq<Line>)
    requires ls != [] && IsHeading(ls[0])
    ensures Cut(open, ls) == Flush(open) + Cut(Some(Section(HeadingTitle(ls[0]), "")), ls[1..])
  {
    CutAtHeading(open, ls);
  }

  /** At any other line, `Cut` appends the line to the open section ("Intro" when none is open). */
  lemma CutText(open: Option<Section>, ls: seq<Line>)
    requires ls != [] && !IsHeading(ls[0])
    ensures Cut(open, ls) == Cut(Some(Extend(open, ls[0])), ls[1..])
  {
    var k := Body(ls);
    var tail := ls[1..];
    assert Body(tail) == k - 1;
    assert ls[..k][1..] == tail[..k - 1];
    assert tail[k - 1..] == ls[k..];
    LeadText(open, ls[..k]);
  }

  /** The first line of the body goes into the open section ("Intro" when none is open). */
  lemma LeadText(open: Option<Section>, body: seq<Line>)
    requires body != []
    ensures Lead(open, body) == Lead(Some(Extend(open, body[0])), body[1..])
  {
    var s := Opened(open);
    assert Joined(body) == body[0].raw + "\n" + Joined(body[1..]);
    assert s.content + Joined(body) == (s.content + body[0].raw + "\n") + Joined(body[1..]);
    if open.None? {
      assert "" + Joined(body) == Joined(body);
    }
  }

  /** Scanning line by line gives the sections cut at the headings. */
  lemma {:induction false} ScanIsCut(open: Option<Section>, ls: seq<Line>)
    ensures Scan(open, ls) == Cut(open, ls)
    decreases |ls|
  {
    if ls == [] {
      CutAtHeading(open, ls);
    } else if IsHeading(ls[0]) {
      ScanIsCut(Some(Section(HeadingTitle(ls[0]), "")), ls[1..]);
      CutHeading(open, ls);
    } else {
      ScanIsCut(Some(Extend(open, ls[0])), ls[1..]);
      CutText(open, ls);
    }
  }

  /**
   * `splitIntoSections`: the lines are scanned once; a heading line closes the
   * open section and opens a new one, every other line is appended to the open
   * section, opening "Intro" first when there is none.
   */
  method SplitIntoSections(markdown: string) returns (sections: seq<Section>)
    ensures sections == Sectioned(markdown)
  {
    sections := ScanLines(Lines(markdown));
  }

  /** The scan of `splitIntoSections` over the lines of the document. */
  method ScanLines(lines: seq<string>) returns (sections: seq<Section>)
    ensures sections == Scan(None, Classified(lines))
  {
    ghost var ls := Classified(lines);
    ghost var all := Scan(None, ls);
    sections := [];
    var current: Option<Section> := None;
    assert ls[0..] == ls;
    for i := 0 to |lines|
      invariant sections + Scan(current, ls[i..]) == all
    {
      var line := lines[i];
      ghost var left := ls[i..];
      assert left[0] == ls[i] && left[1..] == ls[i + 1..];
      var headingMatch := HeadingText(line);
      assert left[0] == Line(line, headingMatch);
      if headingMatch.Some? {
        ghost var closed := sections + Flush(current);
        if current.Some? {
          sections := sections + [Section(current.value.title, Trim(current.value.content))];
        }
        assert sections == closed;
        current := Some(Section(Trim(headingMatch.value), ""));
        continue;
      }
      if current.None? {
        current := Some(Section("Intro", ""));
      }
      current := Some(current.value.(content := current.value.content + line + "\n"));
    }
    assert ls[|lines|..] == [];
    if current.Some? {
      sections := sections + [Section(current.value.title, Trim(current.value.content))];
    }
  }

  // ---------------------------------------------------------------------------
  // What the sections are.
  // ---------------------------------------------------------------------------

  function Titles(sections: seq<Section>): (r: seq<string>)
    ensures |r| == |sections|
    decreases |sections|
  {
    if sections == [] then [] else [sections[0].title] + Titles(sections[1..])
  }

  /** The titles of the heading lines, in order. */
  function HeadingTitles(ls: seq<Line>): seq<string>
    decreases |ls|
  {
    if ls == [] then []
    else (if IsHeading(ls[0]) then [HeadingTitle(ls[0])] else []) + HeadingTitles(ls[1..])
  }

  lemma {:induction false} HeadingTitlesSkip(ls: seq<Line>)
    ensures HeadingTitles(ls) == HeadingTitles(ls[Body(ls)..])
    decreases |ls|
  {
    if ls != [] && !IsHeading(ls[0]) {
      HeadingTitlesSkip(ls[1..]);
      assert ls[1..][Body(ls[1..])..] == ls[Body(ls)..];
    }
  }

  lemma {:induction false} HeadedTitles(ls: seq<Line>)
    requires ls == [] || IsHeading(ls[0])
    ensures Titles(Headed(ls)) == HeadingTitles(ls)
    decreases |ls|
  {
    if ls != [] {
      var rest := ls[1..];
      var k := Body(rest);
      HeadingTitlesSkip(rest);
      HeadedTitles(rest[k..]);
      var after := Headed(rest[k..]);
      var first := Section(HeadingTitle(ls[0]), Trim(Joined(rest[..k])));
      LeadFresh(HeadingTitle(ls[0]), rest[..k]);
      assert Headed(ls) == [first] + after;
      assert ([first] + after)[1..] == after;
    }
  }

  /**
   * One section per heading line, titled by its trimmed heading text, in document
   * order, preceded by "Intro" exactly when the first line is not a heading.
   */
  lemma SectionTitles(markdown: string)
    ensures var ls := Classified(Lines(markdown));
      Titles(Sectioned(markdown)) == (if IsHeading(ls[0]) then [] else ["Intro"]) + HeadingTitles(ls)
  {
    ScanTitles(None, Classified(Lines(markdown)));
    assert FirstTitle(None, Classified(Lines(markdown))) ==
      (if IsHeading(Classified(Lines(markdown))[0]) then [] else ["Intro"]);
  }

  /** The title the open section gives, or "Intro" when no section is open and a text line comes first. */
  function FirstTitle(open: Option<Section>, ls: seq<Line>): seq<string> {
    if open.Some? then [open.value.title] else if ls != [] && !IsHeading(ls[0]) then ["Intro"] else []
  }

  /** The title of the open section (or "Intro" when a text line comes first), then one per heading. */
  lemma {:induction false} ScanTitles(open: Option<Section>, ls: seq<Line>)
    ensures Titles(Scan(open, ls)) == FirstTitle(open, ls) + HeadingTitles(ls)
    decreases |ls|
  {
    if ls == [] {
      assert Titles(Scan(open, ls)) == FirstTitle(open, ls);
    } else if IsHeading(ls[0]) {
      ScanTitles(Some(Section(HeadingTitle(ls[0]), "")), ls[1..]);
      HeadingStepTitles(open, ls);
    } else {
      ScanTitles(Some(Extend(open, ls[0])), ls[1..]);
    }
  }

  lemma HeadingStepTitles(open: Option<Section>, ls: seq<Line>)
    requires ls != [] && IsHeading(ls[0])
    requires var next := Some(Section(HeadingTitle(ls[0]), ""));
      Titles(Scan(next, ls[1..])) == FirstTitle(next, ls[1..]) + HeadingTitles(ls[1..])
    ensures Titles(Scan(open, ls)) == FirstTitle(open, ls) + HeadingTitles(ls)
  {
    var next := Some(Section(HeadingTitle(ls[0]), ""));
    TitlesAppend(Flush(open), Scan(next, ls[1..]));
    assert Titles(Flush(open)) == FirstTitle(open, ls);
  }

  lemma {:induction false} TitlesAppend(a: seq<Section>, b: seq<Section>)
    ensures Titles(a + b) == Titles(a) + Titles(b)
    decreases |a|
  {
    if a != [] {
      assert (a + b)[1..] == a[1..] + b;
      TitlesAppend(a[1..], b);
    } else {
      assert a + b == b;
    }
  }

  lemma {:induction false} JoinedJoin(ls: seq<Line>, lines: seq<string>)
    requires |ls| == |lines| >= 1
    requires forall k :: 0 <= k < |ls| ==> ls[k].raw == lines[k]
    ensures Joined(ls) == Join(lines, '\n') + "\n"
    decreases |ls|
  {
    if |ls| > 1 {
      JoinedJoin(ls[1..], lines[1..]);
    }
  }

  /** A document without heading lines is one "Intro" section holding the whole text, trimmed. */
  lemma NoHeadings(markdown: string)
    requires forall line :: line in Lines(markdown) ==> HeadingText(line).None?
    ensures Sectioned(markdown) == [Section("Intro", Trim(markdown))]
  {
    var ls := Classified(Lines(markdown));
    PlainLines(Lines(markdown));
    ScanPlain(None, ls);
    assert "" + Joined(ls) == Joined(ls);
    JoinedLines(markdown);
  }

  lemma PlainLines(lines: seq<string>)
    requires forall line :: line in lines ==> HeadingText(line).None?
    ensures forall k :: 0 <= k < |lines| ==> !IsHeading(Classified(lines)[k])
  {
    forall k | 0 <= k < |lines| ensures !IsHeading(Classified(lines)[k]) {
      assert lines[k] in lines;
    }
  }

  /** The lines of a document joined back, each with its line feed, trim to the trimmed document. */
  lemma JoinedLines(markdown: string)
    ensures Trim(Joined(Classified(Lines(markdown)))) == Trim(markdown)
  {
    var lines := Lines(markdown);
    JoinedJoin(Classified(lines), lines);
    SplitJoin(markdown, '\n');
    TrimPadded(markdown, "", "\n");
    assert "" + markdown + "\n" == markdown + "\n";
  }

  /** Without heading lines everything goes into the open section ("Intro" when none is open). */
  lemma {:induction false} ScanPlain(open: Option<Section>, ls: seq<Line>)
    requires open.Some? || ls != []
    requires forall k :: 0 <= k < |ls| ==> !IsHeading(ls[k])
    ensures Scan(open, ls) == [Section(Opened(open).title, Trim(Opened(open).content + Joined(ls)))]
    decreases |ls|
  {
    var s := Opened(open);
    if ls == [] {
      assert s.content + Joined(ls) == s.content;
    } else {
      var next := Extend(open, ls[0]);
      ScanPlain(Some(next), ls[1..]);
      assert s.content + Joined(ls) == next.content + Joined(ls[1..]);
    }
  }

  // ---------------------------------------------------------------------------
  // extractValueProp
  // ---------------------------------------------------------------------------

  predicate IsTerminal(c: char) {
    c == '.' || c == '!' || c == '?'
  }

  /** Where `(.+?)(\.|\!|\?|$)` ends its first group: the first terminal mark after the first character, or the end. */
  function SentenceEnd(s: string, i: nat): (k: nat)
    requires 1 <= i <= |s|
    ensures i <= k <= |s|
    ensures forall j :: i <= j < k ==> !IsTerminal(s[j])
    ensures k == |s| || IsTerminal(s[k])
    decreases |s| - i
  {
    if i == |s| || IsTerminal(s[i]) then i else SentenceEnd(s, i + 1)
  }

  /**
   * `extractValueProp`: the whitespace-collapsed text up to, and without, its first
   * `.`, `!` or `?` after the first character, trimmed; empty for blank text.
   */
  function ExtractValueProp(intro: string): (r: string)
    ensures r == "" <==> Collapse(intro) == ""
    ensures IsTrimmed(r)
    ensures |r| <= |Collapse(intro)|
    ensures var c := Collapse(intro);
      r == c[..|r|] && (forall j :: 1 <= j < |r| ==> !IsTerminal(c[j]))
      && exists k :: |r| <= k <= |c| && (k == |c| || IsTerminal(c[k])) && forall j :: |r| <= j < k ==> c[j] == ' '
  {
    var cleaned := Collapse(intro);
    if cleaned == "" then
      assert |cleaned| == 0;
      ""
    else
      var k := SentenceEnd(cleaned, 1);
      var r := Trim(cleaned[..k]);
      SentencePrefix(cleaned, k);
      assert r != "" && |r| <= |cleaned|;
      assert r == cleaned[..|r|];
      assert forall j :: 1 <= j < |r| ==> !IsTerminal(cleaned[j]);
      assert |r| <= k <= |cleaned| && (k == |cleaned| || IsTerminal(cleaned[k]))
        && forall j :: |r| <= j < k ==> cleaned[j] == ' ';
      r
  }

  /** Trimming a prefix of collapsed text that starts with a non-space only drops spaces at its end. */
  lemma SentencePrefix(c: string, k: nat)
    requires 1 <= k <= |c| && IsTrimmed(c)
    requires forall i :: 0 <= i < |c| && IsSpace(c[i]) ==> c[i] == ' '
    ensures var r := Trim(c[..k]);
      r != [] && |r| <= k && r == c[..|r|] && forall j :: |r| <= j < k ==> c[j] == ' '
  {
    var p := c[..k];
    assert p[0] == c[0] && !IsSpace(c[0]);
    assert SpaceRun(p, 0) == 0;
    var r := Trim(p);
    assert r == p[..|r|];
    forall j | |r| <= j < k ensures c[j] == ' ' {
      assert AllSpace(p[|r|..]);
      assert p[|r|..][j - |r|] == c[j];
    }
  }
}
