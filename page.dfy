/**
 * The pure helpers of the home page (app/page.tsx lines 10-66): the section
 * looked up by keywords, the paragraphs a section's markdown is shown as, and the
 * tools the page lists.
 */
module Page {
  import opened Optional
  import opened Strings
  import opened Patterns
  import opened ReadmeTypes

  // ---------------------------------------------------------------------------
  // getSectionContent
  // ---------------------------------------------------------------------------

  /** `keywords.some((keyword) => section.title.toLowerCase().includes(keyword))`. */
  predicate Mentions(s: Section, keywords: seq<string>) {
    exists w :: w in keywords && Contains(Lower(s.title), w)
  }

  /** The index of the first section at or after `i` whose title mentions a keyword, or the count. */
  function MentionIndex(sections: seq<Section>, keywords: seq<string>, i: nat): (k: nat)
    requires i <= |sections|
    ensures i <= k <= |sections|
    ensures k < |sections| ==> Mentions(sections[k], keywords)
    ensures forall j :: i <= j < k ==> !Mentions(sections[j], keywords)
    decreases |sections| - i
  {
    if i == |sections| || Mentions(sections[i], keywords) then i else MentionIndex(sections, keywords, i + 1)
  }

  /**
   * `getSectionContent`: the content of the first section whose lower-cased title
   * contains one of the keywords; empty when there is none.
   */
  function GetSectionContent(sections: seq<Section>, keywords: seq<string>): (r: string)
    ensures (forall k :: 0 <= k < |sections| ==> !Mentions(sections[k], keywords)) ==> r == ""
    ensures forall k :: (0 <= k < |sections| && Mentions(sections[k], keywords)
      && forall j :: 0 <= j < k ==> !Mentions(sections[j], keywords)) ==> r == sections[k].content
  {
    var k := MentionIndex(sections, keywords, 0);
    if k < |sections| then sections[k].content else ""
  }

  // ---------------------------------------------------------------------------
  // toParagraphs
  // ---------------------------------------------------------------------------

  /**
   * One trimmed, non-empty line as a paragraph: a `-`, `*` or `+` bullet and the
   * whitespace after it dropped, then code, bold and link spans replaced by their text.
   */
  function CleanParagraph(line: string): (r: string)
    ensures |r| <= |line|
  {
    ReplaceAll(Link, ReplaceAll(Bold, ReplaceAll(Code, StripBullet(line))))
  }

  /** The paragraph a single line gives: none when the line is blank. */
  function Para(line: string): (r: seq<string>)
    ensures |r| <= 1
    ensures r != [] <==> Trim(line) != ""
  {
    if Trim(line) != "" then [CleanParagraph(Trim(line))] else []
  }

  /** The results of `f` on each element of `xs`, one after the other. */
  function FlatMap<T, U>(f: T -> seq<U>, xs: seq<T>): (r: seq<U>)
    ensures xs == [] ==> r == []
    decreases |xs|
  {
    if xs == [] then [] else f(xs[0]) + FlatMap(f, xs[1..])
  }

  /** Mapping two runs one after the other gives their results one after the other. */
  lemma {:induction false} FlatMapAppend<T, U>(f: T -> seq<U>, a: seq<T>, b: seq<T>)
    ensures FlatMap(f, a + b) == FlatMap(f, a) + FlatMap(f, b)
    decreases |a|
  {
    if a == [] {
      assert a + b == b;
    } else {
      assert (a + b)[1..] == a[1..] + b;
      FlatMapAppend(f, a[1..], b);
    }
  }

  /** The results around one element: those before it, its own, those after it. */
  lemma FlatMapAround<T, U>(f: T -> seq<U>, xs: seq<T>, i: nat)
    requires i < |xs|
    ensures FlatMap(f, xs) == FlatMap(f, xs[..i]) + f(xs[i]) + FlatMap(f, xs[i + 1..])
  {
    var tail := xs[i..];
    assert xs == xs[..i] + tail;
    FlatMapAppend(f, xs[..i], tail);
    assert tail[1..] == xs[i + 1..];
    assert FlatMap(f, tail) == f(xs[i]) + FlatMap(f, xs[i + 1..]);
  }

  /** The paragraphs of `lines`: each non-blank line, trimmed and cleaned, in order. */
  function Paragraphs(lines: seq<string>): (r: seq<string>)
  {
    FlatMap(Para, lines)
  }

  /** `toParagraphs`: the markdown split at line feeds, read as paragraphs. */
  function ToParagraphs(markdown: string): (r: seq<string>)
    ensures |r| == NonBlank(Lines(markdown))
  {
    ParagraphCount(Lines(markdown));
    Paragraphs(Lines(markdown))
  }

  /** The number of lines that are not blank. */
  function NonBlank(lines: seq<string>): nat
    decreases |lines|
  {
    if lines == [] then 0 else (if Trim(lines[0]) != "" then 1 else 0) + NonBlank(lines[1..])
  }

  /** One paragraph per non-blank line. */
  lemma {:induction false} ParagraphCount(lines: seq<string>)
    ensures |Paragraphs(lines)| == NonBlank(lines)
    decreases |lines|
  {
    if lines != [] {
      ParagraphCount(lines[1..]);
      assert Paragraphs(lines) == Para(lines[0]) + Paragraphs(lines[1..]);
    }
  }

  /**
   * The paragraphs keep the line order: line `i` contributes its paragraph, if any,
   * right after those of the lines before it.
   */
  lemma ParagraphOrder(lines: seq<string>, i: nat)
    requires i < |lines|
    ensures Paragraphs(lines) == Paragraphs(lines[..i]) + Para(lines[i]) + Paragraphs(lines[i + 1..])
  {
    FlatMapAround(Para, lines, i);
  }

  /** The element right after a prefix `p` is the first of what follows it. */
  lemma AfterPrefix<T>(p: seq<T>, q: seq<T>, w: seq<T>)
    requires q != []
    ensures |p| < |p + q + w| && (p + q + w)[|p|] == q[0]
  {
  }

  /** A non-blank line `i` gives paragraph number `NonBlank(lines[..i])`. */
  lemma ParagraphAt(lines: seq<string>, i: nat)
    requires i < |lines| && Trim(lines[i]) != ""
    ensures NonBlank(lines[..i]) < |Paragraphs(lines)|
    ensures Paragraphs(lines)[NonBlank(lines[..i])] == CleanParagraph(Trim(lines[i]))
  {
    ParagraphOrder(lines, i);
    ParagraphCount(lines[..i]);
    AfterPrefix(Paragraphs(lines[..i]), Para(lines[i]), Paragraphs(lines[i + 1..]));
  }

  /** A line free of bullets and inline markup is its own paragraph. */
  lemma PlainParagraph(line: string)
    requires line == [] || line[0] !in "-*+"
    requires '`' !in line && '*' !in line && '[' !in line
    ensures CleanParagraph(line) == line
  {
  }

  /** A bulleted line loses its bullet and the whitespace after it, and nothing else when it has no markup. */
  lemma BulletParagraph(b: char, gap: string, text: string)
    requires b in "-*+" && gap != [] && AllSpace(gap)
    requires text != [] && !IsSpace(text[0])
    requires '`' !in text && '*' !in text && '[' !in text
    ensures CleanParagraph([b] + gap + text) == text
  {
    var s := [b] + gap + text;
    assert s[1] == gap[0];
    BulletGap(s, gap, text);
    assert StripBullet(s) == text;
  }

  /** After the bullet, the whitespace run is exactly the gap. */
  lemma BulletGap(s: string, gap: string, text: string)
    requires |s| >= 1 && s[1..] == gap + text && AllSpace(gap)
    requires text != [] && !IsSpace(text[0])
    ensures 1 + SpaceRun(s, 1) <= |s| && s[1 + SpaceRun(s, 1)..] == text
  {
    assert forall k :: 1 <= k < 1 + |gap| ==> s[k] == gap[k - 1];
    assert s[1 + |gap|] == text[0];
    SpaceRunExact(s, 1, |gap|);
  }

  // ---------------------------------------------------------------------------
  // The tools the page lists.
  // ---------------------------------------------------------------------------

  /** The four tools shown when the document lists none. */
  const FallbackTools: seq<Tool> := [
    Tool("Capture System",
      "A dependable place to capture every task, idea, and note without friction.",
      ["inbox", "capture"], None),
    Tool("Planning Cadence",
      "Weekly and daily rituals that keep priorities aligned with long-term outcomes.",
      ["planning", "rhythm"], None),
    Tool("Execution Suite",
      "The apps and workflows that turn planning into consistent output.",
      ["execution"], None),
    Tool("Review Loop",
      "Signals and dashboards that reveal what is working and what needs tuning.",
      ["review", "insights"], None)
  ]

  /**
   * The tools the page lists: the parsed ones, or the fallback four when the
   * document yields none. Re-spelling a missing URL as `undefined` changes nothing
   * here, where `null` and `undefined` are both `None`.
   */
  function PageTools(parsedTools: seq<Tool>): (r: seq<Tool>)
    ensures r != []
    ensures parsedTools != [] ==> r == parsedTools
    ensures parsedTools == [] ==> r == FallbackTools
  {
    if |parsedTools| > 0 then parsedTools else FallbackTools
  }

  /** Every fallback tool has a name, a description and at least one tag, and no URL. */
  lemma FallbackToolsShape()
    ensures |FallbackTools| == 4
    ensures forall t :: t in FallbackTools ==> t.name != "" && t.description != "" && t.tags != [] && t.url.None?
  {
  }
}
