/** `parseToolLine` (lib/readme.ts lines 97-125): one list item becomes a tool. */
module ToolLine {
  import opened Optional
  import opened Strings
  import opened Patterns
  import opened ReadmeTypes
  import opened Tags

  /** `line.replace(/^([-*+]|\d+\.)\s+/, '').trim()`: the item text without its bullet or ordinal. */
  function StripMarker(line: string): (r: string)
    ensures IsTrimmed(r)
    ensures ListMarker(line).None? ==> r == Trim(line)
  {
    match ListMarker(line)
    case None => Trim(line)
    case Some(n) => Trim(line[n..])
  }

  /** `cleaned.replace(m[0], '').replace(/^[:\-–—]\s*\/, '').trim()`: what follows a bold or link name. */
  function Remainder(cleaned: string, matched: string): (r: string)
    ensures IsTrimmed(r)
  {
    Trim(StripLeadingSeparator(ReplaceFirst(cleaned, matched, "")))
  }

  /**
   * `parseToolLine`: `None` for an empty item; otherwise the first of the bold,
   * link, separator and plain forms that applies.
   */
  function ParseToolLine(line: string): (r: Option<Tool>)
    ensures r.None? <==> StripMarker(line) == ""
    // Every form but the separator form has a description.
    ensures var c := StripMarker(line);
      r.Some? && (Find(Bold, c).Some? || Find(Link, c).Some? || SeparatorSplit(c).None?) ==>
        r.value.description != ""
  {
    var cleaned := StripMarker(line);
    if cleaned == "" then None
    else match Find(Bold, cleaned)
      case Some(h) =>
        var parsed := TagsFromText(Remainder(cleaned, Matched(cleaned, h)));
        Some(Tool(Trim(Group1(Bold, cleaned, h)), OrPlaceholder(parsed.text), parsed.tags, parsed.url))
      case None => match Find(Link, cleaned)
        case Some(h) =>
          var parsed := TagsFromText(Remainder(cleaned, Matched(cleaned, h)));
          Some(Tool(Trim(Group1(Link, cleaned, h)), OrPlaceholder(parsed.text), parsed.tags, Some(Target(Link, cleaned, h))))
        case None => match SeparatorSplit(cleaned)
          case Some(split) =>
            var parsed := TagsFromText(Trim(split.1));
            Some(Tool(Trim(split.0), parsed.text, parsed.tags, parsed.url))
          case None =>
            var parsed := TagsFromText(cleaned);
            Some(Tool(parsed.text, Placeholder, parsed.tags, parsed.url))
  }

  /** The bold form wins over every other and names the tool after the (shortest, leftmost) bold text. */
  lemma BoldForm(line: string)
    requires StripMarker(line) != "" && Find(Bold, StripMarker(line)).Some?
    ensures var c := StripMarker(line); var h := Find(Bold, c).value;
      ParseToolLine(line).value.name == Trim(Group1(Bold, c, h))
  {
  }

  /** Without bold text, a link names the tool and its target is the url, whatever its scheme. */
  lemma LinkForm(line: string)
    requires StripMarker(line) != "" && Find(Bold, StripMarker(line)).None? && Find(Link, StripMarker(line)).Some?
    ensures var c := StripMarker(line); var h := Find(Link, c).value;
      ParseToolLine(line).value.name == Trim(Group1(Link, c, h))
      && ParseToolLine(line).value.url == Some(Target(Link, c, h))
  {
  }

  /** Then the text is cut at its leftmost separator: name before it, description (without tags) after it. */
  lemma SeparatorForm(line: string)
    requires var c := StripMarker(line);
      c != "" && Find(Bold, c).None? && Find(Link, c).None? && SeparatorSplit(c).Some?
    ensures var c := StripMarker(line); var split := SeparatorSplit(c).value;
      var parsed := TagsFromText(Trim(split.1));
      ParseToolLine(line) == Some(Tool(Trim(split.0), parsed.text, parsed.tags, parsed.url))
  {
  }

  /** Otherwise the whole text, without its tags and link, is the name, with the placeholder description. */
  lemma PlainForm(line: string)
    requires var c := StripMarker(line);
      c != "" && Find(Bold, c).None? && Find(Link, c).None? && SeparatorSplit(c).None?
    ensures var c := StripMarker(line);
      ParseToolLine(line) == Some(Tool(TagsFromText(c).text, Placeholder, TagsFromText(c).tags, TagsFromText(c).url))
  {
  }

  /** Lower-case ASCII letters only: no separator, no markup, no whitespace. */
  predicate IsWord(w: string) {
    w != [] && forall i :: 0 <= i < |w| ==> 'a' <= w[i] <= 'z'
  }

  /** A line with no bullet that is already trimmed is its own item text. */
  lemma StripMarkerPlain(line: string)
    requires line != [] && line[0] !in "-*+" && !('0' <= line[0] <= '9') && IsTrimmed(line)
    ensures StripMarker(line) == line
  {
    TrimIdempotent(line);
  }

  /** The plain form can give a tool with an empty name: `- #word` is all hashtag. */
  lemma PlainFormEmptyName(w: string)
    requires IsWord(w)
    ensures ParseToolLine("#" + w) == Some(Tool("", Placeholder, [w], None))
  {
    var c := "#" + w;
    assert forall i :: 1 <= i < |c| ==> c[i] == w[i - 1];
    StripMarkerPlain(c);
    NoMarkup(c, "#", w);
    HashWordNoSeparator(w);
    PlainForm(c);
    HashtagBecomesWord(w);
  }

  /** `#word` has no separator character, so the separator form does not apply. */
  lemma HashWordNoSeparator(w: string)
    requires IsWord(w)
    ensures SeparatorSplit("#" + w).None?
  {
    var c := "#" + w;
    assert forall i :: 1 <= i < |c| ==> c[i] == w[i - 1];
    forall j: nat | j <= |c| ensures SeparatorRest(c, j).None? {
      assert SpaceRun(c, j) == 0;
    }
  }

  /**
   * The separator form keeps an empty description: in `n: #word` everything after
   * the colon is a hashtag, and no placeholder is put in its place.
   */
  lemma SeparatorFormEmptyDescription(n: char, w: string)
    requires 'a' <= n <= 'z' && IsWord(w)
    ensures ParseToolLine([n] + ": #" + w) == Some(Tool([n], "", [w], None))
  {
    var tail := "#" + w;
    var c := [n] + ": " + tail;
    assert c == [n] + ": #" + w;
    assert c == [n] + ": " + "#" + w;
    assert StripMarker(c) == c && Find(Bold, c).None? && Find(Link, c).None?
      && SeparatorSplit(c) == Some(([n], tail)) by { ColonLine(n, w); }
    TrimmedHashtag(w);
    assert Trim([n]) == [n] by { TrimIdempotent([n]); }
    SeparatorForm(c);
  }

  /** A lone hashtag is already trimmed and leaves no text, only its tag. */
  lemma TrimmedHashtag(w: string)
    requires IsWord(w)
    ensures TagsFromText(Trim("#" + w)) == Tagged("", [w], None)
  {
    var tail := "#" + w;
    assert tail[|tail| - 1] == w[|w| - 1];
    TrimIdempotent(tail);
    HashtagBecomesWord(w);
  }

  /** `n: #word` is its own item text, has no bold text and no link, and is cut at the colon. */
  lemma ColonLine(n: char, w: string)
    requires 'a' <= n <= 'z' && IsWord(w)
    ensures var c := [n] + ": " + "#" + w;
      StripMarker(c) == c && Find(Bold, c).None? && Find(Link, c).None?
      && SeparatorSplit(c) == Some(([n], "#" + w))
  {
    var tail := "#" + w;
    var c := [n] + ": " + tail;
    assert [n] + ": " + "#" + w == c;
    assert c[0] == n && c[|c| - 1] == w[|w| - 1];
    StripMarkerPlain(c);
    NoMarkup(c, [n] + ": #", w);
    assert NoLineTerminator(tail) by {
      forall i | 0 <= i < |tail| ensures !IsLineTerminator(tail[i]) {
        if i > 0 { assert tail[i] == w[i - 1]; }
      }
    }
    SplitAtColon(n, tail);
  }

  /** A prefix without `*` and `[` followed by a word has no bold text and no link. */
  lemma NoMarkup(c: string, prefix: string, w: string)
    requires c == prefix + w && '*' !in prefix && '[' !in prefix && IsWord(w)
    ensures Find(Bold, c).None? && Find(Link, c).None?
  {
    assert '*' !in w && '[' !in w;
  }

  /** `^(.*?)(?:\s*[-–—:]\s*)(.+)$` on `n: rest` cuts right before the colon. */
  lemma SplitAtColon(n: char, tail: string)
    requires 'a' <= n <= 'z' && tail != [] && tail[0] == '#' && NoLineTerminator(tail)
    ensures SeparatorSplit([n] + ": " + tail) == Some(([n], tail))
  {
    var c := [n] + ": " + tail;
    assert c[0] == n && c[1] == ':' && c[2] == ' ' && c[3..] == tail;
    assert SeparatorRest(c, 0).None? by { assert SpaceRun(c, 0) == 0; }
    assert SpaceRun(c, 1) == 0;
    var rest := c[2..];
    assert rest == " " + tail;
    assert SpaceRun(rest, 0) == 1 by { assert SpaceRun(rest, 1) == 0; }
    assert rest[1..] == tail;
    assert SpacedRest(rest, 0) == Some(tail);
    assert SeparatorRest(c, 1) == Some(tail);
    assert c[..1] == [n];
    assert c[..0] == [];
  }
}
