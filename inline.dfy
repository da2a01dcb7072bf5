/** `cleanInline` (lib/readme.ts lines 174-182): inline markdown reduced to plain text. */
module Markup {
  import opened Optional
  import opened Strings
  import opened Patterns

  /**
   * `cleanInline`: a leading `- **` is dropped, bold, code and link spans become
   * their text, whitespace runs become single spaces and the ends are trimmed.
   */
  function CleanInline(text: string): (r: string)
    ensures IsTrimmed(r) && NoLineTerminator(r)
    ensures forall i :: 0 <= i < |r| && IsSpace(r[i]) ==> r[i] == ' '
    ensures forall i :: 0 <= i < |r| - 1 ==> r[i] != ' ' || r[i + 1] != ' '
    ensures |r| <= |text|
  {
    var unbulleted := StripBoldBullet(text);
    var unbolded := ReplaceAll(Bold, unbulleted);
    var uncoded := ReplaceAll(Code, unbolded);
    var unlinked := ReplaceAll(Link, uncoded);
    var r := Collapse(unlinked);
    CollapseLength(unlinked);
    r
  }

  lemma CollapseLength(s: string)
    ensures |Collapse(s)| <= |s|
  {
    assert |Trim(CollapseSpaces(s))| <= |CollapseSpaces(s)|;
  }

  /** Text without `*`, backticks and `[` has no markup: only its whitespace is normalised. */
  lemma CleanPlain(text: string)
    requires '*' !in text && '`' !in text && '[' !in text
    ensures CleanInline(text) == Collapse(text)
  {
    assert StripBoldBullet(text) == text by {
      if |text| >= 2 && text[0] == '-' && IsSpace(text[1]) {
        var k := 1 + SpaceRun(text, 1);
        assert k < |text| ==> text[k] in text;
      }
    }
  }

  /** A bold span inside plain text comes out as its text, with the whitespace normalised. */
  lemma CleanBoldSpan(a: string, x: string, b: string)
    requires a == [] || a[0] != '-'
    requires '*' !in a && '*' !in x && '*' !in b
    requires '`' !in a && '`' !in x && '`' !in b
    requires '[' !in a && '[' !in x && '[' !in b
    requires x != [] && NoLineTerminator(x)
    ensures CleanInline(a + "**" + x + "**" + b) == Collapse(a + x + b)
  {
    var s := a + "**" + x + "**" + b;
    assert s[0] != '-' by { if a != [] { assert s[0] == a[0]; } }
    BoldSpan(a, x, b);
    assert '`' !in a + x + b && '[' !in a + x + b;
  }

  /** A code span inside plain text comes out as its text, with the whitespace normalised. */
  lemma CleanCodeSpan(a: string, x: string, b: string)
    requires a == [] || a[0] != '-'
    requires '*' !in a && '*' !in x && '*' !in b
    requires '`' !in a && '`' !in x && '`' !in b
    requires '[' !in a && '[' !in x && '[' !in b
    requires x != [] && NoLineTerminator(x)
    ensures CleanInline(a + "`" + x + "`" + b) == Collapse(a + x + b)
  {
    var s := a + "`" + x + "`" + b;
    assert s[0] != '-' by { if a != [] { assert s[0] == a[0]; } }
    assert '*' !in s;
    CodeSpan(a, x, b);
    assert '[' !in a + x + b;
  }

  /**
   * A link inside plain text comes out as its text: the target is dropped and the
   * whitespace normalised.
   */
  lemma CleanLinkSpan(a: string, x: string, u: string, b: string)
    requires a == [] || a[0] != '-'
    requires '*' !in a && '*' !in x && '*' !in u && '*' !in b
    requires '`' !in a && '`' !in x && '`' !in u && '`' !in b
    requires '[' !in a && '[' !in b && ']' !in x && ')' !in u
    requires x != [] && u != [] && NoLineTerminator(x) && NoLineTerminator(u)
    ensures CleanInline(a + "[" + x + "](" + u + ")" + b) == Collapse(a + x + b)
  {
    var s := a + "[" + x + "](" + u + ")" + b;
    assert s[0] != '-' by { if a != [] { assert s[0] == a[0]; } }
    assert '*' !in s && '`' !in s;
    LinkSpan(a, x, u, b);
  }

  /** A single word of letters in bold comes out as the word. */
  lemma CleanBoldWord(w: string)
    requires |w| > 0 && forall i :: 0 <= i < |w| ==> 'a' <= w[i] <= 'z'
    ensures CleanInline("**" + w + "**") == w
  {
    assert '*' !in w && '`' !in w && '[' !in w && NoLineTerminator(w);
    var e: string := [];
    assert e + "**" + w + "**" + e == "**" + w + "**" && e + w + e == w;
    CleanBoldSpan(e, w, e);
    CollapsePlainWord(w);
  }

  /** A word of letters has no whitespace to normalise. */
  lemma CollapsePlainWord(w: string)
    requires |w| > 0 && forall i :: 0 <= i < |w| ==> 'a' <= w[i] <= 'z'
    ensures Collapse(w) == w
  {
    NoSpaceCollapse(w);
    TrimIdempotent(w);
  }

  lemma {:induction false} NoSpaceCollapse(s: string)
    requires forall i :: 0 <= i < |s| ==> !IsSpace(s[i])
    ensures CollapseSpaces(s) == s
    decreases |s|
  {
    if s != [] {
      NoSpaceCollapse(s[1..]);
    }
  }
}
