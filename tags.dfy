/**
 * `normalizeTag`, `dedupeTags` and `parseTagsFromText` (lib/readme.ts lines 56-95).
 */
module Tags {
  import opened Optional
  import opened Strings
  import opened Patterns

  /** `tag.replace(/^#/, '').trim()`: one leading `#` is dropped, then the ends are trimmed. */
  function NormalizeTag(tag: string): (r: string)
    ensures IsTrimmed(r)
    ensures (tag == [] || tag[0] != '#') ==> r == Trim(tag)
    ensures IsTrimmed(tag) && (tag == [] || tag[0] != '#') ==> r == tag
  {
    if tag != [] && tag[0] == '#' then Trim(tag[1..])
    else
      if IsTrimmed(tag) then TrimIdempotent(tag); Trim(tag) else Trim(tag)
  }

  /** `tags.map(normalizeTag)`. */
  function NormalizeAll(tags: seq<string>): (r: seq<string>)
    ensures |r| == |tags|
    ensures forall k :: 0 <= k < |tags| ==> r[k] == NormalizeTag(tags[k])
    ensures forall x :: x in r ==> IsTrimmed(x)
  {
    seq(|tags|, k requires 0 <= k < |tags| => NormalizeTag(tags[k]))
  }

  /** `xs.filter(Boolean)` on strings: the empty strings are dropped, the rest keep their order. */
  function NonEmpty(xs: seq<string>): (r: seq<string>)
    ensures |r| <= |xs|
    ensures forall x :: x in r <==> x in xs && x != ""
    decreases |xs|
  {
    if xs == [] then []
    else if xs[0] == "" then NonEmpty(xs[1..])
    else [xs[0]] + NonEmpty(xs[1..])
  }

  /** The position of the first `x` in `xs`. */
  function FirstIndex(xs: seq<string>, x: string): (k: nat)
    requires x in xs
    ensures k < |xs| && xs[k] == x
    ensures forall j :: 0 <= j < k ==> xs[j] != x
    decreases |xs|
  {
    if xs[0] == x then 0 else 1 + FirstIndex(xs[1..], x)
  }

  /**
   * `Array.from(new Set(xs))`: each value once, at the place it was first inserted.
   * Written as the set's insertions, one element of `xs` after another.
   */
  function Distinct(xs: seq<string>): (r: seq<string>)
    ensures forall i, j :: 0 <= i < j < |r| ==> r[i] != r[j]
    ensures forall x :: x in r <==> x in xs
    decreases |xs|
  {
    if xs == [] then []
    else
      var d := Distinct(xs[..|xs| - 1]);
      assert xs == xs[..|xs| - 1] + [xs[|xs| - 1]];
      if xs[|xs| - 1] in d then d else d + [xs[|xs| - 1]]
  }

  lemma {:induction false} FirstIndexSnoc(p: seq<string>, y: string, x: string)
    requires x in p
    ensures FirstIndex(p + [y], x) == FirstIndex(p, x)
    decreases |p|
  {
    if p[0] != x {
      assert (p + [y])[1..] == p[1..] + [y];
      FirstIndexSnoc(p[1..], y, x);
    }
  }

  /** `Distinct` keeps the values in the order of their first occurrence in `xs`. */
  lemma {:induction false} DistinctOrder(xs: seq<string>)
    ensures forall i, j :: 0 <= i < j < |Distinct(xs)| ==>
      FirstIndex(xs, Distinct(xs)[i]) < FirstIndex(xs, Distinct(xs)[j])
    decreases |xs|
  {
    if xs != [] {
      var p := xs[..|xs| - 1];
      var y := xs[|xs| - 1];
      var d := Distinct(p);
      DistinctOrder(p);
      assert xs == p + [y];
      forall x | x in d ensures FirstIndex(xs, x) == FirstIndex(p, x) {
        FirstIndexSnoc(p, y, x);
      }
      if y !in d {
        assert y !in p;
        assert FirstIndex(xs, y) == |p|;
      }
    }
  }

  /** `Distinct` leaves a sequence without repetitions as it is. */
  lemma {:induction false} DistinctOfDistinct(xs: seq<string>)
    requires forall i, j :: 0 <= i < j < |xs| ==> xs[i] != xs[j]
    ensures Distinct(xs) == xs
    decreases |xs|
  {
    if xs != [] {
      var p := xs[..|xs| - 1];
      DistinctOfDistinct(p);
      assert xs[|xs| - 1] !in p;
      assert xs == p + [xs[|xs| - 1]];
    }
  }

  /**
   * `dedupeTags`: the normalized tags, without empty strings and without repetitions,
   * in the order in which each first appears.
   */
  function DedupeTags(tags: seq<string>): (r: seq<string>)
    ensures forall i :: 0 <= i < |r| ==> r[i] != "" && IsTrimmed(r[i])
    ensures forall i, j :: 0 <= i < j < |r| ==> r[i] != r[j]
    ensures forall x :: x in r <==> x != "" && exists k :: 0 <= k < |tags| && NormalizeTag(tags[k]) == x
    ensures |r| <= |tags|
  {
    var n := NormalizeAll(tags);
    var r := Distinct(NonEmpty(n));
    assert forall x :: x in n <==> exists k :: 0 <= k < |tags| && NormalizeTag(tags[k]) == x by {
      forall x | x in n ensures exists k :: 0 <= k < |tags| && NormalizeTag(tags[k]) == x {
        var k :| 0 <= k < |n| && n[k] == x;
        assert NormalizeTag(tags[k]) == x;
      }
    }
    DistinctLength(NonEmpty(n));
    forall i | 0 <= i < |r| ensures r[i] != "" && IsTrimmed(r[i]) {
      assert r[i] in r;
    }
    r
  }

  lemma {:induction false} DistinctLength(xs: seq<string>)
    ensures |Distinct(xs)| <= |xs|
    decreases |xs|
  {
    if xs != [] { DistinctLength(xs[..|xs| - 1]); }
  }

  /** The order of `dedupeTags`: first occurrences of the normalized, non-empty tags. */
  lemma DedupeOrder(tags: seq<string>)
    ensures var n := NonEmpty(NormalizeAll(tags));
      forall i, j :: 0 <= i < j < |DedupeTags(tags)| ==>
        FirstIndex(n, DedupeTags(tags)[i]) < FirstIndex(n, DedupeTags(tags)[j])
  {
    DistinctOrder(NonEmpty(NormalizeAll(tags)));
  }

  /** `normalizeTag` strips only one `#`, so a second `dedupeTags` can change the result. */
  lemma DedupeNotIdempotent()
    ensures DedupeTags(["##a"]) == ["#a"]
    ensures DedupeTags(DedupeTags(["##a"])) == ["a"]
  {
    DedupeSingle("##a", "#a");
    DedupeSingle("#a", "a");
  }

  lemma DedupeSingle(tag: string, t: string)
    requires |tag| > 0 && tag[0] == '#' && tag[1..] == t && t != [] && IsTrimmed(t)
    ensures DedupeTags([tag]) == [t]
  {
    TrimIdempotent(t);
    assert NormalizeAll([tag]) == [t];
    assert NonEmpty([t]) == [t];
    assert Distinct([t]) == [t];
  }

  /** When no result starts with `#`, `dedupeTags` does nothing more the second time. */
  lemma DedupeIdempotent(tags: seq<string>)
    requires forall i :: 0 <= i < |DedupeTags(tags)| ==> DedupeTags(tags)[i][0] != '#'
    ensures DedupeTags(DedupeTags(tags)) == DedupeTags(tags)
  {
    var d := DedupeTags(tags);
    assert NormalizeAll(d) == d;
    NonEmptyAllNonEmpty(d);
    DistinctOfDistinct(d);
  }

  lemma {:induction false} NonEmptyAllNonEmpty(xs: seq<string>)
    requires forall i :: 0 <= i < |xs| ==> xs[i] != ""
    ensures NonEmpty(xs) == xs
    decreases |xs|
  {
    if xs != [] { NonEmptyAllNonEmpty(xs[1..]); }
  }

  // ---------------------------------------------------------------------------
  // parseTagsFromText
  // ---------------------------------------------------------------------------

  /** What `parseTagsFromText` returns: the remaining text, the tags and the link target. */
  datatype Tagged = Tagged(text: string, tags: seq<string>, url: Option<string>)

  /** Some `[label](http(s)://…)` link occurs in `text`. */
  ghost predicate HasUrlLink(text: string) {
    exists p: nat, q: nat :: At(UrlLink, text, p, q)
  }

  /**
   * Step 1: the first `[label](http(s)://…)` link becomes its label (the text is
   * then trimmed) and its target is kept.
   */
  function LinkStep(text: string): (r: (string, Option<string>))
    ensures r.1.Some? <==> HasUrlLink(text)
    ensures r.1.None? ==> r.0 == text
    ensures r.1.Some? ==> IsTrimmed(r.0)
    ensures r.1.Some? ==> var u := r.1.value;
      (|u| > 8 && u[..8] == "https://") || (|u| > 7 && u[..7] == "http://")
    ensures r.1.Some? ==> r.1.value == Target(UrlLink, text, Find(UrlLink, text).value)
  {
    match Find(UrlLink, text)
    case None => (text, None)
    case Some(h) =>
      assert At(UrlLink, text, h.start, h.mid);
      var linkText := Group1(UrlLink, text, h);
      (Trim(ReplaceFirst(text, Matched(text, h), linkText)), Some(Target(UrlLink, text, h)))
  }

  /** The link is replaced by its label where it stands, when the label holds no `$`. */
  lemma LinkStepReplaces(text: string)
    requires Find(UrlLink, text).Some?
    ensures var h := Find(UrlLink, text).value;
      var linkText := Group1(UrlLink, text, h);
      '$' !in linkText ==> LinkStep(text).0 == Trim(text[..h.start] + linkText + text[h.end..])
  {
    var h := Find(UrlLink, text).value;
    var m := Matched(text, h);
    var g := Group1(UrlLink, text, h);
    UrlMatchFirstOccurrence(text, h);
    assert IndexOf(text, m) == Some(h.start) && h.start + |m| == h.end;
    if '$' !in g {
      assert ReplaceFirst(text, m, g) == text[..h.start] + g + text[h.end..];
      assert LinkStep(text).0 == Trim(ReplaceFirst(text, m, g));
    }
  }

  /** `list.split(',').map(normalizeTag).filter(Boolean)`. */
  function ListTags(list: string): (r: seq<string>)
    ensures forall i :: 0 <= i < |r| ==> r[i] != "" && IsTrimmed(r[i])
  {
    var r := NonEmpty(NormalizeAll(Split(list, [','])));
    forall i | 0 <= i < |r| ensures r[i] != "" && IsTrimmed(r[i]) {
      assert r[i] in r;
    }
    r
  }

  function AnnotationStep(text: string): (r: (string, seq<string>))
    ensures FindAnnotation(text).None? ==> r == (text, [])
    ensures FindAnnotation(text).Some? ==> IsTrimmed(r.0)
    ensures forall i :: 0 <= i < |r.1| ==> r.1[i] != "" && IsTrimmed(r.1[i])
  {
    match FindAnnotation(text)
    case None => (text, [])
    case Some(a) => (Trim(ReplaceFirst(text, text[a.start..a.end], "")), ListTags(text[a.listStart..a.listEnd]))
  }

  /** The annotation is cut out where it stands, and the rest trimmed. */
  lemma AnnotationStepRemoves(text: string)
    requires FindAnnotation(text).Some?
    ensures var a := FindAnnotation(text).value;
      AnnotationStep(text).0 == Trim(text[..a.start] + text[a.end..])
  {
    var a := FindAnnotation(text).value;
    AnnotationFirstOccurrence(text);
    RemoveFirstAt(text, a.start, a.end);
  }

  /** Replacing the first occurrence of `s[i..j]`, found at `i`, by nothing cuts `s[i..j]` out. */
  lemma RemoveFirstAt(s: string, i: nat, j: nat)
    requires i <= j <= |s| && IndexOf(s, s[i..j]) == Some(i)
    ensures ReplaceFirst(s, s[i..j], "") == s[..i] + s[j..]
  {
    assert s[..i] + "" + s[j..] == s[..i] + s[j..];
  }

  /** The tags of step 2 are the comma-separated items of the annotation's list. */
  lemma AnnotationTags(text: string)
    requires FindAnnotation(text).Some?
    ensures var a := FindAnnotation(text).value;
      forall x :: x in AnnotationStep(text).1 <==>
        x != "" && exists item :: item in Split(text[a.listStart..a.listEnd], [',']) && NormalizeTag(item) == x
  {
    var a := FindAnnotation(text).value;
    NormalizedMembers(Split(text[a.listStart..a.listEnd], [',']));
  }

  lemma NormalizedMembers(items: seq<string>)
    ensures forall x :: x in NormalizeAll(items) <==> exists item :: item in items && NormalizeTag(item) == x
  {
    var n := NormalizeAll(items);
    forall x ensures x in n <==> exists item :: item in items && NormalizeTag(item) == x {
      if x in n {
        var k :| 0 <= k < |n| && n[k] == x;
        assert items[k] in items;
      }
      if exists item :: item in items && NormalizeTag(item) == x {
        var item :| item in items && NormalizeTag(item) == x;
        var k :| 0 <= k < |items| && items[k] == item;
        assert n[k] == x;
      }
    }
  }

  /** Step 3: the hashtag matches (with their leading whitespace) and the text without them, trimmed. */
  function HashtagStep(text: string): (r: (string, seq<string>))
    ensures '#' !in text ==> r == (text, [])
    ensures r.1 != [] ==> IsTrimmed(r.0)
  {
    var scan := ScanHashtags(text, 0);
    assert text[0..] == text;
    assert '#' !in text ==> scan == ([], text) by {
      if '#' !in text { ScanNoHashtag(text, 0); }
    }
    if scan.0 == [] then (text, []) else (Trim(scan.1), scan.0)
  }

  /**
   * One whitespace-led hashtag in text without another `#`: it is the only match,
   * and it is cut out, leaving the text around it trimmed.
   */
  lemma HashtagStepOne(a: string, w: string, b: string)
    requires '#' !in a && '#' !in b
    requires w != [] && forall i :: 0 <= i < |w| ==> IsTagChar(w[i])
    requires b == [] || !IsTagChar(b[0])
    ensures HashtagStep(a + " #" + w + b) == (Trim(a + b), [" #" + w])
  {
    HashtagScan(a, w, b);
  }

  /**
   * `parseTagsFromText` as a specification: the three steps in order, then the
   * annotation tags followed by the hashtags (each normalized, empty ones dropped)
   * through `dedupeTags`.
   */
  function TagsFromText(text: string): (r: Tagged)
    ensures r.url.Some? <==> HasUrlLink(text)
    ensures r.url.Some? ==> r.url.value == Target(UrlLink, text, Find(UrlLink, text).value)
    ensures forall i :: 0 <= i < |r.tags| ==> r.tags[i] != ""
    ensures forall i, j :: 0 <= i < j < |r.tags| ==> r.tags[i] != r.tags[j]
  {
    var link := LinkStep(text);
    var annotation := AnnotationStep(link.0);
    var hashes := HashtagStep(annotation.0);
    Tagged(hashes.0, DedupeTags(annotation.1 + NonEmpty(NormalizeAll(hashes.1))), link.1)
  }

  /**
   * A hashtag ` #w` inside otherwise plain text: the text loses it and is trimmed,
   * and the tag is the word `w` (the normalized match `#w` loses its `#` in `dedupeTags`).
   */
  lemma HashtagInText(a: string, w: string, b: string)
    requires '[' !in a && '(' !in a && '#' !in a
    requires '[' !in b && '(' !in b && '#' !in b
    requires w != [] && forall i :: 0 <= i < |w| ==> IsTagChar(w[i])
    requires b == [] || !IsTagChar(b[0])
    ensures TagsFromText(a + " #" + w + b) == Tagged(Trim(a + b), [w], None)
  {
    var s := a + " #" + w + b;
    assert '[' !in s && '(' !in s by {
      assert forall c :: c in s ==> c in a || c in " #" || c in w || c in b;
    }
    PlainSteps(s);
    HashtagStepOne(a, w, b);
    HashtagTagWord(w);
  }

  /** The match ` #w`, normalized and deduplicated, is the word `w`. */
  lemma HashtagTagWord(w: string)
    requires w != [] && forall i :: 0 <= i < |w| ==> IsTagChar(w[i])
    ensures DedupeTags([] + NonEmpty(NormalizeAll([" #" + w]))) == [w]
  {
    var t := " #" + w;
    assert IsTrimmed("#" + w);
    TrimUnique(t, " ", "#" + w, "");
    assert NormalizeTag(t) == "#" + w;
    assert NormalizeAll([t]) == ["#" + w];
    assert NonEmpty(["#" + w]) == ["#" + w];
    assert ("#" + w)[1..] == w;
    assert IsTrimmed(w);
    assert [] + ["#" + w] == ["#" + w];
    DedupeSingle("#" + w, w);
  }

  /** Text without links, parentheses or `#` comes back unchanged, with no tags and no url. */
  lemma TagsFromPlainText(text: string)
    requires '[' !in text && '(' !in text && '#' !in text
    ensures TagsFromText(text) == Tagged(text, [], None)
  {
    assert DedupeTags([]) == [];
  }

  /**
   * A lone hashtag `#word` leaves no text and yields the tag `word`: `normalizeTag`
   * keeps the `#` of a match that starts with whitespace, but here `dedupeTags`
   * would strip it anyway.
   */
  lemma HashtagBecomesWord(w: string)
    requires w != [] && forall i :: 0 <= i < |w| ==> IsTagChar(w[i])
    ensures TagsFromText("#" + w) == Tagged("", [w], None)
  {
    var s := "#" + w;
    assert forall i :: 1 <= i < |s| ==> s[i] == w[i - 1];
    assert '[' !in s && '(' !in s;
    PlainSteps(s);
    TagCharRunExact(s, 1, |s| - 1);
    assert HashtagAt(s, 0) == Some(|s|);
    assert s[|s|..] == [];
    assert ScanHashtags(s, |s|) == ([], []);
    assert s[0..|s|] == s;
    assert [s[0..|s|]] + [] == [s];
    assert ScanHashtags(s, 0) == ([s], []);
    assert s[1..] == w;
    assert IsTrimmed(w) && w[0] != '#';
    assert NormalizeTag(s) == w by { TrimIdempotent(w); }
    assert NonEmpty(NormalizeAll([s])) == [w];
    DedupeSingleWord(w);
  }

  lemma DedupeSingleWord(w: string)
    requires w != [] && w[0] != '#' && IsTrimmed(w)
    ensures DedupeTags([] + [w]) == [w]
  {
    assert [] + [w] == [w];
    assert NormalizeAll([w]) == [w];
    assert NonEmpty([w]) == [w];
    assert Distinct([w]) == [w];
  }

  /** Text without links and parentheses passes the first two steps unchanged. */
  lemma PlainSteps(s: string)
    requires '[' !in s && '(' !in s
    ensures LinkStep(s) == (s, None) && AnnotationStep(s) == (s, [])
  {
  }

  /**
   * `parseTagsFromText` as the source writes it: the text is reassigned step by
   * step and the hashtags are pushed onto the tag list one by one.
   */
  method ParseTagsFromText(text: string) returns (r: Tagged)
    ensures r == TagsFromText(text)
  {
    var cleaned := text;
    var tags: seq<string> := [];
    var url: Option<string> := None;

    var urlMatch := Find(UrlLink, cleaned);
    if urlMatch.Some? {
      var h := urlMatch.value;
      url := Some(Target(UrlLink, cleaned, h));
      cleaned := Trim(ReplaceFirst(cleaned, Matched(cleaned, h), Group1(UrlLink, cleaned, h)));
    }
    ghost var link := LinkStep(text);
    assert cleaned == link.0 && url == link.1;

    var tagMatch := FindAnnotation(cleaned);
    if tagMatch.Some? {
      var a := tagMatch.value;
      var parsed := ListTags(cleaned[a.listStart..a.listEnd]);
      tags := tags + parsed;
      cleaned := Trim(ReplaceFirst(cleaned, cleaned[a.start..a.end], ""));
    }
    ghost var annotation := AnnotationStep(link.0);
    assert cleaned == annotation.0 && tags == annotation.1;

    var scan := ScanHashtags(cleaned, 0);
    var hashTags := scan.0;
    ghost var hashes := HashtagStep(cleaned);
    if hashTags != [] {
      tags := PushHashtags(tags, hashTags);
      cleaned := Trim(scan.1);
    } else {
      assert NonEmpty(NormalizeAll([])) == [];
    }
    assert cleaned == hashes.0 && tags == annotation.1 + NonEmpty(NormalizeAll(hashes.1));

    r := Tagged(cleaned, DedupeTags(tags), url);
  }

  /** `for (const tag of hashTags) { … tags.push(parsed) }`: the non-empty normalized hashtags appended. */
  method PushHashtags(tags: seq<string>, hashTags: seq<string>) returns (r: seq<string>)
    ensures r == tags + NonEmpty(NormalizeAll(hashTags))
  {
    r := tags;
    for k := 0 to |hashTags|
      invariant r == tags + NonEmpty(NormalizeAll(hashTags[..k]))
    {
      var parsed := NormalizeTag(hashTags[k]);
      PushHashtag(tags, hashTags, k);
      if parsed != "" {
        r := r + [parsed];
      }
    }
    assert hashTags[..|hashTags|] == hashTags;
  }

  /** One more hashtag extends the tag list by its normalized form, unless that is empty. */
  lemma PushHashtag(listed: seq<string>, hs: seq<string>, k: nat)
    requires k < |hs|
    ensures var p := NormalizeTag(hs[k]);
      listed + NonEmpty(NormalizeAll(hs[..k + 1])) ==
      listed + NonEmpty(NormalizeAll(hs[..k])) + (if p == "" then [] else [p])
  {
    NormalizeAllSnoc(hs, k);
    NonEmptySnoc(NormalizeAll(hs[..k]), NormalizeTag(hs[k]));
  }

  lemma NormalizeAllSnoc(xs: seq<string>, k: nat)
    requires k < |xs|
    ensures NormalizeAll(xs[..k + 1]) == NormalizeAll(xs[..k]) + [NormalizeTag(xs[k])]
  {
    assert xs[..k + 1] == xs[..k] + [xs[k]];
  }

  lemma {:induction false} NonEmptySnoc(xs: seq<string>, x: string)
    ensures NonEmpty(xs + [x]) == NonEmpty(xs) + (if x == "" then [] else [x])
    decreases |xs|
  {
    if xs == [] {
      assert [x][1..] == [];
    } else {
      assert (xs + [x])[1..] == xs[1..] + [x];
      NonEmptySnoc(xs[1..], x);
    }
  }
}
