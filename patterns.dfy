/**
 * The regular expressions of lib/readme.ts and app/page.tsx, each written out as
 * an explicit matcher with JavaScript's backtracking semantics: the leftmost
 * match wins, a lazy `+?` takes as little as it can and a greedy `+`/`*` as much
 * as it can while the rest of the pattern still matches.
 */
module Patterns {
  import opened Optional
  import opened Strings

  // ---------------------------------------------------------------------------
  // The lazily quantified patterns, searched anywhere in the text.
  // ---------------------------------------------------------------------------

  /** The four patterns whose first group is a lazy `(.+?)`. */
  datatype Lazy =
    | Bold     // \*\*(.+?)\*\*
    | Code     // `(.+?)`
    | Link     // \[(.+?)\]\((.+?)\)
    | UrlLink  // \[(.+?)\]\((https?:\/\/[^)]+)\)

  /** The character every match of `pat` starts with. */
  function Opener(pat: Lazy): char {
    match pat
    case Bold => '*'
    case Code => '`'
    case Link => '['
    case UrlLink => '['
  }

  /** Length of the opening delimiter in front of the first group. */
  function OpenLength(pat: Lazy): nat {
    if pat == Bold then 2 else 1
  }

  /** `(.+?)\)` starting at `a`: the index of the `)` that closes it. */
  function LazyClose(s: string, a: nat): (r: Option<nat>)
    requires a <= |s|
    ensures r.Some? ==> a < r.value < |s| && s[r.value] == ')' && NoLineTerminator(s[a..r.value])
    ensures r.Some? ==> forall j :: a < j < r.value ==> s[j] != ')'
    ensures r.None? ==> forall j :: a < j < |s| && s[j] == ')' ==> !NoLineTerminator(s[a..j])
  {
    LazyCloseFrom(s, a, a)
  }

  function LazyCloseFrom(s: string, a: nat, j: nat): (r: Option<nat>)
    requires a <= j <= |s|
    requires NoLineTerminator(s[a..j])
    requires forall k :: a < k < j ==> s[k] != ')'
    ensures r.Some? ==> j <= r.value < |s| && a < r.value && s[r.value] == ')' && NoLineTerminator(s[a..r.value])
    ensures r.Some? ==> forall k :: a < k < r.value ==> s[k] != ')'
    ensures r.None? ==> forall k :: a < k < |s| && s[k] == ')' ==> !NoLineTerminator(s[a..k])
    decreases |s| - j
  {
    if j == |s| then None
    else if IsLineTerminator(s[j]) then
      assert forall k :: j < k < |s| ==> s[a..k][j - a] == s[j];
      None
    else if j > a && s[j] == ')' then Some(j)
    else
      assert s[a..j + 1] == s[a..j] + [s[j]];
      LazyCloseFrom(s, a, j + 1)
  }

  /** Length of `https://` or `http://` at `a`, or 0 when neither is there. */
  function SchemeLength(s: string, a: nat): (n: nat)
    requires a <= |s|
    ensures a + n <= |s|
    ensures n == 0 || n == 7 || n == 8
  {
    if a + 8 <= |s| && s[a..a + 8] == "https://" then 8
    else if a + 7 <= |s| && s[a..a + 7] == "http://" then 7
    else 0
  }

  /** `FirstOf` finds the first separator: nothing else before `k` is one. */
  lemma {:induction false} FirstOfAt(s: string, seps: seq<char>, i: nat, k: nat)
    requires i <= k < |s| && s[k] in seps
    requires forall x :: i <= x < k ==> s[x] !in seps
    ensures FirstOf(s, seps, i) == k
    decreases k - i
  {
    if i < k { FirstOfAt(s, seps, i + 1, k); }
  }

  /** `(https?:\/\/[^)]+)\)` starting at `a`: the index of the closing `)`. */
  function UrlClose(s: string, a: nat): (r: Option<nat>)
    requires a <= |s|
    ensures r.Some? ==> SchemeLength(s, a) > 0 && a + SchemeLength(s, a) < r.value < |s| && s[r.value] == ')'
    ensures r.Some? ==> forall k :: a + SchemeLength(s, a) <= k < r.value ==> s[k] != ')'
  {
    var n := SchemeLength(s, a);
    if n == 0 then None
    else
      var k := FirstOf(s, [')'], a + n);
      if a + n < k < |s| then Some(k) else None
  }

  /** A match of `pat` starts at `p` and its first group ends at `q`. */
  predicate At(pat: Lazy, s: string, p: nat, q: nat) {
    match pat
    case Bold => BoldAt(s, p, q)
    case Code => CodeAt(s, p, q)
    case Link => LinkAt(s, p, q)
    case UrlLink => UrlLinkAt(s, p, q)
  }

  predicate BoldAt(s: string, p: nat, q: nat) {
    p + 3 <= q && q + 2 <= |s| && s[p..p + 2] == "**" && s[q..q + 2] == "**"
    && NoLineTerminator(s[p + 2..q])
  }

  predicate CodeAt(s: string, p: nat, q: nat) {
    p + 2 <= q < |s| && s[p] == '`' && s[q] == '`' && NoLineTerminator(s[p + 1..q])
  }

  predicate LinkAt(s: string, p: nat, q: nat) {
    p + 2 <= q && q + 2 <= |s| && s[p] == '[' && s[q] == ']' && s[q + 1] == '('
    && NoLineTerminator(s[p + 1..q]) && LazyClose(s, q + 2).Some?
  }

  predicate UrlLinkAt(s: string, p: nat, q: nat) {
    p + 2 <= q && q + 2 <= |s| && s[p] == '[' && s[q] == ']' && s[q + 1] == '('
    && NoLineTerminator(s[p + 1..q]) && UrlClose(s, q + 2).Some?
  }

  /** Where a match that `At` describes ends (one past its last character). */
  function End(pat: Lazy, s: string, p: nat, q: nat): (e: nat)
    requires At(pat, s, p, q)
    ensures q < e <= |s|
  {
    match pat
    case Bold => q + 2
    case Code => q + 1
    case Link => LazyClose(s, q + 2).value + 1
    case UrlLink => UrlClose(s, q + 2).value + 1
  }

  /** A match: where it starts, where its first group ends, where it ends. */
  datatype Hit = Hit(start: nat, mid: nat, end: nat)

  /** `h` is the match JavaScript reports for `pat` at `h.start`: its first group is the shortest. */
  predicate ShortestAt(pat: Lazy, s: string, h: Hit) {
    At(pat, s, h.start, h.mid) && h.end == End(pat, s, h.start, h.mid)
    && forall q: nat :: 0 <= q < h.mid ==> !At(pat, s, h.start, q)
  }

  /** The smallest `q >= from` with `At(pat, s, p, q)`. */
  function Shortest(pat: Lazy, s: string, p: nat, from: nat): (r: Option<nat>)
    ensures r.Some? ==> from <= r.value && At(pat, s, p, r.value)
    ensures r.Some? ==> forall q: nat :: from <= q < r.value ==> !At(pat, s, p, q)
    ensures r.None? ==> forall q: nat :: from <= q ==> !At(pat, s, p, q)
    decreases |s| - from
  {
    if At(pat, s, p, from) then Some(from)
    else if from >= |s| then None
    else Shortest(pat, s, p, from + 1)
  }

  /** The leftmost match of `pat` starting at or after `from`. */
  function Leftmost(pat: Lazy, s: string, from: nat): (r: Option<Hit>)
    ensures r.Some? ==> from <= r.value.start && ShortestAt(pat, s, r.value)
    ensures r.Some? ==> forall p: nat, q: nat :: from <= p < r.value.start ==> !At(pat, s, p, q)
    ensures r.None? ==> forall p: nat, q: nat :: from <= p ==> !At(pat, s, p, q)
    decreases |s| - from
  {
    if from >= |s| then None
    else match Shortest(pat, s, from, 0)
      case Some(q) => Some(Hit(from, q, End(pat, s, from, q)))
      case None => Leftmost(pat, s, from + 1)
  }

  /** `s.match(pat)` for one of the lazy patterns: the leftmost match, with the shortest first group. */
  function Find(pat: Lazy, s: string): (r: Option<Hit>)
    ensures r.Some? ==> ShortestAt(pat, s, r.value)
    ensures r.Some? ==> r.value.start + OpenLength(pat) < r.value.mid < r.value.end <= |s|
    ensures r.Some? ==> s[r.value.start] == Opener(pat)
    ensures r.Some? ==> forall p: nat, q: nat :: p < r.value.start ==> !At(pat, s, p, q)
    ensures r.None? ==> forall p: nat, q: nat :: !At(pat, s, p, q)
    ensures Opener(pat) !in s ==> r.None?
  {
    var r := Leftmost(pat, s, 0);
    if r.Some? then AtShape(pat, s, r.value.start, r.value.mid); r else r
  }

  lemma AtShape(pat: Lazy, s: string, p: nat, q: nat)
    requires At(pat, s, p, q)
    ensures p + OpenLength(pat) < q < |s| && s[p] == Opener(pat)
  {
  }

  /** `t[x..x + n]` and `u[y..y + n]` are the same text. */
  predicate Agree(t: string, x: nat, u: string, y: nat, n: nat) {
    x + n <= |t| && y + n <= |u| && t[x..x + n] == u[y..y + n]
  }

  lemma AgreeAt(t: string, x: nat, u: string, y: nat, n: nat, k: nat)
    requires Agree(t, x, u, y, n) && x <= k < x + n
    ensures u[k - x + y] == t[k]
  {
    assert t[x..x + n][k - x] == u[y..y + n][k - x];
  }

  lemma AgreeSlice(t: string, x: nat, u: string, y: nat, n: nat, a: nat, b: nat)
    requires Agree(t, x, u, y, n) && x <= a <= b <= x + n
    ensures u[a - x + y..b - x + y] == t[a..b]
  {
    forall k | 0 <= k < b - a ensures u[a - x + y..b - x + y][k] == t[a..b][k] {
      AgreeAt(t, x, u, y, n, a + k);
    }
  }

  lemma SchemeTransfer(t: string, x: nat, u: string, y: nat, n: nat, a: nat)
    requires Agree(t, x, u, y, n) && x <= a <= |t| && SchemeLength(t, a) > 0 && a + SchemeLength(t, a) < x + n
    ensures SchemeLength(u, a - x + y) == SchemeLength(t, a)
  {
    AgreeSlice(t, x, u, y, n, a, a + 8);
    AgreeSlice(t, x, u, y, n, a, a + 7);
  }

  lemma UrlCloseTransfer(t: string, x: nat, u: string, y: nat, n: nat, a: nat)
    requires Agree(t, x, u, y, n) && x <= a <= |t|
    requires UrlClose(t, a).Some? && UrlClose(t, a).value < x + n
    ensures UrlClose(u, a - x + y) == Some(UrlClose(t, a).value - x + y)
  {
    var m := SchemeLength(t, a);
    var c := UrlClose(t, a).value;
    SchemeTransfer(t, x, u, y, n, a);
    forall k | a - x + y + m <= k < c - x + y ensures u[k] !in [')'] {
      AgreeAt(t, x, u, y, n, k + x - y);
    }
    AgreeAt(t, x, u, y, n, c);
    FirstOfAt(u, [')'], a - x + y + m, c - x + y);
  }

  /**
   * A `UrlLink` match tests only characters inside the matched text, so the same
   * text anywhere else is a match there too.
   */
  lemma UrlLinkTransfer(t: string, x: nat, u: string, y: nat, n: nat, p: nat, q: nat)
    requires Agree(t, x, u, y, n) && x <= p && UrlLinkAt(t, p, q)
    requires UrlClose(t, q + 2).value < x + n
    ensures UrlLinkAt(u, p - x + y, q - x + y)
  {
    AgreeSlice(t, x, u, y, n, p + 1, q);
    AgreeAt(t, x, u, y, n, p);
    AgreeAt(t, x, u, y, n, q);
    AgreeAt(t, x, u, y, n, q + 1);
    UrlCloseTransfer(t, x, u, y, n, q + 2);
  }

  /** The text of a `UrlLink` match, found again further left, is a match there too. */
  lemma ShiftedUrlMatch(s: string, p: nat, q: nat, j: nat)
    requires At(UrlLink, s, p, q)
    requires j < p && OccursAt(s, s[p..End(UrlLink, s, p, q)], j)
    ensures At(UrlLink, s, j, q - (p - j))
  {
    var e := End(UrlLink, s, p, q);
    UrlLinkTransfer(s, p, s, j, e - p, p, q);
  }

  /** `s.replace(m[0], …)` finds a `UrlLink` match exactly where the match is. */
  lemma UrlMatchFirstOccurrence(s: string, h: Hit)
    requires Find(UrlLink, s) == Some(h)
    ensures IndexOf(s, Matched(s, h)) == Some(h.start)
  {
    var m := Matched(s, h);
    assert OccursAt(s, m, h.start);
    forall j: nat | j < h.start ensures !OccursAt(s, m, j) {
      if OccursAt(s, m, j) {
        ShiftedUrlMatch(s, h.start, h.mid, j);
        assert false;
      }
    }
    var r := IndexOf(s, m);
    assert r.Some?;
    assert !(r.value < h.start) && !(h.start < r.value);
  }

  /** The text of the first group `(.+?)` of a match. */
  function Group1(pat: Lazy, s: string, h: Hit): (g: string)
    requires ShortestAt(pat, s, h)
    ensures |g| > 0 && NoLineTerminator(g)
  {
    var g := s[h.start + OpenLength(pat)..h.mid];
    assert g == s[h.start + OpenLength(pat)..h.mid];
    g
  }

  /** The link target of a `Link` or `UrlLink` match, the text between `(` and `)`. */
  function Target(pat: Lazy, s: string, h: Hit): (t: string)
    requires pat == Link || pat == UrlLink
    requires ShortestAt(pat, s, h)
    ensures |t| > 0
    ensures pat == UrlLink ==> (|t| > 8 && t[..8] == "https://") || (|t| > 7 && t[..7] == "http://")
  {
    var t := s[h.mid + 2..h.end - 1];
    if pat == UrlLink then
      var a := h.mid + 2;
      assert SchemeLength(s, a) == 8 ==> t[..8] == s[a..a + 8];
      assert SchemeLength(s, a) == 7 ==> t[..7] == s[a..a + 7];
      t
    else t
  }

  /** The matched text, `match[0]`. */
  function Matched(s: string, h: Hit): string
    requires h.start <= h.end <= |s|
  {
    s[h.start..h.end]
  }

  /**
   * `s.replace(/pat/g, '$1')`: from left to right, every match is replaced by its
   * first group and the scan continues after it.
   */
  function ReplaceAll(pat: Lazy, s: string): (r: string)
    ensures |r| <= |s|
    ensures Opener(pat) !in s ==> r == s
    decreases |s|
  {
    match Find(pat, s)
    case None => s
    case Some(h) => s[..h.start] + Group1(pat, s, h) + ReplaceAll(pat, s[h.end..])
  }

  /**
   * The first match is the one at the first opener: when a match starts at `p`
   * with shortest group end `q` and no opener comes before `p`, that span is
   * replaced by its group and the scan goes on after it.
   */
  lemma ReplaceFirstAt(pat: Lazy, s: string, p: nat, q: nat, n: nat, e: nat, rest: string)
    requires p < |s| && At(pat, s, p, q) && Opener(pat) !in s[..p]
    requires forall x: nat :: x < q ==> !At(pat, s, p, x)
    requires n == OpenLength(pat) && e == End(pat, s, p, q) && rest == s[e..]
    ensures p + n <= q < e <= |s|
    ensures ReplaceAll(pat, s) == s[..p] + s[p + n..q] + ReplaceAll(pat, rest)
  {
    AtShape(pat, s, p, q);
    FindAt(pat, s, p, q);
    ReplaceStep(pat, s, Hit(p, q, e));
  }

  /** The match `Find` reports is the one at the first opener, with its shortest group. */
  lemma FindAt(pat: Lazy, s: string, p: nat, q: nat)
    requires p < |s| && At(pat, s, p, q) && Opener(pat) !in s[..p]
    requires forall x: nat :: x < q ==> !At(pat, s, p, x)
    ensures Find(pat, s) == Some(Hit(p, q, End(pat, s, p, q)))
  {
    var h := Find(pat, s).value;
    assert h.start == p;
    assert h.mid == q;
  }

  /** One step of `ReplaceAll`: the found match becomes its first group. */
  lemma ReplaceStep(pat: Lazy, s: string, h: Hit)
    requires Find(pat, s) == Some(h)
    ensures ReplaceAll(pat, s) == s[..h.start] + s[h.start + OpenLength(pat)..h.mid] + ReplaceAll(pat, s[h.end..])
  {
  }

  /** `**x**` between texts without `*`: the bold span becomes its text `x`. */
  lemma BoldSpan(a: string, x: string, b: string)
    requires '*' !in a && '*' !in x && '*' !in b
    requires x != [] && NoLineTerminator(x)
    ensures ReplaceAll(Bold, a + "**" + x + "**" + b) == a + x + b
  {
    var s := a + "**" + x + "**" + b;
    var p := |a|;
    var q := p + 2 + |x|;
    Pieces(s, a, "**", x, "**", b, p + 2, q, q + 2);
    BoldSpanAt(s, p, q, b);
  }

  /** The bold span `s[p..q + 2]`, with no `*` before it or inside it, becomes its text. */
  lemma BoldSpanAt(s: string, p: nat, q: nat, rest: string)
    requires p + 3 <= q && q + 2 <= |s| && s[p..p + 2] == "**" && s[q..q + 2] == "**"
    requires '*' !in s[..p] && '*' !in s[p + 2..q] && NoLineTerminator(s[p + 2..q])
    requires rest == s[q + 2..]
    ensures ReplaceAll(Bold, s) == s[..p] + s[p + 2..q] + ReplaceAll(Bold, rest)
  {
    forall y: nat | y < q ensures !At(Bold, s, p, y) {
      if p + 3 <= y {
        assert s[y] == s[p + 2..q][y - p - 2];
      }
      BoldCloser(s, p, y);
    }
    ReplaceFirstAt(Bold, s, p, q, 2, q + 2, rest);
  }

  /** A bold match ending its group at `y` has a `*` there. */
  lemma BoldCloser(s: string, p: nat, y: nat)
    requires y < p + 3 || y >= |s| || s[y] != '*'
    ensures !At(Bold, s, p, y)
  {
    if p + 3 <= y && y + 2 <= |s| {
      assert s[y..y + 2][0] == s[y];
    }
  }

  /** `` `x` `` between texts without backticks: the code span becomes its text `x`. */
  lemma CodeSpan(a: string, x: string, b: string)
    requires '`' !in a && '`' !in x && '`' !in b
    requires x != [] && NoLineTerminator(x)
    ensures ReplaceAll(Code, a + "`" + x + "`" + b) == a + x + b
  {
    var s := a + "`" + x + "`" + b;
    var p := |a|;
    var q := p + 1 + |x|;
    Pieces(s, a, "`", x, "`", b, p + 1, q, q + 1);
    CodeSpanAt(s, p, q, b);
  }

  /** The code span `s[p..q + 1]`, with no backtick before it or inside it, becomes its text. */
  lemma CodeSpanAt(s: string, p: nat, q: nat, rest: string)
    requires p + 2 <= q < |s| && s[p] == '`' && s[q] == '`'
    requires '`' !in s[..p] && '`' !in s[p + 1..q] && NoLineTerminator(s[p + 1..q])
    requires rest == s[q + 1..]
    ensures ReplaceAll(Code, s) == s[..p] + s[p + 1..q] + ReplaceAll(Code, rest)
  {
    forall y: nat | y < q ensures !At(Code, s, p, y) {
      if p + 2 <= y { assert s[y] == s[p + 1..q][y - p - 1]; }
    }
    ReplaceFirstAt(Code, s, p, q, 1, q + 1, rest);
  }

  /**
   * `[x](u)` between texts without `[`: the link becomes its text `x` and the
   * target `u` is dropped.
   */
  lemma LinkSpan(a: string, x: string, u: string, b: string)
    requires '[' !in a && '[' !in b && ']' !in x && ')' !in u
    requires x != [] && u != [] && NoLineTerminator(x) && NoLineTerminator(u)
    ensures ReplaceAll(Link, a + "[" + x + "](" + u + ")" + b) == a + x + b
  {
    var s := a + "[" + x + "](" + u + ")" + b;
    var p := |a|;
    var q := p + 1 + |x|;
    var c := q + 2 + |u|;
    LinkPieces(s, a, x, u, b, p, q, c);
    LinkSpanAt(s, p, q, c, b);
  }

  /** The link `s[p..c + 1]`, with no `[` before it, `]` in its text or `)` in its target, becomes its text. */
  lemma LinkSpanAt(s: string, p: nat, q: nat, c: nat, rest: string)
    requires p + 2 <= q && q + 2 < c < |s| && s[p] == '[' && s[q] == ']' && s[q + 1] == '(' && s[c] == ')'
    requires '[' !in s[..p] && ']' !in s[p + 1..q] && ')' !in s[q + 2..c]
    requires NoLineTerminator(s[p + 1..q]) && NoLineTerminator(s[q + 2..c])
    requires rest == s[c + 1..]
    ensures ReplaceAll(Link, s) == s[..p] + s[p + 1..q] + ReplaceAll(Link, rest)
  {
    LinkAtShortest(s, p, q, c);
    ReplaceFirstAt(Link, s, p, q, 1, c + 1, rest);
  }

  /** Such a link matches at `p` with its shortest text ending at `q`, and ends after `c`. */
  lemma LinkAtShortest(s: string, p: nat, q: nat, c: nat)
    requires p + 2 <= q && q + 2 < c < |s| && s[p] == '[' && s[q] == ']' && s[q + 1] == '(' && s[c] == ')'
    requires ']' !in s[p + 1..q] && ')' !in s[q + 2..c]
    requires NoLineTerminator(s[p + 1..q]) && NoLineTerminator(s[q + 2..c])
    ensures At(Link, s, p, q) && End(Link, s, p, q) == c + 1
    ensures forall y: nat :: y < q ==> !At(Link, s, p, y)
  {
    forall k | q + 2 < k < c ensures s[k] != ')' {
      assert s[k] == s[q + 2..c][k - q - 2];
    }
    LazyCloseIs(s, q + 2, c);
    forall y: nat | y < q ensures !At(Link, s, p, y) {
      if p + 2 <= y { assert s[y] == s[p + 1..q][y - p - 1]; }
      LinkCloser(s, p, y);
    }
  }

  /** A link match whose text ends at `y` has a `]` there. */
  lemma LinkCloser(s: string, p: nat, y: nat)
    requires y < p + 2 || y >= |s| || s[y] != ']'
    ensures !At(Link, s, p, y)
  {
  }

  /** The pieces of a link `a + "[" + x + "](" + u + ")" + b`, each at its place. */
  lemma LinkPieces(s: string, a: string, x: string, u: string, b: string, p: nat, q: nat, c: nat)
    requires s == a + "[" + x + "](" + u + ")" + b
    requires p == |a| && q == p + 1 + |x| && c == q + 2 + |u|
    ensures c < |s| && s[..p] == a && s[p] == '[' && s[p + 1..q] == x
    ensures s[q] == ']' && s[q + 1] == '(' && s[q + 2..c] == u && s[c] == ')' && s[c + 1..] == b
  {
    Pieces(s, a + "[" + x, "](", u, ")", b, q + 2, c, c + 1);
    var t := a + "[" + x;
    assert s[..q] == t;
    Pieces(t, a, "[", x, "", "", p + 1, q, q);
    assert s[..p] == t[..p] && s[p + 1..q] == t[p + 1..q];
    assert s[q..q + 2][0] == s[q] && s[q..q + 2][1] == s[q + 1];
  }

  /** The five pieces of `s == a + m + x + n + b`, each at its place. */
  lemma Pieces(s: string, a: string, m: string, x: string, n: string, b: string, i: nat, j: nat, k: nat)
    requires s == a + m + x + n + b
    requires i == |a| + |m| && j == i + |x| && k == j + |n|
    ensures s[..|a|] == a && s[|a|..i] == m && s[i..j] == x && s[j..k] == n && s[k..] == b
  {
  }

  /** `(.+?)\)` closes at the first `)` after `a` when no line terminator comes before it. */
  lemma LazyCloseIs(s: string, a: nat, c: nat)
    requires a < c < |s| && s[c] == ')' && NoLineTerminator(s[a..c])
    requires forall k :: a < k < c ==> s[k] != ')'
    ensures LazyClose(s, a) == Some(c)
  {
  }

  // ---------------------------------------------------------------------------
  // `\((?:tags?|categories?)\s*:\s*([^)]+)\)` with the `i` flag.
  // ---------------------------------------------------------------------------

  /** A tag annotation match: where it starts, its list group, and where it ends. */
  datatype Annotation = Annotation(start: nat, listStart: nat, listEnd: nat, end: nat)

  /** The alternatives of `(?:tags?|categories?)` in the order the engine tries them. */
  const AnnotationKeywords: seq<string> := ["tags", "tag", "categories", "categorie"]

  /** `\s*:\s*([^)]+)\)` at `a`: the bounds of the list group (its `)` is at the second index). */
  function AnnotationRest(s: string, a: nat): (r: Option<(nat, nat)>)
    requires a <= |s|
    ensures r.Some? ==> a < r.value.0 < r.value.1 < |s| && s[r.value.1] == ')'
    ensures r.Some? ==> forall k :: r.value.0 <= k < r.value.1 ==> s[k] != ')'
  {
    var c := a + SpaceRun(s, a);
    if c < |s| && s[c] == ':' then
      var w := SpaceRun(s, c + 1);
      var e := FirstOf(s, [')'], c + 1);
      if e == |s| then None
      else if e > c + 1 + w then Some((c + 1 + w, e))
      else if w >= 1 then Some((e - 1, e))
      else None
    else None
  }

  function AnnotationByKeyword(s: string, p: nat, keywords: seq<string>): (r: Option<Annotation>)
    requires p < |s|
    ensures r.Some? ==> r.value.start == p < r.value.listStart < r.value.listEnd < r.value.end <= |s|
    ensures r.Some? ==> r.value.end == r.value.listEnd + 1 && s[r.value.listEnd] == ')'
    decreases |keywords|
  {
    if keywords == [] then None
    else if StartsWithIgnoreCase(s[p + 1..], keywords[0]) then
      match AnnotationRest(s, p + 1 + |keywords[0]|)
      case Some((ls, e)) => Some(Annotation(p, ls, e, e + 1))
      case None => AnnotationByKeyword(s, p, keywords[1..])
    else AnnotationByKeyword(s, p, keywords[1..])
  }

  /** The annotation match starting exactly at `p`, if any. */
  function AnnotationAt(s: string, p: nat): (r: Option<Annotation>)
    ensures r.Some? ==> r.value.start == p < r.value.listStart < r.value.listEnd < r.value.end <= |s|
    ensures r.Some? ==> s[p] == '(' && r.value.end == r.value.listEnd + 1
    ensures p >= |s| ==> r.None?
  {
    if p < |s| && s[p] == '(' then AnnotationByKeyword(s, p, AnnotationKeywords) else None
  }

  /** No annotation match starts anywhere in `[from, to)`. */
  predicate NoAnnotationIn(s: string, from: nat, to: nat) {
    forall p: nat :: from <= p < to ==> AnnotationAt(s, p).None?
  }

  function AnnotationFrom(s: string, from: nat): (r: Option<Annotation>)
    ensures r.Some? ==> from <= r.value.start && AnnotationAt(s, r.value.start) == r
    ensures r.Some? ==> NoAnnotationIn(s, from, r.value.start)
    ensures r.None? ==> NoAnnotationIn(s, from, |s|)
    decreases |s| - from
  {
    if from >= |s| then None
    else
      var a := AnnotationAt(s, from);
      if a.Some? then a
      else
        var r := AnnotationFrom(s, from + 1);
        NoAnnotationExtend(s, from, if r.Some? then r.value.start else |s|);
        r
  }

  lemma NoAnnotationExtend(s: string, from: nat, to: nat)
    requires AnnotationAt(s, from).None? && NoAnnotationIn(s, from + 1, to)
    ensures NoAnnotationIn(s, from, to)
  {
  }

  /** The leftmost tag annotation in `s`. */
  function FindAnnotation(s: string): (r: Option<Annotation>)
    ensures r.Some? ==> AnnotationAt(s, r.value.start) == r
    ensures r.Some? ==> forall p: nat :: p < r.value.start ==> AnnotationAt(s, p).None?
    ensures r.None? ==> forall p: nat :: AnnotationAt(s, p).None?
    ensures '(' !in s ==> r.None?
  {
    AnnotationFrom(s, 0)
  }

  /** A whitespace run that stops inside agreeing text has the same length in both copies. */
  lemma {:induction false} SpaceRunTransfer(t: string, x: nat, u: string, y: nat, n: nat, a: nat)
    requires Agree(t, x, u, y, n) && x <= a <= |t| && a + SpaceRun(t, a) < x + n
    ensures a - x + y <= |u| && SpaceRun(u, a - x + y) == SpaceRun(t, a)
    decreases |t| - a
  {
    AgreeAt(t, x, u, y, n, a);
    if IsSpace(t[a]) {
      SpaceRunTransfer(t, x, u, y, n, a + 1);
    }
  }

  /** When `AnnotationRest` matches: a colon after whitespace, and a `)` that leaves a non-empty list. */
  predicate RestMatches(s: string, a: nat, c: nat, w: nat, e: nat) {
    c < |s| && s[c] == ':' && c + 1 + w <= e < |s| && s[e] == ')'
    && (e > c + 1 + w || w >= 1)
  }

  /** `AnnotationRest` at `a` sees the colon at `c`, `w` spaces after it and the first `)` at `e`, and matches. */
  predicate RestFacts(s: string, a: nat, c: nat, w: nat, e: nat) {
    a <= |s| && c == a + SpaceRun(s, a) && c < |s|
    && w == SpaceRun(s, c + 1) && e == FirstOf(s, [')'], c + 1) && RestMatches(s, a, c, w, e)
  }

  /** What `AnnotationRest` found when it matched. */
  lemma RestOf(s: string, a: nat)
    requires a <= |s| && AnnotationRest(s, a).Some?
    ensures var c := a + SpaceRun(s, a);
      c < |s| && RestFacts(s, a, c, SpaceRun(s, c + 1), FirstOf(s, [')'], c + 1))
      && AnnotationRest(s, a).value.1 == FirstOf(s, [')'], c + 1)
  {
  }

  /** The converse: those facts make `AnnotationRest` match. */
  lemma RestSome(s: string, a: nat, c: nat, w: nat, e: nat)
    requires RestFacts(s, a, c, w, e)
    ensures AnnotationRest(s, a).Some?
  {
  }

  /** `\s*:\s*([^)]+)\)` at `a`, closed inside agreeing text, matches in the other copy too. */
  lemma AnnotationRestTransfer(t: string, x: nat, u: string, y: nat, n: nat, a: nat, b: nat)
    requires Agree(t, x, u, y, n) && x <= a <= |t| && b == a - x + y
    requires AnnotationRest(t, a).Some? && AnnotationRest(t, a).value.1 < x + n
    ensures b <= |u| && AnnotationRest(u, b).Some?
  {
    RestOf(t, a);
    var c := a + SpaceRun(t, a);
    var w, e := SpaceRun(t, c + 1), FirstOf(t, [')'], c + 1);
    RestFactsTransfer(t, x, u, y, n, a, c, w, e, b);
  }

  lemma RestFactsTransfer(t: string, x: nat, u: string, y: nat, n: nat, a: nat, c: nat, w: nat, e: nat, b: nat)
    requires Agree(t, x, u, y, n) && x <= a && e < x + n && RestFacts(t, a, c, w, e) && b == a - x + y
    ensures b <= |u| && AnnotationRest(u, b).Some?
  {
    var c2: nat, e2: nat := c - x + y, e - x + y;
    SpaceRunTransfer(t, x, u, y, n, a);
    assert b + SpaceRun(u, b) == c2;
    SpaceRunTransfer(t, x, u, y, n, c + 1);
    assert c + 1 - x + y == c2 + 1 && SpaceRun(u, c2 + 1) == w;
    RestTransferMatches(t, x, u, y, n, a, c, w, e);
    assert b <= |u| && c2 == b + SpaceRun(u, b) && c2 < |u|;
    assert w == SpaceRun(u, c2 + 1);
    assert e2 == FirstOf(u, [')'], c2 + 1);
    assert RestMatches(u, b, c2, w, e2);
    assert RestFacts(u, b, c2, w, e2);
    RestSome(u, b, c2, w, e2);
  }

  lemma RestTransferMatches(t: string, x: nat, u: string, y: nat, n: nat, a: nat, c: nat, w: nat, e: nat)
    requires Agree(t, x, u, y, n) && x <= a <= c && e < x + n
    requires RestMatches(t, a, c, w, e) && e == FirstOf(t, [')'], c + 1)
    ensures RestMatches(u, a - x + y, c - x + y, w, e - x + y)
    ensures FirstOf(u, [')'], c - x + y + 1) == e - x + y
  {
    AgreeAt(t, x, u, y, n, c);
    AgreeAt(t, x, u, y, n, e);
    forall k | c - x + y + 1 <= k < e - x + y ensures u[k] !in [')'] {
      AgreeAt(t, x, u, y, n, k + x - y);
    }
    FirstOfAt(u, [')'], c - x + y + 1, e - x + y);
  }

  /** Keyword `kw` and the rest after it match at `p`. */
  predicate KeywordHit(s: string, p: nat, kw: string) {
    p < |s| && StartsWithIgnoreCase(s[p + 1..], kw) && AnnotationRest(s, p + 1 + |kw|).Some?
  }

  /** `AnnotationByKeyword` tries the first keyword, then the others. */
  lemma KeywordStep(s: string, p: nat, keywords: seq<string>)
    requires p < |s| && keywords != []
    ensures var r := AnnotationByKeyword(s, p, keywords);
      if KeywordHit(s, p, keywords[0]) then r.Some? && r.value.end == AnnotationRest(s, p + 1 + |keywords[0]|).value.1 + 1
      else r == AnnotationByKeyword(s, p, keywords[1..])
  {
  }

  /** A keyword hit inside agreeing text is a hit in the other copy too. */
  lemma KeywordHitTransfer(t: string, x: nat, u: string, y: nat, n: nat, kw: string)
    requires KeywordHit(t, x, kw) && y < |u| && Agree(t, x, u, y, n)
    requires AnnotationRest(t, x + 1 + |kw|).value.1 < x + n
    ensures KeywordHit(u, y, kw)
  {
    StartsTransfer(t, x, u, y, n, kw);
    AnnotationRestTransfer(t, x, u, y, n, x + 1 + |kw|, y + 1 + |kw|);
  }

  lemma StartsTransfer(t: string, x: nat, u: string, y: nat, n: nat, kw: string)
    requires x < |t| && y < |u| && Agree(t, x, u, y, n) && x + 1 + |kw| < x + n
    requires StartsWithIgnoreCase(t[x + 1..], kw)
    ensures StartsWithIgnoreCase(u[y + 1..], kw)
  {
    var a := x + 1 + |kw|;
    AgreeSlice(t, x, u, y, n, x + 1, a);
    assert t[x + 1..][..|kw|] == t[x + 1..a];
    assert u[y + 1..][..|kw|] == u[y + 1..y + 1 + |kw|];
  }

  /** An annotation found through one of `keywords` at `x` is found at `y` when the same text is there. */
  lemma {:induction false} AnnotationKeywordTransfer(t: string, x: nat, u: string, y: nat, n: nat, keywords: seq<string>)
    requires x < |t| && y < |u| && Agree(t, x, u, y, n)
    requires AnnotationByKeyword(t, x, keywords).Some? && AnnotationByKeyword(t, x, keywords).value.end <= x + n
    ensures AnnotationByKeyword(u, y, keywords).Some?
    decreases |keywords|
  {
    if KeywordHit(t, x, keywords[0]) {
      HitCase(t, x, u, y, n, keywords);
    } else {
      MissCase(t, x, keywords);
      AnnotationKeywordTransfer(t, x, u, y, n, keywords[1..]);
      LaterKeyword(u, y, keywords);
    }
  }

  lemma HitCase(t: string, x: nat, u: string, y: nat, n: nat, keywords: seq<string>)
    requires x < |t| && y < |u| && Agree(t, x, u, y, n) && keywords != []
    requires KeywordHit(t, x, keywords[0])
    requires AnnotationByKeyword(t, x, keywords).Some? && AnnotationByKeyword(t, x, keywords).value.end <= x + n
    ensures AnnotationByKeyword(u, y, keywords).Some?
  {
    KeywordStep(t, x, keywords);
    KeywordHitTransfer(t, x, u, y, n, keywords[0]);
    KeywordStep(u, y, keywords);
  }

  lemma MissCase(s: string, p: nat, keywords: seq<string>)
    requires p < |s| && keywords != [] && !KeywordHit(s, p, keywords[0])
    ensures AnnotationByKeyword(s, p, keywords) == AnnotationByKeyword(s, p, keywords[1..])
  {
    KeywordStep(s, p, keywords);
  }

  lemma LaterKeyword(s: string, j: nat, keywords: seq<string>)
    requires j < |s| && keywords != [] && AnnotationByKeyword(s, j, keywords[1..]).Some?
    ensures AnnotationByKeyword(s, j, keywords).Some?
  {
    KeywordStep(s, j, keywords);
  }

  /** The text of an annotation match, found again at `j`, is a match there too. */
  lemma AnnotationCopy(s: string, p: nat, j: nat)
    requires AnnotationAt(s, p).Some? && j < |s|
    requires OccursAt(s, s[p..AnnotationAt(s, p).value.end], j)
    ensures AnnotationAt(s, j).Some?
  {
    var e := AnnotationAt(s, p).value.end;
    assert s[j] == s[p..e][0] == '(';
    AnnotationKeywordTransfer(s, p, s, j, e - p, AnnotationKeywords);
  }

  /** `s.replace(m[0], '')` finds an annotation match exactly where the match is. */
  lemma AnnotationFirstOccurrence(s: string)
    requires FindAnnotation(s).Some?
    ensures var a := FindAnnotation(s).value; IndexOf(s, s[a.start..a.end]) == Some(a.start)
  {
    var a := FindAnnotation(s).value;
    var m := s[a.start..a.end];
    assert OccursAt(s, m, a.start);
    forall j: nat | j < a.start ensures !OccursAt(s, m, j) {
      if OccursAt(s, m, j) {
        AnnotationCopy(s, a.start, j);
      }
    }
    var r := IndexOf(s, m);
    assert !(r.value < a.start) && !(a.start < r.value);
  }

  // ---------------------------------------------------------------------------
  // `(^|\s)#([a-z0-9-]+)` with the `g` and `i` flags.
  // ---------------------------------------------------------------------------

  predicate IsTagChar(c: char) {
    'a' <= c <= 'z' || 'A' <= c <= 'Z' || '0' <= c <= '9' || c == '-'
  }

  function TagCharRun(s: string, i: nat): (n: nat)
    ensures i + n <= |s| || n == 0
    ensures forall k :: i <= k < i + n ==> IsTagChar(s[k])
    decreases |s| - i
  {
    if i < |s| && IsTagChar(s[i]) then 1 + TagCharRun(s, i + 1) else 0
  }

  /** The end of a hashtag match starting exactly at `p`, if any. */
  function HashtagAt(s: string, p: nat): (r: Option<nat>)
    ensures r.Some? ==> p < r.value <= |s|
    ensures r.Some? ==> s[p] == '#' || (p + 1 < |s| && s[p + 1] == '#')
  {
    if p == 0 && |s| > 1 && s[0] == '#' && TagCharRun(s, 1) > 0 then
      Some(1 + TagCharRun(s, 1))
    else if p + 2 < |s| && IsSpace(s[p]) && s[p + 1] == '#' && TagCharRun(s, p + 2) > 0 then
      Some(p + 2 + TagCharRun(s, p + 2))
    else None
  }

  /**
   * `s.match(/(^|\s)#[a-z0-9-]+/gi)` and `s.replace(/(^|\s)#[a-z0-9-]+/gi, '')`
   * scanned from `p` together: the matched texts in order, and the text left over.
   */
  function ScanHashtags(s: string, p: nat): (r: (seq<string>, string))
    requires p <= |s|
    decreases |s| - p
  {
    if p == |s| then ([], s[p..])
    else match HashtagAt(s, p)
      case Some(e) =>
        var rest := ScanHashtags(s, e);
        ([s[p..e]] + rest.0, rest.1)
      case None =>
        var rest := ScanHashtags(s, p + 1);
        (rest.0, [s[p]] + rest.1)
  }

  /** Text without `#` from `p` on has no hashtag: nothing matches and all of it is left. */
  lemma {:induction false} ScanNoHashtag(s: string, p: nat)
    requires p <= |s| && '#' !in s[p..]
    ensures ScanHashtags(s, p) == ([], s[p..])
    decreases |s| - p
  {
    if p < |s| {
      assert s[p..][0] == s[p] && (p + 1 < |s| ==> s[p..][1] == s[p + 1]);
      assert HashtagAt(s, p) == None;
      assert s[p..] == [s[p]] + s[p + 1..];
      assert forall c :: c in s[p + 1..] ==> c in s[p..];
      ScanNoHashtag(s, p + 1);
    }
  }

  /** A run of `n` tag characters that ends the text or stops at a non-tag character is read whole. */
  lemma {:induction false} TagCharRunExact(s: string, i: nat, n: nat)
    requires i + n <= |s| && forall k :: i <= k < i + n ==> IsTagChar(s[k])
    requires i + n == |s| || !IsTagChar(s[i + n])
    ensures TagCharRun(s, i) == n
    decreases n
  {
    if n > 0 { TagCharRunExact(s, i + 1, n - 1); }
  }

  /**
   * One whitespace-led hashtag `#w` in text that has no other `#`: the scan finds
   * exactly ` #w`, and the text left over is what surrounds it.
   */
  lemma HashtagScan(a: string, w: string, b: string)
    requires '#' !in a && '#' !in b
    requires w != [] && forall i :: 0 <= i < |w| ==> IsTagChar(w[i])
    requires b == [] || !IsTagChar(b[0])
    ensures ScanHashtags(a + " #" + w + b, 0) == ([" #" + w], a + b)
  {
    var s := a + " #" + w + b;
    var m := |a|;
    var e := m + 2 + |w|;
    assert s[..m] == a && s[m..e] == " #" + w && s[e..] == b;
    HashtagScanAt(s, m, e);
  }

  /** The same, with the hashtag given by its place `s[m..e]` in the text. */
  lemma HashtagScanAt(s: string, m: nat, e: nat)
    requires m + 2 < e <= |s| && s[m] == ' ' && s[m + 1] == '#'
    requires forall k :: m + 2 <= k < e ==> IsTagChar(s[k])
    requires e == |s| || !IsTagChar(s[e])
    requires '#' !in s[..m] && '#' !in s[e..]
    ensures ScanHashtags(s, 0) == ([s[m..e]], s[..m] + s[e..])
  {
    TagCharRunExact(s, m + 2, e - m - 2);
    assert HashtagAt(s, m) == Some(e);
    ScanTake(s, m, e);
    ScanNoHashtag(s, e);
    assert [s[m..e]] + [] == [s[m..e]];
    assert forall k :: 0 <= k < m ==> s[k] == s[..m][k];
    ScanPlainPrefix(s, m, 0, [s[m..e]], s[e..]);
    assert s[0..m] == s[..m];
  }

  /** Before the first hashtag, a text without `#` is kept character by character. */
  lemma {:induction false} ScanPlainPrefix(s: string, m: nat, p: nat, tags: seq<string>, left: string)
    requires p <= m < |s| && IsSpace(s[m]) && s[m] != '#'
    requires forall k :: 0 <= k < m ==> s[k] != '#'
    requires ScanHashtags(s, m).0 == tags && ScanHashtags(s, m).1 == left
    ensures ScanHashtags(s, p).0 == tags && ScanHashtags(s, p).1 == s[p..m] + left
    decreases m - p
  {
    if p == m {
      assert s[p..m] + left == left;
    } else {
      NoHashtagAt(s, p);
      var after := s[p + 1..m] + left;
      ScanPlainPrefix(s, m, p + 1, tags, left);
      ScanSkip(s, p, tags, after);
      ConsAppend(s[p], s[p + 1..m], left);
      assert s[p..m] == [s[p]] + s[p + 1..m];
    }
  }

  /** No hashtag starts where neither the character nor the next one is `#`. */
  lemma NoHashtagAt(s: string, p: nat)
    requires p + 1 < |s| && s[p] != '#' && s[p + 1] != '#'
    ensures HashtagAt(s, p) == None
  {
  }

  lemma ConsAppend(c: char, u: string, x: string)
    ensures [c] + (u + x) == ([c] + u) + x
  {
  }

  /** A position where no hashtag starts keeps its character and the scan moves on. */
  lemma ScanSkip(s: string, p: nat, tags: seq<string>, left: string)
    requires p < |s| && HashtagAt(s, p) == None
    requires ScanHashtags(s, p + 1).0 == tags && ScanHashtags(s, p + 1).1 == left
    ensures ScanHashtags(s, p).0 == tags && ScanHashtags(s, p).1 == [s[p]] + left
  {
  }

  /** A hashtag that starts at `p` is taken, and the scan goes on after it. */
  lemma ScanTake(s: string, p: nat, e: nat)
    requires p < |s| && HashtagAt(s, p) == Some(e)
    ensures ScanHashtags(s, p) == ([s[p..e]] + ScanHashtags(s, e).0, ScanHashtags(s, e).1)
  {
  }

  // ---------------------------------------------------------------------------
  // Anchored patterns.
  // ---------------------------------------------------------------------------

  /** `w` splits at `k` into at least `least` whitespace characters and a non-empty rest free of line terminators. */
  predicate RestSplit(w: string, k: nat, least: nat) {
    least <= k < |w| && AllSpace(w[..k]) && NoLineTerminator(w[k..])
  }

  /**
   * `^\s*(.+)$` (when `least` is 0) or `^\s+(.+)$` (when `least` is 1) applied to `w`:
   * the captured rest. The greedy whitespace run is as long as it can be.
   */
  function SpacedRest(w: string, least: nat): (r: Option<string>)
    requires least <= 1
    ensures r.Some? ==> |r.value| <= |w| && r.value == w[|w| - |r.value|..]
    ensures r.Some? ==> RestSplit(w, |w| - |r.value|, least)
    ensures r.Some? ==> forall k: nat :: |w| - |r.value| < k ==> !RestSplit(w, k, least)
    ensures r.None? ==> forall k: nat :: !RestSplit(w, k, least)
  {
    var m := SpaceRun(w, 0);
    if m < least then
      assert forall k :: least <= k < |w| ==> w[..k][0] == w[0];
      None
    else if m < |w| then
      assert forall k :: m < k < |w| ==> w[..k][m] == w[m];
      if NoLineTerminator(w[m..]) then Some(w[m..])
      else
        SuffixNotSplit(w, m, least);
        None
    else if |w| >= least + 1 && !IsLineTerminator(w[|w| - 1]) then
      assert AllSpace(w[..|w| - 1]);
      Some(w[|w| - 1..])
    else
      assert forall k :: least <= k < |w| ==> w[k..][|w| - 1 - k] == w[|w| - 1];
      None
  }

  /** A line terminator at or after `m` rules out every split at or before `m`. */
  lemma SuffixNotSplit(w: string, m: nat, least: nat)
    requires m < |w| && !NoLineTerminator(w[m..])
    ensures forall k: nat :: k <= m ==> !RestSplit(w, k, least)
  {
    var i :| 0 <= i < |w| - m && IsLineTerminator(w[m..][i]);
    forall k | k <= m && least <= k < |w|
      ensures !NoLineTerminator(w[k..])
    {
      assert w[k..][m + i - k] == w[m + i];
    }
  }

  /** The length of the run of `c` characters starting at `i`. */
  function CharRun(s: string, i: nat, c: char): (n: nat)
    ensures i + n <= |s| || n == 0
    decreases |s| - i
  {
    if i < |s| && s[i] == c then 1 + CharRun(s, i + 1, c) else 0
  }

  /** `^(#{1,6})\s+(.+)$`: the captured heading text of a markdown heading line. */
  function HeadingText(line: string): (r: Option<string>)
    ensures r.Some? ==> |line| > 0 && line[0] == '#' && r.value != [] && NoLineTerminator(r.value)
  {
    var k := CharRun(line, 0, '#');
    if 1 <= k <= 6 then
      var r := SpacedRest(line[k..], 1);
      if r.Some? then assert line[k..][|line[k..]| - |r.value|..] == r.value; r else r
    else None
  }

  /** `^###\s+(.+)$`: the captured text of a level-3 heading line. */
  function Level3Text(line: string): (r: Option<string>)
    ensures r.Some? ==> StartsLevel3(line) && r.value != [] && NoLineTerminator(r.value)
  {
    if |line| >= 3 && line[..3] == "###" then
      var r := SpacedRest(line[3..], 1);
      if r.Some? then assert line[3..][..1][0] == line[3]; r else r
    else None
  }

  /** `/^###\s+/.test(line)`. */
  predicate StartsLevel3(line: string) {
    |line| >= 4 && line[..3] == "###" && IsSpace(line[3])
  }

  /** `/^##\s+/.test(line)`. */
  predicate StartsLevel2(line: string) {
    |line| >= 3 && line[..2] == "##" && IsSpace(line[2])
  }

  /** `/^##\s+Table of Contents/i.test(line)`. */
  predicate IsTocHeading(line: string) {
    StartsLevel2(line) && StartsWithIgnoreCase(line[2 + SpaceRun(line, 2)..], "table of contents")
  }

  /** `/^\*+\s*\*+\s*\*+/.test(line)`: three star runs separated only by whitespace. */
  predicate IsStarBreak(line: string) {
    var a := CharRun(line, 0, '*');
    a >= 1 && (a >= 3 ||
      var b := a + SpaceRun(line, a);
      var c := CharRun(line, b, '*');
      c >= 1 && (a + c >= 3 || CharRun(line, b + c + SpaceRun(line, b + c), '*') >= 1))
  }

  function DigitRun(s: string, i: nat): (n: nat)
    ensures i + n <= |s| || n == 0
    ensures forall k :: i <= k < i + n ==> '0' <= s[k] <= '9'
    decreases |s| - i
  {
    if i < |s| && '0' <= s[i] <= '9' then 1 + DigitRun(s, i + 1) else 0
  }

  /** `^([-*+]|\d+\.)\s+`: the length of a list marker together with the whitespace after it. */
  function ListMarker(s: string): (r: Option<nat>)
    ensures r.Some? ==> 2 <= r.value <= |s| && IsSpace(s[r.value - 1])
    ensures r.Some? ==> r.value == |s| || !IsSpace(s[r.value])
  {
    if |s| >= 2 && s[0] in "-*+" && IsSpace(s[1]) then Some(1 + SpaceRun(s, 1))
    else
      var d := DigitRun(s, 0);
      if d >= 1 && d + 1 < |s| && s[d] == '.' && IsSpace(s[d + 1]) then Some(d + 1 + SpaceRun(s, d + 1))
      else None
  }

  /** `[-–—:]` and `[:\-–—]`: the separators between a tool's name and its description. */
  predicate IsSeparatorChar(c: char) {
    c == '-' || c == ':' || c == '\U{2013}' || c == '\U{2014}'
  }

  // `s.replace(/^[:\-–—]\s*/, '')`.
  function StripLeadingSeparator(s: string): (r: string)
    ensures |r| <= |s|
    ensures s == [] || !IsSeparatorChar(s[0]) ==> r == s
  {
    if |s| > 0 && IsSeparatorChar(s[0]) then s[1 + SpaceRun(s, 1)..] else s
  }

  /** `\s*[-–—:]\s*(.+)$` at `i`: the captured rest. */
  function SeparatorRest(s: string, i: nat): (r: Option<string>)
    requires i <= |s|
    ensures r.Some? ==> r.value != [] && NoLineTerminator(r.value)
  {
    var k := i + SpaceRun(s, i);
    if k < |s| && IsSeparatorChar(s[k]) then
      var r := SpacedRest(s[k + 1..], 0);
      if r.Some? then
        var w := s[k + 1..];
        assert r.value == w[|w| - |r.value|..];
        r
      else r
    else None
  }

  /** Index of the first line terminator at or after `i`, or `|s|`: where `.*` must stop. */
  function LineEnd(s: string, i: nat): (k: nat)
    requires i <= |s|
    ensures i <= k <= |s|
    ensures k < |s| ==> IsLineTerminator(s[k])
    decreases |s| - i
  {
    if i == |s| || IsLineTerminator(s[i]) then i else LineEnd(s, i + 1)
  }

  lemma {:induction false} LineEndFree(s: string, i: nat, k: nat)
    requires i <= |s| && i <= k <= LineEnd(s, i)
    ensures NoLineTerminator(s[i..k])
    decreases |s| - i
  {
    if i < k {
      LineEndFree(s, i + 1, k);
      assert s[i..k] == [s[i]] + s[i + 1..k];
    }
  }

  /** The first position in `[i, end]` where a separator and a non-empty rest follow, or `end + 1`. */
  function SeparatorFrom(s: string, i: nat, end: nat): (k: nat)
    requires i <= end <= |s|
    ensures i <= k <= end + 1
    ensures k <= end ==> SeparatorRest(s, k).Some?
    ensures forall j :: i <= j < k ==> SeparatorRest(s, j).None?
    decreases end - i
  {
    if SeparatorRest(s, i).Some? then i
    else if i == end then end + 1
    else
      var k := SeparatorFrom(s, i + 1, end);
      NoSeparatorExtend(s, i, k);
      k
  }

  lemma NoSeparatorExtend(s: string, i: nat, k: nat)
    requires i < k <= |s| + 1 && SeparatorRest(s, i).None?
    requires forall j :: i + 1 <= j < k && j <= |s| ==> SeparatorRest(s, j).None?
    ensures forall j :: i <= j < k && j <= |s| ==> SeparatorRest(s, j).None?
  {
    forall j | i <= j < k && j <= |s| ensures SeparatorRest(s, j).None? {
      if j != i {
        assert i + 1 <= j;
      }
    }
  }

  /**
   * `^(.*?)(?:\s*[-–—:]\s*)(.+)$`: the shortest left part, free of line terminators,
   * after which a separator and a non-empty rest follow.
   */
  function SeparatorSplit(s: string): (r: Option<(string, string)>)
    ensures r.Some? ==> |r.value.0| <= LineEnd(s, 0) && r.value.0 == s[..|r.value.0|] && NoLineTerminator(r.value.0)
    ensures r.Some? ==> SeparatorRest(s, |r.value.0|) == Some(r.value.1)
    ensures r.Some? ==> forall j :: 0 <= j < |r.value.0| ==> SeparatorRest(s, j).None?
    ensures r.None? ==> forall j :: 0 <= j <= LineEnd(s, 0) ==> SeparatorRest(s, j).None?
  {
    var k := SeparatorFrom(s, 0, LineEnd(s, 0));
    if k > LineEnd(s, 0) then None
    else
      LineEndFree(s, 0, k);
      Some((s[..k], SeparatorRest(s, k).value))
  }

  /** `/^:?-{3,}:?$/.test(cell)`. */
  predicate IsSeparatorCell(cell: string) {
    var a := if |cell| > 0 && cell[0] == ':' then 1 else 0;
    var b := if |cell| > a && cell[|cell| - 1] == ':' then |cell| - 1 else |cell|;
    b >= a + 3 && forall i :: a <= i < b ==> cell[i] == '-'
  }

  /** `s.replace(/^-\s+/, '')`. */
  function StripDashBullet(s: string): (r: string)
    ensures |r| <= |s|
  {
    if |s| >= 2 && s[0] == '-' && IsSpace(s[1]) then s[1 + SpaceRun(s, 1)..] else s
  }

  /** `s.replace(/^[-*+]\s+/, '')`. */
  function StripBullet(s: string): (r: string)
    ensures |r| <= |s|
    ensures (s == [] || s[0] !in "-*+") ==> r == s
  {
    if |s| >= 2 && s[0] in "-*+" && IsSpace(s[1]) then s[1 + SpaceRun(s, 1)..] else s
  }

  // `s.replace(/^-\s+\*\*\s*/g, '')`: a leading `- **` opener of a bold bullet.
  function StripBoldBullet(s: string): (r: string)
    ensures |r| <= |s|
    ensures (s == [] || s[0] != '-') ==> r == s
  {
    if |s| >= 2 && s[0] == '-' && IsSpace(s[1]) then
      var k := 1 + SpaceRun(s, 1);
      if k + 2 <= |s| && s[k..k + 2] == "**" then s[k + 2 + SpaceRun(s, k + 2)..] else s
    else s
  }

  /** `- **` with its whitespace is removed from the front of a bold bullet. */
  lemma StripBoldBulletSpan(gap: string, pad: string, rest: string)
    requires gap != [] && AllSpace(gap) && AllSpace(pad)
    requires rest == [] || !IsSpace(rest[0])
    ensures StripBoldBullet("-" + gap + "**" + pad + rest) == rest
  {
    var s := "-" + gap + "**" + pad + rest;
    var k := 1 + |gap|;
    var e := k + 2 + |pad|;
    Pieces(s, "-", gap, "**", pad, rest, k, k + 2, e);
    forall i | 1 <= i < k ensures IsSpace(s[i]) {
      assert s[i] == s[1..k][i - 1];
    }
    forall i | k + 2 <= i < e ensures IsSpace(s[i]) {
      assert s[i] == s[k + 2..e][i - k - 2];
    }
    assert e < |s| ==> s[e] == s[e..][0];
    StripBoldBulletAt(s, k, e);
  }

  /** The same, with the bullet's whitespace ending at `k` and the space after `**` at `e`. */
  lemma StripBoldBulletAt(s: string, k: nat, e: nat)
    requires 2 <= k && k + 2 <= e <= |s| && s[0] == '-' && s[k..k + 2] == "**"
    requires forall i :: 1 <= i < k ==> IsSpace(s[i])
    requires forall i :: k + 2 <= i < e ==> IsSpace(s[i])
    requires e == |s| || !IsSpace(s[e])
    ensures StripBoldBullet(s) == s[e..]
  {
    assert s[k] == s[k..k + 2][0];
    SpaceRunExact(s, 1, k - 1);
    SpaceRunExact(s, k + 2, e - k - 2);
  }

  /** A dash bullet whose text does not open with `**` is left as it is. */
  lemma StripBoldBulletKeeps(gap: string, rest: string)
    requires gap != [] && AllSpace(gap)
    requires rest == [] || (!IsSpace(rest[0]) && rest[0] != '*')
    ensures StripBoldBullet("-" + gap + rest) == "-" + gap + rest
  {
    var s := "-" + gap + rest;
    var k := 1 + |gap|;
    assert forall i :: 1 <= i < k ==> s[i] == gap[i - 1];
    assert k < |s| ==> s[k] == rest[0];
    SpaceRunExact(s, 1, |gap|);
    if k + 2 <= |s| {
      assert s[k..k + 2][0] == s[k];
    }
  }

  /** `/^🔗/.test(s)`. */
  predicate StartsWithLinkEmoji(s: string) {
    |s| > 0 && s[0] == '\U{1F517}'
  }
}
