/**
 * The JavaScript string primitives the extractor is built from: `\s`, `trim`,
 * `split`, ASCII `toLowerCase`, `includes`, `indexOf`, `replace` with a string
 * pattern and the `/\s+/g` collapse.
 */
module Strings {
  import opened Optional

  /** JavaScript's `\s`, which is also the set `String.prototype.trim` removes. */
  predicate IsSpace(c: char) {
    var n := c as int;
    n == 0x09 || n == 0x0A || n == 0x0B || n == 0x0C || n == 0x0D || n == 0x20
    || n == 0xA0 || n == 0x1680 || (0x2000 <= n <= 0x200A) || n == 0x2028 || n == 0x2029
    || n == 0x202F || n == 0x205F || n == 0x3000 || n == 0xFEFF
  }

  /** The characters JavaScript's `.` does not match (without the `s` flag). */
  predicate IsLineTerminator(c: char) {
    c == '\n' || c == '\r' || c as int == 0x2028 || c as int == 0x2029
  }

  predicate AllSpace(s: string) {
    forall i :: 0 <= i < |s| ==> IsSpace(s[i])
  }

  predicate NoLineTerminator(s: string) {
    forall i :: 0 <= i < |s| ==> !IsLineTerminator(s[i])
  }

  /** True when `s` has no leading and no trailing whitespace. */
  predicate IsTrimmed(s: string) {
    s == [] || (!IsSpace(s[0]) && !IsSpace(s[|s| - 1]))
  }

  /** Length of the maximal run of whitespace starting at `i`. */
  function SpaceRun(s: string, i: nat): (n: nat)
    requires i <= |s|
    ensures i + n <= |s|
    ensures forall k :: i <= k < i + n ==> IsSpace(s[k])
    ensures i + n == |s| || !IsSpace(s[i + n])
    decreases |s| - i
  {
    if i < |s| && IsSpace(s[i]) then 1 + SpaceRun(s, i + 1) else 0
  }

  /** A run of `n` whitespace characters that ends the text or stops at a non-space is read whole. */
  lemma {:induction false} SpaceRunExact(s: string, i: nat, n: nat)
    requires i + n <= |s| && forall k :: i <= k < i + n ==> IsSpace(s[k])
    requires i + n == |s| || !IsSpace(s[i + n])
    ensures SpaceRun(s, i) == n
    decreases n
  {
    if n > 0 { SpaceRunExact(s, i + 1, n - 1); }
  }

  /** Length of the maximal run of whitespace ending the string. */
  function TrailingSpace(s: string): (n: nat)
    ensures n <= |s|
    ensures forall k :: |s| - n <= k < |s| ==> IsSpace(s[k])
    ensures n == |s| || !IsSpace(s[|s| - n - 1])
  {
    if |s| > 0 && IsSpace(s[|s| - 1]) then 1 + TrailingSpace(s[..|s| - 1]) else 0
  }

  /** `s.trim()`: drops leading and trailing whitespace and nothing else. */
  function Trim(s: string): (r: string)
    ensures IsTrimmed(r)
    ensures |r| <= |s|
  {
    TrimSlice(s);
    s[SpaceRun(s, 0)..][..|s[SpaceRun(s, 0)..]| - TrailingSpace(s[SpaceRun(s, 0)..])]
  }

  /** The trimmed text is what lies between the leading and the trailing whitespace. */
  lemma TrimSlice(s: string)
    ensures var a := SpaceRun(s, 0); var t := s[a..]; var r := t[..|t| - TrailingSpace(t)];
      IsTrimmed(r) && a + |r| <= |s| && r == s[a..a + |r|] && AllSpace(s[..a]) && AllSpace(s[a + |r|..])
  {
    var a := SpaceRun(s, 0);
    var t := s[a..];
    assert t == [] || !IsSpace(t[0]);
  }

  /** `Trim` in terms of the leading whitespace it drops. */
  lemma TrimShape(s: string)
    ensures SpaceRun(s, 0) + |Trim(s)| <= |s|
    ensures Trim(s) == s[SpaceRun(s, 0)..SpaceRun(s, 0) + |Trim(s)|]
    ensures AllSpace(s[..SpaceRun(s, 0)]) && AllSpace(s[SpaceRun(s, 0) + |Trim(s)|..])
  {
    TrimSlice(s);
  }

  /** The decomposition `a + r + b` into whitespace, trimmed text and whitespace is unique. */
  lemma TrimUnique(s: string, a: string, r: string, b: string)
    requires s == a + r + b && AllSpace(a) && AllSpace(b) && IsTrimmed(r)
    ensures Trim(s) == r
  {
    if r == [] {
      TrimBlank(s, a, b);
    } else {
      TrimText(s, a, r, b);
    }
  }

  lemma TrimBlank(s: string, a: string, b: string)
    requires s == a + b && AllSpace(a) && AllSpace(b)
    ensures Trim(s) == []
  {
    TrimShape(s);
    assert AllSpace(s) by {
      forall k | 0 <= k < |s| ensures IsSpace(s[k]) {
        if k < |a| { assert s[k] == a[k]; } else { assert s[k] == b[k - |a|]; }
      }
    }
  }

  lemma TrimText(s: string, a: string, r: string, b: string)
    requires s == a + r + b && AllSpace(a) && AllSpace(b) && IsTrimmed(r) && r != []
    ensures Trim(s) == r
  {
    var t := Trim(s);
    TrimShape(s);
    assert s[|a|] == r[0];
    assert forall k :: 0 <= k < |a| ==> s[k] == a[k];
    assert SpaceRun(s, 0) == |a|;
    assert s[|a| + |r| - 1] == r[|r| - 1];
    assert forall k :: 0 <= k < |r| ==> s[|a| + k] == r[k];
    assert forall k :: 0 <= k < |b| ==> s[|a| + |r| + k] == b[k];
    assert |t| == |r|;
  }

  lemma TrimIdempotent(s: string)
    requires IsTrimmed(s)
    ensures Trim(s) == s
  {
    TrimUnique(s, "", s, "");
  }

  /** Whitespace added to either end of a string does not change its trimmed form. */
  lemma {:induction false} TrimPadded(s: string, a: string, b: string)
    requires AllSpace(a) && AllSpace(b)
    ensures Trim(a + s + b) == Trim(s)
  {
    var i := SpaceRun(s, 0);
    var r := Trim(s);
    TrimShape(s);
    var pre := s[..i];
    var post := s[i + |r|..];
    assert s == pre + r + post;
    Regroup(a, pre, r, post, b);
    SpacesJoin(a, pre);
    SpacesJoin(post, b);
    TrimUnique(a + s + b, a + pre, r, post + b);
  }

  lemma Regroup(a: string, pre: string, r: string, post: string, b: string)
    ensures a + (pre + r + post) + b == (a + pre) + r + (post + b)
  {
  }

  lemma SpacesJoin(x: string, y: string)
    requires AllSpace(x) && AllSpace(y)
    ensures AllSpace(x + y)
  {
    forall k | 0 <= k < |x + y| ensures IsSpace((x + y)[k]) {
      if k < |x| { assert (x + y)[k] == x[k]; } else { assert (x + y)[k] == y[k - |x|]; }
    }
  }

  /** JavaScript's `s.split(sep)` generalised to a set of single-character separators. */
  function Split(s: string, seps: seq<char>): (parts: seq<string>)
    ensures |parts| >= 1
    ensures forall k :: 0 <= k < |parts| ==> forall c :: c in parts[k] ==> c !in seps
    decreases |s|
  {
    var k := FirstOf(s, seps, 0);
    if k == |s| then [s] else [s[..k]] + Split(s[k + 1..], seps)
  }

  /** `s.split('\n')`: the lines of a text, without their line feeds. */
  function Lines(s: string): (lines: seq<string>)
    ensures |lines| >= 1
    ensures forall k :: 0 <= k < |lines| ==> '\n' !in lines[k]
  {
    Split(s, ['\n'])
  }

  /** Index of the first character in `seps` at or after `i`, or `|s|`. */
  function FirstOf(s: string, seps: seq<char>, i: nat): (k: nat)
    requires i <= |s|
    ensures i <= k <= |s|
    ensures forall j :: i <= j < k ==> s[j] !in seps
    ensures k < |s| ==> s[k] in seps
    decreases |s| - i
  {
    if i == |s| || s[i] in seps then i else FirstOf(s, seps, i + 1)
  }

  /** `parts.join(sep)`, the inverse of splitting on one separator. */
  function Join(parts: seq<string>, sep: char): string
    decreases |parts|
  {
    if |parts| == 0 then "" else if |parts| == 1 then parts[0] else parts[0] + [sep] + Join(parts[1..], sep)
  }

  lemma JoinCons(x: string, rest: seq<string>, c: char)
    requires |rest| >= 1
    ensures Join([x] + rest, c) == x + [c] + Join(rest, c)
  {
    assert ([x] + rest)[0] == x;
    assert ([x] + rest)[1..] == rest;
  }

  /** Splitting on one character loses nothing: joining the parts gives back the text. */
  lemma {:induction false} SplitJoin(s: string, c: char)
    ensures Join(Split(s, [c]), c) == s
    decreases |s|
  {
    var k := FirstOf(s, [c], 0);
    if k < |s| {
      var rest := Split(s[k + 1..], [c]);
      SplitJoin(s[k + 1..], c);
      assert Split(s, [c]) == [s[..k]] + rest;
      JoinCons(s[..k], rest, c);
      assert s[k] == c;
      assert s == s[..k] + [c] + s[k + 1..];
    }
  }

  function LowerChar(c: char): char {
    if 'A' <= c <= 'Z' then (c as int + 32) as char else c
  }

  /** `s.toLowerCase()` restricted to the ASCII letters. */
  function Lower(s: string): (r: string)
    ensures |r| == |s|
  {
    seq(|s|, i requires 0 <= i < |s| => LowerChar(s[i]))
  }

  predicate OccursAt(s: string, needle: string, i: nat) {
    i + |needle| <= |s| && s[i..i + |needle|] == needle
  }

  /** `s.indexOf(needle)`: the first position where `needle` occurs. */
  function IndexOf(s: string, needle: string): (r: Option<nat>)
    ensures r.Some? ==> OccursAt(s, needle, r.value) && forall j :: 0 <= j < r.value ==> !OccursAt(s, needle, j)
    ensures r.None? ==> forall j :: 0 <= j <= |s| ==> !OccursAt(s, needle, j)
  {
    IndexOfFrom(s, needle, 0)
  }

  function IndexOfFrom(s: string, needle: string, i: nat): (r: Option<nat>)
    requires i <= |s|
    ensures r.Some? ==> i <= r.value && OccursAt(s, needle, r.value) && forall j :: i <= j < r.value ==> !OccursAt(s, needle, j)
    ensures r.None? ==> forall j :: i <= j <= |s| ==> !OccursAt(s, needle, j)
    decreases |s| - i
  {
    if OccursAt(s, needle, i) then Some(i)
    else if i == |s| then None
    else IndexOfFrom(s, needle, i + 1)
  }

  /** `s.includes(needle)`. */
  predicate Contains(s: string, needle: string) {
    IndexOf(s, needle).Some?
  }

  /** Case-insensitive (ASCII) substring test, as `/word/i.test(s)` does. */
  predicate ContainsIgnoreCase(s: string, needle: string) {
    Contains(Lower(s), Lower(needle))
  }

  /** Case-insensitive (ASCII) prefix test. */
  predicate StartsWithIgnoreCase(s: string, prefix: string) {
    |prefix| <= |s| && Lower(s[..|prefix|]) == Lower(prefix)
  }

  /**
   * The replacement text JavaScript inserts for `replace(pattern, repl)` when the
   * pattern is a string: `$$`, `$&`, `` $` `` and `$'` are expanded, every other
   * character is copied.
   */
  function Expand(repl: string, matched: string, before: string, after: string): (r: string)
    ensures '$' !in repl ==> r == repl
    decreases |repl|
  {
    if |repl| >= 2 && repl[0] == '$' && repl[1] in "$&`'" then
      (if repl[1] == '$' then "$" else if repl[1] == '&' then matched
       else if repl[1] == '`' then before else after)
      + Expand(repl[2..], matched, before, after)
    else if repl == [] then []
    else [repl[0]] + Expand(repl[1..], matched, before, after)
  }

  /** `s.replace(needle, repl)` with a string `needle`: only the first occurrence is replaced. */
  function ReplaceFirst(s: string, needle: string, repl: string): (r: string)
    ensures IndexOf(s, needle).None? ==> r == s
    ensures IndexOf(s, needle).Some? && '$' !in repl ==>
      var i := IndexOf(s, needle).value; r == s[..i] + repl + s[i + |needle|..]
  {
    match IndexOf(s, needle)
    case None => s
    case Some(i) => s[..i] + Expand(repl, needle, s[..i], s[i + |needle|..]) + s[i + |needle|..]
  }

  /** `s.replace(/\s+/g, ' ')`: every maximal whitespace run becomes one space. */
  function CollapseSpaces(s: string): (r: string)
    ensures forall i :: 0 <= i < |r| && IsSpace(r[i]) ==> r[i] == ' '
    ensures forall i :: 0 <= i < |r| - 1 ==> r[i] != ' ' || r[i + 1] != ' '
    ensures s == [] <==> r == []
    ensures s != [] ==> (r[0] == ' ' <==> IsSpace(s[0]))
    ensures |r| <= |s|
    decreases |s|
  {
    if s == [] then []
    else if IsSpace(s[0]) then [' '] + CollapseSpaces(s[SpaceRun(s, 0)..])
    else [s[0]] + CollapseSpaces(s[1..])
  }

  /** `s.replace(/\s+/g, ' ').trim()`: single spaces between words, none at the ends. */
  function Collapse(s: string): (r: string)
    ensures IsTrimmed(r)
    ensures forall i :: 0 <= i < |r| && IsSpace(r[i]) ==> r[i] == ' '
    ensures forall i :: 0 <= i < |r| - 1 ==> r[i] != ' ' || r[i + 1] != ' '
    ensures NoLineTerminator(r)
  {
    var c := CollapseSpaces(s);
    var r := Trim(c);
    var i := SpaceRun(c, 0);
    assert forall k :: 0 <= k < |r| ==> r[k] == c[i + k];
    r
  }
}
