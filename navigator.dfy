/**
 * The quick-jump navigator (components/ToolNavigator.tsx): the entries it offers
 * and the filter that narrows them down as the reader types a query.
 */
module Navigator {
  import opened Strings

  /** Whether an entry jumps to a category heading or to a single tool. */
  datatype Kind = CategoryEntry | ToolEntry

  /** `NavItem`: the anchor to jump to, the text shown (its `label`), its kind and its category. */
  datatype NavItem = NavItem(id: string, caption: string, kind: Kind, category: string)

  /** The most entries a non-blank query shows. */
  const MaxShown := 10

  /** An entry matches a lower-case needle when its label or its category, lower-cased, contains it. */
  predicate Matches(item: NavItem, needle: string) {
    Contains(Lower(item.caption), needle) || Contains(Lower(item.category), needle)
  }

  /** `items.filter(…)`: the entries that match, in their order. */
  function Matching(items: seq<NavItem>, needle: string): (r: seq<NavItem>)
    ensures |r| <= |items|
    ensures forall x :: x in r ==> x in items && Matches(x, needle)
    ensures forall x :: x in items && Matches(x, needle) ==> x in r
    decreases |items|
  {
    if items == [] then []
    else (if Matches(items[0], needle) then [items[0]] else []) + Matching(items[1..], needle)
  }

  /** The query as the filter reads it: trimmed, then lower-cased. */
  function Needle(query: string): (r: string)
    ensures |r| <= |query|
  {
    Lower(Trim(query))
  }

  /**
   * The `filtered` memo: every entry for a blank query, otherwise the first ten
   * entries that match it.
   */
  function Filtered(items: seq<NavItem>, query: string): (r: seq<NavItem>)
    ensures Trim(query) == "" ==> r == items
    ensures Trim(query) != "" ==> |r| <= MaxShown
    ensures Trim(query) != "" ==> forall x :: x in r ==> x in items && Matches(x, Needle(query))
  {
    var needle := Needle(query);
    if needle == "" then items
    else
      var shown := Matching(items, needle);
      if |shown| <= MaxShown then shown else shown[..MaxShown]
  }

  /** Filtering two runs one after the other gives their matches one after the other. */
  lemma {:induction false} MatchingAppend(a: seq<NavItem>, b: seq<NavItem>, needle: string)
    ensures Matching(a + b, needle) == Matching(a, needle) + Matching(b, needle)
    decreases |a|
  {
    if a == [] {
      assert a + b == b;
    } else {
      assert (a + b)[1..] == a[1..] + b;
      MatchingAppend(a[1..], b, needle);
    }
  }

  /**
   * The filter keeps the entries' order: a matching entry `i` is shown at the
   * position given by the matches before it.
   */
  lemma MatchingOrder(items: seq<NavItem>, needle: string, i: nat)
    requires i < |items| && Matches(items[i], needle)
    ensures |Matching(items[..i], needle)| < |Matching(items, needle)|
    ensures Matching(items, needle)[|Matching(items[..i], needle)|] == items[i]
  {
    var tail := items[i..];
    assert items == items[..i] + tail;
    MatchingAppend(items[..i], tail, needle);
    assert tail[1..] == items[i + 1..];
    assert Matching(tail, needle) == [items[i]] + Matching(items[i + 1..], needle);
  }

  /** A non-blank query shows the matches in order, cut at ten; all of them when there are at most ten. */
  lemma FilteredPrefix(items: seq<NavItem>, query: string)
    requires Trim(query) != ""
    ensures var m := Matching(items, Needle(query));
      Filtered(items, query) == m[..if |m| <= MaxShown then |m| else MaxShown]
  {
    var m := Matching(items, Needle(query));
    assert m[..|m|] == m;
  }

  /** Whitespace typed around the query changes nothing. */
  lemma FilteredPadded(items: seq<NavItem>, query: string, a: string, b: string)
    requires AllSpace(a) && AllSpace(b)
    ensures Filtered(items, a + query + b) == Filtered(items, query)
  {
    TrimPadded(query, a, b);
  }
}
