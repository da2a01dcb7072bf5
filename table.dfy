/** `isSeparatorRow` and `parseToolTable` (lib/readme.ts lines 127-172): a pipe table read as tools. */
module Table {
  import opened Optional
  import opened Strings
  import opened Patterns
  import opened ReadmeTypes
  import opened Tags

  /** `cells.every((cell) => /^:?-{3,}:?$/.test(cell))`. */
  predicate IsSeparatorRow(cells: seq<string>) {
    forall i :: 0 <= i < |cells| ==> IsSeparatorCell(cells[i])
  }

  /** `xs.map((x) => x.trim())`. */
  function TrimAll(xs: seq<string>): (r: seq<string>)
    ensures |r| == |xs|
    ensures forall k :: 0 <= k < |xs| ==> r[k] == Trim(xs[k])
  {
    seq(|xs|, k requires 0 <= k < |xs| => Trim(xs[k]))
  }

  /** `row.split('|').map((cell) => cell.trim()).filter(Boolean)`: the non-blank cells of a row. */
  function Cells(row: string): (r: seq<string>)
    ensures forall k :: 0 <= k < |r| ==> r[k] != "" && IsTrimmed(r[k])
  {
    var r := NonEmpty(TrimAll(Split(row, ['|'])));
    forall k | 0 <= k < |r| ensures r[k] != "" && IsTrimmed(r[k]) {
      assert r[k] in r;
    }
    r
  }

  /** `lines.filter((line) => line.includes('|'))`. */
  function PipeRows(lines: seq<string>): (r: seq<string>)
    ensures |r| <= |lines|
    ensures forall k :: 0 <= k < |r| ==> '|' in r[k]
    ensures forall x :: x in r <==> x in lines && '|' in x
    decreases |lines|
  {
    if lines == [] then []
    else if '|' in lines[0] then [lines[0]] + PipeRows(lines[1..])
    else PipeRows(lines[1..])
  }

  /** The trimmed lines of the content that contain a pipe, in order. */
  function TableRows(content: string): (rows: seq<string>)
    ensures forall k :: 0 <= k < |rows| ==> '|' in rows[k] && IsTrimmed(rows[k])
  {
    var lines := TrimAll(Split(content, ['\n']));
    var rows := PipeRows(lines);
    forall k | 0 <= k < |rows| ensures IsTrimmed(rows[k]) {
      assert rows[k] in lines;
    }
    rows
  }

  /** Some word of `words` occurs in `cell`, ignoring ASCII case. */
  predicate MentionsAny(cell: string, words: seq<string>) {
    exists w :: w in words && ContainsIgnoreCase(cell, w)
  }

  /** `cells.findIndex((cell) => /w1|w2|…/i.test(cell))`: -1 when no cell matches. */
  function FindColumn(cells: seq<string>, words: seq<string>): (r: int)
    ensures -1 <= r < |cells|
    ensures r >= 0 ==> MentionsAny(cells[r], words)
    ensures r >= 0 ==> forall k :: 0 <= k < r ==> !MentionsAny(cells[k], words)
    ensures r == -1 ==> forall k :: 0 <= k < |cells| ==> !MentionsAny(cells[k], words)
    decreases |cells|
  {
    if cells == [] then -1
    else if MentionsAny(cells[0], words) then 0
    else
      var r := FindColumn(cells[1..], words);
      if r == -1 then -1 else r + 1
  }

  /** `cells[i] ?? ''`: a missing cell, or index -1, reads as the empty string. */
  function CellAt(cells: seq<string>, i: int): (r: string)
    ensures 0 <= i < |cells| ==> r == cells[i]
    ensures !(0 <= i < |cells|) ==> r == ""
  {
    if 0 <= i < |cells| then cells[i] else ""
  }

  /** The column indices the header row selects (-1 for a column it does not have). */
  datatype Columns = Columns(name: int, desc: int, tag: int, url: int)

  const NameWords: seq<string> := ["tool", "name"]
  const DescWords: seq<string> := ["desc", "summary", "why"]
  const TagWords: seq<string> := ["tag", "category", "type"]
  const UrlWords: seq<string> := ["url", "link", "site"]

  /** The header's columns: the first cell mentioning one of each column's words. */
  function HeaderColumns(header: seq<string>): (c: Columns)
    ensures -1 <= c.name < |header| && -1 <= c.desc < |header|
    ensures -1 <= c.tag < |header| && -1 <= c.url < |header|
  {
    Columns(FindColumn(header, NameWords), FindColumn(header, DescWords),
      FindColumn(header, TagWords), FindColumn(header, UrlWords))
  }

  /** The name cell of a row: the name column, or the first cell without one. */
  function NameCell(cols: Columns, cells: seq<string>): string {
    CellAt(cells, if cols.name >= 0 then cols.name else 0)
  }

  /** The cell the description is read from: the description column, or else the second cell. */
  function DescCell(cols: Columns, cells: seq<string>): string {
    CellAt(cells, if cols.desc >= 0 then cols.desc else 1)
  }

  /** One data row, split into its cells: no tool when it has no cells or no name. */
  function RowTool(cols: Columns, cells: seq<string>): (r: Option<Tool>)
    ensures r.Some? <==> NameCell(cols, cells) != ""
    ensures r.Some? ==> r.value.name == NameCell(cols, cells)
    ensures r.Some? ==> r.value.description != ""
    ensures r.Some? && DescCell(cols, cells) != "" ==> r.value.description == DescCell(cols, cells)
    ensures r.Some? && DescCell(cols, cells) == "" ==> r.value.description == Placeholder
    ensures r.Some? ==> (r.value.url.None? <==> CellAt(cells, cols.url) == "")
    ensures r.Some? && r.value.url.Some? ==> r.value.url.value == CellAt(cells, cols.url)
    ensures r.Some? && cols.tag == -1 ==> r.value.tags == []
  {
    if cells == [] then None
    else
      var name := NameCell(cols, cells);
      var description := DescCell(cols, cells);
      var tagsCell := CellAt(cells, cols.tag);
      var urlCell := CellAt(cells, cols.url);
      var tags := DedupeTags(Split(tagsCell, [',', '/']));
      if name == "" then None
      else
        assert cols.tag == -1 ==> tags == [] by {
          if cols.tag == -1 {
            assert Split(tagsCell, [',', '/']) == [""];
            assert NormalizeTag("") == "" by { TrimIdempotent(""); }
          }
        }
        Some(Tool(name, OrPlaceholder(description), tags, if urlCell == "" then None else Some(urlCell)))
  }

  /**
   * A row's tags are the normalised, non-empty items of its tag cell split at `,`
   * and `/`, each once.
   */
  lemma RowToolTags(cols: Columns, cells: seq<string>)
    requires RowTool(cols, cells).Some?
    ensures var tags := RowTool(cols, cells).value.tags;
      (forall x :: x in tags <==>
        x != "" && exists item :: item in Split(CellAt(cells, cols.tag), [',', '/']) && NormalizeTag(item) == x)
      && forall i, j :: 0 <= i < j < |tags| ==> tags[i] != tags[j]
  {
  }

  /** `rows.flatMap(…)` over the rows' cells: the tools of the rows that have a name, in row order. */
  function RowTools(cols: Columns, rows: seq<seq<string>>): (r: seq<Tool>)
    ensures |r| <= |rows|
    ensures forall t :: t in r ==> t.name != "" && t.description != ""
    ensures cols.tag == -1 ==> forall t :: t in r ==> t.tags == []
    decreases |rows|
  {
    if rows == [] then []
    else
      var t := RowTool(cols, rows[0]);
      var rest := RowTools(cols, rows[1..]);
      if t.Some? then [t.value] + rest else rest
  }

  /** `rows.map((row) => row.split('|').map((cell) => cell.trim()).filter(Boolean))`. */
  function CellRows(rows: seq<string>): (r: seq<seq<string>>)
    ensures |r| == |rows|
    ensures forall k :: 0 <= k < |rows| ==> r[k] == Cells(rows[k])
  {
    seq(|rows|, k requires 0 <= k < |rows| => Cells(rows[k]))
  }

  /**
   * `parseToolTable`: nothing unless a header row is followed by a separator row;
   * then one tool for each later row with a name.
   */
  function ParseToolTable(content: string): (r: seq<Tool>)
    ensures var rows := TableRows(content);
      |rows| < 2 || Cells(rows[0]) == [] || Cells(rows[1]) == [] || !IsSeparatorRow(Cells(rows[1])) ==> r == []
    ensures |r| <= if |TableRows(content)| < 2 then 0 else |TableRows(content)| - 2
    ensures forall t :: t in r ==> t.name != "" && t.description != ""
  {
    var rows := TableRows(content);
    if |rows| < 2 then []
    else
      var header := Cells(rows[0]);
      var separator := Cells(rows[1]);
      if header == [] || separator == [] || !IsSeparatorRow(separator) then []
      else RowTools(HeaderColumns(header), CellRows(rows[2..]))
  }

  /** The number of rows whose name cell is not blank. */
  function NamedRows(cols: Columns, rows: seq<seq<string>>): nat
    decreases |rows|
  {
    if rows == [] then 0
    else (if NameCell(cols, rows[0]) != "" then 1 else 0) + NamedRows(cols, rows[1..])
  }

  /** A table with a separator row gives exactly one tool for each data row with a name. */
  lemma {:induction false} TableCount(cols: Columns, rows: seq<seq<string>>)
    ensures |RowTools(cols, rows)| == NamedRows(cols, rows)
    decreases |rows|
  {
    if rows != [] {
      TableCount(cols, rows[1..]);
    }
  }

  /** The tools keep the row order: the row after `k` named rows gives the `k`-th tool, named by its name cell. */
  lemma {:induction false} TableNames(cols: Columns, rows: seq<seq<string>>, i: nat)
    requires i < |rows| && NameCell(cols, rows[i]) != ""
    ensures var k := NamedRows(cols, rows[..i]);
      k < |RowTools(cols, rows)| && RowTools(cols, rows)[k].name == NameCell(cols, rows[i])
    decreases i
  {
    var rest := rows[1..];
    if i == 0 {
      assert rows[..0] == [];
    } else {
      TableNames(cols, rest, i - 1);
      assert rest[..i - 1] == rows[..i][1..];
      assert rows[i] == rest[i - 1];
    }
  }

  /** With no tag column in the header, no tool of the table has a tag. */
  lemma NoTagColumn(content: string)
    requires var rows := TableRows(content); |rows| >= 2 && FindColumn(Cells(rows[0]), TagWords) == -1
    ensures forall t :: t in ParseToolTable(content) ==> t.tags == []
  {
  }
}
