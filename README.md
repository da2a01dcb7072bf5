# Productivity-App README extractor, in Dafny

The Productivity-App home page is built from one markdown document, the
repository's README. `parseReadme` (lib/readme.ts) turns that document and a
fallback sentence into the following:

- the document's sections;
- its introduction and the value proposition, which is the introduction's first sentence;
- a flat list of tools;
- the tools grouped by category.

Two smaller pure pieces use the result:

- the page helpers in app/page.tsx: the section found by keywords, the paragraphs shown for a section, and the tools the page lists;
- the search filter of the quick-jump navigator in components/ToolNavigator.tsx.

This project models all of that on Dafny values.

- Strings are `seq<char>`.
- Each regular expression is written out as an explicit matcher with JavaScript's match semantics. The leftmost match wins. A lazy `+?` takes as little as it can. A greedy run takes as much as it can.
- Case-insensitive tests use ASCII lower-casing.

The code that works step by step is written as methods proved equal to specification functions. This covers:

- the line loop of `splitIntoSections`;
- the hashtag loop of `parseTagsFromText`;
- both passes of `parseToolGroupsFromReadme` and the block loop inside the second;
- the list-item loop of `parseReadme`.

The rest is written as functions. The properties the code promises are proved about those functions.

Modules, one file each:

- `Optional`, `ReadmeTypes`: the option type and the records `parseReadme` returns.
- `Strings`: JavaScript's `trim`, `split`, `toLowerCase` (ASCII), `includes`, `indexOf`, `replace` with a string pattern, and whitespace collapsing.
- `Patterns`: the regular expressions of lib/readme.ts and app/page.tsx.
- `Tags`: `normalizeTag`, `dedupeTags` and `parseTagsFromText`.
- `ToolLine`: `parseToolLine`.
- `Table`: `isSeparatorRow` and `parseToolTable`.
- `Markup`: `cleanInline`.
- `Sections`: `splitIntoSections` and `extractValueProp`.
- `Groups`: `parseToolGroupsFromReadme`.
- `Readme`: `parseReadme`.
- `Page`: `getSectionContent`, `toParagraphs` and the tool choice of the home page.
- `Navigator`: the `filtered` memo of `ToolNavigator`.

Behaviour of the code that is easy to misread, modelled as written:

- `parseTagsFromText` does not collapse whitespace in the remaining text.
- `extractValueProp` drops the terminal `.`, `!` or `?`.
- The separator form of `parseToolLine` keeps an empty description.
- `normalizeTag` strips a single leading `#`.
- `replace` with a string pattern replaces only the first literal occurrence.

## Model

| member | source | states |
|---|---|---|
| ReadmeTypes.OrPlaceholder | lib/readme.ts:106 | `text \|\| 'Part of the core stack.'`: never empty; the text itself when it is non-empty, the placeholder otherwise |
| Strings.TrimPadded | lib/readme.ts:25 | whitespace added at either end does not change the trimmed string |
| Strings.TrimIdempotent | lib/readme.ts:40 | trimming a trimmed string changes nothing |
| Strings.SplitJoin | lib/readme.ts:17 | splitting at a character and joining with it gives back the text |
| Strings.IndexOf | lib/readme.ts:72 | `indexOf`: the first position where the needle occurs, none before it; `None` only when it occurs nowhere |
| Strings.ReplaceFirst | lib/readme.ts:82 | `replace(string, repl)`: the text is unchanged when the needle does not occur; otherwise only the first occurrence is replaced, by `repl` itself when `repl` has no `$` |
| Patterns.Find | lib/readme.ts:101 | `s.match` of a lazy pattern: the leftmost match, whose first group is the shortest possible; `None` exactly when no match exists anywhere |
| Patterns.ReplaceAll | lib/readme.ts:177-179 | `replace(/…/g, '$1')` never lengthens the text and leaves text without the pattern's opening character unchanged |
| Patterns.ReplaceFirstAt | lib/readme.ts:177-179 | at the leftmost opening with the shortest first group, the match is replaced by that group and the global replace goes on right after the match |
| Patterns.BoldSpan | lib/readme.ts:177 | `**x**` in text without other `*` becomes `x`, everything around it kept |
| Patterns.CodeSpan | lib/readme.ts:178 | `` `x` `` in text without other backticks becomes `x`, everything around it kept |
| Patterns.LinkSpan | lib/readme.ts:179 | `[x](u)` in text without other `[` becomes `x`, everything around it kept |
| Patterns.UrlMatchFirstOccurrence | lib/readme.ts:72 | replacing `urlMatch[0]` as a string acts exactly at the match: its text occurs nowhere further left |
| Patterns.Group1 | lib/readme.ts:103 | the first captured group of a match is non-empty and free of line terminators |
| Patterns.Target | lib/readme.ts:71 | the link target is non-empty, and starts with `http://` or `https://` for the URL-link pattern |
| Patterns.FindAnnotation | lib/readme.ts:75 | `/\((?:tags?\|categories?)\s*:\s*([^)]+)\)/i`: the leftmost annotation; `None` exactly when none starts anywhere |
| Patterns.ScanNoHashtag | lib/readme.ts:85-91 | the `(^\|\s)#[a-z0-9-]+` scan of text without `#` finds no match and leaves the text whole |
| Patterns.HashtagScan | lib/readme.ts:85-91 | a single hashtag ` #word` between `#`-free text finds exactly that match, and removing it joins the text on either side |
| Patterns.HeadingText | lib/readme.ts:14 | `^(#{1,6})\s+(.+)$`: a heading line starts with `#`, and its captured text is non-empty and on one line |
| Patterns.Level3Text | lib/readme.ts:195 | `^###\s+(.+)$`: a match starts with `### ` and captures non-empty text |
| Patterns.ListMarker | lib/readme.ts:98 | `^([-*+]\|\d+\.)\s+`: the marker and its whitespace, followed by a non-space or the end |
| Patterns.SeparatorSplit | lib/readme.ts:117 | `^(.*?)(?:\s*[-–—:]\s*)(.+)$`: the shortest left part after which a separator and a non-empty rest follow; `None` when no position allows it |
| Patterns.StripBullet | app/page.tsx:24 | `replace(/^[-*+]\s+/, '')` never lengthens the line and leaves a line without a bullet unchanged |
| Patterns.StripBoldBullet | lib/readme.ts:176 | `replace(/^-\s+\*\*\s*/, '')` leaves a line not starting with `-` unchanged |
| Patterns.StripBoldBulletSpan | lib/readme.ts:176 | `-`, whitespace, `**` and whitespace at the start are all removed, leaving the text after them |
| Patterns.StripBoldBulletKeeps | lib/readme.ts:176 | a `-` bullet not followed by `**` after its whitespace is left unchanged |
| Tags.NormalizeTag | lib/readme.ts:56-58 | the result is trimmed; without a leading `#` it is the trimmed tag |
| Tags.NonEmpty | lib/readme.ts:61 | `filter(Boolean)`: exactly the non-empty elements |
| Tags.Distinct | lib/readme.ts:61 | `Array.from(new Set(xs))`: no repetitions, the same members |
| Tags.DistinctOrder | lib/readme.ts:61 | the kept values are in the order of their first occurrence |
| Tags.DedupeTags | lib/readme.ts:60-62 | non-empty, trimmed, pairwise distinct results, exactly the non-empty normalized inputs, no more of them than inputs |
| Tags.DedupeOrder | lib/readme.ts:60-62 | the results are ordered by first occurrence among the normalized non-empty tags |
| Tags.DedupeNotIdempotent | lib/readme.ts:57 | `dedupeTags(['##a'])` is `['#a']`, and deduplicating again gives `['a']` |
| Tags.DedupeIdempotent | lib/readme.ts:60-62 | when no result starts with `#`, deduplicating again changes nothing |
| Tags.LinkStep | lib/readme.ts:69-73 | a URL exactly when the text has a `[label](http(s)://…)` link; it is that leftmost link's target and starts with `http://` or `https://`, and the text is then trimmed; without a link the text is unchanged |
| Tags.LinkStepReplaces | lib/readme.ts:72 | the link is replaced by its label where it stands, and the text is then trimmed |
| Tags.ListTags | lib/readme.ts:77-80 | the annotation's items: non-empty and trimmed |
| Tags.AnnotationStep | lib/readme.ts:75-83 | no annotation leaves the text and no tags; otherwise the text is trimmed and the tags are non-empty and trimmed |
| Tags.AnnotationStepRemoves | lib/readme.ts:82 | the annotation is cut out where it stands and the rest is trimmed |
| Tags.AnnotationTags | lib/readme.ts:77-81 | the tags are exactly the non-empty normalized comma-separated items of the annotation |
| Tags.HashtagStep | lib/readme.ts:85-92 | text without `#` is unchanged and has no hashtags; when hashtags are found the text is trimmed |
| Tags.HashtagStepOne | lib/readme.ts:85-92 | one hashtag ` #word` is collected and cut out, and the joined rest is trimmed |
| Tags.TagsFromText | lib/readme.ts:64-95 | a URL exactly when a `[label](http(s)://…)` link occurs, namely the leftmost link's target; tags non-empty and distinct |
| Tags.HashtagInText | lib/readme.ts:64-95 | text with one hashtag ` #word` and no link or annotation gives the rest of the text trimmed, the single tag `word` and no URL |
| Tags.TagsFromPlainText | lib/readme.ts:64-95 | text without `[`, `(` and `#` comes back unchanged, with no tags and no URL |
| Tags.HashtagBecomesWord | lib/readme.ts:85-94 | `#word` alone leaves no text and the single tag `word` |
| Tags.ParseTagsFromText | lib/readme.ts:64-95 | the step-by-step version (text reassigned, hashtags pushed) equals `TagsFromText` |
| Tags.PushHashtags | lib/readme.ts:87-90 | the loop appends exactly the non-empty normalized hashtags, in order |
| ToolLine.StripMarker | lib/readme.ts:98 | the item text is trimmed; without a marker it is the trimmed line |
| ToolLine.ParseToolLine | lib/readme.ts:97-125 | `None` exactly when the item text is empty; the bold, link and plain forms always have a description |
| ToolLine.BoldForm | lib/readme.ts:101-107 | a bold span wins over every other form and names the tool by its trimmed text |
| ToolLine.LinkForm | lib/readme.ts:109-115 | without bold text, a link names the tool, and its target is the URL whatever its scheme |
| ToolLine.SeparatorForm | lib/readme.ts:117-121 | then the text is cut at its leftmost separator: name before it, tag-parsed description after it |
| ToolLine.PlainForm | lib/readme.ts:123-124 | otherwise the whole text without tags and link is the name, with the placeholder description |
| ToolLine.PlainFormEmptyName | lib/readme.ts:123-124 | `#word` gives a tool with an empty name |
| ToolLine.SeparatorFormEmptyDescription | lib/readme.ts:117-121 | `n: #word` gives a tool with an empty description, not the placeholder |
| ToolLine.StripMarkerPlain | lib/readme.ts:98 | a trimmed line without a marker is its own item text |
| Table.Cells | lib/readme.ts:139 | a row's cells are non-empty and trimmed |
| Table.PipeRows | lib/readme.ts:135 | exactly the lines containing `\|`, in order |
| Table.TableRows | lib/readme.ts:132-135 | the rows are trimmed and contain `\|` |
| Table.FindColumn | lib/readme.ts:146-149 | `findIndex`: the first header cell mentioning one of the words, -1 when none does |
| Table.CellAt | lib/readme.ts:154-157 | `cells[i] ?? ''`: the cell, or empty when the index is out of range or -1 |
| Table.HeaderColumns | lib/readme.ts:146-149 | every column index is -1 or a header position |
| Table.RowTool | lib/readme.ts:152-170 | a tool exactly when the name cell is non-empty, named by it; the description cell, or the placeholder when it is empty; no URL exactly when the URL cell is empty, otherwise that cell; no tags without a tag column |
| Table.RowToolTags | lib/readme.ts:157-160 | the tags are exactly the non-empty normalized items of the tag cell split at `,` and `/`, without repeats |
| Table.RowTools | lib/readme.ts:151-171 | at most one tool per row, each with a name and a description |
| Table.ParseToolTable | lib/readme.ts:131-172 | `[]` with fewer than two rows, an empty header or a non-separator second row; at most rows−2 tools, each with a name and a description |
| Table.TableCount | lib/readme.ts:151-171 | exactly one tool per data row with a name |
| Table.TableNames | lib/readme.ts:151-171 | the tools keep the row order, named by their rows' name cells |
| Table.NoTagColumn | lib/readme.ts:148 | without a tag column no tool has a tag |
| Markup.CleanInline | lib/readme.ts:174-182 | the result is trimmed, on one line, uses only single spaces between words, and is no longer than the input |
| Markup.CleanPlain | lib/readme.ts:174-182 | text without markup characters only has its whitespace collapsed |
| Markup.CleanBoldWord | lib/readme.ts:177 | `**word**` comes out as the word |
| Markup.CleanBoldSpan | lib/readme.ts:174-182 | a `**x**` span in otherwise plain text is replaced by `x`, and then the whitespace is collapsed |
| Markup.CleanCodeSpan | lib/readme.ts:174-182 | a `` `x` `` span in otherwise plain text is replaced by `x`, and then the whitespace is collapsed |
| Markup.CleanLinkSpan | lib/readme.ts:174-182 | a `[x](u)` link in otherwise plain text is replaced by `x`, and then the whitespace is collapsed |
| Sections.Classified | lib/readme.ts:22 | each line paired with what the heading pattern captures of it |
| Sections.Sectioned | lib/readme.ts:16-45 | never empty; every content trimmed |
| Sections.ScanIsCut | lib/readme.ts:21-42 | the line-by-line scan equals cutting the document at its heading lines |
| Sections.CutHeading | lib/readme.ts:23-29 | a heading line closes the open section and opens an empty one titled by the heading |
| Sections.CutText | lib/readme.ts:32-36 | any other line is appended with its line feed to the open section, or to a new "Intro" |
| Sections.SplitIntoSections | lib/readme.ts:16-45 | the loop with its mutable current section computes `Sectioned` |
| Sections.ScanLines | lib/readme.ts:21-42 | the loop body over the lines computes the scan |
| Sections.SectionTitles | lib/readme.ts:16-45 | one section per heading line, titled by its trimmed text, in order, preceded by "Intro" exactly when the first line is not a heading |
| Sections.NoHeadings | lib/readme.ts:16-45 | a document without heading lines is one "Intro" section holding the trimmed document |
| Sections.JoinedLines | lib/readme.ts:36-40 | the lines joined back with their line feeds trim to the trimmed document |
| Sections.SentenceEnd | lib/readme.ts:52 | the first `.`, `!` or `?` at or after the given index, or the end |
| Sections.ExtractValueProp | lib/readme.ts:47-54 | empty exactly when the collapsed text is; otherwise a prefix of the collapsed text without terminal marks after the first character, trimmed, and ending where the first such mark or the end of the text follows after nothing but spaces |
| Sections.SentencePrefix | lib/readme.ts:53 | trimming such a prefix drops only spaces at its end |
| Groups.TocIndex | lib/readme.ts:186 | `findIndex` of the "## Table of Contents" line: the first such line, -1 when none |
| Groups.HeadingOf | lib/readme.ts:195-197 | a heading text exactly when the trimmed line matches `^###\s+(.+)$` |
| Groups.BlockEnd | lib/readme.ts:231-235 | the first line opening the next block, no such line before it |
| Groups.BlockLines | lib/readme.ts:230-237 | the inner loop collects the untrimmed lines up to the next `### ` line |
| Groups.FirstTextLine | lib/readme.ts:239-242 | the first non-blank trimmed line not starting with 🔗; `None` exactly when there is none |
| Groups.LinkOf | lib/readme.ts:245 | the URL of the line's first http(s) link; `None` exactly when there is none |
| Groups.FirstLink | lib/readme.ts:244-246 | the URL of the first line of the block with such a link; `None` exactly when no line has one |
| Groups.StripEcho | lib/readme.ts:249 | without a leading `**heading**` (any case) the text is unchanged; with one, the echo and the whitespace after it are cut off and the rest is kept, starting at a non-space |
| Groups.Describe | lib/readme.ts:248-255 | a tool's description is never empty |
| Groups.DescribeFirstLine | lib/readme.ts:239-255 | the cleaned first text line is the description when it does not start with `*` or `-` |
| Groups.DescribeDashLine | lib/readme.ts:250-255 | a cleaned first line `- rest` gives `rest` |
| Groups.ReadBlock | lib/readme.ts:230-251 | the inner loop and the description steps give `Describe` and `FirstLink` of the block |
| Groups.EmptyBlockPlaceholder | lib/readme.ts:248 | a block without a text line gives the placeholder description |
| Groups.KindOf | lib/readme.ts:191-197 | a blank line neither stops the table of contents nor names a category; a heading does not stop it |
| Groups.Classify | lib/readme.ts:207-251 | a `### ` line carries its cleaned text and a non-empty description |
| Groups.CategoryNamesAre | lib/readme.ts:189-200 | the category names are exactly the cleaned `### ` texts after the contents heading and before the first `## ` heading or `***` rule |
| Groups.CollectCategoryNames | lib/readme.ts:185-200 | the first pass, with its loop and early exits, computes `CategoryNames` |
| Groups.CollectFrom | lib/readme.ts:190-199 | the loop of the first pass collects the names up to the end of the table of contents |
| Groups.ReadTocLine | lib/readme.ts:191-197 | one line read by the first pass gives its `KindOf` |
| Groups.FindGroup | lib/readme.ts:260 | `find` by category: the first group with that category, -1 exactly when there is none |
| Groups.AddTool | lib/readme.ts:260-263 | the tool is appended to the first group of the category, every other group unchanged; nothing changes without such a group |
| Groups.NonEmptyGroups | lib/readme.ts:266 | exactly the groups that hold tools |
| Groups.ParseToolGroupsFromReadme | lib/readme.ts:184-267 | both passes together compute `ToolGroups` |
| Groups.ReadGroups | lib/readme.ts:202-264 | the second pass's loop computes the fold over the classified lines |
| Groups.ReadLine | lib/readme.ts:206-263 | one turn of the loop is one `Step` of the fold |
| Groups.PushTool | lib/readme.ts:260-263 | the push into the found group is `AddTool` |
| Groups.StepKeeps | lib/readme.ts:205-264 | every line keeps the second pass's invariant: tools tagged with their group's category, only a category's first group holds tools, the current category has a group |
| Groups.FoldKeeps | lib/readme.ts:205-264 | the invariant holds after all lines |
| Groups.NonEmptyDistinct | lib/readme.ts:266 | dropping the empty groups leaves pairwise distinct categories |
| Groups.GroupsShape | lib/readme.ts:202-266 | the kept groups are well formed, have listed categories (or "Tools"), and number at most one without a table of contents |
| Groups.ToolGroupsShape | lib/readme.ts:184-267 | every group holds a tool; each tool is tagged `dedupeTags([category])` and has a description; no category repeats |
| Groups.ListedCategories | lib/readme.ts:217-228 | with a table of contents every group is a listed category or "Tools" |
| Groups.SingleGroup | lib/readme.ts:211-263 | without a table of contents there is at most one group: the first `### ` heading with non-empty cleaned text names it, and it holds the tools of all `### ` lines after that heading, in order, tagged with that category; there is none when no such tool exists |
| Groups.UntitledGroups | lib/readme.ts:211-215 | the reference grouping has at most one group |
| Groups.FirstNamed | lib/readme.ts:211 | the first line whose heading has non-empty text, none before it |
| Groups.BlankPrefix | lib/readme.ts:211-215 | headings with empty text before the first named one only add empty groups, which are dropped |
| Groups.NamedTail | lib/readme.ts:253-263 | after the first category opens, each `### ` line appends its tool to that category's group |
| Groups.AddToLast | lib/readme.ts:260-263 | a tool for a category held only by the last group is appended to it |
| Groups.FoldSourced | lib/readme.ts:253-262 | the second pass only adds tools read from `### ` lines |
| Groups.ToolsFromHeadings | lib/readme.ts:248-258 | every grouped tool is some `### ` line's tool: its cleaned heading as name, its block's description and first http(s) link |
| Readme.IntroIndex | lib/readme.ts:271 | the first section titled "intro" in any case, none before it |
| Readme.IntroOf | lib/readme.ts:271-272 | the first "intro" section's content; without one the first section's content, or `''` |
| Readme.ValueProposition | lib/readme.ts:273 | the first sentence when there is one; the fallback when the collapsed introduction is empty |
| Readme.ToolsIndex | lib/readme.ts:275-277 | the first section whose title mentions tools, stack, tooling or apps, none before it |
| Readme.ItemTool | lib/readme.ts:283-285 | a line gives a tool exactly when it is a list item with non-empty text |
| Readme.ListToolsCount | lib/readme.ts:281-286 | exactly one tool per non-empty list item |
| Readme.ListToolsFrom | lib/readme.ts:281-286 | every listed tool is `parseToolLine` of some list item of the section |
| Readme.CollectListTools | lib/readme.ts:281-286 | the loop with `continue` and `push` computes `ListTools` |
| Readme.SectionTools | lib/readme.ts:280-291 | no tools section gives none; its list items when they give a tool; its table otherwise |
| Readme.ReadSectionTools | lib/readme.ts:279-291 | the `if (toolsSection)` block computes `SectionTools` |
| Readme.FlattenMembers | lib/readme.ts:294 | `flatMap` holds exactly the groups' tools |
| Readme.FlattenEmpty | lib/readme.ts:294 | the flattened list is empty exactly when every group is |
| Readme.ChosenTools | lib/readme.ts:300 | the grouped tools when there are any, otherwise the tools section's |
| Readme.ParseReadme | lib/readme.ts:269-303 | the sections, introduction, value proposition, groups and chosen tools, each as specified above |
| Readme.IntroFirst | lib/readme.ts:271 | a document that does not start with a heading takes its "Intro" section as introduction |
| Readme.GroupedToolsWin | lib/readme.ts:293-300 | whenever a group exists, the tools are exactly the flattened groups |
| Readme.GroupedToolsTagged | lib/readme.ts:293-300 | every grouped tool has a description and is tagged with its group's category |
| Page.MentionIndex | app/page.tsx:11-13 | the first section whose lower-cased title contains a keyword, none before it |
| Page.GetSectionContent | app/page.tsx:10-15 | `''` when no title mentions a keyword; otherwise the content of the first section that does |
| Page.CleanParagraph | app/page.tsx:23-27 | cleaning never lengthens a line |
| Page.Para | app/page.tsx:20-21 | a line gives a paragraph exactly when it is not blank |
| Page.ToParagraphs | app/page.tsx:17-29 | as many paragraphs as non-blank lines |
| Page.ParagraphCount | app/page.tsx:19-21 | one paragraph per non-blank line |
| Page.ParagraphOrder | app/page.tsx:18-28 | line `i`'s paragraph comes after those of the lines before it and before those after it |
| Page.ParagraphAt | app/page.tsx:18-28 | a non-blank line gives the paragraph numbered by the non-blank lines before it, its cleaned trimmed text |
| Page.PlainParagraph | app/page.tsx:22-28 | a line without bullet, backtick, `*` or `[` is its own paragraph |
| Page.BulletParagraph | app/page.tsx:24 | a bullet and the whitespace after it are removed, and nothing else from plain text |
| Page.PageTools | app/page.tsx:63-66 | never empty: the parsed tools when there are any, the fallback tools otherwise |
| Page.FallbackToolsShape | app/page.tsx:38-59 | four fallback tools, each with a name, a description and tags, and no URL |
| Navigator.Matching | components/ToolNavigator.tsx:43-45 | exactly the items whose lower-cased label or category contains the needle |
| Navigator.Needle | components/ToolNavigator.tsx:41 | the trimmed, lower-cased query is no longer than the query |
| Navigator.Filtered | components/ToolNavigator.tsx:40-46 | a blank query shows every item; otherwise at most ten items, each a matching item |
| Navigator.MatchingOrder | components/ToolNavigator.tsx:43-44 | the matches keep the items' order |
| Navigator.FilteredPrefix | components/ToolNavigator.tsx:43-45 | a non-blank query shows the first ten matches in order, or all of them when there are fewer |
| Navigator.FilteredPadded | components/ToolNavigator.tsx:41 | whitespace around the query does not change the result |

## Left out

- lib/github.ts is not part of this model. The README is fetched over HTTP there, and `parseReadme` gets its input from that fetch, so here the markdown and the fallback sentence are parameters.
- React rendering and state are left out: the JSX of app/page.tsx, the navigator's open/visible state, its scroll and key listeners, and jumping to an anchor.
- Strings are sequences of Unicode scalar values, not UTF-16 code units. The non-ASCII characters the patterns test are all single scalar values: `–`, `—` and 🔗; the whitespace of `\s` and `trim` beyond ASCII (U+00A0, U+1680, U+2000–U+200A, U+2028, U+2029, U+202F, U+205F, U+3000, U+FEFF); and the line terminators U+2028 and U+2029 that `.` does not match. So positions differ from JavaScript's only in length arithmetic, which no contract uses.
- Case-insensitive matching and `toLowerCase` are modelled on ASCII letters only. Unicode case folding is not modelled.
- Groups.StripEcho: the RegExp built from the unescaped heading text (lib/readme.ts:249) is modelled as a case-insensitive literal prefix `**heading**` followed by whitespace. Headings with regular-expression metacharacters, and the exception an invalid pattern would throw, are not modelled.
- Page.PageTools: the `url: tool.url ?? undefined` re-spelling (app/page.tsx:65) is the identity here, because `null` and `undefined` are both `None`.
- ToolLine.ParseToolLine: states the description guarantee only for the bold, link and plain forms; the separator form can give an empty description (ToolLine.SeparatorFormEmptyDescription).
- Page.CleanParagraph: states only that cleaning never lengthens a line. The exact result is characterised for plain and bulleted lines (Page.PlainParagraph, Page.BulletParagraph), not for every markup combination.
- Navigator.Matching: the `kind` and `id` of an item are carried along but do not affect the filter, as in the source.
