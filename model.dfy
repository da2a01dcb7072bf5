/** The records `parseReadme` returns (lib/readme.ts lines 1-12). */
module ReadmeTypes {
  import opened Optional

  /** A heading and the trimmed text under it. */
  datatype Section = Section(title: string, content: string)

  /** One tool: `url` is absent when the source leaves it `undefined`. */
  datatype Tool = Tool(name: string, description: string, tags: seq<string>, url: Option<string>)

  /** A category with the tools listed under it. */
  datatype ToolGroup = ToolGroup(category: string, tools: seq<Tool>)

  datatype ParsedReadme = ParsedReadme(
    intro: string,
    valueProposition: string,
    sections: seq<Section>,
    tools: seq<Tool>,
    toolGroups: seq<ToolGroup>)

  /** The description used whenever a tool has none of its own. */
  const Placeholder: string := "Part of the core stack."

  /** `text || 'Part of the core stack.'`. */
  function OrPlaceholder(text: string): (r: string)
    ensures r != ""
    ensures text != "" ==> r == text
    ensures text == "" ==> r == Placeholder
  {
    if text != "" then text else Placeholder
  }
}
