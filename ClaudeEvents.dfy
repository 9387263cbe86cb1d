/**
 * The stream-json events the Claude CLI prints, one per line
 * (src/agents/claude-events.ts). A parsed line whose `type` is none of the
 * four known ones is `Other`.
 */
module ClaudeEvents {
  import opened Wrappers

  /** A JSON value, as found in a tool call's `input`. */
  datatype Json =
    | JNull
    | JBool(b: bool)
    | JNumber(n: int)
    | JString(s: string)
    | JArray(items: seq<Json>)
    | JObject(fields: seq<(string, Json)>)

  datatype ToolResult = ToolResult(toolUseId: string, content: string)

  datatype ContentBlock =
    | TextBlock(text: string)
    | ToolUseBlock(id: string, name: string, input: Json)
    | ToolResultBlock(result: ToolResult)

  datatype StreamEvent =
    | System(subtype: string, sessionId: string, tools: seq<string>, model: string)
    | Assistant(content: seq<ContentBlock>, sessionId: string)
    | User(results: seq<ToolResult>)
    | Result(subtype: string, isError: bool, durationMs: nat, result: Option<string>)
    | Other(kind: string)
}
