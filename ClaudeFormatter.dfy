/**
 * The console rendering of stream-json events (src/agents/claude-formatter.ts).
 * `JSON.stringify(input, null, 2)` is the parameter `stringify`.
 */
module ClaudeFormatter {
  import opened Wrappers
  import opened Text
  import opened Chalk
  import opened ClaudeEvents

  /** Tool results longer than this are cut in the `[result]` line. */
  const PreviewLimit: nat := 200

  /** The shown part of a tool result: short contents whole, long ones cut and marked `...`. */
  function Preview(content: string): (r: string)
    ensures |r| <= PreviewLimit + 3
    ensures IsPrefix(Take(content, PreviewLimit), r)
    ensures |content| <= PreviewLimit ==> r == content
    ensures |content| > PreviewLimit ==> |r| == PreviewLimit + 3 && r[PreviewLimit..] == "..."
  {
    if |content| > PreviewLimit then Take(content, PreviewLimit) + "..." else content
  }

  /** The lines one assistant content block contributes. */
  function BlockLines(paint: Paint, stringify: Json -> string, block: ContentBlock): seq<string> {
    match block
      case TextBlock(text) => [text]
      case ToolUseBlock(_, name, input) => [paint(Cyan, "[tool] " + name), paint(Gray, stringify(input))]
      case ToolResultBlock(_) => []
  }

  /** The lines of an assistant message, block by block in order. */
  function AssistantLines(paint: Paint, stringify: Json -> string, content: seq<ContentBlock>): seq<string> {
    Flatten(block => BlockLines(paint, stringify, block), content)
  }

  /** The `[result]` line of one tool result. */
  function ResultLine(paint: Paint, result: ToolResult): string {
    paint(Green, "[result] " + Preview(result.content))
  }

  /** One `[result]` line per tool result, in order. */
  function ToolResultLines(paint: Paint, results: seq<ToolResult>): (r: seq<string>)
    ensures |r| == |results|
    ensures forall i :: 0 <= i < |r| ==> r[i] == ResultLine(paint, results[i])
    decreases |results|
  {
    if results == [] then []
    else ToolResultLines(paint, results[..|results| - 1]) + [ResultLine(paint, results[|results| - 1])]
  }

  /** The `[done]` text of a result event, before colouring. */
  function DoneText(subtype: string, durationMs: nat): string {
    "[done] " + subtype + " (" + NatToString(durationMs) + "ms)"
  }

  /** `formatResult`: red when the run ended in error, green otherwise. */
  function FormatResult(paint: Paint, event: StreamEvent): string
    requires event.Result?
  {
    paint(if event.isError then Red else Green, DoneText(event.subtype, event.durationMs))
  }

  /** `formatEvent`: the console text of an event, `None` for an unknown type. */
  function FormatEvent(paint: Paint, stringify: Json -> string, event: StreamEvent): (r: Option<string>)
    ensures r.None? <==> event.Other?
  {
    match event
      case System(_, sessionId, _, model) => Some(paint(Gray, "[session] " + sessionId + " model=" + model))
      case Assistant(content, _) => Some(Join(AssistantLines(paint, stringify, content), "\n"))
      case User(results) => Some(Join(ToolResultLines(paint, results), "\n"))
      case Result(_, _, _, _) => Some(FormatResult(paint, event))
      case Other(_) => None
  }

  /** `formatAssistantContent`: collects the lines block by block and joins them. */
  method FormatAssistantContent(paint: Paint, stringify: Json -> string, content: seq<ContentBlock>)
    returns (text: string)
    ensures text == Join(AssistantLines(paint, stringify, content), "\n")
  {
    var lines: seq<string> := [];
    for i := 0 to |content|
      invariant lines == AssistantLines(paint, stringify, content[..i])
    {
      var block := content[i];
      if block.TextBlock? {
        lines := lines + [block.text];
      } else if block.ToolUseBlock? {
        lines := lines + [paint(Cyan, "[tool] " + block.name)];
        lines := lines + [paint(Gray, stringify(block.input))];
      }
      FlattenSnoc(b => BlockLines(paint, stringify, b), content[..i], block);
      assert content[..i + 1] == content[..i] + [block];
    }
    assert content[..|content|] == content;
    text := Join(lines, "\n");
  }

  /** `formatToolResults`: one `[result]` line per result, joined. */
  method FormatToolResults(paint: Paint, results: seq<ToolResult>) returns (text: string)
    ensures text == Join(ToolResultLines(paint, results), "\n")
  {
    var lines: seq<string> := [];
    for i := 0 to |results|
      invariant lines == ToolResultLines(paint, results[..i])
    {
      var preview := Preview(results[i].content);
      lines := lines + [paint(Green, "[result] " + preview)];
      assert results[..i + 1][..i] == results[..i];
    }
    assert results[..|results|] == results;
    text := Join(lines, "\n");
  }

  /** `formatEvent`, dispatching to the two line-collecting loops. */
  method Format(paint: Paint, stringify: Json -> string, event: StreamEvent) returns (r: Option<string>)
    ensures r == FormatEvent(paint, stringify, event)
  {
    match event
    case System(_, sessionId, _, model) =>
      r := Some(paint(Gray, "[session] " + sessionId + " model=" + model));
    case Assistant(content, _) =>
      var text := FormatAssistantContent(paint, stringify, content);
      r := Some(text);
    case User(results) =>
      var text := FormatToolResults(paint, results);
      r := Some(text);
    case Result(_, _, _, _) =>
      r := Some(FormatResult(paint, event));
    case Other(_) =>
      r := None;
  }

  // ---------------------------------------------------------------------------
  // Properties
  // ---------------------------------------------------------------------------

  /** The lines of a message are the lines of its parts, in block order. */
  lemma AssistantLinesAppend(paint: Paint, stringify: Json -> string, a: seq<ContentBlock>, b: seq<ContentBlock>)
    ensures AssistantLines(paint, stringify, a + b)
      == AssistantLines(paint, stringify, a) + AssistantLines(paint, stringify, b)
  {
    FlattenAppend(block => BlockLines(paint, stringify, block), a, b);
  }

  /** A message of tool results only formats to the empty string, not to `None`. */
  lemma {:induction false} AssistantWithoutTextIsEmpty(paint: Paint, stringify: Json -> string, content: seq<ContentBlock>, sessionId: string)
    requires forall i :: 0 <= i < |content| ==> content[i].ToolResultBlock?
    ensures FormatEvent(paint, stringify, Assistant(content, sessionId)) == Some("")
    decreases |content|
  {
    if content != [] {
      var init := content[..|content| - 1];
      AssistantWithoutTextIsEmpty(paint, stringify, init, sessionId);
      assert AssistantLines(paint, stringify, content)
        == AssistantLines(paint, stringify, init) + BlockLines(paint, stringify, content[|content| - 1]);
    }
  }

  /**
   * A text block shows its text verbatim and a tool call shows its name and
   * input; a message of one block shows just that.
   */
  lemma SingleBlockLines(paint: Paint, stringify: Json -> string, block: ContentBlock, sessionId: string)
    ensures block.TextBlock? ==> FormatEvent(paint, stringify, Assistant([block], sessionId)) == Some(block.text)
    ensures block.ToolUseBlock? ==>
      (FormatEvent(paint, stringify, Assistant([block], sessionId))
       == Some(paint(Cyan, "[tool] " + block.name) + "\n" + paint(Gray, stringify(block.input))))
  {
    FlattenSnoc(b => BlockLines(paint, stringify, b), [], block);
    assert [] + [block] == [block];
    var lines := AssistantLines(paint, stringify, [block]);
    assert lines == BlockLines(paint, stringify, block);
    if block.ToolUseBlock? {
      assert lines[1..] == [paint(Gray, stringify(block.input))];
      assert Join(lines, "\n") == lines[0] + "\n" + Join(lines[1..], "\n");
    }
  }

  /** Every preview is at most 203 characters and starts with the start of the content. */
  lemma PreviewBounds(content: string)
    ensures |Preview(content)| <= 203
    ensures IsPrefix(Take(Preview(content), PreviewLimit), content)
  {
  }

  /** The error flag of a result event picks the colour and nothing else. */
  lemma ResultFlagOnlyColours(paint: Paint, subtype: string, durationMs: nat, result: Option<string>)
    ensures FormatResult(paint, Result(subtype, true, durationMs, result))
      == paint(Red, DoneText(subtype, durationMs))
    ensures FormatResult(paint, Result(subtype, false, durationMs, result))
      == paint(Green, DoneText(subtype, durationMs))
  {
  }
}
