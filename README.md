# ralph — a Dafny model of the streaming log pipeline

ralph runs a coding agent (the `claude` CLI) a number of times on one task
and records what the agent streams. This project models the core of that
pipeline in Dafny and proves properties of the model:

- `StreamPersister` — the incremental log writer (`StreamPersisterImpl`). It
  buffers text, opens the log lazily, writes the header at most once and the
  body in call order, and finalises exactly once with a footer. After the
  first I/O error it stops writing. It is a class over the real fields, plus
  a ghost `disk` that stands for the file's contents.
- `Ndjson` — the line-buffered `NDJSONParser`. It is a class whose `Push` and
  `Flush` return the callbacks they fire, checked against a functional
  specification; the main theorem is chunk-boundary invariance.
- `ClaudeEvents` and `ClaudeFormatter` — the stream-event union and `formatEvent`.
- `ClaudeAgent` — the result reducer of `claude.execute`. The child process
  is the sequence of events it emits, and a class holds the closure state.
- `Templates` — `substituteVars` and the copy loop of `ensureTemplates`.
- `InitTemplates` — `transformSkillContent` and `transformCommandContent`.
- `PrdManager` — `computeStatus`, the local/global merge of `listPrds`,
  `getPrdDir`, `prdExists` and the error mapping of `getPrd`.
- `PrdList` — the table `prdList` prints, returned as lines.
- `SessionLogger` — `writeLog`.
- `Files` — `readContextFiles` and `buildPrompt`.
- `Run` — the `run` command: validation, then N execute/log pairs.
- `Text`, `Wrappers`, `Chalk` — the JavaScript string operations the code
  uses (`split`, `join`, literal `replaceAll`, `trim`, `padEnd`/`padStart`,
  `slice`, decimal rendering), `Option`/`Result`, and the colouring styles.

Opaque library functions are parameters, so every result holds for any
choice of them:

- `chalk` is `Paint`.
- `JSON.parse` is `parse: string -> Option<T>`.
- `JSON.stringify` is `stringify`.

The file system is either a map from paths to contents or a ghost field.
I/O outcomes the program does not control are inputs or are chosen
arbitrarily (`:= *`).

Points of the code's behaviour worth stating outright:

- `run` has no completion-marker early stop, no signal handling and no
  persister per iteration. It executes and logs exactly N times, unless an
  awaited call rejects; it catches none of those rejections.
- The header's `Status:` is the status current when the file is first
  opened. That is `in_progress` unless the first write happens inside
  `complete`/`abort`/`crash`, in which case it is that terminal status.
- The log is not strictly append-only. `ensureFile` opens with `'w'` whenever
  no handle is held, so a flush after the file was closed reopens it and
  truncates it. The model keeps this and records it in the ghost flag
  `truncated`. The contents are stated only while no error has happened and
  no truncation has taken place (`Healthy()`).
- The parser's `onError` receives the trimmed line from `push` and the
  untrimmed buffer from `flush`. The cut to 100 characters happens in
  `claude.execute`, not in the parser.

## Model

| member | source | states |
|---|---|---|
| StreamPersister.StatusName | src/stream/types.ts:4 | the rendered status is non-empty and a single line |
| StreamPersister.FooterFields | src/stream/persister.ts:183-194 | at most four optional footer lines, pushed in the order exit code, duration, signal, error |
| StreamPersister.PrefixLine | src/stream/persister.ts:117 | a non-empty line gains `[stderr] `; an empty line stays empty |
| StreamPersister.PrefixLines | src/stream/persister.ts:115-118 | one prefixed line per line, position by position |
| StreamPersister.Persister.constructor | src/stream/persister.ts:9-25 | a fresh persister: empty buffer, `in_progress`, no file, no timer, flush interval defaulting to 100 |
| StreamPersister.Persister.WriteToFile | src/stream/persister.ts:93-102 | with no handle or after an error, nothing changes; otherwise the file gains exactly `content`, or the write fails, sets the error and writes nothing |
| StreamPersister.Persister.EnsureFile | src/stream/persister.ts:51-73 | after an error it returns null and changes nothing; with a handle it returns it unchanged; otherwise it opens with truncation, and a failed open sets the error; the header is written once, with the status current at that moment |
| StreamPersister.Persister.StartLog | src/stream/persister.ts:67-70 | the first open writes the header for the current status and marks it written; the file then holds exactly the header unless the write failed |
| StreamPersister.Persister.WriteHeader | src/stream/persister.ts:78-88 | writes the five-line header for the current status, under `writeToFile`'s rules |
| StreamPersister.Persister.Append | src/stream/persister.ts:104-111 | the appended text grows by `content` and the timer runs; without a boundary only the buffer changes; with one, a healthy persister has flushed everything appended |
| StreamPersister.Persister.Buffer | src/stream/persister.ts:105-106 | the buffer gains the text and the flush timer is started |
| StreamPersister.Persister.AppendStderr | src/stream/persister.ts:113-121 | the buffer gains exactly the `[stderr]`-prefixed text; nothing is flushed |
| StreamPersister.Persister.Flush | src/stream/persister.ts:123-137 | an empty buffer or an earlier error changes nothing; a failed open keeps the buffer and the file; otherwise the buffer is emptied into the file, everything appended so far is written, and the header status is fixed once |
| StreamPersister.Persister.FlushHeld | src/stream/persister.ts:127-133 | the `try` body of `flush`: the same cases as `Flush`, for a non-empty buffer |
| StreamPersister.Persister.WriteBuffer | src/stream/persister.ts:131-133 | the buffer is cleared before the write, and the file gains the old buffer unless the write fails |
| StreamPersister.Persister.Tick | src/stream/persister.ts:33-35 | one timer firing is a flush: with an empty buffer nothing changes; otherwise a healthy persister has written everything appended |
| StreamPersister.Persister.WriteMetadata | src/stream/persister.ts:172-197 | after an error nothing changes; otherwise the file is ensured and, unless a write fails, the footer for the current status is appended |
| StreamPersister.Persister.WriteFooter | src/stream/persister.ts:196 | the footer text is appended to the open file unless the write fails |
| StreamPersister.Persister.Close | src/stream/persister.ts:202-211 | the handle is dropped; the file and the other fields keep their relations |
| StreamPersister.Persister.Finish | src/stream/persister.ts:139-167 | a second finalisation changes nothing; the first sets the terminal status, stops the timer, closes the file and, while healthy, leaves header + everything appended + one footer on disk |
| StreamPersister.Persister.FlushAndClose | src/stream/persister.ts:144-146 | flush, footer, close: when healthy, everything appended is written and the footer is the one for the final status |
| StreamPersister.Persister.WriteAndClose | src/stream/persister.ts:145-146 | the footer is written for the final status unless an error occurs, then the handle is dropped |
| StreamPersister.Persister.Complete | src/stream/persister.ts:139-147 | the first call leaves, while healthy, exactly header + appended text + the `completed` footer with exit code and duration; a header first written by this call says `completed`, one written before keeps its status; later calls change nothing |
| StreamPersister.Persister.Abort | src/stream/persister.ts:149-157 | the same as `Complete`, with the `aborted` footer and the signal, and `aborted` in a header this call writes first |
| StreamPersister.Persister.Crash | src/stream/persister.ts:159-167 | the same as `Complete`, with the `crashed` footer and the error message, and `crashed` in a header this call writes first |
| StreamPersister.Persister.Destroy | src/stream/persister.ts:216-219 | stops the timer and drops the handle; nothing is written |
| StreamPersister.HeaderLines | src/stream/persister.ts:79-85 | the header splits into `# Iteration Log`, `Timestamp: …`, `Status: …`, `---` and an empty rest |
| StreamPersister.FooterFieldsNoNewline | src/stream/persister.ts:183-194 | no optional footer line spans two lines when the signal and message are single lines |
| StreamPersister.FooterLines | src/stream/persister.ts:181-196 | the footer splits into an empty line, `---`, `Status: …`, the optional fields, and an empty rest |
| StreamPersister.RuledLines | src/stream/persister.ts:181-196 | a `\n`-led rule, a status line and single-line fields, joined and newline-terminated, split back into their lines |
| StreamPersister.CompletedFooterLines | src/stream/persister.ts:183-188 | `completed` always carries `Exit Code: <c>` and `Duration: <d>ms` |
| StreamPersister.AbortedFooterLines | src/stream/persister.ts:189-191 | `aborted` carries `Interrupted: <sig>` exactly when the signal is non-empty |
| StreamPersister.CrashedFooterLines | src/stream/persister.ts:192-194 | `crashed` carries `Error: <msg>` exactly when the message is non-empty |
| StreamPersister.StderrPrefixedLines | src/stream/persister.ts:115-118 | the prefixed text splits into the prefixed lines of the input: the newlines are kept |
| StreamPersister.StripPrefix | src/stream/persister.ts:117 | the inverse of the per-line prefix: a suffix of its input |
| StreamPersister.StripPrefixes | src/stream/persister.ts:115-118 | strips each line, position by position |
| StreamPersister.StderrRoundTrip | src/stream/persister.ts:115-118 | stripping the prefix from every line of the prefixed text gives back the original text |
| StreamPersister.StderrSingleLine | src/stream/persister.ts:115-118 | a chunk without a newline is prefixed once (or left empty) |
| Ndjson.LineNotice | src/utils/ndjson.ts:25-33 | a line fires at most one callback |
| Ndjson.PushResult | src/utils/ndjson.ts:17-35 | the new carry-over holds no newline and is a suffix of buffer + chunk |
| Ndjson.FlushResult | src/utils/ndjson.ts:37-47 | at most one callback, and none exactly when the buffer is blank |
| Ndjson.Parser.constructor | src/utils/ndjson.ts:5-15 | empty carry-over, no callbacks yet |
| Ndjson.Parser.Push | src/utils/ndjson.ts:17-35 | fires and keeps exactly what `PushResult` says, and the trace grows by what was fired |
| Ndjson.Parser.Flush | src/utils/ndjson.ts:37-47 | fires exactly `FlushResult` of the carry-over and empties it |
| Ndjson.LineNoticesSnoc | src/utils/ndjson.ts:24-34 | one more line adds its own callback at the end |
| Ndjson.LineNoticesAppend | src/utils/ndjson.ts:24-34 | the callbacks of two runs of lines are those of each run, in order |
| Ndjson.LineNoticeCases | src/utils/ndjson.ts:25-33 | a blank line fires nothing; otherwise `onEvent(parse(trim))` if it parses, else `onError` with the trimmed line |
| Ndjson.LineNoticesEach | src/utils/ndjson.ts:28-33 | a malformed line in the middle does not stop the lines after it |
| Ndjson.PushChunkInvariance | src/utils/ndjson.ts:18-22 | `push(a); push(b)` fires the same callbacks in the same order, and leaves the same carry-over, as `push(a + b)` |
| Ndjson.PushWithoutNewline | src/utils/ndjson.ts:19-22 | a chunk with no newline fires nothing and only extends the carry-over |
| Ndjson.PushBufferIsTail | src/utils/ndjson.ts:18-22 | the carry-over is the text after the last newline, or all of it when there is none; complete lines + newline + carry-over rebuild the text |
| Ndjson.FlushErrorIsUntrimmed | src/utils/ndjson.ts:43 | a failed final parse reports the untrimmed buffer |
| ClaudeFormatter.Preview | src/agents/claude-formatter.ts:42-44 | at most 203 characters; the content itself up to 200; beyond that its first 200 characters and `...` |
| ClaudeFormatter.ToolResultLines | src/agents/claude-formatter.ts:38-49 | one `[result]` line per tool result, in order |
| ClaudeFormatter.FormatEvent | src/agents/claude-formatter.ts:4-21 | no text exactly for an event outside the known union |
| ClaudeFormatter.FormatAssistantContent | src/agents/claude-formatter.ts:23-36 | the loop yields the block lines (text verbatim, tool name then input, tool results nothing) joined by newlines |
| ClaudeFormatter.FormatToolResults | src/agents/claude-formatter.ts:38-49 | the loop yields the `[result]` lines joined by newlines |
| ClaudeFormatter.Format | src/agents/claude-formatter.ts:4-21 | the switch with its loops computes `FormatEvent` |
| ClaudeFormatter.AssistantLinesAppend | src/agents/claude-formatter.ts:26-33 | the lines of two runs of blocks are those of each run, in order |
| ClaudeFormatter.AssistantWithoutTextIsEmpty | src/agents/claude-formatter.ts:23-36 | an assistant event with no text or tool-use block formats to `""`, not to null |
| ClaudeFormatter.SingleBlockLines | src/agents/claude-formatter.ts:27-32 | one text block formats to its text; one tool-use block to `[tool] <name>`, a newline, and the stringified input |
| ClaudeFormatter.PreviewBounds | src/agents/claude-formatter.ts:42-44 | every preview has at most 203 characters and starts with a prefix of the content |
| ClaudeFormatter.ResultFlagOnlyColours | src/agents/claude-formatter.ts:51-56 | `is_error` changes only the colour of `[done] <subtype> (<ms>ms)` |
| ClaudeAgent.Forward | src/agents/claude.ts:35-40 | a callback goes to `onOutput` and to `onPersist` exactly when each is given, and to nothing else |
| ClaudeAgent.StderrCalls | src/agents/claude.ts:64-69 | a stderr chunk goes red to `onOutput` iff that is given, and unmodified to `onStderr` iff that is given; one call per given callback, `onOutput` first |
| ClaudeAgent.ResolvedOutput | src/agents/claude.ts:79 | the text output, followed by `\n[stderr]\n` and the stderr text exactly when stderr is non-empty |
| ClaudeAgent.Execution.constructor | src/agents/claude.ts:29-56 | empty closure state and a fresh parser |
| ClaudeAgent.Execution.HandleEvent | src/agents/claude.ts:34-50 | the event's callbacks are issued and its assistant text is accumulated |
| ClaudeAgent.Execution.EmitFormatted | src/agents/claude.ts:36-39 | a formatted event goes out with a newline and the boundary flag set |
| ClaudeAgent.Execution.AppendBlockText | src/agents/claude.ts:44-48 | `textOutput` gains the text of the text blocks, in order |
| ClaudeAgent.Execution.HandleMalformed | src/agents/claude.ts:51-55 | a malformed line is forwarded as a warning without the boundary flag |
| ClaudeAgent.Execution.HandleNotice | src/agents/claude.ts:33-56 | one parser callback adds its calls and text |
| ClaudeAgent.Execution.HandleNext | src/agents/claude.ts:33-56 | one more callback extends the calls and text of those before it |
| ClaudeAgent.Execution.HandleNotices | src/agents/claude.ts:33-56 | the callbacks of a run of notices, in order, and their text |
| ClaudeAgent.Execution.OnStdout | src/agents/claude.ts:58-62 | raw output grows by the chunk, the parser is pushed, and what it fires is handled |
| ClaudeAgent.Execution.OnStderr | src/agents/claude.ts:64-69 | stderr grows by the chunk, which is forwarded |
| ClaudeAgent.Execution.OnSpawnError | src/agents/claude.ts:71-73 | an unsettled promise rejects with `Failed to spawn claude: <msg>` |
| ClaudeAgent.Execution.OnClose | src/agents/claude.ts:75-83 | the parser is flushed first, then an unsettled promise resolves with the output, `code ?? 1` and the duration |
| ClaudeAgent.RunCallsSnoc | src/agents/claude.ts:58-83 | one more process event adds its own callbacks after those of the events before it |
| ClaudeAgent.Feed | src/agents/claude.ts:58-73 | one non-close process event keeps the state, the callbacks issued included, equal to that of the events seen |
| ClaudeAgent.FeedUntilClose | src/agents/claude.ts:58-83 | the events up to the first close are fed in order |
| ClaudeAgent.Finish | src/agents/claude.ts:71-83 | the close settles as the first spawn error, or else with the resolved output of all stdout and stderr seen; the flush's callbacks end the calls |
| ClaudeAgent.Execute | src/agents/claude.ts:11-88 | a spawn error rejects; a closed run resolves with the text of all assistant events, the stderr suffix, the exit code or 1, and the duration; an unclosed run stays pending; the callbacks issued are, event by event, those of the notices each stdout chunk completes, each stderr chunk's forwards, and the final flush's |
| ClaudeAgent.StdoutOnlyCalls | src/agents/claude.ts:58-73 | before `close` and without stderr, the callbacks are those of the notices the whole stdout text so far completes, whatever the chunking and the spawn errors |
| ClaudeAgent.StdoutOnlyStep | src/agents/claude.ts:58-62 | a stdout chunk or a spawn error keeps that correspondence |
| ClaudeAgent.WholeRunCalls | src/agents/claude.ts:58-83 | a closed run without stderr forwards exactly the callbacks of every notice the parser fires for its whole stdout text, the final flush included |
| ClaudeAgent.CallsAndTextAppend | src/agents/claude.ts:33-56 | the calls and text of two runs of notices are those of each run, in order |
| ClaudeAgent.StdoutChunkInvariance | src/agents/claude.ts:58-62 | how the decoded stdout text is cut into chunks changes neither the callbacks nor the text output |
| ClaudeAgent.FirstSpawnErrorSnoc | src/agents/claude.ts:71-73 | only the first spawn error settles the promise |
| ClaudeAgent.EventCalls | src/agents/claude.ts:35-40 | an event whose formatting is null or `""` forwards nothing; otherwise `f + "\n"` goes to each given callback and only to those, with the boundary flag |
| ClaudeAgent.TextOnlyFromAssistant | src/agents/claude.ts:43-49 | notices with no assistant event add no text output |
| ClaudeAgent.WarningQuotesPrefix | src/agents/claude.ts:51-55 | the warning quotes at most the first 100 characters of the line, and is persisted without the boundary flag |
| Templates.Placeholder | src/templates/templates.ts:53 | the placeholder is `$` followed by the key |
| Templates.SubstituteVars | src/templates/templates.ts:47-56 | the loop replaces, entry by entry in order, every occurrence of each placeholder by its value |
| Templates.SubstitutedAppend | src/templates/templates.ts:52-54 | substitution is sequential: later entries apply to the text produced by earlier ones |
| Templates.Substituted | src/templates/templates.ts:51-55 | a template without `$`, the empty one among them, is returned unchanged |
| Templates.PlaceholderNeedsDollar | src/templates/templates.ts:53 | text without `$` holds no placeholder |
| Templates.SubstitutedAbsentKey | src/templates/templates.ts:53 | a key whose placeholder does not occur leaves the text unchanged |
| Templates.PlaceholderPrefixRewritten | src/templates/templates.ts:53 | matching is literal: `$A` rewrites the `$A` in `$AB` |
| Templates.InsertedTextSubstitutedAgain | src/templates/templates.ts:52-54 | text inserted for an earlier key is rewritten by a later key |
| Templates.Expand | src/templates/templates.ts:53 | a replacement without `$` is inserted as is |
| Templates.JsReplaceAllLiteral | src/templates/templates.ts:53 | without `$` in the replacement, `replaceAll` is the literal replacement |
| Templates.SubstitutedAsWritten | src/templates/templates.ts:47-56 | as written and literal substitution agree when no value holds `$` |
| Templates.DollarPatternExpanded | src/templates/templates.ts:53 | the value `$$` is inserted as `$` by the code as written |
| Templates.MarkdownFiles | src/templates/templates.ts:29-30 | exactly the entries ending in `.md` |
| Templates.EnsureTemplates | src/templates/templates.ts:16-40 | a copy is attempted for exactly the `.md` entries, in order; an unreadable directory returns early without error; failed copies do not stop the loop |
| Templates.TwoMarkdownOfThree | src/templates/templates.ts:29-39 | of `template1.md`, `template2.md`, `readme.txt`, a copy is attempted for the first two only |
| InitTemplates.ReplaceFirstLineStartAt | src/init/templates.ts:59-62 | `replace(/^…/m)` rewrites the first line-start match only |
| InitTemplates.ReplaceFirstLineStartNone | src/init/templates.ts:59-62 | with no line-start match the text is unchanged |
| InitTemplates.SkillNameRewrite | src/init/templates.ts:59-62 | the first line-start `---\nname: prd\n` becomes `---\nname: ralph-prd\n` and the rest is kept |
| InitTemplates.PathRewritesKeepAbsent | src/init/templates.ts:65-73 | after the backticked file-name rewrites, a pattern built around such a name cannot occur |
| InitTemplates.SkillDeadRewrites | src/init/templates.ts:65-85 | the `Generate markdown PRD…` and `Save to…` rewrites never match, because lines 65-73 already consumed their file names |
| InitTemplates.TransformSkillContent | src/init/templates.ts:54-94 | no `PRD saved to prd-<name>.md` is left in the output |
| InitTemplates.SkillUnchanged | src/init/templates.ts:54-94 | text with none of the patterns comes back unchanged |
| InitTemplates.TransformCommandContent | src/init/templates.ts:96-130 | the command output contains no `.claude/state` |
| InitTemplates.CommandUnchanged | src/init/templates.ts:96-130 | text with none of the patterns comes back unchanged |
| PrdManager.CountPassing | src/prd/manager.ts:137 | the number of passing tasks: zero iff none passes, all iff every one passes |
| PrdManager.ComputeStatus | src/prd/manager.ts:136-141 | `pending` iff no task passes (the empty list included); `completed` iff there are tasks and all pass; `in_progress` iff some pass and some do not |
| PrdManager.StatusOf | src/prd/manager.ts:178-189 | the entry has the PRD's name, its task count, its number of passing tasks (at most the count), its first description or `""`, and the location |
| PrdManager.CountPassingAppend | src/prd/manager.ts:137 | the passing tasks of two lists add up |
| PrdManager.Kept | src/prd/manager.ts:174-197 | the entries kept are no more than those listed |
| PrdManager.KeptMembers | src/prd/manager.ts:174-197 | an entry is kept iff it is listed, not skipped and holds a valid PRD |
| PrdManager.Statuses | src/prd/manager.ts:174-210 | every result of a loop carries that loop's location |
| PrdManager.StatusesOfKept | src/prd/manager.ts:174-210 | one result per kept entry, in listing order, built from that entry's PRD |
| PrdManager.ValidPrds | src/prd/manager.ts:175-176 | exactly the entries whose `prd.json` is read and parses to a PRD, with that PRD |
| PrdManager.ThrowsSnoc | src/prd/manager.ts:178-179 | one more entry rejects the loop iff it is an unskipped entry that parses to a value other than a PRD |
| PrdManager.CollectLocal | src/prd/manager.ts:174-190 | the first loop rejects iff some local entry parses to a value other than a PRD; otherwise it yields the valid local PRDs and the names that shadow |
| PrdManager.CollectGlobal | src/prd/manager.ts:193-210 | the second loop rejects iff an unshadowed global entry parses to a value other than a PRD; otherwise it appends the valid global PRDs that are not shadowed |
| PrdManager.ListPrds | src/prd/manager.ts:164-213 | a `TypeError` rejection when a non-shadowed `prd.json` parses to something other than a PRD; otherwise the local entries then the unshadowed global ones |
| PrdManager.ListedLocalFirst | src/prd/manager.ts:170-212 | every local result comes before every global one |
| PrdManager.ListedShadowing | src/prd/manager.ts:175-194 | a global entry is listed iff it is valid and no valid local entry has its name; invalid local entries do not shadow |
| PrdManager.ShadowedEntryIgnored | src/prd/manager.ts:193-196 | a shadowed global entry is never parsed: removing it changes neither the listing nor whether it rejects |
| PrdManager.StatusesWithoutSkipped | src/prd/manager.ts:193-196 | the PRD of a skipped name does not affect the loop |
| PrdManager.UnshadowedNotPrdRejects | src/prd/manager.ts:196-200 | an unshadowed global entry whose `prd.json` is not a PRD rejects the whole listing |
| PrdManager.ListedUnreadable | src/prd/manager.ts:143-149 | with an unreadable local directory, the listing rejects iff a global entry does, and otherwise is the global loop alone |
| PrdManager.GetPrdDir | src/prd/manager.ts:46-66 | write mode is local iff `.ralph` exists; read mode is local iff the local PRD directory exists; global otherwise |
| PrdManager.PrdExists | src/prd/manager.ts:68-83 | checks the local, the global or either directory |
| PrdManager.ReadDirExists | src/prd/manager.ts:62-83 | when the PRD exists, the read-mode directory is an existing one, local first |
| PrdManager.GetPrd | src/prd/manager.ts:109-134 | EACCES gives `Permission denied: <path>`, ENOENT `PRD not found: <name>`, other errors are rethrown, unparseable JSON gives `Invalid JSON in PRD file: <path>`; success only when read and parsed |
| PrdList.MaxLength | src/commands/prd-list.ts:25-26 | the floor or the longest length, bounding every length |
| PrdList.NameWidth | src/commands/prd-list.ts:25 | at least 4, at least every name's length, and 4 or some name's length |
| PrdList.DescWidth | src/commands/prd-list.ts:26 | between 11 and 40; below 40 only when every description fits; 40 only when some description is at least 40 long |
| PrdList.SliceTo | src/commands/prd-list.ts:47 | `slice(0, end)`: a prefix, of length `end` when the string is longer |
| PrdList.Truncate | src/commands/prd-list.ts:45-48 | the shown description has the width's length when longer, its own otherwise |
| PrdList.TruncateKeeps | src/commands/prd-list.ts:45-48 | a short description is unchanged; a long one is its first width-3 characters and `...` |
| PrdList.PrdList | src/commands/prd-list.ts:16-61 | no PRDs prints only `No PRDs found`; otherwise the bold header and then one row per PRD, in order |
| PrdList.RowsInOrder | src/commands/prd-list.ts:44-60 | exactly one row per PRD, the k-th row for the k-th PRD |
| PrdList.RowNameColumn | src/commands/prd-list.ts:52-53 | each row starts with the name padded to the name width, then two spaces |
| PrdList.RowDescColumn | src/commands/prd-list.ts:45-54 | the next `descWidth` characters are the truncated, padded description |
| PrdList.RowEndsWithProgress | src/commands/prd-list.ts:49-58 | each row ends with `<completed>/<total>` left-padded to width 8 |
| PrdList.HeaderColumns | src/commands/prd-list.ts:31-41 | the header's columns line up with the rows' |
| PrdList.LongDescriptionTruncated | src/commands/prd-list.ts:45-48 | a 50-character description shows as its first 37 characters and `...`, 40 in all |
| SessionLogger.WriteLog | src/session/logger.ts:14-32 | one write, to `<iteration>.log` in the session directory, of the header followed by the output |
| SessionLogger.LogLines | src/session/logger.ts:22-31 | the log's lines are `# Iteration <i>`, `Timestamp: …`, `Duration: <d>ms`, `Exit Code: <c>`, `---`, then the output's lines |
| SessionLogger.HeaderEndsWithRule | src/session/logger.ts:22-29 | the header ends with `---\n` |
| SessionLogger.EmptyOutputLogsHeader | src/session/logger.ts:31 | with empty output the log is the header alone |
| SessionLogger.SessionDirShape | src/session/manager.ts:15-25 | the session directory is `<home>/.ralph/sessions/<id>` |
| SessionLogger.LogPathShape | src/session/logger.ts:19-20 | the log path is the session directory joined with `<iteration>.log` |
| Files.Resolve | src/utils/files.ts:8 | an absolute path resolves to itself |
| Files.Section | src/utils/files.ts:10 | `# File: <path as given>\n`, then the content |
| Files.ReadContextFiles | src/utils/files.ts:4-14 | the sections in order, joined by a blank line, or the first path whose read fails |
| Files.BuildPrompt | src/utils/files.ts:16-26 | the task alone without context files; otherwise task, `---` rule, context; a failed read rejects |
| Files.PromptKeepsTask | src/utils/files.ts:20-25 | without context files the prompt is the task; the task always starts the prompt |
| Files.ContextEmpty | src/utils/files.ts:5-13 | no paths give `""` |
| Files.ContextSnoc | src/utils/files.ts:7-13 | each further file adds a blank line and its section at the end |
| Files.ContextSingle | src/utils/files.ts:7-13 | one file gives its heading and its content |
| Files.HeadingKeepsGivenPath | src/utils/files.ts:8-10 | the heading shows the path as given; the content is that of the resolved path |
| Run.LeadingDigits | src/commands/run.ts:22 | the longest run of digits at the start |
| Run.ParseInt | src/commands/run.ts:22 | `parseInt(s, 10)` is NaN exactly when no digit follows the whitespace and sign |
| Run.ValidIterations | src/commands/run.ts:22-26 | accepted exactly when the parse is a number above zero |
| Run.ParseIntRoundTrip | src/commands/run.ts:22 | `parseInt` reads back the decimal rendering of every natural number |
| Run.ParseIntNegative | src/commands/run.ts:22 | a minus sign gives the negated number |
| Run.ParseIntExamples | src/commands/run.ts:22 | trailing text is ignored; text with no leading digit is NaN |
| Run.ValidIterationsExamples | src/commands/run.ts:23-26 | `0` is refused and `5` accepted |
| Run.Run | src/commands/run.ts:13-70 | an unknown agent, a bad count or an unreadable context exits 1 with no effect; a rejected `createSession` ends the run with its rejection; otherwise the loop executes and logs N times and completes, unless the first iteration whose execution or log write rejects ends the run with that rejection right after the rejected call |
| Run.RejectedRunStops | src/commands/run.ts:54-58 | a run rejected in iteration f made f + 1 executions, and its last effect is the rejected call |
| Run.LoopTraceShape | src/commands/run.ts:54-58 | iteration i executes and then logs its own result as iteration i, in order |
| Run.CompletedRunShape | src/commands/run.ts:41-65 | a completed run creates the session once, first, then has two effects per iteration whatever the exit codes |
| Text.Take | src/agents/claude-formatter.ts:43 | `slice(0, n)`: a prefix of length min(n, length) |
| Text.Split | src/utils/ndjson.ts:19 | `split` yields at least one piece |
| Text.JoinSplit | src/utils/ndjson.ts:19-22 | joining the pieces of a split restores the text |
| Text.SplitJoin | src/stream/persister.ts:115-118 | splitting a join of separator-free pieces gives the pieces back |
| Text.SplitAppend | src/utils/ndjson.ts:18-19 | splitting `x + y` continues the last piece of `x` |
| Text.ReplaceAllAbsent | src/templates/templates.ts:53 | `replaceAll` of a pattern that does not occur returns its input |
| Text.NoOccurrenceAfterReplaceAll | src/init/templates.ts:96-130 | a pattern that is absent, or that contains the searched text, and cannot overlap the replacement does not occur after `replaceAll` |
| Text.TrimStartSpec | src/utils/ndjson.ts:25 | `trimStart` drops exactly the leading whitespace: a suffix of the text, with only whitespace before it and none at its start |
| Text.TrimEndSpec | src/utils/ndjson.ts:25 | `trimEnd` drops exactly the trailing whitespace: a prefix of the text, with only whitespace after it and none at its end |
| Text.TrimEmptyIffBlank | src/utils/ndjson.ts:25-26 | the trim is empty exactly when the line is whitespace only |
| Text.PadEnd | src/commands/prd-list.ts:52-56 | `padEnd`: the text, then spaces up to the width |
| Text.PadStart | src/commands/prd-list.ts:58 | `padStart`: spaces up to the width, then the text |
| Text.NatToString | src/session/logger.ts:23-26 | a non-empty run of decimal digits |

## Left out

- File-system and process I/O (`mkdir`, `open`, `write`, `readdir`, `copyFile`, `spawn`, stdin piping, `process.exit`, `console`). Outcomes are inputs or arbitrary choices. Exits are the `Outcome` of `Run.Run`. Console output is either returned lines (`PrdList`) or recorded callbacks (`ClaudeAgent`).
- Timers and clocks. `setInterval` is the flag `timerRunning` plus the method `Tick`. `Date.now`/`toISOString` are timestamp and duration parameters, and a duration is an integer.
- The interleaving of asynchronous calls. The model is sequential. `flushing` is kept as a field and is always false between calls.
- Partial writes: a failed `write` is taken to have written nothing.
- `getError()` has no row: it only returns the error.
- `StreamPersister.Persister.constructor` takes the start time as its ISO rendering.
- Close errors are ignored in the source; the model closes unconditionally.
- The console diagnostic printed on an I/O error.
- `JSON.parse`, `JSON.stringify`, `chalk` and `nanoid` are parameters, not definitions. The session id `createSession` draws is part of the `World` given to `Run.Run`.
- `String.trim` uses a fixed whitespace set. No Unicode normalisation is modelled.
- String lengths count `char`s, not UTF-16 code units.
- ClaudeAgent.StdoutChunkInvariance: the process events carry text already decoded. `claude.execute` decodes each stdout and stderr `Buffer` on its own with `data.toString()`, so a multi-byte UTF-8 character split across two chunks becomes replacement characters and the cut does change the text; the model does not capture that decoding.
- `path.join`/`resolve` are modelled only for paths that need no normalisation: no `..`, `.` or doubled slashes.
- The path helpers of src/init/templates.ts (`getClaudeDir`, `getSourceSkillPath` and the like), `readSourceSkill`/`readSourceCommand`, `getTemplatesDir`/`getBundledTemplatesDir` and `loadTemplate`: each is a single `join` or read.
- `createPrdFolder` and `copyMarkdown` of src/prd/manager.ts: a `getPrdDir` call followed by `mkdir`/`copyFile`, with no logic of their own.
- `createSession` beyond the session id it returns. Its `meta.json` write is not part of this model.
- The printed progress messages of `run` (`[i/N] Running…`, exit code or duration). They do not affect the loop.
- src/commands/init.ts, prd-info.ts, prd-delete.ts, prd-add.ts, src/index.ts and the CLI wiring are not part of this model.
- PrdManager.Kept: its own contract states only the length bound. Membership and order are stated by `KeptMembers` and `StatusesOfKept`.
- PrdList.Truncate: its own contract states only the length. The content is stated by `TruncateKeeps`, which needs a width of at least 3, as every width `prdList` uses (11 to 40) has.
- StreamPersister.Persister.Complete: the file contents are stated only while `Healthy()`, meaning no I/O error and no reopening with truncation. After an error, the model states only that nothing more is written. The same holds for `Abort` and `Crash`.
- Ndjson.LineNotice: a handler is taken not to throw once it has made a callback. A handler that throws later would turn the line into an `onError` call after what it already emitted. A parsed value that makes the handler throw before any callback of its own is the `None` case of `parse`.
- PrdManager.ListPrds: the rejection is the single value `TypeError`; its message text is not modelled.
- Run.ParseInt: the value is an exact natural number. JavaScript's `parseInt` rounds beyond 2^53 and gives `Infinity` for a digit string of more than about 309 digits, which `run` accepts and then loops on without end; neither is modelled.

## Findings

| source | as written | input that shows it | evidently intended | confidence | as-written member | corrected member |
|---|---|---|---|---|---|---|
| src/templates/templates.ts:53 | `result.replaceAll('$' + key, value)` with a string value still expands JavaScript's replacement patterns (`$$`, `$&`, `` $` ``, `$'`) in `value` | template `$X`, vars `{X: "$$"}` yields `$` | the value is inserted literally, giving `$$` | medium, not executed | Templates.DollarPatternExpanded | Templates.SubstituteVars |
