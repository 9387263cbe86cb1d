/**
 * The result reducer of `claude.execute` (src/agents/claude.ts): what the
 * handlers of the child process's `data`, `error` and `close` events do
 * with their closure state, what they forward to the caller's optional
 * callbacks, and how the promise settles.
 *
 * Spawning the process, writing the prompt to its stdin and the clock are
 * left out: the process is the sequence of events it emits, and `close`
 * carries the elapsed time.
 */
module ClaudeAgent {
  import opened Wrappers
  import opened Text
  import opened Chalk
  import opened ClaudeEvents
  import opened ClaudeFormatter
  import opened Ndjson

  /** Which of the optional callbacks the caller supplied. */
  datatype ExecuteOptions = ExecuteOptions(onOutput: bool, onPersist: bool, onStderr: bool)

  /** One invocation of a caller-supplied callback. */
  datatype Callback =
    | Output(text: string)
    | Persist(text: string, boundary: bool)
    | StderrOut(text: string)

  datatype AgentResult = AgentResult(output: string, exitCode: int, duration: int)

  /** What the child process emits. */
  datatype ProcessEvent =
    | StdoutData(chunk: string)   // the text `data.toString()` decodes
    | StderrData(chunk: string)
    | SpawnError(message: string)
    | Close(code: Option<int>, elapsed: int)

  /** Longest part of a malformed line quoted in the warning. */
  const QuoteLimit: nat := 100

  /** Sends `text` to `onOutput` and, with `boundary`, to `onPersist`, for those supplied. */
  function Forward(options: ExecuteOptions, text: string, boundary: bool): (r: seq<Callback>)
    ensures (Output(text) in r) == options.onOutput
    ensures (Persist(text, boundary) in r) == options.onPersist
    ensures |r| == (if options.onOutput then 1 else 0) + (if options.onPersist then 1 else 0)
  {
    (if options.onOutput then [Output(text)] else []) + (if options.onPersist then [Persist(text, boundary)] else [])
  }

  /**
   * The callbacks one parsed event causes. A formatted event is forwarded
   * iff it is truthy: nothing for `None` or `""`; otherwise `f + "\n"` to
   * each supplied callback, as an event boundary.
   */
  function EventCalls(options: ExecuteOptions, paint: Paint, stringify: Json -> string, event: StreamEvent): (r: seq<Callback>)
    ensures var f := FormatEvent(paint, stringify, event);
            f.None? || f.value == [] ==> r == []
    ensures var f := FormatEvent(paint, stringify, event);
            f.Some? && f.value != [] ==>
              (Output(f.value + "\n") in r <==> options.onOutput)
              && (Persist(f.value + "\n", true) in r <==> options.onPersist)
              && |r| == (if options.onOutput then 1 else 0) + (if options.onPersist then 1 else 0)
    ensures event.Other? ==> r == []
  {
    match FormatEvent(paint, stringify, event)
      case Some(formatted) => if formatted != [] then Forward(options, formatted + "\n", true) else []
      case None => []
  }

  /** What one content block adds to `textOutput`: its text, if it is a text block. */
  function TextOfBlock(block: ContentBlock): string {
    if block.TextBlock? then block.text else []
  }

  /** The text blocks of an assistant message, concatenated in order. */
  function BlockText(content: seq<ContentBlock>): string {
    Flatten(TextOfBlock, content)
  }

  /** What one parsed event adds to `textOutput`. */
  function EventText(event: StreamEvent): string {
    if event.Assistant? then BlockText(event.content) else []
  }

  /** The warning for a malformed line: it quotes at most the first 100 characters. */
  function Warning(paint: Paint, line: string): string {
    paint(Yellow, "[warn] malformed JSON: " + Take(line, QuoteLimit) + "\n")
  }

  /** The callbacks one parser notice causes. */
  function NoticeCalls(options: ExecuteOptions, paint: Paint, stringify: Json -> string, notice: Notice<StreamEvent>): seq<Callback> {
    match notice
      case Event(event) => EventCalls(options, paint, stringify, event)
      case Error(line) => Forward(options, Warning(paint, line), false)
  }

  /** What one parser notice adds to `textOutput`. */
  function NoticeText(notice: Notice<StreamEvent>): string {
    if notice.Event? then EventText(notice.value) else []
  }

  function CallsOf(options: ExecuteOptions, paint: Paint, stringify: Json -> string, notices: seq<Notice<StreamEvent>>): seq<Callback> {
    Flatten(n => NoticeCalls(options, paint, stringify, n), notices)
  }

  function TextOf(notices: seq<Notice<StreamEvent>>): string {
    Flatten(NoticeText, notices)
  }

  /** The callbacks one stderr chunk causes: the chunk in red to `onOutput`, unmodified to `onStderr`. */
  function StderrCalls(options: ExecuteOptions, paint: Paint, chunk: string): (r: seq<Callback>)
    ensures options.onOutput <==> Output(paint(Red, chunk)) in r
    ensures options.onStderr <==> StderrOut(chunk) in r
    ensures |r| == (if options.onOutput then 1 else 0) + (if options.onStderr then 1 else 0)
    ensures options.onOutput ==> r[0] == Output(paint(Red, chunk))
    ensures forall c :: c in r ==> c == Output(paint(Red, chunk)) || c == StderrOut(chunk)
  {
    (if options.onOutput then [Output(paint(Red, chunk))] else []) + (if options.onStderr then [StderrOut(chunk)] else [])
  }

  /** The `output` of the result: the assistant text, then the stderr section when there was any. */
  function ResolvedOutput(textOutput: string, stderr: string): (r: string)
    ensures IsPrefix(textOutput, r)
    ensures r == textOutput <==> stderr == []
    ensures stderr != [] ==> IsSuffix("\n[stderr]\n" + stderr, r) && |r| == |textOutput| + 10 + |stderr|
  {
    textOutput + (if stderr != [] then "\n[stderr]\n" + stderr else [])
  }

  /** One execution: the closure state of `execute` and the settled promise. */
  class Execution {
    var rawOutput: string
    var textOutput: string
    var stderr: string
    /** Every callback invocation so far, in order. */
    var calls: seq<Callback>
    /** `None` while the promise is pending; then the resolved result or the rejection message. */
    var settled: Option<Result<AgentResult, string>>
    const parser: Parser<StreamEvent>
    const options: ExecuteOptions
    const paint: Paint
    const stringify: Json -> string

    constructor(parse: string -> Option<StreamEvent>, options: ExecuteOptions, paint: Paint, stringify: Json -> string)
      ensures fresh(parser) && parser.parse == parse && parser.buffer == [] && parser.Valid()
      ensures rawOutput == [] && textOutput == [] && stderr == [] && calls == [] && settled == None
      ensures this.options == options && this.paint == paint && this.stringify == stringify
    {
      parser := new Parser(parse);
      rawOutput, textOutput, stderr := [], [], [];
      calls := [];
      settled := None;
      this.options, this.paint, this.stringify := options, paint, stringify;
    }

    /** The `onEvent` handler given to the parser. */
    method HandleEvent(event: StreamEvent)
      modifies this
      ensures calls == old(calls) + EventCalls(options, paint, stringify, event)
      ensures textOutput == old(textOutput) + EventText(event)
      ensures rawOutput == old(rawOutput) && stderr == old(stderr) && settled == old(settled)
    {
      var formatted := Format(paint, stringify, event);
      if formatted.Some? && formatted.value != [] {
        EmitFormatted(formatted.value);
      }
      if event.Assistant? {
        AppendBlockText(event.content);
      }
    }

    /** Forwards a formatted event, followed by a newline, to the callbacks supplied. */
    method EmitFormatted(formatted: string)
      modifies this
      ensures calls == old(calls) + Forward(options, formatted + "\n", true)
      ensures textOutput == old(textOutput)
      ensures rawOutput == old(rawOutput) && stderr == old(stderr) && settled == old(settled)
    {
      if options.onOutput {
        calls := calls + [Output(formatted + "\n")];
      }
      if options.onPersist {
        calls := calls + [Persist(formatted + "\n", true)];
      }
    }

    /** Appends the text blocks of an assistant message to `textOutput`, in order. */
    method AppendBlockText(content: seq<ContentBlock>)
      modifies this
      ensures textOutput == old(textOutput) + BlockText(content)
      ensures calls == old(calls)
      ensures rawOutput == old(rawOutput) && stderr == old(stderr) && settled == old(settled)
    {
      for i := 0 to |content|
        invariant textOutput == old(textOutput) + BlockText(content[..i])
        invariant calls == old(calls)
        invariant rawOutput == old(rawOutput) && stderr == old(stderr) && settled == old(settled)
      {
        var block := content[i];
        if block.TextBlock? {
          textOutput := textOutput + block.text;
        }
        FlattenSnoc(TextOfBlock, content[..i], block);
        assert content[..i + 1] == content[..i] + [block];
      }
      assert content[..|content|] == content;
    }

    /** The `onError` handler given to the parser. */
    method HandleMalformed(line: string)
      modifies this
      ensures calls == old(calls) + Forward(options, Warning(paint, line), false)
      ensures textOutput == old(textOutput)
      ensures rawOutput == old(rawOutput) && stderr == old(stderr) && settled == old(settled)
    {
      var warning := paint(Yellow, "[warn] malformed JSON: " + Take(line, QuoteLimit) + "\n");
      if options.onOutput {
        calls := calls + [Output(warning)];
      }
      if options.onPersist {
        calls := calls + [Persist(warning, false)];
      }
    }

    /** Runs the handler for one notice the parser fired. */
    method HandleNotice(notice: Notice<StreamEvent>)
      modifies this
      ensures calls == old(calls) + NoticeCalls(options, paint, stringify, notice)
      ensures textOutput == old(textOutput) + NoticeText(notice)
      ensures rawOutput == old(rawOutput) && stderr == old(stderr) && settled == old(settled)
    {
      match notice {
        case Event(event) => HandleEvent(event);
        case Error(line) => HandleMalformed(line);
      }
    }

    /** Handles the notice after `done`, keeping what the handled notices caused a summary of them. */
    method HandleNext(ghost calls0: seq<Callback>, ghost text0: string, ghost done: seq<Notice<StreamEvent>>, notice: Notice<StreamEvent>)
      requires calls == calls0 + CallsOf(options, paint, stringify, done)
      requires textOutput == text0 + TextOf(done)
      modifies this
      ensures calls == calls0 + CallsOf(options, paint, stringify, done + [notice])
      ensures textOutput == text0 + TextOf(done + [notice])
      ensures rawOutput == old(rawOutput) && stderr == old(stderr) && settled == old(settled)
    {
      ghost var callsDone := CallsOf(options, paint, stringify, done);
      ghost var textDone := TextOf(done);
      HandleNotice(notice);
      CallsAndTextSnoc(options, paint, stringify, done, notice);
      AppendAssoc(calls0, callsDone, NoticeCalls(options, paint, stringify, notice));
      AppendAssoc(text0, textDone, NoticeText(notice));
    }

    /** Runs the handlers for the notices the parser fired, in order. */
    method HandleNotices(notices: seq<Notice<StreamEvent>>)
      modifies this
      ensures calls == old(calls) + CallsOf(options, paint, stringify, notices)
      ensures textOutput == old(textOutput) + TextOf(notices)
      ensures rawOutput == old(rawOutput) && stderr == old(stderr) && settled == old(settled)
    {
      for i := 0 to |notices|
        invariant calls == old(calls) + CallsOf(options, paint, stringify, notices[..i])
        invariant textOutput == old(textOutput) + TextOf(notices[..i])
        invariant rawOutput == old(rawOutput) && stderr == old(stderr) && settled == old(settled)
      {
        HandleNext(old(calls), old(textOutput), notices[..i], notices[i]);
        assert notices[..i + 1] == notices[..i] + [notices[i]];
      }
      assert notices[..|notices|] == notices;
    }

    /** `proc.stdout.on('data')` */
    method OnStdout(chunk: string)
      modifies this, parser
      ensures rawOutput == old(rawOutput) + chunk
      ensures var (fired, rest) := PushResult(parser.parse, old(parser.buffer), chunk);
              parser.buffer == rest
              && calls == old(calls) + CallsOf(options, paint, stringify, fired)
              && textOutput == old(textOutput) + TextOf(fired)
      ensures stderr == old(stderr) && settled == old(settled)
    {
      rawOutput := rawOutput + chunk;
      var fired := parser.Push(chunk);
      HandleNotices(fired);
    }

    /** `proc.stderr.on('data')` */
    method OnStderr(chunk: string)
      modifies this
      ensures stderr == old(stderr) + chunk
      ensures calls == old(calls) + StderrCalls(options, paint, chunk)
      ensures rawOutput == old(rawOutput) && textOutput == old(textOutput) && settled == old(settled)
    {
      stderr := stderr + chunk;
      if options.onOutput {
        calls := calls + [Output(paint(Red, chunk))];
      }
      if options.onStderr {
        calls := calls + [StderrOut(chunk)];
      }
    }

    /** `proc.on('error')`: rejects, unless the promise already settled. */
    method OnSpawnError(message: string)
      modifies this
      ensures settled == if old(settled).None? then Some(Err("Failed to spawn claude: " + message)) else old(settled)
      ensures rawOutput == old(rawOutput) && textOutput == old(textOutput) && stderr == old(stderr)
      ensures calls == old(calls)
    {
      if settled.None? {
        settled := Some(Err("Failed to spawn claude: " + message));
      }
    }

    /** `proc.on('close')`: flushes the parser, then resolves unless already settled. */
    method OnClose(code: Option<int>, elapsed: int)
      modifies this, parser
      ensures var fired := FlushResult(parser.parse, old(parser.buffer));
              calls == old(calls) + CallsOf(options, paint, stringify, fired)
              && textOutput == old(textOutput) + TextOf(fired)
      ensures parser.buffer == []
      ensures settled == if old(settled).None?
                         then Some(Ok(AgentResult(ResolvedOutput(textOutput, stderr), code.GetOr(1), elapsed)))
                         else old(settled)
      ensures rawOutput == old(rawOutput) && stderr == old(stderr)
    {
      var fired := parser.Flush();
      HandleNotices(fired);
      if settled.None? {
        var output := textOutput + (if stderr != [] then "\n[stderr]\n" + stderr else []);
        var exitCode := if code.Some? then code.value else 1;
        settled := Some(Ok(AgentResult(output, exitCode, elapsed)));
      }
    }
  }

  // ---------------------------------------------------------------------------
  // A whole execution
  // ---------------------------------------------------------------------------

  function StdoutPart(event: ProcessEvent): string {
    if event.StdoutData? then event.chunk else []
  }

  function StderrPart(event: ProcessEvent): string {
    if event.StderrData? then event.chunk else []
  }

  /** The stdout text of a run of process events. */
  function StdoutOf(events: seq<ProcessEvent>): string {
    Flatten(StdoutPart, events)
  }

  /** The stderr text of a run of process events. */
  function StderrOf(events: seq<ProcessEvent>): string {
    Flatten(StderrPart, events)
  }

  /** The message of the first spawn error, if any. */
  function FirstSpawnError(events: seq<ProcessEvent>): Option<string>
    decreases |events|
  {
    if events == [] then None
    else if events[0].SpawnError? then Some(events[0].message)
    else FirstSpawnError(events[1..])
  }

  /** The promise after `events` when no `close` came yet: rejected by the first spawn error, else pending. */
  function Rejection(events: seq<ProcessEvent>): Option<Result<AgentResult, string>> {
    match FirstSpawnError(events)
      case Some(message) => Some(Err("Failed to spawn claude: " + message))
      case None => None
  }

  /** Every notice the parser fires for the whole stdout text, the final flush included. */
  function StdoutNotices(parse: string -> Option<StreamEvent>, stdout: string): seq<Notice<StreamEvent>> {
    var (fired, rest) := PushResult(parse, [], stdout);
    fired + FlushResult(parse, rest)
  }

  /**
   * The callbacks `event` causes after the events `before`: a stdout chunk
   * those of the notices it completes after the carry-over, a stderr chunk
   * its two forwards, a spawn error none, and `close` those of the notice
   * the final flush fires.
   */
  function StepCalls(parse: string -> Option<StreamEvent>, options: ExecuteOptions, paint: Paint,
                     stringify: Json -> string, before: seq<ProcessEvent>, event: ProcessEvent): seq<Callback>
  {
    var carry := PushResult(parse, [], StdoutOf(before)).1;
    match event
      case StdoutData(chunk) => CallsOf(options, paint, stringify, PushResult(parse, carry, chunk).0)
      case StderrData(chunk) => StderrCalls(options, paint, chunk)
      case SpawnError(_) => []
      case Close(_, _) => CallsOf(options, paint, stringify, FlushResult(parse, carry))
  }

  /** Every callback a run of process events causes, in order. */
  function RunCalls(parse: string -> Option<StreamEvent>, options: ExecuteOptions, paint: Paint,
                    stringify: Json -> string, events: seq<ProcessEvent>): seq<Callback>
    decreases |events|
  {
    if events == [] then []
    else (RunCalls(parse, options, paint, stringify, AllButLast(events))
      + StepCalls(parse, options, paint, stringify, AllButLast(events), Last(events)))
  }

  /** One more event adds its own callbacks at the end. */
  lemma RunCallsSnoc(parse: string -> Option<StreamEvent>, options: ExecuteOptions, paint: Paint,
                     stringify: Json -> string, before: seq<ProcessEvent>, event: ProcessEvent)
    ensures RunCalls(parse, options, paint, stringify, before + [event])
      == RunCalls(parse, options, paint, stringify, before) + StepCalls(parse, options, paint, stringify, before, event)
  {
    assert AllButLast(before + [event]) == before;
  }

  /** The state of `run` after the events `seen`, none of them `close`. */
  ghost predicate Tracks(run: Execution, parse: string -> Option<StreamEvent>, seen: seq<ProcessEvent>)
    reads run, run.parser
  {
    run.parser.parse == parse
    && run.calls == RunCalls(parse, run.options, run.paint, run.stringify, seen)
    && run.rawOutput == StdoutOf(seen)
    && run.stderr == StderrOf(seen)
    && run.textOutput == TextOf(PushResult(parse, [], run.rawOutput).0)
    && run.parser.buffer == PushResult(parse, [], run.rawOutput).1
    && run.settled == Rejection(seen)
  }

  /** Hands one event other than `close` to its handler. */
  method Feed(run: Execution, ghost parse: string -> Option<StreamEvent>, ghost seen: seq<ProcessEvent>, event: ProcessEvent)
    requires !event.Close? && Tracks(run, parse, seen)
    modifies run, run.parser
    ensures Tracks(run, parse, seen + [event])
  {
    ProcessPrefixStep(seen, event);
    RunCallsSnoc(parse, run.options, run.paint, run.stringify, seen, event);
    match event {
      case StdoutData(chunk) =>
        ghost var raw := run.rawOutput;
        run.OnStdout(chunk);
        StdoutChunkInvariance(parse, run.options, run.paint, run.stringify, [], raw, chunk);
      case StderrData(chunk) =>
        run.OnStderr(chunk);
      case SpawnError(message) =>
        run.OnSpawnError(message);
    }
  }

  /** Hands the events before the first `close` to their handlers; returns where that `close` is, or the length. */
  method FeedUntilClose(run: Execution, ghost parse: string -> Option<StreamEvent>, events: seq<ProcessEvent>) returns (i: nat)
    requires Tracks(run, parse, [])
    modifies run, run.parser
    ensures i <= |events| && Tracks(run, parse, events[..i])
    ensures i < |events| ==> events[i].Close?
    ensures forall j :: 0 <= j < i ==> !events[j].Close?
  {
    i := 0;
    ghost var seen: seq<ProcessEvent> := [];
    while i < |events| && !events[i].Close?
      invariant i <= |events| && seen == events[..i]
      invariant Tracks(run, parse, seen)
      invariant forall j :: 0 <= j < i ==> !events[j].Close?
    {
      assert forall j :: 0 <= j < i + 1 ==> !events[j].Close?;
      Feed(run, parse, seen, events[i]);
      PrefixSnoc(events, i);
      seen := seen + [events[i]];
      i := i + 1;
    }
  }

  /** Hands `close`, the last event, to its handler. */
  method Finish(run: Execution, ghost parse: string -> Option<StreamEvent>, ghost seen: seq<ProcessEvent>, close: ProcessEvent)
    requires close.Close? && Tracks(run, parse, seen)
    modifies run, run.parser
    ensures FirstSpawnError(seen + [close]).Some? ==>
      run.settled == Some(Err("Failed to spawn claude: " + FirstSpawnError(seen + [close]).value))
    ensures FirstSpawnError(seen + [close]).None? ==>
      run.settled == Some(Ok(AgentResult(
        ResolvedOutput(TextOf(StdoutNotices(parse, StdoutOf(seen + [close]))), StderrOf(seen + [close])),
        close.code.GetOr(1), close.elapsed)))
    ensures run.calls == RunCalls(parse, run.options, run.paint, run.stringify, seen + [close])
  {
    ghost var raw := run.rawOutput;
    run.OnClose(close.code, close.elapsed);
    ghost var (fired, rest) := PushResult(parse, [], raw);
    CallsAndTextAppend(run.options, run.paint, run.stringify, fired, FlushResult(parse, rest));
    RunCallsSnoc(parse, run.options, run.paint, run.stringify, seen, close);
    assert run.textOutput == TextOf(StdoutNotices(parse, raw));
    ProcessPrefixStep(seen, close);
    assert StdoutOf(seen + [close]) == raw && StderrOf(seen + [close]) == run.stderr;
    assert FirstSpawnError(seen + [close]) == FirstSpawnError(seen);
  }

  /**
   * Drives one execution through the events the process emits; `close`, if it
   * comes, is the last of them. Returns how the promise settled, if it did.
   */
  method Execute(parse: string -> Option<StreamEvent>, options: ExecuteOptions, paint: Paint,
                 stringify: Json -> string, events: seq<ProcessEvent>)
    returns (settled: Option<Result<AgentResult, string>>, calls: seq<Callback>)
    requires forall i :: 0 <= i < |events| - 1 ==> !events[i].Close?
    ensures FirstSpawnError(events).Some? ==> settled == Some(Err("Failed to spawn claude: " + FirstSpawnError(events).value))
    ensures FirstSpawnError(events).None? && events != [] && events[|events| - 1].Close? ==>
      var close := events[|events| - 1];
      settled == Some(Ok(AgentResult(
        ResolvedOutput(TextOf(StdoutNotices(parse, StdoutOf(events))), StderrOf(events)),
        close.code.GetOr(1), close.elapsed)))
    ensures FirstSpawnError(events).None? && (events == [] || !events[|events| - 1].Close?) ==> settled == None
    ensures calls == RunCalls(parse, options, paint, stringify, events)
  {
    var run := new Execution(parse, options, paint, stringify);
    var i := FeedUntilClose(run, parse, events);
    if i < |events| {
      assert events[..i] + [events[i]] == events;
      Finish(run, parse, events[..i], events[i]);
    } else {
      assert events[..i] == events;
    }
    settled := run.settled;
    calls := run.calls;
  }

  // ---------------------------------------------------------------------------
  // Properties
  // ---------------------------------------------------------------------------

  /** Notices of consecutive pushes add their callbacks and their text in order. */
  lemma CallsAndTextAppend(options: ExecuteOptions, paint: Paint, stringify: Json -> string,
                           a: seq<Notice<StreamEvent>>, b: seq<Notice<StreamEvent>>)
    ensures CallsOf(options, paint, stringify, a + b) == CallsOf(options, paint, stringify, a) + CallsOf(options, paint, stringify, b)
    ensures TextOf(a + b) == TextOf(a) + TextOf(b)
  {
    FlattenAppend(n => NoticeCalls(options, paint, stringify, n), a, b);
    FlattenAppend(NoticeText, a, b);
  }

  /** One more notice adds its own callbacks and text at the end. */
  lemma CallsAndTextSnoc(options: ExecuteOptions, paint: Paint, stringify: Json -> string,
                         notices: seq<Notice<StreamEvent>>, notice: Notice<StreamEvent>)
    ensures CallsOf(options, paint, stringify, notices + [notice])
      == CallsOf(options, paint, stringify, notices) + NoticeCalls(options, paint, stringify, notice)
    ensures TextOf(notices + [notice]) == TextOf(notices) + NoticeText(notice)
  {
    FlattenSnoc(n => NoticeCalls(options, paint, stringify, n), notices, notice);
    FlattenSnoc(NoticeText, notices, notice);
  }

  /**
   * How the decoded stdout text arrives in chunks does not matter: pushing
   * `x` and then `y` causes the same callbacks and the same text as pushing
   * `x + y`.
   */
  lemma StdoutChunkInvariance(parse: string -> Option<StreamEvent>, options: ExecuteOptions, paint: Paint,
                              stringify: Json -> string, buffer: string, x: string, y: string)
    ensures var (f1, b1) := PushResult(parse, buffer, x);
            var (f2, b2) := PushResult(parse, b1, y);
            var (f, b) := PushResult(parse, buffer, x + y);
            CallsOf(options, paint, stringify, f1) + CallsOf(options, paint, stringify, f2) == CallsOf(options, paint, stringify, f)
            && TextOf(f1) + TextOf(f2) == TextOf(f) && b2 == b
  {
    PushChunkInvariance(parse, buffer, x, y);
    var (f1, b1) := PushResult(parse, buffer, x);
    var (f2, b2) := PushResult(parse, b1, y);
    CallsAndTextAppend(options, paint, stringify, f1, f2);
  }

  /** The per-event summaries of a run extend one event at a time. */
  lemma ProcessPrefixStep(before: seq<ProcessEvent>, event: ProcessEvent)
    ensures StdoutOf(before + [event]) == StdoutOf(before) + (if event.StdoutData? then event.chunk else [])
    ensures StderrOf(before + [event]) == StderrOf(before) + (if event.StderrData? then event.chunk else [])
    ensures FirstSpawnError(before + [event])
      == if FirstSpawnError(before).Some? then FirstSpawnError(before)
         else if event.SpawnError? then Some(event.message) else None
  {
    FlattenSnoc(StdoutPart, before, event);
    FlattenSnoc(StderrPart, before, event);
    FirstSpawnErrorSnoc(before, event);
  }

  lemma {:induction false} FirstSpawnErrorSnoc(before: seq<ProcessEvent>, event: ProcessEvent)
    ensures FirstSpawnError(before + [event])
      == if FirstSpawnError(before).Some? then FirstSpawnError(before)
         else if event.SpawnError? then Some(event.message) else None
    decreases |before|
  {
    if before != [] {
      assert (before + [event])[1..] == before[1..] + [event];
      FirstSpawnErrorSnoc(before[1..], event);
    } else {
      assert [] + [event] == [event];
    }
  }

  /** Only the text blocks of assistant events reach `textOutput`. */
  lemma {:induction false} TextOnlyFromAssistant(notices: seq<Notice<StreamEvent>>)
    requires forall i :: 0 <= i < |notices| ==> !(notices[i].Event? && notices[i].value.Assistant?)
    ensures TextOf(notices) == []
    decreases |notices|
  {
    if notices != [] {
      var init := notices[..|notices| - 1];
      TextOnlyFromAssistant(init);
      FlattenSnoc(NoticeText, init, notices[|notices| - 1]);
      assert init + [notices[|notices| - 1]] == notices;
    }
  }

  /** A malformed line's warning goes out as a non-boundary chunk quoting at most 100 characters of it. */
  lemma WarningQuotesPrefix(options: ExecuteOptions, paint: Paint, stringify: Json -> string, line: string)
    ensures var quoted := Take(line, QuoteLimit);
            |quoted| <= QuoteLimit && IsPrefix(quoted, line)
            && NoticeCalls(options, paint, stringify, Error(line))
               == Forward(options, paint(Yellow, "[warn] malformed JSON: " + quoted + "\n"), false)
    ensures forall c :: c in NoticeCalls(options, paint, stringify, Error(line)) && c.Persist? ==> !c.boundary
  {
  }

  /**
   * Before `close` and without stderr, the callbacks are exactly those of
   * the notices the whole stdout text so far completes, however it was cut
   * into chunks and wherever spawn errors came.
   */
  lemma {:induction false} StdoutOnlyCalls(parse: string -> Option<StreamEvent>, options: ExecuteOptions, paint: Paint,
                                           stringify: Json -> string, events: seq<ProcessEvent>)
    requires forall i :: 0 <= i < |events| ==> !events[i].StderrData? && !events[i].Close?
    ensures RunCalls(parse, options, paint, stringify, events)
      == CallsOf(options, paint, stringify, PushResult(parse, [], StdoutOf(events)).0)
    decreases |events|
  {
    if events == [] {
      assert Split([], '\n') == [[]];
    } else {
      var before := AllButLast(events);
      assert before + [Last(events)] == events;
      StdoutOnlyCalls(parse, options, paint, stringify, before);
      StdoutOnlyStep(parse, options, paint, stringify, before, Last(events));
    }
  }

  /** A stdout chunk or a spawn error keeps the calls those of the notices the stdout so far completes. */
  lemma StdoutOnlyStep(parse: string -> Option<StreamEvent>, options: ExecuteOptions, paint: Paint,
                       stringify: Json -> string, before: seq<ProcessEvent>, event: ProcessEvent)
    requires !event.StderrData? && !event.Close?
    requires RunCalls(parse, options, paint, stringify, before)
      == CallsOf(options, paint, stringify, PushResult(parse, [], StdoutOf(before)).0)
    ensures RunCalls(parse, options, paint, stringify, before + [event])
      == CallsOf(options, paint, stringify, PushResult(parse, [], StdoutOf(before + [event])).0)
  {
    ProcessPrefixStep(before, event);
    RunCallsSnoc(parse, options, paint, stringify, before, event);
    var raw := StdoutOf(before);
    var carry := PushResult(parse, [], raw).1;
    if event.StdoutData? {
      var step := PushResult(parse, carry, event.chunk).0;
      assert StepCalls(parse, options, paint, stringify, before, event) == CallsOf(options, paint, stringify, step);
      StdoutChunkInvariance(parse, options, paint, stringify, [], raw, event.chunk);
      assert StdoutOf(before + [event]) == raw + event.chunk;
    } else {
      assert StepCalls(parse, options, paint, stringify, before, event) == [];
      assert StdoutOf(before + [event]) == raw;
    }
  }

  /**
   * A whole execution without stderr forwards exactly the callbacks of every
   * notice the parser fires for its stdout text, the final flush included.
   */
  lemma WholeRunCalls(parse: string -> Option<StreamEvent>, options: ExecuteOptions, paint: Paint,
                      stringify: Json -> string, events: seq<ProcessEvent>)
    requires events != [] && Last(events).Close?
    requires forall i :: 0 <= i < |events| - 1 ==> !events[i].Close?
    requires forall i :: 0 <= i < |events| ==> !events[i].StderrData?
    ensures RunCalls(parse, options, paint, stringify, events)
      == CallsOf(options, paint, stringify, StdoutNotices(parse, StdoutOf(events)))
  {
    var before := AllButLast(events);
    var close := Last(events);
    assert before + [close] == events;
    forall i | 0 <= i < |before| ensures !before[i].StderrData? && !before[i].Close? {
      assert before[i] == events[i];
    }
    StdoutOnlyCalls(parse, options, paint, stringify, before);
    ProcessPrefixStep(before, close);
    RunCallsSnoc(parse, options, paint, stringify, before, close);
    var raw := StdoutOf(before);
    var fired := PushResult(parse, [], raw).0;
    var rest := PushResult(parse, [], raw).1;
    assert StepCalls(parse, options, paint, stringify, before, close)
      == CallsOf(options, paint, stringify, FlushResult(parse, rest));
    CallsAndTextAppend(options, paint, stringify, fired, FlushResult(parse, rest));
    assert StdoutOf(events) == raw;
    assert StdoutNotices(parse, raw) == fired + FlushResult(parse, rest);
  }
}
