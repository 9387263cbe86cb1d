/**
 * The iteration log of src/session/logger.ts: `writeLog` writes one file
 * per iteration into the session directory, holding a short header and
 * then the agent's output. The home directory and the timestamp (the clock
 * rendered by `toISOString`) are parameters.
 */
module SessionLogger {
  import opened Text
  import ClaudeAgent

  /** `getSessionDir(sessionId)` */
  function SessionDir(home: string, sessionId: string): string {
    PathJoin([home, ".ralph", "sessions", sessionId])
  }

  /** The file of one iteration: `<iteration>.log` in the session directory. */
  function LogPath(home: string, sessionId: string, iteration: int): string {
    PathJoin([SessionDir(home, sessionId), IntToString(iteration) + ".log"])
  }

  /** The header lines; the last, empty one makes the joined header end in a newline. */
  function HeaderFields(iteration: int, timestamp: string, result: ClaudeAgent.AgentResult): seq<string> {
    [ "# Iteration " + IntToString(iteration),
      "Timestamp: " + timestamp,
      "Duration: " + IntToString(result.duration) + "ms",
      "Exit Code: " + IntToString(result.exitCode),
      "---",
      "" ]
  }

  function LogHeader(iteration: int, timestamp: string, result: ClaudeAgent.AgentResult): string {
    Join(HeaderFields(iteration, timestamp, result), "\n")
  }

  /** The one `writeFile` call `writeLog` issues. */
  datatype LogWrite = LogWrite(path: string, content: string)

  /** `writeLog(sessionId, iteration, result)` */
  function WriteLog(home: string, sessionId: string, iteration: int, timestamp: string, result: ClaudeAgent.AgentResult): (w: LogWrite)
    ensures w.path == LogPath(home, sessionId, iteration)
    ensures IsSuffix(result.output, w.content)
    ensures |w.content| == |LogHeader(iteration, timestamp, result)| + |result.output|
  {
    LogWrite(LogPath(home, sessionId, iteration), LogHeader(iteration, timestamp, result) + result.output)
  }

  /** No header field spans two lines while the timestamp is a single line. */
  lemma HeaderFieldsNoNewline(iteration: int, timestamp: string, result: ClaudeAgent.AgentResult)
    requires '\n' !in timestamp
    ensures forall i :: 0 <= i < |HeaderFields(iteration, timestamp, result)| ==> '\n' !in HeaderFields(iteration, timestamp, result)[i]
  {
    IntToStringNoNewline(iteration);
    IntToStringNoNewline(result.duration);
    IntToStringNoNewline(result.exitCode);
    NoNewlineIn("# Iteration ", IntToString(iteration));
    NoNewlineIn("Timestamp: ", timestamp);
    NoNewlineIn("Duration: ", IntToString(result.duration));
    NoNewlineIn("Duration: " + IntToString(result.duration), "ms");
    NoNewlineIn("Exit Code: ", IntToString(result.exitCode));
  }

  /**
   * The log's lines are the title, the timestamp, the duration, the exit
   * code and the `---` rule, then the lines of the output.
   */
  lemma LogLines(home: string, sessionId: string, iteration: int, timestamp: string, result: ClaudeAgent.AgentResult)
    requires '\n' !in timestamp
    ensures Split(WriteLog(home, sessionId, iteration, timestamp, result).content, '\n')
      == [ "# Iteration " + IntToString(iteration),
           "Timestamp: " + timestamp,
           "Duration: " + IntToString(result.duration) + "ms",
           "Exit Code: " + IntToString(result.exitCode),
           "---" ]
         + Split(result.output, '\n')
  {
    var fields := HeaderFields(iteration, timestamp, result);
    var header := LogHeader(iteration, timestamp, result);
    HeaderFieldsNoNewline(iteration, timestamp, result);
    SplitJoin(fields, '\n');
    SplitAppend(header, result.output, '\n');
    assert [] + result.output == result.output;
  }

  /** The header ends with the `---` rule and a newline, so the output starts on a line of its own. */
  lemma HeaderEndsWithRule(iteration: int, timestamp: string, result: ClaudeAgent.AgentResult)
    ensures EndsWith(LogHeader(iteration, timestamp, result), "---\n")
  {
    var fields := HeaderFields(iteration, timestamp, result);
    JoinLast(fields, "\n");
    JoinLast(AllButLast(fields), "\n");
    assert AllButLast(AllButLast(fields)) == fields[..4];
    var front := Join(fields[..4], "\n");
    assert LogHeader(iteration, timestamp, result) == front + "\n" + "---" + "\n" + "";
    assert "\n" + "---" + "\n" + "" == "\n---\n";
  }

  /** With no output the log is the header alone. */
  lemma EmptyOutputLogsHeader(home: string, sessionId: string, iteration: int, timestamp: string, result: ClaudeAgent.AgentResult)
    requires result.output == ""
    ensures WriteLog(home, sessionId, iteration, timestamp, result).content == LogHeader(iteration, timestamp, result)
  {
    assert LogHeader(iteration, timestamp, result) + "" == LogHeader(iteration, timestamp, result);
  }

  /** The session directory is `<home>/.ralph/sessions/<sessionId>`. */
  lemma SessionDirShape(home: string, sessionId: string)
    ensures SessionDir(home, sessionId) == home + "/.ralph/sessions/" + sessionId
  {
    JoinFour(home, ".ralph", "sessions", sessionId, "/");
    assert "/" + ".ralph" + "/" + "sessions" + "/" == "/.ralph/sessions/";
  }

  /** The log of iteration `i` is `<i>.log` directly inside the session directory. */
  lemma LogPathShape(home: string, sessionId: string, iteration: int)
    ensures LogPath(home, sessionId, iteration) == SessionDir(home, sessionId) + "/" + IntToString(iteration) + ".log"
  {
    var file := IntToString(iteration) + ".log";
    JoinCons(SessionDir(home, sessionId), [file], "/");
    assert [SessionDir(home, sessionId)] + [file] == [SessionDir(home, sessionId), file];
  }
}
