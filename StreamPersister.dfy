/**
 * The incremental iteration-log writer of src/stream/persister.ts.
 *
 * Appended text collects in a buffer; a flush (explicit, on an event boundary
 * or on a timer tick) opens the log file on first use, writes the header once
 * and then the buffered text. Exactly one of `complete`, `abort` or `crash`
 * takes effect: it stops the timer, flushes, appends a footer and closes the
 * file. After the first I/O failure every later write is skipped.
 *
 * The file system is a ghost `disk`: the contents of the file at `logPath`,
 * `None` while it does not exist. Whether `mkdir`/`open` and each `write`
 * succeed is not under the program's control and is chosen arbitrarily
 * (`:= *`) at each attempt; a failed write is taken to have written nothing.
 * The interval timer is the flag `timerRunning`, and one firing of it is the
 * method `Tick`. The wall-clock start time enters as its ISO rendering.
 */
module StreamPersister {
  import opened Wrappers
  import opened Text

  /** `StreamStatus` of src/stream/types.ts. */
  datatype Status = InProgress | Completed | Aborted | Crashed

  function StatusName(status: Status): (r: string)
    ensures r != [] && '\n' !in r
  {
    match status
      case InProgress => "in_progress"
      case Completed => "completed"
      case Aborted => "aborted"
      case Crashed => "crashed"
  }

  /**
   * The argument of `writeMetadata`. An absent `signal` or `error` and an
   * empty one are both falsy there, so both are the empty string here.
   */
  datatype Metadata = Metadata(exitCode: Option<int>, duration: Option<int>, signal: string, error: string)

  function CompleteInfo(exitCode: int, duration: int): Metadata {
    Metadata(Some(exitCode), Some(duration), [], [])
  }

  function AbortInfo(signal: string): Metadata {
    Metadata(None, None, signal, [])
  }

  function CrashInfo(message: string): Metadata {
    Metadata(None, None, [], message)
  }

  // ---------------------------------------------------------------------------
  // The text the persister produces
  // ---------------------------------------------------------------------------

  /** The lines of the header; the empty last one makes the joined text end with a newline. */
  function HeaderFields(timestamp: string, status: Status): seq<string> {
    ["# Iteration Log", "Timestamp: " + timestamp, "Status: " + StatusName(status), "---", ""]
  }

  /** What `writeHeader` writes. */
  function HeaderText(timestamp: string, status: Status): string {
    Join(HeaderFields(timestamp, status), "\n")
  }

  /** The optional footer lines, in the order they are pushed. */
  function FooterFields(info: Metadata): (r: seq<string>)
    ensures |r| <= 4
  {
    (if info.exitCode.Some? then ["Exit Code: " + IntToString(info.exitCode.value)] else [])
    + (if info.duration.Some? then ["Duration: " + IntToString(info.duration.value) + "ms"] else [])
    + (if info.signal != [] then ["Interrupted: " + info.signal] else [])
    + (if info.error != [] then ["Error: " + info.error] else [])
  }

  /** The final metadata section `writeMetadata` writes. */
  function FooterText(status: Status, info: Metadata): string {
    Join(["\n---", "Status: " + StatusName(status)] + FooterFields(info), "\n") + "\n"
  }

  /** One stderr line: a non-empty line gains the `[stderr] ` prefix, an empty one stays empty. */
  function PrefixLine(line: string): (r: string)
    ensures line == [] ==> r == []
    ensures line != [] ==> r == "[stderr] " + line
  {
    if line != [] then "[stderr] " + line else line
  }

  function PrefixLines(lines: seq<string>): (r: seq<string>)
    ensures |r| == |lines|
    ensures forall i :: 0 <= i < |lines| ==> r[i] == PrefixLine(lines[i])
  {
    seq(|lines|, i requires 0 <= i < |lines| => PrefixLine(lines[i]))
  }

  /** What `appendStderr(content)` adds to the buffer. */
  function StderrPrefixed(content: string): string {
    Join(PrefixLines(Split(content, '\n')), "\n")
  }

  // ---------------------------------------------------------------------------
  // The persister
  // ---------------------------------------------------------------------------

  /** The fields of a `Persister`, for saying that a call changed none of them. */
  datatype Snapshot = Snapshot(
    buffer: string, status: Status, headerWritten: bool, writeError: bool, fileOpen: bool,
    timerRunning: bool, flushing: bool, finalized: bool, disk: Option<string>,
    written: string, headerStatus: Status, header: string, footer: string, truncated: bool)

  class Persister {
    var buffer: string
    var status: Status
    var headerWritten: bool
    /** Whether an I/O error has occurred (`writeError !== null`). */
    var writeError: bool
    /** Whether a file handle is held (`fileHandle !== null`). */
    var fileOpen: bool
    /** Whether the auto-flush interval is scheduled (`flushTimer !== null`). */
    var timerRunning: bool
    var flushing: bool
    var finalized: bool
    const logPath: string
    /** `new Date(startTime).toISOString()` */
    const timestamp: string
    const flushIntervalMs: nat

    /** The contents of the file at `logPath`; `None` while it does not exist. */
    ghost var disk: Option<string>
    /** Everything flushes have taken out of the buffer, in call order. */
    ghost var written: string
    /** The status the header was written with. */
    ghost var headerStatus: Status
    /** The header text, once written. */
    ghost var header: string
    /** The footer, once `writeMetadata` has got as far as writing it. */
    ghost var footer: string
    /** Whether the file was opened again, with truncation, after its header was written. */
    ghost var truncated: bool

    /** Every field, real and ghost, as one value. */
    ghost function State(): Snapshot
      reads this
    {
      Snapshot(buffer, status, headerWritten, writeError, fileOpen, timerRunning, flushing, finalized,
               disk, written, headerStatus, header, footer, truncated)
    }

    /** Everything ever added to the buffer, in call order. */
    ghost function Appended(): string
      reads this`written, this`buffer
    {
      written + buffer
    }

    /** No I/O error so far and the file never truncated by a second open. */
    ghost predicate Healthy()
      reads this`writeError, this`truncated
    {
      !writeError && !truncated
    }

    /** What the file holds while the persister is healthy. */
    ghost function Log(): string
      reads this`header, this`written, this`footer
    {
      header + written + footer
    }

    /** A handle means a header attempt and an existing file; no header attempt means no file. */
    ghost predicate Stored()
      reads this`fileOpen, this`headerWritten, this`disk, this`written, this`footer
    {
      (fileOpen ==> headerWritten && disk.Some?)
      && (!headerWritten ==> disk == None && written == [] && footer == [])
    }

    /** The status moves once from `in_progress` to a terminal one, and the header shows one of the two. */
    ghost predicate Lifecycle()
      reads this`finalized, this`status, this`footer, this`headerWritten, this`headerStatus
    {
      (finalized <==> status != InProgress)
      && (!finalized ==> footer == [])
      && (headerWritten ==> headerStatus == InProgress || headerStatus == status)
    }

    /** While healthy, the file is the header, the flushed text and the footer, in that order. */
    ghost predicate LogMatches()
      reads this`writeError, this`truncated, this`headerWritten, this`disk, this`header, this`written, this`footer
    {
      Healthy() && headerWritten ==> disk == Some(Log())
    }

    /** The relations between the fields that every step keeps. */
    ghost predicate Sound()
      reads this`fileOpen, this`headerWritten, this`disk, this`written, this`footer, this`finalized,
        this`status, this`headerStatus, this`writeError, this`truncated, this`header
    {
      Stored() && Lifecycle() && LogMatches()
    }

    /** The header is the one `writeHeader` renders for the recorded status. */
    ghost predicate HeaderTied()
      reads this`header, this`headerStatus
    {
      header == HeaderText(timestamp, headerStatus)
    }

    /** `Sound`, the rendered header, and nothing written after a footer. */
    ghost predicate Ready()
      reads this`fileOpen, this`headerWritten, this`disk, this`written, this`footer, this`finalized,
        this`status, this`headerStatus, this`writeError, this`truncated, this`header
    {
      Sound() && (footer != [] && Healthy() ==> !fileOpen) && HeaderTied()
    }

    /** `Ready` between calls: no flush in progress. */
    ghost predicate Valid()
      reads this
    {
      Ready() && !flushing
    }

    constructor(logPath: string, timestamp: string, flushIntervalMs: Option<nat>)
      ensures Valid() && Healthy()
      ensures this.logPath == logPath && this.timestamp == timestamp
      ensures this.flushIntervalMs == flushIntervalMs.GetOr(100)
      ensures buffer == [] && status == InProgress && !headerWritten && !fileOpen
      ensures !timerRunning && !finalized && disk == None && Appended() == []
    {
      this.logPath := logPath;
      this.timestamp := timestamp;
      this.flushIntervalMs := flushIntervalMs.GetOr(100);
      buffer := [];
      status := InProgress;
      headerWritten := false;
      writeError := false;
      fileOpen := false;
      timerRunning := false;
      flushing := false;
      finalized := false;
      disk := None;
      written := [];
      headerStatus := InProgress;
      header := HeaderText(timestamp, InProgress);
      footer := [];
      truncated := false;
    }

    /** `writeToFile`: one write through the open handle, skipped without a handle or after an error. */
    method WriteToFile(content: string)
      requires fileOpen ==> disk.Some?
      modifies this`disk, this`writeError
      ensures !old(fileOpen) || old(writeError) ==> disk == old(disk) && writeError == old(writeError)
      ensures old(fileOpen) && !old(writeError) ==>
        if writeError then disk == old(disk) else disk == Some(old(disk).value + content)
    {
      if !fileOpen || writeError {
        return;
      }
      var success: bool := *;
      if success {
        disk := Some(disk.value + content);
      } else {
        writeError := true;
      }
    }

    /**
     * `ensureFile`: opens the file for writing (creating or truncating it)
     * when no handle is held, then writes the header if it never was.
     * Returns whether a handle is held afterwards.
     */
    method EnsureFile() returns (ok: bool)
      requires Ready()
      modifies this`disk, this`writeError, this`fileOpen, this`headerWritten, this`headerStatus, this`header, this`truncated
      ensures Ready()
      ensures ok ==> fileOpen
      ensures !old(writeError) ==> (ok <==> fileOpen)
      ensures old(writeError) ==> !ok && State() == old(State())
      ensures !old(writeError) && old(fileOpen) ==> ok && State() == old(State())
      ensures !old(writeError) && !old(fileOpen) && !ok ==>
        writeError && disk == old(disk) && headerWritten == old(headerWritten) && truncated == old(truncated)
      ensures !old(writeError) && !old(fileOpen) && ok ==>
        headerWritten && truncated == (old(truncated) || old(headerWritten))
        && (!writeError ==> disk == Some(if old(headerWritten) then [] else HeaderText(timestamp, status)))
      ensures old(headerWritten) ==> headerStatus == old(headerStatus) && header == old(header)
      ensures !old(headerWritten) && headerWritten ==> headerStatus == status && header == HeaderText(timestamp, status)
      ensures !headerWritten ==> headerStatus == old(headerStatus) && header == old(header)
      ensures old(writeError) ==> writeError
    {
      if writeError {
        return false;
      }
      if !fileOpen {
        var openSucceeded: bool := *;
        if !openSucceeded {
          writeError := true;
          return false;
        }
        truncated := truncated || headerWritten;
        fileOpen := true;
        disk := Some([]);
      }
      if !headerWritten {
        StartLog();
      }
      return true;
    }

    /** The first header write, into the freshly created file. */
    method StartLog()
      requires fileOpen && !headerWritten && disk == Some([]) && written == [] && footer == [] && Lifecycle()
      modifies this`disk, this`writeError, this`headerWritten, this`headerStatus, this`header
      ensures Ready() && fileOpen && headerWritten
      ensures headerStatus == status && header == HeaderText(timestamp, status)
      ensures writeError == old(writeError)
        || (!old(writeError) && writeError && disk == old(disk))
      ensures !writeError ==> disk == Some(HeaderText(timestamp, status))
    {
      headerStatus := status;
      header := HeaderText(timestamp, status);
      WriteHeader();
      assert [] + HeaderText(timestamp, status) == HeaderText(timestamp, status);
      headerWritten := true;
      assert Log() == HeaderText(timestamp, status);
    }

    /** `writeHeader` */
    method WriteHeader()
      requires fileOpen ==> disk.Some?
      modifies this`disk, this`writeError
      ensures !old(fileOpen) || old(writeError) ==> disk == old(disk) && writeError == old(writeError)
      ensures old(fileOpen) && !old(writeError) ==>
        if writeError then disk == old(disk) else disk == Some(old(disk).value + HeaderText(timestamp, status))
    {
      WriteToFile(HeaderText(timestamp, status));
    }

    /** `append(content, isEventBoundary)` */
    method Append(content: string, isEventBoundary: bool)
      requires Valid()
      modifies this
      ensures Valid()
      ensures Appended() == old(Appended()) + content && timerRunning
      ensures !isEventBoundary ==>
        buffer == old(buffer) + content && disk == old(disk) && fileOpen == old(fileOpen)
        && headerWritten == old(headerWritten) && writeError == old(writeError)
      ensures isEventBoundary && !writeError ==> buffer == [] && written == Appended()
      ensures status == old(status) && finalized == old(finalized) && footer == old(footer)
      ensures old(writeError) ==> writeError && disk == old(disk)
    {
      Buffer(content);
      if isEventBoundary {
        Flush();
      }
    }

    /** `this.buffer += text` followed by `startFlushTimer()`. */
    method Buffer(text: string)
      requires Valid()
      modifies this`buffer, this`timerRunning
      ensures Valid()
      ensures buffer == old(buffer) + text && timerRunning
      ensures Appended() == old(Appended()) + text
    {
      buffer := buffer + text;
      timerRunning := true;
    }

    /** `appendStderr(content)`: every non-empty line gains the `[stderr] ` prefix. */
    method AppendStderr(content: string)
      requires Valid()
      modifies this`buffer, this`timerRunning
      ensures Valid()
      ensures buffer == old(buffer) + StderrPrefixed(content)
      ensures Appended() == old(Appended()) + StderrPrefixed(content) && timerRunning
    {
      var prefixed := StderrPrefixed(content);
      Buffer(prefixed);
    }

    /**
     * `flush()`: with a non-empty buffer and no earlier error, makes sure the
     * file is open with its header and moves the buffer into it. A failed
     * open keeps the buffer; once the file is open the buffer is cleared even
     * when the write then fails.
     */
    method Flush()
      requires Valid()
      modifies this`buffer, this`written, this`flushing, this`disk, this`writeError, this`fileOpen,
        this`headerWritten, this`headerStatus, this`header, this`truncated
      ensures Valid()
      ensures old(buffer) == [] || old(writeError) ==> State() == old(State())
      ensures old(buffer) != [] && !old(writeError) && !fileOpen ==>
        !old(fileOpen) && writeError && buffer == old(buffer) && disk == old(disk)
      ensures old(buffer) != [] && !old(writeError) && fileOpen ==>
        buffer == [] && written == Appended() && headerWritten
      ensures old(buffer) != [] && !old(writeError) && !old(fileOpen) && old(headerWritten) && !writeError ==>
        truncated && disk == Some(old(buffer))
      ensures Appended() == old(Appended())
      ensures old(writeError) ==> writeError
      ensures old(headerWritten) ==> headerWritten && headerStatus == old(headerStatus) && header == old(header)
      ensures !old(headerWritten) && headerWritten ==> headerStatus == status
    {
      if buffer != [] && !flushing {
        flushing := true;
        FlushHeld();
        flushing := false;
      }
    }

    /** The `try` block of `flush()`: get a handle, then move the buffer into the file. */
    method FlushHeld()
      requires Ready() && buffer != []
      modifies this`buffer, this`written, this`disk, this`writeError, this`fileOpen,
        this`headerWritten, this`headerStatus, this`header, this`truncated
      ensures Ready()
      ensures old(writeError) ==> State() == old(State())
      ensures !old(writeError) && !fileOpen ==>
        !old(fileOpen) && writeError && buffer == old(buffer) && disk == old(disk)
      ensures !old(writeError) && fileOpen ==>
        buffer == [] && written == Appended() && headerWritten
      ensures !old(writeError) && !old(fileOpen) && old(headerWritten) && !writeError ==>
        truncated && disk == Some(old(buffer))
      ensures Appended() == old(Appended())
      ensures old(writeError) ==> writeError
      ensures old(headerWritten) ==> headerWritten && headerStatus == old(headerStatus) && header == old(header)
      ensures !old(headerWritten) && headerWritten ==> headerStatus == status
    {
      var handle := EnsureFile();
      if handle {
        ghost var pending := buffer;
        WriteBuffer();
        assert [] + pending == pending;
      }
    }

    /**
     * The tail of `flush()` once a handle is held: the buffer is emptied and
     * its former contents written.
     */
    method WriteBuffer()
      requires Ready() && fileOpen
      modifies this`buffer, this`written, this`disk, this`writeError
      ensures Ready()
      ensures buffer == [] && written == old(written) + old(buffer)
      ensures if writeError then disk == old(disk) else disk == Some(old(disk).value + old(buffer))
      ensures old(writeError) ==> writeError
    {
      assert Healthy() ==> disk == Some(header + written) by {
        assert header + written + [] == header + written;
      }
      var content := buffer;
      ghost var before := written;
      buffer := [];
      written := written + content;
      assert Healthy() ==> Log() == header + before + content by {
        assert header + written + [] == header + before + content;
      }
      WriteToFile(content);
    }

    /** One firing of the auto-flush interval. */
    method Tick()
      requires Valid() && timerRunning
      modifies this
      ensures Valid()
      ensures old(buffer) == [] || old(writeError) ==> State() == old(State())
      ensures old(buffer) != [] && !writeError ==> buffer == [] && written == Appended()
      ensures Appended() == old(Appended()) && timerRunning
    {
      Flush();
    }

    /**
     * `writeMetadata(info)`: makes sure the file is open with its header,
     * then writes the footer for the current status.
     */
    method WriteMetadata(info: Metadata)
      requires Ready() && footer == [] && finalized
      modifies this`disk, this`writeError, this`fileOpen, this`headerWritten, this`headerStatus, this`header, this`truncated, this`footer
      ensures Sound() && HeaderTied()
      ensures old(writeError) ==> State() == old(State())
      ensures !old(writeError) && !writeError ==> fileOpen && footer == FooterText(status, info)
      ensures old(writeError) ==> writeError
      ensures old(headerWritten) ==> headerStatus == old(headerStatus) && header == old(header)
      ensures !old(headerWritten) && headerWritten ==> headerStatus == status && header == HeaderText(timestamp, status)
      ensures !headerWritten ==> headerStatus == old(headerStatus) && header == old(header)
    {
      var ok := EnsureFile();
      if !ok {
        return;
      }
      WriteFooter(FooterText(status, info));
    }

    /** The closing write of `writeMetadata`. */
    method WriteFooter(text: string)
      requires Sound() && fileOpen && footer == [] && finalized
      modifies this`footer, this`disk, this`writeError
      ensures Sound() && footer == text && header == old(header)
      ensures old(writeError) ==> writeError && disk == old(disk)
      ensures !old(writeError) && !writeError ==> disk == Some(old(disk).value + text)
    {
      ghost var log := Log();
      footer := text;
      assert Log() == log + text;
      WriteToFile(text);
    }

    /** `close()`: drops the handle; a failing close is ignored. */
    method Close()
      modifies this`fileOpen
      ensures !fileOpen
      ensures old(Sound()) ==> Sound()
    {
      fileOpen := false;
    }

    /**
     * The shared body of `complete`, `abort` and `crash`: only the first of
     * them takes effect.
     */
    method Finish(terminal: Status, info: Metadata)
      requires Valid() && terminal != InProgress
      modifies this
      ensures Valid()
      ensures old(finalized) ==> State() == old(State())
      ensures !old(finalized) ==>
        finalized && status == terminal && !timerRunning && !fileOpen && Appended() == old(Appended())
      ensures !old(finalized) && Healthy() ==>
        headerWritten && written == Appended() && footer == FooterText(terminal, info)
      ensures old(headerWritten) ==> headerStatus == old(headerStatus) && header == old(header)
      ensures !old(finalized) && !old(headerWritten) && headerWritten ==> headerStatus == terminal
      ensures old(writeError) ==> writeError && disk == old(disk)
    {
      if !finalized {
        finalized := true;
        timerRunning := false;
        status := terminal;
        FlushAndClose(info);
      }
    }

    /** What a terminal call does once the status is set: flush, write the footer, close. */
    method FlushAndClose(info: Metadata)
      requires Valid() && finalized && footer == []
      modifies this`buffer, this`written, this`flushing, this`disk, this`writeError, this`fileOpen,
        this`headerWritten, this`headerStatus, this`header, this`truncated, this`footer
      ensures Valid() && !fileOpen && Appended() == old(Appended())
      ensures Healthy() ==> headerWritten && written == Appended() && footer == FooterText(status, info)
      ensures old(headerWritten) ==> headerStatus == old(headerStatus) && header == old(header)
      ensures !old(headerWritten) && headerWritten ==> headerStatus == status
      ensures old(writeError) ==> writeError && disk == old(disk)
    {
      Flush();
      WriteAndClose(info);
    }

    /** The footer write and the close that end a terminal call. */
    method WriteAndClose(info: Metadata)
      requires Valid() && finalized && footer == []
      modifies this`disk, this`writeError, this`fileOpen, this`headerWritten, this`headerStatus, this`header, this`truncated, this`footer
      ensures Valid() && !fileOpen
      ensures old(writeError) ==> writeError && disk == old(disk)
      ensures !old(writeError) && !writeError ==> footer == FooterText(status, info)
      ensures old(headerWritten) ==> headerStatus == old(headerStatus) && header == old(header)
      ensures !old(headerWritten) && headerWritten ==> headerStatus == status
      ensures !headerWritten ==> headerStatus == old(headerStatus) && header == old(header)
    {
      WriteMetadata(info);
      Close();
    }

    /** `complete(exitCode, duration)` */
    method Complete(exitCode: int, duration: int)
      requires Valid()
      modifies this
      ensures Valid()
      ensures old(finalized) ==> State() == old(State())
      ensures !old(finalized) ==>
        finalized && status == Completed && !timerRunning && !fileOpen && Appended() == old(Appended())
        && (Healthy() ==> disk == Some(HeaderText(timestamp, headerStatus) + Appended() + FooterText(Completed, CompleteInfo(exitCode, duration))))
      ensures old(headerWritten) ==> headerStatus == old(headerStatus)
      ensures !old(finalized) && !old(headerWritten) && headerWritten ==> headerStatus == Completed
      ensures old(writeError) ==> writeError && disk == old(disk)
    {
      Finish(Completed, CompleteInfo(exitCode, duration));
    }

    /** `abort(signal)` */
    method Abort(signal: string)
      requires Valid()
      modifies this
      ensures Valid()
      ensures old(finalized) ==> State() == old(State())
      ensures !old(finalized) ==>
        finalized && status == Aborted && !timerRunning && !fileOpen && Appended() == old(Appended())
        && (Healthy() ==> disk == Some(HeaderText(timestamp, headerStatus) + Appended() + FooterText(Aborted, AbortInfo(signal))))
      ensures old(headerWritten) ==> headerStatus == old(headerStatus)
      ensures !old(finalized) && !old(headerWritten) && headerWritten ==> headerStatus == Aborted
      ensures old(writeError) ==> writeError && disk == old(disk)
    {
      Finish(Aborted, AbortInfo(signal));
    }

    /** `crash(error)`, given the error's message. */
    method Crash(message: string)
      requires Valid()
      modifies this
      ensures Valid()
      ensures old(finalized) ==> State() == old(State())
      ensures !old(finalized) ==>
        finalized && status == Crashed && !timerRunning && !fileOpen && Appended() == old(Appended())
        && (Healthy() ==> disk == Some(HeaderText(timestamp, headerStatus) + Appended() + FooterText(Crashed, CrashInfo(message))))
      ensures old(headerWritten) ==> headerStatus == old(headerStatus)
      ensures !old(finalized) && !old(headerWritten) && headerWritten ==> headerStatus == Crashed
      ensures old(writeError) ==> writeError && disk == old(disk)
    {
      Finish(Crashed, CrashInfo(message));
    }

    /** `destroy()`: stops the timer and drops the handle; nothing is written. */
    method Destroy()
      requires Valid()
      modifies this`timerRunning, this`fileOpen
      ensures Valid()
      ensures !timerRunning && !fileOpen
    {
      timerRunning := false;
      Close();
    }
  }

  // ---------------------------------------------------------------------------
  // Properties of the text
  // ---------------------------------------------------------------------------

  /** The header is five lines: title, timestamp, status, rule and the empty rest after the last newline. */
  lemma HeaderLines(timestamp: string, status: Status)
    requires '\n' !in timestamp
    ensures Split(HeaderText(timestamp, status), '\n')
      == ["# Iteration Log", "Timestamp: " + timestamp, "Status: " + StatusName(status), "---", ""]
  {
    NoNewlineIn("Timestamp: ", timestamp);
    NoNewlineIn("Status: ", StatusName(status));
    SplitJoin(HeaderFields(timestamp, status), '\n');
  }

  /** No footer field spans two lines while the signal and the error are single lines. */
  lemma FooterFieldsNoNewline(info: Metadata)
    requires '\n' !in info.signal && '\n' !in info.error
    ensures forall i :: 0 <= i < |FooterFields(info)| ==> '\n' !in FooterFields(info)[i]
  {
    var code := if info.exitCode.Some? then ["Exit Code: " + IntToString(info.exitCode.value)] else [];
    var duration := if info.duration.Some? then ["Duration: " + IntToString(info.duration.value) + "ms"] else [];
    var signal := if info.signal != [] then ["Interrupted: " + info.signal] else [];
    var error := if info.error != [] then ["Error: " + info.error] else [];
    if info.exitCode.Some? {
      IntToStringNoNewline(info.exitCode.value);
      NoNewlineIn("Exit Code: ", IntToString(info.exitCode.value));
    }
    if info.duration.Some? {
      IntToStringNoNewline(info.duration.value);
      NoNewlineIn("Duration: ", IntToString(info.duration.value));
      NoNewlineIn("Duration: " + IntToString(info.duration.value), "ms");
    }
    NoNewlineIn("Interrupted: ", info.signal);
    NoNewlineIn("Error: ", info.error);
    assert FooterFields(info) == code + duration + signal + error;
  }

  /**
   * The footer starts on a fresh line with a rule, then the status line and
   * the fields present, one per line, and ends with a newline.
   */
  lemma FooterLines(status: Status, info: Metadata)
    requires '\n' !in info.signal && '\n' !in info.error
    ensures Split(FooterText(status, info), '\n')
      == ["", "---", "Status: " + StatusName(status)] + FooterFields(info) + [""]
  {
    FooterFieldsNoNewline(info);
    NoNewlineIn("Status: ", StatusName(status));
    RuleFacts();
    RuledLines("---", "Status: " + StatusName(status), FooterFields(info));
  }

  /** The rule is a single line, and the footer's first piece is a newline before it. */
  lemma RuleFacts()
    ensures '\n' !in "---" && "\n" + "---" == "\n---"
  {
  }

  /** Single lines joined after a rule on a fresh line, with a closing newline, split back into those lines. */
  lemma RuledLines(rule: string, statusLine: string, fields: seq<string>)
    requires '\n' !in rule && '\n' !in statusLine
    requires forall i :: 0 <= i < |fields| ==> '\n' !in fields[i]
    ensures Split(Join(["\n" + rule, statusLine] + fields, "\n") + "\n", '\n') == ["", rule, statusLine] + fields + [""]
  {
    var lines := ["", rule, statusLine] + fields + [""];
    var text := Join(["\n" + rule, statusLine] + fields, "\n") + "\n";
    assert text == Join(lines, "\n") by {
      RuledJoin(rule, statusLine, fields);
    }
    assert forall i :: 0 <= i < |lines| ==> '\n' !in lines[i] by {
      NoneContainThree([], rule, statusLine, '\n');
      NoneContainAppend(["", rule, statusLine], fields, '\n');
      NoneContainAppend(["", rule, statusLine] + fields, [""], '\n');
    }
    SplitBack(text, lines);
  }

  /** A text that joins single lines splits back into them. */
  lemma SplitBack(text: string, lines: seq<string>)
    requires |lines| >= 1 && text == Join(lines, "\n")
    requires forall i :: 0 <= i < |lines| ==> '\n' !in lines[i]
    ensures Split(text, '\n') == lines
  {
    SplitJoin(lines, '\n');
  }

  /** A rule on a fresh line and a closing newline join like an empty first and last line. */
  lemma RuledJoin(rule: string, statusLine: string, fields: seq<string>)
    ensures Join(["\n" + rule, statusLine] + fields, "\n") + "\n" == Join(["", rule, statusLine] + fields + [""], "\n")
  {
    var body := [statusLine] + fields;
    JoinRule(rule, body, "\n");
    Regroup("\n" + rule, statusLine, fields);
    Regroup3([], rule, statusLine, fields, []);
  }

  lemma Regroup<T>(a: T, b: T, xs: seq<T>)
    ensures [a, b] + xs == [a] + ([b] + xs)
  {
  }

  lemma Regroup3<T>(a: T, b: T, c: T, xs: seq<T>, d: T)
    ensures [a, b] + ([c] + xs) + [d] == [a, b, c] + xs + [d]
  {
    assert [a, b] + ([c] + xs) == [a, b, c] + xs;
  }

  lemma NoneContainThree(a: string, b: string, c: string, x: char)
    requires x !in a && x !in b && x !in c
    ensures forall i :: 0 <= i < 3 ==> x !in [a, b, c][i]
  {
  }

  /** Pieces free of a character stay free of it when concatenated. */
  lemma NoneContainAppend(a: seq<string>, b: seq<string>, c: char)
    requires forall i :: 0 <= i < |a| ==> c !in a[i]
    requires forall i :: 0 <= i < |b| ==> c !in b[i]
    ensures forall i :: 0 <= i < |a + b| ==> c !in (a + b)[i]
  {
  }

  /** A first piece that starts with the separator, and a closing separator, join like two extra empty pieces. */
  lemma JoinRule(rule: string, body: seq<string>, sep: string)
    requires |body| >= 1
    ensures Join([sep + rule] + body, sep) + sep == Join([[], rule] + body + [[]], sep)
  {
    var tail := [rule] + body;
    var inner := [[]] + tail;
    var lines := inner + [[]];
    assert lines == [[], rule] + body + [[]];
    JoinLast(lines, sep);
    assert AllButLast(lines) == inner;
    JoinCons([], tail, sep);
    JoinCons(rule, body, sep);
    JoinCons(sep + rule, body, sep);
  }

  /** `complete`: the footer always carries the exit code and the duration. */
  lemma CompletedFooterLines(exitCode: int, duration: int)
    ensures Split(FooterText(Completed, CompleteInfo(exitCode, duration)), '\n')
      == ["", "---", "Status: completed", "Exit Code: " + IntToString(exitCode),
          "Duration: " + IntToString(duration) + "ms", ""]
  {
    FooterLines(Completed, CompleteInfo(exitCode, duration));
    assert FooterFields(CompleteInfo(exitCode, duration))
      == ["Exit Code: " + IntToString(exitCode), "Duration: " + IntToString(duration) + "ms"];
    assert "Status: " + StatusName(Completed) == "Status: completed";
  }

  /** `abort`: the footer names the signal only when there is one. */
  lemma AbortedFooterLines(signal: string)
    requires '\n' !in signal
    ensures signal == [] ==> Split(FooterText(Aborted, AbortInfo(signal)), '\n') == ["", "---", "Status: aborted", ""]
    ensures signal != [] ==>
      Split(FooterText(Aborted, AbortInfo(signal)), '\n') == ["", "---", "Status: aborted", "Interrupted: " + signal, ""]
  {
    FooterLines(Aborted, AbortInfo(signal));
    assert FooterFields(AbortInfo(signal)) == if signal != [] then ["Interrupted: " + signal] else [];
    assert "Status: " + StatusName(Aborted) == "Status: aborted";
  }

  /** `crash`: the footer carries the error message only when it is non-empty. */
  lemma CrashedFooterLines(message: string)
    requires '\n' !in message
    ensures message == [] ==> Split(FooterText(Crashed, CrashInfo(message)), '\n') == ["", "---", "Status: crashed", ""]
    ensures message != [] ==>
      Split(FooterText(Crashed, CrashInfo(message)), '\n') == ["", "---", "Status: crashed", "Error: " + message, ""]
  {
    FooterLines(Crashed, CrashInfo(message));
    assert FooterFields(CrashInfo(message)) == if message != [] then ["Error: " + message] else [];
    assert "Status: " + StatusName(Crashed) == "Status: crashed";
  }

  /** The inverse of `PrefixLine`: drops one leading `[stderr] `. */
  function StripPrefix(line: string): (r: string)
    ensures IsSuffix(r, line)
  {
    if IsPrefix("[stderr] ", line) then line[9..] else line
  }

  /**
   * `appendStderr` keeps the line structure: the prefixed text has the same
   * lines as the content, each non-empty one prefixed, the empty ones empty.
   */
  lemma StderrPrefixedLines(content: string)
    ensures Split(StderrPrefixed(content), '\n') == PrefixLines(Split(content, '\n'))
  {
    var pieces := Split(content, '\n');
    var prefixed := PrefixLines(pieces);
    SplitPiecesFree(content, '\n');
    forall i | 0 <= i < |prefixed| ensures '\n' !in prefixed[i] {
      if pieces[i] != [] {
        NoNewlineIn("[stderr] ", pieces[i]);
      }
    }
    SplitJoin(prefixed, '\n');
  }

  function StripPrefixes(lines: seq<string>): (r: seq<string>)
    ensures |r| == |lines|
    ensures forall i :: 0 <= i < |lines| ==> r[i] == StripPrefix(lines[i])
  {
    seq(|lines|, i requires 0 <= i < |lines| => StripPrefix(lines[i]))
  }

  /** Taking the prefix off every line of the prefixed text gives the content back. */
  lemma StderrRoundTrip(content: string)
    ensures Join(StripPrefixes(Split(StderrPrefixed(content), '\n')), "\n") == content
  {
    var pieces := Split(content, '\n');
    StderrPrefixedLines(content);
    var lines := Split(StderrPrefixed(content), '\n');
    var stripped := StripPrefixes(lines);
    forall i | 0 <= i < |pieces| ensures stripped[i] == pieces[i] {
      if pieces[i] != [] {
        assert lines[i] == "[stderr] " + pieces[i];
        assert IsPrefix("[stderr] ", lines[i]);
      }
    }
    assert stripped == pieces;
    JoinSplit(content, '\n');
  }

  /** Single-line stderr output is prefixed once, unless it is empty. */
  lemma StderrSingleLine(content: string)
    requires '\n' !in content
    ensures StderrPrefixed(content) == PrefixLine(content)
  {
    SplitNoSep(content, '\n');
  }
}
