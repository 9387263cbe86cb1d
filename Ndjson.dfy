/**
 * The line-buffered NDJSON decoder of src/utils/ndjson.ts: text arrives in
 * arbitrary chunks, complete lines are decoded one by one, and the
 * unterminated tail waits in a carry-over buffer.
 *
 * `JSON.parse` is the parameter `parse`: `Some(v)` when the text parses to
 * a value `v` that `onEvent` handles, `None` when it throws. `onEvent` runs
 * inside the same `try` as `JSON.parse`, so a value on which the handler
 * throws before any callback of its own is reported through `onError`
 * exactly like text that does not parse; `parse` maps such text to `None`
 * too. The `onEvent`/`onError` callbacks are recorded as a sequence of
 * notices.
 */
module Ndjson {
  import opened Wrappers
  import opened Text

  /** One callback invocation: `onEvent(value)` or `onError(err, line)`. */
  datatype Notice<T> = Event(value: T) | Error(line: string)

  /** The callback one complete line fires during `push`: none for a blank line. */
  function LineNotice<T>(parse: string -> Option<T>, line: string): (r: seq<Notice<T>>)
    ensures |r| <= 1
  {
    var trimmed := Trim(line);
    if trimmed == [] then []
    else match parse(trimmed)
      case Some(v) => [Event(v)]
      case None => [Error(trimmed)]
  }

  /** The callbacks a sequence of complete lines fires, in line order. */
  function LineNotices<T>(parse: string -> Option<T>, lines: seq<string>): seq<Notice<T>> {
    Flatten(line => LineNotice(parse, line), lines)
  }

  /** The complete lines of `buffer + chunk`: every piece before the last newline. */
  function CompleteLines(text: string): seq<string> {
    AllButLast(Split(text, '\n'))
  }

  /** What `push(chunk)` fires and the buffer it leaves, from the buffer it found. */
  function PushResult<T>(parse: string -> Option<T>, buffer: string, chunk: string): (r: (seq<Notice<T>>, string))
    ensures '\n' !in r.1
    ensures IsSuffix(r.1, buffer + chunk)
  {
    var pieces := Split(buffer + chunk, '\n');
    SplitLastIsTail(buffer + chunk, '\n');
    (LineNotices(parse, AllButLast(pieces)), Last(pieces))
  }

  /**
   * What `flush()` fires: one callback iff the trimmed buffer is non-empty;
   * the error case passes the untrimmed buffer.
   */
  function FlushResult<T>(parse: string -> Option<T>, buffer: string): (r: seq<Notice<T>>)
    ensures |r| <= 1
    ensures r == [] <==> AllSpace(buffer)
  {
    TrimEmptyIffBlank(buffer);
    var trimmed := Trim(buffer);
    if trimmed == [] then []
    else match parse(trimmed)
      case Some(v) => [Event(v)]
      case None => [Error(buffer)]
  }

  class Parser<T> {
    /** The unterminated text after the last newline seen so far. */
    var buffer: string
    /** Every callback fired so far, in order. */
    ghost var trace: seq<Notice<T>>
    const parse: string -> Option<T>

    /** The buffer never holds a complete line. */
    ghost predicate Valid()
      reads this
    {
      '\n' !in buffer
    }

    constructor(parse: string -> Option<T>)
      ensures Valid()
      ensures buffer == [] && trace == [] && this.parse == parse
    {
      buffer := [];
      trace := [];
      this.parse := parse;
    }

    /** `push(chunk)`: returns the callbacks fired by this call. */
    method Push(chunk: string) returns (fired: seq<Notice<T>>)
      modifies this
      ensures (fired, buffer) == PushResult(parse, old(buffer), chunk)
      ensures trace == old(trace) + fired
      ensures Valid()
    {
      buffer := buffer + chunk;
      var lines := Split(buffer, '\n');
      buffer := lines[|lines| - 1];
      lines := lines[..|lines| - 1];
      ghost var expected := PushResult(parse, old(buffer), chunk);
      assert expected == (LineNotices(parse, lines), buffer);
      fired := [];
      var i := 0;
      while i < |lines|
        invariant 0 <= i <= |lines|
        invariant fired == LineNotices(parse, lines[..i])
        invariant trace == old(trace) + fired
        invariant buffer == expected.1
      {
        var trimmed := Trim(lines[i]);
        var notices := [];
        if trimmed != [] {
          notices := match parse(trimmed) case Some(v) => [Event(v)] case None => [Error(trimmed)];
        }
        assert notices == LineNotice(parse, lines[i]);
        LineNoticesSnoc(parse, lines[..i], lines[i]);
        assert lines[..i + 1] == lines[..i] + [lines[i]];
        fired := fired + notices;
        trace := trace + notices;
        i := i + 1;
      }
      assert lines[..i] == lines;
    }

    /** `flush()`: returns the callbacks fired by this call. */
    method Flush() returns (fired: seq<Notice<T>>)
      modifies this
      ensures fired == FlushResult(parse, old(buffer))
      ensures buffer == []
      ensures trace == old(trace) + fired
      ensures Valid()
    {
      fired := [];
      var trimmed := Trim(buffer);
      if trimmed != [] {
        var notice := match parse(trimmed) case Some(v) => Event(v) case None => Error(buffer);
        fired := [notice];
        trace := trace + fired;
      }
      buffer := [];
    }
  }

  // ---------------------------------------------------------------------------
  // Properties
  // ---------------------------------------------------------------------------

  /** One more line adds its own callbacks at the end. */
  lemma LineNoticesSnoc<T>(parse: string -> Option<T>, lines: seq<string>, line: string)
    ensures LineNotices(parse, lines + [line]) == LineNotices(parse, lines) + LineNotice(parse, line)
  {
    FlattenSnoc(l => LineNotice(parse, l), lines, line);
  }

  /** Callbacks of consecutive groups of lines concatenate. */
  lemma LineNoticesAppend<T>(parse: string -> Option<T>, a: seq<string>, b: seq<string>)
    ensures LineNotices(parse, a + b) == LineNotices(parse, a) + LineNotices(parse, b)
  {
    FlattenAppend(line => LineNotice(parse, line), a, b);
  }

  /**
   * A line fires exactly one callback iff it is not blank: `onEvent` with the
   * parsed trimmed line, or `onError` with the trimmed line.
   */
  lemma LineNoticeCases<T>(parse: string -> Option<T>, line: string)
    ensures LineNotice(parse, line) == [] <==> AllSpace(line)
    ensures !AllSpace(line) && parse(Trim(line)).Some? ==> LineNotice(parse, line) == [Event(parse(Trim(line)).value)]
    ensures !AllSpace(line) && parse(Trim(line)).None? ==> LineNotice(parse, line) == [Error(Trim(line))]
  {
    TrimEmptyIffBlank(line);
  }

  /**
   * Every complete line contributes its own callback, so a malformed line
   * does not prevent the callbacks of the lines after it.
   */
  lemma LineNoticesEach<T>(parse: string -> Option<T>, before: seq<string>, line: string, after: seq<string>)
    ensures LineNotices(parse, before + [line] + after)
      == LineNotices(parse, before) + LineNotice(parse, line) + LineNotices(parse, after)
  {
    LineNoticesAppend(parse, before + [line], after);
    LineNoticesAppend(parse, before, [line]);
    assert LineNotices(parse, [line]) == LineNotice(parse, line) by {
      assert [line][..0] == [];
    }
  }

  /**
   * Chunk-boundary invariance: pushing `x` and then `y` fires the same
   * callbacks and leaves the same buffer as pushing `x + y`.
   */
  lemma PushChunkInvariance<T>(parse: string -> Option<T>, buffer: string, x: string, y: string)
    ensures var (f1, b1) := PushResult(parse, buffer, x);
            var (f2, b2) := PushResult(parse, b1, y);
            (f1 + f2, b2) == PushResult(parse, buffer, x + y)
  {
    var sx := Split(buffer + x, '\n');
    var tail := Split(Last(sx) + y, '\n');
    SplitAppend(buffer + x, y, '\n');
    assert buffer + (x + y) == (buffer + x) + y;
    var whole := AllButLast(sx) + tail;
    assert AllButLast(whole) == AllButLast(sx) + AllButLast(tail);
    assert Last(whole) == Last(tail);
    LineNoticesAppend(parse, AllButLast(sx), AllButLast(tail));
  }

  /** A chunk without a newline fires nothing and is only added to the buffer. */
  lemma PushWithoutNewline<T>(parse: string -> Option<T>, buffer: string, chunk: string)
    requires '\n' !in buffer && '\n' !in chunk
    ensures PushResult(parse, buffer, chunk) == ([], buffer + chunk)
  {
    assert forall c :: c in buffer + chunk ==> c in buffer || c in chunk;
    SplitNoSep(buffer + chunk, '\n');
  }

  /**
   * After `push`, the buffer is the text after the last newline of the old
   * buffer and the chunk, or all of it when there is no newline; the
   * complete lines and the new buffer make up that text again.
   */
  lemma PushBufferIsTail<T>(parse: string -> Option<T>, buffer: string, chunk: string)
    ensures var rest := PushResult(parse, buffer, chunk).1;
            var text := buffer + chunk;
            (|rest| == |text| <==> '\n' !in text)
            && (|rest| < |text| ==> text[|text| - |rest| - 1] == '\n')
    ensures var lines := CompleteLines(buffer + chunk);
            lines != [] ==> Join(lines, "\n") + "\n" + PushResult(parse, buffer, chunk).1 == buffer + chunk
  {
    var text := buffer + chunk;
    SplitLastIsTail(text, '\n');
    var pieces := Split(text, '\n');
    if |pieces| >= 2 {
      JoinSplit(text, '\n');
      JoinLast(pieces, "\n");
    }
  }

  /**
   * When the final parse of a non-blank carry-over fails, `flush` reports
   * the buffer untrimmed, where `push` reports the trimmed line.
   */
  lemma FlushErrorIsUntrimmed<T>(parse: string -> Option<T>, buffer: string)
    requires !AllSpace(buffer) && parse(Trim(buffer)).None?
    ensures FlushResult(parse, buffer) == [Error(buffer)]
  {
    TrimEmptyIffBlank(buffer);
  }
}
