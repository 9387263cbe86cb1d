/**
 * The `run` command of src/commands/run.ts: validate the agent and the
 * iteration count, build the prompt, create a session, then execute the
 * agent and log its result once per iteration.
 *
 * The effects `run` has on the outside world are recorded, in order, in a
 * trace of calls: `createSession`, `agent.execute` and `writeLog` (whose
 * write is modelled by the session logger). How each of those calls
 * settles is an input: the session id `createSession` draws or its
 * rejection, what the agent's i-th execution resolves or rejects with, and
 * whether the i-th log write rejects. `run` catches none of these
 * rejections, so the first one ends it.
 */
module Run {
  import opened Wrappers
  import opened Text
  import Files
  import ClaudeAgent

  // ---------------------------------------------------------------------------
  // Validation
  // ---------------------------------------------------------------------------

  /** `SUPPORTED_AGENTS` */
  const SupportedAgents: seq<string> := ["claude"]

  /** `isValidAgent(agent)` */
  predicate IsValidAgent(agent: string) {
    agent in SupportedAgents
  }

  predicate IsDigit(c: char) {
    '0' <= c <= '9'
  }

  predicate AllDigits(s: string) {
    forall i :: 0 <= i < |s| ==> IsDigit(s[i])
  }

  /** The longest prefix made of decimal digits. */
  function LeadingDigits(s: string): (r: string)
    ensures IsPrefix(r, s) && AllDigits(r)
    ensures |r| == |s| || !IsDigit(s[|r|])
    decreases |s|
  {
    if s != [] && IsDigit(s[0]) then [s[0]] + LeadingDigits(s[1..]) else []
  }

  /** The value of a decimal digit. */
  function DigitValue(c: char): int {
    c as int - '0' as int
  }

  /** The value of a string of decimal digits, most significant first. */
  function DigitsValue(digits: string): nat
    requires AllDigits(digits)
    decreases |digits|
  {
    if digits == [] then 0
    else DigitsValue(AllButLast(digits)) * 10 + DigitValue(Last(digits))
  }

  /**
   * `parseInt(s, 10)`: leading whitespace skipped, an optional sign, then
   * as many digits as there are; `None` (NaN) when there is no digit.
   */
  function ParseInt(s: string): (r: Option<int>)
    ensures r.None? <==> LeadingDigits(SignStripped(TrimStart(s)).1) == []
  {
    var (negative, rest) := SignStripped(TrimStart(s));
    var digits := LeadingDigits(rest);
    var value: int := DigitsValue(digits);
    if digits == [] then None
    else if negative then Some(-value)
    else Some(value)
  }

  /** Whether a leading sign is `-`, and the text after any leading sign. */
  function SignStripped(t: string): (bool, string) {
    if t != [] && t[0] == '-' then (true, t[1..])
    else if t != [] && t[0] == '+' then (false, t[1..])
    else (false, t)
  }

  /** The count `run` accepts: a parsed number that is at least one. */
  function ValidIterations(s: string): (r: Option<nat>)
    ensures r.Some? <==> ParseInt(s).Some? && ParseInt(s).value > 0
    ensures r.Some? ==> r.value == ParseInt(s).value
  {
    match ParseInt(s)
      case Some(n) => if n > 0 then Some(n) else None
      case None => None
  }

  /** The value of a decimal rendering is the number rendered. */
  lemma {:induction false} DigitsValueOfNat(n: nat)
    ensures AllDigits(NatToString(n)) && DigitsValue(NatToString(n)) == n
    decreases n
  {
    var s := NatToString(n);
    if n >= 10 {
      DigitsValueOfNat(n / 10);
      assert AllButLast(s) == NatToString(n / 10);
      assert Last(s) == DigitChar(n % 10);
    }
    DigitCharValue(n % 10);
  }

  /** `DigitChar` renders a digit whose value is the digit. */
  lemma DigitCharValue(d: nat)
    requires d < 10
    ensures IsDigit(DigitChar(d)) && DigitValue(DigitChar(d)) == d
  {
    var digits := "0123456789";
    assert forall k :: 0 <= k < 10 ==> digits[k] as int == '0' as int + k;
  }

  /** A digit string is its own longest digit prefix. */
  lemma {:induction false} LeadingDigitsAll(s: string)
    requires AllDigits(s)
    ensures LeadingDigits(s) == s
    decreases |s|
  {
    if s != [] {
      LeadingDigitsAll(s[1..]);
      assert s == [s[0]] + s[1..];
    }
  }

  /** `parseInt` reads back what `String(n)` writes, for every natural number. */
  lemma ParseIntRoundTrip(n: nat)
    ensures ParseInt(NatToString(n)) == Some(n)
  {
    var s := NatToString(n);
    DigitsValueOfNat(n);
    LeadingDigitsAll(s);
    assert !IsSpace(s[0]);
  }

  /** A minus sign before a rendering reads back as the negated number. */
  lemma ParseIntNegative(n: nat)
    ensures ParseInt("-" + NatToString(n)) == Some(0 - n)
  {
    var s := NatToString(n);
    DigitsValueOfNat(n);
    LeadingDigitsAll(s);
    assert ("-" + s)[1..] == s;
  }

  /** Trailing text after the digits is ignored; text with no leading digit is NaN. */
  lemma ParseIntExamples()
    ensures ParseInt("3x") == Some(3)
    ensures ParseInt("abc") == None
  {
    assert !IsSpace('3') && !IsSpace('a');
    assert TrimStart("3x") == "3x";
    assert TrimStart("abc") == "abc";
    assert LeadingDigits("x") == [];
    assert LeadingDigits("3x") == "3";
    assert AllButLast("3") == [];
    assert DigitsValue("3") == 3;
  }

  /** `0` is refused as an iteration count and `5` is accepted. */
  lemma ValidIterationsExamples()
    ensures ValidIterations("0") == None
    ensures ValidIterations("5") == Some(5)
  {
    ParseIntRoundTrip(0);
    ParseIntRoundTrip(5);
    assert NatToString(0) == "0";
    assert NatToString(5) == "5";
  }

  // ---------------------------------------------------------------------------
  // The run loop
  // ---------------------------------------------------------------------------

  datatype RunOptions = RunOptions(task: string, agent: string, iterations: string, context: Option<seq<string>>)

  /** The outside effects of `run`, in the order it has them: each is a call, made whether or not it then rejects. */
  datatype Effect =
    | SessionCreated(task: string, agent: string, iterations: nat, contextFiles: Option<seq<string>>)
    | Executed(prompt: string, cwd: string)
    | Logged(sessionId: string, iteration: nat, result: ClaudeAgent.AgentResult)

  /**
   * How `run` ends: `process.exit(code)`, after the last iteration, or with
   * the rejection of an awaited call it does not catch.
   */
  datatype Outcome = Exit(code: int) | Completed | Rejected(message: string)

  /**
   * What the surroundings answer: the working directory, the files, how
   * `createSession` settles (the session id it draws, or its rejection), how
   * the agent's i-th execution settles (`Failed to spawn claude: …` is one
   * rejection), and whether the i-th `writeLog` rejects.
   */
  datatype World = World(
    cwd: string, files: map<string, string>, session: Result<string, string>,
    results: nat -> Result<ClaudeAgent.AgentResult, string>, logErrors: nat -> Option<string>)

  /** Iteration `i` executes and logs without a rejection. */
  predicate Succeeds(world: World, i: nat) {
    world.results(i).Ok? && world.logErrors(i).None?
  }

  /** The first `n` iterations all succeed. */
  predicate AllSucceed(world: World, n: nat) {
    forall i :: 0 <= i < n ==> Succeeds(world, i)
  }

  /** The rejection that ends iteration `i`: the execution's, or else the log write's. */
  function IterationError(world: World, i: nat): Option<string> {
    if world.results(i).Err? then Some(world.results(i).error) else world.logErrors(i)
  }

  /** The calls iteration `i` makes: the execution, and the log write when the execution resolved. */
  function IterationEffects(prompt: string, world: World, sessionId: string, i: nat): seq<Effect> {
    if world.results(i).Err? then [Executed(prompt, world.cwd)]
    else [Executed(prompt, world.cwd), Logged(sessionId, i, world.results(i).value)]
  }

  /** The effect at position `k` of a loop of successful iterations: even positions execute, odd ones log iteration `k / 2`. */
  function EffectAt(prompt: string, world: World, sessionId: string, k: nat): Effect
    requires Succeeds(world, k / 2)
  {
    if k % 2 == 0 then Executed(prompt, world.cwd) else Logged(sessionId, k / 2, world.results(k / 2).value)
  }

  /** The effects of the first `n` iterations when all succeed: each execution, then the log of its result. */
  function LoopTrace(prompt: string, world: World, sessionId: string, n: nat): seq<Effect>
    requires AllSucceed(world, n)
    decreases n
  {
    if n == 0 then []
    else LoopTrace(prompt, world, sessionId, n - 1) + IterationEffects(prompt, world, sessionId, n - 1)
  }

  /** The checks `run` makes before its first effect all pass. */
  predicate Accepted(opts: RunOptions, world: World) {
    IsValidAgent(opts.agent) && ValidIterations(opts.iterations).Some?
    && Files.ContextReadable(world.cwd, opts.context, world.files)
  }

  /** The call to `createSession` an accepted run makes. */
  function SessionCall(opts: RunOptions): Effect
    requires ValidIterations(opts.iterations).Some?
  {
    SessionCreated(opts.task, opts.agent, ValidIterations(opts.iterations).value, opts.context)
  }

  /** `run(opts)` */
  method Run(opts: RunOptions, world: World) returns (outcome: Outcome, trace: seq<Effect>)
    ensures !Accepted(opts, world) ==> outcome == Exit(1) && trace == []
    ensures outcome == Completed <==>
      Accepted(opts, world) && world.session.Ok? && AllSucceed(world, ValidIterations(opts.iterations).value)
    ensures Accepted(opts, world) && world.session.Err? ==>
      outcome == Rejected(world.session.error) && trace == [SessionCall(opts)]
    ensures Accepted(opts, world) && world.session.Ok? ==>
      var prompt := Files.PromptText(opts.task, opts.context, world.cwd, world.files);
      (outcome == Completed ==>
        trace == [SessionCall(opts)] + LoopTrace(prompt, world, world.session.value, ValidIterations(opts.iterations).value))
      && forall f :: 0 <= f < ValidIterations(opts.iterations).value && AllSucceed(world, f) && !Succeeds(world, f) ==>
        outcome == Rejected(IterationError(world, f).value)
        && trace == [SessionCall(opts)] + LoopTrace(prompt, world, world.session.value, f)
          + IterationEffects(prompt, world, world.session.value, f)
  {
    trace := [];
    if !IsValidAgent(opts.agent) {
      return Exit(1), trace;
    }
    var parsed := ValidIterations(opts.iterations);
    if parsed.None? {
      return Exit(1), trace;
    }
    var iterations := parsed.value;
    var built := Files.BuildPrompt(opts.task, opts.context, world.cwd, world.files);
    if built.Err? {
      return Exit(1), trace;
    }
    var prompt := built.value;
    trace := [SessionCreated(opts.task, opts.agent, iterations, opts.context)];
    if world.session.Err? {
      return Rejected(world.session.error), trace;
    }
    var sessionId := world.session.value;
    for i := 0 to iterations
      invariant AllSucceed(world, i)
      invariant trace == [SessionCall(opts)] + LoopTrace(prompt, world, sessionId, i)
    {
      trace := trace + [Executed(prompt, world.cwd)];
      var executed := world.results(i);
      if executed.Err? {
        assert !Succeeds(world, i);
        return Rejected(executed.error), trace;
      }
      trace := trace + [Logged(sessionId, i, executed.value)];
      var written := world.logErrors(i);
      if written.Some? {
        assert !Succeeds(world, i);
        return Rejected(written.value), trace;
      }
    }
    return Completed, trace;
  }

  /**
   * Iteration `i` is an execution of the prompt immediately followed by the
   * log of its result as iteration `i`, and the iterations come in order.
   */
  lemma {:induction false} LoopTraceShape(prompt: string, world: World, sessionId: string, n: nat)
    requires AllSucceed(world, n)
    ensures |LoopTrace(prompt, world, sessionId, n)| == 2 * n
    ensures forall k :: 0 <= k < 2 * n ==> LoopTrace(prompt, world, sessionId, n)[k] == EffectAt(prompt, world, sessionId, k)
    decreases n
  {
    if n > 0 {
      assert AllSucceed(world, n - 1);
      LoopTraceShape(prompt, world, sessionId, n - 1);
      var front := LoopTrace(prompt, world, sessionId, n - 1);
      var step := IterationEffects(prompt, world, sessionId, n - 1);
      assert Succeeds(world, n - 1);
      assert LoopTrace(prompt, world, sessionId, n) == front + step;
      assert EffectAt(prompt, world, sessionId, 2 * n - 2) == step[0];
      assert EffectAt(prompt, world, sessionId, 2 * n - 1) == step[1];
    }
  }

  /**
   * A completed run creates the session once, first, and then has exactly
   * two effects per iteration whatever exit codes the agent reports: the
   * i-th execution, then the log of its result as iteration `i`, before the
   * next execution.
   */
  lemma CompletedRunShape(opts: RunOptions, world: World)
    requires Accepted(opts, world) && world.session.Ok?
    requires AllSucceed(world, ValidIterations(opts.iterations).value)
    ensures var n := ValidIterations(opts.iterations).value;
      var prompt := Files.PromptText(opts.task, opts.context, world.cwd, world.files);
      var trace := [SessionCall(opts)] + LoopTrace(prompt, world, world.session.value, n);
      |trace| == 1 + 2 * n
      && (forall k :: 1 <= k < |trace| ==>
        trace[k] == EffectAt(prompt, world, world.session.value, k - 1) && !trace[k].SessionCreated?)
  {
    var n := ValidIterations(opts.iterations).value;
    var prompt := Files.PromptText(opts.task, opts.context, world.cwd, world.files);
    var loop := LoopTrace(prompt, world, world.session.value, n);
    LoopTraceShape(prompt, world, world.session.value, n);
    var trace := [SessionCall(opts)] + loop;
    forall k | 1 <= k < |trace| ensures trace[k] == EffectAt(prompt, world, world.session.value, k - 1) {
      assert Succeeds(world, (k - 1) / 2);
      assert trace[k] == loop[k - 1];
    }
  }

  /**
   * A run that rejects in iteration `f` stops there: it executed `f + 1`
   * times, its last effect is the call that rejected (the execution, or the
   * log write of iteration `f`), and no later iteration starts.
   */
  lemma RejectedRunStops(opts: RunOptions, world: World, f: nat)
    requires Accepted(opts, world) && world.session.Ok?
    requires f < ValidIterations(opts.iterations).value && AllSucceed(world, f) && !Succeeds(world, f)
    ensures var prompt := Files.PromptText(opts.task, opts.context, world.cwd, world.files);
      var trace := [SessionCall(opts)] + LoopTrace(prompt, world, world.session.value, f)
        + IterationEffects(prompt, world, world.session.value, f);
      |trace| == (if world.results(f).Err? then 2 + 2 * f else 3 + 2 * f)
      && (world.results(f).Err? ==> Last(trace) == Executed(prompt, world.cwd))
      && (world.results(f).Ok? ==> Last(trace) == Logged(world.session.value, f, world.results(f).value))
      && IterationError(world, f).Some?
  {
    var prompt := Files.PromptText(opts.task, opts.context, world.cwd, world.files);
    var sessionId := world.session.value;
    LoopTraceShape(prompt, world, sessionId, f);
    var loop := LoopTrace(prompt, world, sessionId, f);
    var step := IterationEffects(prompt, world, sessionId, f);
    var trace := [SessionCall(opts)] + loop + step;
    assert Last(trace) == Last(step);
  }
}
