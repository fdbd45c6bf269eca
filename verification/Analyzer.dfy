/**
 One analysis (`Run` of src/runtime_analyzer.cpp): compile, run, and read both captured
 streams. The compiler is any function of its arguments.
 */
module Analyzer {
  import opened Text
  import opened Rules
  import DiagnosticBoxes
  import opened ReportParser
  import opened Streaming
  import opened Events
  import opened CrossPass
  import opened Kernels
  import opened ProcessSpec
  import opened ProcessSafety
  import opened ProcessRunner
  import opened ScriptedRuns
  import opened CompilerArgs
  import CliArgs

  datatype CompileResult = CompileResult(success: bool, diagnostics: string)

  type Compiler = seq<string> -> CompileResult

  datatype AnalyzerResult = AnalyzerResult(
    success: bool, compileSuccess: bool, executed: bool, timedOut: bool, exitCode: nat,
    outputPath: string, diagnostics: string, stdoutText: string, stderrText: string,
    events: seq<string>, findings: seq<Finding>, summary: Summary)

  const NOT_BUILT := AnalyzerResult(false, false, false, false, 1, "", "", "", "", [], [], NOTHING)

  const COMPILE_ONLY_REFUSED :=
    "runtime-analyzer requires a linked executable; remove compile-only flags or pass --no-run"

  const TWO_OUTPUTS_REFUSED :=
    "output path specified twice: use analyzer -o/--output or compiler -o, not both"

  // ---- Reading the output ----

  /** The findings of one captured stream. */
  function FindingsOf(tables: Tables, text: string): seq<Finding> {
    Parse(tables, Strip(text))
  }

  function EventsOf(words: EventWords, text: string): seq<string> {
    EventLines(words, Lines(Strip(text)))
  }

  /** The result holds what both streams say, stdout first. */
  ghost predicate ReadsItsOutput(tables: Tables, words: EventWords, result: AnalyzerResult) {
    && result.findings == FindingsOf(tables, result.stdoutText) + FindingsOf(tables, result.stderrText)
    && result.events == EventsOf(words, result.stdoutText) + EventsOf(words, result.stderrText)
    && result.summary == Merge(SummaryOf(words, result.stdoutText), SummaryOf(words, result.stderrText))
    && (result.success <==> result.exitCode == 0)
  }

  predicate HoldsNothing(result: AnalyzerResult) {
    result.findings == [] && result.events == [] && result.summary == NOTHING && !result.success
  }

  /** The result with what its streams say. */
  function WithOutput(tables: Tables, words: EventWords, result: AnalyzerResult): AnalyzerResult {
    result.(findings := FindingsOf(tables, result.stdoutText) + FindingsOf(tables, result.stderrText),
            events := EventsOf(words, result.stdoutText) + EventsOf(words, result.stderrText),
            summary := Merge(SummaryOf(words, result.stdoutText), SummaryOf(words, result.stderrText)),
            success := result.exitCode == 0)
  }

  lemma WithOutputReads(tables: Tables, words: EventWords, result: AnalyzerResult)
    ensures ReadsItsOutput(tables, words, WithOutput(tables, words, result))
  {
  }

  /** The events of stdout come first, and then those of stderr. */
  lemma EventsInOrder(tables: Tables, words: EventWords, result: AnalyzerResult)
    requires ReadsItsOutput(tables, words, result)
    ensures EventsOf(words, result.stdoutText) <= result.events
    ensures result.events[|EventsOf(words, result.stdoutText)|..] == EventsOf(words, result.stderrText)
  {
  }

  method ReadOutput(tables: Tables, words: EventWords, result: AnalyzerResult) returns (read: AnalyzerResult)
    requires result.findings == []
    ensures read == WithOutput(tables, words, result) && ReadsItsOutput(tables, words, read)
  {
    var summary, events := CollectBoth(words, result.stdoutText, result.stderrText);
    var findings := ParseBoth(tables, result.stdoutText, result.stderrText);
    read := result.(findings := findings, events := events, summary := summary, success := result.exitCode == 0);
    WithOutputReads(tables, words, result);
  }

  /** The events of the two texts, and their summary. */
  method CollectBoth(words: EventWords, stdoutText: string, stderrText: string)
    returns (summary: Summary, events: seq<string>)
    ensures summary == Merge(SummaryOf(words, stdoutText), SummaryOf(words, stderrText))
    ensures events == EventsOf(words, stdoutText) + EventsOf(words, stderrText)
  {
    var stdoutSummary, stdoutEvents := CollectEvents(words, stdoutText, []);
    var stderrSummary, stderrEvents := CollectEvents(words, stderrText, []);
    assert stdoutEvents == EventsOf(words, stdoutText) && stderrEvents == EventsOf(words, stderrText);
    summary, events := Merge(stdoutSummary, stderrSummary), stdoutEvents + stderrEvents;
  }

  /** The loop over the two texts. */
  method ParseBoth(tables: Tables, stdoutText: string, stderrText: string) returns (findings: seq<Finding>)
    ensures findings == FindingsOf(tables, stdoutText) + FindingsOf(tables, stderrText)
  {
    findings := [];
    for i := 0 to 2
      invariant findings == if i == 0 then [] else if i == 1 then FindingsOf(tables, stdoutText)
                            else FindingsOf(tables, stdoutText) + FindingsOf(tables, stderrText)
    {
      var stripped := StripAnsi(if i == 0 then stdoutText else stderrText);
      var more := ParseFindings(tables, stripped);
      findings := findings + more;
    }
  }

  // ---- A run ----

  /** Why a run is refused before anything is compiled. */
  function Refusal(options: CliArgs.Options): Option<string> {
    if CompilesOnly(options.compilerArgs) && options.runProgram then Some(COMPILE_ONLY_REFUSED)
    else if options.explicitOutputPath && OutputOf(options.compilerArgs).present then Some(TWO_OUTPUTS_REFUSED)
    else None
  }

  /** Exactly which runs are refused: those whose arguments stop before linking though the program
      is to be run, and those that name an output twice. */
  lemma RefusedRuns(options: CliArgs.Options)
    ensures var stops := exists i :: 0 <= i < |options.compilerArgs| && IsCompileOnlyFlag(options.compilerArgs[i]);
      var twice := options.explicitOutputPath
        && exists i :: 0 <= i < |options.compilerArgs| && NamesOutput(options.compilerArgs[i]);
      && (Refusal(options).Some? <==> (stops && options.runProgram) || twice)
      && (stops && options.runProgram ==> Refusal(options) == Some(COMPILE_ONLY_REFUSED))
  {
    FirstOutputMeaning(options.compilerArgs);
    forall i | 0 <= i < |options.compilerArgs|
      ensures IsCompileOnlyFlag(options.compilerArgs[i]) <==> options.compilerArgs[i] in COMPILE_ONLY
    {
      FlagsMeaning(options.compilerArgs[i]);
    }
  }

  /** What every result is, by how far its run came. */
  ghost predicate Sound(tables: Tables, words: EventWords, options: CliArgs.Options, result: AnalyzerResult) {
    if !result.compileSuccess then
      result == NOT_BUILT.(outputPath := result.outputPath, diagnostics := result.diagnostics)
    else if !options.runProgram then
      result == NOT_BUILT.(outputPath := result.outputPath, diagnostics := result.diagnostics,
                           compileSuccess := true, success := true, exitCode := 0)
    else if result.executed then ReadsItsOutput(tables, words, result)
    else HoldsNothing(result)
  }

  /** What the run has to do with its options and its compiler. */
  ghost predicate Compiled(options: CliArgs.Options, compile: Compiler, result: AnalyzerResult) {
    match Refusal(options)
    case Some(reason) => !result.compileSuccess && result.diagnostics == reason && result.outputPath == ""
    case None =>
      var compiled := compile(BuiltArguments(options));
      && result.compileSuccess == compiled.success
      && ((result.compileSuccess && options.runProgram) || result.diagnostics == compiled.diagnostics)
      && OutputOf(BuiltArguments(options)) == OutputArgument(true, result.outputPath)
  }

  /** The texts of a result as its process's. */
  function ProcessOf(result: AnalyzerResult): ProcessResult {
    ProcessResult(result.exitCode, result.stdoutText, result.stderrText, "", result.timedOut)
  }

  /** The result is that of a process, as the runner reported it. */
  predicate Mirrors(result: AnalyzerResult, process: ProcessResult) {
    && result.stdoutText == process.stdoutText && result.stderrText == process.stderrText
    && result.exitCode == process.exitCode && result.timedOut == process.timedOut
    && (result.executed <==> process.error == "")
  }

  /** What the run has to do with the program it ran: `k0` is the kernel before, `k` the one after. */
  ghost predicate Ran(timeout: int, k0: Kernel, k: Kernel, result: AnalyzerResult) {
    exists process :: Mirrors(result, process) && RunIs(timeout, k0, Outcome(process, true, k))
  }

  /** What that tells of the result. */
  lemma RanMeaning(timeout: int, k0: Kernel, k: Kernel, result: AnalyzerResult)
    requires Sane(k0) && Ran(timeout, k0, k, result)
    ensures CapturesPrefixes(k0, k, ProcessOf(result))
    ensures result.executed && !result.timedOut && !ReadFailure(k, |k0.log|) ==> CapturesAll(k0, k, ProcessOf(result))
    ensures result.timedOut <==> SelectTimedOut(k.log, |k0.log|)
    ensures if result.timedOut then KilledAtDeadline(k.log, |k0.log|, timeout) else NoKill(k.log, |k0.log|)
    ensures result.timedOut ==> KeepsPrinted(k0, k, ProcessOf(result))
    ensures result.timedOut ==> (result.executed <==> k.child.Reaped?)
    ensures result.executed <==> ErrorAfter(k.log, |k0.log|) == ""
    ensures result.executed ==> k.child.Reaped? && StandsFor(result.exitCode, k.child.status)
  {
    var process :| Mirrors(result, process) && RunIs(timeout, k0, Outcome(process, true, k));
    RunSafe(timeout, k0, Outcome(process, true, k));
    MirroredCapture(k0, k, result, process);
    MirroredDeadline(timeout, k0, k, result, process);
    MirroredStatus(k0, k, result, process);
  }

  lemma MirroredCapture(k0: Kernel, k: Kernel, result: AnalyzerResult, process: ProcessResult)
    requires Mirrors(result, process) && SafeCapture(k0, Outcome(process, true, k))
    ensures CapturesPrefixes(k0, k, ProcessOf(result))
    ensures result.executed && !result.timedOut && !ReadFailure(k, |k0.log|) ==> CapturesAll(k0, k, ProcessOf(result))
  {
  }

  lemma MirroredDeadline(timeout: int, k0: Kernel, k: Kernel, result: AnalyzerResult, process: ProcessResult)
    requires Mirrors(result, process) && SafeDeadline(timeout, k0, Outcome(process, true, k))
    ensures result.timedOut <==> SelectTimedOut(k.log, |k0.log|)
    ensures if result.timedOut then KilledAtDeadline(k.log, |k0.log|, timeout) else NoKill(k.log, |k0.log|)
    ensures result.timedOut ==> KeepsPrinted(k0, k, ProcessOf(result))
  {
  }

  lemma MirroredStatus(k0: Kernel, k: Kernel, result: AnalyzerResult, process: ProcessResult)
    requires Mirrors(result, process) && SafeStatus(k0, Outcome(process, true, k))
    ensures result.timedOut ==> (result.executed <==> k.child.Reaped?)
    ensures result.executed <==> ErrorAfter(k.log, |k0.log|) == ""
    ensures result.executed ==> k.child.Reaped? && StandsFor(result.exitCode, k.child.status)
  {
  }

  /** A run succeeds exactly when it went without an error and the program exited with 0: never
      after a signal, and with 137 when the program was still running at the kill. */
  lemma SuccessMeaning(tables: Tables, words: EventWords, options: CliArgs.Options, k0: Kernel, k: Kernel,
                       result: AnalyzerResult)
    requires result.compileSuccess && options.runProgram && Sane(k0)
    requires Sound(tables, words, options, result) && Ran(options.timeout, k0, k, result)
    ensures result.success <==> ErrorAfter(k.log, |k0.log|) == "" && k.child == Reaped(Exited(0))
    ensures result.executed ==> (result.exitCode == 0 <==> k.child == Reaped(Exited(0)))
    ensures result.executed && KilledRunning(k.log, |k0.log|) ==> result.timedOut && result.exitCode == 137
  {
    RanMeaning(options.timeout, k0, k, result);
    if result.executed {
      RanExitCode(options.timeout, k0, k, result);
    }
  }

  lemma RanExitCode(timeout: int, k0: Kernel, k: Kernel, result: AnalyzerResult)
    requires Sane(k0) && Ran(timeout, k0, k, result) && result.executed
    ensures result.exitCode == 0 <==> k.child == Reaped(Exited(0))
    ensures KilledRunning(k.log, |k0.log|) ==> result.timedOut && result.exitCode == 137
  {
    var process :| Mirrors(result, process) && RunIs(timeout, k0, Outcome(process, true, k));
    ExitCodeMeaning(timeout, k0, Outcome(process, true, k));
  }

  function TimeoutNotice(timeout: int): string {
    "program timed out after " + Dec(if timeout > 0 then timeout / 1000 else 0) + " s\n"
  }

  /** The notice names the whole seconds of the timeout. */
  lemma NoticeMeaning(seconds: nat, rest: nat)
    requires rest < 1000
    ensures TimeoutNotice(1000 * seconds + rest) == "program timed out after " + Dec(seconds) + " s\n"
  {
    assert (1000 * seconds + rest) / 1000 == seconds;
  }

  /** What a run says: the compiler's diagnostics, a notice of the timeout, and the process's error. */
  function RunDiagnostics(compiled: string, timedOut: bool, error: string, timeout: int): string {
    var noticed := compiled + (if timedOut then TimeoutNotice(timeout) else "");
    if error != "" then Terminated(noticed + error) else noticed
  }

  /** The diagnostics after a run of the binary, by the calls that failed in it. */
  predicate Says(timeout: int, k0: Kernel, k: Kernel, compiled: string, result: AnalyzerResult) {
    result.diagnostics == RunDiagnostics(compiled, result.timedOut, ErrorAfter(k.log, |k0.log|), timeout)
  }

  method Run(tables: Tables, words: EventWords, options: CliArgs.Options, compile: Compiler, k0: Kernel)
    returns (result: AnalyzerResult, returned: bool, k: Kernel)
    requires Sane(k0)
    ensures k.misuses == k0.misuses && (returned ==> k.fds == k0.fds)
    ensures !returned ==> Stuck(options.timeout, k0, k)
    ensures returned ==> Sound(tables, words, options, result) && Compiled(options, compile, result)
    ensures returned && result.compileSuccess && options.runProgram ==> (
      && Ran(options.timeout, k0, k, result)
      && Says(options.timeout, k0, k, compile(BuiltArguments(options)).diagnostics, result))
    ensures returned && !(result.compileSuccess && options.runProgram) ==> k == k0
  {
    result, returned, k := NOT_BUILT, true, k0;
    var compileOnly := HasCompileOnlyAction(options.compilerArgs);
    if compileOnly && options.runProgram {
      result := result.(diagnostics := COMPILE_ONLY_REFUSED);
      return;
    }
    var args, outputPath := BuildCompilerArguments(options);
    if options.explicitOutputPath {
      var forwarded := FindOutputArgument(options.compilerArgs);
      if forwarded.present {
        result := result.(diagnostics := TWO_OUTPUTS_REFUSED);
        return;
      }
    }
    var compiled := compile(args);
    result := result.(diagnostics := compiled.diagnostics, outputPath := outputPath);
    if !compiled.success {
      return;
    }
    result := result.(compileSuccess := true);
    if !options.runProgram {
      result := result.(success := true, exitCode := 0);
      return;
    }
    ghost var built := result;
    ghost var process;
    result, returned, k, process := RunBinary(tables, words, options.timeout, result, k0);
    BinaryIsSound(tables, words, options, built, process);
  }

  /** What the binary's run adds is a sound result that mirrors the process. */
  lemma BinaryIsSound(tables: Tables, words: EventWords, options: CliArgs.Options, built: AnalyzerResult,
                      process: ProcessResult)
    requires options.runProgram
    requires built == NOT_BUILT.(outputPath := built.outputPath, diagnostics := built.diagnostics,
                                 compileSuccess := true)
    ensures var ended := WithProcess(built, process, options.timeout);
      var result := if ended.executed then WithOutput(tables, words, ended) else ended;
      && Sound(tables, words, options, result) && Mirrors(result, process) && result.compileSuccess
      && result.outputPath == built.outputPath
      && result.diagnostics == RunDiagnostics(built.diagnostics, process.timedOut, process.error, options.timeout)
  {
    var ended := WithProcess(built, process, options.timeout);
    if ended.executed {
      WithOutputReads(tables, words, ended);
    }
  }

  /** A compiled result with what its process came to. */
  function WithProcess(compiled: AnalyzerResult, process: ProcessResult, timeout: int): AnalyzerResult {
    compiled.(stdoutText := process.stdoutText, stderrText := process.stderrText, exitCode := process.exitCode,
              executed := process.error == "", timedOut := process.timedOut,
              diagnostics := RunDiagnostics(compiled.diagnostics, process.timedOut, process.error, timeout))
  }

  /** The run of the binary, and what is read off it. */
  method RunBinary(tables: Tables, words: EventWords, timeout: int, compiled: AnalyzerResult, k0: Kernel)
    returns (result: AnalyzerResult, returned: bool, k: Kernel, ghost process: ProcessResult)
    requires Sane(k0) && compiled.findings == []
    ensures k.misuses == k0.misuses && (returned ==> k.fds == k0.fds)
    ensures !returned ==> Stuck(timeout, k0, k)
    ensures RunIs(timeout, k0, Outcome(process, returned, k)) && process.error == ErrorAfter(k.log, |k0.log|)
    ensures var ended := WithProcess(compiled, process, timeout);
      returned ==> result == if ended.executed then WithOutput(tables, words, ended) else ended
  {
    var run;
    run, returned, k := RunProcess(timeout, k0);
    process := run;
    result := compiled.(stdoutText := run.stdoutText, stderrText := run.stderrText, exitCode := run.exitCode,
                        executed := run.error == "", timedOut := run.timedOut);
    if run.timedOut {
      result := result.(diagnostics := result.diagnostics + TimeoutNotice(timeout));
    } else {
      assert compiled.diagnostics + "" == compiled.diagnostics;
    }
    if run.error != "" {
      result := result.(diagnostics := Terminated(result.diagnostics + run.error));
      assert result == WithProcess(compiled, run, timeout);
      return;
    }
    assert result == WithProcess(compiled, run, timeout);
    result := ReadOutput(tables, words, result);
  }

  /** The text with a newline at its end, if it has any text. */
  function Terminated(text: string): (r: string)
    ensures text <= r
  {
    if text != "" && text[|text| - 1] != '\n' then text + "\n" else text
  }

  // ---- What the findings of a run are worth ----

  /** Over two texts: leak findings within `leak_reports`, heap bounds findings within
      `bounds_errors`, and every counter within `coretrace_lines`. */
  lemma BothWithinCounts(tables: Tables, words: EventWords, out: string, err: string)
    requires Agree(tables, words) && LeaksAreAllocations(words)
    ensures var summary := Merge(SummaryOf(words, out), SummaryOf(words, err));
      && WithinCounts(FindingsOf(tables, out) + FindingsOf(tables, err), summary)
      && summary.coretraceLines == |EventsOf(words, out) + EventsOf(words, err)|
  {
    FindingsWithinCounts(tables, words, out);
    FindingsWithinCounts(tables, words, err);
    CountersFit(words, Lines(Strip(out)));
    CountersFit(words, Lines(Strip(err)));
    NamedConcat(FindingsOf(tables, out), FindingsOf(tables, err), LEAKS);
    NamedConcat(FindingsOf(tables, out), FindingsOf(tables, err), HEAP_BOUNDS);
  }

  /** So of every result, run or not. */
  lemma RunWithinCounts(tables: Tables, words: EventWords, options: CliArgs.Options, result: AnalyzerResult)
    requires Agree(tables, words) && LeaksAreAllocations(words)
    requires Sound(tables, words, options, result)
    ensures WithinCounts(result.findings, result.summary)
    ensures result.summary.coretraceLines == |result.events|
  {
    if result.executed && result.compileSuccess && options.runProgram {
      BothWithinCounts(tables, words, result.stdoutText, result.stderrText);
    } else {
      NothingWithinCounts();
    }
  }

  lemma NothingWithinCounts()
    ensures WithinCounts([], NOTHING)
  {
  }

  ghost predicate WithinCounts(findings: seq<Finding>, summary: Summary) {
    && Named(findings, {"memory-leak"}) <= summary.leakReports
    && Named(findings, {"heap-buffer-overflow", "heap-use-after-free"}) <= summary.boundsErrors
    && Bounded(summary)
  }

  /** Every finding of a run is well formed. */
  lemma FindingsWellFormed(tables: Tables, words: EventWords, options: CliArgs.Options, result: AnalyzerResult)
    requires Sound(tables, words, options, result)
    ensures AllWellFormed(tables, result.findings)
  {
    ParseWellFormed(tables, Strip(result.stdoutText));
    ParseWellFormed(tables, Strip(result.stderrText));
  }

  // ---- Output kept at a timeout ----

  /** An escape at the end of a text is kept or was inside a sequence. */
  lemma {:induction false} StripEscape(a: string)
    ensures Strip(a + [ESC]) == Strip(a) || Strip(a + [ESC]) == Strip(a) + [ESC]
    decreases |a|
  {
    var s := a + [ESC];
    if a == "" {
      assert s == [ESC] && s[1..] == "";
    } else if IntroducerAt(a, 0) {
      assert s[2..] == a[2..] + [ESC];
      AfterFinalConcat(a[2..], [ESC]);
      if AfterFinal(a[2..]) != "" {
        StripEscape(AfterFinal(a[2..]));
      } else {
        AfterFinalEscape(a[2..]);
        assert [ESC][1..] == "";
      }
    } else {
      assert !IntroducerAt(s, 0);
      assert s[1..] == a[1..] + [ESC];
      StripEscape(a[1..]);
    }
  }

  lemma {:induction false} AfterFinalEscape(a: string)
    requires AfterFinal(a) == ""
    ensures AfterFinal(a + [ESC]) == "" || AfterFinal(a + [ESC]) == [ESC]
  {
    var s := a + [ESC];
    if a == "" {
      assert s[1..] == "";
    } else {
      assert s[1..] == a[1..] + [ESC];
      if !IsLetter(a[0]) {
        AfterFinalEscape(a[1..]);
      }
    }
  }

  /** Wherever the output is cut, even inside a control sequence, the whole lines of what was
      captured are lines of the whole output. */
  lemma WholeLinesSurvive(a: string, b: string)
    ensures WholeLines(Strip(a)) <= Strip(a + b)
  {
    if SplitsIntroducer(a, b) {
      var head := a[..|a| - 1];
      assert a == head + [ESC];
      Assoc(head, [ESC], b);
      assert a + b == head + ([ESC] + b);
      StripPrefix(head, [ESC] + b);
      StripEscape(head);
      if Strip(a) == Strip(head) + [ESC] {
        WholeLinesSnoc(Strip(head), ESC);
      }
    } else {
      StripPrefix(a, b);
    }
  }

  /** A byte that is no newline adds no whole line. */
  lemma WholeLinesSnoc(s: string, c: char)
    requires c != '\n'
    ensures WholeLines(s + [c]) == WholeLines(s)
  {
    var t := s + [c];
    assert t[..|t| - 1] == s;
    assert AfterLast(t, '\n') == AfterLast(s, '\n');
  }

  /** What reading a captured stream tells of all that was printed: the findings of its whole
      lines are those of the full output, in order, one by one, except for the places of a
      report still open; the cut line adds at most one more. */
  ghost predicate Faithful(tables: Tables, captured: string, printed: string) {
    var whole := WholeLines(Strip(captured));
    && Stable(After(tables, whole), After(tables, Strip(printed)))
    && Stable(After(tables, whole), After(tables, Strip(captured)))
    && |FindingsOf(tables, captured)| <= |Parse(tables, whole)| + 1
  }

  lemma KeptOutput(tables: Tables, captured: string, printed: string)
    requires captured <= printed
    ensures Faithful(tables, captured, printed)
  {
    var rest := printed[|captured|..];
    assert printed == captured + rest;
    WholeLinesSurvive(captured, rest);
    var whole := WholeLines(Strip(captured));
    var more := Strip(printed)[|whole|..];
    assert Strip(printed) == whole + more;
    CutAtLine(tables, whole, more);
    CutAnywhere(tables, Strip(captured), "");
  }

  /** What was written to a stream of the run, read or not. */
  function Printed(k: Kernel, p: nat): string {
    if p < |k.pipes| then k.pipes[p].written else ""
  }

  /** After any run of the binary, killed at the deadline or not: the findings are faithful to
      what the program printed, and exactly its reports if the capture was complete. */
  lemma RunIsFaithful(tables: Tables, words: EventWords, options: CliArgs.Options, k0: Kernel, k: Kernel,
                      result: AnalyzerResult)
    requires result.compileSuccess && options.runProgram && result.executed && Sane(k0)
    requires Sound(tables, words, options, result) && Ran(options.timeout, k0, k, result)
    ensures Faithful(tables, result.stdoutText, Printed(k, |k0.pipes|))
    ensures Faithful(tables, result.stderrText, Printed(k, |k0.pipes| + 1))
    ensures !result.timedOut && !ReadFailure(k, |k0.log|) ==>
      result.findings == FindingsOf(tables, Printed(k, |k0.pipes|)) + FindingsOf(tables, Printed(k, |k0.pipes| + 1))
  {
    RanMeaning(options.timeout, k0, k, result);
    KeptOutput(tables, result.stdoutText, Printed(k, |k0.pipes|));
    KeptOutput(tables, result.stderrText, Printed(k, |k0.pipes| + 1));
  }

  /** What was written to a stream before the group was killed at entry `i` of the log. */
  function PrintedBeforeKill(k: Kernel, i: nat, p: nat): string
    requires i < |k.log| && k.log[i].GroupKilled? && p < |k.log[i].printed|
  {
    if k.log[i].printed[p] <= |Printed(k, p)| then Printed(k, p)[..k.log[i].printed[p]] else ""
  }

  /** What a stream held at the kill is a prefix of what was captured of it. */
  lemma StreamAtKill(k: Kernel, i: nat, p: nat, text: string)
    requires i < |k.log| && k.log[i].GroupKilled? && p < |k.log[i].printed|
    requires k.log[i].printed[p] <= |text| && text <= Printed(k, p)
    ensures PrintedBeforeKill(k, i, p) <= text
  {
    ShorterPrefix(text, Printed(k, p), k.log[i].printed[p]);
  }

  /** So of both streams of a killed run. */
  lemma HeldAtKill(timeout: int, k0: Kernel, k: Kernel, result: AnalyzerResult, i: nat)
    requires Sane(k0) && Ran(timeout, k0, k, result) && result.timedOut && !ReadTrouble(k, |k0.log|)
    requires |k0.log| <= i < |k.log| && k.log[i].GroupKilled?
    ensures |k0.pipes| + 1 < |k.log[i].printed|
    ensures PrintedBeforeKill(k, i, |k0.pipes|) <= result.stdoutText
    ensures PrintedBeforeKill(k, i, |k0.pipes| + 1) <= result.stderrText
  {
    KeptOfRun(timeout, k0, k, result);
    HoldsAtKill(k0, k, ProcessOf(result), i);
    StreamAtKill(k, i, |k0.pipes|, result.stdoutText);
    StreamAtKill(k, i, |k0.pipes| + 1, result.stderrText);
  }

  lemma HoldsAtKill(k0: Kernel, k: Kernel, process: ProcessResult, i: nat)
    requires KeepsPrinted(k0, k, process) && !ReadTrouble(k, |k0.log|)
    requires |k0.log| <= i < |k.log| && k.log[i].GroupKilled?
    ensures HoldsAll(k.log[i].printed, |k0.pipes|, process)
  {
  }

  lemma KeptOfRun(timeout: int, k0: Kernel, k: Kernel, result: AnalyzerResult)
    requires Sane(k0) && Ran(timeout, k0, k, result) && result.timedOut && !ReadTrouble(k, |k0.log|)
    ensures KeepsPrinted(k0, k, ProcessOf(result))
    ensures result.stdoutText <= Printed(k, |k0.pipes|) && result.stderrText <= Printed(k, |k0.pipes| + 1)
  {
    RanMeaning(timeout, k0, k, result);
  }

  lemma ShorterPrefix(text: string, whole: string, n: nat)
    requires text <= whole && n <= |text|
    ensures whole[..n] <= text
  {
  }

  /** Of a run that was killed and read without failures: all that was printed before the kill
      is captured, and what it reports is found. */
  lemma KilledRunIsFaithful(tables: Tables, timeout: int, k0: Kernel, k: Kernel, result: AnalyzerResult, i: nat)
    requires Sane(k0) && Ran(timeout, k0, k, result) && result.timedOut && !ReadTrouble(k, |k0.log|)
    requires |k0.log| <= i < |k.log| && k.log[i].GroupKilled?
    ensures |k0.pipes| + 1 < |k.log[i].printed|
    ensures KeptAtKill(tables, PrintedBeforeKill(k, i, |k0.pipes|), result.stdoutText)
    ensures KeptAtKill(tables, PrintedBeforeKill(k, i, |k0.pipes| + 1), result.stderrText)
  {
    HeldAtKill(timeout, k0, k, result, i);
    KeptStream(tables, PrintedBeforeKill(k, i, |k0.pipes|), result.stdoutText);
    KeptStream(tables, PrintedBeforeKill(k, i, |k0.pipes| + 1), result.stderrText);
  }

  lemma KeptStream(tables: Tables, printed: string, captured: string)
    requires printed <= captured
    ensures KeptAtKill(tables, printed, captured)
  {
    KeptOutput(tables, printed, captured);
  }

  /** What was printed before a kill is captured, and reading the captured text is faithful to it. */
  ghost predicate KeptAtKill(tables: Tables, printed: string, captured: string) {
    printed <= captured && Faithful(tables, printed, captured)
  }

  /** The output kept at a timeout is parsed if and only if the child could be reaped. */
  lemma TimedOutIsParsed(tables: Tables, words: EventWords, options: CliArgs.Options, k0: Kernel, k: Kernel,
                         result: AnalyzerResult)
    requires result.compileSuccess && options.runProgram && Sane(k0) && result.timedOut
    requires Sound(tables, words, options, result) && Ran(options.timeout, k0, k, result)
    ensures result.executed <==> k.child.Reaped?
    ensures if k.child.Reaped? then ReadsItsOutput(tables, words, result) else HoldsNothing(result)
  {
    RanMeaning(options.timeout, k0, k, result);
  }

  // ---- Output that is kept and not parsed ----

  /** A line with a double free is a finding. */
  lemma LineIsFound(tables: Tables, line: string)
    requires line != "" && Lacks(line, '\n') && !DiagnosticBoxes.Opens(line) && Contains(line, FREED_TWICE)
    ensures Parse(tables, line) != []
  {
    IndexMeaning(line, '\n');
    assert Lines(line) == [line];
    assert [line][1..] == [];
    var next := Step(tables, ReportParser.START, line);
    assert ReportParser.Run(tables, next, []) == next;
  }

  lemma ContainsItself(s: string)
    ensures Contains(s, s)
  {
    assert MatchAt(s, s, 0);
    ContainsMeaning(s, s);
  }

  lemma NotAWarning(line: string)
    requires Lacks(line, '[')
    ensures !DiagnosticBoxes.Opens(line)
  {
    LacksContains(line, "[WARN]", 0);
  }

  lemma ReportBytes()
    ensures FREED_TWICE != "" && Lacks(FREED_TWICE, '\n') && Lacks(FREED_TWICE, ESC) && Lacks(FREED_TWICE, '[')
  {
  }

  lemma ReportIsFound(tables: Tables)
    ensures FindingsOf(tables, FREED_TWICE) != []
  {
    ReportBytes();
    StripPlain(FREED_TWICE, "");
    assert FREED_TWICE + "" == FREED_TWICE;
    ContainsItself(FREED_TWICE);
    NotAWarning(FREED_TWICE);
    LineIsFound(tables, FREED_TWICE);
  }

  /** A run that was killed at its deadline with a report in its output, and has no findings. */
  ghost predicate KeptButNotParsed(tables: Tables, words: EventWords, options: CliArgs.Options,
                                   k0: Kernel, k: Kernel, result: AnalyzerResult) {
    && Sane(k0) && Ran(options.timeout, k0, k, result) && Sound(tables, words, options, result)
    && result.compileSuccess && result.timedOut && FindingsOf(tables, result.stdoutText) != [] && result.findings == []
  }

  /** There is one for every timeout: the kernel cannot give the child's status. */
  lemma UnreapedIsNotParsed(tables: Tables, words: EventWords, options: CliArgs.Options)
    returns (k0: Kernel, k: Kernel, result: AnalyzerResult)
    requires options.runProgram && options.timeout > 0
    ensures KeptButNotParsed(tables, words, options, k0, k, result)
  {
    assert |FREED_TWICE| == 13;
    UnreapedRun(options.timeout, FREED_TWICE);
    k0, k :| EndsUnreaped(options.timeout, FREED_TWICE, k0, k);
    var process := ProcessResult(1, FREED_TWICE, "", "waitpid failed: No child processes", true);
    assert process.error[0] == 'w';
    result := NOT_BUILT.(compileSuccess := true, timedOut := true, stdoutText := FREED_TWICE);
    assert Mirrors(result, process) && RunIs(options.timeout, k0, Outcome(process, true, k));
    ReportIsFound(tables);
  }
}
