/**
 Batch mode (`RunBatch`, `AllFindings` and the status labels of src/runtime_analyzer.cpp,
 `Verdict` of src/events.cpp): one run per source, tallied.
 */
module Batch {
  import opened Text
  import opened Rules
  import opened Streaming
  import opened Events
  import opened CrossPass
  import opened ArtifactNames
  import opened CompilerArgs
  import opened ProcessSpec
  import opened ScriptedRuns
  import opened Analyzer
  import CliArgs
  import Kernels

  const NO_FINDINGS: nat := 0
  const FINDINGS: nat := 1
  const NOT_ANALYZED: nat := 2

  /** The analyzer's verdict on one result. */
  function Verdict(result: AnalyzerResult, runProgram: bool): nat {
    if !result.compileSuccess || (runProgram && !result.executed) then NOT_ANALYZED
    else if result.findings != [] then FINDINGS
    else if result.timedOut then NOT_ANALYZED
    else NO_FINDINGS
  }

  /** A source and its surroundings: its text, its path from the working directory, and the
      compiler and the operating system its run meets. */
  datatype Source = Source(path: string, relative: ByteString, text: string, compile: Compiler, kernel: Kernels.Kernel)

  datatype TestResult = TestResult(sourcePath: string, result: AnalyzerResult)

  datatype BatchResult = BatchResult(
    success: bool, exitCode: nat, tests: seq<TestResult>, summary: Summary, diagnostics: string,
    compileFailures: nat, runtimeFailures: nat, timeouts: nat)

  const NO_BATCH := BatchResult(false, NOT_ANALYZED, [], NOTHING, "", 0, 0, 0)

  const BATCH_REFUSED :=
    "runtime-analyzer batch mode requires linked executables; remove compile-only flags or pass --no-run"

  // ---- Tallies ----

  datatype Outcome = NotCompiled | Overran | ExitedNonzero | Clean

  /** The counter a result goes to. */
  function OutcomeOf(result: AnalyzerResult): Outcome {
    if !result.compileSuccess then NotCompiled
    else if result.timedOut then Overran
    else if result.exitCode != 0 then ExitedNonzero
    else Clean
  }

  /** What a batch adds up. */
  datatype Tally = Tally(notCompiled: nat, overran: nat, exitedNonzero: nat, clean: nat, worst: nat, summary: Summary)

  const EMPTY := Tally(0, 0, 0, 0, NO_FINDINGS, NOTHING)

  function Max(a: nat, b: nat): nat {
    if a < b then b else a
  }

  function Sum(a: Tally, b: Tally): Tally {
    Tally(a.notCompiled + b.notCompiled, a.overran + b.overran, a.exitedNonzero + b.exitedNonzero,
          a.clean + b.clean, Max(a.worst, b.worst), Merge(a.summary, b.summary))
  }

  function TallyOf(test: TestResult, runProgram: bool): Tally {
    var outcome := OutcomeOf(test.result);
    Tally(One(outcome == NotCompiled), One(outcome == Overran), One(outcome == ExitedNonzero),
          One(outcome == Clean), Verdict(test.result, runProgram), test.result.summary)
  }

  function Total(tests: seq<TestResult>, runProgram: bool): Tally {
    if tests == [] then EMPTY
    else Sum(Total(tests[..|tests| - 1], runProgram), TallyOf(tests[|tests| - 1], runProgram))
  }

  lemma SumLaws(a: Tally, b: Tally, c: Tally)
    ensures Sum(a, Sum(b, c)) == Sum(Sum(a, b), c)
    ensures Sum(a, b) == Sum(b, a)
    ensures Sum(a, EMPTY) == a
  {
    MergeLaws(a.summary, b.summary, c.summary);
    MergeLaws(a.summary, NOTHING, NOTHING);
  }

  lemma TotalSnoc(tests: seq<TestResult>, test: TestResult, runProgram: bool)
    ensures Total(tests + [test], runProgram) == Sum(Total(tests, runProgram), TallyOf(test, runProgram))
  {
    assert (tests + [test])[..|tests|] == tests;
  }

  lemma {:induction false} TotalConcat(a: seq<TestResult>, b: seq<TestResult>, runProgram: bool)
    ensures Total(a + b, runProgram) == Sum(Total(a, runProgram), Total(b, runProgram))
  {
    if b == [] {
      assert a + b == a;
      SumLaws(Total(a, runProgram), EMPTY, EMPTY);
    } else {
      var init, last := b[..|b| - 1], b[|b| - 1];
      assert (a + b)[..|a + b| - 1] == a + init;
      TotalConcat(a, init, runProgram);
      SumLaws(Total(a, runProgram), Total(init, runProgram), TallyOf(last, runProgram));
    }
  }

  /** Where the last entry of a sequence is in a rearrangement of it. */
  lemma FindLast<T>(a: seq<T>, b: seq<T>) returns (before: seq<T>, after: seq<T>)
    requires multiset(a) == multiset(b) && a != []
    ensures b == before + ([a[|a| - 1]] + after)
    ensures multiset(a[..|a| - 1]) == multiset(before + after)
  {
    var init, last := a[..|a| - 1], a[|a| - 1];
    assert a == init + [last];
    assert last in multiset(b);
    var i :| 0 <= i < |b| && b[i] == last;
    before, after := b[..i], b[i + 1..];
    assert b == before + ([last] + after);
    assert multiset(init) == multiset(a) - multiset{last};
    assert multiset(before + after) == multiset(b) - multiset{last};
  }

  /** The order of the tests changes nothing in what is added up. */
  lemma {:induction false} OrderIrrelevant(a: seq<TestResult>, b: seq<TestResult>, runProgram: bool)
    requires multiset(a) == multiset(b)
    ensures Total(a, runProgram) == Total(b, runProgram)
    decreases |a|
  {
    if a == [] {
      assert |multiset(b)| == 0;
    } else {
      var before, after := FindLast(a, b);
      OrderIrrelevant(a[..|a| - 1], before + after, runProgram);
      TakenOut(before, a[|a| - 1], after, runProgram);
    }
  }

  lemma TotalCons(test: TestResult, after: seq<TestResult>, runProgram: bool)
    ensures Total([test] + after, runProgram) == Sum(Sum(EMPTY, TallyOf(test, runProgram)), Total(after, runProgram))
  {
    TotalConcat([test], after, runProgram);
    TotalSnoc([], test, runProgram);
    assert [] + [test] == [test];
  }

  /** A test counts the same wherever it stands. */
  lemma TakenOut(before: seq<TestResult>, test: TestResult, after: seq<TestResult>, runProgram: bool)
    ensures Total(before + ([test] + after), runProgram)
      == Sum(Total(before + after, runProgram), TallyOf(test, runProgram))
  {
    var one, rest := TallyOf(test, runProgram), Total(after, runProgram);
    TotalConcat(before, after, runProgram);
    TotalConcat(before, [test] + after, runProgram);
    TotalCons(test, after, runProgram);
    Exchange(Total(before, runProgram), one, rest);
  }

  lemma Exchange(before: Tally, last: Tally, after: Tally)
    ensures Sum(before, Sum(Sum(EMPTY, last), after)) == Sum(Sum(before, after), last)
  {
    SumLaws(last, EMPTY, EMPTY);
    SumLaws(EMPTY, last, EMPTY);
    SumLaws(last, after, EMPTY);
    SumLaws(before, after, last);
  }

  // ---- The batch as a function of its tests ----

  function BatchOf(options: CliArgs.Options, tests: seq<TestResult>, diagnostics: string): BatchResult {
    var total := Total(tests, options.runProgram);
    var runtimeOk := !options.strictTestExit || total.exitedNonzero == 0;
    BatchResult(total.notCompiled == 0 && runtimeOk,
                if runtimeOk then total.worst else Max(total.worst, FINDINGS),
                tests, total.summary, DiagnosticsAfter(diagnostics, tests),
                total.notCompiled, total.exitedNonzero, total.overran)
  }

  /** The diagnostics of a test, under its source and ended by a newline. */
  function WithDiagnostics(diagnostics: string, test: TestResult): string {
    if test.result.diagnostics == "" then diagnostics
    else Terminated(diagnostics + test.sourcePath + ":\n" + test.result.diagnostics)
  }

  function DiagnosticsAfter(diagnostics: string, tests: seq<TestResult>): string {
    if tests == [] then diagnostics
    else WithDiagnostics(DiagnosticsAfter(diagnostics, tests[..|tests| - 1]), tests[|tests| - 1])
  }

  /** The options a source is run with. */
  function TestOptions(marks: SourceMarks, options: CliArgs.Options, source: Source): CliArgs.Options
  {
    options.(testDirectories := [], outputPath := TestOutputPath(options.outputDirectory, source.relative),
             explicitOutputPath := true,
             compilerArgs := options.compilerArgs
               + Missing(marks, source.path, source.text, options.compilerArgs) + [source.path])
  }

  /** A test comes from the run of its source: it is refused for a reason, or was compiled with
      the compiler's own answer, and then ran on the source's kernel. */
  ghost predicate FromRun(tables: Tables, words: EventWords, marks: SourceMarks, options: CliArgs.Options,
                          source: Source, test: TestResult)
  {
    var own := TestOptions(marks, options, source);
    && test.sourcePath == source.path
    && Sound(tables, words, own, test.result)
    && Compiled(own, source.compile, test.result.(outputPath := if Refusal(own).Some? then "" else own.outputPath))
    && test.result.outputPath == own.outputPath
    && (test.result.compileSuccess && own.runProgram ==>
          RanSomehow(own.timeout, source.kernel, source.compile(BuiltArguments(own)).diagnostics, test.result))
  }

  ghost predicate RanSomehow(timeout: int, k0: Kernels.Kernel, compiled: string, result: AnalyzerResult) {
    exists k :: Ran(timeout, k0, k, result) && Says(timeout, k0, k, compiled, result)
  }

  ghost predicate Bootable(sources: seq<Source>) {
    forall i :: 0 <= i < |sources| ==> Kernels.Sane(sources[i].kernel)
  }

  /** Each of `ts` stands in a relation to the entry of `ss` at its place. */
  ghost predicate Pairwise<S(!new), T(!new)>(related: (S, T) -> bool, ss: seq<S>, ts: seq<T>) {
    |ts| <= |ss| && forall i :: 0 <= i < |ts| ==> related(ss[i], ts[i])
  }

  lemma OneMorePair<S(!new), T(!new)>(related: (S, T) -> bool, ss: seq<S>, ts: seq<T>, t: T)
    requires Pairwise(related, ss, ts) && |ts| < |ss| && related(ss[|ts|], t)
    ensures Pairwise(related, ss, ts + [t])
  {
  }

  ghost function RunRelation(tables: Tables, words: EventWords, marks: SourceMarks, options: CliArgs.Options)
    : (Source, TestResult) -> bool
  {
    (source, test) => FromRun(tables, words, marks, options, source, test)
  }

  ghost predicate AllFromRuns(tables: Tables, words: EventWords, marks: SourceMarks, options: CliArgs.Options,
                              sources: seq<Source>, tests: seq<TestResult>) {
    Pairwise(RunRelation(tables, words, marks, options), sources, tests)
  }

  /** A batch gives every run its own output and the user's arguments, with the source as the last
      one, so a run that is not refused builds just that file. */
  lemma OwnOutputIsBuilt(marks: SourceMarks, options: CliArgs.Options, source: Source)
    ensures var own := TestOptions(marks, options, source);
      && own.outputPath != "" && OwnOutput(own) == own.outputPath
      && options.compilerArgs <= own.compilerArgs && own.compilerArgs[|own.compilerArgs| - 1] == source.path
      && own.timeout == options.timeout && own.runProgram == options.runProgram
      && (OutputOf(own.compilerArgs).present <==> OutputOf(options.compilerArgs).present || NamesOutput(source.path))
      && (Refusal(own).None? ==> OutputOf(BuiltArguments(own)) == OutputArgument(true, own.outputPath))
  {
    var own := TestOptions(marks, options, source);
    AddedArgumentsNameNoOutput(marks, source.path, source.text, options.compilerArgs);
    DropKeepsPresence(own.compilerArgs);
    if Refusal(own).None? {
      AppendedOutput(Dropped(own.compilerArgs), OwnOutput(own));
    }
  }

  /** The run of one source. */
  method RunTest(tables: Tables, words: EventWords, marks: SourceMarks, options: CliArgs.Options, source: Source)
    returns (result: AnalyzerResult, returned: bool)
    requires Kernels.Sane(source.kernel)
    ensures returned ==> FromRun(tables, words, marks, options, source, TestResult(source.path, result))
  {
    var outputPath := MakeTestOutputPath(options.outputDirectory, source.relative);
    var args := AddPerSourceCompatibilityArgs(marks, source.path, source.text, options.compilerArgs);
    args := args + [source.path];
    var testOptions := options.(testDirectories := [], outputPath := outputPath, explicitOutputPath := true,
                                compilerArgs := args);
    OwnOutputIsBuilt(marks, options, source);
    var k;
    result, returned, k := Run(tables, words, testOptions, source.compile, source.kernel);
    if result.outputPath == "" {
      result := result.(outputPath := testOptions.outputPath);
    }
  }

  /** Why a batch cannot begin. */
  function WhyNot(options: CliArgs.Options, directoryError: Option<string>, discovery: string): (reason: string)
    ensures reason != ""
  {
    if CompilesOnly(options.compilerArgs) && options.runProgram then BATCH_REFUSED
    else if directoryError.Some? then
      "failed to create output directory " + options.outputDirectory + ": " + directoryError.value
    else discovery + "no C/C++ test sources found\n"
  }

  method RunBatch(tables: Tables, words: EventWords, marks: SourceMarks, options: CliArgs.Options,
                  directoryError: Option<string>, sources: seq<Source>, discovery: string)
    returns (batch: BatchResult, returned: bool)
    requires Bootable(sources)
    ensures returned && Begins(options, directoryError, sources) ==> (
      && batch == BatchOf(options, batch.tests, discovery) && |batch.tests| == |sources|
      && AllFromRuns(tables, words, marks, options, sources, batch.tests))
    ensures !Begins(options, directoryError, sources) ==> (
      && returned && batch.exitCode == 2
      && batch == NO_BATCH.(diagnostics := WhyNot(options, directoryError, discovery)))
  {
    batch, returned := NO_BATCH, true;
    var compileOnly := HasCompileOnlyAction(options.compilerArgs);
    if compileOnly && options.runProgram {
      batch := batch.(diagnostics := BATCH_REFUSED);
      return;
    }
    if directoryError.Some? {
      batch := batch.(diagnostics := "failed to create output directory " + options.outputDirectory + ": "
                        + directoryError.value);
      return;
    }
    batch := batch.(diagnostics := batch.diagnostics + discovery);
    if sources == [] {
      batch := batch.(diagnostics := batch.diagnostics + "no C/C++ test sources found\n");
      return;
    }
    var verdict;
    batch, verdict, returned := RunTests(tables, words, marks, options, sources, discovery);
    var runtimeOk := if options.strictTestExit then batch.runtimeFailures == 0 else true;
    batch := batch.(success := batch.compileFailures == 0 && runtimeOk,
                    exitCode := if runtimeOk then verdict else Max(verdict, FINDINGS));
  }

  /** Nothing stops the batch before its first test. */
  predicate Begins(options: CliArgs.Options, directoryError: Option<string>, sources: seq<Source>) {
    !(CompilesOnly(options.compilerArgs) && options.runProgram) && directoryError.None? && |sources| > 0
  }

  /** The counters and the verdict agree with the tests so far. */
  predicate Tallied(options: CliArgs.Options, discovery: string, batch: BatchResult, verdict: nat) {
    var total := Total(batch.tests, options.runProgram);
    && batch.compileFailures == total.notCompiled && batch.timeouts == total.overran
    && batch.runtimeFailures == total.exitedNonzero && verdict == total.worst && batch.summary == total.summary
    && batch.diagnostics == DiagnosticsAfter(discovery, batch.tests)
  }

  /** The loop over the sources. */
  method RunTests(tables: Tables, words: EventWords, marks: SourceMarks, options: CliArgs.Options,
                  sources: seq<Source>, discovery: string)
    returns (batch: BatchResult, verdict: nat, returned: bool)
    requires Bootable(sources)
    ensures returned ==> (
      && Tallied(options, discovery, batch, verdict) && |batch.tests| == |sources|
      && AllFromRuns(tables, words, marks, options, sources, batch.tests))
  {
    batch, verdict, returned := NO_BATCH.(diagnostics := discovery), NO_FINDINGS, true;
    for i := 0 to |sources|
      invariant |batch.tests| == i && returned
      invariant Tallied(options, discovery, batch, verdict)
      invariant AllFromRuns(tables, words, marks, options, sources, batch.tests)
    {
      var result;
      result, returned := RunTest(tables, words, marks, options, sources[i]);
      if !returned {
        return;
      }
      var test := TestResult(sources[i].path, result);
      OneMoreRun(tables, words, marks, options, sources, batch.tests, test);
      batch, verdict := AddTest(options, discovery, batch, verdict, test);
    }
  }

  lemma OneMoreRun(tables: Tables, words: EventWords, marks: SourceMarks, options: CliArgs.Options,
                   sources: seq<Source>, tests: seq<TestResult>, test: TestResult)
    requires |tests| < |sources| && AllFromRuns(tables, words, marks, options, sources, tests)
    requires FromRun(tables, words, marks, options, sources[|tests|], test)
    ensures AllFromRuns(tables, words, marks, options, sources, tests + [test])
  {
    OneMorePair(RunRelation(tables, words, marks, options), sources, tests, test);
  }

  method AddDiagnostics(diagnostics: string, test: TestResult) returns (extended: string)
    ensures extended == WithDiagnostics(diagnostics, test)
  {
    extended := diagnostics;
    if test.result.diagnostics != "" {
      extended := extended + test.sourcePath + ":\n" + test.result.diagnostics;
      if extended != "" && extended[|extended| - 1] != '\n' {
        extended := extended + "\n";
      }
    }
  }

  /** What the loop does with a result. */
  method AddTest(options: CliArgs.Options, ghost discovery: string, before: BatchResult, verdict0: nat,
                 test: TestResult)
    returns (batch: BatchResult, verdict: nat)
    requires Tallied(options, discovery, before, verdict0)
    ensures Tallied(options, discovery, batch, verdict) && batch.tests == before.tests + [test]
  {
    var result := test.result;
    TotalSnoc(before.tests, test, options.runProgram);
    assert (before.tests + [test])[..|before.tests|] == before.tests;
    batch := before;
    var diagnostics := AddDiagnostics(batch.diagnostics, test);
    batch := batch.(diagnostics := diagnostics);
    if !result.compileSuccess {
      batch := batch.(compileFailures := batch.compileFailures + 1);
    } else if result.timedOut {
      batch := batch.(timeouts := batch.timeouts + 1);
    } else if result.exitCode != 0 {
      batch := batch.(runtimeFailures := batch.runtimeFailures + 1);
    }
    verdict := Max(verdict0, Verdict(result, options.runProgram));
    batch := batch.(summary := Merge(batch.summary, result.summary), tests := batch.tests + [test]);
  }

  // ---- What the counters and the verdict say ----

  /** Every test goes to exactly one counter, the clean ones to none of the three printed. */
  lemma {:induction false} EveryTestCountedOnce(tests: seq<TestResult>, runProgram: bool)
    ensures var total := Total(tests, runProgram);
      total.notCompiled + total.overran + total.exitedNonzero + total.clean == |tests|
  {
    if tests != [] {
      EveryTestCountedOnce(tests[..|tests| - 1], runProgram);
    }
  }

  /** A counter is zero exactly when no test goes to it. */
  lemma {:induction false} CountersMeaning(tests: seq<TestResult>, runProgram: bool)
    ensures var total := Total(tests, runProgram);
      && (total.notCompiled == 0 <==> forall i :: 0 <= i < |tests| ==> tests[i].result.compileSuccess)
      && (total.exitedNonzero == 0 <==> forall i :: 0 <= i < |tests| ==> OutcomeOf(tests[i].result) != ExitedNonzero)
  {
    if tests != [] {
      var init, last := tests[..|tests| - 1], tests[|tests| - 1];
      CountersMeaning(init, runProgram);
      assert tests == init + [last];
    }
  }

  /** The worst verdict is a bound on all of them, and one of them unless there are none. */
  lemma {:induction false} WorstIsMaximum(tests: seq<TestResult>, runProgram: bool)
    ensures var worst := Total(tests, runProgram).worst;
      && worst <= NOT_ANALYZED
      && (forall i :: 0 <= i < |tests| ==> Verdict(tests[i].result, runProgram) <= worst)
      && (tests != [] ==> exists i :: 0 <= i < |tests| && Verdict(tests[i].result, runProgram) == worst)
  {
    if tests != [] {
      var init, last := tests[..|tests| - 1], tests[|tests| - 1];
      WorstIsMaximum(init, runProgram);
      assert tests == init + [last];
      assert Verdict(tests[|tests| - 1].result, runProgram) == Verdict(last.result, runProgram);
      if init != [] {
        var i :| 0 <= i < |init| && Verdict(init[i].result, runProgram) == Total(init, runProgram).worst;
        assert tests[i] == init[i];
      }
    }
  }

  /** A test that leaves nothing to say: built, run to its end if it was to be run, and silent. */
  predicate NothingToReport(result: AnalyzerResult, runProgram: bool) {
    result.compileSuccess && (runProgram ==> result.executed) && !result.timedOut && result.findings == []
  }

  /** A test that could not be built, could not be run to its end though it was to be run, or was
      stopped at its deadline without a finding. */
  predicate CouldNotTell(result: AnalyzerResult, runProgram: bool) {
    !result.compileSuccess || (runProgram && !result.executed) || (result.timedOut && result.findings == [])
  }

  /** A program that was built, ended in time and did not exit with 0. */
  predicate EndedBadly(result: AnalyzerResult) {
    result.compileSuccess && !result.timedOut && result.exitCode != 0
  }

  /** The exit status of a batch: each of its three values, from both sides. */
  lemma ExitStatusMeaning(options: CliArgs.Options, tests: seq<TestResult>, diagnostics: string)
    ensures var batch := BatchOf(options, tests, diagnostics);
      var unclear := exists i :: 0 <= i < |tests| && CouldNotTell(tests[i].result, options.runProgram);
      var reported := exists i :: 0 <= i < |tests| && tests[i].result.findings != [];
      var raised := options.strictTestExit && exists i :: 0 <= i < |tests| && EndedBadly(tests[i].result);
      && (batch.exitCode == 2 <==> unclear)
      && (batch.exitCode == 1 <==> !unclear && (reported || raised))
      && (batch.exitCode == 0 <==> !unclear && !reported && !raised)
  {
    WorstIsMaximum(tests, options.runProgram);
    CountersMeaning(tests, options.runProgram);
    var runProgram := options.runProgram;
    forall i | 0 <= i < |tests|
      ensures Verdict(tests[i].result, runProgram) == 2 <==> CouldNotTell(tests[i].result, runProgram)
      ensures Verdict(tests[i].result, runProgram) >= 1
        <==> CouldNotTell(tests[i].result, runProgram) || tests[i].result.findings != []
      ensures OutcomeOf(tests[i].result) == ExitedNonzero <==> EndedBadly(tests[i].result)
    {
    }
  }

  /** A batch that exits with 0 succeeded, had every test built and run to its end, and has no finding. */
  lemma CleanBatch(options: CliArgs.Options, tests: seq<TestResult>, diagnostics: string)
    requires BatchOf(options, tests, diagnostics).exitCode == 0
    ensures BatchOf(options, tests, diagnostics).success && AllFindingsOf(tests) == []
    ensures forall i :: 0 <= i < |tests| ==> NothingToReport(tests[i].result, options.runProgram)
    ensures options.strictTestExit ==> forall i :: 0 <= i < |tests| ==> tests[i].result.exitCode == 0
  {
    ExitStatusMeaning(options, tests, diagnostics);
    BatchSuccessMeaning(options, tests, diagnostics);
    NoFindingsAtAll(tests);
    forall i | 0 <= i < |tests|
      ensures !CouldNotTell(tests[i].result, options.runProgram) && tests[i].result.findings == []
      ensures options.strictTestExit ==> !EndedBadly(tests[i].result)
    {
    }
  }

  /** A batch succeeds if and only if every test was built and, under strict mode, none ended badly. */
  lemma BatchSuccessMeaning(options: CliArgs.Options, tests: seq<TestResult>, diagnostics: string)
    ensures BatchOf(options, tests, diagnostics).success
      <==> && (forall i :: 0 <= i < |tests| ==> tests[i].result.compileSuccess)
           && (options.strictTestExit ==> forall i :: 0 <= i < |tests| ==> !EndedBadly(tests[i].result))
  {
    CountersMeaning(tests, options.runProgram);
    forall i | 0 <= i < |tests|
      ensures OutcomeOf(tests[i].result) == ExitedNonzero <==> EndedBadly(tests[i].result)
    {
    }
  }

  predicate NotBuilt(result: AnalyzerResult) {
    !result.compileSuccess
  }

  predicate RanOver(result: AnalyzerResult) {
    result.compileSuccess && result.timedOut
  }

  /** How many tests have the property. */
  function HowMany(property: AnalyzerResult -> bool, tests: seq<TestResult>): nat {
    if tests == [] then 0 else HowMany(property, tests[1..]) + if property(tests[0].result) then 1 else 0
  }

  lemma {:induction false} HowManySnoc(property: AnalyzerResult -> bool, tests: seq<TestResult>, test: TestResult)
    ensures HowMany(property, tests + [test]) == HowMany(property, tests) + if property(test.result) then 1 else 0
  {
    if tests == [] {
      assert [test][1..] == [];
      assert tests + [test] == [test];
    } else {
      assert (tests + [test])[1..] == tests[1..] + [test];
      HowManySnoc(property, tests[1..], test);
    }
  }

  /** Each counter printed is the number of tests that meet its condition. */
  lemma {:induction false} CountersCount(tests: seq<TestResult>, runProgram: bool)
    ensures var total := Total(tests, runProgram);
      && total.notCompiled == HowMany(NotBuilt, tests) && total.overran == HowMany(RanOver, tests)
      && total.exitedNonzero == HowMany(EndedBadly, tests)
  {
    if tests != [] {
      var init, last := tests[..|tests| - 1], tests[|tests| - 1];
      assert tests == init + [last];
      CountersCount(init, runProgram);
      HowManySnoc(NotBuilt, init, last);
      HowManySnoc(RanOver, init, last);
      HowManySnoc(EndedBadly, init, last);
    }
  }

  /** The counters of a batch. */
  lemma BatchCounters(options: CliArgs.Options, tests: seq<TestResult>, diagnostics: string)
    ensures var batch := BatchOf(options, tests, diagnostics);
      && batch.compileFailures == HowMany(NotBuilt, tests) && batch.timeouts == HowMany(RanOver, tests)
      && batch.runtimeFailures == HowMany(EndedBadly, tests) && batch.tests == tests
  {
    CountersCount(tests, options.runProgram);
  }

  /** The diagnostics of a batch tell those of each test, under its source. */
  ghost predicate Tells(diagnostics: string, test: TestResult) {
    exists before, after :: diagnostics == before + (test.sourcePath + ":\n" + test.result.diagnostics) + after
  }

  lemma TellsMore(diagnostics: string, more: string, test: TestResult)
    requires Tells(diagnostics, test)
    ensures Tells(diagnostics + more, test)
  {
    var before, after :| diagnostics == before + (test.sourcePath + ":\n" + test.result.diagnostics) + after;
    assert diagnostics + more
      == before + (test.sourcePath + ":\n" + test.result.diagnostics) + (after + more);
  }

  lemma TerminatedAdds(text: string) returns (more: string)
    ensures Terminated(text) == text + more
  {
    more := if Terminated(text) == text then "" else "\n";
    assert text + "" == text;
  }

  lemma {:induction false} EveryDiagnosticIsTold(diagnostics: string, tests: seq<TestResult>, i: nat)
    requires i < |tests| && tests[i].result.diagnostics != ""
    ensures Tells(DiagnosticsAfter(diagnostics, tests), tests[i])
    decreases |tests|
  {
    var init, last := tests[..|tests| - 1], tests[|tests| - 1];
    var earlier := DiagnosticsAfter(diagnostics, init);
    if last.result.diagnostics == "" {
      EveryDiagnosticIsTold(diagnostics, init, i);
    } else {
      var told := last.sourcePath + ":\n" + last.result.diagnostics;
      var more := TerminatedAdds(earlier + last.sourcePath + ":\n" + last.result.diagnostics);
      assert DiagnosticsAfter(diagnostics, tests) == earlier + told + more;
      if i < |init| {
        EveryDiagnosticIsTold(diagnostics, init, i);
        TellsMore(earlier, told + more, tests[i]);
        assert earlier + (told + more) == earlier + told + more;
      }
    }
  }

  // ---- All findings ----

  function AllFindingsOf(tests: seq<TestResult>): seq<Finding> {
    if tests == [] then []
    else AllFindingsOf(tests[..|tests| - 1]) + tests[|tests| - 1].result.findings
  }

  method AllFindings(batch: BatchResult) returns (findings: seq<Finding>)
    ensures findings == AllFindingsOf(batch.tests)
  {
    findings := [];
    for i := 0 to |batch.tests|
      invariant findings == AllFindingsOf(batch.tests[..i])
    {
      assert batch.tests[..i + 1][..i] == batch.tests[..i];
      findings := findings + batch.tests[i].result.findings;
    }
    assert batch.tests[..|batch.tests|] == batch.tests;
  }

  /** There are findings exactly when a test has one. */
  lemma {:induction false} NoFindingsAtAll(tests: seq<TestResult>)
    ensures AllFindingsOf(tests) == [] <==> forall i :: 0 <= i < |tests| ==> tests[i].result.findings == []
  {
    if tests != [] {
      var init, last := tests[..|tests| - 1], tests[|tests| - 1];
      NoFindingsAtAll(init);
      assert tests == init + [last];
    }
  }

  /** The summary of a batch bounds the findings of all its tests, as that of each bounds its own. */
  lemma {:induction false} BatchWithinCounts(tests: seq<TestResult>, runProgram: bool)
    requires forall i :: 0 <= i < |tests| ==> WithinCounts(tests[i].result.findings, tests[i].result.summary)
    ensures WithinCounts(AllFindingsOf(tests), Total(tests, runProgram).summary)
  {
    if tests != [] {
      var init, last := tests[..|tests| - 1], tests[|tests| - 1];
      assert tests == init + [last];
      BatchWithinCounts(init, runProgram);
      NamedConcat(AllFindingsOf(init), last.result.findings, LEAKS);
      NamedConcat(AllFindingsOf(init), last.result.findings, HEAP_BOUNDS);
    }
  }

  lemma {:induction false} BatchWellFormed(tables: Tables, tests: seq<TestResult>)
    requires forall i :: 0 <= i < |tests| ==> AllWellFormed(tables, tests[i].result.findings)
    ensures AllWellFormed(tables, AllFindingsOf(tests))
  {
    if tests != [] {
      var init, last := tests[..|tests| - 1], tests[|tests| - 1];
      assert tests == init + [last];
      BatchWellFormed(tables, init);
    }
  }

  lemma BatchFindingsWellFormed(tables: Tables, words: EventWords, marks: SourceMarks, options: CliArgs.Options,
                                sources: seq<Source>, tests: seq<TestResult>)
    requires AllFromRuns(tables, words, marks, options, sources, tests)
    ensures AllWellFormed(tables, AllFindingsOf(tests))
  {
    forall i | 0 <= i < |tests| ensures AllWellFormed(tables, tests[i].result.findings) {
      assert RunRelation(tables, words, marks, options)(sources[i], tests[i]);
      FindingsWellFormed(tables, words, TestOptions(marks, options, sources[i]), tests[i].result);
    }
    BatchWellFormed(tables, tests);
  }

  /** For every batch: its findings are within its summary, and its counters within its tests. */
  lemma BatchIsSound(tables: Tables, words: EventWords, marks: SourceMarks, options: CliArgs.Options,
                     sources: seq<Source>, tests: seq<TestResult>, diagnostics: string)
    requires Agree(tables, words) && LeaksAreAllocations(words)
    requires AllFromRuns(tables, words, marks, options, sources, tests)
    ensures var batch := BatchOf(options, tests, diagnostics);
      && WithinCounts(AllFindingsOf(tests), batch.summary)
      && batch.compileFailures + batch.timeouts + batch.runtimeFailures
           + Total(tests, options.runProgram).clean == |tests|
  {
    forall i | 0 <= i < |tests| ensures WithinCounts(tests[i].result.findings, tests[i].result.summary) {
      assert RunRelation(tables, words, marks, options)(sources[i], tests[i]);
      RunWithinCounts(tables, words, TestOptions(marks, options, sources[i]), tests[i].result);
    }
    BatchWithinCounts(tests, options.runProgram);
    EveryTestCountedOnce(tests, options.runProgram);
  }

  /** Rearranging the tests of a batch changes neither its verdict nor its counters nor its summary. */
  lemma RearrangedBatch(options: CliArgs.Options, a: seq<TestResult>, b: seq<TestResult>, diagnostics: string)
    requires multiset(a) == multiset(b)
    ensures BatchOf(options, a, diagnostics).(tests := b, diagnostics := DiagnosticsAfter(diagnostics, b))
      == BatchOf(options, b, diagnostics)
  {
    OrderIrrelevant(a, b, options.runProgram);
  }

  // ---- Status labels ----

  datatype Status = PASS | COMPILE | TIMEOUT | RUNTIME

  /** The label a test is printed with. */
  function StatusOf(result: AnalyzerResult): Status {
    if !result.compileSuccess then COMPILE
    else if result.timedOut then TIMEOUT
    else if !result.success then RUNTIME
    else PASS
  }

  /** The label that agrees with the counter. */
  function StatusFor(outcome: Outcome): Status {
    match outcome
    case NotCompiled => COMPILE
    case Overran => TIMEOUT
    case ExitedNonzero => RUNTIME
    case Clean => PASS
  }

  /** The analyzer could not read the run to its end, and the program still exited with 0. */
  predicate UnreadButExitedZero(result: AnalyzerResult, runProgram: bool) {
    result.compileSuccess && runProgram && !result.executed && !result.timedOut && result.exitCode == 0
  }

  /** A label and a counter disagree exactly on such a run: printed as RUNTIME, counted as clean. */
  lemma LabelMeaning(tables: Tables, words: EventWords, options: CliArgs.Options, result: AnalyzerResult)
    requires Sound(tables, words, options, result)
    ensures StatusOf(result) == StatusFor(OutcomeOf(result)) <==> !UnreadButExitedZero(result, options.runProgram)
    ensures UnreadButExitedZero(result, options.runProgram) ==>
      StatusOf(result) == RUNTIME && OutcomeOf(result) == Clean && Verdict(result, options.runProgram) == NOT_ANALYZED
  {
  }

  /** Such a run: `select` fails, and the program exits with 0. */
  lemma LabelsCanDisagree(tables: Tables, words: EventWords, options: CliArgs.Options)
    returns (k0: Kernels.Kernel, k: Kernels.Kernel, result: AnalyzerResult)
    requires options.runProgram
    ensures Kernels.Sane(k0) && Ran(options.timeout, k0, k, result) && Sound(tables, words, options, result)
    ensures UnreadButExitedZero(result, true) && StatusOf(result) == RUNTIME && OutcomeOf(result) == Clean
  {
    UnselectedRun(options.timeout);
    k0, k :| EndsUnselected(options.timeout, k0, k);
    var process := ProcessResult(0, "", "", "select failed: Invalid argument", false);
    assert process.error[0] == 's';
    result := NOT_BUILT.(compileSuccess := true, exitCode := 0);
    assert Mirrors(result, process) && RunIs(options.timeout, k0, Outcome(process, true, k));
  }

  function Labelled(tests: seq<TestResult>, status: Status): nat {
    if tests == [] then 0
    else Labelled(tests[..|tests| - 1], status) + One(StatusOf(tests[|tests| - 1].result) == status)
  }

  function Unread(tests: seq<TestResult>, runProgram: bool): nat {
    if tests == [] then 0
    else Unread(tests[..|tests| - 1], runProgram) + One(UnreadButExitedZero(tests[|tests| - 1].result, runProgram))
  }

  /** The labels printed against the counters printed: RUNTIME exceeds its counter by exactly
      the runs left unread that exited with 0. */
  lemma {:induction false} LabelsAgainstCounters(tables: Tables, words: EventWords, options: CliArgs.Options,
                                                 tests: seq<TestResult>)
    requires forall i :: 0 <= i < |tests| ==> SomehowSound(tables, words, options.runProgram, tests[i].result)
    ensures var total := Total(tests, options.runProgram);
      && Labelled(tests, COMPILE) == total.notCompiled && Labelled(tests, TIMEOUT) == total.overran
      && Labelled(tests, RUNTIME) == total.exitedNonzero + Unread(tests, options.runProgram)
      && Labelled(tests, PASS) + Unread(tests, options.runProgram) == total.clean
  {
    if tests != [] {
      var init, last := tests[..|tests| - 1], tests[|tests| - 1];
      assert tests == init + [last];
      LabelsAgainstCounters(tables, words, options, init);
      assert SomehowSound(tables, words, options.runProgram, last.result);
      var own: CliArgs.Options :| own.runProgram == options.runProgram && Sound(tables, words, own, last.result);
      LabelMeaning(tables, words, own, last.result);
    }
  }

  ghost predicate SomehowSound(tables: Tables, words: EventWords, runProgram: bool, result: AnalyzerResult) {
    exists own: CliArgs.Options :: own.runProgram == runProgram && Sound(tables, words, own, result)
  }

  /** The labels and the counters of every batch. */
  lemma BatchLabels(tables: Tables, words: EventWords, marks: SourceMarks, options: CliArgs.Options,
                    sources: seq<Source>, tests: seq<TestResult>, diagnostics: string)
    requires AllFromRuns(tables, words, marks, options, sources, tests)
    ensures var batch := BatchOf(options, tests, diagnostics);
      && Labelled(tests, COMPILE) == batch.compileFailures && Labelled(tests, TIMEOUT) == batch.timeouts
      && Labelled(tests, RUNTIME) == batch.runtimeFailures + Unread(tests, options.runProgram)
      && Labelled(tests, PASS) + Labelled(tests, COMPILE) + Labelled(tests, TIMEOUT)
           + Labelled(tests, RUNTIME) == |tests|
  {
    forall i | 0 <= i < |tests| ensures SomehowSound(tables, words, options.runProgram, tests[i].result) {
      assert RunRelation(tables, words, marks, options)(sources[i], tests[i]);
      assert Sound(tables, words, TestOptions(marks, options, sources[i]), tests[i].result);
    }
    LabelsAgainstCounters(tables, words, options, tests);
    EveryTestCountedOnce(tests, options.runProgram);
  }
}
