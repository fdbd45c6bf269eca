/**
 From what a program prints to what the analyzer reports: the capture, the colours, the
 parser and the verdict put together.
 */
module EndToEnd {
  import opened Text
  import opened Rules
  import opened ReportParser
  import opened Streaming
  import opened RenderedLog
  import opened Events
  import opened ProcessSpec
  import opened ProcessSafety
  import opened Analyzer
  import Kernels
  import opened CrossPass
  import Batch
  import CompilerArgs
  import Sarif
  import CliArgs

  /** The text is the printed log of the reports, coloured by the pieces; the newline after
      its last line may be missing. */
  ghost predicate ColouredLog(tables: Tables, text: string, reports: seq<Report>, pieces: seq<Piece>)
    requires Printable(tables, reports)
  {
    && (forall k :: 0 <= k < |pieces| ==> GoodPiece(pieces[k]))
    && text == Coloured(pieces) && PrintedLines(LogLines(tables, reports), Uncoloured(pieces))
  }

  ghost predicate Prints(tables: Tables, text: string, reports: seq<Report>) {
    && GoodLog(tables, reports) && Printable(tables, reports)
    && exists pieces :: ColouredLog(tables, text, reports, pieces)
  }

  /** Reading a printed log, however it is coloured, yields its findings. */
  lemma ColouredLogRoundTrip(tables: Tables, text: string, reports: seq<Report>)
    requires GoodTables(tables) && Prints(tables, text, reports)
    ensures FindingsOf(tables, text) == LogFindings(tables, reports)
  {
    var pieces :| ColouredLog(tables, text, reports, pieces);
    StripColoured(pieces);
    LogRoundTrip(tables, reports, Uncoloured(pieces));
  }

  /** A program that prints reports on both streams and ends: just these are its findings, and
      the verdict says whether there are any. */
  lemma ReportsAreFound(tables: Tables, words: EventWords, options: CliArgs.Options,
                        k0: Kernels.Kernel, k: Kernels.Kernel,
                        result: AnalyzerResult, out: seq<Report>, err: seq<Report>)
    requires GoodTables(tables) && result.executed && Kernels.Sane(k0)
    requires Sound(tables, words, options, result) && Ran(options.timeout, k0, k, result)
    requires !result.timedOut && !ReadFailure(k, |k0.log|)
    requires Prints(tables, Printed(k, |k0.pipes|), out) && Prints(tables, Printed(k, |k0.pipes| + 1), err)
    ensures result.findings == LogFindings(tables, out) + LogFindings(tables, err)
    ensures Batch.Verdict(result, true)
      == if LogFindings(tables, out) + LogFindings(tables, err) == [] then Batch.NO_FINDINGS else Batch.FINDINGS
  {
    RunIsFaithful(tables, words, options, k0, k, result);
    ColouredLogRoundTrip(tables, Printed(k, |k0.pipes|), out);
    ColouredLogRoundTrip(tables, Printed(k, |k0.pipes| + 1), err);
  }

  // ---- A whole batch ----

  /** What a program printed on its two streams. */
  datatype Streams = Streams(out: seq<Report>, err: seq<Report>)

  predicate PrintableStreams(tables: Tables, printed: Streams) {
    Printable(tables, printed.out) && Printable(tables, printed.err)
  }

  function StreamFindings(tables: Tables, printed: Streams): seq<Finding>
    requires PrintableStreams(tables, printed)
  {
    LogFindings(tables, printed.out) + LogFindings(tables, printed.err)
  }

  /** The run was complete and printed just these reports. */
  ghost predicate Completed(tables: Tables, timeout: int, k0: Kernels.Kernel, k: Kernels.Kernel,
                            result: AnalyzerResult, printed: Streams) {
    && Kernels.Sane(k0) && Ran(timeout, k0, k, result) && !result.timedOut && !ReadFailure(k, |k0.log|)
    && Prints(tables, Printed(k, |k0.pipes|), printed.out) && Prints(tables, Printed(k, |k0.pipes| + 1), printed.err)
  }

  /** A test whose program ran to its end printed the reports; no other test counts as printing any. */
  ghost predicate TestPrints(tables: Tables, timeout: int, source: Batch.Source, test: Batch.TestResult,
                             printed: Streams) {
    if test.result.executed then exists k :: Completed(tables, timeout, source.kernel, k, test.result, printed)
    else printed == Streams([], [])
  }

  lemma TestIsFound(tables: Tables, words: EventWords, marks: CompilerArgs.SourceMarks, options: CliArgs.Options,
                    source: Batch.Source, test: Batch.TestResult, printed: Streams)
    requires GoodTables(tables) && Batch.FromRun(tables, words, marks, options, source, test)
    requires TestPrints(tables, options.timeout, source, test, printed)
    ensures PrintableStreams(tables, printed) && test.result.findings == StreamFindings(tables, printed)
  {
    var own := Batch.TestOptions(marks, options, source);
    if test.result.executed {
      var k :| Completed(tables, options.timeout, source.kernel, k, test.result, printed);
      CompletedIsFound(tables, words, own, source.kernel, k, test.result, printed);
    } else {
      NothingIsFound(tables, words, own, test.result);
    }
  }

  lemma CompletedIsFound(tables: Tables, words: EventWords, options: CliArgs.Options,
                         k0: Kernels.Kernel, k: Kernels.Kernel, result: AnalyzerResult, printed: Streams)
    requires GoodTables(tables) && Sound(tables, words, options, result) && result.executed
    requires Completed(tables, options.timeout, k0, k, result, printed)
    ensures PrintableStreams(tables, printed) && result.findings == StreamFindings(tables, printed)
  {
    ReportsAreFound(tables, words, options, k0, k, result, printed.out, printed.err);
  }

  lemma NothingIsFound(tables: Tables, words: EventWords, options: CliArgs.Options, result: AnalyzerResult)
    requires Sound(tables, words, options, result) && !result.executed
    ensures result.findings == []
  {
  }

  /** The findings of all reports of a batch, test by test. */
  function FindingsPrinted(tables: Tables, printed: seq<Streams>): seq<Finding>
    requires forall i :: 0 <= i < |printed| ==> PrintableStreams(tables, printed[i])
  {
    if printed == [] then []
    else FindingsPrinted(tables, printed[..|printed| - 1]) + StreamFindings(tables, printed[|printed| - 1])
  }

  /** A batch whose programs all ran to their end reports just what they printed, test by test. */
  lemma BatchReportsAreFound(tables: Tables, words: EventWords, marks: CompilerArgs.SourceMarks,
                             options: CliArgs.Options, sources: seq<Batch.Source>,
                             tests: seq<Batch.TestResult>, printed: seq<Streams>)
    requires GoodTables(tables) && |printed| == |tests|
    requires Batch.AllFromRuns(tables, words, marks, options, sources, tests)
    requires forall i :: 0 <= i < |tests| ==> TestPrints(tables, options.timeout, sources[i], tests[i], printed[i])
    ensures forall i :: 0 <= i < |printed| ==> PrintableStreams(tables, printed[i])
    ensures Batch.AllFindingsOf(tests) == FindingsPrinted(tables, printed)
  {
    forall i | 0 <= i < |tests|
      ensures PrintableStreams(tables, printed[i]) && tests[i].result.findings == StreamFindings(tables, printed[i])
    {
      assert Batch.RunRelation(tables, words, marks, options)(sources[i], tests[i]);
      TestIsFound(tables, words, marks, options, sources[i], tests[i], printed[i]);
    }
    TestByTest(tables, tests, printed);
  }

  lemma {:induction false} TestByTest(tables: Tables, tests: seq<Batch.TestResult>, printed: seq<Streams>)
    requires |printed| == |tests| && forall i :: 0 <= i < |printed| ==> PrintableStreams(tables, printed[i])
    requires forall i :: 0 <= i < |tests| ==> tests[i].result.findings == StreamFindings(tables, printed[i])
    ensures Batch.AllFindingsOf(tests) == FindingsPrinted(tables, printed)
    decreases |tests|
  {
    if tests != [] {
      TestByTest(tables, tests[..|tests| - 1], printed[..|tests| - 1]);
    }
  }

  // ---- Output that is cut ----

  /** However the run ended, and wherever its output was cut: what the whole captured lines of
      a stream report are the first reports printed on it, in order and one by one. */
  lemma CapturedReportsWerePrinted(tables: Tables, captured: string, printed: string, reports: seq<Report>)
    requires GoodTables(tables) && captured <= printed && Prints(tables, printed, reports)
    ensures var found, all := Parse(tables, WholeLines(Strip(captured))), LogFindings(tables, reports);
      && |found| <= |all|
      && (forall i :: 0 <= i < |found| ==> SameReport(found[i], all[i]))
      && (forall i :: 0 <= i < |found| - 1 ==> SamePlaces(found[i], all[i]))
  {
    KeptOutput(tables, captured, printed);
    ColouredLogRoundTrip(tables, printed, reports);
    assert After(tables, Strip(printed)).findings == LogFindings(tables, reports);
  }

  lemma WholeAlready(text: string)
    requires AtLineBoundary(text)
    ensures WholeLines(text) == text
  {
    assert AfterLast(text, '\n') == |text|;
  }

  /** The findings of the reports are the first of those found, in order, at the same places
      except possibly the last one's, whose report may go on. */
  predicate FoundFirst(tables: Tables, reports: seq<Report>, found: seq<Finding>)
    requires Printable(tables, reports)
  {
    var all := LogFindings(tables, reports);
    && |all| <= |found|
    && (forall i :: 0 <= i < |all| ==> SameReport(all[i], found[i]))
    && (forall i :: 0 <= i < |all| - 1 ==> SamePlaces(all[i], found[i]))
  }

  /** The stream begins with the whole lines of a log of the reports, whatever follows. */
  ghost predicate Begins(tables: Tables, text: string, head: string, reports: seq<Report>) {
    head <= text && AtLineBoundary(Strip(head)) && Prints(tables, head, reports)
  }

  /** Reports in whole lines at the head of a captured text are found, whatever follows them
      and wherever it is cut. */
  lemma HeadIsFound(tables: Tables, captured: string, head: string, reports: seq<Report>)
    requires GoodTables(tables) && Begins(tables, captured, head, reports)
    ensures FoundFirst(tables, reports, FindingsOf(tables, captured))
  {
    KeptOutput(tables, head, captured);
    WholeAlready(Strip(head));
    ColouredLogRoundTrip(tables, head, reports);
    assert After(tables, Strip(head)).findings == LogFindings(tables, reports);
    assert After(tables, Strip(captured)).findings == FindingsOf(tables, captured);
  }

  /** After a run that was killed and read without failures: the reports a stream held in whole
      lines before the kill are the first of its findings, whatever was printed after them. */
  lemma KilledReportsAreFound(tables: Tables, timeout: int, k0: Kernels.Kernel, k: Kernels.Kernel,
                              result: AnalyzerResult, i: nat,
                              outHead: string, out: seq<Report>, errHead: string, err: seq<Report>)
    requires GoodTables(tables) && Kernels.Sane(k0)
    requires Ran(timeout, k0, k, result) && result.timedOut && !ReadTrouble(k, |k0.log|)
    requires |k0.log| <= i < |k.log| && k.log[i].GroupKilled? && |k0.pipes| + 1 < |k.log[i].printed|
    requires Begins(tables, PrintedBeforeKill(k, i, |k0.pipes|), outHead, out)
    requires Begins(tables, PrintedBeforeKill(k, i, |k0.pipes| + 1), errHead, err)
    ensures FoundFirst(tables, out, FindingsOf(tables, result.stdoutText))
    ensures FoundFirst(tables, err, FindingsOf(tables, result.stderrText))
  {
    HeldAtKill(timeout, k0, k, result, i);
    HeadIsFound(tables, result.stdoutText, outHead, out);
    HeadIsFound(tables, result.stderrText, errHead, err);
  }

  /** A timeout that is accepted and never ends a run: the program is not killed, however late. */
  lemma OverlongTimeoutNeverKills(c: CliArgs.Config, k0: Kernels.Kernel, end: Outcome)
    requires Kernels.Sane(k0)
    requires var args := [CliArgs.Spelling(CliArgs.TimeoutLong), Dec(9223372036854776)];
      var read := CliArgs.ReadOptions(CliArgs.Spelling, c, args);
      read.Some? && RunIs(read.value.options.timeout, k0, end)
    ensures !end.result.timedOut && NoKill(end.kernel.log, |k0.log|)
  {
    CliArgs.SpellingIsGood();
    CliArgs.OverlongTimeoutAccepted(CliArgs.Spelling, c);
    RunSafe(-9223372036854775616, k0, end);
  }

  // ---- At the analyzer's own tables ----

  /** The rule and the CWE of a bounds report. */
  lemma AnalyzerBounds(report: Report)
    requires report.Bounds? && report.rule < 3
    ensures |TABLES.bounds| == 3
    ensures var finding := Expected(TABLES, report)[0];
      && finding.rule == ["heap-buffer-overflow", "stack-buffer-overflow", "heap-use-after-free"][report.rule]
      && finding.cwe == (if report.write then ["CWE-122", "CWE-121", "CWE-416"]
                         else ["CWE-125", "CWE-125", "CWE-416"])[report.rule]
      && finding.severity == Error
  {
  }

  /** The rule, the CWE and the severity of a vtable box, by the most specific of its warnings. */
  lemma AnalyzerWarnings(warnings: seq<string>)
    ensures var rule := Ranked(TABLES.vtable, warnings);
      (rule.rule, rule.cwe, rule.severity)
        == if SomeStartsWith(warnings, "null this pointer") then ("vtable-null-this", "CWE-476", Error)
           else if SomeStartsWith(warnings, "vptr on freed object") then ("vtable-use-after-free", "CWE-416", Error)
           else if SomeStartsWith(warnings, "vtable resolve failed") then ("vtable-corrupted", "CWE-843", Error)
           else if SomeStartsWith(warnings, "no vptr") then ("vtable-corrupted", "CWE-843", Error)
           else if SomeStartsWith(warnings, "target in non-exec memory") then ("vcall-invalid-target", "CWE-843", Error)
           else if SomeStartsWith(warnings, "static!=dynamic type") then ("vtable-type-mismatch", "CWE-843", Warning)
           else if SomeStartsWith(warnings, "module mismatch: ") then ("vtable-type-mismatch", "CWE-843", Warning)
           else ("vtable-diagnostic", "CWE-843", Warning)
  {
    var table := TABLES.vtable;
    assert |table| == 8 && table[0..] == table;
    RankedNext(table, warnings, 0);
    RankedNext(table, warnings, 1);
    RankedNext(table, warnings, 2);
    RankedNext(table, warnings, 3);
    RankedNext(table, warnings, 4);
    RankedNext(table, warnings, 5);
    RankedNext(table, warnings, 6);
    RankedNext(table, warnings, 7);
  }

  lemma RankedNext(table: seq<VtableRule>, warnings: seq<string>, k: nat)
    requires k < |table|
    ensures Ranked(table[k..], warnings)
      == if SomeStartsWith(warnings, table[k].warning) then table[k] else Ranked(table[k + 1..], warnings)
  {
    assert table[k..][1..] == table[k + 1..];
  }

  /** Read with the analyzer's tables, a complete run reports just what was printed. */
  lemma AnalyzerFindsReports(options: CliArgs.Options, k0: Kernels.Kernel, k: Kernels.Kernel,
                             result: AnalyzerResult, out: seq<Report>, err: seq<Report>)
    requires result.compileSuccess && options.runProgram && result.executed && Kernels.Sane(k0)
    requires Sound(TABLES, WORDS, options, result) && Ran(options.timeout, k0, k, result)
    requires !result.timedOut && !ReadFailure(k, |k0.log|)
    requires Prints(TABLES, Printed(k, |k0.pipes|), out) && Prints(TABLES, Printed(k, |k0.pipes| + 1), err)
    ensures result.findings == LogFindings(TABLES, out) + LogFindings(TABLES, err)
  {
    AnalyzerTablesAreGood();
    ReportsAreFound(TABLES, WORDS, options, k0, k, result, out, err);
  }

  /** With the analyzer's tables, words and marks: a batch's findings are within its summary,
      and its counters account for its tests. */
  lemma AnalyzerBatch(options: CliArgs.Options, sources: seq<Batch.Source>, tests: seq<Batch.TestResult>,
                      diagnostics: string)
    requires Batch.AllFromRuns(TABLES, WORDS, CompilerArgs.MARKS, options, sources, tests)
    ensures var batch := Batch.BatchOf(options, tests, diagnostics);
      && WithinCounts(Batch.AllFindingsOf(tests), batch.summary)
      && batch.compileFailures + batch.timeouts + batch.runtimeFailures <= |tests|
  {
    AnalyzerAgrees();
    AnalyzerLeaks();
    Batch.BatchIsSound(TABLES, WORDS, CompilerArgs.MARKS, options, sources, tests, diagnostics);
  }

  /** And its log is valid. */
  lemma AnalyzerLog(options: CliArgs.Options, sources: seq<Batch.Source>, tests: seq<Batch.TestResult>, log: Sarif.Log)
    requires Batch.AllFromRuns(TABLES, WORDS, CompilerArgs.MARKS, options, sources, tests)
    requires Sarif.LogOf(CATALOGUE, Batch.AllFindingsOf(tests), log)
    ensures forall i :: 0 <= i < |log.results| ==> Sarif.ValidResult(log.results[i], log.rules)
  {
    Sarif.BatchLogIsValid(WORDS, CompilerArgs.MARKS, options, sources, tests, log);
  }
}
