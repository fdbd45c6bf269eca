# Verified model of the runtime analyzer's pipeline

`runtime-analyzer` compiles a program with instrumentation, runs it, captures its two output
streams, and turns raw text into findings, counts and a verdict. This project models that pipeline
in Dafny, from the bytes a program writes to the SARIF log and the exit status, and proves what each
stage promises over every input and every run.

The stages, in the order of a run:

- **Arguments** (`CliArgs`, `AcceptedArgs`, `CompilerArgs`, `Paths`, `ArtifactNames`): the option
  parser as a loop over `argv` proved equal to a fold of settings, exactly what it accepts and
  refuses, the compiler arguments derived from them, and the names of batch artifacts with their
  64-bit FNV-1a hash (section 2 of draft-eastlake-fnv).
- **Process runner** (`Kernels`, `ProcessSpec`, `ProcessSafety`, `ProcessRunner`, `ScriptedRuns`):
  the parent's side of a run against an explicit state of pipes, descriptors, clock and child. The
  environment is a finite script of writes, closed ends, clock steps, interrupts, failures and deaths
  in any order; nothing is assumed of it, so a theorem about a run holds over every interleaving and
  every partial read. `ProcessSpec` says what the loops compute, `ProcessRunner` computes it,
  `ProcessSafety` proves what every run keeps, and `ScriptedRuns` gives runs that show its limits.
  `returned` is false when the script ends with the parent still inside a system call, and
  `ProcessSafety.Stuck` says in which.
- **Event counter** (`Events`): the stripping of ANSI sequences (section 5.4 of ECMA-48), the lines
  of a stream, and the summary.
- **Report parser** (`Text`, `Sites`, `Fields`, `Rules`, `DiagnosticBoxes`, `ReportParser`): the loop
  over byte offsets with its three modes, proved equal to a fold over lines.
- **Theorems about the parser**: composition, stability under truncation and well-formed findings
  (`Streaming`), a printer of the runtime's reports with the full print/parse round trip
  (`BoxWrapping`, `Phrases`, `RenderedLog`), and agreement with the counters (`CrossPass`).
- **Driver** (`Discovery`, `Analyzer`, `Batch`, `Sarif`, `EndToEnd`): a run, a batch, the log, and
  the theorems of all stages joined into one statement about what was printed.

Text is a sequence of bytes: a `char` stands for one byte, and the box characters are spelled as
their three UTF-8 bytes, so that a row's opening "│ " and closing " │" can overlap as they do in the
program. The theorems hold for any `char`, bytes or not. The rule tables, the event words and the
option spellings are parameters of most theorems, which then hold for any tables; lemmas instantiate
them with the program's own (`TABLES`, `WORDS`, `Spelling`, `CATALOGUE`).

The compiler is any function from arguments to success and diagnostics. What comes from the file
system (a source's text, its relative path, the list of sources, a failed directory creation) is an
input.

## Where the code and its documentation differ

The model follows the code.

- The repository's `README.md:198` says that each run is bounded by `--timeout`. The code does not give that.
  `ScriptedRuns.LateRun` gives runs that end any time after their deadline without a kill.
  `ProcessSafety.RunSafe` says what the code does give: a run times out exactly when a `select`
  passes its wait, and with a timeout and non-blocking pipes the only call that may never return is
  `waitpid`, on a child no kill reached. The exact conditions are these. A
  turn of the loop that begins at or after the deadline ends the capture if and only if its `select`
  does not fail and no open stream can be read (`ProcessSafety.DeadlineEndsCapture`). The reaping
  then ends if and only if the child is dead, or its end or a failure of `waitpid` is still to come
  (`ProcessSafety.ReapingEnds`), and `ProcessSafety.RunReturns` joins the two into exactly which
  runs return.
- An accepted `--timeout` can be no deadline at all: `CliArgs.MillisecondsExact` says which seconds
  survive the conversion to milliseconds, `CliArgs.OverlongTimeoutAccepted` gives the first that does
  not, and `EndToEnd.OverlongTimeoutNeverKills` says that no run under it is ever killed.
- Its `README.md:200` says that the output captured so far is still parsed after a timeout. That holds if
  and only if the child could be reaped (`Analyzer.TimedOutIsParsed`);
  `Analyzer.UnreapedIsNotParsed` gives runs with a report captured and none parsed. When it is
  parsed, it is faithful up to the last whole line (`Analyzer.RunIsFaithful`).
- A status label can contradict the batch counters: `Batch.LabelMeaning` says exactly when, and
  `Batch.LabelsCanDisagree` gives a run.
- Stripping twice is not stripping once: `Events.StripNotIdempotent` gives the text, and
  `Events.StripTwice` the condition.
- Dropping `--instrument` can change which path an output argument names: `CompilerArgs.DropKeepsPath`
  says exactly when, and `CompilerArgs.InstrumentTakenForPath` gives the arguments.
- A site without a column is misread when its file ends in a colon and a number:
  `Sites.SiteRoundTripNoColumn` says exactly when, and `Sites.NumberedFileMisread` gives one.

## Model

| member | source | states |
|---|---|---|
| EndToEnd.ReportsAreFound | src/runtime_analyzer.cpp:300-346 | a program that prints a log of reports, in any colours and on both streams, with or without a newline at the end, and ends with its capture complete gets just the findings those reports stand for, in order, and the verdict says whether there are any |
| EndToEnd.BatchReportsAreFound | src/runtime_analyzer.cpp:196-206 | when every program of a batch that ran was captured completely, all findings of the batch are those of the printed reports, test by test and stdout first; a test that did not run adds none |
| EndToEnd.CapturedReportsWerePrinted | src/process.cpp:217-231 | however the run ended and wherever its output was cut, what the whole captured lines report are the first reports printed, one by one, with their places except possibly the last one's |
| EndToEnd.KilledReportsAreFound | src/process.cpp:217-231 | of a killed run read without failures, the reports each stream held in whole lines before the kill are its first findings, in order and with their places except possibly the last one's, whatever was printed after them and wherever that was cut |
| EndToEnd.HeadIsFound | src/findings.cpp:339-415 | reports in whole lines at the head of any text are its first findings, whatever follows them |
| EndToEnd.OverlongTimeoutNeverKills | src/process.cpp:172-176 | no run under an accepted timeout of 9223372036854776 seconds is killed or times out |
| EndToEnd.ColouredLogRoundTrip | src/runtime_analyzer.cpp:337-342 | reading a coloured log yields the findings of its reports |
| EndToEnd.AnalyzerFindsReports | src/findings.cpp:90-94 | with the analyzer's own tables, a complete run reports just what was printed |
| EndToEnd.AnalyzerBounds | src/findings.cpp:90-94 | the rule, the CWE by access and the severity of each of the analyzer's bounds reports |
| EndToEnd.AnalyzerWarnings | src/findings.cpp:169-182 | the rule, the CWE and the severity of a box, by the most specific of its warnings |
| EndToEnd.AnalyzerBatch | src/runtime_analyzer.cpp:378-426 | with the analyzer's own tables, words and marks, the findings of a batch are within its summary and its counters within its tests |
| EndToEnd.AnalyzerLog | src/sarif.cpp:76-88 | and every result of its log is valid |
| RenderedLog.LogRoundTrip | src/findings.cpp:339-415 | for every sequence of bounds reports, double frees, leaks, boxes and noise that meets the grammar, parsing the printed text yields their findings in order, with rule, CWE, severity, message, location and allocation, whether or not the last line ends in a newline |
| RenderedLog.GoodIsPrintable | src/findings.cpp:90-94 | every log that meets the grammar can be printed: its bounds reports name rules of the table |
| RenderedLog.OneFindingPerReport | src/findings.cpp:339-415 | a report stands for exactly one finding unless it is noise or a box none of whose printed warnings says anything |
| RenderedLog.ReadBounds | unittests/findings_test.cpp:28-32 | a bounds report in the runtime's format is read to its finding and leaves the report open for details, from any state without an open box |
| RenderedLog.ReadDoubleFree | unittests/findings_test.cpp:121-122 | a printed double free is read to its finding, and not as a leak or a bounds report |
| RenderedLog.ReadLeak | unittests/findings_test.cpp:140-140 | a printed leak is read to a warning with its size and allocation site, and no location |
| RenderedLog.LeakWithoutSize | src/findings.cpp:402-410 | a leak line without a size is a memory leak, CWE-401, with the message "memory leak" alone |
| RenderedLog.ReadBox | unittests/findings_test.cpp:167-176 | a printed WARN box is read to the finding of its label/value list, wrapped values included |
| RenderedLog.BoxIsExpected | src/findings.cpp:231-271 | the finding of a box by what was printed in it: located at its last site, with no allocation, its message the warnings from the first that says something on, joined by "; ", and its rule the first of the table that any warning starts with, or vtable-diagnostic, CWE-843 and a warning when none does |
| RenderedLog.BoxIsAtItsSite | src/findings.cpp:237-241 | a box whose last site is printed is found at the location that site means |
| RenderedLog.LaterSitesReplace | src/findings.cpp:379-390 | further lines of a bounds report that name sites replace the places known, even by nothing, and leave the rest of the finding |
| RenderedLog.AnalyzerTablesAreGood | src/findings.cpp:90-94 | the analyzer's own bounds rules meet the grammar's conditions |
| BoxWrapping.BoxRoundTrip | src/findings.cpp:201-229 | values split into chunks without edge spaces, printed under their label and then under blank labels with any padding, are read back as the label/value list, colons included |
| BoxWrapping.RowOfPrinted | src/findings.cpp:203-220 | one printed row is read back as its label and value, wherever its prefix ends |
| DiagnosticBoxes.DiagnosticBox.AddRow | src/findings.cpp:201-229 | the rows become those after the line: unchanged, the last value extended, or one more row |
| DiagnosticBoxes.DiagnosticBox.ToFinding | src/findings.cpp:231-271 | the accumulating loop gives the finding of the rows: most specific rule, joined message, last site |
| DiagnosticBoxes.MatchWarning | src/findings.cpp:251-260 | the inner loop finds the first table entry that is a prefix of the value |
| DiagnosticBoxes.MostSpecificIsMinimum | src/findings.cpp:249-262 | the chosen entry is the least index over all pairs of a warning and a prefix it starts with |
| DiagnosticBoxes.WarningOrderIrrelevant | src/findings.cpp:159-182 | rule, CWE and severity do not depend on the order of the warnings |
| DiagnosticBoxes.MoreWarningsMoreSpecific | src/findings.cpp:159-160 | adding warnings never makes the rule less specific |
| DiagnosticBoxes.BoxFindingExists | src/findings.cpp:263-266 | a box is a finding if and only if some warning value is nonempty |
| ReportParser.ParseFindings | src/findings.cpp:339-415 | the loop over byte offsets with its open box and report flag gives the fold of one step over the lines |
| ReportParser.ReadLine | src/findings.cpp:355-412 | one line changes findings, report flag and box as the step of the fold does |
| ReportParser.AddDetails | src/findings.cpp:379-390 | an indented line overwrites the location and the allocation with the fields it has, even by nothing |
| ReportParser.ReadReport | src/findings.cpp:398-412 | a double free is recognised before a leak, and a leak's message holds its size if there is one |
| Streaming.ParseConcat | src/findings.cpp:341-396 | when the first text ends at a line boundary with no open box, and no report its continuation could extend, the findings of the whole are those of the parts |
| Streaming.RunConcat | src/findings.cpp:345-413 | the state after some lines is all that reading further lines depends on |
| Streaming.CutAtLine | src/findings.cpp:345-413 | the findings of a text cut at a line boundary agree with the first of the whole on rule, CWE, severity and message, and on places except the last one's while its report is open |
| Streaming.CutAnywhere | src/findings.cpp:345-413 | cut inside a line, the whole lines' findings still survive in both texts, and the cut line adds at most one |
| Streaming.OpenReportIsBounds | src/findings.cpp:379-397 | after any text, an open bounds report has no open box beside it, and the last finding, to which its further lines are added, is one a bounds rule gives |
| Streaming.ParseWellFormed | src/findings.cpp:285-324 | from any text: a finding's rule, CWE and severity agree with the tables, its message is not empty, and its places have a file and a line from 1 |
| Streaming.TablesAreCatalogued | src/findings.cpp:68-80 | every rule of the analyzer's tables is in the catalogue |
| Rules.DescribeInMeaning | src/findings.cpp:327-337 | a rule has a description exactly when the catalogue holds it |
| Rules.ConfidenceMeaning | src/findings.cpp:20-66 | the confidence is high for the nine rules of a fault observed, medium for a type mismatch and low for a vtable report without a more specific rule |
| Fields.Field | src/findings.cpp:98-113 | the find-and-retry loop returns the value at the first occurrence of the key that starts a field |
| Fields.FieldIsLookup | src/findings.cpp:96-97 | for a key without space or equals sign, that is the remainder of the first space-separated token that starts with the key and an equals sign, or nothing when there is none |
| Fields.FieldConcat | src/findings.cpp:98-113 | a field of two texts joined at a space is the first one's, or else the second's |
| Sites.TakeNumber | src/findings.cpp:115-132 | a number is taken exactly when the site ends in a colon and a spelling of a 32-bit value, and then that suffix is removed; otherwise the site is unchanged, whatever partial value was written |
| Sites.ParseSite | src/findings.cpp:134-157 | the parser with its overwritten locals gives the location the site names |
| Sites.SiteRoundTrip | src/findings.cpp:134-157 | file, line and column printed and parsed are the same, for every nonempty file, line from 1 and column below 2^32 |
| Sites.SiteRoundTripNoColumn | src/findings.cpp:143-150 | without a column this holds if and only if the file does not itself end in a colon and an in-range number |
| Sites.NumberedFileMisread | src/findings.cpp:143-150 | a file it fails for |
| Sites.SiteMeaning | src/findings.cpp:151-156 | a location is the result exactly when the site spells it and no further number could be taken; it then has a file and a line from 1 |
| Events.StripAnsi | src/events.cpp:63-82 | the loop with its moving index gives the text without its control sequences |
| Events.StripColoured | src/events.cpp:63-82 | text segments interleaved with sequences of an escape, a bracket, bytes that are no letters and one from A to Z or a to z are stripped to the segments |
| Events.StripUnfinished | src/events.cpp:69-77 | a sequence without its final letter takes the rest of the text with it |
| Events.StripSubsequence | src/events.cpp:63-82 | stripping only leaves bytes out |
| Events.StripPrefix | src/events.cpp:63-82 | stripping what precedes a cut gives a prefix of the whole stripped, unless the cut splits an introducer |
| Events.StripFixed | src/events.cpp:69-69 | a text is left alone if and only if it holds no introducer |
| Events.StripTwice | src/events.cpp:63-82 | stripping twice is stripping once if and only if no escape of the text outside sequences is followed, once whole sequences are skipped, by a bracket |
| Events.StripNotIdempotent | src/events.cpp:63-82 | a text whose stripping leaves an introducer |
| Events.Getline | src/events.cpp:90-90 | one `std::getline` takes the first of the remaining lines, or finds none |
| Events.GetLinesIsLines | src/events.cpp:88-90 | the lines of the stream are the lines the report parser sees |
| Events.UpdateSummary | src/events.cpp:25-60 | each counter goes up by one exactly when the line mentions one of its words |
| Events.CollectEvents | src/events.cpp:84-102 | the summary is the sum over the stripped lines, and the event lines are appended in order |
| Events.SummarizeConcat | src/events.cpp:104-117 | summaries of two lists of lines merge to the summary of both |
| Events.MergeLaws | src/events.cpp:104-117 | merging is associative and commutative with a neutral summary |
| Events.CountersFit | src/events.cpp:25-60 | every counter is at most the number of event lines, that at most the number of lines, and leak reports at most allocation events, so that no 64-bit counter wraps |
| Events.CountsMeaning | src/events.cpp:16-60 | which words each of the analyzer's nine counters counts, for every line |
| CrossPass.FindingsWithinCounts | src/findings.cpp:344-413 | for every text: memory-leak findings number at most the leak reports, and heap bounds findings at most the bounds errors, of the other pass |
| CrossPass.AnalyzerAgrees | src/events.cpp:16-60 | the analyzer's own tables and words are related as that needs |
| CrossPass.NamedMeaning | src/findings.cpp:344-413 | the findings counted are those with one of the rules: none, or all of them, exactly when none or all have one |
| ProcessRunner.RunProcess | src/process.cpp:84-276 | the run has the outcome its loops compute, turn by turn; over every script of events that outcome is safe for the descriptors, the texts, the deadline, the error and the status; and when it does not return, the parent is in one of three calls |
| ProcessSafety.RunSafe | src/process.cpp:84-276 | of every outcome: no descriptor is used after its close and all are given back; each text is a prefix of what was written to its pipe, and all of it after an end of file without errors; timed out exactly when a `select` passed its wait, and then killed once, after a wait for just the time left, with all kept that was printed before the kill; the error is the text of the last failed call and empty exactly when none failed; the exit code is the status's; not returning means a `waitpid` on a child that no kill reached, with both streams closed, or, without `O_NONBLOCK` or without a timeout, a read or a `select` |
| ProcessSafety.ExitCodeMeaning | src/process.cpp:263-274 | of every run that ends without an error: the exit code is 0 exactly when the program exited with 0, its own code when it exited, 128 and the signal's number when a signal ended it, else 1; and 137 when it was still running at the kill |
| ProcessSafety.PassesMeaning | src/process.cpp:180-241 | what the loop keeps between any two turns, and what it leaves: the captured texts, the open ends, the log and the deadline |
| ProcessSafety.PassMeaning | src/process.cpp:180-241 | one turn keeps that, or leaves the loop, and uses up script, or unread bytes and open pipes, so that the loop ends |
| ProcessSafety.AppendMeaning | src/process.cpp:51-80 | reads append what the pipe held, in order, until it is empty, ended or failed; it is closed in the last two cases only; a non-blocking descriptor always returns |
| ProcessSafety.ExpireMeaning | src/process.cpp:217-231 | after the deadline's kill the log shows the clock, the wait for just the time left and the kill, and the texts hold what was printed before it |
| ProcessSafety.RestDrains | src/process.cpp:222-229 | reading what is open takes all that both pipes held before, unless a read failed |
| ProcessSafety.SetupMeaning | src/process.cpp:86-169 | each error path gives back the descriptors it opened and logs the failed call; the good path holds the two read ends, on empty pipes |
| ProcessSafety.ReapMeaning | src/process.cpp:252-260 | `waitpid` is repeated after interrupts only; it never returns only for a child that still runs |
| ProcessSafety.FinishMeaning | src/process.cpp:243-275 | what is open is closed, the texts stay, and without an earlier error there is one exactly when the child was not reaped |
| ProcessSafety.ErrorAfterMeaning | src/process.cpp:91-258 | an error is reported exactly when a logged call failed |
| ProcessSafety.RemainingSplit | src/process.cpp:200-203 | the time left is split into seconds and 0 to 999999 microseconds, losing less than a microsecond |
| ProcessSafety.ReadMeaning | src/process.cpp:56-56 | what one `read` does to the pipe, the log and the script, for every script |
| ProcessSafety.SelectMeaning | src/process.cpp:207-207 | what `select` returns: only readable descriptors, or a timeout only after the wait has passed; with a wait it always returns |
| ProcessSafety.DeadlineEndsCapture | src/process.cpp:195-231 | a turn of the loop that begins at or after the deadline ends the capture with a timeout if and only if its `select` does not fail and no open stream is readable once the environment has run |
| ProcessSafety.DeadlineNeedsSilence | src/process.cpp:207-217 | that of the one `select` call with no time left |
| ProcessSafety.ReapingEnds | src/process.cpp:252-260 | the reaping of a running child ends if and only if the environment still holds its end or a failure of `waitpid` other than an interrupt |
| ProcessSafety.FinishReturns | src/process.cpp:243-260 | a run whose loop was left returns if and only if the child is dead or that is so, once both streams are closed |
| ProcessSafety.RunReturns | src/process.cpp:84-276 | exactly which runs return: those whose setup failed, and those whose capture ended with such a child |
| ProcessSafety.ReadyWinsOverDeadline | src/process.cpp:207-207 | a call that does not fail reports all readable descriptors however little time is left |
| ProcessSpec.RunUnique | src/process.cpp:180-241 | a run has one outcome, however many turns are looked at |
| ScriptedRuns.LateRun | src/process.cpp:200-260 | for every timeout, any number of turns and any lengths of time there is a run whose program prints a byte in each of the turns, each that long, then ends its streams, and ends after that; it is read to its end, not killed, and reports no timeout |
| ScriptedRuns.UnreapedRun | src/process.cpp:217-258 | for every timeout and any text of one buffer there is a run that is killed at its deadline with the text captured, and then fails in `waitpid` |
| ScriptedRuns.UnselectedRun | src/process.cpp:208-275 | for every timeout there is a run whose `select` fails and whose exit code is 0 |
| Analyzer.Run | src/runtime_analyzer.cpp:259-346 | a run is refused for just the two reasons; else it compiles with the built arguments to the reported path; the result holds what both streams say, stdout first, or nothing when the process failed; the texts, the timeout and the exit code are those of the process; the diagnostics are the compiler's, then a notice exactly after a timeout, then the text of the last call that failed |
| Analyzer.ReadOutput | src/runtime_analyzer.cpp:324-345 | events, summary and findings of both streams, and success exactly on exit code 0 |
| Analyzer.EventsInOrder | src/runtime_analyzer.cpp:324-332 | the event lines of stdout come first, and then those of stderr |
| Analyzer.RunWithinCounts | src/runtime_analyzer.cpp:324-342 | the cross-pass bounds and the counter bounds hold of every result, summed over both streams |
| Analyzer.FindingsWellFormed | src/runtime_analyzer.cpp:337-342 | every finding of a result is well formed |
| Analyzer.RunIsFaithful | src/runtime_analyzer.cpp:300-342 | after any run, killed or not, the findings of the captured whole lines are those of the full output up to an open report's places, and exactly all when the capture is complete |
| Analyzer.KeptOutput | src/process.cpp:219-229 | the same for a text captured as any prefix of what was printed |
| Analyzer.RanMeaning | src/runtime_analyzer.cpp:300-322 | what the process's outcome says of a result: prefixes or all of what was printed, one kill at the deadline or none, executed exactly when no call failed, and after a timeout exactly when the child was reaped |
| Analyzer.SuccessMeaning | src/runtime_analyzer.cpp:305-344 | a run of the binary succeeds if and only if no call failed and the program exited with 0: never after a signal, and with exit code 137 after a kill that found it running |
| Analyzer.RefusedRuns | src/runtime_analyzer.cpp:262-280 | a run is refused if and only if an argument stops before linking and the program is to be run, or an output is named on both sides; the first reason goes first |
| Analyzer.NoticeMeaning | src/runtime_analyzer.cpp:308-313 | the notice of a timeout names its whole seconds |
| Analyzer.TimedOutIsParsed | src/runtime_analyzer.cpp:308-342 | the output kept at a timeout is parsed if and only if the child could be reaped; else the result holds nothing |
| Analyzer.UnreapedIsNotParsed | src/runtime_analyzer.cpp:314-322 | for every timeout there is a run killed at its deadline with a double free in its captured output and no finding |
| Analyzer.KilledRunIsFaithful | src/process.cpp:219-229 | of a killed run read without failures, what each stream held at the kill is captured, and reading the captured text is faithful to it |
| Analyzer.WholeLinesSurvive | src/events.cpp:63-82 | wherever the output is cut, inside a control sequence too, the stripped whole lines are a prefix of the whole output stripped |
| CliArgs.ParseArgs | src/cli_args.cpp:224-414 | the loop over `argv`, with its forwarding mode, gives the fold of settings, help, version or the error of the first bad option |
| CliArgs.RefusalsSayWhy | src/cli_args.cpp:253-411 | arguments are refused exactly when there is a message that says why |
| AcceptedArgs.OptionMeaning | src/cli_args.cpp:253-399 | an option is accepted if and only if the arguments spell it: by its name, and where it takes one with the next argument as its value, or as one of the joined forms |
| AcceptedArgs.TimeoutMeaning | src/cli_args.cpp:319-335 | a timeout is accepted if and only if its value is, to the last byte, blanks, a sign or none, and digits whose value is the seconds, within 64 bits and not negative |
| AcceptedArgs.AssignsMeaning | src/cli_args.cpp:44-48 | an assignment has an equals sign, and not in front |
| AcceptedArgs.StopMeaning | src/cli_args.cpp:232-252 | which arguments end the options, ask for help, or ask for the version, and no others |
| AcceptedArgs.HelpMeaning | src/cli_args.cpp:243-252 | and the result says which of the two was asked for |
| AcceptedArgs.AcceptedIsSpelt | src/cli_args.cpp:224-414 | every accepted command line consists of spelled options, and then nothing or "--" and what is forwarded; its result is the settings applied in order; without anything forwarded it has a test directory |
| AcceptedArgs.RefusalMeaning | src/cli_args.cpp:253-403 | the message of every refused option, by its name and by whether a value follows; any other argument is an unknown option |
| AcceptedArgs.NothingToDo | src/cli_args.cpp:406-411 | once the options are over, the arguments are refused if and only if nothing is forwarded and there is no test directory |
| AcceptedArgs.DefaultsMeaning | include/runtime_analyzer.hpp:12-29 | without options: the documented output file and artifact directory, 60 seconds, and the program is run and its streams not shown |
| CliArgs.OptionsRoundTrip | src/cli_args.cpp:224-414 | rendering any valid options, "--" and compiler arguments parses back to the same options, for timeouts up to (2^63-1)/1000 seconds |
| CliArgs.AnalyzerOptionsRoundTrip | src/cli_args.cpp:224-414 | the same with the option names of the analyzer |
| CliArgs.ReadRendered | src/cli_args.cpp:238-403 | each option in each of its spellings is read back with exactly its arguments |
| CliArgs.ParseRendered | src/cli_args.cpp:229-404 | printed options are applied in order, and reading goes on after them |
| CliArgs.ForwardsVerbatim | src/cli_args.cpp:232-242 | after any accepted options, however spelled, everything behind the first "--" in option position is forwarded unchanged, further "--" included |
| CliArgs.ReadsRendered | src/cli_args.cpp:238-403 | printed options are accepted, and give the configuration they stand for |
| CliArgs.SignedTimeoutAccepted | src/cli_args.cpp:319-336 | a signed number of seconds, which is never printed, is accepted too |
| CliArgs.TimeoutAccepted | src/cli_args.cpp:311-336 | every timeout of up to 2^63-1 seconds is accepted |
| CliArgs.OverlongTimeoutAccepted | src/cli_args.cpp:335-335 | one that is accepted and gives a negative number of milliseconds |
| CliArgs.SwapOptions | src/cli_args.cpp:253-399 | swapping neighbouring options of different kinds changes nothing |
| CliArgs.LastWins | src/cli_args.cpp:261-262 | a scalar option given again anywhere later replaces the earlier value, whatever options are before, between and after |
| CliArgs.RepeatedKeepOrder | src/cli_args.cpp:279-346 | whatever the options and their order, program arguments, assignments and directories are all kept in the order they were given |
| CliArgs.ApplySettings | src/cli_args.cpp:224-414 | every valid configuration is what some list of options gives |
| CliArgs.SecondsOfDec | src/cli_args.cpp:319-335 | a decimal number of seconds within 64 bits is consumed whole and read as itself |
| CliArgs.MillisecondsExact | src/cli_args.cpp:335-335 | the conversion to milliseconds is exact if and only if the seconds are at most (2^63-1)/1000 |
| CompilerArgs.BuildCompilerArguments | src/cli_args.cpp:160-186 | the output argument found in the result is present with just the reported path, and the path is the analyzer's own when the user gave the compiler none |
| CompilerArgs.FindOutputArgument | src/cli_args.cpp:129-158 | the loop finds the first argument that names an output, in any of its four forms |
| CompilerArgs.FirstOutputMeaning | src/cli_args.cpp:132-156 | no argument before it names an output |
| CompilerArgs.OutputMeaning | src/cli_args.cpp:129-158 | behind arguments that name no output, the path is the next argument after "-o" or "--output", or what is joined to "-o=" or "--output="; none at the very end; and no output without one of the four |
| CompilerArgs.DropKeepsPresence | src/runtime_analyzer.cpp:270-281 | dropping "--instrument" never changes whether an output is named, so the check for a second one is sound |
| CompilerArgs.InstrumentNeverMatters | src/cli_args.cpp:165-172 | arguments that differ in instances of "--instrument" only agree on whether an output is named |
| CompilerArgs.DropKeepsPath | src/cli_args.cpp:165-178 | dropping also keeps the path if and only if "--instrument" does not stand where that path is expected |
| CompilerArgs.InstrumentTakenForPath | src/cli_args.cpp:135-142 | arguments whose path dropping changes |
| CompilerArgs.DroppedKeepsTheRest | src/cli_args.cpp:165-172 | every other argument is kept as often as it was there |
| CompilerArgs.HasLanguageOverride | src/cli_args.cpp:77-91 | a language is chosen exactly when an argument starts with "-x", even the last one |
| CompilerArgs.HasCompileOnlyAction | src/cli_args.cpp:72-75 | the scan finds exactly whether an argument is one of the six compile-only flags |
| CompilerArgs.AddPerSourceCompatibilityArgs | src/cli_args.cpp:112-127 | what the source needs and the arguments lack is appended, and nothing else changes |
| CompilerArgs.CompatibilityMeaning | src/cli_args.cpp:93-127 | what the analyzer adds, by the source's extension, the words of its text and the arguments that are there |
| CompilerArgs.CompatibilityIsIdempotent | src/cli_args.cpp:112-127 | after one pass a source has what it needs, and a second pass over the same text adds nothing |
| CompilerArgs.AddedArgumentsNameNoOutput | src/runtime_analyzer.cpp:385-387 | what batch mode adds names no output, except a source path that itself reads like one |
| Paths.ExtensionSplits | src/cli_args.cpp:218-219 | removing the extension removes just a suffix |
| Paths.ExtensionIsFromDot | src/cli_args.cpp:218-219 | a file name with something before its last dot has the extension from that dot on, wherever the file is |
| Paths.NoExtension | src/cli_args.cpp:218-219 | any other name, without a dot, with only one in front, or "..", has none |
| Paths.FileNameInDirectory | src/cli_args.cpp:220-221 | a name joined to a directory is the last component of the path, and the directory with at most one separator the rest |
| ArtifactNames.StablePathHash | src/cli_args.cpp:50-62 | the loop gives the FNV-1a hash of the bytes, modulo 2^64 |
| ArtifactNames.KnownHashes | src/cli_args.cpp:52-60 | the hashes of the empty text and of "a" are the published ones (section 6 of draft-eastlake-fnv) |
| ArtifactNames.StepInjective | src/cli_args.cpp:56-60 | a hash step is injective in the state, and in the byte |
| ArtifactNames.PrimeInverse | src/cli_args.cpp:53-59 | multiplying by the prime modulo 2^64 is undone by multiplying by 0xce965057aff6957b |
| ArtifactNames.OneByteSeparates | src/cli_args.cpp:50-62 | two texts of one length that differ in exactly one byte have different hashes |
| ArtifactNames.DigestInjective | src/cli_args.cpp:64-69 | different 64-bit values have different digests |
| ArtifactNames.DigestFixed | src/cli_args.cpp:67-67 | the digest is the 16 hexadecimal digits of the value |
| ArtifactNames.DigestRoundTrip | src/cli_args.cpp:64-69 | the digits spell the value in base 16 |
| ArtifactNames.SanitizeInPlace | src/cli_args.cpp:191-199 | in place, every byte that is no letter, digit, dash or underscore becomes an underscore |
| ArtifactNames.SanitizeArtifactName | src/cli_args.cpp:188-205 | the sanitized path, or "test" for an empty one |
| ArtifactNames.SanitizedMeaning | src/cli_args.cpp:188-205 | byte by byte, letters, digits, dashes and underscores stay and anything else is an underscore |
| ArtifactNames.MakeTestOutputPath | src/cli_args.cpp:207-222 | the path made of the output directory, the sanitized stem and the digest of the relative path |
| ArtifactNames.ArtifactMeaning | src/cli_args.cpp:207-222 | an artifact's name is the sanitized path without its extension, or "test", an underscore, and digits that spell the hash of the whole path |
| ArtifactNames.StaysInDirectory | src/cli_args.cpp:220-221 | whatever the source's path, its binary is directly in the output directory, under a name of letters, digits, dashes and underscores |
| ArtifactNames.OutputsDetermineHashes | src/cli_args.cpp:217-221 | equal output paths come from equal hashes, whatever sanitizing made equal |
| ArtifactNames.OneByteSeparatesOutputs | src/cli_args.cpp:207-222 | sources whose relative paths have one length and differ in one byte never share a binary |
| Discovery.SortedUniqueMeaning | src/runtime_analyzer.cpp:83-84 | strictly ascending, and just what was found |
| Discovery.DiscoveryOrderIrrelevant | src/runtime_analyzer.cpp:83-84 | two discoveries give the same sources if and only if they found the same paths, in any order and with any repetitions |
| Batch.RunBatch | src/runtime_analyzer.cpp:348-427 | the batch is a function of its tests, each from the run of its own source; a batch that cannot begin exits with 2, has no tests, and says which of the three reasons it was |
| Batch.AddTest | src/runtime_analyzer.cpp:391-420 | counters, verdict, summary and diagnostics agree with the tests after each of them |
| Batch.RunTest | src/runtime_analyzer.cpp:381-404 | one run with the source's own options: refused with its reason, or compiled to its own path with just the compiler's answer, and then run on the source's kernel, with diagnostics that say how that went |
| Batch.OwnOutputIsBuilt | src/runtime_analyzer.cpp:383-387 | a test that is not refused is compiled to just its own artifact |
| Batch.EveryTestCountedOnce | src/runtime_analyzer.cpp:406-417 | compile failures, timeouts, runtime failures and clean tests add up to the tests |
| Batch.OrderIrrelevant | src/runtime_analyzer.cpp:418-419 | counters, worst verdict and summary are the same for any order of the tests |
| Batch.RearrangedBatch | src/runtime_analyzer.cpp:423-426 | so are success and exit code |
| Batch.WorstIsMaximum | src/runtime_analyzer.cpp:418-418 | the verdict bounds that of every test and is one of them |
| Batch.ExitStatusMeaning | src/runtime_analyzer.cpp:418-425 | on the fields of the results: exit 2 if and only if some test was not built, was to be run and was not executed, or timed out without findings; exit 1 if and only if none was and some test has findings or, under strict mode, a program that ended in time did not exit with 0; else 0 |
| Batch.CleanBatch | src/runtime_analyzer.cpp:418-425 | a batch that exits with 0 succeeded, has no finding at all, and had every test built and, if it was to run, run to its end, under strict mode with exit code 0 |
| Batch.BatchSuccessMeaning | src/runtime_analyzer.cpp:422-424 | a batch succeeds if and only if every test was built and, under strict mode, none that ended in time exited with other than 0 |
| Batch.BatchCounters | src/runtime_analyzer.cpp:406-417 | each counter printed is the number of the tests that meet its condition |
| Batch.EveryDiagnosticIsTold | src/runtime_analyzer.cpp:392-400 | the diagnostics of every test are in the batch's, under its source |
| Batch.AllFindings | src/runtime_analyzer.cpp:197-206 | the loop collects the findings of all tests in order |
| Batch.NoFindingsAtAll | src/runtime_analyzer.cpp:197-206 | there are none if and only if no test has one |
| Batch.BatchIsSound | src/runtime_analyzer.cpp:378-426 | the cross-pass bounds hold of the whole batch, and its counters account for all tests |
| Batch.LabelMeaning | src/runtime_analyzer.cpp:228-240 | a label agrees with its counter if and only if the run was not left unread with exit code 0 |
| Batch.LabelsCanDisagree | src/runtime_analyzer.cpp:314-322 | for every timeout, a run that gives such a result: printed as RUNTIME, counted as clean |
| Batch.BatchLabels | src/runtime_analyzer.cpp:225-240 | COMPILE and TIMEOUT labels equal their counters; RUNTIME labels exceed theirs by exactly those runs |
| Sarif.WriteSarif | src/sarif.cpp:76-88 | one result per finding in order; each rule listed exactly once, in the order of first appearance |
| Sarif.ListingUnique | src/sarif.cpp:79-88 | that listing is determined by the findings |
| Sarif.ListedMeaning | src/sarif.cpp:79-88 | every listed rule was reported, and is described exactly when the catalogue holds it |
| Sarif.ResultRoundTrip | src/sarif.cpp:48-73 | the finding can be read back from its result |
| Sarif.WellFormedIsValid | src/sarif.cpp:48-73 | a well-formed finding's result has a confidence, one listed and described rule, and places with a line from 1 and a column absent or from 1 |
| Sarif.BatchLogIsValid | src/sarif.cpp:76-88 | so has every result of the log of any batch, whatever its programs printed (sections 3.19.23, 3.27.5, 3.30.5 and 3.30.6 of SARIF 2.1.0) |

## Left out

- The compiler, LLVM and Clang: any function from arguments to success and diagnostics.
- The child after `fork`: its process group, redirections, environment and `execv`. What is left is its effect on the pipes, the clock and the exit status.
- Close-on-exec flags: they concern the child only.
- Time in 64 bits: the clock and the deadline are unbounded, so the overflow of a deadline of about 292 years is not modelled. The conversion of seconds to milliseconds is, as a wrap to 64 bits; in the program it is a signed overflow.
- `FD_SETSIZE`: `select` takes any descriptor.
- Event counters are unbounded; `Events.CountersFit` shows that they stay within the number of lines.
- Directory walking, file reading, `std::filesystem::relative` and `absolute`, and the removal of old binaries: inputs, or without effect on the result.
- Discovery.SortedUniqueMeaning: sorting and erasing duplicates are library calls in the program; they are modelled by their result, for any total order of paths.
- The title and the description of a rule: prose. Its confidence is modelled.
- Help, version and summary texts, and the serialization of the log: output plumbing. The log is a value.
- The shipped toolchain's extra arguments, `main` and packaging: no deep invariant.
- Freedom of the hash from collisions, and a bound on the length of a run: the program gives neither.
- CompilerArgs.AddPerSourceCompatibilityArgs: the argument vector is extended as a value, not through a reference; order and contents are the same.
