/**
 The line-driven report parser (`ParseFindings` of src/findings.cpp): a loop over byte
 offsets, proved equal to a fold over the lines of the text.
 */
module ReportParser {
  import opened Text
  import opened Sites
  import opened Fields
  import opened Rules
  import opened DiagnosticBoxes

  /** Between two lines: the findings so far, and what is still open. */
  datatype State = State(findings: seq<Finding>, inBounds: bool, box: Option<seq<Row>>)

  /** An open bounds report excludes an open box, and has a finding to add places to. */
  predicate Coherent(st: State) {
    st.inBounds ==> st.box.None? && st.findings != []
  }

  type ParserState = st: State | Coherent(st) witness State([], false, None)

  const START: ParserState := State([], false, None)

  /** The site under `key` if the line has that field, and what was known otherwise. */
  function SiteUnder(line: string, key: string, known: Option<SourceLocation>): Option<SourceLocation> {
    match FieldOf(line, key)
    case None => known
    case Some(site) => SiteOf(site)
  }

  /** A finding after a further line of its bounds report. */
  function WithDetails(finding: Finding, line: string): Finding {
    finding.(location := SiteUnder(line, "access", finding.location),
             allocation := SiteUnder(line, "alloc_site", finding.allocation))
  }

  function OneLineFinding(line: string, rule: string, cwe: string, severity: Severity, message: string): Finding {
    Finding(rule, cwe, severity, message, SiteUnder(line, "site", None), SiteUnder(line, "alloc_site", None))
  }

  const FREED_TWICE := "(double free)"
  const LEAK := "ct: leak ptr="

  function LeakMessage(line: string): string {
    match FieldOf(line, "size")
    case None => "memory leak"
    case Some(size) => "memory leak" + " of " + size + " bytes"
  }

  /** The finding a line reports by itself, outside any bounds report. */
  function LineFinding(line: string): Option<Finding> {
    if Contains(line, FREED_TWICE) then
      Some(OneLineFinding(line, DOUBLE_FREE, "CWE-415", Error, "double free"))
    else if Contains(line, LEAK) then
      Some(OneLineFinding(line, MEMORY_LEAK, "CWE-401", Warning, LeakMessage(line)))
    else None
  }

  function Appended(findings: seq<Finding>, finding: Option<Finding>): seq<Finding> {
    if finding.Some? then findings + [finding.value] else findings
  }

  function ReplaceLast(findings: seq<Finding>, finding: Finding): seq<Finding>
    requires findings != []
  {
    findings[|findings| - 1 := finding]
  }

  function Last(findings: seq<Finding>): Finding
    requires findings != []
  {
    findings[|findings| - 1]
  }

  /** One line of input. */
  function Step(tables: Tables, st: ParserState, line: string): ParserState {
    if st.box.Some? then
      if Closes(line) then State(Appended(st.findings, BoxFinding(tables.vtable, st.box.value)), st.inBounds, None)
      else State(st.findings, st.inBounds, Some(RowsAfter(st.box.value, line)))
    else if Opens(line) then State(st.findings, false, Some([]))
    else if st.inBounds && StartsWith(line, "  ") then
      State(ReplaceLast(st.findings, WithDetails(Last(st.findings), line)), true, None)
    else
      match BoundsFinding(tables.bounds, line)
      case Some(finding) => State(st.findings + [finding], true, None)
      case None => State(Appended(st.findings, LineFinding(line)), false, None)
  }

  function Run(tables: Tables, st: ParserState, lines: seq<string>): ParserState
    decreases |lines|
  {
    if lines == [] then st else Run(tables, Step(tables, st, lines[0]), lines[1..])
  }

  /** The findings of a text. */
  function Parse(tables: Tables, text: string): seq<Finding> {
    Run(tables, START, Lines(text)).findings
  }

  method ParseFindings(tables: Tables, output: string) returns (findings: seq<Finding>)
    ensures findings == Parse(tables, output)
  {
    findings := [];
    var inBounds, box: DiagnosticBox?, start := false, null, 0;
    ghost var st: ParserState := START;
    assert output[0..] == output;
    while start < |output|
      invariant box != null ==> fresh(box)
      invariant 0 <= start <= |output| + 1
      invariant st == Seen(findings, inBounds, box) && Reached(tables, output, start, st)
    {
      var end := IndexFrom(output, '\n', start);
      var line := output[start..end];
      ReachedNext(tables, output, start, end, st);
      findings, inBounds, box := ReadLine(tables, findings, inBounds, box, line, st);
      st := Step(tables, st, line);
      start := end + 1;
    }
    ReachedEnd(tables, output, start, st);
  }

  /** The loop is at `start`, and the fold over the rest from `st` is the fold over the text. */
  ghost predicate Reached(tables: Tables, text: string, start: nat, st: State) {
    Coherent(st) && Run(tables, START, Lines(text)) == Run(tables, st, Rest(text, start))
  }

  /** The parser's state as the loop's variables hold it. */
  function Seen(findings: seq<Finding>, inBounds: bool, box: DiagnosticBox?): State
    reads box
  {
    State(findings, inBounds, if box == null then None else Some(box.rows))
  }

  /** The body of the loop. */
  method ReadLine(tables: Tables, findings: seq<Finding>, inBounds: bool, box: DiagnosticBox?, line: string,
                  ghost st: ParserState)
    returns (findings': seq<Finding>, inBounds': bool, box': DiagnosticBox?)
    requires st == Seen(findings, inBounds, box)
    modifies box
    ensures box' != null && box' != box ==> fresh(box')
    ensures Seen(findings', inBounds', box') == Step(tables, st, line)
  {
    findings', inBounds', box' := findings, inBounds, box;
    if box != null {
      if Closes(line) {
        var finding := box.ToFinding(tables.vtable);
        findings', box' := Appended(findings, finding), null;
      } else {
        box.AddRow(line);
      }
    } else if Opens(line) {
      inBounds' := false;
      box' := new DiagnosticBox();
    } else {
      findings', inBounds' := ReadOutsideBoxes(tables, findings, inBounds, line);
    }
  }

  /** A line that neither belongs to a box nor opens one. */
  method ReadOutsideBoxes(tables: Tables, findings: seq<Finding>, inBounds: bool, line: string)
    returns (findings': seq<Finding>, inBounds': bool)
    requires Coherent(State(findings, inBounds, None)) && !Opens(line)
    ensures State(findings', inBounds', None) == Step(tables, State(findings, inBounds, None), line)
  {
    if inBounds && StartsWith(line, "  ") {
      var last := AddDetails(findings[|findings| - 1], line);
      return findings[|findings| - 1 := last], true;
    }
    var report := BoundsFinding(tables.bounds, line);
    inBounds' := report.Some?;
    if report.None? {
      report := ReadReport(line);
    }
    findings' := Appended(findings, report);
  }

  /** A further line of an open bounds report: each field present overwrites its location. */
  method AddDetails(finding: Finding, line: string) returns (detailed: Finding)
    ensures detailed == WithDetails(finding, line)
  {
    detailed := finding;
    var access := Field(line, "access");
    if access.Some? {
      var location := ParseSite(access.value);
      detailed := detailed.(location := location);
    }
    var allocSite := Field(line, "alloc_site");
    if allocSite.Some? {
      var allocation := ParseSite(allocSite.value);
      detailed := detailed.(allocation := allocation);
    }
  }

  /** The reports of one line: a double free before a leak. */
  method ReadReport(line: string) returns (finding: Option<Finding>)
    ensures finding == LineFinding(line)
  {
    finding := None;
    if Contains(line, FREED_TWICE) {
      var report := ReadOneLine(line, DOUBLE_FREE, "CWE-415", Error, "double free");
      finding := Some(report);
    } else if Contains(line, LEAK) {
      var message := "memory leak";
      var size := Field(line, "size");
      if size.Some? {
        message := message + " of " + size.value + " bytes";
      }
      var report := ReadOneLine(line, MEMORY_LEAK, "CWE-401", Warning, message);
      finding := Some(report);
    }
  }

  method ReadOneLine(line: string, rule: string, cwe: string, severity: Severity, message: string)
    returns (finding: Finding)
    ensures finding == OneLineFinding(line, rule, cwe, severity, message)
  {
    finding := Finding(rule, cwe, severity, message, None, None);
    var site := Field(line, "site");
    if site.Some? {
      var location := ParseSite(site.value);
      finding := finding.(location := location);
    }
    var allocSite := Field(line, "alloc_site");
    if allocSite.Some? {
      var allocation := ParseSite(allocSite.value);
      finding := finding.(allocation := allocation);
    }
  }

  /** The lines from a byte offset on; one past the end there are none. */
  ghost function Rest(text: string, start: nat): seq<string> {
    if start <= |text| then Lines(text[start..]) else []
  }

  /** The loop's next line is the first of the remaining lines. */
  lemma RestStep(text: string, start: nat, end: nat)
    requires start < |text| && end == IndexFrom(text, '\n', start)
    ensures Rest(text, start) == [text[start..end]] + Rest(text, end + 1)
  {
    var rest := text[start..];
    IndexFromMeaning(text, '\n', start);
    assert rest[..end - start] == text[start..end];
    if end < |text| {
      assert rest == text[start..end] + "\n" + text[end + 1..];
      LinesHead(text[start..end], text[end + 1..]);
    } else {
      assert rest == text[start..end];
      IndexMeaning(rest, '\n');
    }
  }

  lemma ReachedNext(tables: Tables, text: string, start: nat, end: nat, st: State)
    requires start < |text| && end == IndexFrom(text, '\n', start) && Reached(tables, text, start, st)
    ensures Reached(tables, text, end + 1, Step(tables, st, text[start..end]))
  {
    RestStep(text, start, end);
    var line, rest := text[start..end], Rest(text, end + 1);
    assert ([line] + rest)[1..] == rest;
  }

  lemma ReachedEnd(tables: Tables, text: string, start: nat, st: State)
    requires start >= |text| && Reached(tables, text, start, st)
    ensures st.findings == Parse(tables, text)
  {
    if start == |text| {
      assert text[start..] == "";
    }
  }
}
