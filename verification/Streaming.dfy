/**
 What holds of the report parser over every text: texts compose at line boundaries,
 findings are stable when output is cut, and every finding is well formed.
 */
module Streaming {
  import opened Text
  import opened Sites
  import opened Rules
  import opened DiagnosticBoxes
  import opened ReportParser

  lemma {:induction false} RunConcat(tables: Tables, st: ParserState, a: seq<string>, b: seq<string>)
    ensures Run(tables, st, a + b) == Run(tables, Run(tables, st, a), b)
    decreases |a|
  {
    if a == [] {
      assert a + b == b;
    } else {
      assert (a + b)[1..] == a[1..] + b;
      RunConcat(tables, Step(tables, st, a[0]), a[1..], b);
    }
  }

  /** The parser's state after a text. */
  function After(tables: Tables, text: string): ParserState {
    Run(tables, START, Lines(text))
  }

  lemma AfterConcat(tables: Tables, a: string, b: string)
    requires AtLineBoundary(a)
    ensures After(tables, a + b) == Run(tables, After(tables, a), Lines(b))
  {
    LinesConcat(a, b);
    RunConcat(tables, START, Lines(a), Lines(b));
  }

  // ---- Composition ----

  /** The same state with earlier findings in front. */
  function Behind(earlier: seq<Finding>, st: ParserState): ParserState {
    assert st.findings != [] ==> Last(earlier + st.findings) == Last(st.findings);
    State(earlier + st.findings, st.inBounds, st.box)
  }

  /** Earlier findings change nothing in how a line is read. */
  lemma StepBehind(tables: Tables, earlier: seq<Finding>, st: ParserState, line: string)
    ensures Step(tables, Behind(earlier, st), line) == Behind(earlier, Step(tables, st, line))
  {
    var all := earlier + st.findings;
    if st.inBounds {
      assert Last(all) == Last(st.findings);
      var detailed := WithDetails(Last(st.findings), line);
      assert ReplaceLast(all, detailed) == earlier + ReplaceLast(st.findings, detailed);
    }
    forall finding: Finding ensures all + [finding] == earlier + (st.findings + [finding]) {
    }
  }

  lemma {:induction false} RunBehind(tables: Tables, earlier: seq<Finding>, st: ParserState, lines: seq<string>)
    ensures Run(tables, Behind(earlier, st), lines) == Behind(earlier, Run(tables, st, lines))
    decreases |lines|
  {
    if lines != [] {
      StepBehind(tables, earlier, st, lines[0]);
      RunBehind(tables, earlier, Step(tables, st, lines[0]), lines[1..]);
    }
  }

  /** Nothing of `a` is still open for the first of `lines` to continue. */
  predicate Separate(st: State, lines: seq<string>) {
    st.box.None? && (st.inBounds ==> lines == [] || !StartsWith(lines[0], "  "))
  }

  lemma RunSeparate(tables: Tables, st: ParserState, lines: seq<string>)
    requires Separate(st, lines)
    ensures Run(tables, st, lines).findings == st.findings + Run(tables, START, lines).findings
  {
    if lines != [] {
      assert st.findings + START.findings == st.findings;
      assert Step(tables, st, lines[0]) == Step(tables, Behind(st.findings, START), lines[0]);
      StepBehind(tables, st.findings, START, lines[0]);
      RunBehind(tables, st.findings, Step(tables, START, lines[0]), lines[1..]);
    }
  }

  /** Texts compose at a line boundary where no box and no continued bounds report is open. */
  lemma ParseConcat(tables: Tables, a: string, b: string)
    requires AtLineBoundary(a) && Separate(After(tables, a), Lines(b))
    ensures Parse(tables, a + b) == Parse(tables, a) + Parse(tables, b)
  {
    AfterConcat(tables, a, b);
    RunSeparate(tables, After(tables, a), Lines(b));
  }

  // ---- Truncation ----

  predicate SameReport(a: Finding, b: Finding) {
    a.rule == b.rule && a.cwe == b.cwe && a.severity == b.severity && a.message == b.message
  }

  predicate SamePlaces(a: Finding, b: Finding) {
    a.location == b.location && a.allocation == b.allocation
  }

  /** Finding `i` of `before` may still gain places: it is the open bounds report. */
  predicate StillOpen(before: State, i: nat) {
    before.inBounds && i + 1 == |before.findings|
  }

  /** Each finding of `before` is the same report in `after`, at the same places unless still open. */
  ghost predicate Stable(before: State, after: State) {
    && |before.findings| <= |after.findings|
    && (after.inBounds && |after.findings| == |before.findings| ==> before.inBounds)
    && (forall i :: 0 <= i < |before.findings| ==> SameReport(before.findings[i], after.findings[i]))
    && (forall i :: 0 <= i < |before.findings| && !StillOpen(before, i)
          ==> SamePlaces(before.findings[i], after.findings[i]))
  }

  lemma StepStable(tables: Tables, st: ParserState, line: string)
    ensures Stable(st, Step(tables, st, line))
    ensures |Step(tables, st, line).findings| <= |st.findings| + 1
  {
  }

  lemma {:induction false} RunStable(tables: Tables, st: ParserState, lines: seq<string>)
    ensures Stable(st, Run(tables, st, lines))
    decreases |lines|
  {
    if lines != [] {
      StepStable(tables, st, lines[0]);
      RunStable(tables, Step(tables, st, lines[0]), lines[1..]);
    }
  }

  /** Cutting a text at a line boundary keeps its findings, up to an open report's places. */
  lemma CutAtLine(tables: Tables, a: string, b: string)
    requires AtLineBoundary(a)
    ensures Stable(After(tables, a), After(tables, a + b))
  {
    AfterConcat(tables, a, b);
    RunStable(tables, After(tables, a), Lines(b));
  }

  /** The whole lines of a text. */
  function WholeLines(text: string): (whole: string)
    ensures whole <= text && AtLineBoundary(whole)
  {
    AfterLastMeaning(text, '\n');
    text[..AfterLast(text, '\n')]
  }

  /** Cutting a text anywhere: the whole lines' findings survive in both, the cut line adds at most one. */
  lemma CutAnywhere(tables: Tables, a: string, b: string)
    ensures Stable(After(tables, WholeLines(a)), After(tables, a))
    ensures Stable(After(tables, WholeLines(a)), After(tables, a + b))
    ensures |Parse(tables, a)| <= |Parse(tables, WholeLines(a))| + 1
  {
    var whole := WholeLines(a);
    var tail := a[|whole|..];
    assert a == whole + tail;
    assert a + b == whole + (tail + b);
    CutAtLine(tables, whole, tail);
    CutAtLine(tables, whole, tail + b);
    AfterConcat(tables, whole, tail);
    AfterLastMeaning(a, '\n');
    if tail != "" {
      IndexMeaning(tail, '\n');
      assert Lines(tail) == [tail];
      assert [tail][1..] == [];
      StepStable(tables, After(tables, whole), tail);
    }
  }

  // ---- Well-formed findings ----

  predicate ValidPlace(place: Option<SourceLocation>) {
    place.Some? ==> ValidLocation(place.value)
  }

  /** The finding carries what the tables say for its rule. */
  ghost predicate FromTables(tables: Tables, finding: Finding) {
    || (exists k :: 0 <= k < |tables.bounds| && FromBoundsRule(finding, tables.bounds[k]))
    || (exists k: nat :: k <= |tables.vtable| && FromVtableRule(finding, EntryAt(tables.vtable, k)))
    || (finding.rule == DOUBLE_FREE && finding.cwe == "CWE-415" && finding.severity == Error)
    || (finding.rule == MEMORY_LEAK && finding.cwe == "CWE-401" && finding.severity == Warning)
  }

  predicate FromBoundsRule(finding: Finding, rule: BoundsRule) {
    finding.rule == rule.rule && finding.severity == Error && finding.cwe in {rule.writeCwe, rule.readCwe}
  }

  predicate FromVtableRule(finding: Finding, rule: VtableRule) {
    finding.rule == rule.rule && finding.cwe == rule.cwe && finding.severity == rule.severity
  }

  ghost predicate WellFormed(tables: Tables, finding: Finding) {
    && FromTables(tables, finding)
    && finding.message != ""
    && ValidPlace(finding.location) && ValidPlace(finding.allocation)
  }

  ghost predicate AllWellFormed(tables: Tables, findings: seq<Finding>) {
    forall i :: 0 <= i < |findings| ==> WellFormed(tables, findings[i])
  }

  lemma SitesAreValid(line: string, key: string, known: Option<SourceLocation>)
    requires ValidPlace(known)
    ensures ValidPlace(SiteUnder(line, key, known))
  {
    var site := SiteUnder(line, key, None);
    if site.Some? {
      SiteMeaning(Fields.FieldOf(line, key).value, site.value);
    }
  }

  lemma {:induction false} BoundsFindingWellFormed(rules: seq<BoundsRule>, line: string)
    ensures var finding := BoundsFinding(rules, line); finding.Some? ==>
      && (exists k :: 0 <= k < |rules| && FromBoundsRule(finding.value, rules[k]))
      && finding.value.message != "" && finding.value.location == None && finding.value.allocation == None
  {
    if rules != [] {
      var at := Find(line, BoundsPattern(rules[0].rule), 0);
      if at.Some? {
        assert FromBoundsRule(BoundsFinding(rules, line).value, rules[0]);
      } else {
        BoundsFindingWellFormed(rules[1..], line);
        if finding :| BoundsFinding(rules, line) == Some(finding) {
          var k :| 0 <= k < |rules[1..]| && FromBoundsRule(finding, rules[1..][k]);
          assert FromBoundsRule(finding, rules[k + 1]);
        }
      }
    }
  }

  lemma BoxFindingWellFormed(tables: Tables, rows: seq<Row>)
    ensures BoxFinding(tables.vtable, rows).Some? ==> WellFormed(tables, BoxFinding(tables.vtable, rows).value)
  {
    var finding := BoxFinding(tables.vtable, rows);
    if finding.Some? {
      var k := MostSpecific(tables.vtable, ValuesOf(rows, "warn"));
      assert FromVtableRule(finding.value, EntryAt(tables.vtable, k));
      var sites := ValuesOf(rows, "site");
      if BoxLocation(rows).Some? {
        SiteMeaning(sites[|sites| - 1], BoxLocation(rows).value);
      }
    }
  }

  lemma LineFindingWellFormed(tables: Tables, line: string)
    ensures LineFinding(line).Some? ==> WellFormed(tables, LineFinding(line).value)
  {
    SitesAreValid(line, "site", None);
    SitesAreValid(line, "alloc_site", None);
  }

  lemma DetailsWellFormed(tables: Tables, finding: Finding, line: string)
    requires WellFormed(tables, finding)
    ensures WellFormed(tables, WithDetails(finding, line))
  {
    SitesAreValid(line, "access", finding.location);
    SitesAreValid(line, "alloc_site", finding.allocation);
  }

  lemma StepWellFormed(tables: Tables, st: ParserState, line: string)
    requires AllWellFormed(tables, st.findings)
    ensures AllWellFormed(tables, Step(tables, st, line).findings)
  {
    if st.box.Some? {
      BoxFindingWellFormed(tables, st.box.value);
    } else if !Opens(line) {
      if st.inBounds && StartsWith(line, "  ") {
        DetailsWellFormed(tables, Last(st.findings), line);
      } else {
        BoundsFindingWellFormed(tables.bounds, line);
        LineFindingWellFormed(tables, line);
      }
    }
  }

  lemma {:induction false} RunWellFormed(tables: Tables, st: ParserState, lines: seq<string>)
    requires AllWellFormed(tables, st.findings)
    ensures AllWellFormed(tables, Run(tables, st, lines).findings)
    decreases |lines|
  {
    if lines != [] {
      StepWellFormed(tables, st, lines[0]);
      RunWellFormed(tables, Step(tables, st, lines[0]), lines[1..]);
    }
  }

  /** Whatever the text: every finding's rule, CWE and severity agree with the tables, its
      message says something, and its places have a file and a line from 1. */
  lemma ParseWellFormed(tables: Tables, text: string)
    ensures AllWellFormed(tables, Parse(tables, text))
  {
    RunWellFormed(tables, START, Lines(text));
  }

  // ---- Open reports ----

  /** The last finding is one a bounds rule gives. */
  ghost predicate LastIsBounds(tables: Tables, findings: seq<Finding>) {
    findings != [] && exists k :: 0 <= k < |tables.bounds| && FromBoundsRule(Last(findings), tables.bounds[k])
  }

  /** Details only ever land on a bounds finding: an open report's is the last one. */
  ghost predicate OpenIsBounds(tables: Tables, st: State) {
    st.inBounds ==> st.box.None? && LastIsBounds(tables, st.findings)
  }

  lemma StepKeepsOpen(tables: Tables, st: ParserState, line: string)
    requires OpenIsBounds(tables, st)
    ensures OpenIsBounds(tables, Step(tables, st, line))
  {
    if st.box.None? && !Opens(line) {
      if st.inBounds && StartsWith(line, "  ") {
        var k :| 0 <= k < |tables.bounds| && FromBoundsRule(Last(st.findings), tables.bounds[k]);
        assert FromBoundsRule(WithDetails(Last(st.findings), line), tables.bounds[k]);
      } else {
        BoundsFindingWellFormed(tables.bounds, line);
      }
    }
  }

  lemma {:induction false} RunKeepsOpen(tables: Tables, st: ParserState, lines: seq<string>)
    requires OpenIsBounds(tables, st)
    ensures OpenIsBounds(tables, Run(tables, st, lines))
    decreases |lines|
  {
    if lines != [] {
      StepKeepsOpen(tables, st, lines[0]);
      RunKeepsOpen(tables, Step(tables, st, lines[0]), lines[1..]);
    }
  }

  /** After any text, an open bounds report has no open box beside it, and the finding its
      further lines are added to is a bounds finding. */
  lemma OpenReportIsBounds(tables: Tables, text: string)
    ensures OpenIsBounds(tables, After(tables, text))
  {
    RunKeepsOpen(tables, START, Lines(text));
  }

  // ---- The catalogue ----

  /** Every rule the analyzer's tables give is in the catalogue. */
  lemma TablesAreCatalogued(finding: Finding)
    requires FromTables(TABLES, finding)
    ensures Catalogued(finding.rule)
  {
    EveryTableRuleIsCatalogued();
  }
}
