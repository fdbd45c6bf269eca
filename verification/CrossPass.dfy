/**
 The two passes over one text agree: the findings of the report parser never outnumber
 the events the summary counts.
 */
module CrossPass {
  import opened Text
  import opened Rules
  import opened DiagnosticBoxes
  import opened ReportParser
  import opened Events

  /** How many findings carry one of the rules. */
  function Named(findings: seq<Finding>, rules: set<string>): nat {
    if findings == [] then 0
    else Named(findings[..|findings| - 1], rules) + One(Last(findings).rule in rules)
  }

  /** Each finding with one of the rules counts, and no other. */
  lemma {:induction false} NamedMeaning(findings: seq<Finding>, rules: set<string>)
    ensures Named(findings, rules) <= |findings|
    ensures Named(findings, rules) == 0 <==> forall i :: 0 <= i < |findings| ==> findings[i].rule !in rules
    ensures Named(findings, rules) == |findings| <==> forall i :: 0 <= i < |findings| ==> findings[i].rule in rules
  {
    if findings != [] {
      NamedMeaning(findings[..|findings| - 1], rules);
    }
  }

  lemma NamedSnoc(findings: seq<Finding>, finding: Finding, rules: set<string>)
    ensures Named(findings + [finding], rules) == Named(findings, rules) + One(finding.rule in rules)
  {
    assert (findings + [finding])[..|findings|] == findings;
  }

  lemma NamedReplaced(findings: seq<Finding>, finding: Finding, rules: set<string>)
    requires findings != [] && finding.rule == Last(findings).rule
    ensures Named(ReplaceLast(findings, finding), rules) == Named(findings, rules)
  {
    assert ReplaceLast(findings, finding)[..|findings| - 1] == findings[..|findings| - 1];
  }

  lemma {:induction false} NamedConcat(a: seq<Finding>, b: seq<Finding>, rules: set<string>)
    ensures Named(a + b, rules) == Named(a, rules) + Named(b, rules)
  {
    if b == [] {
      assert a + b == a;
    } else {
      assert (a + b)[..|a + b| - 1] == a + b[..|b| - 1];
      NamedConcat(a, b[..|b| - 1], rules);
    }
  }

  const LEAKS := {MEMORY_LEAK}
  const HEAP_BOUNDS := {HEAP_OVERFLOW, USE_AFTER_FREE}

  /** What the tables and the event words have to do with each other. */
  predicate Agree(tables: Tables, words: EventWords) {
    && "ct: leak " in words.leak && "ct:" in words.coretrace
    && (forall rule :: rule in HEAP_BOUNDS ==> rule in words.bounds && rule in words.coretrace)
    && (forall k :: 0 <= k < |tables.bounds| ==> tables.bounds[k].rule !in LEAKS)
    && (forall k :: 0 <= k < |tables.vtable| ==> tables.vtable[k].rule !in LEAKS + HEAP_BOUNDS)
  }

  lemma MentionsOf(line: string, word: string, words: seq<string>)
    requires word in words && Contains(line, word)
    ensures Mentions(line, words)
  {
    var k :| 0 <= k < |words| && words[k] == word;
    assert Contains(line, words[k]);
  }

  /** A line the parser takes for a leak is a leak report and an event. */
  lemma LeakLineCounts(words: EventWords, line: string)
    requires "ct: leak " in words.leak && "ct:" in words.coretrace && Contains(line, LEAK)
    ensures CountsOf(words, line).leakReports == 1
  {
    assert MatchAt(LEAK, "ct: leak ", 0) && MatchAt(LEAK, "ct:", 0);
    ContainsPart(line, LEAK, "ct: leak ", 0);
    ContainsPart(line, LEAK, "ct:", 0);
    MentionsOf(line, "ct: leak ", words.leak);
    MentionsOf(line, "ct:", words.coretrace);
  }

  /** A bounds line mentions its rule. */
  lemma {:induction false} BoundsLineMentions(rules: seq<BoundsRule>, line: string)
    ensures BoundsFinding(rules, line).Some? ==> Contains(line, BoundsFinding(rules, line).value.rule)
  {
    if rules != [] {
      var rule := rules[0].rule;
      if Contains(line, BoundsPattern(rule)) {
        assert MatchAt(BoundsPattern(rule), rule, 4);
        ContainsPart(line, BoundsPattern(rule), rule, 4);
      } else {
        BoundsLineMentions(rules[1..], line);
      }
    }
  }

  lemma BoundsLineCounts(tables: Tables, words: EventWords, line: string)
    requires Agree(tables, words) && BoundsFinding(tables.bounds, line).Some?
    ensures One(BoundsFinding(tables.bounds, line).value.rule in HEAP_BOUNDS) <= CountsOf(words, line).boundsErrors
  {
    var rule := BoundsFinding(tables.bounds, line).value.rule;
    BoundsLineMentions(tables.bounds, line);
    if rule in HEAP_BOUNDS {
      MentionsOf(line, rule, words.bounds);
      MentionsOf(line, rule, words.coretrace);
    }
  }

  lemma OtherRuleNames()
    ensures DOUBLE_FREE !in LEAKS + HEAP_BOUNDS && VTABLE_OTHER !in LEAKS + HEAP_BOUNDS
    ensures MEMORY_LEAK !in HEAP_BOUNDS
  {
    assert |DOUBLE_FREE| == 11 && |MEMORY_LEAK| == 11 && |VTABLE_OTHER| == 17;
    assert |HEAP_OVERFLOW| == 20 && |USE_AFTER_FREE| == 19;
    assert DOUBLE_FREE[0] == 'd' && MEMORY_LEAK[0] == 'm';
  }

  /** A box's finding is neither a leak nor a heap bounds error. */
  lemma BoxNamesNeither(tables: Tables, words: EventWords, rows: seq<Row>)
    requires Agree(tables, words) && BoxFinding(tables.vtable, rows).Some?
    ensures BoxFinding(tables.vtable, rows).value.rule !in LEAKS + HEAP_BOUNDS
  {
    OtherRuleNames();
  }

  /** One line: what it adds to the findings, it adds to the summary. */
  lemma StepCounts(tables: Tables, words: EventWords, st: ParserState, line: string)
    requires Agree(tables, words)
    ensures var next := Step(tables, st, line).findings;
      && Named(next, LEAKS) <= Named(st.findings, LEAKS) + CountsOf(words, line).leakReports
      && Named(next, HEAP_BOUNDS) <= Named(st.findings, HEAP_BOUNDS) + CountsOf(words, line).boundsErrors
  {
    OtherRuleNames();
    if st.box.Some? {
      var finding := BoxFinding(tables.vtable, st.box.value);
      if Closes(line) && finding.Some? {
        BoxNamesNeither(tables, words, st.box.value);
        NamedBoth(st.findings, finding.value);
      }
    } else if Opens(line) {
    } else if st.inBounds && StartsWith(line, "  ") {
      NamedReplaced(st.findings, WithDetails(Last(st.findings), line), LEAKS);
      NamedReplaced(st.findings, WithDetails(Last(st.findings), line), HEAP_BOUNDS);
    } else {
      IdleCounts(tables, words, st.findings, line);
    }
  }

  lemma NamedBoth(findings: seq<Finding>, finding: Finding)
    ensures Named(findings + [finding], LEAKS) == Named(findings, LEAKS) + One(finding.rule in LEAKS)
    ensures Named(findings + [finding], HEAP_BOUNDS) == Named(findings, HEAP_BOUNDS) + One(finding.rule in HEAP_BOUNDS)
  {
    NamedSnoc(findings, finding, LEAKS);
    NamedSnoc(findings, finding, HEAP_BOUNDS);
  }

  /** The finding of a line outside boxes and open reports. */
  function IdleFinding(tables: Tables, line: string): Option<Finding> {
    var bounds := BoundsFinding(tables.bounds, line);
    if bounds.Some? then bounds else LineFinding(line)
  }

  lemma IdleCounts(tables: Tables, words: EventWords, findings: seq<Finding>, line: string)
    requires Agree(tables, words)
    ensures var next := Appended(findings, IdleFinding(tables, line));
      && Named(next, LEAKS) <= Named(findings, LEAKS) + CountsOf(words, line).leakReports
      && Named(next, HEAP_BOUNDS) <= Named(findings, HEAP_BOUNDS) + CountsOf(words, line).boundsErrors
  {
    OtherRuleNames();
    var finding := IdleFinding(tables, line);
    if finding.Some? {
      NamedBoth(findings, finding.value);
      if BoundsFinding(tables.bounds, line).Some? {
        BoundsLineCounts(tables, words, line);
      } else if !Contains(line, FREED_TWICE) {
        LeakLineCounts(words, line);
      }
    }
  }

  lemma {:induction false} RunCounts(tables: Tables, words: EventWords, st: ParserState, lines: seq<string>)
    requires Agree(tables, words)
    ensures var end := Run(tables, st, lines).findings;
      && Named(end, LEAKS) <= Named(st.findings, LEAKS) + Summarize(words, lines).leakReports
      && Named(end, HEAP_BOUNDS) <= Named(st.findings, HEAP_BOUNDS) + Summarize(words, lines).boundsErrors
    decreases |lines|
  {
    if lines != [] {
      StepCounts(tables, words, st, lines[0]);
      RunCounts(tables, words, Step(tables, st, lines[0]), lines[1..]);
    }
  }

  /** For every captured text: leak findings within `leak_reports`, heap bounds findings within `bounds_errors`. */
  lemma FindingsWithinCounts(tables: Tables, words: EventWords, text: string)
    requires Agree(tables, words)
    ensures Named(Parse(tables, Strip(text)), LEAKS) <= SummaryOf(words, text).leakReports
    ensures Named(Parse(tables, Strip(text)), HEAP_BOUNDS) <= SummaryOf(words, text).boundsErrors
  {
    RunCounts(tables, words, START, Lines(Strip(text)));
  }

  // ---- The analyzer's own tables and words ----

  lemma AnalyzerWords()
    ensures "ct: leak " in WORDS.leak && "ct:" in WORDS.coretrace && LeaksAreAllocations(WORDS)
    ensures forall rule :: rule in HEAP_BOUNDS ==> rule in WORDS.bounds && rule in WORDS.coretrace
  {
    assert WORDS.leak[1] == "ct: leak " && WORDS.coretrace[1] == "ct:";
    assert WORDS.bounds[0] == HEAP_OVERFLOW && WORDS.bounds[1] == USE_AFTER_FREE;
    assert WORDS.coretrace[7] == HEAP_OVERFLOW && WORDS.coretrace[8] == USE_AFTER_FREE;
    assert WORDS.allocation[2] == WORDS.leak[0] && WORDS.allocation[3] == WORDS.leak[1];
  }

  lemma AnalyzerLeaks()
    ensures LeaksAreAllocations(WORDS)
  {
    AnalyzerWords();
  }

  lemma AnalyzerTables()
    ensures forall k :: 0 <= k < |BOUNDS_RULES| ==> BOUNDS_RULES[k].rule !in LEAKS
    ensures forall k :: 0 <= k < |VTABLE_RULES| ==> VTABLE_RULES[k].rule !in LEAKS + HEAP_BOUNDS
  {
    assert |MEMORY_LEAK| == 11 && |HEAP_OVERFLOW| == 20 && |USE_AFTER_FREE| == 19 && |STACK_OVERFLOW| == 21;
    assert HEAP_OVERFLOW[0] == 'h';
    assert |VTABLE_NULL_THIS| == 16 && |VTABLE_FREED| == 21 && |VTABLE_CORRUPTED| == 16 && |VTABLE_OTHER| == 17;
    assert VCALL_TARGET[0] == 'v' && |VCALL_TARGET| == 20 && VTABLE_MISMATCH[0] == 'v' && |VTABLE_MISMATCH| == 20;
  }

  lemma AnalyzerAgrees()
    ensures Agree(TABLES, WORDS)
  {
    AnalyzerWords();
    AnalyzerTables();
  }
}
