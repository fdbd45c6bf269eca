/**
 The SARIF log of a list of findings (`WriteSarif` of src/sarif.cpp), as a value: one result
 per finding, and each rule listed once.
 */
module Sarif {
  import opened Text
  import opened Sites
  import opened Rules
  import opened Streaming
  import opened Batch
  import opened Events
  import opened CompilerArgs
  import CliArgs

  datatype Region = Region(startLine: nat, startColumn: Option<nat>)

  datatype PhysicalLocation = PhysicalLocation(uri: string, region: Region)

  /** `related` has the id 0 and the text "allocated here". */
  datatype LogResult = LogResult(
    ruleId: string, level: string, message: string, cwe: string, confidence: Option<string>,
    locations: seq<PhysicalLocation>, related: seq<PhysicalLocation>)

  /** A listed rule; one in the catalogue also carries its title and description. */
  datatype ListedRule = ListedRule(id: string, described: bool)

  datatype Log = Log(results: seq<LogResult>, rules: seq<ListedRule>)

  function LocationOf(location: SourceLocation): PhysicalLocation {
    PhysicalLocation(location.file, Region(location.line, if location.column != 0 then Some(location.column) else None))
  }

  function AtMostOne(place: Option<SourceLocation>): seq<PhysicalLocation> {
    if place.Some? then [LocationOf(place.value)] else []
  }

  function ResultOf(catalogue: seq<CatalogueRule>, finding: Finding): LogResult {
    LogResult(finding.rule, if finding.severity == Error then "error" else "warning", finding.message, finding.cwe,
              DescribeIn(catalogue, finding.rule), AtMostOne(finding.location), AtMostOne(finding.allocation))
  }

  function RuleOf(catalogue: seq<CatalogueRule>, rule: string): ListedRule {
    ListedRule(rule, DescribeIn(catalogue, rule).Some?)
  }

  // ---- The log ----

  /** Whether some of the findings has the rule. */
  ghost predicate Reported(findings: seq<Finding>, rule: string) {
    exists i :: 0 <= i < |findings| && findings[i].rule == rule
  }

  /** Where a rule is first reported; the end if it is not. */
  function FirstReport(findings: seq<Finding>, rule: string): (n: nat)
    ensures n <= |findings|
  {
    if findings == [] || findings[0].rule == rule then 0 else 1 + FirstReport(findings[1..], rule)
  }

  lemma {:induction false} FirstReportMeaning(findings: seq<Finding>, rule: string)
    ensures var n := FirstReport(findings, rule);
      && (forall i :: 0 <= i < n ==> findings[i].rule != rule)
      && (n < |findings| ==> findings[n].rule == rule)
      && (n < |findings| <==> Reported(findings, rule))
  {
    if findings != [] && findings[0].rule != rule {
      FirstReportMeaning(findings[1..], rule);
      if i :| 0 <= i < |findings| && findings[i].rule == rule {
        assert findings[1..][i - 1].rule == rule;
      }
    }
  }

  lemma {:induction false} FirstReportSnoc(findings: seq<Finding>, finding: Finding, rule: string)
    ensures FirstReport(findings + [finding], rule)
      == if FirstReport(findings, rule) < |findings| then FirstReport(findings, rule)
         else if finding.rule == rule then |findings| else |findings| + 1
  {
    if findings == [] {
      assert [finding][1..] == [];
      assert findings + [finding] == [finding];
    } else {
      assert (findings + [finding])[1..] == findings[1..] + [finding];
      FirstReportSnoc(findings[1..], finding, rule);
    }
  }

  /** The rules of the findings, each listed once, in the order they are first reported. */
  ghost predicate ListsRules(catalogue: seq<CatalogueRule>, findings: seq<Finding>, rules: seq<ListedRule>) {
    && (forall k :: 0 <= k < |rules| ==> rules[k] == RuleOf(catalogue, rules[k].id) && Reported(findings, rules[k].id))
    && (forall i {:trigger Listed(rules, findings[i].rule)} :: 0 <= i < |findings| ==> Listed(rules, findings[i].rule))
    && (forall j, k :: 0 <= j < k < |rules| ==> FirstReport(findings, rules[j].id) < FirstReport(findings, rules[k].id))
  }

  ghost predicate Listed(rules: seq<ListedRule>, rule: string) {
    exists k :: 0 <= k < |rules| && rules[k].id == rule
  }

  ghost predicate ResultsOf(catalogue: seq<CatalogueRule>, findings: seq<Finding>, results: seq<LogResult>) {
    |results| == |findings| && forall i :: 0 <= i < |findings| ==> results[i] == ResultOf(catalogue, findings[i])
  }

  lemma ResultsSnoc(catalogue: seq<CatalogueRule>, findings: seq<Finding>, results: seq<LogResult>, finding: Finding)
    requires ResultsOf(catalogue, findings, results)
    ensures ResultsOf(catalogue, findings + [finding], results + [ResultOf(catalogue, finding)])
  {
  }

  /** One result for each finding, in order, and the rules listed. */
  ghost predicate LogOf(catalogue: seq<CatalogueRule>, findings: seq<Finding>, log: Log) {
    ResultsOf(catalogue, findings, log.results) && ListsRules(catalogue, findings, log.rules)
  }

  method WriteSarif(catalogue: seq<CatalogueRule>, findings: seq<Finding>) returns (log: Log)
    ensures LogOf(catalogue, findings, log)
  {
    var results, rules := [], [];
    var listed: set<string> := {};
    for i := 0 to |findings|
      invariant ResultsOf(catalogue, findings[..i], results)
      invariant Listing(catalogue, findings[..i], rules, listed)
    {
      assert findings[..i + 1] == findings[..i] + [findings[i]];
      ResultsSnoc(catalogue, findings[..i], results, findings[i]);
      results := results + [ResultOf(catalogue, findings[i])];
      ListsNext(catalogue, findings[..i], rules, listed, findings[i]);
      var rule := findings[i].rule;
      if rule !in listed {
        listed := listed + {rule};
        rules := rules + [RuleOf(catalogue, rule)];
      }
    }
    assert findings[..|findings|] == findings;
    log := Log(results, rules);
  }

  /** The rules listed so far, and the set of their names. */
  ghost predicate Listing(catalogue: seq<CatalogueRule>, findings: seq<Finding>, rules: seq<ListedRule>,
                          listed: set<string>) {
    ListsRules(catalogue, findings, rules) && forall rule :: rule in listed <==> Listed(rules, rule)
  }

  /** A rule is added exactly when the set did not have it. */
  lemma ListsNext(catalogue: seq<CatalogueRule>, findings: seq<Finding>, rules: seq<ListedRule>, listed: set<string>,
                  finding: Finding)
    requires Listing(catalogue, findings, rules, listed)
    ensures if finding.rule in listed then Listing(catalogue, findings + [finding], rules, listed)
            else Listing(catalogue, findings + [finding], rules + [RuleOf(catalogue, finding.rule)],
                         listed + {finding.rule})
  {
    if finding.rule in listed {
      ListsKnown(catalogue, findings, rules, finding);
    } else {
      ListsNew(catalogue, findings, rules, finding);
      ListedSnoc(rules, RuleOf(catalogue, finding.rule));
    }
  }

  lemma ListedSnoc(rules: seq<ListedRule>, new_: ListedRule)
    ensures forall rule :: Listed(rules + [new_], rule) <==> Listed(rules, rule) || rule == new_.id
  {
    var all := rules + [new_];
    forall rule ensures Listed(all, rule) <==> Listed(rules, rule) || rule == new_.id {
      if k :| 0 <= k < |rules| && rules[k].id == rule {
        assert all[k].id == rule;
      }
      assert all[|rules|].id == new_.id;
    }
  }

  /** What was reported stays reported, first at the same place. */
  lemma ReportedSnoc(findings: seq<Finding>, finding: Finding, rule: string)
    requires Reported(findings, rule)
    ensures Reported(findings + [finding], rule)
    ensures FirstReport(findings + [finding], rule) == FirstReport(findings, rule) < |findings|
  {
    FirstReportMeaning(findings, rule);
    FirstReportSnoc(findings, finding, rule);
    var i :| 0 <= i < |findings| && findings[i].rule == rule;
    assert (findings + [finding])[i].rule == rule;
  }

  /** A finding whose rule is listed. */
  lemma ListsKnown(catalogue: seq<CatalogueRule>, findings: seq<Finding>, rules: seq<ListedRule>, finding: Finding)
    requires ListsRules(catalogue, findings, rules) && Listed(rules, finding.rule)
    ensures ListsRules(catalogue, findings + [finding], rules)
  {
    forall k | 0 <= k < |rules|
      ensures Reported(findings + [finding], rules[k].id)
      ensures FirstReport(findings + [finding], rules[k].id) == FirstReport(findings, rules[k].id)
    {
      ReportedSnoc(findings, finding, rules[k].id);
    }
  }

  /** A finding whose rule is not listed yet. */
  lemma ListsNew(catalogue: seq<CatalogueRule>, findings: seq<Finding>, rules: seq<ListedRule>, finding: Finding)
    requires ListsRules(catalogue, findings, rules) && !Listed(rules, finding.rule)
    ensures ListsRules(catalogue, findings + [finding], rules + [RuleOf(catalogue, finding.rule)])
  {
    var all, rules' := findings + [finding], rules + [RuleOf(catalogue, finding.rule)];
    ListedSnoc(rules, RuleOf(catalogue, finding.rule));
    forall k | 0 <= k < |rules|
      ensures Reported(all, rules[k].id)
      ensures FirstReport(all, rules[k].id) == FirstReport(findings, rules[k].id) < |findings|
    {
      ReportedSnoc(findings, finding, rules[k].id);
    }
    assert all[|findings|].rule == finding.rule;
    FirstReportMeaning(findings, finding.rule);
    FirstReportSnoc(findings, finding, finding.rule);
  }

  /** The listing is determined by the findings. */
  lemma ListingUnique(catalogue: seq<CatalogueRule>, findings: seq<Finding>, a: seq<ListedRule>, b: seq<ListedRule>)
    requires ListsRules(catalogue, findings, a) && ListsRules(catalogue, findings, b)
    ensures a == b
  {
    SameEntries(catalogue, findings, a, b, |a|);
    SameEntries(catalogue, findings, b, a, |b|);
  }

  /** Entry by entry, one listing is the other. */
  lemma {:induction false} SameEntries(catalogue: seq<CatalogueRule>, findings: seq<Finding>, a: seq<ListedRule>,
                                       b: seq<ListedRule>, n: nat)
    requires ListsRules(catalogue, findings, a) && ListsRules(catalogue, findings, b) && n <= |a|
    ensures n <= |b| && forall k :: 0 <= k < n ==> a[k] == b[k]
  {
    if n > 0 {
      SameEntries(catalogue, findings, a, b, n - 1);
      SameNext(catalogue, findings, a, b, n - 1);
    }
  }

  lemma SameNext(catalogue: seq<CatalogueRule>, findings: seq<Finding>, a: seq<ListedRule>, b: seq<ListedRule>, n: nat)
    requires ListsRules(catalogue, findings, a) && ListsRules(catalogue, findings, b) && n < |a| && n <= |b|
    requires forall k :: 0 <= k < n ==> a[k] == b[k]
    ensures n < |b| && a[n] == b[n]
  {
    var at := ListedAt(catalogue, findings, b, a[n].id);
    NotEarlier(catalogue, findings, a, b, n, at);
    var back := ListedAt(catalogue, findings, a, b[n].id);
    NotEarlier(catalogue, findings, b, a, n, back);
    InOrder(catalogue, findings, b, n, at);
    InOrder(catalogue, findings, a, n, back);
    assert at == n;
  }

  /** The next entry of one listing is not among those they share. */
  lemma NotEarlier(catalogue: seq<CatalogueRule>, findings: seq<Finding>, a: seq<ListedRule>, b: seq<ListedRule>,
                   n: nat, at: nat)
    requires ListsRules(catalogue, findings, a) && n < |a| && at < |b| && b[at].id == a[n].id
    requires forall k :: 0 <= k < n && k < |b| ==> a[k] == b[k]
    ensures at >= n
  {
    InOrder(catalogue, findings, a, at, n);
  }

  lemma InOrder(catalogue: seq<CatalogueRule>, findings: seq<Finding>, rules: seq<ListedRule>, j: nat, k: nat)
    requires ListsRules(catalogue, findings, rules)
    ensures j < k < |rules| ==> FirstReport(findings, rules[j].id) < FirstReport(findings, rules[k].id)
  {
  }

  lemma ListedAt(catalogue: seq<CatalogueRule>, findings: seq<Finding>, rules: seq<ListedRule>, rule: string)
    returns (k: nat)
    requires ListsRules(catalogue, findings, rules) && Reported(findings, rule)
    ensures k < |rules| && rules[k].id == rule
  {
    var i :| 0 <= i < |findings| && findings[i].rule == rule;
    assert Listed(rules, findings[i].rule);
    k :| 0 <= k < |rules| && rules[k].id == rule;
  }

  /** Every listed rule was reported, and is described exactly when the catalogue holds it. */
  lemma ListedMeaning(catalogue: seq<CatalogueRule>, findings: seq<Finding>, log: Log, k: nat)
    requires LogOf(catalogue, findings, log) && k < |log.rules|
    ensures exists i :: 0 <= i < |findings| && findings[i].rule == log.rules[k].id
    ensures log.rules[k].described <==> exists j :: 0 <= j < |catalogue| && catalogue[j].id == log.rules[k].id
  {
    DescribeInMeaning(catalogue, log.rules[k].id);
    assert Reported(findings, log.rules[k].id);
  }

  // ---- Nothing is lost ----

  function PlaceOf(places: seq<PhysicalLocation>): Option<SourceLocation> {
    if places == [] then None
    else
      var region := places[0].region;
      Some(SourceLocation(places[0].uri, region.startLine,
                          if region.startColumn.Some? then region.startColumn.value else 0))
  }

  function FindingOf(result: LogResult): Finding {
    Finding(result.ruleId, result.cwe, if result.level == "error" then Error else Warning, result.message,
            PlaceOf(result.locations), PlaceOf(result.related))
  }

  /** The finding can be read back from its result. */
  lemma ResultRoundTrip(catalogue: seq<CatalogueRule>, finding: Finding)
    ensures FindingOf(ResultOf(catalogue, finding)) == finding
  {
    assert "error"[0] != "warning"[0];
  }

  // ---- A valid log, whatever was printed ----

  /** Lines and columns count from 1 (sections 3.30.5 and 3.30.6 of SARIF 2.1.0). */
  predicate ValidPlaces(places: seq<PhysicalLocation>) {
    && |places| <= 1
    && forall i :: 0 <= i < |places| ==> (
      && places[i].uri != "" && places[i].region.startLine >= 1
      && (places[i].region.startColumn.Some? ==> places[i].region.startColumn.value >= 1))
  }

  ghost predicate ValidResult(result: LogResult, rules: seq<ListedRule>) {
    && result.confidence.Some? && result.message != "" && result.level in {"error", "warning"}
    && ValidPlaces(result.locations) && ValidPlaces(result.related)
    && (exists k :: 0 <= k < |rules| && IsTheRule(rules, k, result.ruleId))
  }

  /** Entry `k`, and it alone, lists the rule, with its description. */
  predicate IsTheRule(rules: seq<ListedRule>, k: nat, id: string)
    requires k < |rules|
  {
    rules[k] == ListedRule(id, true) && forall j :: 0 <= j < |rules| && rules[j].id == id ==> j == k
  }

  /** Every well-formed finding gives a valid result. */
  lemma WellFormedIsValid(findings: seq<Finding>, log: Log, i: nat)
    requires LogOf(CATALOGUE, findings, log) && i < |findings| && WellFormed(TABLES, findings[i])
    ensures ValidResult(log.results[i], log.rules)
  {
    var rule := findings[i].rule;
    TablesAreCatalogued(findings[i]);
    DescribeInMeaning(CATALOGUE, rule);
    var k := ListedAt(CATALOGUE, findings, log.rules, rule);
    forall j | 0 <= j < |log.rules| && log.rules[j].id == rule ensures j == k {
    }
    assert IsTheRule(log.rules, k, rule);
  }

  /** The log of any batch, whatever its programs printed and however they ended. */
  lemma BatchLogIsValid(words: EventWords, marks: SourceMarks, options: CliArgs.Options, sources: seq<Source>,
                        tests: seq<TestResult>, log: Log)
    requires AllFromRuns(TABLES, words, marks, options, sources, tests)
    requires LogOf(CATALOGUE, AllFindingsOf(tests), log)
    ensures forall i :: 0 <= i < |log.results| ==> ValidResult(log.results[i], log.rules)
  {
    BatchFindingsWellFormed(TABLES, words, marks, options, sources, tests);
    forall i | 0 <= i < |log.results| ensures ValidResult(log.results[i], log.rules) {
      WellFormedIsValid(AllFindingsOf(tests), log, i);
    }
  }
}
