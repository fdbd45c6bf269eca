/**
 Findings, the rule catalogue and the report tables of src/findings.cpp. The prose of a
 rule's title and description is not part of this model; its confidence is.
 */
module Rules {
  import opened Text
  import opened Sites

  datatype Severity = Warning | Error

  datatype Finding = Finding(
    rule: string,
    cwe: string,
    severity: Severity,
    message: string,
    location: Option<SourceLocation>,
    allocation: Option<SourceLocation>)

  const HEAP_OVERFLOW := "heap-buffer-overflow"
  const STACK_OVERFLOW := "stack-buffer-overflow"
  const USE_AFTER_FREE := "heap-use-after-free"
  const DOUBLE_FREE := "double-free"
  const MEMORY_LEAK := "memory-leak"
  const VTABLE_NULL_THIS := "vtable-null-this"
  const VTABLE_FREED := "vtable-use-after-free"
  const VTABLE_CORRUPTED := "vtable-corrupted"
  const VCALL_TARGET := "vcall-invalid-target"
  const VTABLE_MISMATCH := "vtable-type-mismatch"
  const VTABLE_OTHER := "vtable-diagnostic"

  /** What a SARIF consumer is told of a rule: "high", "medium" or "low" confidence. */
  datatype CatalogueRule = CatalogueRule(id: string, confidence: string)

  const CATALOGUE: seq<CatalogueRule> := [
    CatalogueRule(HEAP_OVERFLOW, "high"),
    CatalogueRule(STACK_OVERFLOW, "high"),
    CatalogueRule(USE_AFTER_FREE, "high"),
    CatalogueRule(DOUBLE_FREE, "high"),
    CatalogueRule(MEMORY_LEAK, "high"),
    CatalogueRule(VTABLE_NULL_THIS, "high"),
    CatalogueRule(VTABLE_FREED, "high"),
    CatalogueRule(VTABLE_CORRUPTED, "high"),
    CatalogueRule(VCALL_TARGET, "high"),
    CatalogueRule(VTABLE_MISMATCH, "medium"),
    CatalogueRule(VTABLE_OTHER, "low")
  ]

  /** The confidence of `rule`; nothing for a rule outside the catalogue. */
  function DescribeIn(catalogue: seq<CatalogueRule>, rule: string): Option<string> {
    if catalogue == [] then None
    else if catalogue[0].id == rule then Some(catalogue[0].confidence)
    else DescribeIn(catalogue[1..], rule)
  }

  ghost predicate Catalogued(rule: string) {
    exists k :: 0 <= k < |CATALOGUE| && CATALOGUE[k].id == rule
  }

  lemma {:induction false} DescribeInMeaning(catalogue: seq<CatalogueRule>, rule: string)
    ensures DescribeIn(catalogue, rule).Some? <==> exists k :: 0 <= k < |catalogue| && catalogue[k].id == rule
  {
    if catalogue != [] {
      DescribeInMeaning(catalogue[1..], rule);
      if k :| 0 <= k < |catalogue| && catalogue[k].id == rule && k > 0 {
        assert catalogue[1..][k - 1].id == rule;
      }
    }
  }

  /** The confidence is the one at the rule's first entry. */
  lemma {:induction false} DescribedByFirst(catalogue: seq<CatalogueRule>, k: nat)
    requires k < |catalogue| && forall j :: 0 <= j < k ==> catalogue[j].id != catalogue[k].id
    ensures DescribeIn(catalogue, catalogue[k].id) == Some(catalogue[k].confidence)
    decreases k
  {
    if k > 0 {
      DescribedByFirst(catalogue[1..], k - 1);
    }
  }


  /** The length, the first byte and the eighth byte of a rule's name tell it from every other. */
  function IdMark(k: nat): (nat, char, char)
    requires k < 11
  {
    [(20, 'h', 'f'), (21, 's', 'u'), (19, 'h', 'e'), (11, 'd', 'f'), (11, 'm', 'l'), (16, 'v', 'n'),
     (21, 'v', 'u'), (16, 'v', 'c'), (20, 'v', 'n'), (20, 'v', 't'), (17, 'v', 'd')][k]
  }

  lemma IdIsMarked(k: nat)
    requires k < 11
    ensures |CATALOGUE| == 11
    ensures var id, mark := CATALOGUE[k].id, IdMark(k); |id| == mark.0 && id[0] == mark.1 && id[7] == mark.2
  {
    if k < 4 {
      assert CATALOGUE[0].id == "heap-buffer-overflow" && CATALOGUE[1].id == "stack-buffer-overflow";
      assert CATALOGUE[2].id == "heap-use-after-free" && CATALOGUE[3].id == "double-free";
    } else if k < 8 {
      assert CATALOGUE[4].id == "memory-leak" && CATALOGUE[5].id == "vtable-null-this";
      assert CATALOGUE[6].id == "vtable-use-after-free" && CATALOGUE[7].id == "vtable-corrupted";
    } else {
      assert CATALOGUE[8].id == "vcall-invalid-target" && CATALOGUE[9].id == "vtable-type-mismatch";
      assert CATALOGUE[10].id == "vtable-diagnostic";
    }
  }

  /** The confidence of the analyzer's rule at `k`. */
  lemma ConfidenceAt(k: nat)
    requires k < 11
    ensures |CATALOGUE| == 11 && DescribeIn(CATALOGUE, CATALOGUE[k].id) == Some(CATALOGUE[k].confidence)
  {
    IdIsMarked(k);
    forall j | 0 <= j < k ensures CATALOGUE[j].id != CATALOGUE[k].id {
      IdIsMarked(j);
      assert IdMark(j) != IdMark(k);
    }
    DescribedByFirst(CATALOGUE, k);
  }

  /** The rules of a fault seen while the program ran. */
  predicate Observed(rule: string) {
    rule in {"heap-buffer-overflow", "stack-buffer-overflow", "heap-use-after-free", "double-free", "memory-leak",
             "vtable-null-this", "vtable-use-after-free", "vtable-corrupted", "vcall-invalid-target"}
  }

  /** A fault that was observed is certain; a type mismatch may be a cast, and a vtable report
      without a more specific rule says little. */
  lemma ConfidenceMeaning()
    ensures forall rule :: Observed(rule) ==> DescribeIn(CATALOGUE, rule) == Some("high")
    ensures DescribeIn(CATALOGUE, "vtable-type-mismatch") == Some("medium")
    ensures DescribeIn(CATALOGUE, "vtable-diagnostic") == Some("low")
  {
    forall k | 0 <= k < 11
      ensures |CATALOGUE| == 11 && DescribeIn(CATALOGUE, CATALOGUE[k].id) == Some(CATALOGUE[k].confidence)
    {
      ConfidenceAt(k);
    }
    assert CATALOGUE[0].confidence == "high" && CATALOGUE[1].confidence == "high" && CATALOGUE[2].confidence == "high";
    assert CATALOGUE[3].confidence == "high" && CATALOGUE[4].confidence == "high" && CATALOGUE[5].confidence == "high";
    assert CATALOGUE[6].confidence == "high" && CATALOGUE[7].confidence == "high" && CATALOGUE[8].confidence == "high";
    assert CATALOGUE[9].confidence == "medium" && CATALOGUE[10].confidence == "low";
  }

  /** A bounds report line, "ct: <rule id> WRITE|READ of size N", and its CWE by access. */
  datatype BoundsRule = BoundsRule(rule: string, writeCwe: string, readCwe: string)

  const BOUNDS_RULES: seq<BoundsRule> := [
    BoundsRule(HEAP_OVERFLOW, "CWE-122", "CWE-125"),
    BoundsRule(STACK_OVERFLOW, "CWE-121", "CWE-125"),
    BoundsRule(USE_AFTER_FREE, "CWE-416", "CWE-416")
  ]

  function BoundsPattern(rule: string): string {
    "ct: " + rule + " "
  }

  /** The finding a bounds report's first line opens, by the first rule whose pattern it holds. */
  function BoundsFinding(rules: seq<BoundsRule>, line: string): (finding: Option<Finding>)
    ensures finding.Some? ==> exists k :: 0 <= k < |rules| && finding.value.rule == rules[k].rule
    ensures finding.Some? ==> finding.value.location == None && finding.value.allocation == None
  {
    if rules == [] then None
    else
      match Find(line, BoundsPattern(rules[0].rule), 0)
      case None =>
        var later := BoundsFinding(rules[1..], line);
        assert forall k :: 0 <= k < |rules| - 1 ==> rules[1..][k] == rules[k + 1];
        later
      case Some(at) =>
        var message := line[at + 4..];
        var cwe := if Contains(message, " WRITE ") then rules[0].writeCwe else rules[0].readCwe;
        Some(Finding(rules[0].rule, cwe, Error, message, None, None))
  }

  /** A vtable warning prefix and the finding it names, most specific first. */
  datatype VtableRule = VtableRule(warning: string, rule: string, cwe: string, severity: Severity)

  const VTABLE_RULES: seq<VtableRule> := [
    VtableRule("null this pointer", VTABLE_NULL_THIS, "CWE-476", Error),
    VtableRule("vptr on freed object", VTABLE_FREED, "CWE-416", Error),
    VtableRule("vtable resolve failed", VTABLE_CORRUPTED, "CWE-843", Error),
    VtableRule("no vptr", VTABLE_CORRUPTED, "CWE-843", Error),
    VtableRule("target in non-exec memory", VCALL_TARGET, "CWE-843", Error),
    VtableRule("static!=dynamic type", VTABLE_MISMATCH, "CWE-843", Warning),
    VtableRule("module mismatch: ", VTABLE_MISMATCH, "CWE-843", Warning),
    VtableRule("missing typeinfo", VTABLE_OTHER, "CWE-843", Warning)
  ]

  /** The tables a parser reads reports by. */
  datatype Tables = Tables(bounds: seq<BoundsRule>, vtable: seq<VtableRule>)

  /** The tables of the analyzer. Most of what follows holds of any tables. */
  const TABLES := Tables(BOUNDS_RULES, VTABLE_RULES)

  lemma EveryTableRuleIsCatalogued()
    ensures forall k :: 0 <= k < |BOUNDS_RULES| ==> Catalogued(BOUNDS_RULES[k].rule)
    ensures forall k :: 0 <= k < |VTABLE_RULES| ==> Catalogued(VTABLE_RULES[k].rule)
    ensures Catalogued(DOUBLE_FREE) && Catalogued(MEMORY_LEAK) && Catalogued(VTABLE_OTHER)
  {
    assert CATALOGUE[0].id == HEAP_OVERFLOW;
    assert CATALOGUE[1].id == STACK_OVERFLOW;
    assert CATALOGUE[2].id == USE_AFTER_FREE;
    assert CATALOGUE[3].id == DOUBLE_FREE;
    assert CATALOGUE[4].id == MEMORY_LEAK;
    assert CATALOGUE[5].id == VTABLE_NULL_THIS;
    assert CATALOGUE[6].id == VTABLE_FREED;
    assert CATALOGUE[7].id == VTABLE_CORRUPTED;
    assert CATALOGUE[8].id == VCALL_TARGET;
    assert CATALOGUE[9].id == VTABLE_MISMATCH;
    assert CATALOGUE[10].id == VTABLE_OTHER;
  }
}
