/**
 A box the runtime logged at WARN level (`DiagnosticBox` of src/findings.cpp): rows
 "│ label : value │" between a title line and a line with "└". The box drawing
 characters are three bytes each.
 */
module DiagnosticBoxes {
  import opened Text
  import opened Sites
  import opened Rules

  const BAR := "\U{E2}\U{94}\U{82}"
  const CORNER := "\U{E2}\U{94}\U{94}"
  const OPEN := BAR + " "
  const CLOSE := " " + BAR

  datatype Row = Row(key: string, value: string)

  /** The line starts a box. */
  predicate Opens(line: string) {
    Contains(line, "[WARN]") && (EndsWith(line, "[VTABLE]") || EndsWith(line, "[VCALL]"))
  }

  /** The line ends a box. */
  predicate Closes(line: string) {
    Contains(line, CORNER)
  }

  /** What a line holds between its first "│ " and its last " │", when they do not overlap. */
  function Inner(line: string): Option<string> {
    match (Find(line, OPEN, 0), RFind(line, CLOSE))
    case (Some(open), Some(close)) =>
      if close < open + |OPEN| then None else Some(line[open + |OPEN|..close])
    case (_, _) => None
  }

  /** The label and value of a row line. */
  function RowOf(line: string): Option<Row> {
    match Inner(line)
    case None => None
    case Some(text) =>
      var colon := IndexOf(text, ':');
      if colon == |text| then None
      else Some(Row(Trim(text[..colon]), Trim(text[colon + 1..])))
  }

  /** The rows after a line: a blank label continues the previous value. */
  function RowsAfter(rows: seq<Row>, line: string): seq<Row> {
    match RowOf(line)
    case None => rows
    case Some(row) =>
      if row.key == "" && rows != [] then
        rows[|rows| - 1 := Row(rows[|rows| - 1].key, rows[|rows| - 1].value + row.value)]
      else rows + [row]
  }

  // ---- The finding of a box ----

  /** The values of the rows labelled `key`, in order. */
  function ValuesOf(rows: seq<Row>, key: string): seq<string> {
    if rows == [] then []
    else (if rows[0].key == key then [rows[0].value] else []) + ValuesOf(rows[1..], key)
  }

  function DropLeadingEmpty(values: seq<string>): seq<string> {
    if values != [] && values[0] == "" then DropLeadingEmpty(values[1..]) else values
  }

  function BoxMessage(warnings: seq<string>): string {
    Join(DropLeadingEmpty(warnings), "; ")
  }

  /** The first entry of `table` at or after `k` that `value` starts with, or the table's length. */
  function FirstMatch(table: seq<VtableRule>, value: string, k: nat): (r: nat)
    requires k <= |table|
    ensures k <= r <= |table|
    decreases |table| - k
  {
    if k == |table| || StartsWith(value, table[k].warning) then k else FirstMatch(table, value, k + 1)
  }

  /** The earliest entry of `table` any warning matches, or the table's length. */
  function MostSpecific(table: seq<VtableRule>, warnings: seq<string>): (r: nat)
    ensures r <= |table|
  {
    if warnings == [] then |table|
    else
      var first, rest := FirstMatch(table, warnings[0], 0), MostSpecific(table, warnings[1..]);
      if first < rest then first else rest
  }

  /** The entry at `k`, or what the source reports when none matched. */
  function EntryAt(table: seq<VtableRule>, k: nat): VtableRule {
    if k < |table| then table[k] else VtableRule("", VTABLE_OTHER, "CWE-843", Warning)
  }

  /** The location the last "site" row names. */
  function BoxLocation(rows: seq<Row>): Option<SourceLocation> {
    var sites := ValuesOf(rows, "site");
    if sites == [] then None else SiteOf(sites[|sites| - 1])
  }

  function BoxFinding(table: seq<VtableRule>, rows: seq<Row>): Option<Finding> {
    var warnings := ValuesOf(rows, "warn");
    var message, entry := BoxMessage(warnings), EntryAt(table, MostSpecific(table, warnings));
    if message == "" then None
    else Some(Finding(entry.rule, entry.cwe, entry.severity, message, BoxLocation(rows), None))
  }

  class DiagnosticBox {
    var rows: seq<Row>

    constructor ()
      ensures rows == []
    {
      rows := [];
    }

    method AddRow(line: string)
      modifies this
      ensures rows == RowsAfter(old(rows), line)
    {
      var row := RowOf(line);
      if row.None? {
        return;
      }
      if row.value.key == "" && rows != [] {
        var last := rows[|rows| - 1];
        rows := rows[|rows| - 1 := last.(value := last.value + row.value.value)];
      } else {
        rows := rows + [row.value];
      }
    }

    /** One pass over the rows: the last site, the joined warnings, the earliest entry matched. */
    method ToFinding(table: seq<VtableRule>) returns (finding: Option<Finding>)
      ensures finding == BoxFinding(table, rows)
    {
      var message, location, rule := "", None, |table|;
      for i := 0 to |rows|
        invariant message == BoxMessage(ValuesOf(rows[..i], "warn"))
        invariant rule == MostSpecific(table, ValuesOf(rows[..i], "warn"))
        invariant location == BoxLocation(rows[..i])
      {
        var row := rows[i];
        RowStep(table, rows, i);
        if row.key == "site" {
          location := ParseSite(row.value);
        } else if row.key == "warn" {
          if message != "" {
            message := message + "; ";
          }
          message := message + row.value;
          var candidate := MatchWarning(table, row.value);
          if candidate < rule {
            rule := candidate;
          }
        }
      }
      assert rows[..|rows|] == rows;
      if message == "" {
        return None;
      }
      var named := EntryAt(table, rule);
      return Some(Finding(named.rule, named.cwe, named.severity, message, location, None));
    }
  }

  /** The first candidate the value starts with; the scan stops there. */
  method MatchWarning(table: seq<VtableRule>, value: string) returns (k: nat)
    ensures k == FirstMatch(table, value, 0)
  {
    k := 0;
    while k < |table| && !StartsWith(value, table[k].warning)
      invariant k <= |table|
      invariant FirstMatch(table, value, 0) == FirstMatch(table, value, k)
    {
      k := k + 1;
    }
  }

  lemma {:induction false} ValuesOfSnoc(rows: seq<Row>, row: Row, key: string)
    ensures ValuesOf(rows + [row], key)
      == if row.key == key then ValuesOf(rows, key) + [row.value] else ValuesOf(rows, key)
  {
    if rows == [] {
      assert [row][1..] == [];
    } else {
      ValuesOfSnoc(rows[1..], row, key);
      assert (rows + [row])[1..] == rows[1..] + [row];
    }
  }

  lemma {:induction false} JoinSnoc(values: seq<string>, value: string, separator: string)
    ensures Join(values + [value], separator)
      == (if values == [] then "" else Join(values, separator) + separator) + value
  {
    if |values| > 1 {
      JoinSnoc(values[1..], value, separator);
      assert (values + [value])[1..] == values[1..] + [value];
    } else if |values| == 1 {
      assert (values + [value])[1..] == [value];
    }
  }

  lemma {:induction false} DropLeadingEmptySnoc(values: seq<string>, value: string)
    ensures DropLeadingEmpty(values + [value])
      == if DropLeadingEmpty(values) != [] || value != "" then DropLeadingEmpty(values) + [value] else []
  {
    if values == [] {
      assert [value][1..] == [];
      assert DropLeadingEmpty([]) == [];
    } else if values[0] == "" {
      DropLeadingEmptySnoc(values[1..], value);
      assert (values + [value])[1..] == values[1..] + [value];
    }
  }

  lemma {:induction false} DropLeadingEmptyHead(values: seq<string>)
    ensures DropLeadingEmpty(values) != [] ==> DropLeadingEmpty(values)[0] != ""
    ensures DropLeadingEmpty(values) != [] <==> exists k :: 0 <= k < |values| && values[k] != ""
  {
    if values != [] && values[0] == "" {
      DropLeadingEmptyHead(values[1..]);
      if k :| 0 <= k < |values| && values[k] != "" {
        assert values[1..][k - 1] != "";
      }
    }
  }

  /** A message one warning longer: a separator only after some text. */
  function MessageWith(message: string, value: string): string {
    (if message == "" then "" else message + "; ") + value
  }

  lemma BoxMessageSnoc(warnings: seq<string>, value: string)
    ensures BoxMessage(warnings + [value])
      == MessageWith(BoxMessage(warnings), value)
  {
    var kept := DropLeadingEmpty(warnings);
    DropLeadingEmptySnoc(warnings, value);
    DropLeadingEmptyHead(warnings);
    JoinSnoc(kept, value, "; ");
  }

  lemma {:induction false} MostSpecificSnoc(table: seq<VtableRule>, warnings: seq<string>, value: string)
    ensures MostSpecific(table, warnings + [value])
      == if FirstMatch(table, value, 0) < MostSpecific(table, warnings) then FirstMatch(table, value, 0)
         else MostSpecific(table, warnings)
  {
    if warnings == [] {
      assert [value][1..] == [];
    } else {
      MostSpecificSnoc(table, warnings[1..], value);
      assert (warnings + [value])[1..] == warnings[1..] + [value];
    }
  }

  /** What one more row adds to the location, the message and the entry of a box. */
  lemma RowStep(table: seq<VtableRule>, rows: seq<Row>, i: nat)
    requires i < |rows|
    ensures BoxLocation(rows[..i + 1])
      == if rows[i].key == "site" then SiteOf(rows[i].value) else BoxLocation(rows[..i])
    ensures BoxMessage(ValuesOf(rows[..i + 1], "warn"))
      == if rows[i].key == "warn" then MessageWith(BoxMessage(ValuesOf(rows[..i], "warn")), rows[i].value)
         else BoxMessage(ValuesOf(rows[..i], "warn"))
    ensures MostSpecific(table, ValuesOf(rows[..i + 1], "warn"))
      == if rows[i].key == "warn"
            && FirstMatch(table, rows[i].value, 0) < MostSpecific(table, ValuesOf(rows[..i], "warn"))
         then FirstMatch(table, rows[i].value, 0)
         else MostSpecific(table, ValuesOf(rows[..i], "warn"))
  {
    assert rows[..i + 1] == rows[..i] + [rows[i]];
    ValuesOfSnoc(rows[..i], rows[i], "site");
    ValuesOfSnoc(rows[..i], rows[i], "warn");
    BoxMessageSnoc(ValuesOf(rows[..i], "warn"), rows[i].value);
    MostSpecificSnoc(table, ValuesOf(rows[..i], "warn"), rows[i].value);
  }

  // ---- The most specific rule ----

  /** `value` is one of the warnings and starts with entry `k`'s text. */
  ghost predicate Names(table: seq<VtableRule>, warnings: seq<string>, value: string, k: nat)
    requires k < |table|
  {
    value in warnings && StartsWith(value, table[k].warning)
  }

  lemma {:induction false} FirstMatchMeaning(table: seq<VtableRule>, value: string, k: nat)
    requires k <= |table|
    ensures var r := FirstMatch(table, value, k);
      && (forall j :: k <= j < r ==> !StartsWith(value, table[j].warning))
      && (r < |table| ==> StartsWith(value, table[r].warning))
    decreases |table| - k
  {
    if k < |table| && !StartsWith(value, table[k].warning) {
      FirstMatchMeaning(table, value, k + 1);
    }
  }

  /** The box's entry is the minimum over every match of every warning, not only first matches. */
  lemma {:induction false} MostSpecificIsMinimum(table: seq<VtableRule>, warnings: seq<string>)
    ensures forall value, k: nat ::
      k < |table| && Names(table, warnings, value, k) ==> MostSpecific(table, warnings) <= k
    ensures MostSpecific(table, warnings) < |table| ==> (
      exists value :: Names(table, warnings, value, MostSpecific(table, warnings)))
  {
    if warnings != [] {
      var first, rest := FirstMatch(table, warnings[0], 0), MostSpecific(table, warnings[1..]);
      FirstMatchMeaning(table, warnings[0], 0);
      MostSpecificIsMinimum(table, warnings[1..]);
      forall value, k: nat | k < |table| && Names(table, warnings, value, k)
        ensures MostSpecific(table, warnings) <= k
      {
        if value != warnings[0] {
          assert Names(table, warnings[1..], value, k);
        }
      }
      if first < rest {
        assert Names(table, warnings, warnings[0], first);
      } else if rest < |table| {
        var value :| Names(table, warnings[1..], value, rest);
        assert Names(table, warnings, value, rest);
      }
    }
  }

  /** Adding warnings, in any place and order, never makes the rule less specific. */
  lemma MoreWarningsMoreSpecific(table: seq<VtableRule>, fewer: seq<string>, more: seq<string>)
    requires forall value :: value in fewer ==> value in more
    ensures MostSpecific(table, more) <= MostSpecific(table, fewer)
  {
    MostSpecificIsMinimum(table, fewer);
    MostSpecificIsMinimum(table, more);
    if MostSpecific(table, fewer) < |table| {
      var value :| Names(table, fewer, value, MostSpecific(table, fewer));
      assert Names(table, more, value, MostSpecific(table, fewer));
    }
  }

  predicate SameVerdict(a: Finding, b: Finding) {
    a.rule == b.rule && a.cwe == b.cwe && a.severity == b.severity
  }

  ghost predicate SaySomething(warnings: seq<string>) {
    exists value :: value in warnings && value != ""
  }

  /** A box is a finding exactly when one of its warnings says something. */
  lemma BoxFindingExists(table: seq<VtableRule>, rows: seq<Row>)
    ensures BoxFinding(table, rows).Some? <==> SaySomething(ValuesOf(rows, "warn"))
  {
    BoxMessageEmpty(ValuesOf(rows, "warn"));
  }

  lemma BoxMessageEmpty(warnings: seq<string>)
    ensures BoxMessage(warnings) != "" <==> SaySomething(warnings)
  {
    var kept := DropLeadingEmpty(warnings);
    DropLeadingEmptyHead(warnings);
    if kept != [] {
      assert |Join(kept, "; ")| >= |kept[0]| > 0;
      var k :| 0 <= k < |warnings| && warnings[k] != "";
      assert warnings[k] in warnings;
    } else {
      forall value | value in warnings ensures value == "" {
        var k :| 0 <= k < |warnings| && warnings[k] == value;
      }
    }
  }

  lemma SameWarningsSameMinimum(table: seq<VtableRule>, a: seq<string>, b: seq<string>)
    requires multiset(a) == multiset(b)
    ensures MostSpecific(table, a) == MostSpecific(table, b)
    ensures SaySomething(a) <==> SaySomething(b)
  {
    forall value ensures value in a <==> value in b {
      assert value in a <==> value in multiset(a);
      assert value in b <==> value in multiset(b);
    }
    MoreWarningsMoreSpecific(table, a, b);
    MoreWarningsMoreSpecific(table, b, a);
  }

  /** Two boxes with the same warnings in any order name the same rule, CWE and severity. */
  lemma WarningOrderIrrelevant(table: seq<VtableRule>, a: seq<Row>, b: seq<Row>)
    requires multiset(ValuesOf(a, "warn")) == multiset(ValuesOf(b, "warn"))
    ensures BoxFinding(table, a).Some? <==> BoxFinding(table, b).Some?
    ensures BoxFinding(table, a).Some? ==> SameVerdict(BoxFinding(table, a).value, BoxFinding(table, b).value)
  {
    SameWarningsSameMinimum(table, ValuesOf(a, "warn"), ValuesOf(b, "warn"));
    BoxFindingExists(table, a);
    BoxFindingExists(table, b);
  }
}
