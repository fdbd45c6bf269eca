/**
 A printer for the runtime's reports, in the formats of unittests/findings_test.cpp, and
 the round trip: parsing a printed log yields the reports that went in, in order.
 */
module RenderedLog {
  import opened Text
  import opened Sites
  import opened Fields
  import opened Rules
  import opened DiagnosticBoxes
  import opened BoxWrapping
  import opened Phrases
  import opened ReportParser
  import opened Streaming

  // ---- The grammar ----

  /** A site as printed: unknown, or a location with or without its column. */
  datatype PrintedSite = Unknown | At(location: SourceLocation, withColumn: bool)

  datatype Report =
    | Bounds(pid: string, rule: nat, write: bool, size: string,
             access: PrintedSite, ptr: string, offset: string,
             allocSize: string, allocSite: PrintedSite, base: string, details: seq<string>)
    | DoubleFree(pid: string, ptr: string, site: PrintedSite, allocSite: PrintedSite)
    | Leak(pid: string, ptr: string, size: string, allocSite: PrintedSite)
    | Box(prefix: string, tag: string, top: string, entries: seq<Entry>, bottom: string)
    | Noise(line: string)

  function SiteText(site: PrintedSite): string {
    match site
    case Unknown => "<unknown>"
    case At(location, withColumn) => PrintSite(location, withColumn)
  }

  function SiteMeant(site: PrintedSite): Option<SourceLocation> {
    match site
    case Unknown => None
    case At(location, _) => Some(location)
  }

  /** The file has no blanks; a site without a column has none to lose, and no number to gain one. */
  ghost predicate GoodSite(site: PrintedSite) {
    site.At? ==>
      && ValidLocation(site.location) && Lacks(site.location.file, ' ') && Lacks(site.location.file, '\n')
      && (site.withColumn || (site.location.column == 0 && !EndsInNumber(site.location.file)))
  }

  /** Digits and letters, as in numbers and addresses. */
  predicate Word(s: string) {
    s != "" && forall i :: 0 <= i < |s| ==> IsDigit(s[i]) || 'a' <= s[i] <= 'z' || 'A' <= s[i] <= 'Z'
  }

  predicate Number(s: string) {
    s != "" && AllDigits(s)
  }

  /** The words that start a log line. */
  function LogHead(pid: string, level: string): seq<string> {
    ["|" + pid + "|", "==ct==", level]
  }

  function BoundsWords(rule: string, write: bool, size: string): seq<string> {
    [rule, if write then "WRITE" else "READ", "of", "size", size]
  }

  function BoundsHead(pid: string, rule: string, write: bool, size: string): seq<string> {
    LogHead(pid, "[ERROR]") + ["ct:"] + BoundsWords(rule, write, size)
  }

  function AccessLine(access: PrintedSite, ptr: string, offset: string): seq<string> {
    ["", "", "access=" + SiteText(access), "ptr=" + ptr, "offset=" + offset]
  }

  function AllocLine(size: string, site: PrintedSite, base: string): seq<string> {
    ["", "", "alloc_size=" + size, "alloc_site=" + SiteText(site), "base=" + base]
  }

  function DoubleFreeTail(ptr: string, site: PrintedSite, allocSite: PrintedSite): seq<string> {
    ["tracing-free", "ptr=" + ptr, "(double", "free)", "site=" + SiteText(site), "alloc_site=" + SiteText(allocSite)]
  }

  function DoubleFreeWords(pid: string, ptr: string, site: PrintedSite, allocSite: PrintedSite): seq<string> {
    LogHead(pid, "[WARN]") + DoubleFreeTail(ptr, site, allocSite)
  }

  function LeakTail(ptr: string, size: string, allocSite: PrintedSite): seq<string> {
    ["ct:", "leak", "ptr=" + ptr, "size=" + size, "alloc_site=" + SiteText(allocSite)]
  }

  function LeakWords(pid: string, ptr: string, size: string, allocSite: PrintedSite): seq<string> {
    LogHead(pid, "[WARN]") + LeakTail(ptr, size, allocSite)
  }

  /** The lines of a report. */
  function ReportLines(tables: Tables, report: Report): seq<string>
    requires report.Bounds? ==> report.rule < |tables.bounds|
  {
    match report
    case Bounds(pid, rule, write, size, access, ptr, offset, allocSize, allocSite, base, details) =>
      [Spaced(BoundsHead(pid, tables.bounds[rule].rule, write, size)),
       Spaced(AccessLine(access, ptr, offset)), Spaced(AllocLine(allocSize, allocSite, base))] + details
    case DoubleFree(pid, ptr, site, allocSite) => [Spaced(DoubleFreeWords(pid, ptr, site, allocSite))]
    case Leak(pid, ptr, size, allocSite) => [Spaced(LeakWords(pid, ptr, size, allocSite))]
    case Box(prefix, tag, top, entries, bottom) =>
      [prefix + tag, prefix + top] + BoxLines(prefix, entries) + [prefix + bottom]
    case Noise(line) => [line]
  }

  /** The values printed under a label, in order, each put together again. */
  function TextsUnder(entries: seq<Entry>, key: string): seq<string> {
    if entries == [] then []
    else
      var text := entries[0].first.text + Texts(entries[0].wrapped);
      (if entries[0].key == key then [text] else []) + TextsUnder(entries[1..], key)
  }

  /** The warnings from the first one on that says something, with separators. */
  function Said(warnings: seq<string>): string {
    if warnings != [] && warnings[0] == "" then Said(warnings[1..]) else Join(warnings, "; ")
  }

  predicate SomeStartsWith(texts: seq<string>, start: string) {
    exists k :: 0 <= k < |texts| && StartsWith(texts[k], start)
  }

  /** The first rule of the table that any of the warnings starts with. */
  function Ranked(table: seq<VtableRule>, warnings: seq<string>): VtableRule {
    if table == [] then VtableRule("", "vtable-diagnostic", "CWE-843", Warning)
    else if SomeStartsWith(warnings, table[0].warning) then table[0]
    else Ranked(table[1..], warnings)
  }

  /** The finding a box stands for, by what was printed in it: at its last site, with no allocation. */
  function BoxExpected(table: seq<VtableRule>, entries: seq<Entry>): seq<Finding> {
    var warnings, sites := TextsUnder(entries, "warn"), TextsUnder(entries, "site");
    var rule := Ranked(table, warnings);
    var location := if sites == [] then None else SiteOf(sites[|sites| - 1]);
    if Said(warnings) == "" then [] else [Finding(rule.rule, rule.cwe, rule.severity, Said(warnings), location, None)]
  }

  /** The findings a report stands for: one, or none for noise and a box without warnings. */
  function Expected(tables: Tables, report: Report): seq<Finding>
    requires report.Bounds? ==> report.rule < |tables.bounds|
  {
    match report
    case Bounds(_, rule, write, size, access, _, _, _, allocSite, _, _) =>
      var entry := tables.bounds[rule];
      [Finding(entry.rule, if write then entry.writeCwe else entry.readCwe, Error,
               Spaced(BoundsWords(entry.rule, write, size)), SiteMeant(access), SiteMeant(allocSite))]
    case DoubleFree(_, _, site, allocSite) =>
      [Finding(DOUBLE_FREE, "CWE-415", Error, "double free", SiteMeant(site), SiteMeant(allocSite))]
    case Leak(_, _, size, allocSite) =>
      [Finding(MEMORY_LEAK, "CWE-401", Warning, "memory leak" + " of " + size + " bytes", None, SiteMeant(allocSite))]
    case Box(_, _, _, entries, _) => BoxExpected(tables.vtable, entries)
    case Noise(_) => []
  }

  /** The bounds rules have distinct one-word names that no other report uses. */
  predicate GoodTables(tables: Tables) {
    && (forall k :: 0 <= k < |tables.bounds| ==> GoodRuleName(tables.bounds[k].rule))
    && (forall j, k :: 0 <= j < k < |tables.bounds| ==> tables.bounds[j].rule != tables.bounds[k].rule)
  }

  predicate GoodRuleName(rule: string) {
    && rule != "" && rule != "leak"
    && Lacks(rule, ' ') && Lacks(rule, ':') && Lacks(rule, 'W') && Lacks(rule, '\n')
  }

  /** A title line: a box at WARN level. */
  predicate Titles(line: string) {
    Contains(line, "[WARN]") && (EndsWith(line, "[VTABLE]") || EndsWith(line, "[VCALL]"))
  }

  /** The three bytes of a corner. */
  predicate Cornered(line: string) {
    Contains(line, ['\U{E2}', '\U{94}', '\U{94}'])
  }

  /** A further line of a bounds report that names no site. */
  predicate GoodDetail(line: string) {
    && StartsWith(line, "  ") && Lacks(line, '\n') && !Titles(line)
    && FieldOf(line, "access") == None && FieldOf(line, "alloc_site") == None
  }

  /** A line that reports nothing: while a bounds report is open an indented one is a further
      line of it; any other is outside reports, whatever fields it has. */
  predicate GoodNoise(tables: Tables, open: bool, line: string) {
    if open && StartsWith(line, "  ") then GoodDetail(line)
    else
      && Lacks(line, '\n') && !Titles(line)
      && (forall k :: 0 <= k < |tables.bounds| ==> !Contains(line, BoundsPattern(tables.bounds[k].rule)))
      && !Contains(line, FREED_TWICE) && !Contains(line, LEAK)
  }

  predicate Ascii(s: string) {
    forall i :: 0 <= i < |s| ==> s[i] < 128 as char
  }

  predicate GoodText(s: string) {
    Lacks(s, '\n') && !Cornered(s)
  }

  predicate GoodBoxCell(cell: Cell) {
    GoodCell(cell) && GoodText(cell.text)
  }

  predicate GoodBoxEntry(entry: Entry) {
    && GoodEntry(entry) && GoodText(entry.key)
    && GoodBoxCell(entry.first) && forall k :: 0 <= k < |entry.wrapped| ==> GoodBoxCell(entry.wrapped[k])
  }

  /** The grammar's side conditions; `open` while a bounds report before is open. */
  ghost predicate GoodReport(tables: Tables, open: bool, report: Report) {
    match report
    case Bounds(pid, rule, write, size, access, ptr, offset, allocSize, allocSite, base, details) =>
      && rule < |tables.bounds|
      && Word(pid) && Number(size) && Word(ptr) && Word(offset) && Number(allocSize) && Word(base)
      && GoodSite(access) && GoodSite(allocSite)
      && forall k :: 0 <= k < |details| ==> GoodDetail(details[k])
    case DoubleFree(pid, ptr, site, allocSite) => Word(pid) && Word(ptr) && GoodSite(site) && GoodSite(allocSite)
    case Leak(pid, ptr, size, allocSite) => Word(pid) && Word(ptr) && Number(size) && GoodSite(allocSite)
    case Box(prefix, tag, top, entries, bottom) =>
      && Ascii(prefix) && Lacks(prefix, '\n') && Contains(prefix, "[WARN]")
      && tag in {"[VTABLE]", "[VCALL]"}
      && GoodText(top) && Lacks(top, '\U{82}') && Cornered(bottom) && Lacks(bottom, '\n')
      && forall k :: 0 <= k < |entries| ==> GoodBoxEntry(entries[k])
    case Noise(line) => GoodNoise(tables, open, line)
  }

  /** A bounds report is open after the report. */
  predicate LeavesOpen(open: bool, report: Report) {
    report.Bounds? || (report.Noise? && open && StartsWith(report.line, "  "))
  }

  // ---- Sites ----

  lemma SiteTextReads(site: PrintedSite)
    requires GoodSite(site)
    ensures SiteOf(SiteText(site)) == SiteMeant(site)
  {
    match site
    case Unknown =>
      AfterLastMeaning("<unknown>", ':');
    case At(location, withColumn) =>
      if withColumn {
        SiteRoundTrip(location);
      } else {
        SiteRoundTripNoColumn(location.file, location.line);
      }
  }

  /** A printed site is one token, and ends in a digit or in '>'. */
  lemma SiteTextIsToken(site: PrintedSite)
    requires GoodSite(site)
    ensures Lacks(SiteText(site), ' ') && Lacks(SiteText(site), '\n') && SiteText(site) != ""
    ensures var last := SiteText(site)[|SiteText(site)| - 1]; IsDigit(last) || last == '>'
  {
    if site.At? {
      DigitsLack(Dec(site.location.line));
      DigitsLack(Dec(site.location.column));
    }
  }

  lemma DigitsLack(s: string)
    requires AllDigits(s)
    ensures Lacks(s, ' ') && Lacks(s, '\n') && Lacks(s, 'W') && Lacks(s, ':')
  {
  }

  // ---- Bounds reports ----

  lemma BoundsWordsFacts(rule: string, write: bool, size: string)
    requires GoodRuleName(rule) && Number(size)
    ensures AllTokens(BoundsWords(rule, write, size))
    ensures Contains(Spaced(BoundsWords(rule, write, size)), " WRITE ") <==> write
    ensures forall other :: Lacks(other, ' ') ==>
      (StartsWith(Spaced(BoundsWords(rule, write, size)), other + " ") <==> other == rule)
  {
    var words := BoundsWords(rule, write, size);
    DigitsLack(size);
    var rest := Spaced(words[1..]);
    var later := Spaced(words[2..]);
    assert words[1..][1..] == words[2..];
    assert rest == words[1] + " " + later;
    if write {
      FindHead(rule, rest, "", "WRITE ");
      FirstTokenDecides("WRITE", later, "WRITE");
      assert "" + " " + "WRITE " == " WRITE ";
    } else {
      assert Lacks(rule, 'W') && Lacks(size, 'W');
      assert forall k :: 0 <= k < |words| ==> Lacks(words[k], 'W');
      SpacedLacks(words, 'W');
      LacksContains(Spaced(words), " WRITE ", 1);
    }
    forall other | Lacks(other, ' ')
      ensures StartsWith(Spaced(words), other + " ") <==> other == rule
    {
      FirstTokenDecides(rule, rest, other);
    }
  }

  lemma NotOpens(line: string)
    requires line != "" && line[|line| - 1] != ']'
    ensures !Opens(line)
  {
    EndsUnlike(line, "[VTABLE]");
    EndsUnlike(line, "[VCALL]");
  }

  lemma EndsUnlike(s: string, suffix: string)
    requires suffix != "" && (s == "" || s[|s| - 1] != suffix[|suffix| - 1])
    ensures !EndsWith(s, suffix)
  {
    if |suffix| <= |s| {
      Mismatch(s, suffix, |s| - |suffix|, |suffix| - 1);
    }
  }

  lemma NotEndsCt(token: string)
    requires token == "" || token[|token| - 1] != ':'
    ensures !EndsWith(token, "ct:")
  {
    EndsUnlike(token, "ct:");
  }

  /** A line of words that starts with a log head is not indented. */
  lemma LogHeadNotIndented(pid: string, level: string, words: seq<string>)
    ensures !StartsWith(Spaced(LogHead(pid, level) + words), "  ")
  {
    var tokens := LogHead(pid, level) + words;
    assert tokens[0] == "|" + pid + "|";
    var line := Spaced(tokens);
    assert line[0] == '|';
    Mismatch(line, "  ", 0, 0);
  }

  lemma WordLacks(s: string, c: char)
    requires Word(s) && c in {' ', '\n', '(', ':', ']', '='}
    ensures Lacks(s, c)
  {
  }

  lemma PatternSplit(rule: string)
    ensures BoundsPattern(rule) == "ct:" + " " + (rule + " ")
  {
  }

  lemma {:induction false} LookupAt(tokens: seq<string>, k: nat, key: string, value: string)
    requires k < |tokens| && tokens[k] == key + "=" + value
    requires forall j :: 0 <= j < k ==> !StartsWith(tokens[j], key + "=")
    ensures Lookup(tokens, key) == Some(value)
  {
    if k == 0 {
      assert tokens[0][..|key| + 1] == key + "=";
      assert tokens[0][|key| + 1..] == value;
    } else {
      LookupAt(tokens[1..], k - 1, key, value);
    }
  }

  lemma {:induction false} LookupNone(tokens: seq<string>, key: string)
    requires forall j :: 0 <= j < |tokens| ==> !StartsWith(tokens[j], key + "=")
    ensures Lookup(tokens, key) == None
  {
    if tokens != [] {
      LookupNone(tokens[1..], key);
    }
  }

  lemma LacksEnd(token: string, suffix: string)
    requires suffix != "" && Lacks(token, suffix[0])
    ensures !EndsWith(token, suffix)
  {
    if |suffix| <= |token| {
      Mismatch(token, suffix, |token| - |suffix|, 0);
    }
  }

  /** No token of a log head ends in "ct:" or "(double". */
  lemma LogHeadEnds(pid: string, level: string)
    requires Word(pid) && level in {"[WARN]", "[ERROR]"}
    ensures AllTokens(LogHead(pid, level))
    ensures forall j :: 0 <= j < 3 ==> !EndsWith(LogHead(pid, level)[j], "ct:")
    ensures forall j :: 0 <= j < 3 ==> !EndsWith(LogHead(pid, level)[j], "(double")
  {
    var head := LogHead(pid, level);
    WordLacks(pid, ' ');
    WordLacks(pid, '(');
    forall j | 0 <= j < 3 ensures !EndsWith(head[j], "ct:") && !EndsWith(head[j], "(double") {
      NotEndsCt(head[j]);
      LacksEnd(head[j], "(double");
    }
  }

  /** No field is among the tokens of a log head. */
  lemma LogHeadNoField(pid: string, level: string, key: string)
    requires level in {"[WARN]", "[ERROR]"} && key != "" && key[0] in {'a', 's'}
    ensures Lookup(LogHead(pid, level), key) == None
  {
    var head, pat := LogHead(pid, level), key + "=";
    Mismatch(head[0], pat, 0, 0);
    Mismatch(head[1], pat, 0, 0);
    Mismatch(head[2], pat, 0, 0);
    LookupNone(head, key);
  }

  /** The field of a printed log line is a field of what follows its head. */
  lemma FieldAfterHead(pid: string, level: string, tail: seq<string>, key: string)
    requires Word(pid) && level in {"[WARN]", "[ERROR]"} && AllTokens(tail)
    requires Key(key) && key[0] in {'a', 's'}
    ensures FieldOf(Spaced(LogHead(pid, level) + tail), key) == Lookup(tail, key)
  {
    LogHeadEnds(pid, level);
    LogHeadNoField(pid, level, key);
    FieldSpaced(LogHead(pid, level) + tail, key);
    LookupConcat(LogHead(pid, level), tail, key);
  }

  lemma SiteAfterHead(pid: string, level: string, tail: seq<string>, key: string)
    requires Word(pid) && level in {"[WARN]", "[ERROR]"} && AllTokens(tail)
    requires Key(key) && key[0] in {'a', 's'}
    ensures SiteUnder(Spaced(LogHead(pid, level) + tail), key, None)
      == match Lookup(tail, key) case None => None case Some(site) => SiteOf(site)
  {
    FieldAfterHead(pid, level, tail, key);
  }

  lemma BoundsHeadTokens(pid: string, rule: string, write: bool, size: string)
    requires Word(pid) && GoodRuleName(rule) && Number(size)
    ensures var tokens := BoundsHead(pid, rule, write, size);
      && AllTokens(tokens) && tokens[4..] == BoundsWords(rule, write, size) && |tokens| == 9
      && EndsWith(tokens[3], "ct:")
      && forall j :: 0 <= j < 8 && j != 3 ==> !EndsWith(tokens[j], "ct:")
  {
    var tokens, words := BoundsHead(pid, rule, write, size), BoundsWords(rule, write, size);
    LogHeadEnds(pid, "[ERROR]");
    BoundsWordsFacts(rule, write, size);
    assert tokens[4..] == words;
    forall j | 0 <= j < 4 ensures !EndsWith(words[j], "ct:") {
      NotEndsCt(words[j]);
    }
    forall j | 4 <= j < 8 ensures !EndsWith(tokens[j], "ct:") {
      assert tokens[j] == words[j - 4];
    }
  }

  /** A bounds line holds no other rule's pattern. */
  lemma BoundsMiss(other: string, pid: string, rule: string, write: bool, size: string)
    requires Word(pid) && GoodRuleName(rule) && GoodRuleName(other) && Number(size) && other != rule
    ensures !Contains(Spaced(BoundsHead(pid, rule, write, size)), BoundsPattern(other))
  {
    BoundsHeadTokens(pid, rule, write, size);
    BoundsWordsFacts(rule, write, size);
    PatternSplit(other);
    PhraseNotAt(BoundsHead(pid, rule, write, size), 3, "ct:", other + " ");
  }

  /** A bounds line holds its own rule's pattern first where its words start. */
  lemma BoundsHit(pid: string, rule: string, write: bool, size: string) returns (at: nat)
    requires Word(pid) && GoodRuleName(rule) && Number(size)
    ensures var line := Spaced(BoundsHead(pid, rule, write, size));
      && Find(line, BoundsPattern(rule), 0) == Some(at)
      && at + 4 <= |line| && line[at + 4..] == Spaced(BoundsWords(rule, write, size))
  {
    BoundsHeadTokens(pid, rule, write, size);
    BoundsWordsFacts(rule, write, size);
    PatternSplit(rule);
    at := PhraseAt(BoundsHead(pid, rule, write, size), 3, "ct:", rule + " ");
  }

  /** The first line of a bounds report is read by its own rule, not by one before it. */
  lemma {:induction false} BoundsLine(rules: seq<BoundsRule>, j: nat, k: nat, pid: string, write: bool, size: string)
    requires j <= k < |rules| && Word(pid) && Number(size)
    requires GoodTables(Tables(rules, []))
    ensures var line := Spaced(BoundsHead(pid, rules[k].rule, write, size));
      BoundsFinding(rules[j..], line) == Some(Finding(rules[k].rule,
        if write then rules[k].writeCwe else rules[k].readCwe, Error,
        Spaced(BoundsWords(rules[k].rule, write, size)), None, None))
    decreases k - j
  {
    assert rules[j..][0] == rules[j] && rules[j..][1..] == rules[j + 1..];
    if j < k {
      BoundsMiss(rules[j].rule, pid, rules[k].rule, write, size);
      BoundsLine(rules, j + 1, k, pid, write, size);
    } else {
      var at := BoundsHit(pid, rules[k].rule, write, size);
      BoundsWordsFacts(rules[k].rule, write, size);
    }
  }

  /** What a report adds to any state without an open box. */
  ghost predicate ReadsAs(tables: Tables, st: ParserState, report: Report)
    requires report.Bounds? ==> report.rule < |tables.bounds|
  {
    var end := Run(tables, st, ReportLines(tables, report));
    && end.box == None && end.findings == st.findings + Expected(tables, report)
    && end.inBounds == LeavesOpen(st.inBounds, report)
  }

  /** The lookups in the second line of a bounds report. */
  lemma AccessLookups(access: PrintedSite, ptr: string, offset: string)
    ensures Lookup(AccessLine(access, ptr, offset), "access") == Some(SiteText(access))
    ensures Lookup(AccessLine(access, ptr, offset), "alloc_site") == None
  {
    var tokens, pat := AccessLine(access, ptr, offset), "alloc_site" + "=";
    LookupAt(tokens, 2, "access", SiteText(access));
    forall j | 0 <= j < 5 ensures !StartsWith(tokens[j], pat) {
      Mismatch(tokens[j], pat, 0, 1);
    }
    LookupNone(tokens, "alloc_site");
  }

  lemma AccessFields(access: PrintedSite, ptr: string, offset: string)
    requires GoodSite(access) && Word(ptr) && Word(offset)
    ensures var line := Spaced(AccessLine(access, ptr, offset));
      FieldOf(line, "access") == Some(SiteText(access)) && FieldOf(line, "alloc_site") == None
  {
    SiteTextIsToken(access);
    WordLacks(ptr, ' ');
    WordLacks(offset, ' ');
    var tokens := AccessLine(access, ptr, offset);
    AccessLookups(access, ptr, offset);
    FieldSpaced(tokens, "access");
    FieldSpaced(tokens, "alloc_site");
  }

  /** The lookups in the third line: "alloc_size" is not "alloc_site". */
  lemma AllocLookups(size: string, site: PrintedSite, base: string)
    ensures Lookup(AllocLine(size, site, base), "access") == None
    ensures Lookup(AllocLine(size, site, base), "alloc_site") == Some(SiteText(site))
  {
    var tokens, access, alloc := AllocLine(size, site, base), "access" + "=", "alloc_site" + "=";
    forall j | 0 <= j < 5 ensures !StartsWith(tokens[j], access) {
      Mismatch(tokens[j], access, 0, 1);
    }
    LookupNone(tokens, "access");
    forall j | 0 <= j < 3 ensures !StartsWith(tokens[j], alloc) {
      Mismatch(tokens[j], alloc, 0, if j < 2 then 0 else 8);
    }
    LookupAt(tokens, 3, "alloc_site", SiteText(site));
  }

  lemma AllocFields(size: string, site: PrintedSite, base: string)
    requires GoodSite(site) && Number(size) && Word(base)
    ensures var line := Spaced(AllocLine(size, site, base));
      FieldOf(line, "access") == None && FieldOf(line, "alloc_site") == Some(SiteText(site))
  {
    SiteTextIsToken(site);
    WordLacks(base, ' ');
    DigitsLack(size);
    var tokens := AllocLine(size, site, base);
    AllocLookups(size, site, base);
    FieldSpaced(tokens, "access");
    FieldSpaced(tokens, "alloc_site");
  }

  /** Further lines that name sites replace the places known, even by nothing, and leave the rest. */
  lemma LaterSitesReplace(finding: Finding, site: PrintedSite, ptr: string, offset: string, size: string, base: string)
    requires GoodSite(site) && Word(ptr) && Word(offset) && Number(size) && Word(base)
    ensures WithDetails(finding, Spaced(AccessLine(site, ptr, offset))) == finding.(location := SiteMeant(site))
    ensures WithDetails(finding, Spaced(AllocLine(size, site, base))) == finding.(allocation := SiteMeant(site))
  {
    AccessFields(site, ptr, offset);
    AllocFields(size, site, base);
    SiteTextReads(site);
  }

  /** Further lines without sites change nothing and leave the report open. */
  lemma {:induction false} ReadDetails(tables: Tables, st: ParserState, details: seq<string>)
    requires st.inBounds && forall k :: 0 <= k < |details| ==> GoodDetail(details[k])
    ensures Run(tables, st, details) == st
    decreases |details|
  {
    if details != [] {
      var last := Last(st.findings);
      assert WithDetails(last, details[0]) == last;
      assert ReplaceLast(st.findings, last) == st.findings;
      ReadDetails(tables, st, details[1..]);
    }
  }

  lemma RunThree(tables: Tables, st: ParserState, a: string, b: string, c: string, rest: seq<string>)
    ensures Run(tables, st, [a, b, c] + rest)
      == Run(tables, Step(tables, Step(tables, Step(tables, st, a), b), c), rest)
  {
    assert ([a, b, c] + rest)[1..] == [b, c] + rest;
    assert ([b, c] + rest)[1..] == [c] + rest;
    assert ([c] + rest)[1..] == rest;
    assert Run(tables, st, [a, b, c] + rest) == Run(tables, Step(tables, st, a), [b, c] + rest);
  }

  /** An indented line of an open bounds report. */
  lemma StepDetail(tables: Tables, st: ParserState, line: string)
    requires st.inBounds && StartsWith(line, "  ") && !Opens(line)
    ensures Step(tables, st, line) == State(ReplaceLast(st.findings, WithDetails(Last(st.findings), line)), true, None)
  {
  }

  lemma WordsEndLine(tokens: seq<string>)
    requires tokens != [] && tokens[|tokens| - 1] != ""
    requires var last := tokens[|tokens| - 1]; last[|last| - 1] != ']'
    ensures !Opens(Spaced(tokens))
  {
    LastByte(tokens);
    NotOpens(Spaced(tokens));
  }

  lemma Indented(words: seq<string>)
    requires words != []
    ensures StartsWith(Spaced(["", ""] + words), "  ")
  {
    var tokens := ["", ""] + words;
    var rest := [""] + words;
    assert tokens[1..] == rest && rest[1..] == words;
    assert Spaced(rest) == "" + " " + Spaced(words);
    assert Spaced(tokens) == "" + " " + Spaced(rest);
  }

  /** An indented line of words is a detail line of an open report. */
  lemma IndentedLine(tokens: seq<string>)
    requires |tokens| == 5 && tokens[0] == "" && tokens[1] == "" && tokens[4] != ""
    requires tokens[4][|tokens[4]| - 1] != ']'
    ensures StartsWith(Spaced(tokens), "  ") && !Opens(Spaced(tokens))
  {
    assert tokens == ["", ""] + tokens[2..];
    Indented(tokens[2..]);
    WordsEndLine(tokens);
  }

  /** The first line of a bounds report opens it, whatever was open before. */
  lemma OpenBounds(tables: Tables, st: ParserState, report: Report) returns (st': ParserState)
    requires GoodTables(tables) && report.Bounds? && GoodReport(tables, st.inBounds, report) && st.box == None
    ensures st' == Step(tables, st, ReportLines(tables, report)[0])
    ensures st'.inBounds && st'.box == None
    ensures st'.findings == st.findings + [Expected(tables, report)[0].(location := None, allocation := None)]
  {
    var rules, k := tables.bounds, report.rule;
    var tokens := BoundsHead(report.pid, rules[k].rule, report.write, report.size);
    BoundsHeadTokens(report.pid, rules[k].rule, report.write, report.size);
    assert rules[0..] == rules;
    assert GoodTables(Tables(rules, []));
    BoundsLine(rules, 0, k, report.pid, report.write, report.size);
    assert tokens[8] == report.size;
    WordsEndLine(tokens);
    LogHeadNotIndented(report.pid, "[ERROR]", ["ct:"] + BoundsWords(rules[k].rule, report.write, report.size));
    assert tokens == LogHead(report.pid, "[ERROR]") + (["ct:"] + BoundsWords(rules[k].rule, report.write, report.size));
    st' := Step(tables, st, Spaced(tokens));
  }

  lemma ReadBounds(tables: Tables, st: ParserState, report: Report)
    requires GoodTables(tables) && report.Bounds? && GoodReport(tables, st.inBounds, report) && st.box == None
    ensures ReadsAs(tables, st, report)
  {
    var Bounds(pid, rule, write, size, access, ptr, offset, allocSize, allocSite, base, details) := report;
    var lines := ReportLines(tables, report);
    var st1 := OpenBounds(tables, st, report);
    AccessFields(access, ptr, offset);
    AllocFields(allocSize, allocSite, base);
    SiteTextReads(access);
    SiteTextReads(allocSite);
    IndentedLine(AccessLine(access, ptr, offset));
    IndentedLine(AllocLine(allocSize, allocSite, base));
    StepDetail(tables, st1, lines[1]);
    var st2 := Step(tables, st1, lines[1]);
    StepDetail(tables, st2, lines[2]);
    var st3 := Step(tables, st2, lines[2]);
    ReadDetails(tables, st3, details);
    assert lines == [lines[0], lines[1], lines[2]] + details;
    RunThree(tables, st, lines[0], lines[1], lines[2], details);
  }

  // ---- One-line reports ----

  lemma {:induction false} NoBounds(rules: seq<BoundsRule>, line: string)
    requires forall k :: 0 <= k < |rules| ==> !Contains(line, BoundsPattern(rules[k].rule))
    ensures BoundsFinding(rules, line) == None
  {
    if rules != [] {
      NoBounds(rules[1..], line);
    }
  }

  lemma TwoWords(a: string, b: string, rest: string)
    ensures StartsWith(a + " " + (b + rest), a + " " + b)
  {
    assert a + " " + (b + rest) == (a + " " + b) + rest;
  }

  lemma DoubleFreeTailTokens(ptr: string, site: PrintedSite, allocSite: PrintedSite)
    requires Word(ptr) && GoodSite(site) && GoodSite(allocSite)
    ensures var tail := DoubleFreeTail(ptr, site, allocSite);
      AllTokens(tail) && tail[5] != "" && tail[5][|tail[5]| - 1] != ']'
  {
    WordLacks(ptr, ' ');
    SiteTextIsToken(site);
    SiteTextIsToken(allocSite);
  }

  lemma DoubleFreeTailEnds(ptr: string, site: PrintedSite, allocSite: PrintedSite)
    requires Word(ptr) && GoodSite(site) && GoodSite(allocSite)
    ensures forall j :: 0 <= j < 5 ==> !EndsWith(DoubleFreeTail(ptr, site, allocSite)[j], "ct:")
    ensures forall j :: 0 <= j < 2 ==> !EndsWith(DoubleFreeTail(ptr, site, allocSite)[j], "(double")
  {
    var tail := DoubleFreeTail(ptr, site, allocSite);
    WordLacks(ptr, '(');
    WordLacks(ptr, ':');
    SiteTextIsToken(site);
    forall j | 0 <= j < 5 ensures !EndsWith(tail[j], "ct:") {
      NotEndsCt(tail[j]);
    }
    LacksEnd(tail[0], "(double");
    LacksEnd(tail[1], "(double");
  }

  lemma DoubleFreeTokens(pid: string, ptr: string, site: PrintedSite, allocSite: PrintedSite)
    requires Word(pid) && Word(ptr) && GoodSite(site) && GoodSite(allocSite)
    ensures var tokens := DoubleFreeWords(pid, ptr, site, allocSite);
      && |tokens| == 9 && AllTokens(tokens) && tokens[8] != "" && tokens[8][|tokens[8]| - 1] != ']'
      && (forall j :: 0 <= j < 8 ==> !EndsWith(tokens[j], "ct:"))
      && (forall j :: 0 <= j < 5 ==> !EndsWith(tokens[j], "(double"))
      && tokens[5] == "(double" && tokens[6] == "free)"
  {
    LogHeadEnds(pid, "[WARN]");
    DoubleFreeTailTokens(ptr, site, allocSite);
    DoubleFreeTailEnds(ptr, site, allocSite);
  }

  /** A token with another first byte than the key is no field of it. */
  lemma OtherKey(token: string, key: string)
    requires token != "" && key != "" && token[0] != key[0]
    ensures !StartsWith(token, key + "=")
  {
    Mismatch(token, key + "=", 0, 0);
  }

  lemma DoubleFreeTailHeads(ptr: string, site: PrintedSite, allocSite: PrintedSite)
    ensures var tail := DoubleFreeTail(ptr, site, allocSite);
      forall j :: 0 <= j < 5 ==> (
        && tail[j] != "" && tail[j][0] in {'t', 'p', '(', 'f', 's'} && (j < 4 ==> tail[j][0] != 's'))
  {
  }

  lemma DoubleFreeSite(ptr: string, site: PrintedSite, allocSite: PrintedSite)
    ensures Lookup(DoubleFreeTail(ptr, site, allocSite), "site") == Some(SiteText(site))
  {
    var tail := DoubleFreeTail(ptr, site, allocSite);
    DoubleFreeTailHeads(ptr, site, allocSite);
    forall j | 0 <= j < 4 ensures !StartsWith(tail[j], "site" + "=") {
      OtherKey(tail[j], "site");
    }
    LookupAt(tail, 4, "site", SiteText(site));
  }

  lemma DoubleFreeAllocSite(ptr: string, site: PrintedSite, allocSite: PrintedSite)
    ensures Lookup(DoubleFreeTail(ptr, site, allocSite), "alloc_site") == Some(SiteText(allocSite))
  {
    var tail := DoubleFreeTail(ptr, site, allocSite);
    DoubleFreeTailHeads(ptr, site, allocSite);
    forall j | 0 <= j < 5 ensures !StartsWith(tail[j], "alloc_site" + "=") {
      OtherKey(tail[j], "alloc_site");
    }
    LookupAt(tail, 5, "alloc_site", SiteText(allocSite));
  }

  /** A site printed behind a log head is read back. */
  lemma SitePrinted(pid: string, tail: seq<string>, key: string, site: PrintedSite)
    requires Word(pid) && AllTokens(tail) && Key(key) && key[0] in {'a', 's'} && GoodSite(site)
    requires Lookup(tail, key) == Some(SiteText(site))
    ensures SiteUnder(Spaced(LogHead(pid, "[WARN]") + tail), key, None) == SiteMeant(site)
  {
    SiteTextReads(site);
    SiteAfterHead(pid, "[WARN]", tail, key);
  }

  /** The sites of a double free. */
  lemma DoubleFreeSites(pid: string, ptr: string, site: PrintedSite, allocSite: PrintedSite)
    requires Word(pid) && Word(ptr) && GoodSite(site) && GoodSite(allocSite)
    ensures var line := Spaced(DoubleFreeWords(pid, ptr, site, allocSite));
      SiteUnder(line, "site", None) == SiteMeant(site) && SiteUnder(line, "alloc_site", None) == SiteMeant(allocSite)
  {
    var tail := DoubleFreeTail(ptr, site, allocSite);
    DoubleFreeTailTokens(ptr, site, allocSite);
    DoubleFreeSite(ptr, site, allocSite);
    DoubleFreeAllocSite(ptr, site, allocSite);
    SitePrinted(pid, tail, "site", site);
    SitePrinted(pid, tail, "alloc_site", allocSite);
  }

  /** A line with no token that ends in "ct:" before its last is no bounds report. */
  lemma NoBoundsAmong(tables: Tables, tokens: seq<string>)
    requires GoodTables(tables) && AllTokens(tokens)
    requires forall j :: 0 <= j < |tokens| - 1 ==> !EndsWith(tokens[j], "ct:")
    ensures BoundsFinding(tables.bounds, Spaced(tokens)) == None
  {
    forall k | 0 <= k < |tables.bounds| ensures !Contains(Spaced(tokens), BoundsPattern(tables.bounds[k].rule)) {
      PatternSplit(tables.bounds[k].rule);
      NoPhrase(tokens, "ct:", tables.bounds[k].rule + " ");
    }
    NoBounds(tables.bounds, Spaced(tokens));
  }

  lemma DoubleFreeIsOne(pid: string, ptr: string, site: PrintedSite, allocSite: PrintedSite)
    requires Word(pid) && Word(ptr) && GoodSite(site) && GoodSite(allocSite)
    ensures Contains(Spaced(DoubleFreeWords(pid, ptr, site, allocSite)), FREED_TWICE)
  {
    DoubleFreeTokens(pid, ptr, site, allocSite);
    FreedTwiceFollows(DoubleFreeWords(pid, ptr, site, allocSite));
  }

  lemma FreedTwiceFollows(tokens: seq<string>)
    requires |tokens| == 9 && AllTokens(tokens) && tokens[5] == "(double" && tokens[6] == "free)"
    requires forall j :: 0 <= j < 5 ==> !EndsWith(tokens[j], "(double")
    ensures Contains(Spaced(tokens), FREED_TWICE)
  {
    StartsWithFirst(tokens[6..]);
    FreedTwiceSplits();
    var at := PhraseAt(tokens, 5, "(double", "free)");
  }

  lemma StartsWithFirst(tokens: seq<string>)
    requires |tokens| > 1
    ensures StartsWith(Spaced(tokens), tokens[0])
  {
  }

  lemma FreedTwiceSplits()
    ensures FREED_TWICE == "(double" + " " + "free)"
  {
  }

  lemma ReadDoubleFree(tables: Tables, st: ParserState, report: Report)
    requires GoodTables(tables) && report.DoubleFree? && GoodReport(tables, st.inBounds, report) && st.box == None
    ensures ReadsAs(tables, st, report)
  {
    var DoubleFree(pid, ptr, site, allocSite) := report;
    var tokens := DoubleFreeWords(pid, ptr, site, allocSite);
    DoubleFreeTokens(pid, ptr, site, allocSite);
    DoubleFreeSites(pid, ptr, site, allocSite);
    WordsEndLine(tokens);
    LogHeadNotIndented(pid, "[WARN]", tokens[3..]);
    assert tokens == LogHead(pid, "[WARN]") + tokens[3..];
    NoBoundsAmong(tables, tokens);
    DoubleFreeIsOne(pid, ptr, site, allocSite);
    StepAlone(tables, st, Spaced(tokens));
  }

  /** A line that stands alone adds its own finding. */
  lemma StepAlone(tables: Tables, st: ParserState, line: string)
    requires st.box == None && !Opens(line) && !StartsWith(line, "  ") && BoundsFinding(tables.bounds, line) == None
    ensures Run(tables, st, [line]) == State(Appended(st.findings, LineFinding(line)), false, None)
  {
    assert [line][1..] == [];
  }

  lemma LeakTailIsTokens(ptr: string, size: string, allocSite: PrintedSite)
    requires Word(ptr) && Number(size) && GoodSite(allocSite)
    ensures var tail := LeakTail(ptr, size, allocSite);
      AllTokens(tail) && tail[4] != "" && tail[4][|tail[4]| - 1] != ']'
  {
    WordLacks(ptr, ' ');
    DigitsLack(size);
    SiteTextIsToken(allocSite);
  }

  lemma LeakTailFacts(ptr: string, size: string, allocSite: PrintedSite)
    requires Word(ptr) && Number(size) && GoodSite(allocSite)
    ensures var tail := LeakTail(ptr, size, allocSite);
      && AllTokens(tail) && tail[4] != "" && tail[4][|tail[4]| - 1] != ']'
      && (forall j :: 1 <= j < 4 ==> !EndsWith(tail[j], "ct:"))
      && (forall j :: 0 <= j < 4 ==> !EndsWith(tail[j], "(double"))
  {
    var tail := LeakTail(ptr, size, allocSite);
    LeakTailIsTokens(ptr, size, allocSite);
    WordLacks(ptr, '(');
    WordLacks(ptr, ':');
    DigitsLack(size);
    forall j | 1 <= j < 4 ensures !EndsWith(tail[j], "ct:") {
      NotEndsCt(tail[j]);
    }
    forall j | 0 <= j < 4 ensures !EndsWith(tail[j], "(double") {
      LacksEnd(tail[j], "(double");
    }
  }

  lemma LeakTokens(pid: string, ptr: string, size: string, allocSite: PrintedSite)
    requires Word(pid) && Word(ptr) && Number(size) && GoodSite(allocSite)
    ensures var tokens := LeakWords(pid, ptr, size, allocSite);
      && |tokens| == 8 && AllTokens(tokens) && tokens[7] != "" && tokens[7][|tokens[7]| - 1] != ']'
      && (forall j :: 0 <= j < 7 && j != 3 ==> !EndsWith(tokens[j], "ct:"))
      && (forall j :: 0 <= j < 7 ==> !EndsWith(tokens[j], "(double"))
      && tokens[3] == "ct:" && tokens[4] == "leak" && tokens[5] == "ptr=" + ptr
  {
    LogHeadEnds(pid, "[WARN]");
    LeakTailFacts(ptr, size, allocSite);
  }

  lemma LeakSizeNoSite(ptr: string, size: string, allocSite: PrintedSite)
    ensures Lookup(LeakTail(ptr, size, allocSite), "size") == Some(size)
    ensures Lookup(LeakTail(ptr, size, allocSite), "site") == None
  {
    var tail := LeakTail(ptr, size, allocSite);
    forall j | 0 <= j < 3 ensures !StartsWith(tail[j], "size" + "=") {
      Mismatch(tail[j], "size" + "=", 0, 0);
    }
    LookupAt(tail, 3, "size", size);
    forall j | 0 <= j < 5 ensures !StartsWith(tail[j], "site" + "=") {
      Mismatch(tail[j], "site" + "=", 0, if j == 3 then 2 else 0);
    }
    LookupNone(tail, "site");
  }

  lemma LeakAllocSite(ptr: string, size: string, allocSite: PrintedSite)
    ensures Lookup(LeakTail(ptr, size, allocSite), "alloc_site") == Some(SiteText(allocSite))
  {
    var tail := LeakTail(ptr, size, allocSite);
    forall j | 0 <= j < 4 ensures !StartsWith(tail[j], "alloc_site" + "=") {
      Mismatch(tail[j], "alloc_site" + "=", 0, 0);
    }
    LookupAt(tail, 4, "alloc_site", SiteText(allocSite));
  }

  /** The place of a leak; it has no access. */
  lemma LeakPlaces(pid: string, ptr: string, size: string, allocSite: PrintedSite)
    requires Word(pid) && Word(ptr) && Number(size) && GoodSite(allocSite)
    ensures var line := Spaced(LeakWords(pid, ptr, size, allocSite));
      SiteUnder(line, "site", None) == None && SiteUnder(line, "alloc_site", None) == SiteMeant(allocSite)
  {
    var tail := LeakTail(ptr, size, allocSite);
    LeakTailFacts(ptr, size, allocSite);
    SiteTextReads(allocSite);
    LeakSizeNoSite(ptr, size, allocSite);
    LeakAllocSite(ptr, size, allocSite);
    SiteAfterHead(pid, "[WARN]", tail, "site");
    SiteAfterHead(pid, "[WARN]", tail, "alloc_site");
  }

  /** The size of a leak. */
  lemma LeakSize(pid: string, ptr: string, size: string, allocSite: PrintedSite)
    requires Word(pid) && Word(ptr) && Number(size) && GoodSite(allocSite)
    ensures FieldOf(Spaced(LeakWords(pid, ptr, size, allocSite)), "size") == Some(size)
  {
    LeakTailFacts(ptr, size, allocSite);
    LeakSizeNoSite(ptr, size, allocSite);
    FieldAfterHead(pid, "[WARN]", LeakTail(ptr, size, allocSite), "size");
  }

  lemma ReadLeak(tables: Tables, st: ParserState, report: Report)
    requires GoodTables(tables) && report.Leak? && GoodReport(tables, st.inBounds, report) && st.box == None
    ensures ReadsAs(tables, st, report)
  {
    var Leak(pid, ptr, size, allocSite) := report;
    var tokens := LeakWords(pid, ptr, size, allocSite);
    var line := Spaced(tokens);
    LeakTokens(pid, ptr, size, allocSite);
    LeakPlaces(pid, ptr, size, allocSite);
    LeakSize(pid, ptr, size, allocSite);
    WordsEndLine(tokens);
    LogHeadNotIndented(pid, "[WARN]", tokens[3..]);
    assert tokens == LogHead(pid, "[WARN]") + tokens[3..];
    forall k | 0 <= k < |tables.bounds| ensures !Contains(line, BoundsPattern(tables.bounds[k].rule)) {
      LeakNoBounds(tables.bounds[k].rule, pid, ptr, size, allocSite);
    }
    LeakNotFreedTwice(pid, ptr, size, allocSite);
    LeakIsLeak(pid, ptr, size, allocSite);
    NoBounds(tables.bounds, line);
    StepAlone(tables, st, line);
  }

  lemma LeakNoBounds(rule: string, pid: string, ptr: string, size: string, allocSite: PrintedSite)
    requires GoodRuleName(rule) && Word(pid) && Word(ptr) && Number(size) && GoodSite(allocSite)
    ensures !Contains(Spaced(LeakWords(pid, ptr, size, allocSite)), BoundsPattern(rule))
  {
    var tokens := LeakWords(pid, ptr, size, allocSite);
    LeakTokens(pid, ptr, size, allocSite);
    assert tokens[4..][0] == "leak" && tokens[4..][1..] == tokens[5..];
    PatternSplit(rule);
    FirstTokenDecides("leak", Spaced(tokens[5..]), rule);
    PhraseNotAt(tokens, 3, "ct:", rule + " ");
  }

  lemma LeakNotFreedTwice(pid: string, ptr: string, size: string, allocSite: PrintedSite)
    requires Word(pid) && Word(ptr) && Number(size) && GoodSite(allocSite)
    ensures !Contains(Spaced(LeakWords(pid, ptr, size, allocSite)), FREED_TWICE)
  {
    LeakTokens(pid, ptr, size, allocSite);
    NoPhrase(LeakWords(pid, ptr, size, allocSite), "(double", "free)");
    assert FREED_TWICE == "(double" + " " + "free)";
  }

  /** A line whose second token starts as `b` does starts with the first token and `b`. */
  lemma TwoTokens(tokens: seq<string>, b: string, more: string)
    requires |tokens| > 2 && tokens[1] == b + more
    ensures StartsWith(Spaced(tokens), tokens[0] + " " + b)
  {
    var rest := more + " " + Spaced(tokens[2..]);
    assert tokens[1..][1..] == tokens[2..];
    assert Spaced(tokens[1..]) == b + rest;
    TwoWords(tokens[0], b, rest);
  }

  lemma LeakIsLeak(pid: string, ptr: string, size: string, allocSite: PrintedSite)
    requires Word(pid) && Word(ptr) && Number(size) && GoodSite(allocSite)
    ensures Contains(Spaced(LeakWords(pid, ptr, size, allocSite)), LEAK)
  {
    var tokens := LeakWords(pid, ptr, size, allocSite);
    LeakTokens(pid, ptr, size, allocSite);
    LeakFollows(tokens, ptr);
  }

  lemma LeakFollows(tokens: seq<string>, ptr: string)
    requires |tokens| == 8 && AllTokens(tokens) && tokens[3] == "ct:"
    requires tokens[4] == "leak" && tokens[5] == "ptr=" + ptr
    requires forall j :: 0 <= j < 3 ==> !EndsWith(tokens[j], "ct:")
    ensures Contains(Spaced(tokens), LEAK)
  {
    TwoTokens(tokens[4..], "ptr=", ptr);
    LeakSplits();
    var at := PhraseAt(tokens, 3, "ct:", "leak" + " " + "ptr=");
  }

  lemma LeakSplits()
    ensures LEAK == "ct:" + " " + ("leak" + " " + "ptr=")
  {
  }

  /** A leak line without a size is reported without one. */
  lemma LeakWithoutSize(line: string)
    requires Contains(line, "ct: leak ptr=") && !Contains(line, "(double free)")
    requires Lookup(Tokens(line), "size") == None
    ensures LineFinding(line).Some?
    ensures var finding := LineFinding(line).value;
      finding.rule == "memory-leak" && finding.cwe == "CWE-401" && finding.message == "memory leak"
  {
    FieldIsLookup(line, "size");
  }

  // ---- Boxes ----

  /** ASCII bytes before a text add no corner to it. */
  lemma AsciiNoCorner(prefix: string, s: string)
    requires Ascii(prefix)
    ensures Closes(prefix + s) <==> Closes(s)
  {
    var t := prefix + s;
    ContainsMeaning(t, CORNER);
    ContainsMeaning(s, CORNER);
    forall i: nat | i < |prefix| ensures !MatchAt(t, CORNER, i) {
      Mismatch(t, CORNER, i, 0);
    }
    if Closes(t) {
      var i: nat :| MatchAt(t, CORNER, i);
      ShiftMatch(prefix, s, CORNER, i - |prefix|);
    }
    if Closes(s) {
      ContainsRight(prefix, s, CORNER);
    }
  }

  /** A title line without the third byte of a bar holds no row. */
  lemma TitleIsNoRow(prefix: string, top: string)
    requires Ascii(prefix) && Lacks(top, BAR[2])
    ensures RowOf(prefix + top) == None
  {
    var line := prefix + top;
    assert OPEN[2] == BAR[2];
    LacksContains(line, OPEN, 2);
  }

  lemma BoxOpens(prefix: string, tag: string)
    requires Contains(prefix, "[WARN]") && tag in {"[VTABLE]", "[VCALL]"}
    ensures Opens(prefix + tag)
  {
    ContainsLeft(prefix, tag, "[WARN]");
    assert MatchAt(prefix + tag, tag, |prefix|);
  }

  /** Inside a box, lines that do not close it are read as rows. */
  lemma {:induction false} ReadInBox(tables: Tables, st: ParserState, lines: seq<string>)
    requires st.box.Some? && forall k :: 0 <= k < |lines| ==> !Closes(lines[k])
    ensures Run(tables, st, lines) == State(st.findings, st.inBounds, Some(ReadRows(st.box.value, lines)))
    decreases |lines|
  {
    if lines != [] {
      ReadInBox(tables, Step(tables, st, lines[0]), lines[1..]);
    }
  }

  lemma {:induction false} WrappedStayOpen(prefix: string, cells: seq<Cell>)
    requires Ascii(prefix) && forall k :: 0 <= k < |cells| ==> GoodBoxCell(cells[k])
    ensures forall k :: 0 <= k < |WrappedLines(prefix, cells)| ==> !Closes(WrappedLines(prefix, cells)[k])
  {
    if cells != [] {
      LacksContains("", CORNER, 0);
      RowLineStaysOpen(prefix, "", cells[0]);
      WrappedStayOpen(prefix, cells[1..]);
    }
  }

  lemma {:induction false} BoxStaysOpen(prefix: string, entries: seq<Entry>)
    requires Ascii(prefix) && forall k :: 0 <= k < |entries| ==> GoodBoxEntry(entries[k])
    ensures forall k :: 0 <= k < |BoxLines(prefix, entries)| ==> !Closes(BoxLines(prefix, entries)[k])
  {
    if entries != [] {
      RowLineStaysOpen(prefix, entries[0].key, entries[0].first);
      WrappedStayOpen(prefix, entries[0].wrapped);
      BoxStaysOpen(prefix, entries[1..]);
    }
  }

  /** The title and the top line of a box open it. */
  lemma BoxBegins(tables: Tables, st: ParserState, prefix: string, tag: string, top: string)
    requires st.box == None && Ascii(prefix) && Contains(prefix, "[WARN]") && tag in {"[VTABLE]", "[VCALL]"}
    requires GoodText(top) && Lacks(top, BAR[2])
    ensures Step(tables, Step(tables, st, prefix + tag), prefix + top) == State(st.findings, false, Some([]))
  {
    BoxOpens(prefix, tag);
    AsciiNoCorner(prefix, top);
    TitleIsNoRow(prefix, top);
  }

  /** Its rows are read, and its bottom line closes it. */
  lemma BoxEnds(tables: Tables, st: ParserState, prefix: string, entries: seq<Entry>, bottom: string)
    requires st.box == Some([]) && Ascii(prefix) && Closes(bottom)
    requires forall k :: 0 <= k < |entries| ==> GoodBoxEntry(entries[k])
    ensures Run(tables, st, BoxLines(prefix, entries) + [prefix + bottom])
      == State(Appended(st.findings, BoxFinding(tables.vtable, RowsOf(entries))), false, None)
  {
    var lines := BoxLines(prefix, entries);
    BoxStaysOpen(prefix, entries);
    ReadInBox(tables, st, lines);
    BoxRoundTrip(prefix, [], entries);
    assert [] + RowsOf(entries) == RowsOf(entries);
    AsciiNoCorner(prefix, bottom);
    RunConcat(tables, st, lines, [prefix + bottom]);
    RunOne(tables, Run(tables, st, lines), prefix + bottom);
  }

  lemma RunOne(tables: Tables, st: ParserState, line: string)
    ensures Run(tables, st, [line]) == Step(tables, st, line)
  {
    assert [line][1..] == [];
  }

  lemma {:induction false} TextsOfRows(entries: seq<Entry>, key: string)
    ensures ValuesOf(RowsOf(entries), key) == TextsUnder(entries, key)
  {
    if entries != [] {
      var rows := RowsOf(entries);
      assert rows[1..] == RowsOf(entries[1..]);
      TextsOfRows(entries[1..], key);
    }
  }

  lemma {:induction false} MessageIsSaid(warnings: seq<string>)
    ensures BoxMessage(warnings) == Said(warnings)
  {
    if warnings != [] && warnings[0] == "" {
      MessageIsSaid(warnings[1..]);
    }
  }

  lemma NamedIsStarted(table: seq<VtableRule>, warnings: seq<string>, value: string, k: nat)
    requires k < |table| && Names(table, warnings, value, k)
    ensures SomeStartsWith(warnings, table[k].warning)
  {
    var i :| 0 <= i < |warnings| && warnings[i] == value;
    assert StartsWith(warnings[i], table[k].warning);
  }

  /** The minimum over the warnings is the first match over the table. */
  lemma {:induction false} RankedFrom(table: seq<VtableRule>, warnings: seq<string>, k: nat)
    requires k <= MostSpecific(table, warnings)
    ensures Ranked(table[k..], warnings) == EntryAt(table, MostSpecific(table, warnings))
    decreases |table| - k
  {
    MostSpecificIsMinimum(table, warnings);
    if k < |table| {
      if MostSpecific(table, warnings) == k {
        var value :| Names(table, warnings, value, k);
        NamedIsStarted(table, warnings, value, k);
      }
      if SomeStartsWith(warnings, table[k].warning) {
        var i :| 0 <= i < |warnings| && StartsWith(warnings[i], table[k].warning);
        assert Names(table, warnings, warnings[i], k);
      } else {
        assert table[k..][1..] == table[k + 1..];
        RankedFrom(table, warnings, k + 1);
      }
    }
  }

  /** What is read off the rows of a box is what was printed in it. */
  lemma BoxIsExpected(table: seq<VtableRule>, entries: seq<Entry>)
    ensures Appended([], BoxFinding(table, RowsOf(entries))) == BoxExpected(table, entries)
  {
    var warnings := TextsUnder(entries, "warn");
    TextsOfRows(entries, "warn");
    TextsOfRows(entries, "site");
    MessageIsSaid(warnings);
    RankedFrom(table, warnings, 0);
    assert table[0..] == table;
  }

  /** A box whose last site is printed is found at the location that site means. */
  lemma BoxIsAtItsSite(tables: Tables, report: Report, site: PrintedSite)
    requires report.Box? && GoodSite(site) && Expected(tables, report) != []
    requires var sites := TextsUnder(report.entries, "site"); sites != [] && sites[|sites| - 1] == SiteText(site)
    ensures Expected(tables, report)[0].location == SiteMeant(site)
    ensures Expected(tables, report)[0].allocation == None
  {
    SiteTextReads(site);
  }

  lemma ReadBox(tables: Tables, st: ParserState, report: Report)
    requires report.Box? && GoodReport(tables, st.inBounds, report) && st.box == None
    ensures ReadsAs(tables, st, report)
  {
    var Box(prefix, tag, top, entries, bottom) := report;
    var tail := BoxLines(prefix, entries) + [prefix + bottom];
    BoxBegins(tables, st, prefix, tag, top);
    BoxEnds(tables, State(st.findings, false, Some([])), prefix, entries, bottom);
    BoxIsExpected(tables.vtable, entries);
    Assoc([prefix + tag, prefix + top], BoxLines(prefix, entries), [prefix + bottom]);
    assert ReportLines(tables, report) == [prefix + tag, prefix + top] + tail;
    RunTwo(tables, st, prefix + tag, prefix + top, tail);
  }

  lemma RunTwo(tables: Tables, st: ParserState, a: string, b: string, rest: seq<string>)
    ensures Run(tables, st, [a, b] + rest) == Run(tables, Step(tables, Step(tables, st, a), b), rest)
  {
    assert ([a, b] + rest)[1..] == [b] + rest;
    assert ([b] + rest)[1..] == rest;
  }

  // ---- Noise and the whole log ----

  lemma ReadNoise(tables: Tables, st: ParserState, report: Report)
    requires report.Noise? && GoodReport(tables, st.inBounds, report) && st.box == None
    ensures ReadsAs(tables, st, report)
  {
    var line := report.line;
    assert [line][1..] == [];
    if st.inBounds && StartsWith(line, "  ") {
      ReadDetails(tables, st, [line]);
    } else {
      NoBounds(tables.bounds, line);
    }
  }

  lemma ReadReport(tables: Tables, st: ParserState, report: Report)
    requires GoodTables(tables) && GoodReport(tables, st.inBounds, report) && st.box == None
    ensures ReadsAs(tables, st, report)
  {
    match report
    case Bounds(_, _, _, _, _, _, _, _, _, _, _) => ReadBounds(tables, st, report);
    case DoubleFree(_, _, _, _) => ReadDoubleFree(tables, st, report);
    case Leak(_, _, _, _) => ReadLeak(tables, st, report);
    case Box(_, _, _, _, _) => ReadBox(tables, st, report);
    case Noise(_) => ReadNoise(tables, st, report);
  }

  /** The reports, printed one after the other, meet the grammar's conditions. */
  ghost predicate GoodFrom(tables: Tables, open: bool, reports: seq<Report>)
    decreases |reports|
  {
    || reports == []
    || (GoodReport(tables, open, reports[0]) && GoodFrom(tables, LeavesOpen(open, reports[0]), reports[1..]))
  }

  ghost predicate GoodLog(tables: Tables, reports: seq<Report>) {
    GoodFrom(tables, false, reports)
  }

  /** Every bounds report names a rule. */
  predicate Printable(tables: Tables, reports: seq<Report>) {
    forall k :: 0 <= k < |reports| && reports[k].Bounds? ==> reports[k].rule < |tables.bounds|
  }

  lemma {:induction false} GoodIsPrintable(tables: Tables, open: bool, reports: seq<Report>)
    requires GoodFrom(tables, open, reports)
    ensures Printable(tables, reports)
    decreases |reports|
  {
    if reports != [] {
      GoodIsPrintable(tables, LeavesOpen(open, reports[0]), reports[1..]);
      assert reports == [reports[0]] + reports[1..];
    }
  }

  function LogLines(tables: Tables, reports: seq<Report>): seq<string>
    requires Printable(tables, reports)
  {
    if reports == [] then [] else ReportLines(tables, reports[0]) + LogLines(tables, reports[1..])
  }

  function LogFindings(tables: Tables, reports: seq<Report>): seq<Finding>
    requires Printable(tables, reports)
  {
    if reports == [] then [] else Expected(tables, reports[0]) + LogFindings(tables, reports[1..])
  }

  lemma {:induction false} RunLog(tables: Tables, st: ParserState, reports: seq<Report>)
    requires GoodTables(tables) && GoodFrom(tables, st.inBounds, reports)
    requires st.box == None && Printable(tables, reports)
    ensures Run(tables, st, LogLines(tables, reports)).findings == st.findings + LogFindings(tables, reports)
    decreases |reports|
  {
    if reports == [] {
      assert st.findings + [] == st.findings;
    } else {
      var lines := ReportLines(tables, reports[0]);
      ReadReport(tables, st, reports[0]);
      RunConcat(tables, st, lines, LogLines(tables, reports[1..]));
      RunLog(tables, Run(tables, st, lines), reports[1..]);
      Assoc(st.findings, Expected(tables, reports[0]), LogFindings(tables, reports[1..]));
    }
  }

  // ---- Printed lines have no newline of their own ----

  ghost predicate OneLineEach(lines: seq<string>) {
    forall k :: 0 <= k < |lines| ==> Lacks(lines[k], '\n')
  }

  lemma BoundsOneLine(rule: string, report: Report)
    requires report.Bounds? && Word(report.pid) && Number(report.size) && GoodRuleName(rule)
    ensures Lacks(Spaced(BoundsHead(report.pid, rule, report.write, report.size)), '\n')
  {
    WordLacks(report.pid, '\n');
    DigitsLack(report.size);
    var tokens, words := LogHead(report.pid, "[ERROR]"), BoundsWords(rule, report.write, report.size);
    assert forall k :: 0 <= k < |tokens| ==> Lacks(tokens[k], '\n');
    assert forall k :: 0 <= k < |words| ==> Lacks(words[k], '\n');
    SpacedLacks(tokens + ["ct:"] + words, '\n');
  }

  lemma DetailsOneLine(report: Report)
    requires report.Bounds? && Word(report.ptr) && Word(report.offset) && Number(report.allocSize) && Word(report.base)
    requires GoodSite(report.access) && GoodSite(report.allocSite)
    ensures Lacks(Spaced(AccessLine(report.access, report.ptr, report.offset)), '\n')
    ensures Lacks(Spaced(AllocLine(report.allocSize, report.allocSite, report.base)), '\n')
  {
    WordLacks(report.ptr, '\n');
    WordLacks(report.offset, '\n');
    WordLacks(report.base, '\n');
    DigitsLack(report.allocSize);
    SiteTextIsToken(report.access);
    SiteTextIsToken(report.allocSite);
    SpacedLacks(AccessLine(report.access, report.ptr, report.offset), '\n');
    SpacedLacks(AllocLine(report.allocSize, report.allocSite, report.base), '\n');
  }

  lemma DoubleFreeOneLine(pid: string, ptr: string, site: PrintedSite, allocSite: PrintedSite)
    requires Word(pid) && Word(ptr) && GoodSite(site) && GoodSite(allocSite)
    ensures Lacks(Spaced(DoubleFreeWords(pid, ptr, site, allocSite)), '\n')
  {
    WordLacks(pid, '\n');
    HeadOneLine(pid);
    DoubleFreeTailOneLine(ptr, site, allocSite);
    SpacedLacks(LogHead(pid, "[WARN]") + DoubleFreeTail(ptr, site, allocSite), '\n');
  }

  lemma DoubleFreeTailOneLine(ptr: string, site: PrintedSite, allocSite: PrintedSite)
    requires Word(ptr) && GoodSite(site) && GoodSite(allocSite)
    ensures var tail := DoubleFreeTail(ptr, site, allocSite); forall k :: 0 <= k < |tail| ==> Lacks(tail[k], '\n')
  {
    WordLacks(ptr, '\n');
    SiteTextIsToken(site);
    SiteTextIsToken(allocSite);
  }

  lemma HeadOneLine(pid: string)
    requires Lacks(pid, '\n')
    ensures forall k :: 0 <= k < |LogHead(pid, "[WARN]")| ==> Lacks(LogHead(pid, "[WARN]")[k], '\n')
  {
  }

  lemma LeakOneLine(pid: string, ptr: string, size: string, allocSite: PrintedSite)
    requires Word(pid) && Word(ptr) && Number(size) && GoodSite(allocSite)
    ensures Lacks(Spaced(LeakWords(pid, ptr, size, allocSite)), '\n')
  {
    WordLacks(pid, '\n');
    WordLacks(ptr, '\n');
    DigitsLack(size);
    SiteTextIsToken(allocSite);
    var head, tail := LogHead(pid, "[WARN]"), LeakTail(ptr, size, allocSite);
    HeadOneLine(pid);
    assert forall k :: 0 <= k < |tail| ==> Lacks(tail[k], '\n');
    SpacedLacks(head + tail, '\n');
  }

  lemma {:induction false} WrappedOneLine(prefix: string, cells: seq<Cell>)
    requires Lacks(prefix, '\n') && forall k :: 0 <= k < |cells| ==> GoodBoxCell(cells[k])
    ensures OneLineEach(WrappedLines(prefix, cells))
  {
    if cells != [] {
      WrappedOneLine(prefix, cells[1..]);
    }
  }

  lemma {:induction false} BoxOneLine(prefix: string, entries: seq<Entry>)
    requires Lacks(prefix, '\n') && forall k :: 0 <= k < |entries| ==> GoodBoxEntry(entries[k])
    ensures OneLineEach(BoxLines(prefix, entries))
  {
    if entries != [] {
      WrappedOneLine(prefix, entries[0].wrapped);
      BoxOneLine(prefix, entries[1..]);
    }
  }

  lemma ReportOneLine(tables: Tables, open: bool, report: Report)
    requires GoodTables(tables) && GoodReport(tables, open, report)
    ensures OneLineEach(ReportLines(tables, report))
  {
    match report
    case Bounds(_, rule, _, _, _, _, _, _, _, _, _) =>
      BoundsOneLine(tables.bounds[rule].rule, report);
      DetailsOneLine(report);
    case DoubleFree(pid, ptr, site, allocSite) => DoubleFreeOneLine(pid, ptr, site, allocSite);
    case Leak(pid, ptr, size, allocSite) => LeakOneLine(pid, ptr, size, allocSite);
    case Box(prefix, tag, top, entries, bottom) => BoxOneLine(prefix, entries);
    case Noise(_) =>
  }

  lemma {:induction false} LogOneLine(tables: Tables, open: bool, reports: seq<Report>)
    requires GoodTables(tables) && GoodFrom(tables, open, reports) && Printable(tables, reports)
    ensures OneLineEach(LogLines(tables, reports))
    decreases |reports|
  {
    if reports != [] {
      ReportOneLine(tables, open, reports[0]);
      LogOneLine(tables, LeavesOpen(open, reports[0]), reports[1..]);
    }
  }

  // ---- The round trip ----

  /** The lines as printed: the newline after the last one may be missing. */
  predicate PrintedLines(lines: seq<string>, text: string) {
    || text == Unlines(lines)
    || (lines != [] && lines[|lines| - 1] != "" && text == Unlines(lines[..|lines| - 1]) + lines[|lines| - 1])
  }

  lemma LinesOfPrinted(lines: seq<string>, text: string)
    requires OneLineEach(lines) && PrintedLines(lines, text)
    ensures Lines(text) == lines
  {
    if text == Unlines(lines) {
      LinesUnlines(lines);
    } else {
      var init, last := lines[..|lines| - 1], lines[|lines| - 1];
      LinesUnlines(init);
      UnlinesWhole(init);
      LinesConcat(Unlines(init), last);
      IndexMeaning(last, '\n');
      assert Lines(last) == [last];
      assert lines == init + [last];
    }
  }

  lemma {:induction false} UnlinesWhole(lines: seq<string>)
    ensures AtLineBoundary(Unlines(lines))
  {
    if lines != [] {
      UnlinesWhole(lines[1..]);
    }
  }

  /** Parsing a printed log yields the findings its reports stand for, in order, whether its
      last line ends in a newline or not. */
  lemma LogRoundTrip(tables: Tables, reports: seq<Report>, text: string)
    requires GoodTables(tables) && GoodLog(tables, reports) && Printable(tables, reports)
    requires PrintedLines(LogLines(tables, reports), text)
    ensures Parse(tables, text) == LogFindings(tables, reports)
  {
    LogOneLine(tables, false, reports);
    LinesOfPrinted(LogLines(tables, reports), text);
    RunLog(tables, START, reports);
    assert [] + LogFindings(tables, reports) == LogFindings(tables, reports);
  }

  /** The analyzer's own tables meet the grammar's conditions. */
  lemma AnalyzerTablesAreGood()
    ensures GoodTables(TABLES)
  {
    HeapRuleNamesAreGood();
    StackRuleNameIsGood();
    assert |HEAP_OVERFLOW| == 20 && |STACK_OVERFLOW| == 21 && |USE_AFTER_FREE| == 19;
    var rules := TABLES.bounds;
    assert |rules| == 3;
    assert rules[0].rule == HEAP_OVERFLOW && rules[1].rule == STACK_OVERFLOW && rules[2].rule == USE_AFTER_FREE;
  }

  lemma HeapRuleNamesAreGood()
    ensures GoodRuleName(HEAP_OVERFLOW) && GoodRuleName(USE_AFTER_FREE)
  {
  }

  lemma StackRuleNameIsGood()
    ensures GoodRuleName(STACK_OVERFLOW)
  {
  }

  /** One finding for each report; none for noise, nor for a box whose warnings say nothing. */
  lemma OneFindingPerReport(tables: Tables, report: Report)
    requires report.Bounds? ==> report.rule < |tables.bounds|
    ensures |Expected(tables, report)| == 1 <==>
      !report.Noise? && (report.Box? ==> SaySomething(TextsUnder(report.entries, "warn")))
    ensures |Expected(tables, report)| <= 1
  {
    if report.Box? {
      BoxIsExpected(tables.vtable, report.entries);
      BoxFindingExists(tables.vtable, RowsOf(report.entries));
      TextsOfRows(report.entries, "warn");
    }
  }
}
