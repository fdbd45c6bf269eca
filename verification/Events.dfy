/**
 The second pass over the captured text (src/events.cpp): colours stripped, CoreTrace
 lines kept and counted.
 */
module Events {
  import opened Text

  const ESC := '\U{1B}'

  predicate IsLetter(c: char) {
    'A' <= c <= 'Z' || 'a' <= c <= 'z'
  }

  // ---- Stripping colours ----

  /** A control sequence introducer starts at `i`. */
  predicate IntroducerAt(s: string, i: nat) {
    i + 1 < |s| && s[i] == ESC && s[i + 1] == '['
  }

  /** What follows the first letter; nothing when there is none. */
  function AfterFinal(s: string): (r: string)
    ensures |r| <= |s|
  {
    if s == "" then "" else if IsLetter(s[0]) then s[1..] else AfterFinal(s[1..])
  }

  /** The text without its control sequences. */
  function Strip(s: string): string
    decreases |s|
  {
    if s == "" then ""
    else if IntroducerAt(s, 0) then Strip(AfterFinal(s[2..]))
    else [s[0]] + Strip(s[1..])
  }

  /** What the rest of the text from `i` on is stripped to; past the end nothing. */
  function StripFrom(input: string, i: nat): string {
    if i <= |input| then Strip(input[i..]) else ""
  }

  lemma StripKeeps(input: string, i: nat)
    requires i < |input| && !IntroducerAt(input, i)
    ensures StripFrom(input, i) == [input[i]] + StripFrom(input, i + 1)
  {
    var rest := input[i..];
    assert !IntroducerAt(rest, 0) && rest[1..] == input[i + 1..];
  }

  lemma StripSkips(input: string, i: nat, final: nat)
    requires IntroducerAt(input, i) && i + 2 <= final <= |input|
    requires AfterFinal(input[i + 2..]) == if final < |input| then input[final + 1..] else ""
    ensures StripFrom(input, i) == StripFrom(input, final + 1)
  {
    var rest := input[i..];
    assert IntroducerAt(rest, 0) && rest[2..] == input[i + 2..];
    assert Strip(rest) == Strip(AfterFinal(rest[2..]));
    if final == |input| {
      assert AfterFinal(rest[2..]) == "";
    }
  }

  method StripAnsi(input: string) returns (output: string)
    ensures output == Strip(input)
  {
    output := "";
    var i := 0;
    assert input[0..] == input;
    while i < |input|
      invariant 0 <= i
      invariant output + StripFrom(input, i) == Strip(input)
    {
      if input[i] == ESC && i + 1 < |input| && input[i + 1] == '[' {
        var final := SkipToFinal(input, i + 2);
        StripSkips(input, i, final);
        i := final;
      } else {
        StripKeeps(input, i);
        Assoc(output, [input[i]], StripFrom(input, i + 1));
        output := output + [input[i]];
      }
      i := i + 1;
    }
    assert StripFrom(input, i) == "";
  }

  /** The inner loop: the place of the first letter, or the end. */
  method SkipToFinal(input: string, start: nat) returns (i: nat)
    requires start <= |input|
    ensures start <= i <= |input|
    ensures AfterFinal(input[start..]) == if i < |input| then input[i + 1..] else ""
  {
    i := start;
    while i < |input| && !IsLetter(input[i])
      invariant start <= i <= |input|
      invariant AfterFinal(input[i..]) == AfterFinal(input[start..])
    {
      assert input[i..][1..] == input[i + 1..];
      i := i + 1;
    }
    if i < |input| {
      assert input[i..][1..] == input[i + 1..];
    }
  }

  /** Text and control sequences; a sequence's bytes before its final letter are no letters. */
  datatype Piece = Plain(text: string) | Sequence(body: string, final: char)

  predicate GoodPiece(piece: Piece) {
    match piece
    case Plain(text) => Lacks(text, '\U{1B}')
    case Sequence(body, final) =>
      && ('A' <= final <= 'Z' || 'a' <= final <= 'z')
      && forall k :: 0 <= k < |body| ==> !('A' <= body[k] <= 'Z') && !('a' <= body[k] <= 'z')
  }

  /** A piece as it is written. */
  function Shown(piece: Piece): string {
    match piece
    case Plain(text) => text
    case Sequence(body, final) => ['\U{1B}', '['] + body + [final]
  }

  function Coloured(pieces: seq<Piece>): string {
    if pieces == [] then "" else Shown(pieces[0]) + Coloured(pieces[1..])
  }

  function Uncoloured(pieces: seq<Piece>): string {
    if pieces == [] then ""
    else (if pieces[0].Plain? then pieces[0].text else "") + Uncoloured(pieces[1..])
  }

  lemma {:induction false} StripPlain(text: string, rest: string)
    requires Lacks(text, ESC)
    ensures Strip(text + rest) == text + Strip(rest)
  {
    var s := text + rest;
    if text == "" {
      assert s == rest;
    } else {
      assert s[1..] == text[1..] + rest;
      StripPlain(text[1..], rest);
    }
  }

  lemma {:induction false} AfterFinalBody(body: string, final: char, rest: string)
    requires IsLetter(final) && forall k :: 0 <= k < |body| ==> !IsLetter(body[k])
    ensures AfterFinal(body + [final] + rest) == rest
  {
    var s := body + [final] + rest;
    if body != "" {
      assert s[1..] == body[1..] + [final] + rest;
      AfterFinalBody(body[1..], final, rest);
    }
  }

  lemma StripShown(piece: Piece, rest: string)
    requires GoodPiece(piece)
    ensures Strip(Shown(piece) + rest) == (if piece.Plain? then piece.text else "") + Strip(rest)
  {
    match piece
    case Plain(text) => StripPlain(text, rest);
    case Sequence(body, final) => StripSequence(body, final, rest);
  }

  lemma StripSequence(body: string, final: char, rest: string)
    requires GoodPiece(Sequence(body, final))
    ensures Strip(['\U{1B}', '['] + body + [final] + rest) == Strip(rest)
  {
    var s := ['\U{1B}', '['] + body + [final] + rest;
    assert s[2..] == body + [final] + rest;
    AfterFinalBody(body, final, rest);
  }

  lemma {:induction false} StripPieces(pieces: seq<Piece>, rest: string)
    requires forall k :: 0 <= k < |pieces| ==> GoodPiece(pieces[k])
    ensures Strip(Coloured(pieces) + rest) == Uncoloured(pieces) + Strip(rest)
  {
    if pieces == [] {
      assert Coloured(pieces) + rest == rest;
    } else {
      Assoc(Shown(pieces[0]), Coloured(pieces[1..]), rest);
      StripShown(pieces[0], Coloured(pieces[1..]) + rest);
      StripPieces(pieces[1..], rest);
    }
  }

  /** Stripping undoes colouring. */
  lemma StripColoured(pieces: seq<Piece>)
    requires forall k :: 0 <= k < |pieces| ==> GoodPiece(pieces[k])
    ensures Strip(Coloured(pieces)) == Uncoloured(pieces)
  {
    StripPieces(pieces, "");
    assert Coloured(pieces) + "" == Coloured(pieces);
  }

  lemma {:induction false} NoFinal(body: string)
    requires forall k :: 0 <= k < |body| ==> !('A' <= body[k] <= 'Z') && !('a' <= body[k] <= 'z')
    ensures AfterFinal(body) == ""
  {
    if body != "" {
      NoFinal(body[1..]);
    }
  }

  /** A sequence without its final letter takes the rest of the text with it. */
  lemma StripUnfinished(pieces: seq<Piece>, body: string)
    requires forall k :: 0 <= k < |pieces| ==> GoodPiece(pieces[k])
    requires forall k :: 0 <= k < |body| ==> !('A' <= body[k] <= 'Z') && !('a' <= body[k] <= 'z')
    ensures Strip(Coloured(pieces) + (['\U{1B}', '['] + body)) == Uncoloured(pieces)
  {
    var tail := ['\U{1B}', '['] + body;
    StripPieces(pieces, tail);
    assert tail[2..] == body;
    NoFinal(body);
    assert Strip(tail) == "";
  }

  /** `a` is `b` with some bytes left out. */
  ghost predicate Subsequence(a: string, b: string)
    decreases |b|
  {
    a == "" || (b != "" && ((a[0] == b[0] && Subsequence(a[1..], b[1..])) || Subsequence(a, b[1..])))
  }

  lemma {:induction false} SubsequenceDrop(a: string, b: string, n: nat)
    requires n <= |b| && Subsequence(a, b[n..])
    ensures Subsequence(a, b)
    decreases n
  {
    if n > 0 {
      assert b[n..] == b[1..][n - 1..];
      SubsequenceDrop(a, b[1..], n - 1);
    }
  }

  lemma {:induction false} AfterFinalSuffix(s: string)
    ensures exists n :: 0 <= n <= |s| && AfterFinal(s) == s[n..]
  {
    if s == "" {
      assert AfterFinal(s) == s[0..];
    } else if IsLetter(s[0]) {
      assert AfterFinal(s) == s[1..];
    } else {
      AfterFinalSuffix(s[1..]);
      var n :| 0 <= n <= |s[1..]| && AfterFinal(s[1..]) == s[1..][n..];
      assert AfterFinal(s) == s[n + 1..];
    }
  }

  /** Stripping only leaves bytes out. */
  lemma {:induction false} StripSubsequence(s: string)
    ensures Subsequence(Strip(s), s)
    decreases |s|
  {
    if s == "" {
    } else if IntroducerAt(s, 0) {
      var rest := s[2..];
      AfterFinalSuffix(rest);
      var n :| 0 <= n <= |rest| && AfterFinal(rest) == rest[n..];
      StripSubsequence(AfterFinal(rest));
      assert rest[n..] == s[n + 2..];
      SubsequenceDrop(Strip(s), s, n + 2);
    } else {
      StripSubsequence(s[1..]);
      assert Strip(s)[1..] == Strip(s[1..]);
    }
  }

  /** The cut falls between an escape and its bracket. */
  predicate SplitsIntroducer(a: string, b: string) {
    a != "" && a[|a| - 1] == ESC && b != "" && b[0] == '['
  }

  lemma {:induction false} AfterFinalConcat(a: string, b: string)
    ensures AfterFinal(a) != "" ==> AfterFinal(a + b) == AfterFinal(a) + b
    ensures AfterFinal(a) != "" ==> a != "" && AfterFinal(a)[|AfterFinal(a)| - 1] == a[|a| - 1]
  {
    if a != "" {
      assert (a + b)[1..] == a[1..] + b;
      AfterFinalConcat(a[1..], b);
    }
  }

  /** Unless a cut splits an introducer, stripping what precedes it gives a prefix of the whole stripped. */
  lemma {:induction false} StripPrefix(a: string, b: string)
    requires !SplitsIntroducer(a, b)
    ensures Strip(a) <= Strip(a + b)
    decreases |a|
  {
    var s := a + b;
    if a == "" {
    } else if IntroducerAt(a, 0) {
      assert s[2..] == a[2..] + b;
      var rest := AfterFinal(a[2..]);
      AfterFinalConcat(a[2..], b);
      StripPrefix(rest, b);
    } else {
      assert !IntroducerAt(s, 0);
      assert s[1..] == a[1..] + b;
      StripPrefix(a[1..], b);
    }
  }

  /** A text is left alone exactly when it holds no introducer. */
  lemma {:induction false} StripFixed(s: string)
    ensures Strip(s) == s <==> forall i: nat :: !IntroducerAt(s, i)
    ensures |Strip(s)| <= |s|
    decreases |s|
  {
    if s == "" {
    } else if IntroducerAt(s, 0) {
      StripFixed(AfterFinal(s[2..]));
    } else {
      StripFixed(s[1..]);
      forall i: nat ensures IntroducerAt(s, i + 1) <==> IntroducerAt(s[1..], i) {
      }
      if Strip(s) == s {
        assert Strip(s[1..]) == s[1..];
        forall i: nat ensures !IntroducerAt(s, i) {
          if i > 0 {
            assert IntroducerAt(s, i - 1 + 1) <==> IntroducerAt(s[1..], i - 1);
          }
        }
      }
    }
  }

  /** The text from its first byte on that is in no sequence. */
  function SkipSequences(s: string): (r: string)
    ensures |r| <= |s| && !IntroducerAt(r, 0)
    decreases |s|
  {
    if IntroducerAt(s, 0) then SkipSequences(AfterFinal(s[2..])) else s
  }

  /** Some escape outside the sequences is followed, once whole sequences are skipped, by a bracket. */
  predicate Joins(s: string)
    decreases |s|
  {
    if s == "" then false
    else if IntroducerAt(s, 0) then Joins(AfterFinal(s[2..]))
    else
      var next := SkipSequences(s[1..]);
      (s[0] == ESC && next != "" && next[0] == '[') || Joins(s[1..])
  }

  /** The first byte that is kept is the first one in no sequence. */
  lemma {:induction false} StripHead(s: string)
    ensures Strip(s) == Strip(SkipSequences(s))
    ensures Strip(s) == "" <==> SkipSequences(s) == ""
    ensures Strip(s) != "" ==> Strip(s)[0] == SkipSequences(s)[0]
    decreases |s|
  {
    if IntroducerAt(s, 0) {
      StripHead(AfterFinal(s[2..]));
    }
  }

  ghost predicate HoldsIntroducer(s: string) {
    exists i: nat :: IntroducerAt(s, i)
  }

  /** The stripped text holds an introducer exactly when the text joins one. */
  lemma {:induction false} JoinsMeaning(s: string)
    ensures Joins(s) <==> HoldsIntroducer(Strip(s))
    decreases |s|
  {
    if s == "" {
      assert Strip(s) == "";
    } else if IntroducerAt(s, 0) {
      assert Strip(s) == Strip(AfterFinal(s[2..])) && Joins(s) == Joins(AfterFinal(s[2..]));
      JoinsMeaning(AfterFinal(s[2..]));
    } else {
      var once, rest := Strip(s), Strip(s[1..]);
      JoinsMeaning(s[1..]);
      StripHead(s[1..]);
      assert once == [s[0]] + rest;
      forall i: nat ensures IntroducerAt(once, i + 1) <==> IntroducerAt(rest, i) {
      }
      if i: nat :| IntroducerAt(once, i) && i > 0 {
        assert IntroducerAt(once, i - 1 + 1) <==> IntroducerAt(rest, i - 1);
      }
      if i: nat :| IntroducerAt(rest, i) {
        assert IntroducerAt(once, i + 1);
      }
      assert IntroducerAt(once, 0) <==> s[0] == ESC && rest != "" && rest[0] == '[';
    }
  }

  /** Stripping twice is stripping once exactly when no escape and bracket are brought together. */
  lemma StripTwice(s: string)
    ensures Strip(Strip(s)) == Strip(s) <==> !Joins(s)
  {
    StripFixed(Strip(s));
    JoinsMeaning(s);
    assert HoldsIntroducer(Strip(s)) <==> exists i: nat :: IntroducerAt(Strip(s), i);
  }

  /** It can leave one: a sequence between an escape and a bracket joins them. */
  lemma StripNotIdempotent()
    ensures var s := [ESC, ESC, '[', 'm', '[', 'm']; Strip(s) == [ESC, '[', 'm'] && Strip(Strip(s)) == ""
  {
    var s := [ESC, ESC, '[', 'm', '[', 'm'];
    assert s[1..] == [ESC, '[', 'm', '[', 'm'];
    assert s[1..][2..] == ['m', '[', 'm'];
    assert AfterFinal(s[1..][2..]) == ['[', 'm'];
    StripPlain(['[', 'm'], "");
    assert ['[', 'm'] + "" == ['[', 'm'];
    assert Strip(s[1..]) == ['[', 'm'];
    var once := [ESC, '[', 'm'];
    assert once[2..] == ['m'] && AfterFinal(['m']) == "";
  }

  // ---- Lines of a stream ----

  /** Repeated `std::getline` on a string stream: bytes extracted one by one, the newline
      dropped, and a last line only if a byte was extracted for it. */
  function GetLines(rest: string, line: string): seq<string> {
    if rest == "" then if line == "" then [] else [line]
    else if rest[0] == '\n' then [line] + GetLines(rest[1..], "")
    else GetLines(rest[1..], line + [rest[0]])
  }

  /** The stream and the report parser see the same lines. */
  lemma {:induction false} GetLinesIsLines(rest: string, line: string)
    requires Lacks(line, '\n')
    ensures GetLines(rest, line) == Lines(line + rest)
    decreases |rest|
  {
    if rest == "" {
      assert line + rest == line;
      IndexMeaning(line, '\n');
    } else if rest[0] == '\n' {
      assert line + rest == line + "\n" + rest[1..];
      LinesHead(line, rest[1..]);
      assert "" + rest[1..] == rest[1..];
      GetLinesIsLines(rest[1..], "");
    } else {
      assert line + rest == line + [rest[0]] + rest[1..];
      GetLinesIsLines(rest[1..], line + [rest[0]]);
    }
  }

  // ---- Event lines and their counts ----

  /** The words each kind of event line is recognised by; any one of them is enough. */
  datatype EventWords = EventWords(
    coretrace: seq<string>, entry: seq<string>, exit: seq<string>, allocation: seq<string>,
    bounds: seq<string>, leak: seq<string>, vtable: seq<string>, warning: seq<string>, error: seq<string>)

  const WORDS := EventWords(
    ["==ct==", "ct:", "[ENTRY-FUNCTION]", "[EXIT-FUNCTION]", "[VTABLE-DIAG]", "tracing-", "auto-free",
     "heap-buffer-overflow", "heap-use-after-free"],
    ["[ENTRY-FUNCTION]", "ct: enter "],
    ["[EXIT-FUNCTION]"],
    ["tracing-", "auto-free", "leaks detected", "ct: leak "],
    ["heap-buffer-overflow", "heap-use-after-free"],
    ["leaks detected", "ct: leak "],
    ["[VTABLE-DIAG]"],
    ["[WARN]", " WARN "],
    ["[ERROR]", " ERROR "])

  predicate IsCoreTraceLine(words: EventWords, line: string) {
    Mentions(line, words.coretrace)
  }

  datatype Summary = Summary(
    coretraceLines: nat, entryEvents: nat, exitEvents: nat, allocationEvents: nat,
    boundsErrors: nat, leakReports: nat, vtableEvents: nat, warnings: nat, errors: nat)

  const NOTHING := Summary(0, 0, 0, 0, 0, 0, 0, 0, 0)

  function Merge(a: Summary, b: Summary): Summary {
    Summary(a.coretraceLines + b.coretraceLines, a.entryEvents + b.entryEvents, a.exitEvents + b.exitEvents,
            a.allocationEvents + b.allocationEvents, a.boundsErrors + b.boundsErrors,
            a.leakReports + b.leakReports, a.vtableEvents + b.vtableEvents,
            a.warnings + b.warnings, a.errors + b.errors)
  }

  function One(b: bool): nat {
    if b then 1 else 0
  }

  /** What one line counts for; a line that is no event counts for nothing. */
  function CountsOf(words: EventWords, line: string): Summary {
    if !IsCoreTraceLine(words, line) then NOTHING
    else Summary(1, One(Mentions(line, words.entry)), One(Mentions(line, words.exit)),
                 One(Mentions(line, words.allocation)), One(Mentions(line, words.bounds)),
                 One(Mentions(line, words.leak)), One(Mentions(line, words.vtable)),
                 One(Mentions(line, words.warning)), One(Mentions(line, words.error)))
  }

  function Summarize(words: EventWords, lines: seq<string>): Summary {
    if lines == [] then NOTHING else Merge(CountsOf(words, lines[0]), Summarize(words, lines[1..]))
  }

  function EventLines(words: EventWords, lines: seq<string>): seq<string> {
    if lines == [] then []
    else (if IsCoreTraceLine(words, lines[0]) then [lines[0]] else []) + EventLines(words, lines[1..])
  }

  /** The summary of a captured text. */
  function SummaryOf(words: EventWords, text: string): Summary {
    Summarize(words, Lines(Strip(text)))
  }

  method UpdateSummary(words: EventWords, line: string, summary: Summary) returns (updated: Summary)
    requires IsCoreTraceLine(words, line)
    ensures updated == Merge(summary, CountsOf(words, line).(coretraceLines := 0))
  {
    var entry := Bump(summary.entryEvents, line, words.entry);
    var exit := Bump(summary.exitEvents, line, words.exit);
    var allocation := Bump(summary.allocationEvents, line, words.allocation);
    var bounds := Bump(summary.boundsErrors, line, words.bounds);
    var leak := Bump(summary.leakReports, line, words.leak);
    var vtable := Bump(summary.vtableEvents, line, words.vtable);
    var warning := Bump(summary.warnings, line, words.warning);
    var error := Bump(summary.errors, line, words.error);
    return Summary(summary.coretraceLines, entry, exit, allocation, bounds, leak, vtable, warning, error);
  }

  /** Increments a counter if the line mentions one of the words. */
  method Bump(counter: nat, line: string, words: seq<string>) returns (counted: nat)
    ensures counted == counter + One(Mentions(line, words))
  {
    counted := counter;
    if Mentions(line, words) {
      counted := counted + 1;
    }
  }

  /** The body of the loop over the lines of a text. */
  method CountLine(words: EventWords, line: string, summary: Summary, events: seq<string>)
    returns (summary': Summary, events': seq<string>)
    ensures summary' == Merge(summary, CountsOf(words, line))
    ensures events' == if IsCoreTraceLine(words, line) then events + [line] else events
  {
    if !IsCoreTraceLine(words, line) {
      MergeLaws(summary, NOTHING, NOTHING);
      return summary, events;
    }
    summary' := UpdateSummary(words, line, summary.(coretraceLines := summary.coretraceLines + 1));
    events' := events + [line];
  }

  lemma MergeLaws(a: Summary, b: Summary, c: Summary)
    ensures Merge(a, Merge(b, c)) == Merge(Merge(a, b), c)
    ensures Merge(a, b) == Merge(b, a)
    ensures Merge(NOTHING, a) == a
  {
  }

  lemma {:induction false} SummarizeConcat(words: EventWords, a: seq<string>, b: seq<string>)
    ensures Summarize(words, a + b) == Merge(Summarize(words, a), Summarize(words, b))
  {
    if a == [] {
      assert a + b == b;
      MergeLaws(Summarize(words, b), NOTHING, NOTHING);
    } else {
      assert (a + b)[1..] == a[1..] + b;
      SummarizeConcat(words, a[1..], b);
      MergeLaws(CountsOf(words, a[0]), Summarize(words, a[1..]), Summarize(words, b));
    }
  }

  lemma {:induction false} EventLinesConcat(words: EventWords, a: seq<string>, b: seq<string>)
    ensures EventLines(words, a + b) == EventLines(words, a) + EventLines(words, b)
  {
    if a == [] {
      assert a + b == b;
    } else {
      assert (a + b)[1..] == a[1..] + b;
      EventLinesConcat(words, a[1..], b);
    }
  }

  lemma EventLinesSnoc(words: EventWords, lines: seq<string>, line: string)
    ensures EventLines(words, lines + [line])
      == if IsCoreTraceLine(words, line) then EventLines(words, lines) + [line] else EventLines(words, lines)
  {
    EventLinesConcat(words, lines, [line]);
    assert [line][1..] == [];
  }

  /** One `std::getline`: whether a line was read, the line, and the position after it. */
  method Getline(text: string, position: nat) returns (read: bool, line: string, next: nat)
    requires position <= |text|
    ensures position <= next <= |text| && (read ==> position < next)
    ensures GetLines(text[position..], "") == if read then [line] + GetLines(text[next..], "") else []
  {
    line, next := "", position;
    while next < |text| && text[next] != '\n'
      invariant position <= next <= |text|
      invariant GetLines(text[position..], "") == GetLines(text[next..], line)
      invariant line == "" <==> next == position
    {
      assert text[next..][1..] == text[next + 1..];
      line, next := line + [text[next]], next + 1;
    }
    if next < |text| {
      assert text[next..][1..] == text[next + 1..];
      return true, line, next + 1;
    }
    assert text[next..] == "";
    return next > position, line, next;
  }

  method CollectEvents(words: EventWords, text: string, events: seq<string>)
    returns (summary: Summary, events': seq<string>)
    ensures summary == SummaryOf(words, text)
    ensures events' == events + EventLines(words, Lines(Strip(text)))
  {
    var stream := StripAnsi(text);
    GetLinesIsLines(stream, "");
    assert "" + stream == stream && stream[0..] == stream;
    summary, events' := NOTHING, events;
    var position := 0;
    ghost var lines := Lines(stream);
    MergeLaws(Summarize(words, lines), NOTHING, NOTHING);
    while true
      invariant position <= |stream|
      invariant lines == GetLines(stream[position..], "")
      invariant Merge(summary, Summarize(words, lines)) == SummaryOf(words, text)
      invariant events' + EventLines(words, lines) == events + EventLines(words, Lines(stream))
      decreases |stream| - position
    {
      var read, line, next := Getline(stream, position);
      if !read {
        MergeLaws(summary, NOTHING, NOTHING);
        return;
      }
      lines := GetLines(stream[next..], "");
      CountedNext(words, line, lines, summary, events');
      summary, events' := CountLine(words, line, summary, events');
      position := next;
    }
  }

  /** Counting a line moves it from the lines to come into the summary and the events. */
  lemma CountedNext(words: EventWords, line: string, lines: seq<string>, summary: Summary, events: seq<string>)
    ensures Merge(summary, Summarize(words, [line] + lines))
      == Merge(Merge(summary, CountsOf(words, line)), Summarize(words, lines))
    ensures events + EventLines(words, [line] + lines)
      == (if IsCoreTraceLine(words, line) then events + [line] else events) + EventLines(words, lines)
  {
    assert ([line] + lines)[1..] == lines;
    MergeLaws(summary, CountsOf(words, line), Summarize(words, lines));
    EventLinesConcat(words, [line], lines);
    EventLinesSnoc(words, [], line);
    assert [] + [line] == [line];
  }

  // ---- What the analyzer counts ----

  /** A line is an event when it holds one of these. */
  predicate IsEvent(line: string) {
    || Contains(line, "==ct==") || Contains(line, "ct:") || Contains(line, "[ENTRY-FUNCTION]")
    || Contains(line, "[EXIT-FUNCTION]") || Contains(line, "[VTABLE-DIAG]") || Contains(line, "tracing-")
    || Contains(line, "auto-free") || Contains(line, "heap-buffer-overflow") || Contains(line, "heap-use-after-free")
  }

  lemma EventMeaning(line: string)
    ensures IsCoreTraceLine(WORDS, line) <==> IsEvent(line)
  {
    var first := ["==ct==", "ct:", "[ENTRY-FUNCTION]", "[EXIT-FUNCTION]"];
    var second := ["[VTABLE-DIAG]", "tracing-", "auto-free", "heap-buffer-overflow"];
    MentionsFour(line, first[0], first[1], first[2], first[3]);
    MentionsFour(line, second[0], second[1], second[2], second[3]);
    MentionsTwo(line, "heap-use-after-free", "");
    MentionsConcat(line, first, second);
    MentionsConcat(line, first + second, ["heap-use-after-free"]);
    assert WORDS.coretrace == first + second + ["heap-use-after-free"];
  }

  /** What each counter of the analyzer counts in one line. */
  lemma CountsMeaning(line: string)
    ensures var n := CountsOf(WORDS, line);
      && n.coretraceLines == One(IsEvent(line))
      && n.entryEvents == One(IsEvent(line) && (Contains(line, "[ENTRY-FUNCTION]") || Contains(line, "ct: enter ")))
      && n.exitEvents == One(IsEvent(line) && Contains(line, "[EXIT-FUNCTION]"))
      && n.allocationEvents == One(IsEvent(line)
           && (Contains(line, "tracing-") || Contains(line, "auto-free") || Contains(line, "leaks detected")
               || Contains(line, "ct: leak ")))
    ensures var n := CountsOf(WORDS, line);
      && n.boundsErrors == One(IsEvent(line)
           && (Contains(line, "heap-buffer-overflow") || Contains(line, "heap-use-after-free")))
      && n.leakReports == One(IsEvent(line) && (Contains(line, "leaks detected") || Contains(line, "ct: leak ")))
      && n.vtableEvents == One(IsEvent(line) && Contains(line, "[VTABLE-DIAG]"))
      && n.warnings == One(IsEvent(line) && (Contains(line, "[WARN]") || Contains(line, " WARN ")))
      && n.errors == One(IsEvent(line) && (Contains(line, "[ERROR]") || Contains(line, " ERROR ")))
  {
    EventMeaning(line);
    MentionsTwo(line, "[ENTRY-FUNCTION]", "ct: enter ");
    MentionsTwo(line, "[EXIT-FUNCTION]", "");
    MentionsFour(line, "tracing-", "auto-free", "leaks detected", "ct: leak ");
    MentionsTwo(line, "heap-buffer-overflow", "heap-use-after-free");
    MentionsTwo(line, "leaks detected", "ct: leak ");
    MentionsTwo(line, "[VTABLE-DIAG]", "");
    MentionsTwo(line, "[WARN]", " WARN ");
    MentionsTwo(line, "[ERROR]", " ERROR ");
  }

  predicate Bounded(s: Summary) {
    && s.entryEvents <= s.coretraceLines && s.exitEvents <= s.coretraceLines
    && s.allocationEvents <= s.coretraceLines && s.boundsErrors <= s.coretraceLines
    && s.vtableEvents <= s.coretraceLines && s.warnings <= s.coretraceLines && s.errors <= s.coretraceLines
    && s.leakReports <= s.allocationEvents
  }

  predicate LeaksAreAllocations(words: EventWords) {
    forall k :: 0 <= k < |words.leak| ==> words.leak[k] in words.allocation
  }

  /** No counter exceeds the event lines, nor they the lines: none wraps around 2^64. */
  lemma {:induction false} CountersFit(words: EventWords, lines: seq<string>)
    requires LeaksAreAllocations(words)
    ensures Bounded(Summarize(words, lines))
    ensures Summarize(words, lines).coretraceLines == |EventLines(words, lines)| <= |lines|
  {
    if lines != [] {
      CountersFit(words, lines[1..]);
      if Mentions(lines[0], words.leak) {
        var k :| 0 <= k < |words.leak| && Contains(lines[0], words.leak[k]);
        var j :| 0 <= j < |words.allocation| && words.allocation[j] == words.leak[k];
        assert Contains(lines[0], words.allocation[j]);
      }
    }
  }
}
