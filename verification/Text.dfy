/**
 The string operations the analyzer relies on (`find`, `rfind`, `starts_with`,
 `ends_with`, trimming, decimal numbers), as functions over byte strings. A `char`
 stands for one byte; nothing below depends on its being below 256.
 */
module Text {

  datatype Option<+T> = None | Some(value: T)

  /** `pat` occurs in `s` at index `i`. */
  predicate MatchAt(s: string, pat: string, i: nat) {
    i + |pat| <= |s| && forall k :: 0 <= k < |pat| ==> s[i + k] == pat[k]
  }

  /** The first occurrence of `pat` at or after `from`. */
  function Find(s: string, pat: string, from: nat): (r: Option<nat>)
    ensures r.Some? ==> from <= r.value && r.value + |pat| <= |s|
    decreases |s| - from
  {
    if from + |pat| > |s| then None
    else if MatchAt(s, pat, from) then Some(from)
    else Find(s, pat, from + 1)
  }

  /** The last occurrence of `pat` that starts before `before`. */
  function RFindBelow(s: string, pat: string, before: nat): (r: Option<nat>)
    ensures r.Some? ==> r.value < before && r.value + |pat| <= |s|
  {
    if before == 0 then None
    else if MatchAt(s, pat, before - 1) then Some(before - 1)
    else RFindBelow(s, pat, before - 1)
  }

  /** The last occurrence of `pat`. */
  function RFind(s: string, pat: string): Option<nat> {
    RFindBelow(s, pat, |s| + 1)
  }

  predicate Contains(s: string, pat: string) {
    Find(s, pat, 0).Some?
  }

  lemma {:induction false} FindMeaning(s: string, pat: string, from: nat)
    ensures var r := Find(s, pat, from); r.Some? ==>
      MatchAt(s, pat, r.value) && forall j: nat :: from <= j < r.value ==> !MatchAt(s, pat, j)
    ensures Find(s, pat, from).None? ==> forall j: nat :: from <= j ==> !MatchAt(s, pat, j)
    decreases |s| - from
  {
    if from + |pat| <= |s| && !MatchAt(s, pat, from) {
      FindMeaning(s, pat, from + 1);
    }
  }

  /** The first occurrence is what `Find` returns. */
  lemma {:induction false} FindFirst(s: string, pat: string, from: nat, at: nat)
    requires from <= at && MatchAt(s, pat, at)
    requires forall j: nat :: from <= j < at ==> !MatchAt(s, pat, j)
    ensures Find(s, pat, from) == Some(at)
    decreases at - from
  {
    if from < at {
      FindFirst(s, pat, from + 1, at);
    }
  }

  lemma FindNone(s: string, pat: string, from: nat)
    requires forall j: nat :: from <= j ==> !MatchAt(s, pat, j)
    ensures Find(s, pat, from).None?
  {
    FindMeaning(s, pat, from);
  }

  lemma {:induction false} RFindMeaning(s: string, pat: string, before: nat)
    ensures var r := RFindBelow(s, pat, before); r.Some? ==>
      MatchAt(s, pat, r.value) && forall j: nat :: r.value < j < before ==> !MatchAt(s, pat, j)
    ensures RFindBelow(s, pat, before).None? ==> forall j: nat :: j < before ==> !MatchAt(s, pat, j)
  {
    if before > 0 && !MatchAt(s, pat, before - 1) {
      RFindMeaning(s, pat, before - 1);
    }
  }

  lemma ContainsMeaning(s: string, pat: string)
    ensures Contains(s, pat) <==> exists i: nat :: MatchAt(s, pat, i)
  {
    FindMeaning(s, pat, 0);
  }

  /** One of the words is somewhere in the line. */
  predicate Mentions(line: string, words: seq<string>) {
    exists k :: 0 <= k < |words| && Contains(line, words[k])
  }

  lemma MentionsTwo(line: string, a: string, b: string)
    ensures Mentions(line, [a]) <==> Contains(line, a)
    ensures Mentions(line, [a, b]) <==> Contains(line, a) || Contains(line, b)
  {
    assert [a][0] == a && [a, b][0] == a && [a, b][1] == b;
  }

  lemma MentionsFour(line: string, a: string, b: string, c: string, d: string)
    ensures Mentions(line, [a, b, c, d])
      <==> Contains(line, a) || Contains(line, b) || Contains(line, c) || Contains(line, d)
  {
    var words := [a, b, c, d];
    assert words[0] == a && words[1] == b && words[2] == c && words[3] == d;
  }

  lemma MentionsConcat(line: string, a: seq<string>, b: seq<string>)
    ensures Mentions(line, a + b) <==> Mentions(line, a) || Mentions(line, b)
  {
    if k :| 0 <= k < |a| && Contains(line, a[k]) {
      assert Contains(line, (a + b)[k]);
    }
    if k :| 0 <= k < |b| && Contains(line, b[k]) {
      assert Contains(line, (a + b)[|a| + k]);
    }
  }

  predicate StartsWith(s: string, prefix: string) {
    MatchAt(s, prefix, 0)
  }

  predicate EndsWith(s: string, suffix: string) {
    |suffix| <= |s| && MatchAt(s, suffix, |s| - |suffix|)
  }

  /** No byte of `s` is `c`. */
  predicate Lacks(s: string, c: char) {
    forall i :: 0 <= i < |s| ==> s[i] != c
  }

  /** The index of the first `c` at or after `from`, or the length. */
  function IndexFrom(s: string, c: char, from: nat): (n: nat)
    requires from <= |s|
    ensures from <= n <= |s|
    decreases |s| - from
  {
    if from == |s| || s[from] == c then from else IndexFrom(s, c, from + 1)
  }

  /** The index of the first `c`, or the length. */
  function IndexOf(s: string, c: char): (n: nat)
    ensures n <= |s|
  {
    IndexFrom(s, c, 0)
  }

  /** One past the index of the last `c`, or 0. */
  function AfterLast(s: string, c: char): (n: nat)
    ensures n <= |s|
  {
    if s == "" then 0
    else if s[|s| - 1] == c then |s|
    else AfterLast(s[..|s| - 1], c)
  }

  lemma {:induction false} IndexFromMeaning(s: string, c: char, from: nat)
    requires from <= |s|
    ensures var n := IndexFrom(s, c, from); (forall i :: from <= i < n ==> s[i] != c) && (n < |s| ==> s[n] == c)
    decreases |s| - from
  {
    if from < |s| && s[from] != c {
      IndexFromMeaning(s, c, from + 1);
    }
  }

  lemma IndexMeaning(s: string, c: char)
    ensures var n := IndexOf(s, c); (forall i :: 0 <= i < n ==> s[i] != c) && (n < |s| ==> s[n] == c)
    ensures IndexOf(s, c) == |s| <==> Lacks(s, c)
  {
    IndexFromMeaning(s, c, 0);
  }

  lemma {:induction false} AfterLastMeaning(s: string, c: char)
    ensures var n := AfterLast(s, c); (forall i :: n <= i < |s| ==> s[i] != c) && (n > 0 ==> s[n - 1] == c)
  {
    if s != "" && s[|s| - 1] != c {
      AfterLastMeaning(s[..|s| - 1], c);
    }
  }

  lemma IndexOfHead(head: string, c: char, rest: string)
    requires Lacks(head, c)
    ensures IndexOf(head + [c] + rest, c) == |head|
  {
    var s := head + [c] + rest;
    IndexMeaning(s, c);
    assert s[|head|] == c;
  }

  lemma AfterLastHead(head: string, c: char, rest: string)
    requires Lacks(rest, c)
    ensures AfterLast(head + [c] + rest, c) == |head| + 1
  {
    var s := head + [c] + rest;
    AfterLastMeaning(s, c);
    assert s[|head|] == c;
  }

  /** What precedes the first `c`, and what follows it. */
  lemma SplitFirst(s: string, c: char) returns (head: string, rest: string)
    requires !Lacks(s, c)
    ensures Lacks(head, c) && s == head + [c] + rest
  {
    IndexMeaning(s, c);
    var n := IndexOf(s, c);
    head, rest := s[..n], s[n + 1..];
  }

  // ---- Occurrences in concatenations ----

  /** An occurrence of a string is an occurrence of each of its substrings. */
  lemma ContainsPart(s: string, whole: string, part: string, at: nat)
    requires MatchAt(whole, part, at)
    requires Contains(s, whole)
    ensures Contains(s, part)
  {
    ContainsMeaning(s, whole);
    ContainsMeaning(s, part);
    var i: nat :| MatchAt(s, whole, i);
    forall k | 0 <= k < |part| ensures s[i + at + k] == part[k] {
      MatchAtIndex(whole, part, at, k);
      MatchAtIndex(s, whole, i, at + k);
    }
    assert s[i + at..i + at + |part|] == part;
    assert MatchAt(s, part, i + at);
  }

  lemma MatchAtIndex(s: string, pat: string, i: nat, k: nat)
    requires MatchAt(s, pat, i) && k < |pat|
    ensures s[i + k] == pat[k]
  {
    assert s[i..i + |pat|][k] == pat[k];
  }

  lemma Mismatch(s: string, pat: string, i: nat, k: nat)
    requires k < |pat| && (i + k >= |s| || s[i + k] != pat[k])
    ensures !MatchAt(s, pat, i)
  {
  }

  /** A match in what follows a prefix is a match of the whole, further on. */
  lemma ShiftMatch(before: string, rest: string, pat: string, i: nat)
    ensures MatchAt(before + rest, pat, i + |before|) <==> MatchAt(rest, pat, i)
  {
    var s := before + rest;
    if MatchAt(s, pat, i + |before|) {
      forall k | 0 <= k < |pat| ensures rest[i + k] == pat[k] {
        MatchAtIndex(s, pat, i + |before|, k);
      }
    }
    if MatchAt(rest, pat, i) {
      forall k | 0 <= k < |pat| ensures s[i + |before| + k] == pat[k] {
        MatchAtIndex(rest, pat, i, k);
      }
    }
  }

  /** A match within a prefix is one of the prefix. */
  lemma MatchLeft(x: string, y: string, pat: string, i: nat)
    requires i + |pat| <= |x|
    ensures MatchAt(x + y, pat, i) <==> MatchAt(x, pat, i)
  {
    var s := x + y;
    if MatchAt(s, pat, i) {
      forall k | 0 <= k < |pat| ensures x[i + k] == pat[k] {
        MatchAtIndex(s, pat, i, k);
      }
    }
    if MatchAt(x, pat, i) {
      forall k | 0 <= k < |pat| ensures s[i + k] == pat[k] {
        MatchAtIndex(x, pat, i, k);
      }
    }
  }

  lemma ContainsLeft(x: string, y: string, pat: string)
    requires Contains(x, pat)
    ensures Contains(x + y, pat)
  {
    ContainsMeaning(x, pat);
    ContainsMeaning(x + y, pat);
    var i: nat :| MatchAt(x, pat, i);
    MatchLeft(x, y, pat, i);
  }

  lemma ContainsRight(x: string, y: string, pat: string)
    requires Contains(y, pat)
    ensures Contains(x + y, pat)
  {
    ContainsMeaning(y, pat);
    ContainsMeaning(x + y, pat);
    var i: nat :| MatchAt(y, pat, i);
    ShiftMatch(x, y, pat, i);
  }

  /** A match of a pattern without `c` is on one side of it. */
  lemma MatchSplit(x: string, c: char, y: string, pat: string, i: nat)
    requires Lacks(pat, c) && pat != "" && MatchAt(x + [c] + y, pat, i)
    ensures if i < |x| then MatchAt(x, pat, i) else i > |x| && MatchAt(y, pat, i - |x| - 1)
  {
    var s := x + [c] + y;
    if i + |pat| <= |x| {
      assert s == x + ([c] + y);
      MatchLeft(x, [c] + y, pat, i);
    } else if i > |x| {
      ShiftMatch(x + [c], y, pat, i - |x| - 1);
    } else {
      MatchAtIndex(s, pat, i, |x| - i);
      assert false;
    }
  }

  /** An occurrence in `x + c + y` of a pattern without `c` lies in `x` or in `y`. */
  lemma ContainsSplit(x: string, c: char, y: string, pat: string)
    requires Lacks(pat, c) && pat != ""
    ensures Contains(x + [c] + y, pat) <==> Contains(x, pat) || Contains(y, pat)
  {
    var s := x + [c] + y;
    if Contains(x, pat) {
      ContainsLeft(x, [c] + y, pat);
      assert s == x + ([c] + y);
    }
    if Contains(y, pat) {
      ContainsRight(x + [c], y, pat);
    }
    if Contains(s, pat) {
      ContainsMeaning(s, pat);
      ContainsMeaning(x, pat);
      ContainsMeaning(y, pat);
      var i: nat :| MatchAt(s, pat, i);
      MatchSplit(x, c, y, pat, i);
    }
  }

  /** A pattern with a byte that `s` lacks does not occur in `s`. */
  lemma LacksContains(s: string, pat: string, k: nat)
    requires k < |pat| && Lacks(s, pat[k])
    ensures !Contains(s, pat)
  {
    ContainsMeaning(s, pat);
    forall i: nat ensures !MatchAt(s, pat, i) {
      if MatchAt(s, pat, i) {
        MatchAtIndex(s, pat, i, k);
        assert false;
      }
    }
  }

  // ---- Joining ----

  function Join(values: seq<string>, separator: string): string {
    if values == [] then ""
    else if |values| == 1 then values[0]
    else values[0] + separator + Join(values[1..], separator)
  }

  // ---- Trimming ----

  /** The index of the first byte that is not a space, or the length. */
  function FirstNotSpace(s: string): (n: nat)
    ensures n <= |s|
  {
    if s == "" || s[0] != ' ' then 0 else 1 + FirstNotSpace(s[1..])
  }

  /** One past the index of the last byte that is not a space, or 0. */
  function EndNotSpace(s: string): (n: nat)
    ensures n <= |s|
  {
    if s == "" then 0
    else if s[|s| - 1] != ' ' then |s|
    else EndNotSpace(s[..|s| - 1])
  }

  /** The text between its first and its last byte that is not a space. */
  function Trim(s: string): string {
    if FirstNotSpace(s) >= EndNotSpace(s) then "" else s[FirstNotSpace(s)..EndNotSpace(s)]
  }

  lemma {:induction false} FirstNotSpaceMeaning(s: string)
    ensures var n := FirstNotSpace(s); (forall i :: 0 <= i < n ==> s[i] == ' ') && (n < |s| ==> s[n] != ' ')
  {
    if s != "" && s[0] == ' ' {
      FirstNotSpaceMeaning(s[1..]);
    }
  }

  lemma {:induction false} EndNotSpaceMeaning(s: string)
    ensures var n := EndNotSpace(s); (forall i :: n <= i < |s| ==> s[i] == ' ') && (n > 0 ==> s[n - 1] != ' ')
  {
    if s != "" && s[|s| - 1] == ' ' {
      EndNotSpaceMeaning(s[..|s| - 1]);
    }
  }

  predicate AllSpaces(s: string) {
    forall i :: 0 <= i < |s| ==> s[i] == ' '
  }

  /** No space at either end. */
  predicate Trimmed(s: string) {
    s != "" ==> s[0] != ' ' && s[|s| - 1] != ' '
  }

  /** Trimming recovers a text without edge spaces from any padding. */
  lemma TrimPadded(left: string, s: string, right: string)
    requires AllSpaces(left) && AllSpaces(right) && Trimmed(s)
    ensures Trim(left + s + right) == s
  {
    var t := left + s + right;
    var first, end := FirstNotSpace(t), EndNotSpace(t);
    FirstNotSpaceMeaning(t);
    EndNotSpaceMeaning(t);
    if s != "" {
      assert t[|left|] == s[0] && t[|left| + |s| - 1] == s[|s| - 1];
      assert first == |left| && end == |left| + |s|;
      assert t[first..end] == s;
    }
  }

  // ---- Decimal numbers ----

  predicate IsDigit(c: char) {
    '0' <= c <= '9'
  }

  predicate AllDigits(s: string) {
    forall i :: 0 <= i < |s| ==> IsDigit(s[i])
  }

  /** The length of the longest prefix of digits. */
  function DigitPrefix(s: string): (n: nat)
    ensures n <= |s| && AllDigits(s[..n])
    ensures n < |s| ==> !IsDigit(s[n])
  {
    if s == "" || !IsDigit(s[0]) then 0
    else
      var more := DigitPrefix(s[1..]);
      assert s[..1 + more] == [s[0]] + s[1..][..more];
      1 + more
  }

  lemma DigitPrefixWhole(s: string)
    ensures DigitPrefix(s) == |s| <==> AllDigits(s)
  {
    var n := DigitPrefix(s);
    if n == |s| {
      assert s[..n] == s;
    }
  }

  function DecValue(s: string): nat
    requires AllDigits(s)
  {
    if s == "" then 0
    else DecValue(s[..|s| - 1]) * 10 + (s[|s| - 1] as int - '0' as int)
  }

  /** The decimal digits of `n`, without leading zeros. */
  function Dec(n: nat): (s: string)
    ensures s != "" && AllDigits(s)
    decreases n
  {
    var digit := [('0' as int + n % 10) as char];
    if n < 10 then digit else Dec(n / 10) + digit
  }

  lemma {:induction false} DecRoundTrip(n: nat)
    ensures DecValue(Dec(n)) == n
  {
    var s := Dec(n);
    if n >= 10 {
      DecRoundTrip(n / 10);
      assert s[..|s| - 1] == Dec(n / 10);
    } else {
      assert s[..0] == "";
    }
  }

  // ---- Lines ----

  /** The lines of a text: each ends at a newline, the last one possibly at the end. */
  function Lines(s: string): seq<string>
    decreases |s|
  {
    if s == "" then []
    else
      var end := IndexOf(s, '\n');
      if end == |s| then [s] else [s[..end]] + Lines(s[end + 1..])
  }

  /** `s` is empty or ends a line. */
  predicate AtLineBoundary(s: string) {
    s == "" || s[|s| - 1] == '\n'
  }

  lemma Assoc<T>(a: seq<T>, b: seq<T>, c: seq<T>)
    ensures a + b + c == a + (b + c)
  {
  }

  lemma BoundaryTail(line: string, rest: string)
    requires AtLineBoundary(line + "\n" + rest)
    ensures AtLineBoundary(rest)
  {
    var s := line + "\n" + rest;
    if rest != "" {
      assert rest[|rest| - 1] == s[|s| - 1];
    }
  }

  lemma LinesHead(line: string, rest: string)
    requires Lacks(line, '\n')
    ensures Lines(line + "\n" + rest) == [line] + Lines(rest)
  {
    IndexOfHead(line, '\n', rest);
    var s := line + "\n" + rest;
    assert s[..|line|] == line && s[|line| + 1..] == rest;
  }

  /** A text that is a line boundary contributes its own lines, whatever follows. */
  lemma {:induction false} LinesConcat(a: string, b: string)
    requires AtLineBoundary(a)
    ensures Lines(a + b) == Lines(a) + Lines(b)
    decreases |a|
  {
    if a == "" {
      assert a + b == b;
    } else {
      assert a[|a| - 1] == '\n';
      var line, rest := SplitFirst(a, '\n');
      BoundaryTail(line, rest);
      LinesConcat(rest, b);
      LinesHead(line, rest);
      LinesHead(line, rest + b);
      Assoc(line + "\n", rest, b);
      Assoc([line], Lines(rest), Lines(b));
    }
  }

  /** Every line is free of newlines. */
  lemma {:induction false} LinesLackNewline(s: string)
    ensures forall k :: 0 <= k < |Lines(s)| ==> Lacks(Lines(s)[k], '\n')
    decreases |s|
  {
    if Lacks(s, '\n') {
      if s != "" {
        IndexMeaning(s, '\n');
      }
    } else {
      var line, rest := SplitFirst(s, '\n');
      LinesHead(line, rest);
      LinesLackNewline(rest);
    }
  }

  /** Lines joined back, each with its newline. */
  function Unlines(lines: seq<string>): string {
    if lines == [] then "" else lines[0] + "\n" + Unlines(lines[1..])
  }

  lemma {:induction false} LinesUnlines(lines: seq<string>)
    requires forall k :: 0 <= k < |lines| ==> Lacks(lines[k], '\n')
    ensures Lines(Unlines(lines)) == lines
  {
    if lines != [] {
      LinesHead(lines[0], Unlines(lines[1..]));
      LinesUnlines(lines[1..]);
    }
  }

  lemma {:induction false} UnlinesConcat(a: seq<string>, b: seq<string>)
    ensures Unlines(a + b) == Unlines(a) + Unlines(b)
  {
    if a == [] {
      assert a + b == b;
    } else {
      UnlinesConcat(a[1..], b);
      assert (a + b)[1..] == a[1..] + b;
      assert Unlines(a + b) == a[0] + "\n" + (Unlines(a[1..]) + Unlines(b));
    }
  }
}
