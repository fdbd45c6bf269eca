/**
 The "key=value" scanner of src/findings.cpp (`Field`): a find-and-retry loop over the
 line, shown to be a lookup among the line's space-separated tokens.
 */
module Fields {
  import opened Text

  /** The key occurs at `at`, starts the line or follows a space, and is followed by '='. */
  predicate Hit(line: string, key: string, at: nat) {
    && MatchAt(line, key, at)
    && (at == 0 || line[at - 1] == ' ')
    && at + |key| < |line| && line[at + |key|] == '='
  }

  function UpToSpace(s: string): string {
    s[..IndexOf(s, ' ')]
  }

  /** The value of the first hit at or after `from`. */
  function FieldFrom(line: string, key: string, from: nat): Option<string>
    decreases |line| + 1 - from
  {
    match Find(line, key, from)
    case None => None
    case Some(at) =>
      if Hit(line, key, at) then Some(UpToSpace(line[at + |key| + 1..]))
      else FieldFrom(line, key, at + 1)
  }

  function FieldOf(line: string, key: string): Option<string> {
    FieldFrom(line, key, 0)
  }

  /** One turn of the search: a hit answers, anything else moves on. */
  lemma FieldStep(line: string, key: string, from: nat, at: nat)
    requires Find(line, key, from) == Some(at)
    ensures FieldFrom(line, key, from)
      == if Hit(line, key, at) then Some(UpToSpace(line[at + |key| + 1..])) else FieldFrom(line, key, at + 1)
  {
  }

  /** The search loop. */
  method Field(line: string, key: string) returns (value: Option<string>)
    ensures value == FieldOf(line, key)
  {
    var from: nat := 0;
    var at := Find(line, key, from);
    ghost var whole := FieldOf(line, key);
    while at.Some?
      invariant at == Find(line, key, from)
      invariant whole == FieldFrom(line, key, from)
      decreases |line| + 1 - from
    {
      var found := at.value;
      FieldStep(line, key, from, found);
      FindMeaning(line, key, from);
      if Hit(line, key, found) {
        return Some(UpToSpace(line[found + |key| + 1..]));
      }
      from := found + 1;
      at := Find(line, key, from);
    }
    return None;
  }

  // ---- The token view ----

  /** The pieces of a line between single spaces. */
  function Tokens(line: string): seq<string>
    decreases |line|
  {
    var end := IndexOf(line, ' ');
    if end == |line| then [line] else [line[..end]] + Tokens(line[end + 1..])
  }

  /** What follows "key=" in the first token that starts with it. */
  function Lookup(tokens: seq<string>, key: string): Option<string> {
    if tokens == [] then None
    else if StartsWith(tokens[0], key + "=") then Some(tokens[0][|key| + 1..])
    else Lookup(tokens[1..], key)
  }

  predicate Key(key: string) {
    key != "" && Lacks(key, ' ') && Lacks(key, '=')
  }

  lemma FirstHit(line: string, key: string, at: nat)
    requires Hit(line, key, at)
    requires forall j: nat :: j < at ==> !Hit(line, key, j)
    ensures FieldOf(line, key) == Some(UpToSpace(line[at + |key| + 1..]))
  {
    FirstHitFrom(line, key, at, 0);
  }

  lemma {:induction false} FirstHitFrom(line: string, key: string, at: nat, from: nat)
    requires Hit(line, key, at) && from <= at
    requires forall j: nat :: j < at ==> !Hit(line, key, j)
    ensures FieldFrom(line, key, from) == Some(UpToSpace(line[at + |key| + 1..]))
    decreases at - from
  {
    FindMeaning(line, key, from);
    var found := Find(line, key, from).value;
    FieldStep(line, key, from, found);
    if found < at {
      FirstHitFrom(line, key, at, found + 1);
    }
  }

  /** A line without a space is one token. */
  lemma TokensOne(s: string)
    requires Lacks(s, ' ')
    ensures Tokens(s) == [s]
    ensures UpToSpace(s) == s
  {
    IndexMeaning(s, ' ');
  }

  lemma TokensHead(head: string, rest: string)
    requires Lacks(head, ' ')
    ensures Tokens(head + " " + rest) == [head] + Tokens(rest)
    ensures UpToSpace(head + " " + rest) == head
  {
    IndexOfHead(head, ' ', rest);
    var s := head + " " + rest;
    assert s[..|head|] == head && s[|head| + 1..] == rest;
  }

  /** A hit at the start of the line is a first token that starts with "key=". */
  lemma HitAtStart(line: string, key: string)
    requires Key(key)
    ensures Hit(line, key, 0) <==> StartsWith(line, key + "=")
  {
    var pat := key + "=";
    if Hit(line, key, 0) {
      forall k | 0 <= k < |pat| ensures line[0 + k] == pat[k] {
        if k < |key| {
          MatchAtIndex(line, key, 0, k);
        }
      }
    }
    if StartsWith(line, pat) {
      MatchAtIndex(line, pat, 0, |key|);
      forall k | 0 <= k < |key| ensures line[0 + k] == key[k] {
        MatchAtIndex(line, pat, 0, k);
      }
    }
  }

  /** Within the first token there is no hit but at its start. */
  lemma NoHitInside(head: string, rest: string, key: string, at: nat)
    requires Lacks(head, ' ') && 0 < at <= |head|
    ensures !Hit(head + " " + rest, key, at)
  {
    var line := head + " " + rest;
    assert line[at - 1] == head[at - 1];
  }

  /** Past the first token, hits are hits of the rest of the line. */
  lemma HitInRest(head: string, rest: string, key: string, at: nat)
    requires at > |head|
    ensures Hit(head + " " + rest, key, at) <==> Hit(rest, key, at - |head| - 1)
  {
    var line, k := head + " " + rest, at - |head| - 1;
    assert line == (head + " ") + rest;
    ShiftMatch(head + " ", rest, key, k);
    if at <= |line| {
      assert line[at - 1] == if k == 0 then ' ' else rest[k - 1];
    }
    if at + |key| < |line| {
      assert line[at + |key|] == rest[k + |key|];
    }
  }

  lemma HeadHit(head: string, rest: string, key: string)
    requires Key(key) && Lacks(head, ' ')
    ensures Hit(head + " " + rest, key, 0) <==> StartsWith(head, key + "=")
  {
    var line := head + " " + rest;
    HitAtStart(line, key);
    var pat := key + "=";
    if StartsWith(head, pat) {
      assert line[..|pat|] == head[..|pat|];
    }
    if StartsWith(line, pat) {
      forall k | 0 <= k < |pat| ensures line[k] != ' ' {
        MatchAtIndex(line, pat, 0, k);
      }
      assert line[|head|] == ' ';
      assert line[..|pat|] == head[..|pat|];
    }
  }

  /** The field of a single token. */
  lemma FieldOne(token: string, key: string)
    requires Key(key) && Lacks(token, ' ')
    ensures FieldOf(token, key) == if StartsWith(token, key + "=") then Some(token[|key| + 1..]) else None
  {
    HitAtStart(token, key);
    if StartsWith(token, key + "=") {
      FirstHit(token, key, 0);
      TokensOne(token[|key| + 1..]);
    } else {
      NoHit(token, key);
    }
  }

  lemma ValueInHead(head: string, rest: string, start: nat)
    requires Lacks(head, ' ') && start <= |head|
    ensures UpToSpace((head + " " + rest)[start..]) == head[start..]
  {
    assert (head + " " + rest)[start..] == head[start..] + " " + rest;
    TokensHead(head[start..], rest);
  }

  /** The field of a line whose first token is, or is not, the field itself. */
  lemma FieldHead(head: string, rest: string, key: string)
    requires Key(key) && Lacks(head, ' ')
    ensures FieldOf(head + " " + rest, key)
      == if StartsWith(head, key + "=") then Some(head[|key| + 1..]) else FieldOf(rest, key)
  {
    var line := head + " " + rest;
    HeadHit(head, rest, key);
    if StartsWith(head, key + "=") {
      FirstHit(line, key, 0);
      ValueInHead(head, rest, |key| + 1);
    } else {
      FieldInRest(head, rest, key);
    }
  }

  /** The search loop returns the value of the first token that starts with "key=". */
  lemma {:induction false} FieldIsLookup(line: string, key: string)
    requires Key(key)
    ensures FieldOf(line, key) == Lookup(Tokens(line), key)
    decreases |line|
  {
    if Lacks(line, ' ') {
      TokensOne(line);
      FieldOne(line, key);
      assert [line][1..] == [];
    } else {
      var head, rest := SplitFirst(line, ' ');
      TokensHead(head, rest);
      FieldHead(head, rest, key);
      FieldIsLookup(rest, key);
    }
  }

  lemma NoHit(line: string, key: string)
    requires forall j: nat :: !Hit(line, key, j)
    ensures FieldOf(line, key) == None
  {
    NoHitFrom(line, key, 0);
  }

  lemma {:induction false} NoHitFrom(line: string, key: string, from: nat)
    requires forall j: nat :: !Hit(line, key, j)
    ensures FieldFrom(line, key, from) == None
    decreases |line| + 1 - from
  {
    var at := Find(line, key, from);
    if at.Some? {
      NoHitFrom(line, key, at.value + 1);
    }
  }

  lemma HitExists(line: string, key: string) returns (at: nat)
    requires FieldOf(line, key).Some?
    ensures Hit(line, key, at) && forall j: nat :: j < at ==> !Hit(line, key, j)
  {
    if forall j: nat :: !Hit(line, key, j) {
      NoHit(line, key);
      assert false;
    }
    var k: nat :| Hit(line, key, k);
    at := LeastHit(line, key, k);
  }

  lemma {:induction false} LeastHit(line: string, key: string, k: nat) returns (at: nat)
    requires Hit(line, key, k)
    ensures Hit(line, key, at) && forall j: nat :: j < at ==> !Hit(line, key, j)
  {
    if j: nat :| j < k && Hit(line, key, j) {
      at := LeastHit(line, key, j);
    } else {
      at := k;
    }
  }

  lemma FieldInRest(head: string, rest: string, key: string)
    requires Key(key) && Lacks(head, ' ')
    requires !Hit(head + " " + rest, key, 0)
    ensures FieldOf(head + " " + rest, key) == FieldOf(rest, key)
  {
    var line := head + " " + rest;
    forall at: nat ensures Hit(line, key, at) ==> at > |head| && Hit(rest, key, at - |head| - 1) {
      if at > |head| {
        HitInRest(head, rest, key, at);
      } else if at > 0 {
        NoHitInside(head, rest, key, at);
      }
    }
    if FieldOf(rest, key).Some? {
      var k := HitExists(rest, key);
      var at := k + |head| + 1;
      HitInRest(head, rest, key, at);
      FirstHit(rest, key, k);
      FirstHit(line, key, at);
      assert line[at + |key| + 1..] == rest[k + |key| + 1..];
    } else {
      forall j: nat ensures !Hit(line, key, j) {
        if Hit(line, key, j) {
          var k := LeastHit(rest, key, j - |head| - 1);
          FirstHit(rest, key, k);
          assert false;
        }
      }
      NoHit(line, key);
    }
  }

  // ---- Fields of a line built from pieces ----

  lemma {:induction false} TokensConcat(a: string, b: string)
    ensures Tokens(a + " " + b) == Tokens(a) + Tokens(b)
    decreases |a|
  {
    if Lacks(a, ' ') {
      TokensOne(a);
      TokensHead(a, b);
    } else {
      var head, rest := SplitFirst(a, ' ');
      TokensHead(head, rest);
      TokensConcat(rest, b);
      assert a + " " + b == head + " " + (rest + " " + b);
      TokensHead(head, rest + " " + b);
      Assoc([head], Tokens(rest), Tokens(b));
    }
  }

  lemma {:induction false} LookupConcat(a: seq<string>, b: seq<string>, key: string)
    ensures Lookup(a + b, key) == if Lookup(a, key).Some? then Lookup(a, key) else Lookup(b, key)
  {
    if a == [] {
      assert a + b == b;
    } else {
      LookupConcat(a[1..], b, key);
      assert (a + b)[1..] == a[1..] + b;
    }
  }

  /** A field of "a b" is the field of `a`, or else of `b`. */
  lemma FieldConcat(a: string, b: string, key: string)
    requires Key(key)
    ensures FieldOf(a + " " + b, key) == if FieldOf(a, key).Some? then FieldOf(a, key) else FieldOf(b, key)
  {
    FieldIsLookup(a, key);
    FieldIsLookup(b, key);
    FieldIsLookup(a + " " + b, key);
    TokensConcat(a, b);
    LookupConcat(Tokens(a), Tokens(b), key);
  }
}
