/**
 Occurrences of a pattern with a space in it, found among the tokens of a line.
 */
module Phrases {
  import opened Text
  import opened Fields

  predicate AllTokens(tokens: seq<string>) {
    tokens != [] && forall k :: 0 <= k < |tokens| ==> Lacks(tokens[k], ' ')
  }

  function Spaced(tokens: seq<string>): string {
    Join(tokens, " ")
  }

  lemma {:induction false} TokensSpaced(tokens: seq<string>)
    requires AllTokens(tokens)
    ensures Tokens(Spaced(tokens)) == tokens
  {
    if |tokens| == 1 {
      TokensOne(tokens[0]);
    } else {
      TokensSpaced(tokens[1..]);
      TokensHead(tokens[0], Spaced(tokens[1..]));
    }
  }

  /** The field of a line printed from its tokens. */
  lemma FieldSpaced(tokens: seq<string>, key: string)
    requires AllTokens(tokens) && Key(key)
    ensures FieldOf(Spaced(tokens), key) == Lookup(tokens, key)
  {
    TokensSpaced(tokens);
    FieldIsLookup(Spaced(tokens), key);
  }

  /** Where "p w" occurs: across the first space, or in what follows it. */
  lemma MatchHead(token: string, rest: string, p: string, w: string, i: nat)
    requires Lacks(token, ' ') && Lacks(p, ' ')
    ensures i <= |token| ==>
      (MatchAt(token + " " + rest, p + " " + w, i) <==> i + |p| == |token| && EndsWith(token, p) && StartsWith(rest, w))
    ensures i > |token| ==>
      (MatchAt(token + " " + rest, p + " " + w, i) <==> MatchAt(rest, p + " " + w, i - |token| - 1))
  {
    var s, pat := token + " " + rest, p + " " + w;
    if i > |token| {
      ShiftMatch(token + " ", rest, pat, i - |token| - 1);
    } else if i + |p| < |token| {
      Mismatch(s, pat, i, |p|);
    } else if i + |p| > |token| {
      Mismatch(s, pat, i, |token| - i);
    } else {
      MatchAtSpace(token, rest, p, w);
    }
  }

  /** Before the first space "p w" occurs once or not at all. */
  lemma NotBefore(token: string, rest: string, p: string, w: string, before: nat)
    requires Lacks(token, ' ') && Lacks(p, ' ') && before <= |token| + 1
    requires EndsWith(token, p) && StartsWith(rest, w) ==> before + |p| <= |token|
    ensures forall j: nat :: j < before ==> !MatchAt(token + " " + rest, p + " " + w, j)
  {
    forall j: nat | j < before ensures !MatchAt(token + " " + rest, p + " " + w, j) {
      MatchHead(token, rest, p, w, j);
    }
  }

  /** After it, what precedes an occurrence in the rest is none. */
  lemma NotBetween(token: string, rest: string, p: string, w: string, to: nat)
    requires Lacks(token, ' ') && Lacks(p, ' ')
    requires forall j: nat :: j < to ==> !MatchAt(rest, p + " " + w, j)
    ensures forall j: nat :: |token| < j < |token| + 1 + to ==> !MatchAt(token + " " + rest, p + " " + w, j)
  {
    forall j: nat | |token| < j < |token| + 1 + to ensures !MatchAt(token + " " + rest, p + " " + w, j) {
      MatchHead(token, rest, p, w, j);
    }
  }

  lemma FindHere(token: string, rest: string, p: string, w: string)
    requires Lacks(token, ' ') && Lacks(p, ' ') && EndsWith(token, p) && StartsWith(rest, w)
    ensures Find(token + " " + rest, p + " " + w, 0) == Some(|token| - |p|)
  {
    var at := |token| - |p|;
    MatchHead(token, rest, p, w, at);
    NotBefore(token, rest, p, w, at);
    FindFirst(token + " " + rest, p + " " + w, 0, at);
  }

  lemma FindLater(token: string, rest: string, p: string, w: string, i: nat)
    requires Lacks(token, ' ') && Lacks(p, ' ') && !(EndsWith(token, p) && StartsWith(rest, w))
    requires Find(rest, p + " " + w, 0) == Some(i)
    ensures Find(token + " " + rest, p + " " + w, 0) == Some(i + |token| + 1)
  {
    var at := i + |token| + 1;
    FindMeaning(rest, p + " " + w, 0);
    MatchHead(token, rest, p, w, at);
    NotBefore(token, rest, p, w, |token| + 1);
    NotBetween(token, rest, p, w, i);
    FindFirst(token + " " + rest, p + " " + w, 0, at);
  }

  lemma FindNever(token: string, rest: string, p: string, w: string)
    requires Lacks(token, ' ') && Lacks(p, ' ') && !(EndsWith(token, p) && StartsWith(rest, w))
    requires Find(rest, p + " " + w, 0).None?
    ensures Find(token + " " + rest, p + " " + w, 0).None?
  {
    var s, pat := token + " " + rest, p + " " + w;
    FindMeaning(rest, pat, 0);
    NotBefore(token, rest, p, w, |token| + 1);
    forall j: nat ensures !MatchAt(s, pat, j) {
      NotBetween(token, rest, p, w, j);
    }
    FindNone(s, pat, 0);
  }

  /** A place in what follows, as a place in the whole. */
  function Later(place: Option<nat>, n: nat): Option<nat> {
    if place.Some? then Some(place.value + n) else None
  }

  /** Where "p w" is, given where it is in what follows the first space. */
  predicate FoundHead(token: string, rest: string, p: string, w: string, found: Option<nat>, later: Option<nat>) {
    found == if EndsWith(token, p) && StartsWith(rest, w) then Some(|token| - |p|) else Later(later, |token| + 1)
  }

  /** "p w" is found just before the first space, or else in what follows it. */
  lemma FindHead(token: string, rest: string, p: string, w: string)
    requires Lacks(token, ' ') && Lacks(p, ' ')
    ensures FoundHead(token, rest, p, w, Find(token + " " + rest, p + " " + w, 0), Find(rest, p + " " + w, 0))
  {
    var later := Find(rest, p + " " + w, 0);
    if EndsWith(token, p) && StartsWith(rest, w) {
      FindHere(token, rest, p, w);
    } else if later.Some? {
      FindLater(token, rest, p, w, later.value);
    } else {
      FindNever(token, rest, p, w);
    }
  }

  lemma MatchAtSpace(token: string, rest: string, p: string, w: string)
    requires |p| <= |token|
    ensures MatchAt(token + " " + rest, p + " " + w, |token| - |p|) <==> EndsWith(token, p) && StartsWith(rest, w)
  {
    var s, pat, at := token + " " + rest, p + " " + w, |token| - |p|;
    if MatchAt(s, pat, at) {
      forall k | 0 <= k < |p| ensures token[at..][k] == p[k] {
        MatchAtIndex(s, pat, at, k);
      }
      assert token[at..] == p;
      MatchAtIndex(s, pat, at, |pat| - 1);
      forall k | 0 <= k < |w| ensures rest[k] == w[k] {
        MatchAtIndex(s, pat, at, |p| + 1 + k);
      }
      assert rest[..|w|] == w;
    }
    if EndsWith(token, p) && StartsWith(rest, w) {
      forall k | 0 <= k < |pat| ensures s[at + k] == pat[k] {
        if k < |p| {
          assert token[at..][k] == p[k];
        } else if k > |p| {
          assert rest[..|w|][k - |p| - 1] == w[k - |p| - 1];
        }
      }
    }
  }

  /** No token but the last ends in `p`: "p w" does not occur. */
  lemma {:induction false} NoPhrase(tokens: seq<string>, p: string, w: string)
    requires AllTokens(tokens) && Lacks(p, ' ')
    requires forall k :: 0 <= k < |tokens| - 1 ==> !EndsWith(tokens[k], p)
    ensures !Contains(Spaced(tokens), p + " " + w)
  {
    var pat := p + " " + w;
    if |tokens| == 1 {
      assert pat[|p|] == ' ';
      LacksContains(tokens[0], pat, |p|);
    } else {
      NoPhrase(tokens[1..], p, w);
      FindHead(tokens[0], Spaced(tokens[1..]), p, w);
    }
  }

  /** Token `k` is the first that ends in `p`: "p w" occurs there if `w` follows. */
  lemma {:induction false} PhraseAt(tokens: seq<string>, k: nat, p: string, w: string) returns (at: nat)
    requires AllTokens(tokens) && Lacks(p, ' ') && k + 1 < |tokens|
    requires forall j :: 0 <= j < k ==> !EndsWith(tokens[j], p)
    requires EndsWith(tokens[k], p) && StartsWith(Spaced(tokens[k + 1..]), w)
    ensures Find(Spaced(tokens), p + " " + w, 0) == Some(at)
    ensures at + |p| + 1 <= |Spaced(tokens)| && Spaced(tokens)[at + |p| + 1..] == Spaced(tokens[k + 1..])
  {
    var rest := Spaced(tokens[1..]);
    FindHead(tokens[0], rest, p, w);
    if k == 0 {
      at := |tokens[0]| - |p|;
    } else {
      assert tokens[1..][k..] == tokens[k + 1..];
      var later := PhraseAt(tokens[1..], k - 1, p, w);
      at := later + |tokens[0]| + 1;
      assert Spaced(tokens)[at + |p| + 1..] == rest[later + |p| + 1..];
    }
  }

  /** Only token `k` ends in `p`, and `w` does not follow: "p w" does not occur. */
  lemma {:induction false} PhraseNotAt(tokens: seq<string>, k: nat, p: string, w: string)
    requires AllTokens(tokens) && Lacks(p, ' ') && k + 1 < |tokens|
    requires forall j :: 0 <= j < |tokens| - 1 && j != k ==> !EndsWith(tokens[j], p)
    requires !StartsWith(Spaced(tokens[k + 1..]), w)
    ensures !Contains(Spaced(tokens), p + " " + w)
  {
    FindHead(tokens[0], Spaced(tokens[1..]), p, w);
    if k == 0 {
      NoPhrase(tokens[1..], p, w);
    } else {
      assert tokens[1..][k..] == tokens[k + 1..];
      PhraseNotAt(tokens[1..], k - 1, p, w);
    }
  }

  /** Two texts whose first tokens differ do not start alike. */
  lemma FirstTokenDecides(a: string, rest: string, b: string)
    requires Lacks(a, ' ') && Lacks(b, ' ')
    ensures StartsWith(a + " " + rest, b + " ") <==> a == b
  {
    var s, pat := a + " " + rest, b + " ";
    if StartsWith(s, pat) {
      IndexOfHead(a, ' ', rest);
      assert s == b + " " + s[|pat|..];
      IndexOfHead(b, ' ', s[|pat|..]);
      assert a == s[..|a|] == b;
    } else {
      assert s[..|a| + 1] == a + " ";
    }
  }

  /** The last byte of a printed line is the last byte of its last token. */
  lemma {:induction false} LastByte(tokens: seq<string>)
    requires tokens != [] && tokens[|tokens| - 1] != ""
    ensures Spaced(tokens) != ""
    ensures var last := tokens[|tokens| - 1]; Spaced(tokens)[|Spaced(tokens)| - 1] == last[|last| - 1]
  {
    if |tokens| > 1 {
      LastByte(tokens[1..]);
    }
  }

  lemma {:induction false} SpacedLacks(tokens: seq<string>, c: char)
    requires c != ' ' && forall k :: 0 <= k < |tokens| ==> Lacks(tokens[k], c)
    ensures Lacks(Spaced(tokens), c)
  {
    if |tokens| > 1 {
      SpacedLacks(tokens[1..], c);
    }
  }
}
