/**
 The end of `DiscoverSourceFiles` (src/runtime_analyzer.cpp): what was found, sorted and
 without duplicates. Holds for any total order of paths.
 */
module Discovery {

  ghost predicate TotalOrder<T(!new)>(before: (T, T) -> bool) {
    && (forall a, b :: !(before(a, b) && before(b, a)))
    && (forall a, b :: before(a, b) || before(b, a) || a == b)
    && (forall a, b, c :: before(a, b) && before(b, c) ==> before(a, c))
  }

  ghost predicate Ascending<T(!new)>(before: (T, T) -> bool, s: seq<T>) {
    forall i, j :: 0 <= i < j < |s| ==> before(s[i], s[j])
  }

  function Insert<T(==)>(before: (T, T) -> bool, s: seq<T>, x: T): seq<T> {
    if s == [] || before(x, s[0]) then [x] + s
    else if s[0] == x then s
    else [s[0]] + Insert(before, s[1..], x)
  }

  /** Sorted, equal neighbours erased. */
  function SortedUnique<T(==)>(before: (T, T) -> bool, found: seq<T>): seq<T> {
    if found == [] then [] else Insert(before, SortedUnique(before, found[1..]), found[0])
  }

  lemma {:induction false} InsertKeepsOrder<T(!new)>(before: (T, T) -> bool, s: seq<T>, x: T)
    requires TotalOrder(before) && Ascending(before, s)
    ensures Ascending(before, Insert(before, s, x))
    ensures forall y :: y in Insert(before, s, x) <==> y == x || y in s
  {
    if s != [] && !before(x, s[0]) && s[0] != x {
      InsertKeepsOrder(before, s[1..], x);
      var rest := Insert(before, s[1..], x);
      forall y | y in rest ensures before(s[0], y) {
        if y != x {
          assert y in s[1..];
        }
      }
      assert s == [s[0]] + s[1..];
    }
  }

  /** Strictly ascending, so without duplicates, and just what was found. */
  lemma {:induction false} SortedUniqueMeaning<T(!new)>(before: (T, T) -> bool, found: seq<T>)
    requires TotalOrder(before)
    ensures Ascending(before, SortedUnique(before, found))
    ensures forall y :: y in SortedUnique(before, found) <==> y in found
  {
    if found != [] {
      SortedUniqueMeaning(before, found[1..]);
      InsertKeepsOrder(before, SortedUnique(before, found[1..]), found[0]);
      assert found == [found[0]] + found[1..];
    }
  }

  /** An ascending sequence is determined by its elements. */
  lemma {:induction false} AscendingUnique<T(!new)>(before: (T, T) -> bool, a: seq<T>, b: seq<T>)
    requires TotalOrder(before) && Ascending(before, a) && Ascending(before, b)
    requires forall y :: y in a <==> y in b
    ensures a == b
  {
    assert b == [] || b[0] in b;
    if a != [] {
      assert a[0] in b;
      assert b[0] in a;
      assert a[0] == b[0];
      forall y ensures y in a[1..] <==> y in b[1..] {
        TailMembers(before, a, y);
        TailMembers(before, b, y);
      }
      AscendingUnique(before, a[1..], b[1..]);
    }
  }

  lemma TailMembers<T(!new)>(before: (T, T) -> bool, s: seq<T>, y: T)
    requires TotalOrder(before) && Ascending(before, s) && s != []
    ensures y in s[1..] <==> y in s && y != s[0]
  {
    assert s == [s[0]] + s[1..];
    if y in s[1..] {
      var i :| 0 <= i < |s[1..]| && s[1..][i] == y;
      assert before(s[0], s[i + 1]);
    }
  }

  /** Neither the order of the directories nor their overlaps change the sources of a batch. */
  lemma DiscoveryOrderIrrelevant<T(!new)>(before: (T, T) -> bool, a: seq<T>, b: seq<T>)
    requires TotalOrder(before)
    ensures SortedUnique(before, a) == SortedUnique(before, b) <==> forall y :: y in a <==> y in b
  {
    SortedUniqueMeaning(before, a);
    SortedUniqueMeaning(before, b);
    if SortedUnique(before, a) == SortedUnique(before, b) {
      forall y ensures y in a <==> y in b {
        assert y in SortedUnique(before, a) <==> y in SortedUnique(before, b);
      }
    }
    if forall y :: y in a <==> y in b {
      AscendingUnique(before, SortedUnique(before, a), SortedUnique(before, b));
    }
  }
}
