/**
 Printing a box's rows, wrapped over several lines, and reading them back.
 The layout is the one of unittests/findings_test.cpp:167-176 and 211-219.
 */
module BoxWrapping {
  import opened Text
  import opened DiagnosticBoxes

  /** One printed line of a row: spaces before the colon, and around the text. */
  datatype Cell = Cell(margin: string, before: string, text: string, after: string)

  /** A labelled value cut into pieces: the first under its label, the others under blank ones. */
  datatype Entry = Entry(key: string, first: Cell, wrapped: seq<Cell>)

  predicate GoodCell(cell: Cell) {
    && AllSpaces(cell.margin) && AllSpaces(cell.before) && AllSpaces(cell.after)
    && Trimmed(cell.text)
  }

  predicate GoodEntry(entry: Entry) {
    && entry.key != "" && Trimmed(entry.key) && Lacks(entry.key, ':')
    && GoodCell(entry.first) && forall k :: 0 <= k < |entry.wrapped| ==> GoodCell(entry.wrapped[k])
  }

  function RowLine(prefix: string, key: string, cell: Cell): string {
    prefix + ['\U{E2}', '\U{94}', '\U{82}', ' '] + (key + cell.margin + ":" + (cell.before + cell.text + cell.after))
      + [' ', '\U{E2}', '\U{94}', '\U{82}']
  }

  function WrappedLines(prefix: string, cells: seq<Cell>): seq<string> {
    if cells == [] then [] else [RowLine(prefix, "", cells[0])] + WrappedLines(prefix, cells[1..])
  }

  function EntryLines(prefix: string, entry: Entry): seq<string> {
    [RowLine(prefix, entry.key, entry.first)] + WrappedLines(prefix, entry.wrapped)
  }

  function BoxLines(prefix: string, entries: seq<Entry>): seq<string> {
    if entries == [] then [] else EntryLines(prefix, entries[0]) + BoxLines(prefix, entries[1..])
  }

  function Texts(cells: seq<Cell>): string {
    if cells == [] then "" else cells[0].text + Texts(cells[1..])
  }

  /** What the entries say, whatever the wrapping and padding. */
  function RowsOf(entries: seq<Entry>): seq<Row> {
    if entries == [] then []
    else [Row(entries[0].key, entries[0].first.text + Texts(entries[0].wrapped))] + RowsOf(entries[1..])
  }

  /** Reading lines as rows, one after the other. */
  function ReadRows(rows: seq<Row>, lines: seq<string>): seq<Row>
    decreases |lines|
  {
    if lines == [] then rows else ReadRows(RowsAfter(rows, lines[0]), lines[1..])
  }

  lemma {:induction false} ReadRowsConcat(rows: seq<Row>, a: seq<string>, b: seq<string>)
    ensures ReadRows(rows, a + b) == ReadRows(ReadRows(rows, a), b)
    decreases |a|
  {
    if a == [] {
      assert a + b == b;
    } else {
      assert (a + b)[1..] == a[1..] + b;
      ReadRowsConcat(RowsAfter(rows, a[0]), a[1..], b);
    }
  }

  /** The bars of a printed line delimit exactly what was printed, even if it holds bars too. */
  lemma InnerOfPrinted(prefix: string, inner: string)
    requires Lacks(prefix, BAR[0])
    ensures Inner(prefix + OPEN + inner + CLOSE) == Some(inner)
  {
    var line := prefix + OPEN + inner + CLOSE;
    FindAfter(prefix, OPEN, inner + CLOSE);
    assert line == prefix + OPEN + (inner + CLOSE);
    RFindEnd(prefix + OPEN + inner, CLOSE);
    assert line[|prefix| + |OPEN|..|prefix| + |OPEN| + |inner|] == inner;
  }

  /** The first occurrence of `pat` after bytes its first byte is not among. */
  lemma FindAfter(prefix: string, pat: string, rest: string)
    requires pat != "" && Lacks(prefix, pat[0])
    ensures Find(prefix + pat + rest, pat, 0) == Some(|prefix|)
  {
    var s := prefix + pat + rest;
    assert MatchAt(s, pat, |prefix|);
    forall j: nat | j < |prefix| ensures !MatchAt(s, pat, j) {
      Mismatch(s, pat, j, 0);
    }
    FindFirst(s, pat, 0, |prefix|);
  }

  /** A text that ends in `pat` has its last occurrence there. */
  lemma RFindEnd(s: string, pat: string)
    requires pat != ""
    ensures RFind(s + pat, pat) == Some(|s|)
  {
    var t := s + pat;
    RFindMeaning(t, pat, |t| + 1);
    assert MatchAt(t, pat, |s|);
  }

  /** A printed row by its bars. */
  lemma RowLineBars(prefix: string, key: string, cell: Cell)
    ensures RowLine(prefix, key, cell)
      == prefix + OPEN + (key + cell.margin + ":" + (cell.before + cell.text + cell.after)) + CLOSE
  {
    assert OPEN == ['\U{E2}', '\U{94}', '\U{82}', ' '];
    assert CLOSE == [' ', '\U{E2}', '\U{94}', '\U{82}'];
  }

  lemma RowOfPrinted(prefix: string, key: string, cell: Cell)
    requires Lacks(prefix, BAR[0])
    requires Trimmed(key) && Lacks(key, ':') && GoodCell(cell)
    ensures RowOf(RowLine(prefix, key, cell)) == Some(Row(key, cell.text))
  {
    var head, tail := key + cell.margin, cell.before + cell.text + cell.after;
    var inner := head + ":" + tail;
    RowLineBars(prefix, key, cell);
    InnerOfPrinted(prefix, inner);
    IndexOfHead(head, ':', tail);
    assert inner[..|head|] == head && inner[|head| + 1..] == tail;
    TrimPadded("", key, cell.margin);
    assert "" + key + cell.margin == head;
    TrimPadded(cell.before, cell.text, cell.after);
  }

  /** Lines under blank labels extend the value of the row before them. */
  lemma {:induction false} ReadWrapped(prefix: string, rows: seq<Row>, last: Row, cells: seq<Cell>)
    requires Lacks(prefix, BAR[0])
    requires forall k :: 0 <= k < |cells| ==> GoodCell(cells[k])
    ensures ReadRows(rows + [last], WrappedLines(prefix, cells)) == rows + [Row(last.key, last.value + Texts(cells))]
    decreases |cells|
  {
    if cells == [] {
      assert last.value + "" == last.value;
    } else {
      RowOfPrinted(prefix, "", cells[0]);
      var next := Row(last.key, last.value + cells[0].text);
      assert RowsAfter(rows + [last], RowLine(prefix, "", cells[0])) == rows + [next];
      ReadWrapped(prefix, rows, next, cells[1..]);
      Assoc(last.value, cells[0].text, Texts(cells[1..]));
    }
  }

  lemma ReadEntry(prefix: string, rows: seq<Row>, entry: Entry)
    requires Lacks(prefix, BAR[0]) && GoodEntry(entry)
    ensures ReadRows(rows, EntryLines(prefix, entry))
      == rows + [Row(entry.key, entry.first.text + Texts(entry.wrapped))]
  {
    RowOfPrinted(prefix, entry.key, entry.first);
    var lines := EntryLines(prefix, entry);
    assert lines[1..] == WrappedLines(prefix, entry.wrapped);
    ReadWrapped(prefix, rows, Row(entry.key, entry.first.text), entry.wrapped);
  }

  /** Reading printed rows recovers the labels and values, wherever the values were cut. */
  lemma {:induction false} BoxRoundTrip(prefix: string, rows: seq<Row>, entries: seq<Entry>)
    requires Lacks(prefix, BAR[0])
    requires forall k :: 0 <= k < |entries| ==> GoodEntry(entries[k])
    ensures ReadRows(rows, BoxLines(prefix, entries)) == rows + RowsOf(entries)
    decreases |entries|
  {
    if entries == [] {
      assert rows + [] == rows;
    } else {
      var row := Row(entries[0].key, entries[0].first.text + Texts(entries[0].wrapped));
      ReadRowsConcat(rows, EntryLines(prefix, entries[0]), BoxLines(prefix, entries[1..]));
      ReadEntry(prefix, rows, entries[0]);
      BoxRoundTrip(prefix, rows + [row], entries[1..]);
      Assoc(rows, [row], RowsOf(entries[1..]));
    }
  }

  // ---- Printed rows stay inside their box ----

  /** Spaces around a text add no occurrence of a pattern without spaces. */
  lemma SpacesAround(left: string, s: string, right: string, pat: string)
    requires AllSpaces(left) && AllSpaces(right)
    requires pat != "" && Lacks(pat, ' ') && !Contains(s, pat)
    ensures !Contains(left + s + right, pat)
  {
    var t := left + s + right;
    ContainsMeaning(t, pat);
    ContainsMeaning(s, pat);
    forall i: nat ensures !MatchAt(t, pat, i) {
      if MatchAt(t, pat, i) {
        MatchAtIndex(t, pat, i, 0);
        MatchAtIndex(t, pat, i, |pat| - 1);
        OccurrenceWithin(left, s, right, pat, i);
        assert false;
      }
    }
  }

  lemma OccurrenceWithin(left: string, s: string, right: string, pat: string, i: nat)
    requires MatchAt(left + s + right, pat, i) && |left| <= i && i + |pat| <= |left| + |s|
    ensures MatchAt(s, pat, i - |left|)
  {
    var t := left + s + right;
    forall k | 0 <= k < |pat| ensures s[i - |left| + k] == pat[k] {
      MatchAtIndex(t, pat, i, k);
    }
  }

  /** A printed row closes the box only if its label or its text does. */
  lemma RowLineStaysOpen(prefix: string, key: string, cell: Cell)
    requires Lacks(prefix, BAR[0]) && GoodCell(cell)
    requires !Closes(key) && !Closes(cell.text)
    ensures !Closes(RowLine(prefix, key, cell))
  {
    var left, right := key + cell.margin, cell.before + cell.text + cell.after;
    var inner := left + ":" + right;
    RowLineBars(prefix, key, cell);
    assert "" + key + cell.margin == left;
    SpacesAround("", key, cell.margin, CORNER);
    SpacesAround(cell.before, cell.text, cell.after, CORNER);
    ContainsSplit(left, ':', right, CORNER);
    BarIsNoCorner("");
    assert "" + BAR == BAR;
    ContainsSplit(inner, ' ', BAR, CORNER);
    BarIsNoCorner(prefix);
    ContainsSplit(prefix + BAR, ' ', inner + " " + BAR, CORNER);
    assert RowLine(prefix, key, cell) == prefix + BAR + [' '] + (inner + " " + BAR);
  }

  lemma BarIsNoCorner(prefix: string)
    requires Lacks(prefix, BAR[0])
    ensures !Contains(prefix + BAR, CORNER)
  {
    var s := prefix + BAR;
    ContainsMeaning(s, CORNER);
    forall i: nat ensures !MatchAt(s, CORNER, i) {
      if MatchAt(s, CORNER, i) {
        MatchAtIndex(s, CORNER, i, 0);
        MatchAtIndex(s, CORNER, i, 2);
        assert false;
      }
    }
  }
}
