/**
 * Reading the report's command stream back: what each column shows, and for
 * every detail row the page it lands on and whether a grey band was drawn
 * behind it. The lemmas here state, in those terms, what `generar_pdf`
 * promises about its detail table (app.py:133-149).
 */
module Layout {
  import opened Records
  import opened Formatting
  import opened Pagination
  import opened Report

  /** The (cursor, text) pairs drawn in the column starting at `x`, in drawing order. */
  function Column(cmds: seq<Command>, x: int): seq<(int, string)>
  {
    if cmds == [] then []
    else (if cmds[0].Text? && cmds[0].x == x then [(cmds[0].y, cmds[0].text)] else []) + Column(cmds[1..], x)
  }

  lemma {:induction false} ColumnAppend(a: seq<Command>, b: seq<Command>, x: int)
    ensures Column(a + b, x) == Column(a, x) + Column(b, x)
  {
    if a == [] {
      assert a + b == b;
    } else {
      assert (a + b)[0] == a[0] && (a + b)[1..] == a[1..] + b;
      ColumnAppend(a[1..], b, x);
    }
  }

  /** What a reader keeps track of while going through the commands. */
  datatype ScanState = ScanState(banded: bool, page: nat)

  /** A detail row as read back: its page, its cursor and whether it sits on a band. */
  datatype DrawnRow = DrawnRow(page: nat, y: int, banded: bool)

  /** A band marks the next row; a page break moves to the next page; a row's
      description closes the row. */
  function Advance(c: Command, st: ScanState): ScanState
  {
    if c.Rect? then st.(banded := true)
    else if c.ShowPage? then st.(page := st.page + 1)
    else if c.Text? && c.x == DESCRIPTION_X then st.(banded := false)
    else st
  }

  function Emitted(c: Command, st: ScanState): seq<DrawnRow>
  {
    if c.Text? && c.x == DESCRIPTION_X then [DrawnRow(st.page, c.y, st.banded)] else []
  }

  /** The rows found in `cmds`, one per text in the description column. */
  function Scan(cmds: seq<Command>, st: ScanState): seq<DrawnRow>
  {
    if cmds == [] then [] else Emitted(cmds[0], st) + Scan(cmds[1..], Advance(cmds[0], st))
  }

  function ScanEnd(cmds: seq<Command>, st: ScanState): ScanState
  {
    if cmds == [] then st else ScanEnd(cmds[1..], Advance(cmds[0], st))
  }

  lemma {:induction false} ScanAppend(a: seq<Command>, b: seq<Command>, st: ScanState)
    ensures Scan(a + b, st) == Scan(a, st) + Scan(b, ScanEnd(a, st))
    ensures ScanEnd(a + b, st) == ScanEnd(b, ScanEnd(a, st))
  {
    if a == [] {
      assert a + b == b;
    } else {
      assert (a + b)[0] == a[0] && (a + b)[1..] == a[1..] + b;
      ScanAppend(a[1..], b, Advance(a[0], st));
    }
  }

  lemma ScanOne(c: Command, st: ScanState)
    ensures Scan([c], st) == Emitted(c, st) && ScanEnd([c], st) == Advance(c, st)
  {
    assert [c][1..] == [];
  }

  lemma ColumnOne(c: Command, x: int)
    ensures Column([c], x) == if c.Text? && c.x == x then [(c.y, c.text)] else []
  {
    assert [c][1..] == [];
  }

  /** A row's five texts, whatever they say: each column gets exactly one. */
  lemma ColumnOfTexts(y: int, s1: string, s2: string, s3: string, s4: string, s5: string, x: int)
    requires x in COLUMNS
    ensures Column([Text(DATE_X, y, s1), Text(DOCUMENT_X, y, s2), Text(DESCRIPTION_X, y, s3),
                    Text(AMOUNT_X, y, s4), Text(USER_X, y, s5)], x)
      == [(y, if x == DATE_X then s1 else if x == DOCUMENT_X then s2
              else if x == DESCRIPTION_X then s3 else if x == AMOUNT_X then s4 else s5)]
  {
    var t1, t2, t3, t4, t5 := Text(DATE_X, y, s1), Text(DOCUMENT_X, y, s2), Text(DESCRIPTION_X, y, s3),
                              Text(AMOUNT_X, y, s4), Text(USER_X, y, s5);
    ColumnCons(t5, [], x);
    ColumnCons(t4, [t5], x);
    ColumnCons(t3, [t4, t5], x);
    ColumnCons(t2, [t3, t4, t5], x);
    ColumnCons(t1, [t2, t3, t4, t5], x);
  }

  lemma ColumnCons(c: Command, rest: seq<Command>, x: int)
    ensures Column([c] + rest, x) == (if c.Text? && c.x == x then [(c.y, c.text)] else []) + Column(rest, x)
  {
    assert ([c] + rest)[0] == c && ([c] + rest)[1..] == rest;
  }

  lemma ScanCons(c: Command, rest: seq<Command>, st: ScanState)
    ensures Scan([c] + rest, st) == Emitted(c, st) + Scan(rest, Advance(c, st))
    ensures ScanEnd([c] + rest, st) == ScanEnd(rest, Advance(c, st))
  {
    assert ([c] + rest)[0] == c && ([c] + rest)[1..] == rest;
  }

  /** Only the description text closes a row; the other texts leave the reader as it was. */
  lemma ScanOfTexts(y: int, s1: string, s2: string, s3: string, s4: string, s5: string, st: ScanState)
    ensures Scan([Text(DATE_X, y, s1), Text(DOCUMENT_X, y, s2), Text(DESCRIPTION_X, y, s3),
                  Text(AMOUNT_X, y, s4), Text(USER_X, y, s5)], st) == [DrawnRow(st.page, y, st.banded)]
    ensures ScanEnd([Text(DATE_X, y, s1), Text(DOCUMENT_X, y, s2), Text(DESCRIPTION_X, y, s3),
                     Text(AMOUNT_X, y, s4), Text(USER_X, y, s5)], st) == st.(banded := false)
  {
    var t1, t2, t3, t4, t5 := Text(DATE_X, y, s1), Text(DOCUMENT_X, y, s2), Text(DESCRIPTION_X, y, s3),
                              Text(AMOUNT_X, y, s4), Text(USER_X, y, s5);
    var closed := st.(banded := false);
    ScanCons(t5, [], closed);
    ScanCons(t4, [t5], closed);
    ScanCons(t3, [t4, t5], st);
    ScanCons(t2, [t3, t4, t5], st);
    ScanCons(t1, [t2, t3, t4, t5], st);
  }

  lemma ColumnOfOpening(r: Row, y: int, x: int)
    ensures Column(Opening(r, y), x) == []
  {
    ColumnAppend([SetFont(REGULAR, 9)], Band(r, y), x);
    ColumnOne(SetFont(REGULAR, 9), x);
    if Highlighted(r) {
      var g, rect, k := FillColor(Grey), Rect(BAND_X, y - BAND_DROP, BAND_WIDTH, BAND_HEIGHT), FillColor(Black);
      ColumnCons(k, [], x);
      ColumnCons(rect, [k], x);
      ColumnCons(g, [rect, k], x);
    }
  }

  lemma ScanOfOpening(r: Row, y: int, page: nat)
    ensures Scan(Opening(r, y), ScanState(false, page)) == []
    ensures ScanEnd(Opening(r, y), ScanState(false, page)) == ScanState(Highlighted(r), page)
  {
    var st := ScanState(false, page);
    ScanAppend([SetFont(REGULAR, 9)], Band(r, y), st);
    ScanOne(SetFont(REGULAR, 9), st);
    if Highlighted(r) {
      var g, rect, k := FillColor(Grey), Rect(BAND_X, y - BAND_DROP, BAND_WIDTH, BAND_HEIGHT), FillColor(Black);
      var banded := st.(banded := true);
      ScanCons(k, [], banded);
      ScanCons(rect, [k], st);
      ScanCons(g, [rect, k], st);
    }
  }

  lemma ColumnOfRow(r: Row, y: int, x: int)
    requires x in COLUMNS
    ensures Column(RowCommands(r, y), x) == [(y, Cell(r, x))]
    ensures Column(BreakCommands(y), x) == []
  {
    ColumnAppend(Opening(r, y), Texts(r, y), x);
    TextsInColumns(r, y);
    ColumnOfOpening(r, y, x);
    ColumnOfTexts(y, Cell(r, DATE_X), Cell(r, DOCUMENT_X), Cell(r, DESCRIPTION_X),
                  Cell(r, AMOUNT_X), Cell(r, USER_X), x);
    if BreaksAfter(y) {
      ColumnOne(ShowPage, x);
    }
  }

  lemma ScanOfRow(r: Row, y: int, page: nat)
    ensures Scan(RowCommands(r, y), ScanState(false, page)) == [DrawnRow(page, y, Highlighted(r))]
    ensures ScanEnd(RowCommands(r, y), ScanState(false, page)) == ScanState(false, page)
  {
    var st := ScanState(false, page);
    ScanAppend(Opening(r, y), Texts(r, y), st);
    TextsInColumns(r, y);
    ScanOfOpening(r, y, page);
    ScanOfTexts(y, Cell(r, DATE_X), Cell(r, DOCUMENT_X), Cell(r, DESCRIPTION_X),
                Cell(r, AMOUNT_X), Cell(r, USER_X), ScanState(Highlighted(r), page));
  }

  lemma ScanOfBreak(y: int, page: nat)
    ensures Scan(BreakCommands(y), ScanState(false, page)) == []
    ensures ScanEnd(BreakCommands(y), ScanState(false, page))
      == ScanState(false, page + if BreaksAfter(y) then 1 else 0)
  {
    if BreaksAfter(y) {
      ScanOne(ShowPage, ScanState(false, page));
    }
  }

  /** The first `n` entries of column `x`: one per row, at that row's cursor. */
  predicate ColumnReadsBack(rows: seq<Row>, n: nat, x: int, found: seq<(int, string)>)
    requires n <= |rows|
  {
    |found| == n && forall i :: 0 <= i < n ==> found[i] == (Cursor(i), Cell(rows[i], x))
  }

  lemma ColumnStep(rows: seq<Row>, n: nat, x: int, prefix: seq<(int, string)>, whole: seq<(int, string)>)
    requires 0 < n <= |rows| && ColumnReadsBack(rows, n - 1, x, prefix)
    requires whole == prefix + [(Cursor(n - 1), Cell(rows[n - 1], x))]
    ensures ColumnReadsBack(rows, n, x, whole)
  {
    assert |whole| == n;
    forall i | 0 <= i < n ensures whole[i] == (Cursor(i), Cell(rows[i], x)) {
      if i < n - 1 {
        assert whole[i] == prefix[i];
      } else {
        assert whole[i] == (Cursor(n - 1), Cell(rows[n - 1], x));
      }
    }
  }

  /** A row followed by its page break, read back in column `x` after a prefix. */
  lemma ColumnThree(d: seq<Command>, row: seq<Command>, brk: seq<Command>, x: int, found: (int, string))
    requires Column(row, x) == [found] && Column(brk, x) == []
    ensures Column(d + row + brk, x) == Column(d, x) + [found]
  {
    ColumnAppend(d + row, brk, x);
    ColumnAppend(d, row, x);
  }

  /** Column `x` of the detail table holds one entry per input row, in input order,
      each drawn at that row's cursor. */
  lemma {:induction false} ColumnOfDetail(rows: seq<Row>, n: nat, x: int)
    requires n <= |rows| && x in COLUMNS
    ensures ColumnReadsBack(rows, n, x, Column(Detail(rows, n), x))
  {
    if n > 0 {
      ColumnOfDetail(rows, n - 1, x);
      ColumnDetailStep(rows, n, x);
    }
  }

  /** Column `x` of row `n - 1` of the detail table, given the rows before it. */
  lemma ColumnDetailStep(rows: seq<Row>, n: nat, x: int)
    requires 0 < n <= |rows| && x in COLUMNS
    requires ColumnReadsBack(rows, n - 1, x, Column(Detail(rows, n - 1), x))
    ensures ColumnReadsBack(rows, n, x, Column(Detail(rows, n), x))
  {
    var d, y := Detail(rows, n - 1), Cursor(n - 1);
    var row, brk := RowCommands(rows[n - 1], y), BreakCommands(y);
    ColumnOfRow(rows[n - 1], y, x);
    ColumnThree(d, row, brk, x, (y, Cell(rows[n - 1], x)));
    assert Detail(rows, n) == d + row + brk;
    ColumnStep(rows, n, x, Column(d, x), Column(Detail(rows, n), x));
  }

  /** The rows read back from the first `n` detail rows, as the loop's pagination places them. */
  predicate ReadsBack(rows: seq<Row>, n: nat, found: seq<DrawnRow>)
    requires n <= |rows|
  {
    |found| == n && forall i :: 0 <= i < n ==> found[i] == DrawnRow(BreaksBefore(i), Cursor(i), Highlighted(rows[i]))
  }

  lemma RowsStep(rows: seq<Row>, n: nat, prefix: seq<DrawnRow>, whole: seq<DrawnRow>)
    requires 0 < n <= |rows| && ReadsBack(rows, n - 1, prefix)
    requires whole == prefix + [DrawnRow(BreaksBefore(n - 1), Cursor(n - 1), Highlighted(rows[n - 1]))]
    ensures ReadsBack(rows, n, whole)
  {
    assert |whole| == n;
    forall i | 0 <= i < n
      ensures whole[i] == DrawnRow(BreaksBefore(i), Cursor(i), Highlighted(rows[i]))
    {
      if i < n - 1 {
        assert whole[i] == prefix[i];
      } else {
        assert whole[i] == DrawnRow(BreaksBefore(n - 1), Cursor(n - 1), Highlighted(rows[n - 1]));
      }
    }
  }

  /** A row followed by its page break, read back after a prefix. */
  lemma ScanThree(d: seq<Command>, row: seq<Command>, brk: seq<Command>,
                  st: ScanState, mid: ScanState, last: ScanState, found: DrawnRow)
    requires ScanEnd(d, st) == mid
    requires Scan(row, mid) == [found] && ScanEnd(row, mid) == mid
    requires Scan(brk, mid) == [] && ScanEnd(brk, mid) == last
    ensures Scan(d + row + brk, st) == Scan(d, st) + [found]
    ensures ScanEnd(d + row + brk, st) == last
  {
    ScanAppend(d + row, brk, st);
    ScanAppend(d, row, st);
  }

  /** One more row read back after the first `n - 1`, whatever commands drew it. */
  lemma ScanThreeRows(rows: seq<Row>, n: nat, d: seq<Command>, row: seq<Command>, brk: seq<Command>,
                      mid: ScanState, last: ScanState)
    requires 0 < n <= |rows|
    requires ReadsBack(rows, n - 1, Scan(d, ScanState(false, 0))) && ScanEnd(d, ScanState(false, 0)) == mid
    requires Scan(row, mid) == [DrawnRow(BreaksBefore(n - 1), Cursor(n - 1), Highlighted(rows[n - 1]))]
    requires ScanEnd(row, mid) == mid && Scan(brk, mid) == [] && ScanEnd(brk, mid) == last
    ensures ReadsBack(rows, n, Scan(d + row + brk, ScanState(false, 0)))
    ensures ScanEnd(d + row + brk, ScanState(false, 0)) == last
  {
    var st := ScanState(false, 0);
    ScanThree(d, row, brk, st, mid, last, DrawnRow(BreaksBefore(n - 1), Cursor(n - 1), Highlighted(rows[n - 1])));
    RowsStep(rows, n, Scan(d, st), Scan(d + row + brk, st));
  }

  /** Reading back row `n - 1` of the detail table, given the rows before it. */
  lemma ScanDetailStep(rows: seq<Row>, n: nat)
    requires 0 < n <= |rows|
    requires ReadsBack(rows, n - 1, Scan(Detail(rows, n - 1), ScanState(false, 0)))
    requires ScanEnd(Detail(rows, n - 1), ScanState(false, 0)) == ScanState(false, BreaksBefore(n - 1))
    ensures ReadsBack(rows, n, Scan(Detail(rows, n), ScanState(false, 0)))
    ensures ScanEnd(Detail(rows, n), ScanState(false, 0)) == ScanState(false, BreaksBefore(n))
  {
    var d, y := Detail(rows, n - 1), Cursor(n - 1);
    var row, brk := RowCommands(rows[n - 1], y), BreakCommands(y);
    var mid := ScanState(false, BreaksBefore(n - 1));
    ScanOfRow(rows[n - 1], y, BreaksBefore(n - 1));
    ScanOfBreak(y, BreaksBefore(n - 1));
    var last := ScanState(false, BreaksBefore(n - 1) + if BreaksAfter(y) then 1 else 0);
    ScanThreeRows(rows, n, d, row, brk, mid, last);
    assert Detail(rows, n) == d + row + brk;
  }

  /** Reading the detail table back finds one row per input row, in input order,
      each on its page and at its cursor, banded exactly when it is a web-design sale. */
  lemma {:induction false} ScanOfDetail(rows: seq<Row>, n: nat)
    requires n <= |rows|
    ensures ReadsBack(rows, n, Scan(Detail(rows, n), ScanState(false, 0)))
    ensures ScanEnd(Detail(rows, n), ScanState(false, 0)) == ScanState(false, BreaksBefore(n))
  {
    if n > 0 {
      ScanOfDetail(rows, n - 1);
      ScanDetailStep(rows, n);
    }
  }

  /** Every input row appears once in the detail table, in input order, within the
      page margins, showing its shortened description and its formatted gross amount. */
  lemma DetailShowsEveryRow(rows: seq<Row>)
    ensures |Column(Detail(rows, |rows|), DESCRIPTION_X)| == |rows|
    ensures |Column(Detail(rows, |rows|), AMOUNT_X)| == |rows|
    ensures forall i :: 0 <= i < |rows| ==>
      var shown := Column(Detail(rows, |rows|), DESCRIPTION_X)[i].1;
      |shown| == (if |rows[i].sale.description| < 35 then |rows[i].sale.description| else 35)
      && shown == rows[i].sale.description[..|shown|]
    ensures forall i :: 0 <= i < |rows| ==>
      Column(Detail(rows, |rows|), AMOUNT_X)[i].1 == Currency(rows[i].gross)
    ensures forall i :: 0 <= i < |rows| ==>
      var y := Column(Detail(rows, |rows|), DESCRIPTION_X)[i].0;
      INCH <= y <= PAGE_TOP && y == Column(Detail(rows, |rows|), AMOUNT_X)[i].0
  {
    ColumnOfDetail(rows, |rows|, DESCRIPTION_X);
    ColumnOfDetail(rows, |rows|, AMOUNT_X);
  }

  /** A detail row is drawn on a grey band if and only if its business code is "web". */
  lemma DetailHighlightsWebRows(rows: seq<Row>)
    ensures |Scan(Detail(rows, |rows|), ScanState(false, 0))| == |rows|
    ensures forall i :: 0 <= i < |rows| ==>
      (Scan(Detail(rows, |rows|), ScanState(false, 0))[i].banded <==> rows[i].sale.businessCode == "web")
  {
    ScanOfDetail(rows, |rows|);
  }

  /** The first 30 rows land on the first page and each later page holds 44; the
      table issues one page break per filled page, after that page's last row. */
  lemma DetailPages(rows: seq<Row>)
    ensures |Scan(Detail(rows, |rows|), ScanState(false, 0))| == |rows|
    ensures forall i :: 0 <= i < |rows| ==>
      Scan(Detail(rows, |rows|), ScanState(false, 0))[i].page
        == (if i < 30 then 0 else 1 + (i - 30) / 44)
    ensures ScanEnd(Detail(rows, |rows|), ScanState(false, 0)).page == PageOf(|rows|)
  {
    ScanOfDetail(rows, |rows|);
    forall i | 0 <= i <= |rows| ensures BreaksBefore(i) == PageOf(i) {
      CursorClosedForm(i);
    }
  }

  /** Only detail-row drawing: no title, no rule, no save, and texts only in the five columns. */
  predicate DetailOnly(cmds: seq<Command>)
  {
    forall c :: c in cmds ==> !c.Title? && !c.Line? && !c.Save? && (c.Text? ==> c.x in COLUMNS)
  }

  lemma DetailOnlyAppend(a: seq<Command>, b: seq<Command>)
    requires DetailOnly(a) && DetailOnly(b)
    ensures DetailOnly(a + b)
  {
    forall c | c in a + b ensures c in a || c in b {
    }
  }

  /** What one pass of the loop draws is a detail row and nothing else. */
  lemma RowHasNoHeader(r: Row, y: int)
    ensures DetailOnly(RowCommands(r, y)) && DetailOnly(BreakCommands(y))
  {
    assert DetailOnly(Opening(r, y));
    assert DetailOnly(Texts(r, y)) by {
      TextsInColumns(r, y);
    }
    DetailOnlyAppend(Opening(r, y), Texts(r, y));
  }

  /** The detail loop draws only detail rows: no title, no summary line and no rule,
      so header and summary appear once, before the first page break. */
  lemma {:induction false} DetailHasNoHeader(rows: seq<Row>, n: nat)
    requires n <= |rows|
    ensures DetailOnly(Detail(rows, n))
  {
    if n > 0 {
      DetailHasNoHeader(rows, n - 1);
      DetailOnlyStep(rows, n);
    }
  }

  /** Row `n - 1` of the detail table adds only detail-row drawing. */
  lemma DetailOnlyStep(rows: seq<Row>, n: nat)
    requires 0 < n <= |rows| && DetailOnly(Detail(rows, n - 1))
    ensures DetailOnly(Detail(rows, n))
  {
    var r, y := rows[n - 1], Cursor(n - 1);
    RowHasNoHeader(r, y);
    DetailOnlyAppend(Detail(rows, n - 1), RowCommands(r, y));
    DetailOnlyAppend(Detail(rows, n - 1) + RowCommands(r, y), BreakCommands(y));
  }
}
