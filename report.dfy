/**
 * `generar_pdf` (app.py:91-153): the monthly report as the sequence of drawing
 * commands it issues on a letter-size canvas. Coordinates are integer tenths
 * of a point, measured from the bottom-left corner as the canvas does.
 */
module Report {
  import opened Tax
  import opened Records
  import opened Formatting
  import opened Pagination

  datatype Color = Grey | Black

  datatype Command =
    | SetFont(name: string, size: nat)
      /** "Reporte de Ventas - <month name> <year>"; the month name comes from the locale. */
    | Title(x: int, y: int, year: nat, month: nat)
    | Text(x: int, y: int, text: string)
    | Line(x1: int, y1: int, x2: int, y2: int)
    | FillColor(color: Color)
      /** A filled rectangle without outline, the canvas's `rect(..., stroke=0, fill=1)`. */
    | Rect(x: int, y: int, width: int, height: int)
    | ShowPage
    | Save

  const BOLD: string := "Helvetica-Bold"
  const REGULAR: string := "Helvetica"

  /** Left edges of the five detail columns: 0.8, 1.8, 2.8, 5.5 and 6.5 inches. */
  const DATE_X: int := 576
  const DOCUMENT_X: int := 1296
  const DESCRIPTION_X: int := 2016
  const AMOUNT_X: int := 3960
  const USER_X: int := 4680
  const COLUMNS: seq<int> := [DATE_X, DOCUMENT_X, DESCRIPTION_X, AMOUNT_X, USER_X]
  /** Left edge of the summary lines: 1.2 inches. */
  const SUMMARY_X: int := 864
  /** The grey band: from 0.7 inch, as wide as the page less 1.4 inches, 14 pt high,
      starting 3 pt below the row's baseline. */
  const BAND_X: int := 504
  const BAND_WIDTH: int := PAGE_WIDTH - 1008
  const BAND_DROP: int := 30
  const BAND_HEIGHT: int := 140

  /** Sum of the `monto_neto` column (app.py:104). */
  function TotalNet(rows: seq<Row>): (total: real)
    ensures (forall i :: 0 <= i < |rows| ==> rows[i].sale.net >= 0.0) ==> total >= 0.0
  {
    if rows == [] then 0.0
    else
      assert forall i :: 1 <= i < |rows| ==> rows[1..][i - 1] == rows[i];
      rows[0].sale.net + TotalNet(rows[1..])
  }

  /** Sum of the `iva` column (app.py:105). */
  function TotalVat(rows: seq<Row>): (total: real)
    ensures (forall i :: 0 <= i < |rows| ==> rows[i].vat >= 0.0) ==> total >= 0.0
  {
    if rows == [] then 0.0
    else
      assert forall i :: 1 <= i < |rows| ==> rows[1..][i - 1] == rows[i];
      rows[0].vat + TotalVat(rows[1..])
  }

  /** Sum of the `monto_bruto` column (app.py:106). */
  function TotalGross(rows: seq<Row>): (total: real)
    ensures (forall i :: 0 <= i < |rows| ==> rows[i].gross >= 0.0) ==> total >= 0.0
  {
    if rows == [] then 0.0
    else
      assert forall i :: 1 <= i < |rows| ==> rows[1..][i - 1] == rows[i];
      rows[0].gross + TotalGross(rows[1..])
  }

  /** Each total over two batches of rows is the sum of the two batch totals. */
  lemma {:induction false} TotalsAppend(a: seq<Row>, b: seq<Row>)
    ensures TotalNet(a + b) == TotalNet(a) + TotalNet(b)
    ensures TotalVat(a + b) == TotalVat(a) + TotalVat(b)
    ensures TotalGross(a + b) == TotalGross(a) + TotalGross(b)
  {
    if a == [] {
      assert a + b == b;
    } else {
      assert (a + b)[0] == a[0] && (a + b)[1..] == a[1..] + b;
      TotalsAppend(a[1..], b);
    }
  }

  /** For rows whose VAT and gross were derived from their net amount, the totals
      keep the same relations as each row: gross = net + VAT and VAT = 19% of net. */
  lemma {:induction false} TotalsConsistent(rows: seq<Row>)
    requires forall i :: 0 <= i < |rows| ==> Derived(rows[i])
    ensures TotalGross(rows) == TotalNet(rows) + TotalVat(rows)
    ensures TotalVat(rows) == VAT_RATE * TotalNet(rows)
  {
    if rows != [] {
      TotalsConsistent(rows[1..]);
    }
  }

  /** Non-negative net amounts give non-negative totals. */
  lemma {:induction false} TotalsNonNegative(rows: seq<Row>)
    requires forall i :: 0 <= i < |rows| ==> Derived(rows[i]) && rows[i].sale.net >= 0.0
    ensures TotalNet(rows) >= 0.0 && TotalVat(rows) >= 0.0 && TotalGross(rows) >= 0.0
  {
    if rows != [] {
      TotalsNonNegative(rows[1..]);
    }
  }

  /** The text a detail row shows in the column starting at `x` (app.py:141-145). */
  function Cell(r: Row, x: int): string
  {
    if x == DATE_X then IsoDate(r.sale.date)
    else if x == DOCUMENT_X then r.sale.documentType
    else if x == DESCRIPTION_X then Shorten(r.sale.description)
    else if x == AMOUNT_X then Currency(r.gross)
    else if x == USER_X then r.sale.user
    else ""
  }

  /** The web-design rows are the ones drawn on a grey band (app.py:136). */
  predicate Highlighted(r: Row)
  {
    r.sale.businessCode == "web"
  }

  /** The grey band behind a web-design row (app.py:137-139). */
  function Band(r: Row, y: int): seq<Command>
  {
    if Highlighted(r) then [FillColor(Grey), Rect(BAND_X, y - BAND_DROP, BAND_WIDTH, BAND_HEIGHT), FillColor(Black)]
    else []
  }

  /** The commands that open a row: the font, then the band if there is one (app.py:134-139). */
  function Opening(r: Row, y: int): seq<Command>
  {
    [SetFont(REGULAR, 9)] + Band(r, y)
  }

  /** The row's five texts at cursor `y`, one per column, left to right (app.py:141-145). */
  function Texts(r: Row, y: int): seq<Command>
  {
    seq(|COLUMNS|, i requires 0 <= i < |COLUMNS| => Text(COLUMNS[i], y, Cell(r, COLUMNS[i])))
  }

  /** The row's texts written out column by column. */
  lemma TextsInColumns(r: Row, y: int)
    ensures Texts(r, y) == [Text(DATE_X, y, Cell(r, DATE_X)), Text(DOCUMENT_X, y, Cell(r, DOCUMENT_X)),
                            Text(DESCRIPTION_X, y, Cell(r, DESCRIPTION_X)), Text(AMOUNT_X, y, Cell(r, AMOUNT_X)),
                            Text(USER_X, y, Cell(r, USER_X))]
  {
  }

  /** What one pass of the detail loop draws for a row at cursor `y` (app.py:134-145):
      six commands, or nine with a band, whose third is a band exactly for a web sale. */
  function RowCommands(r: Row, y: int): (cmds: seq<Command>)
    ensures |cmds| == if Highlighted(r) then 9 else 6
    ensures cmds[2].Rect? <==> Highlighted(r)
  {
    Opening(r, y) + Texts(r, y)
  }

  /** The page break that follows a row drawn at `y`, if any (app.py:146-149). */
  function BreakCommands(y: int): seq<Command>
  {
    if BreaksAfter(y) then [ShowPage] else []
  }

  /** The commands of the first `n` passes of the detail loop (app.py:133-149). */
  function Detail(rows: seq<Row>, n: nat): (cmds: seq<Command>)
    requires n <= |rows|
    ensures |cmds| >= 6 * n
  {
    if n == 0 then []
    else Detail(rows, n - 1) + RowCommands(rows[n - 1], Cursor(n - 1)) + BreakCommands(Cursor(n - 1))
  }

  /** Title, summary and column headings, all drawn on the first page (app.py:99-130). */
  function Header(first: Date, net: real, vat: real, gross: real): (cmds: seq<Command>)
    ensures |cmds| == 17 && cmds[1] == Title(INCH, PAGE_TOP, first.year, first.month)
    ensures forall c :: c in cmds ==> !c.ShowPage? && !c.Rect?
  {
    [SetFont(BOLD, 16), Title(INCH, PAGE_TOP, first.year, first.month),
     SetFont(BOLD, 12), Text(INCH, PAGE_HEIGHT - 1080, "Resumen General del Mes"),
     SetFont(REGULAR, 11),
     Text(SUMMARY_X, 6624, "Total Ventas Netas: " + Currency(net)),
     Text(SUMMARY_X, 6424, "Total IVA (19%): " + Currency(vat)),
     Text(SUMMARY_X, 6224, "Total Ventas Brutas: " + Currency(gross)),
     SetFont(BOLD, 12), Text(INCH, 5624, "Detalle de Ventas del Mes"),
     SetFont(BOLD, 10),
     Text(DATE_X, 5374, "Fecha"), Text(DOCUMENT_X, 5374, "Tipo Doc."),
     Text(DESCRIPTION_X, 5374, "Descripción"), Text(AMOUNT_X, 5374, "Bruto"),
     Text(USER_X, 5374, "Usuario"),
     Line(DATE_X, 5324, PAGE_WIDTH - DATE_X, 5324)]
  }

  /** The whole report for a non-empty selection of rows; the month shown is the
      first row's (app.py:97). */
  function Report(rows: seq<Row>): (doc: seq<Command>)
    requires |rows| > 0
    ensures |doc| > 17
    ensures doc[1] == Title(INCH, PAGE_TOP, rows[0].sale.date.year, rows[0].sale.date.month)
    ensures doc[|doc| - 1] == Save
  {
    var header := Header(rows[0].sale.date, TotalNet(rows), TotalVat(rows), TotalGross(rows));
    ConcatAssoc(header, Detail(rows, |rows|), [Save]);
    header + Detail(rows, |rows|) + [Save]
  }

  lemma ConcatAssoc<T>(a: seq<T>, b: seq<T>, c: seq<T>)
    ensures (a + b) + c == a + (b + c)
  {
  }

  /** The straight-line part of `generar_pdf`: title, summary and column headings,
      leaving the cursor where the first detail row goes (app.py:97-132). */
  method DrawHeader(first: Date, totalNet: real, totalVat: real, totalGross: real)
    returns (doc: seq<Command>, y: int)
    ensures doc == Header(first, totalNet, totalVat, totalGross)
    ensures y == FIRST_ROW
  {
    doc := [SetFont(BOLD, 16), Title(INCH, PAGE_HEIGHT - INCH, first.year, first.month)];
    doc := doc + [SetFont(BOLD, 12), Text(INCH, PAGE_HEIGHT - 1080, "Resumen General del Mes")];
    y := PAGE_HEIGHT - 1296;
    doc := doc + [SetFont(REGULAR, 11), Text(SUMMARY_X, y, "Total Ventas Netas: " + Currency(totalNet))];
    y := y - 200;
    doc := doc + [Text(SUMMARY_X, y, "Total IVA (19%): " + Currency(totalVat))];
    y := y - 200;
    doc := doc + [Text(SUMMARY_X, y, "Total Ventas Brutas: " + Currency(totalGross))];
    y := y - 600;
    doc := doc + [SetFont(BOLD, 12), Text(INCH, y, "Detalle de Ventas del Mes")];
    y := y - 250;
    doc := doc + [SetFont(BOLD, 10),
                  Text(DATE_X, y, "Fecha"), Text(DOCUMENT_X, y, "Tipo Doc."),
                  Text(DESCRIPTION_X, y, "Descripción"), Text(AMOUNT_X, y, "Bruto"),
                  Text(USER_X, y, "Usuario"),
                  Line(DATE_X, y - 50, PAGE_WIDTH - DATE_X, y - 50)];
    y := y - 200;
  }

  /** One pass of the detail loop: the row's font, its band if it is a web-design
      sale, its five texts, then the cursor moves down and the page is closed if
      the cursor fell below the bottom margin (app.py:134-149). */
  method DrawRow(r: Row, y0: int) returns (block: seq<Command>, y: int)
    ensures block == RowCommands(r, y0) + BreakCommands(y0)
    ensures y == NextCursor(y0)
  {
    y := y0;
    block := [SetFont(REGULAR, 9)];
    if r.sale.businessCode == "web" {
      block := block + [FillColor(Grey), Rect(BAND_X, y - BAND_DROP, BAND_WIDTH, BAND_HEIGHT), FillColor(Black)];
    }
    assert block == [SetFont(REGULAR, 9)] + Band(r, y);
    TextsInColumns(r, y);
    block := block + [Text(DATE_X, y, IsoDate(r.sale.date)), Text(DOCUMENT_X, y, r.sale.documentType),
                      Text(DESCRIPTION_X, y, Shorten(r.sale.description)),
                      Text(AMOUNT_X, y, Currency(r.gross)), Text(USER_X, y, r.sale.user)];
    assert block == RowCommands(r, y0);
    y := y - ROW_STEP;
    if y < INCH {
      block := block + [ShowPage];
      y := PAGE_TOP;
    }
  }

  /** `generar_pdf`: draws the header, then one detail row per input row in input
      order, moving the cursor down and breaking pages as it goes (app.py:91-153). */
  method GenerateReport(rows: seq<Row>) returns (doc: seq<Command>)
    requires |rows| > 0
    ensures doc == Report(rows)
  {
    var y;
    doc, y := DrawHeader(rows[0].sale.date, TotalNet(rows), TotalVat(rows), TotalGross(rows));
    ghost var header := doc;
    var i := 0;
    assert doc == header + Detail(rows, 0);
    while i < |rows|
      invariant 0 <= i <= |rows|
      invariant y == Cursor(i)
      invariant doc == header + Detail(rows, i)
    {
      var block;
      block, y := DrawRow(rows[i], y);
      assert Detail(rows, i + 1) == Detail(rows, i) + block;
      ConcatAssoc(header, Detail(rows, i), block);
      doc := doc + block;
      i := i + 1;
    }
    doc := doc + [Save];
  }
}
