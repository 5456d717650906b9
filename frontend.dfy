/**
 * The rules the page applies around the ledger: the form's business-type
 * label becomes the stored code (app.py:179), the listing is narrowed to the
 * current month (app.py:198), and a report is produced only when that month
 * has sales (app.py:199-200). The clock is the parameter `today`.
 */
module Frontend {
  import opened Wrappers
  import opened Tax
  import opened Records
  import opened Listing
  import opened Pagination
  import opened Report
  import opened Ledger
  import opened Layout

  /** The two choices of the "Tipo de Negocio" selector (app.py:171). */
  const LABEL_3D: string := "Impresión 3D"
  const LABEL_WEB: string := "Diseño Web"

  /** The code stored for a selector label: 3D printing is "3d", anything else is "web". */
  function BusinessCode(choice: string): (code: string)
    ensures code == "3d" || code == "web"
    ensures code == "3d" <==> choice == LABEL_3D
  {
    if choice == LABEL_3D then "3d" else "web"
  }

  /** A sale registered under the web-design label is the one the report draws
      on a grey band, and only that one. */
  lemma LabelDecidesBand(choice: string, s: Sale)
    requires choice == LABEL_3D || choice == LABEL_WEB
    requires s.businessCode == BusinessCode(choice)
    ensures Highlighted(Project(s)) <==> choice == LABEL_WEB
  {
  }

  /** `fecha` and `today` fall in the same calendar month (`'%Y-%m'` agree). */
  predicate SameMonth(d: Date, today: Date)
  {
    d.year == today.year && d.month == today.month
  }

  /** The rows of the current month, in the order of the listing (app.py:198). */
  function MonthRows(rows: seq<Row>, today: Date): (r: seq<Row>)
    ensures |r| <= |rows|
    ensures forall x :: x in r <==> x in rows && SameMonth(x.sale.date, today)
  {
    if rows == [] then []
    else (if SameMonth(rows[0].sale.date, today) then [rows[0]] else []) + MonthRows(rows[1..], today)
  }

  /** Filtering by month keeps the listing's order. */
  lemma {:induction false} MonthRowsKeepsOrder(rows: seq<Row>, today: Date)
    requires InListingOrder(rows)
    ensures InListingOrder(MonthRows(rows, today))
  {
    if rows != [] {
      var tail := rows[1..];
      assert InListingOrder(tail) by {
        forall i, j | 0 <= i < j < |tail| ensures Precedes(tail[i].sale, tail[j].sale) {
          assert tail[i] == rows[i + 1] && tail[j] == rows[j + 1];
        }
      }
      MonthRowsKeepsOrder(tail, today);
      var rest := MonthRows(tail, today);
      if SameMonth(rows[0].sale.date, today) {
        var r := [rows[0]] + rest;
        forall i, j | 0 <= i < j < |r| ensures Precedes(r[i].sale, r[j].sale) {
          if i == 0 {
            assert r[j] in tail;
            var k :| 0 <= k < |tail| && tail[k] == r[j];
            assert rows[k + 1] == r[j];
          } else {
            assert r[i] == rest[i - 1] && r[j] == rest[j - 1];
          }
        }
      } else {
        assert MonthRows(rows, today) == rest;
      }
    }
  }

  /** The first page's title carries the year and month of `today`. */
  lemma MonthlyTitle(listing: seq<Row>, today: Date)
    requires |MonthRows(listing, today)| > 0
    ensures Report.Report(MonthRows(listing, today))[1] == Title(INCH, PAGE_TOP, today.year, today.month)
  {
    var rows := MonthRows(listing, today);
    assert rows[0] in rows;
  }

  /** The download button: a report of this month's rows, or none when the month
      has no sales (app.py:198-200). */
  method MonthlyReport(listing: seq<Row>, today: Date) returns (report: Option<seq<Command>>)
    ensures report.None? <==> forall i :: 0 <= i < |listing| ==> !SameMonth(listing[i].sale.date, today)
    ensures report.Some? ==>
      |MonthRows(listing, today)| > 0 && report.value == Report.Report(MonthRows(listing, today))
  {
    var month := MonthRows(listing, today);
    if |month| == 0 {
      forall i | 0 <= i < |listing| ensures !SameMonth(listing[i].sale.date, today) {
        assert listing[i] in listing;
      }
      report := None;
    } else {
      assert month[0] in month;
      var doc := GenerateReport(month);
      report := Some(doc);
    }
  }

  /** The form's submit handler: maps the label to its code and calls
      `agregar_venta` with the widget's non-negative amount (app.py:173-180). */
  method RegisterSale(ledger: SalesLedger, documentType: string, choice: string,
                      description: string, gross: nat, user: string, today: Date, fails: bool)
    returns (ok: bool)
    requires ledger.Valid()
    modifies ledger
    ensures ledger.Valid()
    ensures ok == !fails
    ensures ok ==>
      ledger.sales == old(ledger.sales) + [Sale(old(ledger.nextId), today, documentType,
                                               BusinessCode(choice), description,
                                               NetFromGross(gross as real), user)]
    ensures !ok ==> ledger.sales == old(ledger.sales) && ledger.nextId == old(ledger.nextId)
    ensures old(ledger.NonNegative()) ==> ledger.NonNegative()
  {
    ok := ledger.Add(documentType, BusinessCode(choice), description, gross as real, user, today, fails);
  }

  /** A web-design invoice of $119.000 gross is stored as 100.000 net and listed
      with 19.000 VAT and its gross amount restored. */
  method ExampleSale() returns (rows: seq<Row>)
    ensures |rows| == 1
    ensures rows[0].sale.net == 100000.0 && rows[0].vat == 19000.0 && rows[0].gross == 119000.0
    ensures rows[0].sale.businessCode == "web" && Highlighted(rows[0])
  {
    var ledger := new SalesLedger();
    var ok := RegisterSale(ledger, "Factura", LABEL_WEB, "Página Web XYZ (Adelanto 1/2)",
                           119000, "admin", Date(2026, 10, 14), false);
    var stored := ledger.sales;
    rows := ledger.List(false);
    assert SortListing(stored)[0] in multiset(stored);
  }
}
