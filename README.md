# Sales ledger and monthly report — a Dafny model

`app.py` is a small sales ledger for a business with two lines of work: 3D printing (`'3d'`) and web design (`'web'`).

- A sale is entered with its tax-inclusive (gross) amount. Only the net amount is stored.
- The 19% VAT and the gross amount are recomputed every time the table is read.
- The listing is ordered newest first.
- A sale can be deleted by id.
- The current month's sales can be downloaded as a PDF report. The report has a title, three totals, and a detail table that is paginated, with a grey band behind web-design rows.

This project models that core and proves its properties. Modules:

| module | what it models |
|---|---|
| `Tax` | The derivation `neto = bruto / 1.19`, `iva = neto * 0.19`, `bruto = neto + iva`, in exact `real` arithmetic. |
| `Records` | The stored sale record, the calendar date, and the listed row with its two derived columns. |
| `Listing` | The two queries, as functions on the table's contents: `ORDER BY fecha DESC, id DESC` (`SortListing`, `ListingOf`) and `DELETE … WHERE id = …` (`RemoveId`). |
| `Ledger` | The `ventas` table as a class over a `seq<Sale>` field, plus the id sequence. It has one method per database function: `Add` (`agregar_venta`), `List` (`obtener_ventas_df`), `Delete` (`eliminar_venta`). |
| `Formatting` | The pieces of report formatting described below this table. |
| `Pagination` | The report's vertical cursor, in integer tenths of a point. |
| `Report` | `generar_pdf` as a sequence of abstract draw commands (`Command`). `Report` is the specification function; `GenerateReport` is the loop that builds it. |
| `Layout` | A reader of the command stream. It finds each column's texts and, for every detail row, its page and whether it is banded. The layout lemmas state the report's promises in those terms. |
| `Frontend` | The page's rules: label-to-code mapping, month filter, non-empty guard before the report. It also holds an end-to-end example. |

`Formatting` covers:
- Python's `.0f` rounding, which rounds half to even.
- The currency text `f"${x:,.0f}".replace(",", ".")` and a parser that reads it back.
- The 35-character description cut.
- The ISO date that `str(fecha)` prints.

Environment parameters:
- A database exception becomes the parameter `fails` of each ledger method. A failing write rolls back.
- The clock becomes the parameter `today`.

In `Pagination`, a letter page is 7920 tenths high. The first detail row sits at 5174 and each row moves the cursor down 150. When the cursor drops below 720, the page is closed and the cursor returns to 7200. So the first page holds 30 rows and every later page holds 44.

`generar_pdf` checks for a page break *after* drawing a row (app.py:146-149), so a break can follow the last row.

## Model

| member | source | states |
|---|---|---|
| Tax.NetFromGross | app.py:50 | The stored net amount times 1.19 is the gross amount; it is non-negative exactly when the gross is, and never exceeds a non-negative gross. |
| Tax.VatOf | app.py:71 | The VAT is non-negative exactly when the net is, and never exceeds a non-negative net. |
| Tax.GrossOf | app.py:72 | The recomputed gross divides back to the same net, and gross minus net is exactly the VAT. So re-reading a row and storing its gross again changes neither its net nor its gross. |
| Tax.RoundTrip | app.py:71-72 | Storing `bruto / 1.19` and recomputing `neto + neto * 0.19` returns exactly the entered gross; the VAT is gross minus net, i.e. 0.19/1.19 of the gross. |
| Records.Project | app.py:71-72 | A listed row keeps its stored sale and carries VAT and gross derived from its net; its gross divides back to the net and VAT equals gross minus net. |
| Listing.SortListing | app.py:69 | The listing holds exactly the table's records (same multiset, same length), sorted by date descending, then id descending. |
| Listing.InsertSorted | app.py:69 | Inserting a record into a sorted listing keeps it sorted. |
| Listing.SortedUnique | app.py:69 | Two sorted listings of the same records, where an id determines its record, are equal: the order is unique. |
| Listing.ListingIgnoresInsertionOrder | app.py:69 | The listing depends only on the table's contents, not on the order in which rows were inserted. |
| Listing.ListingOrder | app.py:69 | With unique ids, the listing's rows are in strict listing order: each row's date is not earlier than a later row's, and within one date its id is larger. |
| Listing.ListingOf | app.py:66-72 | One row per record; row `i` is the `i`-th sorted record, with VAT and gross derived from its net. |
| Listing.RemoveId | app.py:82 | After `DELETE … WHERE id = id`, every record with that id has count 0 and every other record keeps its count. |
| Listing.RemoveIdMembers | app.py:82 | A record is in the table after the delete if and only if it was there before and has a different id. |
| Listing.RemoveAbsentId | app.py:82 | Deleting an id that no record carries leaves the table unchanged. |
| Listing.RemoveIdSubsequence | app.py:82 | The records that remain keep their relative order. |
| Listing.RemoveIdSorted | app.py:69-82 | Deleting from a sorted listing leaves it sorted. |
| Listing.RemoveIdUnique | app.py:82 | Deleting keeps ids unique. |
| Listing.RemoveIdSameContents | app.py:82 | Delete depends only on the table's contents. |
| Listing.DeleteKeepsListingOrder | app.py:69-82 | Listing after a delete equals deleting from the listing: the survivors appear in the same order as before. |
| Ledger.SalesLedger.Add | app.py:48-64 | It returns true exactly when the transaction commits. On commit it appends exactly one record with the given fields, `today`'s date, the net amount `gross / 1.19` and a fresh id distinct from every stored one. On failure the table and the id sequence are unchanged. Ids stay unique, and a non-negative gross keeps every stored net non-negative. |
| Ledger.SalesLedger.List | app.py:66-76 | On success the rows are the table's listing: same records, each with derived VAT and gross, strictly ordered date descending then id descending. A failed query yields no rows. |
| Ledger.SalesLedger.Delete | app.py:78-89 | It reports true exactly when the transaction commits, also when no record matched. On commit, exactly the records with that id are gone and the others keep their order. An absent id or a failure changes nothing. The id sequence is untouched and ids stay unique. |
| Formatting.Digits | app.py:112 | The decimal digits of a number: all digits, at least one, no leading zero. |
| Formatting.ValueOfDigits | app.py:112 | The digits of `n` denote `n`. |
| Formatting.RoundHalfEven | app.py:112 | `.0f`: the result is within 0.5 of the amount, a tie goes to the even neighbour, and the sign is kept. |
| Formatting.RoundHalfEvenUnique | app.py:112 | Those two properties determine the rounded value. |
| Formatting.Group | app.py:112-116 | The thousands grouping keeps every digit, so it is never shorter than its input, and it starts with the input's first digit. |
| Formatting.GroupShape | app.py:112 | Grouping digits with '.' gives a first group of 1-3 digits followed by groups of exactly three, and removing the dots gives back the digits. |
| Formatting.Currency | app.py:112-116 | Every amount is written as '$' and at least one more character. A '-' follows the '$' exactly when the amount is negative. |
| Formatting.CurrencyShape | app.py:144 | A non-negative amount is written '$' followed by well-formed groups whose digits are those of the rounded amount. |
| Formatting.CurrencyRoundTrip | app.py:112-116 | Every written amount, negative ones included, reads back as the rounded amount. |
| Formatting.Shorten | app.py:143 | The description shown is its prefix of length min(35, length); it is the whole description exactly when that has at most 35 characters. |
| Formatting.Padded | app.py:141 | A zero-padded number is all digits and at least as long as its field width. |
| Formatting.PaddedLength | app.py:141 | A number below 10^w takes exactly w digits once zero-padded. |
| Formatting.ValueOfPadded | app.py:141 | Zero padding does not change the number shown. |
| Formatting.IsoDate | app.py:141 | `str(fecha)` has at least ten characters. It starts with four digits (the year) and ends with a digit. |
| Formatting.IsoDateReadsBack | app.py:141 | For four-digit years, `str(fecha)` has ten characters in the form YYYY-MM-DD, and each field reads back as the date's year, month and day. |
| Pagination.NextCursor | app.py:146-149 | After a row the cursor either returns to `height - inch` or moves down exactly 15 pt without passing the one-inch margin. A cursor between the margins stays between them. |
| Pagination.Cursor | app.py:132-149 | Every detail row is drawn between the one-inch bottom margin and one inch below the top. |
| Pagination.CursorClosedForm | app.py:132-149 | Row `k` is drawn `SlotOf(k)` steps below its page's start, and the number of breaks before it is its page: 30 rows on the first page, 44 on each later one. |
| Pagination.BreakPositions | app.py:146-149 | A break follows row `k` exactly when `k` is the last row its page holds. |
| Pagination.CursorStep | app.py:146-149 | Without a break the cursor drops by 15 pt and the page stays the same. With a break the cursor returns to `height - inch` on the next page. |
| Pagination.SixtyRowsBreakOnce | app.py:146-149 | Sixty rows cause exactly one page break, after the 30th row. |
| Report.TotalNet | app.py:104 | The total of the net column is non-negative when every net amount is. |
| Report.TotalVat | app.py:105 | The total of the VAT column is non-negative when every VAT amount is. |
| Report.TotalGross | app.py:106 | The total of the gross column is non-negative when every gross amount is. |
| Report.TotalsAppend | app.py:104-106 | Each column total over two batches of rows is the sum of the two batches' totals. |
| Report.TotalsConsistent | app.py:104-106 | For derived rows, total gross = total net + total VAT, and total VAT = 0.19 × total net. |
| Report.TotalsNonNegative | app.py:104-106 | Non-negative net amounts give non-negative totals. |
| Report.Header | app.py:97-130 | The title, summary and column headings are 17 commands. The second is the title at the top margin, carrying the first row's year and month. None is a page break or a band. |
| Report.RowCommands | app.py:134-145 | One row is drawn with six commands, or nine when it is banded. The third command is a band exactly for a web-design sale. |
| Report.Detail | app.py:133-149 | The detail table of `n` rows has at least six commands per row. |
| Report.Report | app.py:91-153 | A report has more than the header. It is titled with the first row's year and month, and its last command saves the document. |
| Report.DrawHeader | app.py:97-132 | The straight-line part draws the title (first page, top margin), the summary and the column headings, and leaves the cursor at the first row's position (517.4 pt). |
| Report.DrawRow | app.py:134-149 | One pass of the loop draws the row's font, a grey band exactly for a web sale, the five texts at the cursor, and a page break exactly when the lowered cursor falls below one inch. The new cursor is the lowered one, or `height - inch` after a break. |
| Report.GenerateReport | app.py:91-153 | The loop's commands are exactly the header, then for each row in input order its font, optional band, five texts and optional page break at the row's cursor, then the save. |
| Layout.ColumnOfRow | app.py:141-145 | One detail row puts exactly one text in each column, at its cursor; a page break puts none. |
| Layout.ScanOfRow | app.py:134-143 | One detail row reads back as one row at its cursor, banded if and only if it is a web-design sale. |
| Layout.ColumnOfDetail | app.py:133-145 | Each column of the detail table holds one entry per input row, in input order, at that row's cursor. |
| Layout.ScanOfDetail | app.py:133-149 | The table reads back as one row per input row, in input order, each on the page the breaks put it on, at its cursor, banded exactly for web sales. |
| Layout.DetailShowsEveryRow | app.py:141-145 | Every row appears once, in order and within the margins. Its description column shows the min(35, length) prefix, and its amount column shows the formatted gross. |
| Layout.DetailHighlightsWebRows | app.py:136-139 | A detail row is drawn on a grey band if and only if its business code is `'web'`. |
| Layout.DetailPages | app.py:146-149 | Rows 0-29 land on the first page and each later page holds 44. The table ends on page `PageOf(n)`, so a break follows a last row that fills its page. |
| Layout.DetailHasNoHeader | app.py:133-149 | The loop draws no title, rule or save, and only texts in the five column positions: header and summary appear once, before the loop. |
| Frontend.BusinessCode | app.py:179 | The stored code is `'3d'` or `'web'`, and it is `'3d'` exactly for the label "Impresión 3D". |
| Frontend.LabelDecidesBand | app.py:179 | A sale registered from the selector is banded in the report exactly when the label was "Diseño Web". |
| Frontend.MonthRows | app.py:198 | A row is kept exactly when it is in the listing and its date has today's year and month. |
| Frontend.MonthRowsKeepsOrder | app.py:198 | The month filter keeps the listing's strict date/id order. |
| Frontend.MonthlyTitle | app.py:97 | The month's report is titled with today's year and month. |
| Frontend.MonthlyReport | app.py:198-200 | There is no report exactly when no listed row falls in the current month; otherwise the report is `generar_pdf` of the month's rows. |
| Frontend.RegisterSale | app.py:173-180 | The submit handler stores the mapped code and the non-negative widget amount through `agregar_venta`, with that method's success and rollback behaviour. |
| Frontend.ExampleSale | app.py:48-72 | A web-design sale entered at 119000 gross is stored as 100000 net and listed with VAT 19000 and gross 119000, banded. |

## Left out

- Streamlit user interface: forms, widgets, messages, `st.experimental_rerun`, the downloaded file name, and the delete selector's id list (app.py:155-222). These are UI glue.
- Authentication with hard-coded password hashes (app.py:31-44). It is a foreign library with secrets.
- PostgreSQL connection setup and `st.secrets` (app.py:15-29). The table is state in `SalesLedger`, and an SQL exception is the `fails` flag.
- Floating-point rounding in `/ 1.19` and `* 0.19`. All amounts are exact `real`s, which is what makes `neto + iva == bruto` provable. With floats it can be off in the last bit.
- Ledger.SalesLedger.Add: on failure the id sequence is left unchanged, while PostgreSQL may have consumed a sequence value. Ids are still fresh when a gap occurs; gaps are not modelled.
- Ledger.SalesLedger.List: a failed query is modelled as an empty listing, as `pd.DataFrame()` is. Its missing columns, which the page would trip over later, are not modelled.
- Locale-dependent month names from `strftime('%B %Y').capitalize()` (app.py:97). The title command carries the year and month of the first row, not the text.
- reportlab itself: fonts, colours, canvas state and `BytesIO`. Draws are abstract `Command`s. The model does not capture that reportlab emits no empty trailing page after a final `showPage`.
- pandas mechanics: DataFrame copies, `iterrows`, and the renamed display columns.
- Frontend.MonthRows: compares year and month numbers instead of the `'%Y-%m'` strings. The two agree for valid dates, and date validity is not modelled (any `nat` fields are accepted).
- Frontend.RegisterSale: the widget's `min_value=0` integer input is a `nat` parameter. The widget itself is not modelled.
