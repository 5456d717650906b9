/**
 * The persisted sale record of the `ventas` table and the row the listing
 * returns, which carries the two derived columns beside it.
 */
module Records {
  import opened Tax

  /** A calendar date as stored in the `fecha` column. */
  datatype Date = Date(year: nat, month: nat, day: nat)

  /** `a` is a later calendar date than `b` (the order SQL uses on dates). */
  predicate Later(a: Date, b: Date)
  {
    a.year > b.year
    || (a.year == b.year && (a.month > b.month || (a.month == b.month && a.day > b.day)))
  }

  /** One row of the `ventas` table: the only monetary column is the net amount. */
  datatype Sale = Sale(
    id: int,
    date: Date,
    documentType: string,
    businessCode: string,
    description: string,
    net: real,
    user: string)

  /** A listed sale with the columns `iva` and `monto_bruto` computed at read time. */
  datatype Row = Row(sale: Sale, vat: real, gross: real)

  /** The row carries the VAT and gross recomputed from its own stored net amount. */
  predicate Derived(r: Row)
  {
    r.vat == VatOf(r.sale.net) && r.gross == GrossOf(r.sale.net)
  }

  /** Attaches the derived columns to a stored sale (app.py:71-72). */
  function Project(s: Sale): (r: Row)
    ensures r.sale == s && Derived(r)
    ensures NetFromGross(r.gross) == s.net && r.vat == r.gross - s.net
  {
    Row(s, VatOf(s.net), GrossOf(s.net))
  }
}
