/**
 * Tax derivation of the sales ledger (app.py:50, app.py:71-72).
 *
 * The ledger stores only the net (tax-exclusive) amount, derived from the
 * gross (tax-inclusive) amount the operator types in; VAT and gross are
 * recomputed from the stored net amount every time the table is read.
 * Amounts are exact rationals (`real`), so the round trip is exact.
 */
module Tax {
  /** VAT (IVA) rate: 19%. */
  const VAT_RATE: real := 0.19
  /** Divisor that turns a gross amount into its net part: 1 + VAT_RATE. */
  const GROSS_DIVISOR: real := 1.19

  /** Net amount stored for a gross amount (`monto_bruto / 1.19`, app.py:50). */
  function NetFromGross(gross: real): (net: real)
    ensures net * GROSS_DIVISOR == gross
    ensures net >= 0.0 <==> gross >= 0.0
    ensures gross >= 0.0 ==> net <= gross
  {
    gross / GROSS_DIVISOR
  }

  /** VAT recomputed from a stored net amount (`monto_neto * 0.19`, app.py:71). */
  function VatOf(net: real): (vat: real)
    ensures vat >= 0.0 <==> net >= 0.0
    ensures net >= 0.0 ==> vat <= net
  {
    net * VAT_RATE
  }

  /** Gross amount recomputed from a stored net amount (`monto_neto + iva`, app.py:72). */
  function GrossOf(net: real): (gross: real)
    ensures NetFromGross(gross) == net
    ensures gross - net == VatOf(net)
  {
    net + VatOf(net)
  }

  /** Reading back a stored amount reproduces exactly the gross amount that was entered,
      and its VAT is exactly the difference between gross and net. */
  lemma RoundTrip(gross: real)
    ensures GrossOf(NetFromGross(gross)) == gross
    ensures VatOf(NetFromGross(gross)) == gross - NetFromGross(gross)
    ensures VatOf(NetFromGross(gross)) * GROSS_DIVISOR == VAT_RATE * gross
  {
  }
}
