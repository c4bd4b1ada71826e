/** The vega surface record (`VegaGrid`). */
module VegaGrids {
  import opened Numbers

  /** One vega surface: an n x m matrix of vega by moneyness (rows) and expiry
      (columns), with the totals that came with it. Numpy arrays are values here. */
  datatype VegaGrid = VegaGrid(
    spotShift: real,
    moneyness: seq<real>,
    expiries: seq<string>,
    expiryYears: seq<real>,
    values: seq<seq<real>>,
    rowTotals: seq<real>,
    colTotals: seq<real>,
    total: real)
  {
    function NStrikes(): nat { |moneyness| }
    function NExpiries(): nat { |expiries| }
  }

  /** The shapes a parsed surface always has: one row of values per moneyness, one
      column per expiry, and one total per row and per column. */
  predicate WellFormed(g: VegaGrid)
  {
    && |g.values| == |g.moneyness|
    && |g.rowTotals| == |g.moneyness|
    && |g.expiryYears| == |g.expiries|
    && |g.colTotals| == |g.expiries|
    && Rectangular(g.values, |g.expiries|)
  }

  /** The totals are the sums of the matrix they accompany. */
  predicate TotalsConsistent(g: VegaGrid)
    requires WellFormed(g)
  {
    && g.rowTotals == RowSums(g.values)
    && g.colTotals == ColSums(g.values, |g.expiries|)
    && g.total == GrandTotal(g.values)
  }
}
