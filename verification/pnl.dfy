/** The P&L pipeline (`compute_pnl`) and the moneyness filter of its export
    (`pnl_result_to_dict`). */
module PnL {
  import opened Wrappers
  import opened Numbers
  import opened OrderedDicts
  import opened VegaGrids
  import opened Interpolation
  import opened VolModels
  import opened Buckets

  /** `vol_params`: the mode and the model inputs reported with a result. */
  datatype VolParamsReport =
    | BetaReport(spotVolBeta: real, skewBeta: real, termDecay: real, convexity: real)
    | ManualReport(atmVolChange: real, skewChange: real, termMultiplier: real)

  /** `PnLResult`; each breakdown dict is its entries in insertion order. */
  datatype PnLResult = PnLResult(
    totalPnl: real,
    pnlGrid: seq<seq<real>>,
    pnlByExpiry: seq<(string, real)>,
    pnlByBucket: seq<(string, real)>,
    pnlByMoneyness: seq<(real, real)>,
    vegaGrid: VegaGrid,
    volChangeGrid: seq<seq<real>>,
    spotMove: real,
    volParams: VolParamsReport)

  /** Days from the reference date to an expiry given as text (the date parsing
      `classify_expiry` does with `pd.Timestamp`). */
  type DaysTo = string -> int

  /** The manual model is defined on every surface's expiries (always so in beta
      mode, which never divides). */
  predicate ManualReady(num: Numerics, mode: string, mp: ManualParams, surfaces: Surfaces)
  {
    IsBetaMode(mode) || forall i :: 0 <= i < |surfaces| ==> ManualDefinedOn(num, mp, surfaces[i].1.expiryYears)
  }

  /** The `vol_params` dict: four beta fields, or three manual ones. */
  function Report(mode: string, bp: BetaParams, mp: ManualParams): (r: VolParamsReport)
    ensures r.BetaReport? <==> IsBetaMode(mode)
    ensures r.BetaReport? ==>
      && r.spotVolBeta == bp.spotVolBeta && r.skewBeta == bp.skewBeta
      && r.termDecay == bp.termDecay && r.convexity == bp.convexity
    ensures r.ManualReport? ==>
      && r.atmVolChange == mp.atmVolChange && r.skewChange == mp.skewChange
      && r.termMultiplier == mp.termMultiplier
  {
    if IsBetaMode(mode) then BetaReport(bp.spotVolBeta, bp.skewBeta, bp.termDecay, bp.convexity)
    else ManualReport(mp.atmVolChange, mp.skewChange, mp.termMultiplier)
  }

  /** `values * vol_changes + values * volga_grid`, cell by cell. */
  function PnLCells(values: seq<seq<real>>, volChanges: seq<seq<real>>, volga: seq<seq<real>>, n: nat, m: nat)
    : (cells: seq<seq<real>>)
    requires |values| == n && |volChanges| == n && |volga| == n
    requires Rectangular(values, m) && Rectangular(volChanges, m) && Rectangular(volga, m)
    ensures |cells| == n && Rectangular(cells, m)
  {
    seq(n, i requires 0 <= i < n =>
      seq(m, j requires 0 <= j < m => values[i][j] * volChanges[i][j] + values[i][j] * volga[i][j]))
  }

  /** Each cell is vega times the sum of the two vol effects. */
  lemma PnLCellAt(values: seq<seq<real>>, volChanges: seq<seq<real>>, volga: seq<seq<real>>, n: nat, m: nat,
                  i: nat, j: nat)
    requires |values| == n && |volChanges| == n && |volga| == n
    requires Rectangular(values, m) && Rectangular(volChanges, m) && Rectangular(volga, m)
    requires i < n && j < m
    ensures PnLCells(values, volChanges, volga, n, m)[i][j] == values[i][j] * (volChanges[i][j] + volga[i][j])
  {
    var v := values[i][j];
    assert v * volChanges[i][j] + v * volga[i][j] == v * (volChanges[i][j] + volga[i][j]);
  }

  /** The bucket of each expiry, in expiry order. */
  function BucketKeys(daysTo: DaysTo, expiries: seq<string>): (keys: seq<string>)
    ensures |keys| == |expiries|
    ensures forall j :: 0 <= j < |expiries| ==> keys[j] == ClassifyDays(daysTo(expiries[j]))
  {
    seq(|expiries|, j requires 0 <= j < |expiries| => ClassifyDays(daysTo(expiries[j])))
  }

  /** Steps 2 to 4 of the pipeline on an interpolated grid. */
  function PnLOf(num: Numerics, daysTo: DaysTo, grid: VegaGrid, spotMove: real,
                 mode: string, bp: BetaParams, mp: ManualParams): (r: PnLResult)
    requires WellFormed(grid)
    requires !IsBetaMode(mode) ==> ManualDefinedOn(num, mp, grid.expiryYears)
    ensures r.vegaGrid == grid && r.spotMove == spotMove && r.volParams == Report(mode, bp, mp)
    ensures |r.pnlGrid| == |grid.moneyness| && Rectangular(r.pnlGrid, |grid.expiries|)
    ensures |r.volChangeGrid| == |grid.moneyness| && Rectangular(r.volChangeGrid, |grid.expiries|)
    ensures r.totalPnl == GrandTotal(r.pnlGrid)
    ensures Keys(r.pnlByExpiry) == set j | 0 <= j < |grid.expiries| :: grid.expiries[j]
    ensures Keys(r.pnlByMoneyness) == set i | 0 <= i < |grid.moneyness| :: grid.moneyness[i]
  {
    var n, m := |grid.moneyness|, |grid.expiries|;
    var volChanges := DSigmaMatrix(num, mode, bp, mp, grid.moneyness, grid.expiryYears, spotMove);
    var volga := VolgaMatrix(num, mode, bp, mp, grid.moneyness, grid.expiryYears, spotMove);
    var cells := PnLCells(grid.values, volChanges, volga, n, m);
    var byColumn := ColSums(cells, m);
    PnLResult(
      GrandTotal(cells),
      cells,
      PutAll(grid.expiries, byColumn),
      AccumulateAll(BucketKeys(daysTo, grid.expiries), byColumn),
      PutAll(grid.moneyness, RowSums(cells)),
      grid,
      volChanges,
      spotMove,
      Report(mode, bp, mp))
  }

  /** `compute_pnl`, failing where interpolation raises. */
  function PnLSpec(num: Numerics, daysTo: DaysTo, surfaces: Surfaces, spotMove: real,
                   mode: string, bp: BetaParams, mp: ManualParams): (r: Result<PnLResult>)
    requires Valid(surfaces) && ManualReady(num, mode, mp, surfaces)
    ensures r.Failure? <==> Interpolate(surfaces, spotMove).Failure?
    ensures r.Failure? ==> r.error == Interpolate(surfaces, spotMove).error
  {
    var interpolated := Interpolate(surfaces, spotMove);
    if interpolated.Failure? then Failure(interpolated.error)
    else Success(PnLOf(num, daysTo, interpolated.value, spotMove, mode, bp, mp))
  }

  /** `compute_pnl`: interpolate, apply the vol model, multiply, then aggregate by
      expiry, by bucket and by moneyness in loops over the grid's axes. */
  method ComputePnL(num: Numerics, daysTo: DaysTo, surfaces: Surfaces, spotMove: real,
                    mode: string, bp: BetaParams, mp: ManualParams) returns (r: Result<PnLResult>)
    requires Valid(surfaces) && ManualReady(num, mode, mp, surfaces)
    ensures r == PnLSpec(num, daysTo, surfaces, spotMove, mode, bp, mp)
  {
    var interpolated := InterpolateVegaGrid(surfaces, spotMove);
    if interpolated.Failure? {
      return Failure(interpolated.error);
    }
    var grid := interpolated.value;
    var volChanges, volga := ComputeVolChangeGrid(num, grid, spotMove, mode, bp, mp);
    var n, m := |grid.moneyness|, |grid.expiries|;
    var cells := PnLCells(grid.values, volChanges, volga, n, m);
    var total := GrandTotal(cells);
    var byExpiry := PnLByExpiry(grid.expiries, cells);
    var byBucket := PnLByBucket(daysTo, grid.expiries, cells);
    var byMoneyness := PnLByMoneyness(grid.moneyness, cells);
    var report: VolParamsReport;
    if IsBetaMode(mode) {
      report := BetaReport(bp.spotVolBeta, bp.skewBeta, bp.termDecay, bp.convexity);
    } else {
      report := ManualReport(mp.atmVolChange, mp.skewChange, mp.termMultiplier);
    }
    r := Success(PnLResult(total, cells, byExpiry, byBucket, byMoneyness, grid, volChanges, spotMove, report));
  }

  /** `pnl_by_expiry[exp] = pnl_grid[:, j].sum()` for each expiry in turn. */
  method PnLByExpiry(expiries: seq<string>, cells: seq<seq<real>>) returns (byExpiry: seq<(string, real)>)
    requires Rectangular(cells, |expiries|)
    ensures byExpiry == PutAll(expiries, ColSums(cells, |expiries|))
  {
    ghost var byColumn := ColSums(cells, |expiries|);
    byExpiry := [];
    for j := 0 to |expiries|
      invariant byExpiry == PutAll(expiries[..j], byColumn[..j])
    {
      assert expiries[..j + 1][..j] == expiries[..j];
      assert byColumn[..j + 1][..j] == byColumn[..j];
      byExpiry := Put(byExpiry, expiries[j], Sum(Column(cells, j)));
    }
    assert expiries[..|expiries|] == expiries && byColumn[..|expiries|] == byColumn;
  }

  /** `pnl_by_bucket[b] = pnl_by_bucket.get(b, 0.0) + pnl_grid[:, j].sum()` with
      `b` the bucket of expiry j. */
  method PnLByBucket(daysTo: DaysTo, expiries: seq<string>, cells: seq<seq<real>>) returns (byBucket: seq<(string, real)>)
    requires Rectangular(cells, |expiries|)
    ensures byBucket == AccumulateAll(BucketKeys(daysTo, expiries), ColSums(cells, |expiries|))
  {
    byBucket := [];
    for j := 0 to |expiries|
      invariant byBucket == AccumulateAll(BucketKeys(daysTo, expiries)[..j], ColSums(cells, |expiries|)[..j])
    {
      var bucket := ClassifyDays(daysTo(expiries[j]));
      var pnl := Sum(Column(cells, j));
      AccumulateStep(BucketKeys(daysTo, expiries), ColSums(cells, |expiries|), j, byBucket, bucket, pnl);
      byBucket := Accumulate(byBucket, bucket, pnl);
    }
    assert BucketKeys(daysTo, expiries)[..|expiries|] == BucketKeys(daysTo, expiries);
    assert ColSums(cells, |expiries|)[..|expiries|] == ColSums(cells, |expiries|);
  }

  /** `pnl_by_moneyness[float(m)] = pnl_grid[i, :].sum()` for each row in turn. */
  method PnLByMoneyness(moneyness: seq<real>, cells: seq<seq<real>>) returns (byMoneyness: seq<(real, real)>)
    requires |cells| == |moneyness|
    ensures byMoneyness == PutAll(moneyness, RowSums(cells))
  {
    ghost var byRow := RowSums(cells);
    byMoneyness := [];
    for i := 0 to |moneyness|
      invariant byMoneyness == PutAll(moneyness[..i], byRow[..i])
    {
      assert moneyness[..i + 1][..i] == moneyness[..i];
      assert byRow[..i + 1][..i] == byRow[..i];
      byMoneyness := Put(byMoneyness, moneyness[i], Sum(cells[i]));
    }
    assert moneyness[..|moneyness|] == moneyness && byRow[..|moneyness|] == byRow;
  }

  /** No expiry label appears twice. */
  predicate DistinctExpiries(g: VegaGrid)
  {
    forall i, j :: 0 <= i < j < |g.expiries| ==> g.expiries[i] != g.expiries[j]
  }

  /** No moneyness level appears twice. */
  predicate DistinctMoneyness(g: VegaGrid)
  {
    forall i, j :: 0 <= i < j < |g.moneyness| ==> g.moneyness[i] != g.moneyness[j]
  }

  /** The P&L grid is vega times the model's total vol effect at each node of
      `grid`, and the vol change grid is the model's first-order change. */
  predicate CellsExplained(num: Numerics, mode: string, bp: BetaParams, mp: ManualParams,
                           grid: VegaGrid, spotMove: real, volChangeGrid: seq<seq<real>>, pnlGrid: seq<seq<real>>)
    requires WellFormed(grid)
    requires !IsBetaMode(mode) ==> ManualDefinedOn(num, mp, grid.expiryYears)
  {
    && |pnlGrid| == |grid.moneyness| && Rectangular(pnlGrid, |grid.expiries|)
    && |volChangeGrid| == |grid.moneyness| && Rectangular(volChangeGrid, |grid.expiries|)
    && forall i, j :: 0 <= i < |grid.moneyness| && 0 <= j < |grid.expiries| ==>
         var c := CellVolChange(num, mode, bp, mp, grid.moneyness[i], grid.expiryYears[j], spotMove);
         && volChangeGrid[i][j] == c.dSigma
         && pnlGrid[i][j] == grid.values[i][j] * (c.dSigma + c.volga)
  }

  /** A successful `compute_pnl` is the aggregation of the interpolated grid. */
  lemma PnLSpecSuccess(num: Numerics, daysTo: DaysTo, surfaces: Surfaces, spotMove: real,
                       mode: string, bp: BetaParams, mp: ManualParams)
    requires Valid(surfaces) && ManualReady(num, mode, mp, surfaces)
    requires PnLSpec(num, daysTo, surfaces, spotMove, mode, bp, mp).Success?
    ensures var g := Interpolate(surfaces, spotMove).value;
      && WellFormed(g)
      && (!IsBetaMode(mode) ==> ManualDefinedOn(num, mp, g.expiryYears))
      && PnLSpec(num, daysTo, surfaces, spotMove, mode, bp, mp).value == PnLOf(num, daysTo, g, spotMove, mode, bp, mp)
  {
  }

  /** The result carries the grid and the requested move, reports the selected
      model, and every P&L cell is `vega * (dSigma + volga)` for that model. */
  lemma PnLCellsExplained(num: Numerics, daysTo: DaysTo, grid: VegaGrid, spotMove: real,
                          mode: string, bp: BetaParams, mp: ManualParams)
    requires WellFormed(grid)
    requires !IsBetaMode(mode) ==> ManualDefinedOn(num, mp, grid.expiryYears)
    ensures var r := PnLOf(num, daysTo, grid, spotMove, mode, bp, mp);
      && r.vegaGrid == grid
      && r.spotMove == spotMove
      && (r.volParams.BetaReport? <==> IsBetaMode(mode))
      && CellsExplained(num, mode, bp, mp, grid, spotMove, r.volChangeGrid, r.pnlGrid)
  {
    ModelCells(num, grid, spotMove, mode, bp, mp);
  }

  /** The cell-by-cell content of the two grids `compute_pnl` builds. */
  lemma ModelCells(num: Numerics, grid: VegaGrid, spotMove: real, mode: string, bp: BetaParams, mp: ManualParams)
    requires WellFormed(grid)
    requires !IsBetaMode(mode) ==> ManualDefinedOn(num, mp, grid.expiryYears)
    ensures var n, m := |grid.moneyness|, |grid.expiries|;
      var volChanges := DSigmaMatrix(num, mode, bp, mp, grid.moneyness, grid.expiryYears, spotMove);
      var volga := VolgaMatrix(num, mode, bp, mp, grid.moneyness, grid.expiryYears, spotMove);
      CellsExplained(num, mode, bp, mp, grid, spotMove, volChanges, PnLCells(grid.values, volChanges, volga, n, m))
  {
    var n, m := |grid.moneyness|, |grid.expiries|;
    var volChanges := DSigmaMatrix(num, mode, bp, mp, grid.moneyness, grid.expiryYears, spotMove);
    var volga := VolgaMatrix(num, mode, bp, mp, grid.moneyness, grid.expiryYears, spotMove);
    var cells := PnLCells(grid.values, volChanges, volga, n, m);
    forall i, j | 0 <= i < n && 0 <= j < m
      ensures var c := CellVolChange(num, mode, bp, mp, grid.moneyness[i], grid.expiryYears[j], spotMove);
        && volChanges[i][j] == c.dSigma
        && cells[i][j] == grid.values[i][j] * (c.dSigma + c.volga)
    {
      ModelCell(num, grid, spotMove, mode, bp, mp, i, j);
    }
  }

  lemma ModelCell(num: Numerics, grid: VegaGrid, spotMove: real, mode: string, bp: BetaParams, mp: ManualParams,
                  i: nat, j: nat)
    requires WellFormed(grid)
    requires !IsBetaMode(mode) ==> ManualDefinedOn(num, mp, grid.expiryYears)
    requires i < |grid.moneyness| && j < |grid.expiries|
    ensures var n, m := |grid.moneyness|, |grid.expiries|;
      var volChanges := DSigmaMatrix(num, mode, bp, mp, grid.moneyness, grid.expiryYears, spotMove);
      var volga := VolgaMatrix(num, mode, bp, mp, grid.moneyness, grid.expiryYears, spotMove);
      var c := CellVolChange(num, mode, bp, mp, grid.moneyness[i], grid.expiryYears[j], spotMove);
      && volChanges[i][j] == c.dSigma
      && PnLCells(grid.values, volChanges, volga, n, m)[i][j] == grid.values[i][j] * (c.dSigma + c.volga)
  {
    var n, m := |grid.moneyness|, |grid.expiries|;
    var volChanges := DSigmaMatrix(num, mode, bp, mp, grid.moneyness, grid.expiryYears, spotMove);
    var volga := VolgaMatrix(num, mode, bp, mp, grid.moneyness, grid.expiryYears, spotMove);
    PnLCellAt(grid.values, volChanges, volga, n, m, i, j);
    MatrixCell(num, mode, bp, mp, grid.moneyness, grid.expiryYears, spotMove, i, j);
  }


  /** The breakdowns add up to the total: the buckets always (they accumulate), the
      expiry and moneyness breakdowns whenever no label repeats (a repeated label
      keeps only its last column or row). The total is the sum of the column sums
      as well as of the row sums. */
  lemma BreakdownTotals(num: Numerics, daysTo: DaysTo, grid: VegaGrid, spotMove: real,
                        mode: string, bp: BetaParams, mp: ManualParams)
    requires WellFormed(grid)
    requires !IsBetaMode(mode) ==> ManualDefinedOn(num, mp, grid.expiryYears)
    ensures var r := PnLOf(num, daysTo, grid, spotMove, mode, bp, mp);
      && Rectangular(r.pnlGrid, |grid.expiries|)
      && r.totalPnl == Sum(RowSums(r.pnlGrid))
      && r.totalPnl == Sum(ColSums(r.pnlGrid, |grid.expiries|))
      && Sum(Values(r.pnlByBucket)) == r.totalPnl
      && (DistinctExpiries(grid) ==> Sum(Values(r.pnlByExpiry)) == r.totalPnl)
      && (DistinctMoneyness(grid) ==> Sum(Values(r.pnlByMoneyness)) == r.totalPnl)
  {
    var r := PnLOf(num, daysTo, grid, spotMove, mode, bp, mp);
    var byColumn := ColSums(r.pnlGrid, |grid.expiries|);
    ColumnSumsTotal(r.pnlGrid, |grid.expiries|);
    AccumulateAllSum(BucketKeys(daysTo, grid.expiries), byColumn);
    if DistinctExpiries(grid) {
      PutAllDistinct(grid.expiries, byColumn);
    }
    if DistinctMoneyness(grid) {
      PutAllDistinct(grid.moneyness, RowSums(r.pnlGrid));
    }
  }

  /** Each bucket holds the total P&L of the expiries classified into it, and the
      buckets present are exactly those of the grid's expiries. */
  lemma BucketBreakdown(num: Numerics, daysTo: DaysTo, grid: VegaGrid, spotMove: real,
                        mode: string, bp: BetaParams, mp: ManualParams, bucket: string)
    requires WellFormed(grid)
    requires !IsBetaMode(mode) ==> ManualDefinedOn(num, mp, grid.expiryYears)
    ensures var r := PnLOf(num, daysTo, grid, spotMove, mode, bp, mp);
      && Rectangular(r.pnlGrid, |grid.expiries|)
      && Get(r.pnlByBucket, bucket, 0.0)
           == SumWhere(BucketKeys(daysTo, grid.expiries), ColSums(r.pnlGrid, |grid.expiries|), bucket)
      && (bucket in Keys(r.pnlByBucket) <==>
           exists j :: 0 <= j < |grid.expiries| && ClassifyDays(daysTo(grid.expiries[j])) == bucket)
  {
    var r := PnLOf(num, daysTo, grid, spotMove, mode, bp, mp);
    var keys := BucketKeys(daysTo, grid.expiries);
    AccumulateAllGet(keys, ColSums(r.pnlGrid, |grid.expiries|), bucket);
    AccumulateAllKeys(keys, ColSums(r.pnlGrid, |grid.expiries|));
    assert forall j :: 0 <= j < |keys| ==> keys[j] == ClassifyDays(daysTo(grid.expiries[j]));
  }

  /** An expiry's entry is its column's P&L, provided no later column carries the
      same label (a repeated label keeps the last column). */
  lemma ExpiryEntry(num: Numerics, daysTo: DaysTo, grid: VegaGrid, spotMove: real,
                    mode: string, bp: BetaParams, mp: ManualParams, j: nat)
    requires WellFormed(grid)
    requires !IsBetaMode(mode) ==> ManualDefinedOn(num, mp, grid.expiryYears)
    requires j < |grid.expiries|
    requires forall l :: j < l < |grid.expiries| ==> grid.expiries[l] != grid.expiries[j]
    ensures var r := PnLOf(num, daysTo, grid, spotMove, mode, bp, mp);
      && Rectangular(r.pnlGrid, |grid.expiries|)
      && Get(r.pnlByExpiry, grid.expiries[j], 0.0) == Sum(Column(r.pnlGrid, j))
  {
    var r := PnLOf(num, daysTo, grid, spotMove, mode, bp, mp);
    PutAllLastWins(grid.expiries, ColSums(r.pnlGrid, |grid.expiries|), j, 0.0);
  }

  /** A moneyness level's entry is its row's P&L, provided no later row carries the
      same level. */
  lemma MoneynessEntry(num: Numerics, daysTo: DaysTo, grid: VegaGrid, spotMove: real,
                       mode: string, bp: BetaParams, mp: ManualParams, i: nat)
    requires WellFormed(grid)
    requires !IsBetaMode(mode) ==> ManualDefinedOn(num, mp, grid.expiryYears)
    requires i < |grid.moneyness|
    requires forall l :: i < l < |grid.moneyness| ==> grid.moneyness[l] != grid.moneyness[i]
    ensures var r := PnLOf(num, daysTo, grid, spotMove, mode, bp, mp);
      && |r.pnlGrid| == |grid.moneyness|
      && Get(r.pnlByMoneyness, grid.moneyness[i], 0.0) == Sum(r.pnlGrid[i])
  {
    var r := PnLOf(num, daysTo, grid, spotMove, mode, bp, mp);
    PutAllLastWins(grid.moneyness, RowSums(r.pnlGrid), i, 0.0);
  }

  /** In beta mode an unchanged spot produces no vol change and hence no P&L. */
  lemma FlatSpotNoPnL(num: Numerics, daysTo: DaysTo, grid: VegaGrid, bp: BetaParams, mp: ManualParams)
    requires WellFormed(grid)
    ensures var r := PnLOf(num, daysTo, grid, 0.0, "beta", bp, mp);
      && (forall i, j :: 0 <= i < |r.pnlGrid| && 0 <= j < |r.pnlGrid[i]| ==> r.pnlGrid[i][j] == 0.0)
      && r.totalPnl == 0.0
  {
    var n, m := |grid.moneyness|, |grid.expiries|;
    var volChanges := DSigmaMatrix(num, "beta", bp, mp, grid.moneyness, grid.expiryYears, 0.0);
    var volga := VolgaMatrix(num, "beta", bp, mp, grid.moneyness, grid.expiryYears, 0.0);
    var cells := PnLCells(grid.values, volChanges, volga, n, m);
    BetaFlatAtZero(num, bp, mp, grid.moneyness, grid.expiryYears);
    forall i | 0 <= i < n ensures forall j :: 0 <= j < m ==> cells[i][j] == 0.0 {
      forall j | 0 <= j < m ensures cells[i][j] == 0.0 {
        PnLCellAt(grid.values, volChanges, volga, n, m, i, j);
      }
    }
    forall i | 0 <= i < n ensures Sum(cells[i]) == 0.0 {
      SumOfZeros(cells[i]);
    }
    SumOfZeros(RowSums(cells));
  }

  /** The `pnl_by_moneyness` list of the export: the entries whose P&L exceeds 1.0
      in size, each as often as it is listed, in their original order
      (`SignificantMoneynessAppend`). */
  function SignificantMoneyness(entries: seq<(real, real)>): (kept: seq<(real, real)>)
    ensures |kept| <= |entries|
    ensures forall e :: multiset(kept)[e] == if Abs(e.1) > 1.0 then multiset(entries)[e] else 0
  {
    if |entries| == 0 then []
    else
      var n := |entries| - 1;
      var front := SignificantMoneyness(entries[..n]);
      assert entries == entries[..n] + [entries[n]];
      SignificantStep(entries[..n], entries[n], front);
      if Abs(entries[n].1) > 1.0 then front + [entries[n]] else front
  }

  /** One more entry through the filter. */
  lemma SignificantStep(prefix: seq<(real, real)>, x: (real, real), front: seq<(real, real)>)
    requires |front| <= |prefix|
    requires forall e :: multiset(front)[e] == if Abs(e.1) > 1.0 then multiset(prefix)[e] else 0
    ensures var kept := if Abs(x.1) > 1.0 then front + [x] else front;
      && |kept| <= |prefix + [x]|
      && (forall e :: multiset(kept)[e] == if Abs(e.1) > 1.0 then multiset(prefix + [x])[e] else 0)
  {
    assert multiset(prefix + [x]) == multiset(prefix) + multiset{x};
  }

  /** An entry is kept exactly when it is listed and its P&L exceeds 1.0 in size. */
  lemma SignificantMembers(entries: seq<(real, real)>)
    ensures forall e :: e in SignificantMoneyness(entries) <==> e in entries && Abs(e.1) > 1.0
  {
    var kept := SignificantMoneyness(entries);
    forall e ensures e in kept <==> e in entries && Abs(e.1) > 1.0 {
      assert e in kept <==> multiset(kept)[e] > 0;
      assert e in entries <==> multiset(entries)[e] > 0;
    }
  }

  /** The filter keeps the order of the entries: filtering two lists one after the
      other is filtering each and joining the results. */
  lemma {:induction false} SignificantMoneynessAppend(a: seq<(real, real)>, b: seq<(real, real)>)
    ensures SignificantMoneyness(a + b) == SignificantMoneyness(a) + SignificantMoneyness(b)
    decreases |b|
  {
    if |b| == 0 {
      assert a + b == a;
    } else {
      var n := |b| - 1;
      SignificantMoneynessAppend(a, b[..n]);
      FrontOfAppend(a, b);
      SignificantLast(a + b, a + b[..n]);
      SignificantLast(b, b[..n]);
      var t := if Abs(b[n].1) > 1.0 then [b[n]] else [];
      Associative(SignificantMoneyness(a), SignificantMoneyness(b[..n]), t);
    }
  }

  /** Filtering `s` is filtering `front`, all of `s` but its last entry, then that entry. */
  lemma SignificantLast(s: seq<(real, real)>, front: seq<(real, real)>)
    requires |s| > 0 && front == s[..|s| - 1]
    ensures SignificantMoneyness(s) ==
      SignificantMoneyness(front) + if Abs(s[|s| - 1].1) > 1.0 then [s[|s| - 1]] else []
  {
    LastSplit(s);
    SignificantSnoc(front, s[|s| - 1]);
  }

  lemma FrontOfAppend<T>(a: seq<T>, b: seq<T>)
    requires |b| > 0
    ensures (a + b)[..|a + b| - 1] == a + b[..|b| - 1]
    ensures (a + b)[|a + b| - 1] == b[|b| - 1]
  {
  }

  lemma Associative<T>(x: seq<T>, y: seq<T>, z: seq<T>)
    ensures (x + y) + z == x + (y + z)
  {
  }

  lemma LastSplit<T>(s: seq<T>)
    requires |s| > 0
    ensures s == s[..|s| - 1] + [s[|s| - 1]]
  {
  }

  /** The filter on one more entry. */
  lemma SignificantSnoc(s: seq<(real, real)>, x: (real, real))
    ensures SignificantMoneyness(s + [x]) ==
      SignificantMoneyness(s) + if Abs(x.1) > 1.0 then [x] else []
  {
    assert (s + [x])[..|s|] == s;
  }
}
