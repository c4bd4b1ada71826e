/** `compute_scenario_matrix`: the total P&L over a list of spot moves, per bucket
    in beta mode, and per parallel vol shock in manual mode. */
module ScenarioMatrix {
  import opened Wrappers
  import opened Numbers
  import opened OrderedDicts
  import opened Interpolation
  import opened VolModels
  import opened PnL

  /** The default spot moves: -7.5% to +7.5% in steps of 0.5%, rounded to four
      decimals (which the real-valued grid already is). */
  const DefaultSpotMoves: seq<real> := [
    -0.075, -0.07, -0.065, -0.06, -0.055, -0.05, -0.045, -0.04,
    -0.035, -0.03, -0.025, -0.02, -0.015, -0.01, -0.005, 0.0,
    0.005, 0.01, 0.015, 0.02, 0.025, 0.03, 0.035, 0.04,
    0.045, 0.05, 0.055, 0.06, 0.065, 0.07, 0.075
  ]

  /** The default parallel vol shocks of manual mode, in vol points. */
  const DefaultVolChanges: seq<real> := [-5.0, -3.0, -1.0, 0.0, 1.0, 3.0, 5.0]

  /** The column name `vol_{dv:+.0f}`: a sign and a whole number of points. */
  datatype VolLabel = VolLabel(negative: bool, points: int)

  /** One row of the result: spot move, total and per-bucket P&L in beta mode;
      spot move and the total per vol shock column in manual mode. */
  datatype ScenarioRow =
    | BetaRow(spotMove: real, totalPnl: real, bucketPnl: seq<(string, real)>)
    | ManualRow(spotMove: real, volPnl: seq<(VolLabel, real)>)

  /** Rounding to the nearest integer, ties to the even one (the `.0f` format). */
  function RoundHalfEven(x: real): (k: int)
    ensures -0.5 <= x - k as real <= 0.5
    ensures x - k as real == 0.5 || x - k as real == -0.5 ==> k % 2 == 0
  {
    var f := x.Floor;
    var frac := x - f as real;
    if frac < 0.5 then f
    else if frac > 0.5 then f + 1
    else if f % 2 == 0 then f
    else f + 1
  }

  /** The two properties of `RoundHalfEven` single out its result. */
  lemma RoundHalfEvenUnique(x: real, k: int)
    requires -0.5 <= x - k as real <= 0.5
    requires x - k as real == 0.5 || x - k as real == -0.5 ==> k % 2 == 0
    ensures k == RoundHalfEven(x)
  {
    var r := RoundHalfEven(x);
    assert -1 <= r - k <= 1;
  }

  /** The label of a vol shock: the sign of the shock and its size rounded. */
  function LabelOf(dv: real): (l: VolLabel)
    ensures l.negative <==> dv < 0.0
    ensures l.points >= 0
    ensures -0.5 <= Abs(dv) - l.points as real <= 0.5
    ensures Abs(dv) - l.points as real == 0.5 || Abs(dv) - l.points as real == -0.5 ==> l.points % 2 == 0
  {
    VolLabel(dv < 0.0, RoundHalfEven(Abs(dv)))
  }

  /** A whole-number shock is labelled by its own sign and size, so whole-number
      shocks never share a column. */
  lemma IntegerLabels(a: int, b: int)
    ensures LabelOf(a as real) == VolLabel(a < 0, if a < 0 then -a else a)
    ensures a != b ==> LabelOf(a as real) != LabelOf(b as real)
  {
    RoundHalfEvenUnique(Abs(a as real), if a < 0 then -a else a);
    RoundHalfEvenUnique(Abs(b as real), if b < 0 then -b else b);
  }

  /** Shocks that round alike share a column, and a later one overwrites an earlier
      one: 0.4 and 0.5 both read `+0`, while -0.4 reads `-0`. */
  lemma SharedLabels()
    ensures LabelOf(0.4) == LabelOf(0.0) == LabelOf(0.5) == VolLabel(false, 0)
    ensures LabelOf(-0.4) == VolLabel(true, 0) != LabelOf(0.0)
    ensures LabelOf(2.5) == LabelOf(2.0) == LabelOf(1.5)
  {
    RoundHalfEvenUnique(0.4, 0);
    RoundHalfEvenUnique(0.5, 0);
    RoundHalfEvenUnique(2.5, 2);
    RoundHalfEvenUnique(1.5, 2);
    IntegerLabels(0, 0);
    IntegerLabels(2, 2);
  }

  /** The column labels of a list of shocks, in order. */
  function Labels(dvs: seq<real>): (labels: seq<VolLabel>)
    ensures |labels| == |dvs|
    ensures forall j :: 0 <= j < |dvs| ==> labels[j] == LabelOf(dvs[j])
  {
    seq(|dvs|, j requires 0 <= j < |dvs| => LabelOf(dvs[j]))
  }

  /** `[f(x) for x in xs]` where `f` may raise: the first failure is raised. */
  function Collect<X, T>(xs: seq<X>, f: X -> Result<T>): Result<seq<T>>
  {
    if |xs| == 0 then Success([])
    else
      var n := |xs| - 1;
      var front := Collect(xs[..n], f);
      if front.Failure? then front
      else if f(xs[n]).Failure? then Failure(f(xs[n]).error)
      else Success(front.value + [f(xs[n]).value])
  }

  /** A successful collection holds every result, in order. */
  lemma {:induction false} CollectSuccess<X, T>(xs: seq<X>, f: X -> Result<T>)
    requires Collect(xs, f).Success?
    ensures |Collect(xs, f).value| == |xs|
    ensures forall k :: 0 <= k < |xs| ==> f(xs[k]) == Success(Collect(xs, f).value[k])
  {
    if |xs| > 0 {
      var n := |xs| - 1;
      CollectSuccess(xs[..n], f);
      forall k | 0 <= k < n ensures xs[k] == xs[..n][k] { }
    }
  }

  /** A collection fails exactly when some element fails, and then with the error
      of the first element that does. */
  lemma {:induction false} CollectFailure<X, T>(xs: seq<X>, f: X -> Result<T>)
    ensures Collect(xs, f).Failure? <==> exists k :: 0 <= k < |xs| && f(xs[k]).Failure?
    ensures Collect(xs, f).Failure? ==>
      exists k :: 0 <= k < |xs| && f(xs[k]) == Failure(Collect(xs, f).error)
        && forall l :: 0 <= l < k ==> f(xs[l]).Success?
  {
    if |xs| > 0 {
      var n := |xs| - 1;
      CollectFailure(xs[..n], f);
      forall k | 0 <= k < n ensures xs[k] == xs[..n][k] { }
    }
  }

  /** One more element of the collection loop. */
  lemma CollectStep<X, T>(xs: seq<X>, f: X -> Result<T>, k: nat)
    requires k < |xs|
    ensures Collect(xs[..k + 1], f) ==
      if Collect(xs[..k], f).Failure? then Collect(xs[..k], f)
      else if f(xs[k]).Failure? then Failure(f(xs[k]).error)
      else Success(Collect(xs[..k], f).value + [f(xs[k]).value])
  {
    assert xs[..k + 1][..k] == xs[..k];
  }

  /** A failure among the first `k` elements is the failure of the whole collection. */
  lemma {:induction false} CollectFailureExtends<X, T>(xs: seq<X>, f: X -> Result<T>, k: nat)
    requires k <= |xs| && Collect(xs[..k], f).Failure?
    ensures Collect(xs, f) == Collect(xs[..k], f)
  {
    if k == |xs| {
      assert xs[..k] == xs;
    } else {
      var n := |xs| - 1;
      assert xs[..n][..k] == xs[..k];
      CollectFailureExtends(xs[..n], f, k);
    }
  }

  /** The manual parameters of one column: the shock as the ATM change, the user's
      skew and term inputs, and the default volga scale (the user's is not passed
      on). */
  function Shocked(mp: ManualParams, dv: real): (shocked: ManualParams)
    ensures shocked.atmVolChange == dv && shocked.volgaScale == DefaultManual.volgaScale
    ensures shocked.skewChange == mp.skewChange && shocked.termMultiplier == mp.termMultiplier
  {
    ManualParams(dv, mp.skewChange, mp.termMultiplier, DefaultManual.volgaScale)
  }

  /** The manual model is defined for every column once it is for the user's inputs
      (definedness depends on the term multiplier alone). */
  lemma ShockedReady(num: Numerics, mp: ManualParams, dv: real, surfaces: Surfaces)
    requires ManualReady(num, "manual", mp, surfaces)
    ensures ManualReady(num, "manual", Shocked(mp, dv), surfaces)
  {
  }

  /** The total P&L of one manual-mode cell: spot move `spotMove`, vol shock `dv`. */
  function ColumnTotal(num: Numerics, daysTo: DaysTo, surfaces: Surfaces, spotMove: real,
                       mp: ManualParams, dv: real): (r: Result<real>)
    requires Valid(surfaces) && ManualReady(num, "manual", mp, surfaces)
    ensures r.Failure? <==> Interpolate(surfaces, spotMove).Failure?
  {
    ShockedReady(num, mp, dv, surfaces);
    var pnl := PnLSpec(num, daysTo, surfaces, spotMove, "manual", DefaultBeta, Shocked(mp, dv));
    if pnl.Failure? then Failure(pnl.error) else Success(pnl.value.totalPnl)
  }

  /** One manual-mode row: `row[f"vol_{dv:+.0f}"] = total` for each shock in turn;
      it raises only when there is a shock to price and the spot move cannot be
      interpolated. */
  function ManualRowSpec(num: Numerics, daysTo: DaysTo, surfaces: Surfaces, spotMove: real,
                         mp: ManualParams, dvs: seq<real>): (r: Result<seq<(VolLabel, real)>>)
    requires Valid(surfaces) && ManualReady(num, "manual", mp, surfaces)
    ensures r.Failure? <==> |dvs| > 0 && Interpolate(surfaces, spotMove).Failure?
  {
    var f := dv => ColumnTotal(num, daysTo, surfaces, spotMove, mp, dv);
    var totals := Collect(dvs, f);
    CollectFailure(dvs, f);
    if totals.Failure? then Failure(totals.error)
    else
      CollectSuccess(dvs, f);
      Success(PutAll(Labels(dvs), totals.value))
  }

  /** The row for one spot move: it carries that move, has the mode's shape, and
      raises exactly when the move cannot be interpolated and something is priced. */
  function RowSpec(num: Numerics, daysTo: DaysTo, surfaces: Surfaces, mode: string,
                   bp: BetaParams, mp: ManualParams, dvs: seq<real>, spotMove: real): (r: Result<ScenarioRow>)
    requires Valid(surfaces) && (IsBetaMode(mode) || ManualReady(num, "manual", mp, surfaces))
    ensures r.Success? ==> r.value.spotMove == spotMove && (r.value.BetaRow? <==> IsBetaMode(mode))
    ensures r.Failure? <==> Interpolate(surfaces, spotMove).Failure? && (IsBetaMode(mode) || |dvs| > 0)
  {
    if IsBetaMode(mode) then
      var pnl := PnLSpec(num, daysTo, surfaces, spotMove, "beta", bp, DefaultManual);
      if pnl.Failure? then Failure(pnl.error)
      else Success(BetaRow(spotMove, pnl.value.totalPnl, pnl.value.pnlByBucket))
    else
      var row := ManualRowSpec(num, daysTo, surfaces, spotMove, mp, dvs);
      if row.Failure? then Failure(row.error)
      else Success(ManualRow(spotMove, row.value))
  }

  /** The rows for a list of spot moves, in order; the first failure is raised. */
  function Rows(num: Numerics, daysTo: DaysTo, surfaces: Surfaces, moves: seq<real>, mode: string,
                bp: BetaParams, mp: ManualParams, dvs: seq<real>): (r: Result<seq<ScenarioRow>>)
    requires Valid(surfaces) && (IsBetaMode(mode) || ManualReady(num, "manual", mp, surfaces))
    ensures r.Failure? <==>
      exists k :: 0 <= k < |moves| && RowSpec(num, daysTo, surfaces, mode, bp, mp, dvs, moves[k]).Failure?
    ensures r.Success? ==> |r.value| == |moves| && forall k :: 0 <= k < |moves| ==>
      RowSpec(num, daysTo, surfaces, mode, bp, mp, dvs, moves[k]) == Success(r.value[k])
  {
    var f := sm => RowSpec(num, daysTo, surfaces, mode, bp, mp, dvs, sm);
    CollectFailure(moves, f);
    if Collect(moves, f).Success? then
      CollectSuccess(moves, f);
      Collect(moves, f)
    else Collect(moves, f)
  }

  /** `compute_scenario_matrix` with its defaults filled in. */
  function ScenarioMatrixSpec(num: Numerics, daysTo: DaysTo, surfaces: Surfaces,
                              spotMoves: Option<seq<real>>, mode: string,
                              bp: Option<BetaParams>, mp: Option<ManualParams>,
                              volChangesOverride: Option<seq<real>>): (r: Result<seq<ScenarioRow>>)
    requires Valid(surfaces)
    requires IsBetaMode(mode) || ManualReady(num, "manual", mp.GetOr(DefaultManual), surfaces)
    ensures var moves := spotMoves.GetOr(DefaultSpotMoves);
      r.Success? ==> |r.value| == |moves| && forall k :: 0 <= k < |moves| ==>
        r.value[k].spotMove == moves[k] && (r.value[k].BetaRow? <==> IsBetaMode(mode))
  {
    RowsShape(num, daysTo, surfaces, spotMoves.GetOr(DefaultSpotMoves), mode,
              bp.GetOr(DefaultBeta), mp.GetOr(DefaultManual), volChangesOverride.GetOr(DefaultVolChanges));
    Rows(num, daysTo, surfaces, spotMoves.GetOr(DefaultSpotMoves), mode,
         bp.GetOr(DefaultBeta), mp.GetOr(DefaultManual), volChangesOverride.GetOr(DefaultVolChanges))
  }

  /** `compute_scenario_matrix`: one `compute_pnl` per spot move in beta mode, one
      per spot move and vol shock in manual mode. */
  method ComputeScenarioMatrix(num: Numerics, daysTo: DaysTo, surfaces: Surfaces,
                               spotMoves: Option<seq<real>>, mode: string,
                               bp: Option<BetaParams>, mp: Option<ManualParams>,
                               volChangesOverride: Option<seq<real>>) returns (r: Result<seq<ScenarioRow>>)
    requires Valid(surfaces)
    requires IsBetaMode(mode) || ManualReady(num, "manual", mp.GetOr(DefaultManual), surfaces)
    ensures r == ScenarioMatrixSpec(num, daysTo, surfaces, spotMoves, mode, bp, mp, volChangesOverride)
  {
    var moves := if spotMoves.None? then DefaultSpotMoves else spotMoves.value;
    var beta := if bp.None? then DefaultBeta else bp.value;
    var manual := if mp.None? then DefaultManual else mp.value;
    var dvs := if volChangesOverride.None? then DefaultVolChanges else volChangesOverride.value;
    ghost var f := sm => RowSpec(num, daysTo, surfaces, mode, beta, manual, dvs, sm);
    var rows: seq<ScenarioRow> := [];
    for k := 0 to |moves|
      invariant Collect(moves[..k], f) == Success(rows)
    {
      var row := RowAt(num, daysTo, surfaces, mode, beta, manual, dvs, moves[k]);
      CollectStep(moves, f, k);
      if row.Failure? {
        CollectFailureExtends(moves, f, k + 1);
        return Failure(row.error);
      }
      rows := rows + [row.value];
    }
    assert moves[..|moves|] == moves;
    r := Success(rows);
  }

  /** The body of the outer loop: the row of one spot move. */
  method RowAt(num: Numerics, daysTo: DaysTo, surfaces: Surfaces, mode: string,
               bp: BetaParams, mp: ManualParams, dvs: seq<real>, spotMove: real) returns (r: Result<ScenarioRow>)
    requires Valid(surfaces) && (IsBetaMode(mode) || ManualReady(num, "manual", mp, surfaces))
    ensures r == RowSpec(num, daysTo, surfaces, mode, bp, mp, dvs, spotMove)
  {
    if IsBetaMode(mode) {
      var pnl := ComputePnL(num, daysTo, surfaces, spotMove, "beta", bp, DefaultManual);
      if pnl.Failure? {
        return Failure(pnl.error);
      }
      r := Success(BetaRow(spotMove, pnl.value.totalPnl, pnl.value.pnlByBucket));
    } else {
      var row := ManualRowAt(num, daysTo, surfaces, spotMove, mp, dvs);
      if row.Failure? {
        return Failure(row.error);
      }
      r := Success(ManualRow(spotMove, row.value));
    }
  }

  /** The body of the inner loop: the total P&L under one vol shock. */
  method ColumnTotalAt(num: Numerics, daysTo: DaysTo, surfaces: Surfaces, spotMove: real,
                       mp: ManualParams, dv: real) returns (r: Result<real>)
    requires Valid(surfaces) && ManualReady(num, "manual", mp, surfaces)
    ensures r == ColumnTotal(num, daysTo, surfaces, spotMove, mp, dv)
  {
    ShockedReady(num, mp, dv, surfaces);
    var pnl := ComputePnL(num, daysTo, surfaces, spotMove, "manual", DefaultBeta, Shocked(mp, dv));
    if pnl.Failure? {
      return Failure(pnl.error);
    }
    r := Success(pnl.value.totalPnl);
  }

  /** One more column of the inner loop, for any per-shock computation `f`. */
  lemma ManualRowStep(dvs: seq<real>, f: real -> Result<real>, j: nat, totals: seq<real>,
                      row: seq<(VolLabel, real)>, total: real)
    requires j < |dvs| && |totals| == j
    requires Collect(dvs[..j], f) == Success(totals) && row == PutAll(Labels(dvs)[..j], totals)
    requires f(dvs[j]) == Success(total)
    ensures Collect(dvs[..j + 1], f) == Success(totals + [total])
    ensures Put(row, LabelOf(dvs[j]), total) == PutAll(Labels(dvs)[..j + 1], totals + [total])
  {
    CollectStep(dvs, f, j);
    LabelsSnoc(dvs, j);
    PutAllSnoc(Labels(dvs)[..j], totals, LabelOf(dvs[j]), total);
  }

  lemma LabelsSnoc(dvs: seq<real>, j: nat)
    requires j < |dvs|
    ensures Labels(dvs)[..j + 1] == Labels(dvs)[..j] + [LabelOf(dvs[j])]
  {
  }

  /** The inner loop of manual mode: one column per vol shock. */
  method ManualRowAt(num: Numerics, daysTo: DaysTo, surfaces: Surfaces, spotMove: real,
                     mp: ManualParams, dvs: seq<real>) returns (r: Result<seq<(VolLabel, real)>>)
    requires Valid(surfaces) && ManualReady(num, "manual", mp, surfaces)
    ensures r == ManualRowSpec(num, daysTo, surfaces, spotMove, mp, dvs)
  {
    ghost var f := dv => ColumnTotal(num, daysTo, surfaces, spotMove, mp, dv);
    ghost var totals: seq<real> := [];
    var row: seq<(VolLabel, real)> := [];
    for j := 0 to |dvs|
      invariant Collect(dvs[..j], f) == Success(totals) && |totals| == j
      invariant row == PutAll(Labels(dvs)[..j], totals)
    {
      var total := ColumnTotalAt(num, daysTo, surfaces, spotMove, mp, dvs[j]);
      CollectStep(dvs, f, j);
      if total.Failure? {
        CollectFailureExtends(dvs, f, j + 1);
        return Failure(total.error);
      }
      ManualRowStep(dvs, f, j, totals, row, total.value);
      row := Put(row, LabelOf(dvs[j]), total.value);
      totals := totals + [total.value];
    }
    assert dvs[..|dvs|] == dvs;
    assert Labels(dvs)[..|dvs|] == Labels(dvs);
    r := Success(row);
  }

  /** One row per spot move, in order, each carrying its move and shaped by the
      mode; the matrix raises exactly when some move cannot be interpolated (and,
      in manual mode, there is at least one shock to price). */
  lemma RowsShape(num: Numerics, daysTo: DaysTo, surfaces: Surfaces, moves: seq<real>, mode: string,
                  bp: BetaParams, mp: ManualParams, dvs: seq<real>)
    requires Valid(surfaces) && (IsBetaMode(mode) || ManualReady(num, "manual", mp, surfaces))
    ensures var r := Rows(num, daysTo, surfaces, moves, mode, bp, mp, dvs);
      && (r.Failure? <==>
           (IsBetaMode(mode) || |dvs| > 0) && exists k :: 0 <= k < |moves| && Interpolate(surfaces, moves[k]).Failure?)
      && (r.Success? ==>
           && |r.value| == |moves|
           && forall k :: 0 <= k < |moves| ==>
                r.value[k].spotMove == moves[k] && (r.value[k].BetaRow? <==> IsBetaMode(mode)))
  {
    var f := sm => RowSpec(num, daysTo, surfaces, mode, bp, mp, dvs, sm);
    CollectFailure(moves, f);
    if Collect(moves, f).Success? {
      CollectSuccess(moves, f);
    }
  }

  /** A beta-mode row is `compute_pnl`'s total and bucket breakdown at its move, and
      its bucket columns add up to its total. */
  lemma BetaRowContent(num: Numerics, daysTo: DaysTo, surfaces: Surfaces, moves: seq<real>,
                       bp: BetaParams, mp: ManualParams, dvs: seq<real>, k: nat)
    requires Valid(surfaces) && k < |moves|
    requires Rows(num, daysTo, surfaces, moves, "beta", bp, mp, dvs).Success?
    ensures var rows := Rows(num, daysTo, surfaces, moves, "beta", bp, mp, dvs).value;
      var pnl := PnLSpec(num, daysTo, surfaces, moves[k], "beta", bp, DefaultManual);
      && |rows| == |moves| && pnl.Success?
      && rows[k] == BetaRow(moves[k], pnl.value.totalPnl, pnl.value.pnlByBucket)
      && Sum(Values(rows[k].bucketPnl)) == rows[k].totalPnl
  {
    var f := sm => RowSpec(num, daysTo, surfaces, "beta", bp, mp, dvs, sm);
    CollectSuccess(moves, f);
    PnLSpecSuccess(num, daysTo, surfaces, moves[k], "beta", bp, DefaultManual);
    BreakdownTotals(num, daysTo, Interpolate(surfaces, moves[k]).value, moves[k], "beta", bp, DefaultManual);
  }

  /** A manual-mode row has one column per distinct label, and a shock's column
      holds the total P&L under that shock unless a later shock has the same
      label. */
  lemma ManualRowContent(num: Numerics, daysTo: DaysTo, surfaces: Surfaces, spotMove: real,
                         mp: ManualParams, dvs: seq<real>, j: nat)
    requires Valid(surfaces) && ManualReady(num, "manual", mp, surfaces)
    requires ManualRowSpec(num, daysTo, surfaces, spotMove, mp, dvs).Success?
    requires j < |dvs| && forall l :: j < l < |dvs| ==> LabelOf(dvs[l]) != LabelOf(dvs[j])
    ensures var row := ManualRowSpec(num, daysTo, surfaces, spotMove, mp, dvs).value;
      var total := ColumnTotal(num, daysTo, surfaces, spotMove, mp, dvs[j]);
      && Keys(row) == (set l | 0 <= l < |dvs| :: LabelOf(dvs[l]))
      && total.Success?
      && Get(row, LabelOf(dvs[j]), 0.0) == total.value
  {
    LabelledColumns(dvs, dv => ColumnTotal(num, daysTo, surfaces, spotMove, mp, dv), j);
  }

  /** The labelled columns built from the results of any per-shock computation `f`. */
  lemma LabelledColumns(dvs: seq<real>, f: real -> Result<real>, j: nat)
    requires Collect(dvs, f).Success?
    requires j < |dvs| && forall l :: j < l < |dvs| ==> LabelOf(dvs[l]) != LabelOf(dvs[j])
    ensures |Collect(dvs, f).value| == |dvs|
    ensures var row := PutAll(Labels(dvs), Collect(dvs, f).value);
      && Keys(row) == (set l | 0 <= l < |dvs| :: LabelOf(dvs[l]))
      && f(dvs[j]).Success?
      && Get(row, LabelOf(dvs[j]), 0.0) == f(dvs[j]).value
  {
    CollectSuccess(dvs, f);
    var totals := Collect(dvs, f).value;
    PutAllLastWins(Labels(dvs), totals, j, 0.0);
    assert (set l | 0 <= l < |dvs| :: Labels(dvs)[l]) == set l | 0 <= l < |dvs| :: LabelOf(dvs[l]);
  }

  /** The default shocks are whole numbers, so each gets its own column. */
  lemma DefaultLabelsDistinct()
    ensures forall i, j :: 0 <= i < j < |DefaultVolChanges| ==> LabelOf(DefaultVolChanges[i]) != LabelOf(DefaultVolChanges[j])
  {
    var whole := [-5, -3, -1, 0, 1, 3, 5];
    forall i, j | 0 <= i < j < |DefaultVolChanges|
      ensures LabelOf(DefaultVolChanges[i]) != LabelOf(DefaultVolChanges[j])
    {
      assert DefaultVolChanges[i] == whole[i] as real && DefaultVolChanges[j] == whole[j] as real;
      IntegerLabels(whole[i], whole[j]);
    }
  }

  /** The default spot moves run from -7.5% to +7.5% in equal steps of 0.5%. */
  lemma DefaultSpotMovesGrid()
    ensures |DefaultSpotMoves| == 31
    ensures forall k :: 0 <= k < 31 ==> DefaultSpotMoves[k] == -0.075 + (k as real) * 0.005
  {
  }
}
