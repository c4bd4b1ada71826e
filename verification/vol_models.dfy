/** The volatility scenario models (`beta_vol_change`, `manual_vol_change`,
    `compute_vol_change_grid`): per cell, a first-order vol change dSigma and a
    second-order (volga) P&L per unit of vega. */
module VolModels {
  import opened Numbers
  import opened VegaGrids

  /** `BetaParams`: the calibrated spot-vol beta model. */
  datatype BetaParams = BetaParams(
    spotVolBeta: real,
    skewBeta: real,
    termDecay: real,
    convexity: real,
    volgaScale: real,
    termFloor: real)

  const DefaultBeta: BetaParams := BetaParams(-0.40, 0.15, 0.50, 2.0, 0.15, 0.08)

  /** `ManualParams`: user-entered vol shocks. */
  datatype ManualParams = ManualParams(
    atmVolChange: real,
    skewChange: real,
    termMultiplier: real,
    volgaScale: real)

  const DefaultManual: ManualParams := ManualParams(0.0, 0.1, 0.5, 0.15)

  /** The transcendental functions the models call (`np.exp`, `np.log`,
      `np.sqrt`); nothing is assumed about their values. */
  datatype Numerics = Numerics(exp: real -> real, ln: real -> real, sqrt: real -> real)

  /** The pair a model returns for one (moneyness, expiry) node. */
  datatype VolChange = VolChange(dSigma: real, volga: real)

  /** The volatility level the volga estimate assumes. */
  const SigmaApprox: real := 0.20

  /** The volga factor cap. */
  const VolgaCap: real := 10.0

  /** The spot move in percentage points. */
  function SpotPoints(spotMove: real): (dS: real)
    ensures dS == 0.0 <==> spotMove == 0.0
    ensures Sign(dS) == Sign(spotMove)
  {
    spotMove * 100.0
  }

  /** ATM vol change: linear beta term plus a convexity term in the squared move. */
  function AtmChange(p: BetaParams, dS: real): (r: real)
    ensures dS == 0.0 ==> r == 0.0
    ensures p.convexity >= 0.0 ==> r >= p.spotVolBeta * dS
  {
    p.spotVolBeta * dS + p.convexity * dS * dS * 0.01
  }

  /** Skew multiplier: OTM puts (moneyness below 1) get more vol on down moves;
      always clipped to [0.5, 2.0], and neutral at the money or without a move. */
  function SkewFactor(p: BetaParams, moneyness: real, dS: real): (r: real)
    ensures 0.5 <= r <= 2.0
    ensures moneyness == 1.0 || dS == 0.0 ==> r == 1.0
  {
    Clip(1.0 - p.skewBeta * (moneyness - 1.0) * Sign(-dS), 0.5, 2.0)
  }

  /** Term structure: exponential decay in years to expiry, floored. */
  function BetaTermFactor(num: Numerics, p: BetaParams, years: real): (r: real)
    ensures r >= p.termFloor && r >= num.exp(-p.termDecay * years)
    ensures r == p.termFloor || r == num.exp(-p.termDecay * years)
  {
    Max(p.termFloor, num.exp(-p.termDecay * years))
  }

  /** `min(log(max(m, 0.01))^2 / (0.2^2 * max(T, 0.01)), 10)`: never negative,
      never above the cap. */
  function VolgaFactor(num: Numerics, moneyness: real, years: real): (r: real)
    ensures 0.0 <= r <= VolgaCap
  {
    var logM := num.ln(Max(moneyness, 0.01));
    var denominator := SigmaApprox * SigmaApprox * Max(years, 0.01);
    SquareOverPositive(logM, denominator);
    Min(logM * logM / denominator, VolgaCap)
  }

  lemma SquareOverPositive(x: real, d: real)
    requires d > 0.0
    ensures x * x / d >= 0.0
  {
    assert x * x >= 0.0;
  }

  /** The volga P&L per unit of vega, `0.5 * factor * dSigma^2 * scale`: zero
      without a vol change, of the sign of the scale otherwise, and at most
      `0.5 * 10 * dSigma^2 * |scale|` in size. */
  function VolgaPnL(num: Numerics, moneyness: real, years: real, dSigma: real, scale: real): (r: real)
    ensures dSigma == 0.0 ==> r == 0.0
    ensures scale >= 0.0 ==> r >= 0.0
    ensures scale <= 0.0 ==> r <= 0.0
    ensures Abs(r) <= 5.0 * dSigma * dSigma * Abs(scale)
  {
    var f := VolgaFactor(num, moneyness, years);
    VolgaBound(f, dSigma * dSigma, scale);
    0.5 * f * dSigma * dSigma * scale
  }

  lemma VolgaBound(f: real, sq: real, scale: real)
    requires 0.0 <= f <= VolgaCap && sq >= 0.0
    ensures scale >= 0.0 ==> 0.5 * f * sq * scale >= 0.0
    ensures scale <= 0.0 ==> 0.5 * f * sq * scale <= 0.0
    ensures Abs(0.5 * f * sq * scale) <= 5.0 * sq * Abs(scale)
  {
    var a := Abs(scale);
    var w := sq * a;
    var k := 0.5 * f * sq;
    MulMonotone(0.0, f, sq);
    assert 0.0 <= k;
    AbsMul(k, scale);
    assert 0.0 <= w;
    MulMonotone(f, VolgaCap, w);
    calc {
      Abs(0.5 * f * sq * scale);
    ==
      Abs(k) * a;
    ==
      0.5 * (f * w);
    <=
      0.5 * (VolgaCap * w);
    ==
      5.0 * sq * a;
    }
  }

  /** `beta_vol_change`. */
  function BetaVolChange(num: Numerics, p: BetaParams, moneyness: real, years: real, spotMove: real): (r: VolChange)
    ensures spotMove == 0.0 ==> r == VolChange(0.0, 0.0)
    ensures p.termFloor > 0.0 ==> Sign(r.dSigma) == Sign(AtmChange(p, SpotPoints(spotMove)))
    ensures Abs(r.dSigma) <= 2.0 * Abs(AtmChange(p, SpotPoints(spotMove))) * Abs(BetaTermFactor(num, p, years))
    ensures r.volga == VolgaPnL(num, moneyness, years, r.dSigma, p.volgaScale)
  {
    var dS := SpotPoints(spotMove);
    var atm := AtmChange(p, dS);
    var skew := SkewFactor(p, moneyness, dS);
    var term := BetaTermFactor(num, p, years);
    var dSigma := atm * skew * term;
    ProductBounds(atm, skew, term);
    VolChange(dSigma, VolgaPnL(num, moneyness, years, dSigma, p.volgaScale))
  }

  /** A skew factor in [0.5, 2] at most doubles the size, and a positive skew and
      term factor keep the sign. */
  lemma ProductBounds(atm: real, skew: real, term: real)
    requires 0.5 <= skew <= 2.0
    ensures Abs(atm * skew * term) <= 2.0 * Abs(atm) * Abs(term)
    ensures term > 0.0 ==> Sign(atm * skew * term) == Sign(atm)
  {
    var a, t := Abs(atm), Abs(term);
    AbsMul(atm * skew, term);
    AbsMul(atm, skew);
    assert Abs(skew) == skew;
    assert Abs(atm * skew) == a * skew;
    assert 0.0 <= a * t;
    MulMonotone(skew, 2.0, a * t);
    calc {
      Abs(atm * skew * term);
    ==
      (a * skew) * t;
    ==
      skew * (a * t);
    <=
      2.0 * (a * t);
    ==
      2.0 * a * t;
    }
    SignMulPositive(atm, skew);
    if term > 0.0 {
      SignMulPositive(atm * skew, term);
    }
  }

  /** The manual model's term damping `1 / (1 + tm * sqrt(T))` is defined. */
  predicate ManualDefined(num: Numerics, termMultiplier: real, years: real)
  {
    1.0 + termMultiplier * num.sqrt(years) != 0.0
  }

  /** Term damping of the manual model: with a non-negative multiplier and root
      it lies in (0, 1]. */
  function ManualTermFactor(num: Numerics, termMultiplier: real, years: real): (r: real)
    requires ManualDefined(num, termMultiplier, years)
    ensures r * (1.0 + termMultiplier * num.sqrt(years)) == 1.0
    ensures termMultiplier >= 0.0 && num.sqrt(years) >= 0.0 ==> 0.0 < r <= 1.0
  {
    var d := 1.0 + termMultiplier * num.sqrt(years);
    if termMultiplier >= 0.0 && num.sqrt(years) >= 0.0 then
      assert termMultiplier * num.sqrt(years) >= 0.0;
      ReciprocalAtMostOne(d);
      1.0 / d
    else
      1.0 / d
  }

  lemma ReciprocalAtMostOne(d: real)
    requires d >= 1.0
    ensures 0.0 < 1.0 / d <= 1.0
  {
    var r := 1.0 / d;
    assert r * d == 1.0;
    PositiveFactor(r, d);
    assert (1.0 - r) * d == d - 1.0;
    NonnegFactor(1.0 - r, d);
  }

  /** `manual_vol_change`: a parallel shift plus a skew tilt, damped by tenor; it
      takes no spot move at all. */
  function ManualVolChange(num: Numerics, p: ManualParams, moneyness: real, years: real): (r: VolChange)
    requires ManualDefined(num, p.termMultiplier, years)
    ensures p.termMultiplier >= 0.0 && num.sqrt(years) >= 0.0 ==>
      Abs(r.dSigma) <= Abs(p.atmVolChange + p.skewChange * (moneyness - 1.0))
      && Sign(r.dSigma) == Sign(p.atmVolChange + p.skewChange * (moneyness - 1.0))
    ensures r.volga == VolgaPnL(num, moneyness, years, r.dSigma, p.volgaScale)
  {
    var shock := p.atmVolChange + p.skewChange * (moneyness - 1.0);
    var term := ManualTermFactor(num, p.termMultiplier, years);
    var dSigma := shock * term;
    DampedBounds(shock, term);
    VolChange(dSigma, VolgaPnL(num, moneyness, years, dSigma, p.volgaScale))
  }

  lemma DampedBounds(x: real, f: real)
    ensures 0.0 < f <= 1.0 ==> Abs(x * f) <= Abs(x) && Sign(x * f) == Sign(x)
  {
    if 0.0 < f <= 1.0 {
      var ax := Abs(x);
      AbsMul(x, f);
      assert Abs(f) == f;
      assert Abs(x * f) == ax * f;
      MulMonotone(f, 1.0, ax);
      assert f * ax <= ax;
      SignMulPositive(x, f);
    }
  }

  /** `vol_mode == "beta"`; every other mode string selects the manual model. */
  predicate IsBetaMode(mode: string)
  {
    mode == "beta"
  }

  /** The manual model is defined at every expiry of the grid. */
  predicate ManualDefinedOn(num: Numerics, mp: ManualParams, years: seq<real>)
  {
    forall j :: 0 <= j < |years| ==> ManualDefined(num, mp.termMultiplier, years[j])
  }

  /** The model a mode selects, at one node. */
  function CellVolChange(num: Numerics, mode: string, bp: BetaParams, mp: ManualParams,
                         moneyness: real, years: real, spotMove: real): (r: VolChange)
    requires !IsBetaMode(mode) ==> ManualDefined(num, mp.termMultiplier, years)
    ensures IsBetaMode(mode) ==> r == BetaVolChange(num, bp, moneyness, years, spotMove)
    ensures !IsBetaMode(mode) ==> r == ManualVolChange(num, mp, moneyness, years)
  {
    if IsBetaMode(mode) then BetaVolChange(num, bp, moneyness, years, spotMove)
    else ManualVolChange(num, mp, moneyness, years)
  }

  /** The vol change matrix of a grid: row i is moneyness i, column j expiry j. */
  function DSigmaMatrix(num: Numerics, mode: string, bp: BetaParams, mp: ManualParams,
                        moneyness: seq<real>, years: seq<real>, spotMove: real): (rows: seq<seq<real>>)
    requires !IsBetaMode(mode) ==> ManualDefinedOn(num, mp, years)
    ensures |rows| == |moneyness| && Rectangular(rows, |years|)
  {
    seq(|moneyness|, i requires 0 <= i < |moneyness| =>
      seq(|years|, j requires 0 <= j < |years| =>
        CellVolChange(num, mode, bp, mp, moneyness[i], years[j], spotMove).dSigma))
  }

  /** The volga P&L matrix of a grid, laid out like `DSigmaMatrix`. */
  function VolgaMatrix(num: Numerics, mode: string, bp: BetaParams, mp: ManualParams,
                       moneyness: seq<real>, years: seq<real>, spotMove: real): (rows: seq<seq<real>>)
    requires !IsBetaMode(mode) ==> ManualDefinedOn(num, mp, years)
    ensures |rows| == |moneyness| && Rectangular(rows, |years|)
  {
    seq(|moneyness|, i requires 0 <= i < |moneyness| =>
      seq(|years|, j requires 0 <= j < |years| =>
        CellVolChange(num, mode, bp, mp, moneyness[i], years[j], spotMove).volga))
  }

  /** Cell (i, j) of the two matrices is the model's answer at moneyness i, expiry j. */
  lemma MatrixCell(num: Numerics, mode: string, bp: BetaParams, mp: ManualParams,
                   moneyness: seq<real>, years: seq<real>, spotMove: real, i: nat, j: nat)
    requires !IsBetaMode(mode) ==> ManualDefinedOn(num, mp, years)
    requires i < |moneyness| && j < |years|
    ensures var c := CellVolChange(num, mode, bp, mp, moneyness[i], years[j], spotMove);
      && DSigmaMatrix(num, mode, bp, mp, moneyness, years, spotMove)[i][j] == c.dSigma
      && VolgaMatrix(num, mode, bp, mp, moneyness, years, spotMove)[i][j] == c.volga
  {
  }

  /** `compute_vol_change_grid`: fills the two n x m matrices cell by cell. */
  method ComputeVolChangeGrid(num: Numerics, grid: VegaGrid, spotMove: real, mode: string,
                              bp: BetaParams, mp: ManualParams)
    returns (volChanges: seq<seq<real>>, volga: seq<seq<real>>)
    requires WellFormed(grid)
    requires !IsBetaMode(mode) ==> ManualDefinedOn(num, mp, grid.expiryYears)
    ensures volChanges == DSigmaMatrix(num, mode, bp, mp, grid.moneyness, grid.expiryYears, spotMove)
    ensures volga == VolgaMatrix(num, mode, bp, mp, grid.moneyness, grid.expiryYears, spotMove)
  {
    var n, m := |grid.moneyness|, |grid.expiryYears|;
    var dSigmas := new real[n, m];
    var volgas := new real[n, m];
    for i := 0 to n
      invariant forall k, l :: 0 <= k < i && 0 <= l < m ==>
        var c := CellVolChange(num, mode, bp, mp, grid.moneyness[k], grid.expiryYears[l], spotMove);
        dSigmas[k, l] == c.dSigma && volgas[k, l] == c.volga
    {
      FillRow(num, grid, spotMove, mode, bp, mp, dSigmas, volgas, i);
    }
    volChanges := seq(n, i requires 0 <= i < n reads dSigmas =>
      seq(m, j requires 0 <= j < m reads dSigmas => dSigmas[i, j]));
    volga := seq(n, i requires 0 <= i < n reads volgas =>
      seq(m, j requires 0 <= j < m reads volgas => volgas[i, j]));
    forall i | 0 <= i < n
      ensures volChanges[i] == DSigmaMatrix(num, mode, bp, mp, grid.moneyness, grid.expiryYears, spotMove)[i]
      ensures volga[i] == VolgaMatrix(num, mode, bp, mp, grid.moneyness, grid.expiryYears, spotMove)[i]
    {
    }
  }

  /** One moneyness row of `compute_vol_change_grid`: row `i` of both buffers
      receives the cell results, every other row is left as it was. */
  method FillRow(num: Numerics, grid: VegaGrid, spotMove: real, mode: string,
                 bp: BetaParams, mp: ManualParams, dSigmas: array2<real>, volgas: array2<real>, i: nat)
    requires WellFormed(grid) && i < |grid.moneyness|
    requires !IsBetaMode(mode) ==> ManualDefinedOn(num, mp, grid.expiryYears)
    requires dSigmas != volgas
    requires dSigmas.Length0 == volgas.Length0 == |grid.moneyness|
    requires dSigmas.Length1 == volgas.Length1 == |grid.expiryYears|
    modifies dSigmas, volgas
    ensures forall l :: 0 <= l < |grid.expiryYears| ==>
      var c := CellVolChange(num, mode, bp, mp, grid.moneyness[i], grid.expiryYears[l], spotMove);
      dSigmas[i, l] == c.dSigma && volgas[i, l] == c.volga
    ensures forall k, l :: 0 <= k < |grid.moneyness| && k != i && 0 <= l < |grid.expiryYears| ==>
      dSigmas[k, l] == old(dSigmas[k, l]) && volgas[k, l] == old(volgas[k, l])
  {
    for j := 0 to |grid.expiryYears|
      invariant forall l :: 0 <= l < j ==>
        var c := CellVolChange(num, mode, bp, mp, grid.moneyness[i], grid.expiryYears[l], spotMove);
        dSigmas[i, l] == c.dSigma && volgas[i, l] == c.volga
      invariant forall k, l :: 0 <= k < |grid.moneyness| && k != i && 0 <= l < |grid.expiryYears| ==>
        dSigmas[k, l] == old(dSigmas[k, l]) && volgas[k, l] == old(volgas[k, l])
    {
      var c: VolChange;
      if IsBetaMode(mode) {
        c := BetaVolChange(num, bp, grid.moneyness[i], grid.expiryYears[j], spotMove);
      } else {
        c := ManualVolChange(num, mp, grid.moneyness[i], grid.expiryYears[j]);
      }
      dSigmas[i, j] := c.dSigma;
      volgas[i, j] := c.volga;
    }
  }

  /** In manual mode the vol change grid does not depend on the spot move. */
  lemma ManualIgnoresSpot(num: Numerics, mode: string, bp: BetaParams, mp: ManualParams,
                          moneyness: seq<real>, years: seq<real>, spotMove1: real, spotMove2: real)
    requires !IsBetaMode(mode) && ManualDefinedOn(num, mp, years)
    ensures DSigmaMatrix(num, mode, bp, mp, moneyness, years, spotMove1)
      == DSigmaMatrix(num, mode, bp, mp, moneyness, years, spotMove2)
    ensures VolgaMatrix(num, mode, bp, mp, moneyness, years, spotMove1)
      == VolgaMatrix(num, mode, bp, mp, moneyness, years, spotMove2)
  {
    var a := DSigmaMatrix(num, mode, bp, mp, moneyness, years, spotMove1);
    var b := DSigmaMatrix(num, mode, bp, mp, moneyness, years, spotMove2);
    forall i | 0 <= i < |moneyness| ensures a[i] == b[i] { }
    var c := VolgaMatrix(num, mode, bp, mp, moneyness, years, spotMove1);
    var d := VolgaMatrix(num, mode, bp, mp, moneyness, years, spotMove2);
    forall i | 0 <= i < |moneyness| ensures c[i] == d[i] { }
  }

  /** In beta mode a zero spot move changes no vol and produces no volga. */
  lemma BetaFlatAtZero(num: Numerics, bp: BetaParams, mp: ManualParams, moneyness: seq<real>, years: seq<real>)
    ensures forall i, j :: 0 <= i < |moneyness| && 0 <= j < |years| ==>
      DSigmaMatrix(num, "beta", bp, mp, moneyness, years, 0.0)[i][j] == 0.0
      && VolgaMatrix(num, "beta", bp, mp, moneyness, years, 0.0)[i][j] == 0.0
  {
    forall i, j | 0 <= i < |moneyness| && 0 <= j < |years|
      ensures DSigmaMatrix(num, "beta", bp, mp, moneyness, years, 0.0)[i][j] == 0.0
      ensures VolgaMatrix(num, "beta", bp, mp, moneyness, years, 0.0)[i][j] == 0.0
    {
      assert BetaVolChange(num, bp, moneyness[i], years[j], 0.0) == VolChange(0.0, 0.0);
    }
  }

  /** With the default beta parameters, an at-the-money node after a 5% fall gets
      an ATM move of 2.5 vol points (2.0 from beta, 0.5 from convexity), scaled by
      the floored term factor, and no volga when log(1) is 0. */
  lemma BetaDefaultDownFive(num: Numerics, years: real)
    ensures BetaVolChange(num, DefaultBeta, 1.0, years, -0.05).dSigma
      == 2.5 * Max(0.08, num.exp(-0.5 * years))
    ensures num.ln(1.0) == 0.0 ==> BetaVolChange(num, DefaultBeta, 1.0, years, -0.05).volga == 0.0
  {
    assert AtmChange(DefaultBeta, SpotPoints(-0.05)) == 2.5;
  }
}
