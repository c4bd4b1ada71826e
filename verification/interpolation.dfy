/** The interpolation engine (`interpolate_vega_grid`, linear path): a grid at an
    arbitrary spot move, blended cell by cell between the two surfaces whose shift
    levels bracket the clamped move. */
module Interpolation {
  import opened Wrappers
  import opened Numbers
  import opened VegaGrids

  /** The surface dict (`Dict[float, VegaGrid]`) as its entries, in any order, with
      no shift level twice. */
  type Surfaces = seq<(real, VegaGrid)>

  predicate DistinctShifts(surfaces: Surfaces)
  {
    forall i, j :: 0 <= i < j < |surfaces| ==> surfaces[i].0 != surfaces[j].0
  }

  predicate Valid(surfaces: Surfaces)
  {
    && DistinctShifts(surfaces)
    && forall i :: 0 <= i < |surfaces| ==> WellFormed(surfaces[i].1)
  }

  /** `shift in surfaces`. */
  predicate HasShift(surfaces: Surfaces, shift: real)
  {
    exists i :: 0 <= i < |surfaces| && surfaces[i].0 == shift
  }

  /** `surfaces[shift]`. */
  function GridAt(surfaces: Surfaces, shift: real): (g: VegaGrid)
    requires HasShift(surfaces, shift)
    ensures exists i :: 0 <= i < |surfaces| && surfaces[i] == (shift, g)
  {
    var n := |surfaces| - 1;
    if surfaces[n].0 == shift then surfaces[n].1
    else
      assert HasShift(surfaces[..n], shift) by {
        var i :| 0 <= i < |surfaces| && surfaces[i].0 == shift;
        assert surfaces[..n][i].0 == shift;
      }
      var g := GridAt(surfaces[..n], shift);
      assert exists i :: 0 <= i < |surfaces| && surfaces[i] == (shift, g) by {
        var i :| 0 <= i < n && surfaces[..n][i] == (shift, g);
        assert surfaces[i] == (shift, g);
      }
      g
  }

  /** With distinct shifts, the grid stored under a shift is the one found for it. */
  lemma GridAtEntry(surfaces: Surfaces, i: nat)
    requires DistinctShifts(surfaces) && i < |surfaces|
    ensures HasShift(surfaces, surfaces[i].0) && GridAt(surfaces, surfaces[i].0) == surfaces[i].1
  {
    var j :| 0 <= j < |surfaces| && surfaces[j] == (surfaces[i].0, GridAt(surfaces, surfaces[i].0));
    assert i == j;
  }

  /** The smallest shift level (`sorted(shifts)[0]`). */
  function MinShift(surfaces: Surfaces): (m: real)
    requires |surfaces| > 0
    ensures HasShift(surfaces, m)
    ensures forall i :: 0 <= i < |surfaces| ==> m <= surfaces[i].0
  {
    var n := |surfaces| - 1;
    if n == 0 then surfaces[0].0
    else
      var m := MinShift(surfaces[..n]);
      assert forall i :: 0 <= i < n ==> surfaces[i] == surfaces[..n][i];
      if surfaces[n].0 < m then surfaces[n].0 else m
  }

  /** The largest shift level (`sorted(shifts)[-1]`). */
  function MaxShift(surfaces: Surfaces): (m: real)
    requires |surfaces| > 0
    ensures HasShift(surfaces, m)
    ensures forall i :: 0 <= i < |surfaces| ==> surfaces[i].0 <= m
  {
    var n := |surfaces| - 1;
    if n == 0 then surfaces[0].0
    else
      var m := MaxShift(surfaces[..n]);
      assert forall i :: 0 <= i < n ==> surfaces[i] == surfaces[..n][i];
      if m < surfaces[n].0 then surfaces[n].0 else m
  }

  /** The largest shift level strictly below `c`, if any. */
  function GreatestBelow(surfaces: Surfaces, c: real): (r: Option<real>)
    ensures r.None? <==> forall i :: 0 <= i < |surfaces| ==> c <= surfaces[i].0
    ensures r.Some? ==> HasShift(surfaces, r.value) && r.value < c
    ensures r.Some? ==> forall i :: 0 <= i < |surfaces| && surfaces[i].0 < c ==> surfaces[i].0 <= r.value
  {
    if |surfaces| == 0 then None
    else
      var n := |surfaces| - 1;
      var r := GreatestBelow(surfaces[..n], c);
      assert forall i :: 0 <= i < n ==> surfaces[i] == surfaces[..n][i];
      var s := surfaces[n].0;
      if s < c && (r.None? || r.value < s) then Some(s) else r
  }

  /** The smallest shift level strictly above `c`, if any. */
  function LeastAbove(surfaces: Surfaces, c: real): (r: Option<real>)
    ensures r.None? <==> forall i :: 0 <= i < |surfaces| ==> surfaces[i].0 <= c
    ensures r.Some? ==> HasShift(surfaces, r.value) && c < r.value
    ensures r.Some? ==> forall i :: 0 <= i < |surfaces| && c < surfaces[i].0 ==> r.value <= surfaces[i].0
  {
    if |surfaces| == 0 then None
    else
      var n := |surfaces| - 1;
      var r := LeastAbove(surfaces[..n], c);
      assert forall i :: 0 <= i < n ==> surfaces[i] == surfaces[..n][i];
      var s := surfaces[n].0;
      if c < s && (r.None? || s < r.value) then Some(s) else r
  }

  /** The requested move clamped into the range of available shift levels. */
  function ClampedMove(surfaces: Surfaces, spotMove: real): (c: real)
    requires |surfaces| > 0
    ensures MinShift(surfaces) <= c <= MaxShift(surfaces)
    ensures MinShift(surfaces) <= spotMove <= MaxShift(surfaces) ==> c == spotMove
    ensures spotMove < MinShift(surfaces) ==> c == MinShift(surfaces)
    ensures MaxShift(surfaces) < spotMove ==> c == MaxShift(surfaces)
  {
    Clip(spotMove, MinShift(surfaces), MaxShift(surfaces))
  }

  /** Every cell (i, j) with i < n and j < m can be read from `g` without an
      `IndexError`. */
  predicate Covers(g: VegaGrid, n: nat, m: nat)
  {
    n == 0 || m == 0 || (|g.values| >= n && |g.expiries| >= m)
  }

  /** No surface is too small for an n x m blend. */
  predicate CoversAll(surfaces: Surfaces, n: nat, m: nat)
  {
    forall i :: 0 <= i < |surfaces| ==> Covers(surfaces[i].1, n, m)
  }

  /** `g`'s expiry axis is that of one of the surfaces. */
  predicate ExpiryAxisOf(surfaces: Surfaces, g: VegaGrid)
  {
    exists i :: 0 <= i < |surfaces| && g.expiryYears == surfaces[i].1.expiryYears
  }

  /** The linear blend of one cell at fraction `t` between two shift levels. */
  function BlendCell(v0: real, v1: real, t: real): real
  {
    v0 + t * (v1 - v0)
  }

  /** The blending fraction: how far `c` lies along the way from level `s0` to
      level `s1`. */
  function Fraction(c: real, s0: real, s1: real): real
    requires s0 < s1
  {
    (c - s0) / (s1 - s0)
  }

  /** The value stored at row `i`, column `j` of `g`; the blend reads only cells
      that the shape check has shown to exist, and 0.0 stands for any other. */
  function Cell(g: VegaGrid, i: nat, j: nat): (v: real)
    ensures i < |g.values| && j < |g.values[i]| ==> v == g.values[i][j]
  {
    if i < |g.values| && j < |g.values[i]| then g.values[i][j] else 0.0
  }

  /** The n x m matrix blended cell by cell with one shared fraction `t`. */
  function Blend(lower: VegaGrid, upper: VegaGrid, t: real, n: nat, m: nat): (cells: seq<seq<real>>)
    ensures |cells| == n && Rectangular(cells, m)
  {
    seq(n, i requires 0 <= i < n =>
      seq(m, j requires 0 <= j < m => BlendCell(Cell(lower, i, j), Cell(upper, i, j), t)))
  }

  /** A grid whose totals are recomputed from `cells`, laid out on `ref`'s axes. */
  function Summarise(ref: VegaGrid, cells: seq<seq<real>>, spotMove: real): (g: VegaGrid)
    requires |cells| == |ref.moneyness| && |ref.expiryYears| == |ref.expiries|
    requires Rectangular(cells, |ref.expiries|)
    ensures WellFormed(g) && TotalsConsistent(g)
    ensures g.values == cells && g.spotShift == spotMove
    ensures g.moneyness == ref.moneyness && g.expiries == ref.expiries && g.expiryYears == ref.expiryYears
    ensures Sum(g.rowTotals) == g.total && Sum(g.colTotals) == g.total
  {
    ColumnSumsTotal(cells, |ref.expiries|);
    VegaGrid(spotMove, ref.moneyness, ref.expiries, ref.expiryYears, cells,
      RowSums(cells), ColSums(cells, |ref.expiries|), GrandTotal(cells))
  }

  /** The interpolated grid at `spotMove`. */
  function Interpolate(surfaces: Surfaces, spotMove: real): (r: Result<VegaGrid>)
    requires Valid(surfaces)
    ensures r == Failure(NoSurfaces) <==> |surfaces| == 0
    ensures |surfaces| == 1 ==> r == Success(surfaces[0].1)
    ensures |surfaces| >= 2 && r.Success? ==> r.value.spotShift == spotMove
    ensures r.Success? ==> WellFormed(r.value)
    ensures r.Success? ==> ExpiryAxisOf(surfaces, r.value)
  {
    if |surfaces| == 0 then Failure(NoSurfaces)
    else if |surfaces| == 1 then Success(surfaces[0].1)
    else
      var c := ClampedMove(surfaces, spotMove);
      if HasShift(surfaces, c) then Success(GridAt(surfaces, c).(spotShift := spotMove))
      else BlendAt(surfaces, c, spotMove)
  }

  /** The blending path: `c` lies strictly between the lowest and the highest shift
      level and is none of them. */
  function BlendAt(surfaces: Surfaces, c: real, spotMove: real): (r: Result<VegaGrid>)
    requires Valid(surfaces) && |surfaces| > 0
    requires MinShift(surfaces) < c < MaxShift(surfaces) && !HasShift(surfaces, c)
    ensures r.Failure? ==> r.error == ShapeMismatch
    ensures r.Success? ==> WellFormed(r.value) && r.value.spotShift == spotMove
    ensures r.Success? ==> r.value.expiryYears == GridAt(surfaces, MinShift(surfaces)).expiryYears
  {
    var ref := GridAt(surfaces, MinShift(surfaces));
    var n, m := |ref.values|, |ref.expiries|;
    if !CoversAll(surfaces, n, m) then Failure(ShapeMismatch)
    else
      var s0 := GreatestBelow(surfaces, c).value;
      var s1 := LeastAbove(surfaces, c).value;
      var t := Fraction(c, s0, s1);
      Success(Summarise(ref, Blend(GridAt(surfaces, s0), GridAt(surfaces, s1), t, n, m), spotMove))
  }

  /** `interpolate_vega_grid(surfaces, spot_move, "linear")`, filling the blended
      matrix cell by cell. */
  method InterpolateVegaGrid(surfaces: Surfaces, spotMove: real) returns (r: Result<VegaGrid>)
    requires Valid(surfaces)
    ensures r == Interpolate(surfaces, spotMove)
  {
    if |surfaces| == 0 {
      return Failure(NoSurfaces);
    }
    if |surfaces| == 1 {
      return Success(surfaces[0].1);
    }
    var clamped := ClampedMove(surfaces, spotMove);
    if HasShift(surfaces, clamped) {
      return Success(GridAt(surfaces, clamped).(spotShift := spotMove));
    }
    var ref := GridAt(surfaces, MinShift(surfaces));
    var n, m := |ref.values|, |ref.expiries|;
    if !CoversAll(surfaces, n, m) {
      return Failure(ShapeMismatch);
    }
    var s0 := GreatestBelow(surfaces, clamped).value;
    var s1 := LeastAbove(surfaces, clamped).value;
    var lower, upper := GridAt(surfaces, s0), GridAt(surfaces, s1);
    var t := Fraction(clamped, s0, s1);
    var rows := BlendCells(lower, upper, t, n, m);
    r := Success(Summarise(ref, rows, spotMove));
  }

  /** The nested loop of the blending path: `interp_values` starts as an n x m
      matrix of zeros and receives one blended value per cell. */
  method BlendCells(lower: VegaGrid, upper: VegaGrid, t: real, n: nat, m: nat) returns (rows: seq<seq<real>>)
    requires WellFormed(lower) && WellFormed(upper)
    requires Covers(lower, n, m) && Covers(upper, n, m)
    ensures rows == Blend(lower, upper, t, n, m)
  {
    var cells := new real[n, m];
    for i := 0 to n
      invariant forall k, l :: 0 <= k < i && 0 <= l < m ==>
        cells[k, l] == BlendCell(lower.values[k][l], upper.values[k][l], t)
    {
      for j := 0 to m
        invariant forall k, l :: 0 <= k < i && 0 <= l < m ==>
          cells[k, l] == BlendCell(lower.values[k][l], upper.values[k][l], t)
        invariant forall l :: 0 <= l < j ==>
          cells[i, l] == BlendCell(lower.values[i][l], upper.values[i][l], t)
      {
        cells[i, j] := lower.values[i][j] + t * (upper.values[i][j] - lower.values[i][j]);
      }
    }
    rows := seq(n, i requires 0 <= i < n reads cells =>
      seq(m, j requires 0 <= j < m reads cells => cells[i, j]));
    forall i | 0 <= i < n ensures rows[i] == Blend(lower, upper, t, n, m)[i] {
    }
  }

  /** The surface at the lowest shift level, which gives a blended grid its axes. */
  function Lowest(surfaces: Surfaces): (g: VegaGrid)
    requires |surfaces| > 0
    ensures exists i :: 0 <= i < |surfaces| && surfaces[i] == (MinShift(surfaces), g)
  {
    GridAt(surfaces, MinShift(surfaces))
  }

  /** The same result reported at another requested move. */
  function Relabel(r: Result<VegaGrid>, spotMove: real): Result<VegaGrid>
  {
    if r.Success? then Success(r.value.(spotShift := spotMove)) else r
  }

  /** Clamping: any request is answered as the clamped request would be, except
      that the grid reports the move that was asked for. In particular a request
      below the lowest (above the highest) level yields the values and totals of a
      request at that level. */
  lemma ClampEquivalence(surfaces: Surfaces, spotMove: real)
    requires Valid(surfaces) && |surfaces| >= 2
    ensures Interpolate(surfaces, spotMove)
      == Relabel(Interpolate(surfaces, ClampedMove(surfaces, spotMove)), spotMove)
    ensures spotMove < MinShift(surfaces) ==>
      Interpolate(surfaces, spotMove) == Relabel(Interpolate(surfaces, MinShift(surfaces)), spotMove)
    ensures MaxShift(surfaces) < spotMove ==>
      Interpolate(surfaces, spotMove) == Relabel(Interpolate(surfaces, MaxShift(surfaces)), spotMove)
  {
    var c := ClampedMove(surfaces, spotMove);
    assert ClampedMove(surfaces, c) == c;
  }

  /** Exact match: when the clamped move is a shift level, the result is a copy of
      that surface (values, totals, moneyness and expiries) carrying the requested
      move as its spot shift. */
  lemma ExactMatch(surfaces: Surfaces, spotMove: real, i: nat)
    requires Valid(surfaces) && |surfaces| >= 2 && i < |surfaces|
    requires surfaces[i].0 == ClampedMove(surfaces, spotMove)
    ensures Interpolate(surfaces, spotMove) == Success(surfaces[i].1.(spotShift := spotMove))
  {
    GridAtEntry(surfaces, i);
  }

  /** Requesting a stored shift level, interior or boundary, returns that grid. */
  lemma ExactLevel(surfaces: Surfaces, i: nat)
    requires Valid(surfaces) && |surfaces| >= 2 && i < |surfaces|
    ensures Interpolate(surfaces, surfaces[i].0) == Success(surfaces[i].1.(spotShift := surfaces[i].0))
  {
    ExactMatch(surfaces, surfaces[i].0, i);
  }

  /** A blend at a fraction strictly between 0 and 1 lies between its two ends. */
  lemma BlendCellBetween(v0: real, v1: real, t: real)
    requires 0.0 < t < 1.0
    ensures Min(v0, v1) <= BlendCell(v0, v1, t) <= Max(v0, v1)
  {
    var d := v1 - v0;
    assert BlendCell(v0, v1, t) == v1 - (1.0 - t) * d;
    var u := 1.0 - t;
    assert 0.0 < u;
    if 0.0 <= d {
      assert 0.0 <= t * d;
      assert 0.0 <= u * d;
    } else {
      assert t * d <= 0.0;
      assert u * d <= 0.0;
    }
  }

  /** The shape check of the blending path: it fails exactly when some surface is
      smaller than the lowest-shift grid. */
  lemma BlendShape(surfaces: Surfaces, spotMove: real)
    requires Valid(surfaces) && |surfaces| >= 2
    requires !HasShift(surfaces, ClampedMove(surfaces, spotMove))
    ensures Interpolate(surfaces, spotMove).Failure? <==>
      !CoversAll(surfaces, |Lowest(surfaces).values|, |Lowest(surfaces).expiries|)
  {
  }

  /** Bracketing shift levels: `lo` and `hi` are the adjacent levels around `c`. */
  predicate Brackets(surfaces: Surfaces, c: real, lo: nat, hi: nat)
  {
    && lo < |surfaces| && hi < |surfaces|
    && surfaces[lo].0 < c < surfaces[hi].0
    && forall k :: 0 <= k < |surfaces| ==> surfaces[k].0 <= surfaces[lo].0 || surfaces[hi].0 <= surfaces[k].0
  }

  /** The blending path in terms of its two bracketing surfaces. */
  lemma BlendStep(surfaces: Surfaces, spotMove: real, lo: nat, hi: nat)
    requires Valid(surfaces) && |surfaces| >= 2
    requires Brackets(surfaces, ClampedMove(surfaces, spotMove), lo, hi)
    requires CoversAll(surfaces, |Lowest(surfaces).values|, |Lowest(surfaces).expiries|)
    ensures var c, s0, s1 := ClampedMove(surfaces, spotMove), surfaces[lo].0, surfaces[hi].0;
      var ref := Lowest(surfaces);
      Interpolate(surfaces, spotMove) == Success(Summarise(ref,
        Blend(surfaces[lo].1, surfaces[hi].1, Fraction(c, s0, s1), |ref.values|, |ref.expiries|),
        spotMove))
  {
    var c := ClampedMove(surfaces, spotMove);
    BracketLevels(surfaces, c, lo, hi);
    InterpolateBlends(surfaces, spotMove);
    BlendAtBrackets(surfaces, c, spotMove, lo, hi);
  }

  /** The blending path looks up the two bracketing surfaces. */
  lemma BlendAtBrackets(surfaces: Surfaces, c: real, spotMove: real, lo: nat, hi: nat)
    requires Valid(surfaces) && |surfaces| > 0 && Brackets(surfaces, c, lo, hi)
    requires MinShift(surfaces) < c < MaxShift(surfaces) && !HasShift(surfaces, c)
    requires CoversAll(surfaces, |Lowest(surfaces).values|, |Lowest(surfaces).expiries|)
    ensures var s0, s1 := surfaces[lo].0, surfaces[hi].0;
      var ref := Lowest(surfaces);
      BlendAt(surfaces, c, spotMove) == Success(Summarise(ref,
        Blend(surfaces[lo].1, surfaces[hi].1, Fraction(c, s0, s1), |ref.values|, |ref.expiries|),
        spotMove))
  {
    BracketLevels(surfaces, c, lo, hi);
    BlendAtLevels(surfaces, c, spotMove, surfaces[lo].0, surfaces[hi].0, surfaces[lo].1, surfaces[hi].1);
  }

  /** The blending path, given the two levels it finds and the grids stored there. */
  lemma BlendAtLevels(surfaces: Surfaces, c: real, spotMove: real, s0: real, s1: real, lower: VegaGrid, upper: VegaGrid)
    requires Valid(surfaces) && |surfaces| > 0
    requires MinShift(surfaces) < c < MaxShift(surfaces) && !HasShift(surfaces, c)
    requires CoversAll(surfaces, |Lowest(surfaces).values|, |Lowest(surfaces).expiries|)
    requires GreatestBelow(surfaces, c) == Some(s0) && LeastAbove(surfaces, c) == Some(s1)
    requires GridAt(surfaces, s0) == lower && GridAt(surfaces, s1) == upper
    ensures var ref := Lowest(surfaces);
      BlendAt(surfaces, c, spotMove) == Success(Summarise(ref,
        Blend(lower, upper, Fraction(c, s0, s1), |ref.values|, |ref.expiries|), spotMove))
  {
    var ref := GridAt(surfaces, MinShift(surfaces));
    var n, m := |ref.values|, |ref.expiries|;
    var t := Fraction(c, s0, s1);
    var blended := Summarise(ref, Blend(lower, upper, t, n, m), spotMove);
    assert BlendAt(surfaces, c, spotMove) == Success(blended);
  }

  /** Away from every shift level, interpolation takes the blending path. */
  lemma InterpolateBlends(surfaces: Surfaces, spotMove: real)
    requires Valid(surfaces) && |surfaces| >= 2
    requires !HasShift(surfaces, ClampedMove(surfaces, spotMove))
    ensures MinShift(surfaces) < ClampedMove(surfaces, spotMove) < MaxShift(surfaces)
    ensures Interpolate(surfaces, spotMove) == BlendAt(surfaces, ClampedMove(surfaces, spotMove), spotMove)
  {
  }

  /** Adjacent levels `lo` and `hi` around `c` are the ones the blend looks up. */
  lemma BracketLevels(surfaces: Surfaces, c: real, lo: nat, hi: nat)
    requires DistinctShifts(surfaces) && |surfaces| > 0 && Brackets(surfaces, c, lo, hi)
    ensures !HasShift(surfaces, c) && MinShift(surfaces) < c < MaxShift(surfaces)
    ensures GreatestBelow(surfaces, c) == Some(surfaces[lo].0)
    ensures LeastAbove(surfaces, c) == Some(surfaces[hi].0)
    ensures GridAt(surfaces, surfaces[lo].0) == surfaces[lo].1
    ensures GridAt(surfaces, surfaces[hi].0) == surfaces[hi].1
  {
    GridAtEntry(surfaces, lo);
    GridAtEntry(surfaces, hi);
  }

  /** The blending fraction of a move strictly inside its bracket. */
  lemma FractionInside(c: real, s0: real, s1: real)
    requires s0 < c < s1
    ensures 0.0 < Fraction(c, s0, s1) < 1.0
    ensures s0 + Fraction(c, s0, s1) * (s1 - s0) == c
  {
    var t := Fraction(c, s0, s1);
    var d := s1 - s0;
    assert t * d == c - s0;
    var u := 1.0 - t;
    assert u * d == s1 - c;
    assert 0.0 < s1 - c;
    PositiveFactor(u, d);
  }

  /** `cells` is the n x m blend of `v0` and `v1` at the shared fraction `t`, and
      each cell lies between its two ends. */
  predicate BlendedBetween(cells: seq<seq<real>>, v0: seq<seq<real>>, v1: seq<seq<real>>, t: real, n: nat, m: nat)
  {
    && |cells| == n && Rectangular(cells, m)
    && |v0| >= n && |v1| >= n
    && (forall i :: 0 <= i < n ==> |v0[i]| >= m && |v1[i]| >= m)
    && (forall i, j :: 0 <= i < n && 0 <= j < m ==>
          cells[i][j] == v0[i][j] + t * (v1[i][j] - v0[i][j])
          && Min(v0[i][j], v1[i][j]) <= cells[i][j] <= Max(v0[i][j], v1[i][j]))
  }

  /** Every blended cell at a fraction strictly inside (0, 1) is the affine blend
      of its two ends and lies between them. */
  lemma BlendIsBetween(lower: VegaGrid, upper: VegaGrid, t: real, n: nat, m: nat)
    requires WellFormed(lower) && WellFormed(upper)
    requires Covers(lower, n, m) && Covers(upper, n, m)
    requires 0.0 < t < 1.0
    requires n > 0 && m > 0
    ensures BlendedBetween(Blend(lower, upper, t, n, m), lower.values, upper.values, t, n, m)
  {
    var cells := Blend(lower, upper, t, n, m);
    forall i, j | 0 <= i < n && 0 <= j < m
      ensures Min(lower.values[i][j], upper.values[i][j]) <= cells[i][j] <= Max(lower.values[i][j], upper.values[i][j])
    {
      BlendCellBetween(lower.values[i][j], upper.values[i][j], t);
    }
  }

  /** The blending path: with s0 < c < s1 the adjacent shift levels around the
      clamped move c, every cell is v0 + t * (v1 - v0) for ONE fraction
      t = (c - s0) / (s1 - s0) shared by all cells, 0 < t < 1, so every cell lies
      between its two bracketing values. */
  lemma BlendedCells(surfaces: Surfaces, spotMove: real, lo: nat, hi: nat)
    requires Valid(surfaces) && |surfaces| >= 2
    requires Brackets(surfaces, ClampedMove(surfaces, spotMove), lo, hi)
    requires CoversAll(surfaces, |Lowest(surfaces).values|, |Lowest(surfaces).expiries|)
    requires |Lowest(surfaces).values| > 0 && |Lowest(surfaces).expiries| > 0
    ensures Interpolate(surfaces, spotMove).Success?
    ensures var t := Fraction(ClampedMove(surfaces, spotMove), surfaces[lo].0, surfaces[hi].0);
      && 0.0 < t < 1.0
      && BlendedBetween(Interpolate(surfaces, spotMove).value.values,
           surfaces[lo].1.values, surfaces[hi].1.values, t,
           |Lowest(surfaces).values|, |Lowest(surfaces).expiries|)
  {
    var c := ClampedMove(surfaces, spotMove);
    var s0, s1 := surfaces[lo].0, surfaces[hi].0;
    var t := Fraction(c, s0, s1);
    FractionInside(c, s0, s1);
    var n, m := |Lowest(surfaces).values|, |Lowest(surfaces).expiries|;
    var lower, upper := surfaces[lo].1, surfaces[hi].1;
    assert Covers(lower, n, m) && Covers(upper, n, m);
    assert WellFormed(lower) && WellFormed(upper);
    BlendIsBetween(lower, upper, t, n, m);
    BlendStep(surfaces, spotMove, lo, hi);
    var g := Summarise(Lowest(surfaces), Blend(lower, upper, t, n, m), spotMove);
    assert Interpolate(surfaces, spotMove) == Success(g);
    assert g.values == Blend(lower, upper, t, n, m);
  }

  /** Totals of a blended grid are recomputed from the blended cells (not blended
      themselves): each row total is its row's sum, each column total its column's
      sum, and the grand total is the sum of all cells, which the row totals and the
      column totals both add up to. Moneyness and expiries are the lowest-shift
      grid's. */
  lemma BlendedTotals(surfaces: Surfaces, spotMove: real)
    requires Valid(surfaces) && |surfaces| >= 2
    requires !HasShift(surfaces, ClampedMove(surfaces, spotMove))
    requires Interpolate(surfaces, spotMove).Success?
    ensures var g := Interpolate(surfaces, spotMove).value;
      && WellFormed(g) && TotalsConsistent(g)
      && Sum(g.rowTotals) == g.total
      && Sum(g.colTotals) == g.total
      && g.moneyness == Lowest(surfaces).moneyness
      && g.expiries == Lowest(surfaces).expiries
      && g.expiryYears == Lowest(surfaces).expiryYears
  {
    var g := Interpolate(surfaces, spotMove).value;
    ColumnSumsTotal(g.values, |g.expiries|);
  }

  /** Two 1 x 1 surfaces at -5% and +5%: a request at 0 blends with t = 1/2 and
      lands exactly halfway between the two vegas. */
  lemma MidpointExample(a: real, b: real)
    ensures var lower := VegaGrid(-0.05, [1.0], ["2027-02-06"], [1.0], [[a]], [a], [a], a);
      var upper := VegaGrid(0.05, [1.0], ["2027-02-06"], [1.0], [[b]], [b], [b], b);
      var r := Interpolate([(-0.05, lower), (0.05, upper)], 0.0);
      && r.Success?
      && r.value.values == [[(a + b) / 2.0]]
      && r.value.total == (a + b) / 2.0
  {
    var lower := VegaGrid(-0.05, [1.0], ["2027-02-06"], [1.0], [[a]], [a], [a], a);
    var upper := VegaGrid(0.05, [1.0], ["2027-02-06"], [1.0], [[b]], [b], [b], b);
    var surfaces := [(-0.05, lower), (0.05, upper)];
    assert MinShift(surfaces) == -0.05 && MaxShift(surfaces) == 0.05;
    assert Lowest(surfaces) == lower;
    BlendStep(surfaces, 0.0, 0, 1);
    MidpointCells(lower, upper, a, b);
  }

  lemma MidpointCells(lower: VegaGrid, upper: VegaGrid, a: real, b: real)
    requires lower.values == [[a]] && upper.values == [[b]]
    ensures Blend(lower, upper, 0.5, 1, 1) == [[(a + b) / 2.0]]
    ensures Sum(RowSums([[(a + b) / 2.0]])) == (a + b) / 2.0
  {
    var x := (a + b) / 2.0;
    var cells := Blend(lower, upper, 0.5, 1, 1);
    assert |cells| == 1 && |cells[0]| == 1 && cells[0][0] == x;
    assert cells[0] == [x];
    SingleCellTotal(x);
  }

  lemma SingleCellTotal(x: real)
    ensures Sum(RowSums([[x]])) == x
  {
    SumSnoc([], x);
    assert [] + [x] == [x];
    assert RowSums([[x]]) == [x];
  }
}
