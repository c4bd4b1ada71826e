/** Real-valued helpers: numpy's clip/sign, Python's min/max/abs, and sums over
    vectors and rectangular matrices (numpy's `sum`, `sum(axis=0)`, `sum(axis=1)`). */
module Numbers {

  function Min(a: real, b: real): (r: real)
    ensures r <= a && r <= b
    ensures r == a || r == b
  {
    if a <= b then a else b
  }

  function Max(a: real, b: real): (r: real)
    ensures r >= a && r >= b
    ensures r == a || r == b
  {
    if a >= b then a else b
  }

  function Abs(x: real): (r: real)
    ensures r >= 0.0
    ensures r == x || r == -x
  {
    if x < 0.0 then -x else x
  }

  /** numpy's `sign`: -1, 0 or 1. */
  function Sign(x: real): (r: real)
    ensures r * x == Abs(x)
    ensures r == -1.0 || r == 0.0 || r == 1.0
  {
    if x < 0.0 then -1.0 else if x > 0.0 then 1.0 else 0.0
  }

  /** numpy's `clip(x, lo, hi)`, i.e. `min(max(x, lo), hi)`. */
  function Clip(x: real, lo: real, hi: real): (r: real)
    ensures lo <= hi ==> lo <= r <= hi
    ensures lo <= x <= hi ==> r == x
    ensures lo <= hi && x < lo ==> r == lo
    ensures lo <= hi && hi < x ==> r == hi
  {
    Min(Max(x, lo), hi)
  }

  /** Multiplying by a non-negative factor keeps an inequality. */
  lemma MulMonotone(x: real, y: real, z: real)
    requires x <= y && 0.0 <= z
    ensures x * z <= y * z
  {
    assert (y - x) * z >= 0.0;
  }

  /** `|x * y| = |x| * |y|`. */
  lemma AbsMul(x: real, y: real)
    ensures Abs(x * y) == Abs(x) * Abs(y)
  {
    if x < 0.0 && y < 0.0 {
      assert x * y == (-x) * (-y);
    } else if x < 0.0 {
      assert x * y == -((-x) * y);
    } else if y < 0.0 {
      assert x * y == -(x * (-y));
    }
  }

  /** A product with a positive factor has the sign of the other factor. */
  lemma SignMulPositive(x: real, p: real)
    requires 0.0 < p
    ensures Sign(x * p) == Sign(x)
  {
    if x < 0.0 {
      assert (-x) * p > 0.0;
    } else if x > 0.0 {
      assert x * p > 0.0;
    }
  }

  /** If `u * d` is non-negative and `d` positive, `u` is non-negative. */
  lemma NonnegFactor(u: real, d: real)
    requires 0.0 < d && 0.0 <= u * d
    ensures 0.0 <= u
  {
  }

  /** If `u * d` and `d` are positive, `u` is positive. */
  lemma PositiveFactor(u: real, d: real)
    requires 0.0 < d && 0.0 < u * d
    ensures 0.0 < u
  {
  }

  /** The sum of a vector, accumulated left to right. */
  function Sum(s: seq<real>): real
  {
    if |s| == 0 then 0.0 else Sum(s[..|s| - 1]) + s[|s| - 1]
  }

  lemma SumSnoc(s: seq<real>, x: real)
    ensures Sum(s + [x]) == Sum(s) + x
  {
    assert (s + [x])[..|s|] == s;
  }

  lemma SumPrefixStep(s: seq<real>, k: nat)
    requires k < |s|
    ensures Sum(s[..k + 1]) == Sum(s[..k]) + s[k]
  {
    assert s[..k + 1][..k] == s[..k];
  }

  /** A vector of zeros sums to zero. */
  lemma {:induction false} SumOfZeros(s: seq<real>)
    requires forall i :: 0 <= i < |s| ==> s[i] == 0.0
    ensures Sum(s) == 0.0
  {
    if |s| > 0 {
      SumOfZeros(s[..|s| - 1]);
    }
  }

  /** Pointwise sum of two vectors of equal length. */
  function Add(a: seq<real>, b: seq<real>): (r: seq<real>)
    requires |a| == |b|
    ensures |r| == |a|
    ensures forall i :: 0 <= i < |r| ==> r[i] == a[i] + b[i]
  {
    seq(|a|, i requires 0 <= i < |a| => a[i] + b[i])
  }

  /** Summation distributes over pointwise addition. */
  lemma {:induction false} SumAdd(a: seq<real>, b: seq<real>)
    requires |a| == |b|
    ensures Sum(Add(a, b)) == Sum(a) + Sum(b)
  {
    if |a| > 0 {
      var n := |a| - 1;
      assert Add(a, b)[..n] == Add(a[..n], b[..n]);
      SumAdd(a[..n], b[..n]);
    }
  }

  /** Replacing one entry changes the sum by exactly the difference. */
  lemma {:induction false} SumUpdate(s: seq<real>, k: nat, x: real)
    requires k < |s|
    ensures Sum(s[k := x]) == Sum(s) - s[k] + x
  {
    var n := |s| - 1;
    if k == n {
      assert s[k := x][..n] == s[..n];
    } else {
      assert s[k := x][..n] == s[..n][k := x];
      SumUpdate(s[..n], k, x);
    }
  }

  /** Every row of `rows` has exactly `m` entries. */
  predicate Rectangular(rows: seq<seq<real>>, m: nat)
  {
    forall i :: 0 <= i < |rows| ==> |rows[i]| == m
  }

  /** Column `j` of a matrix. */
  function Column(rows: seq<seq<real>>, j: nat): (c: seq<real>)
    requires forall i :: 0 <= i < |rows| ==> j < |rows[i]|
    ensures |c| == |rows|
    ensures forall i :: 0 <= i < |rows| ==> c[i] == rows[i][j]
  {
    seq(|rows|, i requires 0 <= i < |rows| => rows[i][j])
  }

  /** numpy's `sum(axis=1)`: one sum per row. */
  function RowSums(rows: seq<seq<real>>): (r: seq<real>)
    ensures |r| == |rows|
    ensures forall i :: 0 <= i < |rows| ==> r[i] == Sum(rows[i])
  {
    seq(|rows|, i requires 0 <= i < |rows| => Sum(rows[i]))
  }

  /** numpy's `sum(axis=0)` on an n x m matrix: one sum per column. */
  function ColSums(rows: seq<seq<real>>, m: nat): (r: seq<real>)
    requires Rectangular(rows, m)
    ensures |r| == m
    ensures forall j :: 0 <= j < m ==> r[j] == Sum(Column(rows, j))
  {
    seq(m, j requires 0 <= j < m => Sum(Column(rows, j)))
  }

  /** numpy's `sum()` over every cell of a matrix. */
  function GrandTotal(rows: seq<seq<real>>): real
  {
    Sum(RowSums(rows))
  }

  /** Summing the column totals gives the same grand total as summing the row totals. */
  lemma {:induction false} ColumnSumsTotal(rows: seq<seq<real>>, m: nat)
    requires Rectangular(rows, m)
    ensures Sum(ColSums(rows, m)) == GrandTotal(rows)
  {
    if |rows| == 0 {
      SumOfZeros(ColSums(rows, m));
      assert RowSums(rows) == [];
    } else {
      var n := |rows| - 1;
      var front := rows[..n];
      ColSumsStep(rows, m);
      SumAdd(ColSums(front, m), rows[n]);
      ColumnSumsTotal(front, m);
      RowSumsStep(rows);
      SumSnoc(RowSums(front), Sum(rows[n]));
    }
  }

  /** Adding a last row adds it to the column totals. */
  lemma ColSumsStep(rows: seq<seq<real>>, m: nat)
    requires Rectangular(rows, m) && |rows| > 0
    ensures ColSums(rows, m) == Add(ColSums(rows[..|rows| - 1], m), rows[|rows| - 1])
  {
    var n := |rows| - 1;
    forall j | 0 <= j < m
      ensures ColSums(rows, m)[j] == Add(ColSums(rows[..n], m), rows[n])[j]
    {
      ColumnStep(rows, j);
    }
  }

  /** Column `j` of a matrix is column `j` of its first rows, then the last row's entry. */
  lemma ColumnStep(rows: seq<seq<real>>, j: nat)
    requires forall i :: 0 <= i < |rows| ==> j < |rows[i]|
    requires |rows| > 0
    ensures Sum(Column(rows, j)) == Sum(Column(rows[..|rows| - 1], j)) + rows[|rows| - 1][j]
  {
    var n := |rows| - 1;
    assert Column(rows, j) == Column(rows[..n], j) + [rows[n][j]];
    SumSnoc(Column(rows[..n], j), rows[n][j]);
  }

  /** Adding a last row appends its sum to the row totals. */
  lemma RowSumsStep(rows: seq<seq<real>>)
    requires |rows| > 0
    ensures RowSums(rows) == RowSums(rows[..|rows| - 1]) + [Sum(rows[|rows| - 1])]
  {
  }
}
