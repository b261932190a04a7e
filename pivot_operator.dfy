/** The Gauss-Jordan pivot of `_pivotear` as a function of the tableau,
    with what it does to the pivot column, to the canonical form, to the
    right-hand sides and to the objective value. */
module PivotOperator {
  import opened Tableau

  /** The tableau after pivoting on `(r, c)`: row `r` divided by the pivot
      element, then every other row `i` reduced by `t[i][c]` times the
      normalised row `r`. */
  function Pivoted(t: Matrix, r: nat, c: nat): Matrix
    requires Rectangular(t) && r < |t| && c < |t[0]| && t[r][c] != 0.0
  {
    var pr := Divided(t[r], t[r][c]);
    seq(|t|, i requires 0 <= i < |t| =>
      if i == r then pr else Minus(t[i], Scaled(t[i][c], pr)))
  }

  /** The pivot keeps the dimensions, makes column `c` a unit column with
      its 1 in row `r`, and leaves alone every row whose column-`c` entry
      is already 0. */
  lemma PivotedUnitColumn(t: Matrix, r: nat, c: nat)
    requires Rectangular(t) && r < |t| && c < |t[0]| && t[r][c] != 0.0
    ensures var p := Pivoted(t, r, c);
      IsMatrix(p, |t|, |t[0]|) && Rectangular(p) && UnitColumn(p, c, r) &&
      forall i :: 0 <= i < |t| && i != r && t[i][c] == 0.0 ==> p[i] == t[i]
  {
    var p, pr := Pivoted(t, r, c), Divided(t[r], t[r][c]);
    var pe := t[r][c];
    assert pr[c] == pe / pe;
    assert pe / pe == 1.0;
    forall i | 0 <= i < |t|
      ensures |p[i]| == |t[0]|
      ensures i != r ==> p[i][c] == 0.0
    {
      if i != r {
        assert p[i][c] == t[i][c] - t[i][c] * pr[c];
      }
    }
    forall i | 0 <= i < |t| && i != r && t[i][c] == 0.0
      ensures p[i] == t[i]
    {
      assert p[i] == Minus(t[i], Scaled(0.0, Divided(t[r], t[r][c])));
    }
  }

  /** The pivot keeps canonical form: if every basic column is a unit
      column in its row, then after pivoting on `(r, c)` and recording
      variable `c - 1` as basic in row `r`, that holds again. */
  lemma PivotPreservesCanonical(t: Matrix, basis: seq<int>, r: nat, c: nat)
    requires Rectangular(t) && 1 <= r < |t| && 1 <= c < |t[0]| && t[r][c] != 0.0
    requires Canonical(t, basis)
    ensures Rectangular(Pivoted(t, r, c))
    ensures Canonical(Pivoted(t, r, c), basis[r - 1 := c - 1])
  {
    PivotedUnitColumn(t, r, c);
    var p, nb := Pivoted(t, r, c), basis[r - 1 := c - 1];
    forall k | 0 <= k < |nb|
      ensures UnitColumn(p, nb[k] + 1, k + 1)
    {
      if k != r - 1 {
        var col := basis[k] + 1;
        assert UnitColumn(t, col, k + 1);
        assert col != c;
        assert t[r][col] == 0.0;
        var pr := Divided(t[r], t[r][c]);
        assert pr[col] == 0.0;
        forall i | 0 <= i < |p|
          ensures p[i][col] == t[i][col]
        {
          if i != r {
            assert p[i][col] == t[i][col] - t[i][c] * pr[col];
          }
        }
      }
    }
  }

  /** Right-hand-side column of a rectangular matrix. */
  function Rhs(t: Matrix, i: nat): real
    requires Rectangular(t) && i < |t| && |t[0]| > 0
  {
    t[i][|t[0]| - 1]
  }

  /** Rows `1..` have non-negative right-hand sides: the basic solution is
      feasible. */
  ghost predicate FeasibleRhs(t: Matrix)
    requires Rectangular(t) && |t[0]| > 0
  {
    forall i :: 1 <= i < |t| ==> Rhs(t, i) >= 0.0
  }

  /** The ratio test's choice keeps a feasible basic solution feasible, as
      long as no entry of the pivot column lies in `(0, Tol]` (such a row
      is ignored by the ratio test and may turn negative). */
  lemma PivotKeepsFeasible(t: Matrix, r: nat, c: nat)
    requires Rectangular(t) && 1 <= r < |t| && c < |t[0]| - 1
    requires FeasibleRhs(t)
    requires t[r][c] > Tol
    requires forall i :: 1 <= i < |t| && t[i][c] > Tol ==>
               Rhs(t, r) / t[r][c] <= Rhs(t, i) / t[i][c]
    requires forall i :: 1 <= i < |t| ==> t[i][c] <= 0.0 || t[i][c] > Tol
    ensures Rectangular(Pivoted(t, r, c))
    ensures FeasibleRhs(Pivoted(t, r, c))
  {
    PivotedUnitColumn(t, r, c);
    var p := Pivoted(t, r, c);
    var ratio := Rhs(t, r) / t[r][c];
    assert ratio >= 0.0;
    forall i | 1 <= i < |p|
      ensures Rhs(p, i) >= 0.0
    {
      if i != r {
        PivotedRhs(t, r, c, i);
        ReducedRhsNonNegative(Rhs(t, i), t[i][c], ratio);
      }
    }
  }

  /** Right-hand side of a non-pivot row after the pivot: it loses
      `t[i][c]` times the pivot row's ratio. */
  lemma PivotedRhs(t: Matrix, r: nat, c: nat, i: nat)
    requires Rectangular(t) && r < |t| && c < |t[0]| && t[r][c] != 0.0
    requires i < |t| && i != r
    ensures Rectangular(Pivoted(t, r, c)) && |Pivoted(t, r, c)[0]| == |t[0]|
    ensures Rhs(Pivoted(t, r, c), i) == Rhs(t, i) - t[i][c] * (Rhs(t, r) / t[r][c])
  {
    PivotedUnitColumn(t, r, c);
    var last := |t[0]| - 1;
    assert Pivoted(t, r, c)[i][last] == t[i][last] - t[i][c] * Divided(t[r], t[r][c])[last];
  }

  /** A non-negative RHS stays non-negative when it loses `a * ratio`,
      with `a <= 0`, or `a > 0` and `ratio` no larger than `bi / a`. */
  lemma ReducedRhsNonNegative(bi: real, a: real, ratio: real)
    requires bi >= 0.0 && ratio >= 0.0
    requires a <= 0.0 || ratio <= bi / a
    ensures bi - a * ratio >= 0.0
  {
    if a > 0.0 {
      assert a * ratio <= a * (bi / a);
      assert a * (bi / a) == bi;
    } else {
      assert a * ratio <= 0.0;
    }
  }

  /** Pivoting in a column with a negative objective entry on a row with
      a non-negative right-hand side never lowers the objective value
      (the RHS of row 0). */
  lemma PivotObjectiveNondecreasing(t: Matrix, r: nat, c: nat)
    requires Rectangular(t) && 1 <= r < |t| && c < |t[0]| - 1
    requires t[r][c] > 0.0 && Rhs(t, r) >= 0.0 && t[0][c] < 0.0
    ensures Rectangular(Pivoted(t, r, c))
    ensures Rhs(Pivoted(t, r, c), 0) >= Rhs(t, 0)
  {
    PivotedUnitColumn(t, r, c);
    var last := |t[0]| - 1;
    var ratio := Rhs(t, r) / t[r][c];
    assert ratio >= 0.0;
    assert Pivoted(t, r, c)[0][last] == t[0][last] - t[0][c] * ratio;
    assert t[0][c] * ratio <= 0.0;
  }
}
