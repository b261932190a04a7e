/** The two selection rules of the simplex loop: Dantzig's entering column
    (`_encontrar_coluna_pivo`) and the minimum-ratio leaving row
    (`_encontrar_linha_pivo`), both breaking ties by the first index. */
module PivotRules {
  import opened Tableau

  /** First index of a minimum of `s[lo..hi]` (the behaviour of `argmin`). */
  function FirstArgMin(s: seq<real>, lo: nat, hi: nat): (k: nat)
    requires lo < hi <= |s|
    ensures lo <= k < hi
    ensures forall j :: lo <= j < hi ==> s[k] <= s[j]
    ensures forall j :: lo <= j < k ==> s[j] > s[k]
  {
    if hi == lo + 1 then lo
    else
      var k := FirstArgMin(s, lo, hi - 1);
      if s[hi - 1] < s[k] then hi - 1 else k
  }

  /** The entering column for objective row `row0`, whose variable columns
      are `1..|row0| - 2`: -1 when every variable entry is at least `-Tol`,
      otherwise the first column holding the most negative entry. */
  function EnteringColumn(row0: Row): (col: int)
    ensures col == -1 <==> forall j :: 1 <= j < |row0| - 1 ==> row0[j] >= -Tol
    ensures col != -1 ==>
      1 <= col < |row0| - 1 && row0[col] < -Tol &&
      (forall j :: 1 <= j < |row0| - 1 ==> row0[col] <= row0[j]) &&
      (forall j :: 1 <= j < col ==> row0[j] > row0[col])
  {
    if forall j :: 1 <= j < |row0| - 1 ==> row0[j] >= -Tol then -1
    else FirstArgMin(row0, 1, |row0| - 1)
  }

  /** An entry of the ratio vector: infinite for a row the test skips. */
  datatype Ratio = Infinite | Finite(value: real)

  /** First index of the least finite ratio among `ratios[..k]`, or -1 when
      all of them are infinite. */
  function FirstMinRatio(ratios: seq<Ratio>, k: nat): (m: int)
    requires k <= |ratios|
    ensures m == -1 <==> forall i :: 0 <= i < k ==> ratios[i].Infinite?
    ensures m != -1 ==>
      0 <= m < k && ratios[m].Finite? &&
      (forall i :: 0 <= i < k && ratios[i].Finite? ==> ratios[m].value <= ratios[i].value) &&
      (forall i :: 0 <= i < m && ratios[i].Finite? ==> ratios[m].value < ratios[i].value)
  {
    if k == 0 then -1
    else
      var m := FirstMinRatio(ratios, k - 1);
      if ratios[k - 1].Infinite? then m
      else if m == -1 || ratios[k - 1].value < ratios[m].value then k - 1
      else m
  }

  /** The ratio of row `i` for column `col`: its RHS over its column entry. */
  function RatioOf(t: Matrix, col: nat, i: nat): real
    requires Rectangular(t) && col < |t[0]| && i < |t| && t[i][col] > Tol
  {
    t[i][|t[0]| - 1] / t[i][col]
  }

  /** The ratio-vector entry the test computes for row `i`. */
  function RatioEntry(t: Matrix, col: nat, i: nat): Ratio
    requires Rectangular(t) && col < |t[0]| && i < |t|
  {
    if t[i][col] > Tol then Finite(RatioOf(t, col, i)) else Infinite
  }

  /** No constraint row has an entry above `Tol` in column `col`. */
  ghost predicate NoLeavingRow(t: Matrix, col: nat)
    requires Rectangular(t) && col < |t[0]|
  {
    forall i :: 1 <= i < |t| ==> t[i][col] <= Tol
  }

  /** `row` is the first constraint row, among those with an entry above
      `Tol` in column `col`, whose ratio is least. */
  ghost predicate MinRatioRow(t: Matrix, col: nat, row: int)
    requires Rectangular(t) && col < |t[0]|
  {
    1 <= row < |t| && t[row][col] > Tol &&
    (forall i :: 1 <= i < |t| && t[i][col] > Tol ==> RatioOf(t, col, row) <= RatioOf(t, col, i)) &&
    (forall i :: 1 <= i < row && t[i][col] > Tol ==> RatioOf(t, col, row) < RatioOf(t, col, i))
  }

  /** The leaving row for entering column `col`: -1 when no constraint row
      has an entry above `Tol` there, otherwise the first row of least
      ratio among those that do. */
  method LeavingRow(t: Matrix, col: nat) returns (row: int)
    requires Rectangular(t) && col < |t[0]|
    ensures row == -1 <==> NoLeavingRow(t, col)
    ensures row != -1 ==> MinRatioRow(t, col, row)
  {
    var last := |t[0]| - 1;
    var ratios: seq<Ratio> := seq(|t| - 1, _ => Infinite);
    var i := 0;
    while i < |t| - 1
      invariant 0 <= i <= |t| - 1 && |ratios| == |t| - 1
      invariant forall k :: 0 <= k < i ==> ratios[k] == RatioEntry(t, col, k + 1)
      invariant forall k :: i <= k < |ratios| ==> ratios[k] == Infinite
    {
      if t[i + 1][col] > Tol {
        ratios := ratios[i := Finite(t[i + 1][last] / t[i + 1][col])];
      }
      i := i + 1;
    }
    if forall k :: 0 <= k < |ratios| ==> ratios[k] == Infinite {
      forall r | 1 <= r < |t|
        ensures t[r][col] <= Tol
      {
        assert ratios[r - 1] == RatioEntry(t, col, r);
      }
      return -1;
    }
    var m := FirstMinRatio(ratios, |ratios|);
    row := m + 1;
    forall r | 1 <= r < |t| && t[r][col] > Tol
      ensures RatioOf(t, col, row) <= RatioOf(t, col, r)
      ensures r < row ==> RatioOf(t, col, row) < RatioOf(t, col, r)
    {
      assert ratios[r - 1] == RatioEntry(t, col, r);
    }
    assert ratios[m] == RatioEntry(t, col, row);
  }

  /** The ratio test names one row: two rows that both pass as the first
      row of least ratio are the same row. */
  lemma MinRatioRowUnique(t: Matrix, col: nat, r1: int, r2: int)
    requires Rectangular(t) && col < |t[0]|
    requires MinRatioRow(t, col, r1) && MinRatioRow(t, col, r2)
    ensures r1 == r2
  {
  }

  /** When some constraint row has an entry above `Tol` in column `col`,
      the ratio test finds a row: the first of least ratio. */
  lemma MinRatioRowExists(t: Matrix, col: nat)
    requires Rectangular(t) && col < |t[0]| && !NoLeavingRow(t, col)
    ensures exists r :: MinRatioRow(t, col, r)
  {
    var ratios := seq(|t| - 1, i requires 0 <= i < |t| - 1 => RatioEntry(t, col, i + 1));
    var i0 :| 1 <= i0 < |t| && t[i0][col] > Tol;
    assert ratios[i0 - 1].Finite?;
    var m := FirstMinRatio(ratios, |ratios|);
    var r := m + 1;
    forall i | 1 <= i < |t| && t[i][col] > Tol
      ensures RatioOf(t, col, r) <= RatioOf(t, col, i)
      ensures i < r ==> RatioOf(t, col, r) < RatioOf(t, col, i)
    {
      assert ratios[i - 1] == RatioEntry(t, col, i);
    }
    assert ratios[m] == RatioEntry(t, col, r);
    assert MinRatioRow(t, col, r);
  }

  /** The row the ratio test picks for column `col`, as a function of the
      tableau: -1 without a candidate row, otherwise the first of least
      ratio (unique by `MinRatioRowUnique`). */
  ghost function RatioTestRow(t: Matrix, col: nat): (r: int)
    requires Rectangular(t) && col < |t[0]|
    ensures r == -1 <==> NoLeavingRow(t, col)
    ensures r != -1 ==> MinRatioRow(t, col, r)
  {
    if NoLeavingRow(t, col) then -1
    else
      MinRatioRowExists(t, col);
      var r :| MinRatioRow(t, col, r); r
  }
}
