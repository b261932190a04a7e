/** Construction of the initial tableau and basis (`_inicializar_tableau`)
    and of the Phase I objective row (`_preparar_fase_1`), as functions of
    the problem data, with the lemmas that say what they contain. */
module TableauBuilder {
  import opened Tableau

  /** The problem data are rectangular: one coefficient row, right-hand side
      and relation per constraint, each row as long as the objective. */
  ghost predicate WellFormed(c: Row, A: Matrix, b: Row, rels: seq<Relation>)
  {
    |A| == |b| == |rels| && forall i :: 0 <= i < |A| ==> |A[i]| == |c|
  }

  /** Column count: the objective-coefficient column, `n` decision columns,
      one slack per `<=`, a surplus and an artificial per `>=`, and the RHS. */
  function Width(n: nat, rels: seq<Relation>): nat
  {
    2 + n + SlackCount(rels) + 2 * SurplusCount(rels)
  }

  /** First artificial column: slacks, then surpluses, then artificials. */
  function ArtificialStart(n: nat, rels: seq<Relation>): nat
  {
    1 + n + SlackCount(rels) + SurplusCount(rels)
  }

  /** The running basis counter when constraint `|prefix|` is reached: it
      starts at `n`, advances by one per `<=` and by two per `>=`. */
  function Counter(n: nat, prefix: seq<Relation>): nat
  {
    n + SlackCount(prefix) + 2 * SurplusCount(prefix)
  }

  function ObjectiveEntry(c: Row, j: nat): real
  {
    if j == 0 then 1.0 else if j <= |c| then -c[j - 1] else 0.0
  }

  /** Row 0: `1` under the objective-coefficient column, `-c` under the
      decision columns, zero elsewhere. */
  function ObjectiveRow(c: Row, rels: seq<Relation>): Row
  {
    seq(Width(|c|, rels), j requires 0 <= j => ObjectiveEntry(c, j))
  }

  /** Entry `j` of the row of constraint `i`. The unit entries are written
      last by the builder, so they are tested first here. */
  function ConstraintEntry(n: nat, rels: seq<Relation>, a: Row, rhs: real, i: nat, j: nat): real
    requires i < |rels| && |a| == n
  {
    var nS := SlackCount(rels);
    var nE := SurplusCount(rels);
    var s := SlackCount(rels[..i]);
    var e := SurplusCount(rels[..i]);
    if rels[i] == Le && j == n + 1 + s then 1.0
    else if rels[i] == Ge && j == n + 1 + nS + e then -1.0
    else if rels[i] == Ge && j == n + 1 + nS + nE + e then 1.0
    else if j == Width(n, rels) - 1 then rhs
    else if 1 <= j <= n then a[j - 1]
    else 0.0
  }

  function ConstraintRow(n: nat, rels: seq<Relation>, a: Row, rhs: real, i: nat): Row
    requires i < |rels| && |a| == n
  {
    seq(Width(n, rels), j requires 0 <= j => ConstraintEntry(n, rels, a, rhs, i, j))
  }

  /** The tableau `_inicializar_tableau` builds, before any Phase I step. */
  function InitialTableau(c: Row, A: Matrix, b: Row, rels: seq<Relation>): Matrix
    requires WellFormed(c, A, b, rels)
  {
    [ObjectiveRow(c, rels)] +
    seq(|A|, i requires 0 <= i < |A| => ConstraintRow(|c|, rels, A[i], b[i], i))
  }

  /** `basis[i]`: the counter for a `<=` row, the counter plus one for a
      `>=` row (the artificial, after its surplus), and 0 for any other token. */
  function BasisEntry(n: nat, rels: seq<Relation>, i: nat): nat
    requires i < |rels|
  {
    match rels[i]
    case Le => Counter(n, rels[..i])
    case Ge => Counter(n, rels[..i]) + 1
    case Other(_) => 0
  }

  function InitialBasis(n: nat, rels: seq<Relation>): seq<int>
  {
    seq(|rels|, i requires 0 <= i < |rels| => BasisEntry(n, rels, i))
  }

  /** Labels appended for constraint `i`. */
  function RowNames(rels: seq<Relation>, i: nat): seq<VarName>
    requires i < |rels|
  {
    match rels[i]
    case Le => [F(SlackCount(rels[..i]) + 1)]
    case Ge => [E(SurplusCount(rels[..i]) + 1), A(SurplusCount(rels[..i]) + 1)]
    case Other(_) => []
  }

  /** Labels appended for the first `k` constraints. */
  function ConstraintNames(rels: seq<Relation>, k: nat): seq<VarName>
    requires k <= |rels|
  {
    if k == 0 then [] else ConstraintNames(rels, k - 1) + RowNames(rels, k - 1)
  }

  /** The labels starting with `a` are exactly one per `>=` constraint, so
      the driver's count of such labels agrees with the builder's
      `num_artificials`. */
  lemma {:induction false} ConstraintNamesArtificials(rels: seq<Relation>, k: nat)
    requires k <= |rels|
    ensures ArtificialNameCount(ConstraintNames(rels, k)) == SurplusCount(rels[..k])
  {
    if k > 0 {
      ConstraintNamesArtificials(rels, k - 1);
      ArtificialNameCountAppend(ConstraintNames(rels, k - 1), RowNames(rels, k - 1));
      CountStep(rels, Ge, k - 1);
      var rn := RowNames(rels, k - 1);
      if rels[k - 1] == Ge {
        assert rn[..1] == [rn[0]];
        assert ArtificialNameCount(rn) == 1;
      } else if rels[k - 1] == Le {
        assert ArtificialNameCount(rn) == 0;
      }
    }
  }

  /** Where the unit entries of row `i` fall: a slack column lies below the
      surplus block, a surplus column below the artificial block, and an
      artificial column below the RHS column. */
  lemma UnitColumnsInRange(n: nat, rels: seq<Relation>, i: nat)
    requires i < |rels|
    ensures rels[i] == Le ==> n + 1 + SlackCount(rels[..i]) < n + 1 + SlackCount(rels)
    ensures rels[i] == Ge ==> SurplusCount(rels[..i]) < SurplusCount(rels)
  {
    if rels[i] == Le { CountBelowTotal(rels, Le, i); }
    if rels[i] == Ge { CountBelowTotal(rels, Ge, i); }
  }

  /** The rows of the initial tableau, one by one. */
  lemma InitialTableauRows(c: Row, A: Matrix, b: Row, rels: seq<Relation>)
    requires WellFormed(c, A, b, rels)
    ensures var t := InitialTableau(c, A, b, rels);
      IsMatrix(t, |A| + 1, Width(|c|, rels)) && Rectangular(t) &&
      t[0] == ObjectiveRow(c, rels) &&
      forall r :: 1 <= r < |t| ==> t[r] == ConstraintRow(|c|, rels, A[r - 1], b[r - 1], r - 1)
  {
  }

  /** The shape and the fixed parts of the initial tableau: `m + 1` rows of
      `Width` columns; row 0 is `[1, -c, 0, ..., 0]`; row `i + 1` has 0 in
      column 0, `A[i]` in columns `1..n` and `b[i]` in the last column. */
  lemma InitialTableauShape(c: Row, A: Matrix, b: Row, rels: seq<Relation>)
    requires WellFormed(c, A, b, rels)
    ensures var t, w := InitialTableau(c, A, b, rels), Width(|c|, rels);
      IsMatrix(t, |A| + 1, w) && Rectangular(t) &&
      t[0][0] == 1.0 &&
      (forall j :: 1 <= j <= |c| ==> t[0][j] == -c[j - 1]) &&
      (forall j :: |c| < j < w ==> t[0][j] == 0.0) &&
      (forall i :: 0 <= i < |A| ==> t[i + 1][0] == 0.0 && t[i + 1][w - 1] == b[i]) &&
      (forall r, j :: 1 <= r <= |A| && 1 <= j <= |c| ==> t[r][j] == A[r - 1][j - 1])
  {
    var t, w := InitialTableau(c, A, b, rels), Width(|c|, rels);
    forall r | 1 <= r <= |A|
      ensures t[r][0] == 0.0 && t[r][w - 1] == b[r - 1]
      ensures forall j :: 1 <= j <= |c| ==> t[r][j] == A[r - 1][j - 1]
    {
      UnitColumnsInRange(|c|, rels, r - 1);
    }
  }

  /** The row the builder writes for constraint `i` before its unit
      entries: `A[i]` after a 0, zeros, and `b[i]` in the last column. */
  function RowBase(n: nat, rels: seq<Relation>, a: Row, rhs: real): Row
    requires |a| == n
  {
    var z := Zeros(Width(n, rels));
    (z[..1] + a + z[n + 1..])[Width(n, rels) - 1 := rhs]
  }

  /** A `<=` row is the base row with a 1 in its slack column. */
  lemma SlackRowBuilt(n: nat, rels: seq<Relation>, a: Row, rhs: real, i: nat)
    requires i < |rels| && |a| == n && rels[i] == Le
    ensures n + 1 + SlackCount(rels[..i]) < Width(n, rels)
    ensures RowBase(n, rels, a, rhs)[n + 1 + SlackCount(rels[..i]) := 1.0] == ConstraintRow(n, rels, a, rhs, i)
  {
    UnitColumnsInRange(n, rels, i);
  }

  /** A `>=` row is the base row with -1 in its surplus column and 1 in its
      artificial column. */
  lemma SurplusRowBuilt(n: nat, rels: seq<Relation>, a: Row, rhs: real, i: nat)
    requires i < |rels| && |a| == n && rels[i] == Ge
    ensures ArtificialStart(n, rels) + SurplusCount(rels[..i]) < Width(n, rels) - 1
    ensures RowBase(n, rels, a, rhs)
              [n + 1 + SlackCount(rels) + SurplusCount(rels[..i]) := -1.0]
              [ArtificialStart(n, rels) + SurplusCount(rels[..i]) := 1.0]
            == ConstraintRow(n, rels, a, rhs, i)
  {
    UnitColumnsInRange(n, rels, i);
  }

  /** A row with any other token is the base row itself. */
  lemma OtherRowBuilt(n: nat, rels: seq<Relation>, a: Row, rhs: real, i: nat)
    requires i < |rels| && |a| == n && rels[i].Other?
    ensures RowBase(n, rels, a, rhs) == ConstraintRow(n, rels, a, rhs, i)
  {
  }

  /** In the slack block, row `q`'s only nonzero entry is its own slack. */
  lemma SlackBlockEntry(n: nat, rels: seq<Relation>, a: Row, rhs: real, q: nat, j: nat)
    requires q < |rels| && |a| == n
    requires n + 1 <= j < n + 1 + SlackCount(rels)
    ensures ConstraintEntry(n, rels, a, rhs, q, j) ==
            if rels[q] == Le && j == n + 1 + SlackCount(rels[..q]) then 1.0 else 0.0
  {
    UnitColumnsInRange(n, rels, q);
  }

  /** In the artificial block, row `q`'s only nonzero entry is its own
      artificial. */
  lemma ArtificialBlockEntry(n: nat, rels: seq<Relation>, a: Row, rhs: real, q: nat, j: nat)
    requires q < |rels| && |a| == n
    requires ArtificialStart(n, rels) <= j < Width(n, rels) - 1
    ensures ConstraintEntry(n, rels, a, rhs, q, j) ==
            if rels[q] == Ge && j == ArtificialStart(n, rels) + SurplusCount(rels[..q]) then 1.0 else 0.0
  {
    UnitColumnsInRange(n, rels, q);
  }

  /** With every relation `<=` or `>=`, the initial basis entries are at
      least `n` and strictly increasing: each constraint takes a fresh value
      of the counter. */
  lemma InitialBasisIncreasing(n: nat, rels: seq<Relation>)
    requires forall i :: 0 <= i < |rels| ==> rels[i] == Le || rels[i] == Ge
    ensures var bs := InitialBasis(n, rels);
      (forall i :: 0 <= i < |rels| ==> bs[i] >= n) &&
      (forall i, j :: 0 <= i < j < |rels| ==> bs[i] < bs[j])
  {
    var bs := InitialBasis(n, rels);
    forall i, j | 0 <= i < j < |rels|
      ensures bs[i] < bs[j]
    {
      CountStep(rels, Le, i);
      CountStep(rels, Ge, i);
      CountMonotone(rels, Le, i + 1, j);
      CountMonotone(rels, Ge, i + 1, j);
    }
  }

  /** Counting `<=` over an all-`<=` prefix gives its length. */
  lemma {:induction false} CountAllSlack(rels: seq<Relation>, i: nat)
    requires i <= |rels|
    requires forall k :: 0 <= k < |rels| ==> rels[k] == Le
    ensures SlackCount(rels[..i]) == i && SurplusCount(rels[..i]) == 0
  {
    if i > 0 {
      CountAllSlack(rels, i - 1);
      CountStep(rels, Le, i - 1);
      CountStep(rels, Ge, i - 1);
    }
  }

  /** With no `>=` row, every `<=` row's basis entry names its own slack:
      column `basis[i] + 1` is a unit column with its 1 in row `i + 1`. */
  lemma SlackRowIsCanonical(c: Row, A: Matrix, b: Row, rels: seq<Relation>, i: nat)
    requires WellFormed(c, A, b, rels)
    requires SurplusCount(rels) == 0
    requires i < |rels| && rels[i] == Le
    ensures Rectangular(InitialTableau(c, A, b, rels))
    ensures UnitColumn(InitialTableau(c, A, b, rels), InitialBasis(|c|, rels)[i] + 1, i + 1)
  {
    InitialTableauRows(c, A, b, rels);
    var t, n := InitialTableau(c, A, b, rels), |c|;
    var s := SlackCount(rels[..i]);
    CountPrefixBound(rels, Ge, i);
    CountBelowTotal(rels, Le, i);
    var col := n + 1 + s;
    assert InitialBasis(n, rels)[i] + 1 == col;
    assert t[i + 1][col] == 1.0;
    forall k | 0 <= k < |t| && k != i + 1
      ensures t[k][col] == 0.0
    {
      if k > 0 {
        var q := k - 1;
        if rels[q] == Le {
          if q < i {
            CountBelowOccurrence(rels, Le, q, i);
          } else {
            CountBelowOccurrence(rels, Le, i, q);
          }
        }
        SlackBlockEntry(n, rels, A[q], b[q], q, col);
        assert t[k][col] == ConstraintEntry(n, rels, A[q], b[q], q, col);
      }
    }
  }

  /** When every relation is `<=`: `basis[i] == n + i`, and the initial
      tableau is in canonical form for that basis. */
  lemma AllSlackCanonical(c: Row, A: Matrix, b: Row, rels: seq<Relation>)
    requires WellFormed(c, A, b, rels)
    requires forall i :: 0 <= i < |rels| ==> rels[i] == Le
    ensures Rectangular(InitialTableau(c, A, b, rels))
    ensures forall i :: 0 <= i < |rels| ==> InitialBasis(|c|, rels)[i] == |c| + i
    ensures Canonical(InitialTableau(c, A, b, rels), InitialBasis(|c|, rels))
  {
    InitialTableauRows(c, A, b, rels);
    CountAllSlack(rels, |rels|);
    CountWhole(rels, Ge);
    var t, bs := InitialTableau(c, A, b, rels), InitialBasis(|c|, rels);
    assert |bs| == |t| - 1;
    forall i | 0 <= i < |rels|
      ensures bs[i] == |c| + i && UnitColumn(t, bs[i] + 1, i + 1)
    {
      CountAllSlack(rels, i);
      assert bs[i] == BasisEntry(|c|, rels, i);
      SlackRowIsCanonical(c, A, b, rels, i);
    }
  }

  /** A token other than `<=` and `>=` adds no column: its row is zero
      outside the decision and RHS columns, and its basis entry stays 0. */
  lemma OtherRelationRow(c: Row, A: Matrix, b: Row, rels: seq<Relation>, i: nat)
    requires WellFormed(c, A, b, rels)
    requires i < |rels| && rels[i].Other?
    ensures InitialBasis(|c|, rels)[i] == 0
    ensures |InitialTableau(c, A, b, rels)| == |A| + 1
    ensures var row := InitialTableau(c, A, b, rels)[i + 1];
      |row| == Width(|c|, rels) &&
      forall j :: |c| < j < Width(|c|, rels) - 1 ==> row[j] == 0.0
  {
    InitialTableauRows(c, A, b, rels);
    assert InitialTableau(c, A, b, rels)[i + 1] == ConstraintRow(|c|, rels, A[i], b[i], i);
  }

  /** The basis numbering does not follow the column layout once there are
      `>=` rows. For `max x1` with the rows `x1 >= 1` and `x1 >= 1` the
      basis is `[2, 4]`, but column 3 holds the second surplus (0 in row 1,
      -1 in row 2), not row 1's artificial, so the initial tableau is not in
      canonical form for its own basis. */
  lemma SurplusBasisMismatch()
    ensures var c, A, b, rels := [1.0], [[1.0], [1.0]], [1.0, 1.0], [Ge, Ge];
      var t := InitialTableau(c, A, b, rels);
      Rectangular(t) &&
      InitialBasis(1, rels) == [2, 4] &&
      t[1][3] == 0.0 && t[2][3] == -1.0 &&
      !Canonical(t, InitialBasis(1, rels))
  {
    var c, A, b, rels := [1.0], [[1.0], [1.0]], [1.0, 1.0], [Ge, Ge];
    assert rels[..0] == [] && rels[..1] == [Ge] && rels[..2] == rels;
    assert SurplusCount([]) == 0 && SlackCount([]) == 0;
    assert SurplusCount([Ge]) == 1 && SlackCount([Ge]) == 0 by {
      assert [Ge][..0] == [];
    }
    assert SurplusCount(rels) == 2 && SlackCount(rels) == 0 by {
      assert rels[..1] == [Ge];
    }
    InitialTableauRows(c, A, b, rels);
    var t := InitialTableau(c, A, b, rels);
    assert t[1][3] == ConstraintEntry(1, rels, A[0], b[0], 0, 3) == 0.0;
    assert t[2][3] == ConstraintEntry(1, rels, A[1], b[1], 1, 3) == -1.0;
    assert InitialBasis(1, rels) == [2, 4];
    var bs := InitialBasis(1, rels);
    assert bs[0] + 1 == 3;
    assert !UnitColumn(t, bs[0] + 1, 0 + 1);
  }

  // ---------------------------------------------------------------------
  // Phase I row

  /** The W row before any subtraction: -1 under the objective-coefficient
      column and 1 from `artStart` up to, not including, the RHS column. */
  function PhaseOneStartRow(width: nat, artStart: nat): Row
  {
    seq(width, j requires 0 <= j => if artStart <= j < width - 1 then 1.0 else if j == 0 then -1.0 else 0.0)
  }

  /** The W row after subtracting rows `1..k` whose relation is `>=`. */
  function SubtractGeRows(w: Row, t: Matrix, rels: seq<Relation>, k: nat): (r: Row)
    requires Rectangular(t) && |w| == |t[0]| && k < |t| && k <= |rels|
    ensures |r| == |w|
  {
    if k == 0 then w
    else
      var p := SubtractGeRows(w, t, rels, k - 1);
      if rels[k - 1] == Ge then Minus(p, t[k]) else p
  }

  /** Sum over the `>=` rows among `1..k` of their entry in column `j`. */
  function GeColumnSum(t: Matrix, rels: seq<Relation>, j: nat, k: nat): real
    requires Rectangular(t) && j < |t[0]| && k < |t| && k <= |rels|
  {
    if k == 0 then 0.0
    else GeColumnSum(t, rels, j, k - 1) + (if rels[k - 1] == Ge then t[k][j] else 0.0)
  }

  /** Sum of the right-hand sides of the `>=` constraints among the first `k`. */
  function GeRhsSum(b: Row, rels: seq<Relation>, k: nat): real
    requires k <= |b| && k <= |rels|
  {
    if k == 0 then 0.0 else GeRhsSum(b, rels, k - 1) + (if rels[k - 1] == Ge then b[k - 1] else 0.0)
  }

  /** The tableau after `_preparar_fase_1`: the W row in row 0 and the
      constraint rows unchanged; the original objective row is gone. */
  function PhaseOneTableau(t: Matrix, rels: seq<Relation>, artStart: nat): Matrix
    requires Rectangular(t) && |t| == |rels| + 1
  {
    [SubtractGeRows(PhaseOneStartRow(|t[0]|, artStart), t, rels, |rels|)] + t[1..]
  }

  /** Entry `j` of the W row is its start value minus the column sum of the
      `>=` rows. */
  lemma {:induction false} SubtractGeRowsAt(w: Row, t: Matrix, rels: seq<Relation>, k: nat, j: nat)
    requires Rectangular(t) && |w| == |t[0]| && k < |t| && k <= |rels| && j < |w|
    ensures SubtractGeRows(w, t, rels, k)[j] == w[j] - GeColumnSum(t, rels, j, k)
  {
    if k > 0 {
      SubtractGeRowsAt(w, t, rels, k - 1, j);
    }
  }

  /** On the initial tableau no row has anything in column 0. */
  lemma {:induction false} InitialColumnZeroSum(c: Row, A: Matrix, b: Row, rels: seq<Relation>, k: nat)
    requires WellFormed(c, A, b, rels) && k <= |rels|
    ensures Rectangular(InitialTableau(c, A, b, rels))
    ensures GeColumnSum(InitialTableau(c, A, b, rels), rels, 0, k) == 0.0
  {
    InitialTableauShape(c, A, b, rels);
    if k > 0 {
      InitialColumnZeroSum(c, A, b, rels, k - 1);
      assert InitialTableau(c, A, b, rels)[k][0] == 0.0;
    }
  }

  /** On the initial tableau the RHS column sum of the `>=` rows is the sum
      of their right-hand sides. */
  lemma {:induction false} InitialRhsSum(c: Row, A: Matrix, b: Row, rels: seq<Relation>, k: nat)
    requires WellFormed(c, A, b, rels) && k <= |rels|
    ensures Rectangular(InitialTableau(c, A, b, rels))
    ensures GeColumnSum(InitialTableau(c, A, b, rels), rels, Width(|c|, rels) - 1, k) == GeRhsSum(b, rels, k)
  {
    InitialTableauShape(c, A, b, rels);
    if k > 0 {
      InitialRhsSum(c, A, b, rels, k - 1);
      assert InitialTableau(c, A, b, rels)[k][Width(|c|, rels) - 1] == b[k - 1];
    }
  }

  /** Artificial column `q` holds a single 1, in the row of the `q`-th `>=`
      constraint, so among the first `k` rows it sums to 1 once that row is
      reached and to 0 before. */
  lemma {:induction false} InitialArtificialSum(c: Row, A: Matrix, b: Row, rels: seq<Relation>, q: nat, k: nat)
    requires WellFormed(c, A, b, rels) && k <= |rels| && q < SurplusCount(rels)
    ensures Rectangular(InitialTableau(c, A, b, rels))
    ensures ArtificialStart(|c|, rels) + q < Width(|c|, rels)
    ensures GeColumnSum(InitialTableau(c, A, b, rels), rels, ArtificialStart(|c|, rels) + q, k) ==
            if q < SurplusCount(rels[..k]) then 1.0 else 0.0
  {
    InitialTableauRows(c, A, b, rels);
    var t, n := InitialTableau(c, A, b, rels), |c|;
    var j := ArtificialStart(n, rels) + q;
    if k == 0 {
      assert rels[..0] == [];
    } else {
      InitialArtificialSum(c, A, b, rels, q, k - 1);
      CountStep(rels, Ge, k - 1);
      ArtificialBlockEntry(n, rels, A[k - 1], b[k - 1], k - 1, j);
      assert t[k][j] == ConstraintEntry(n, rels, A[k - 1], b[k - 1], k - 1, j);
      assert (q < SurplusCount(rels[..k])) ==
             (q < SurplusCount(rels[..k - 1]) || (rels[k - 1] == Ge && SurplusCount(rels[..k - 1]) == q));
    }
  }

  /** `_preparar_fase_1` on the initial tableau: the row count stays
      `m + 1` and rows `1..m` are unchanged; the W row has -1 in column 0,
      0 in every artificial column, and `-(sum of b over the >= rows)` as
      its RHS. The original objective row is no longer present. */
  lemma PhaseOneRowOnInitial(c: Row, A: Matrix, b: Row, rels: seq<Relation>)
    requires WellFormed(c, A, b, rels)
    ensures Rectangular(InitialTableau(c, A, b, rels))
    ensures var t0 := InitialTableau(c, A, b, rels);
      var t1 := PhaseOneTableau(t0, rels, ArtificialStart(|c|, rels));
      var w := Width(|c|, rels);
      IsMatrix(t1, |A| + 1, w) &&
      t1[1..] == t0[1..] &&
      t1[0][0] == -1.0 &&
      (forall j :: ArtificialStart(|c|, rels) <= j < w - 1 ==> t1[0][j] == 0.0) &&
      t1[0][w - 1] == -GeRhsSum(b, rels, |rels|)
  {
    InitialTableauShape(c, A, b, rels);
    var t0, n, w := InitialTableau(c, A, b, rels), |c|, Width(|c|, rels);
    var start := PhaseOneStartRow(w, ArtificialStart(n, rels));
    var t1 := PhaseOneTableau(t0, rels, ArtificialStart(n, rels));
    SubtractGeRowsAt(start, t0, rels, |rels|, 0);
    InitialColumnZeroSum(c, A, b, rels, |rels|);
    SubtractGeRowsAt(start, t0, rels, |rels|, w - 1);
    InitialRhsSum(c, A, b, rels, |rels|);
    forall j | ArtificialStart(n, rels) <= j < w - 1
      ensures t1[0][j] == 0.0
    {
      var q := j - ArtificialStart(n, rels);
      SubtractGeRowsAt(start, t0, rels, |rels|, j);
      InitialArtificialSum(c, A, b, rels, q, |rels|);
      CountWhole(rels, Ge);
    }
  }
}
