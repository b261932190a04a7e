/** The `SimplexSolver` class: the tableau and the basis as fields, updated
    in place by the construction, the Phase I setup, the pivot and the
    simplex loop, and read by the extraction and the alternate-optimum
    probe; `Resolve` is the driver. */
module Solver {
  import opened Tableau
  import opened TableauBuilder
  import opened PivotOperator
  import opened PivotRules

  /** What the simplex loop returns: `"OTIMO"`, `"ILIMITADO"`, or (in this
      model only) that the fuel bound ran out first. */
  datatype Status = Optimal | Unbounded | OutOfFuel

  datatype Option<T> = None | Some(value: T)

  /** The values of `x1..xn`, in order, and the objective value. */
  datatype Solution = Solution(values: seq<real>, objective: real)

  /** What the driver reports. `MissingObjectiveRow` is the `IndexError`
      raised when Phase II setup reads a row that does not exist;
      `Stalled` means the fuel bound ran out. */
  datatype Outcome =
    | Infeasible(phaseOneValue: real)
    | NoFiniteOptimum
    | Solved(solution: Solution, multiple: bool, alternate: Option<Solution>)
    | MissingObjectiveRow
    | Stalled

  /** First position of `x` in `s` (`list.index`). */
  function IndexOf(s: seq<int>, x: int): (k: nat)
    requires x in s
    ensures k < |s| && s[k] == x
    ensures forall j :: 0 <= j < k ==> s[j] != x
  {
    if s[0] == x then 0 else 1 + IndexOf(s[1..], x)
  }

  /** The value reported for decision variable `i`: the RHS of the row in
      which it is first listed as basic, or 0 when it is not basic. */
  function BasicValue(t: Matrix, basis: seq<int>, i: int): real
    requires Rectangular(t) && |t[0]| > 0 && |basis| < |t|
  {
    if i in basis then Rhs(t, IndexOf(basis, i) + 1) else 0.0
  }

  /** `sol` is what extraction reports on `t` and `basis`. */
  ghost predicate IsExtraction(t: Matrix, basis: seq<int>, n: nat, sol: Solution)
    requires Rectangular(t) && |t[0]| > 0 && |basis| < |t|
  {
    |sol.values| == n && sol.objective == Rhs(t, 0) &&
    forall i :: 0 <= i < n ==> sol.values[i] == BasicValue(t, basis, i)
  }

  /** Every variable entry of row 0 is at least `-Tol`. */
  ghost predicate OptimalityCertificate(t: Matrix)
    requires |t| > 0
  {
    forall j :: 1 <= j < |t[0]| - 1 ==> t[0][j] >= -Tol
  }

  /** Decision variable `i` is non-basic and its reduced cost is below
      `Tol` in absolute value. */
  ghost predicate ZeroCostCandidate(t: Matrix, basis: seq<int>, i: nat)
    requires |t| > 0 && i + 1 < |t[0]|
  {
    i !in basis && Abs(t[0][i + 1]) < Tol
  }

  /** Decision variable `col - 1` is the first zero-cost candidate: the
      one the alternate-optimum probe takes. */
  ghost predicate FirstZeroCostColumn(t: Matrix, basis: seq<int>, n: nat, col: int)
    requires |t| > 0 && n + 1 < |t[0]|
  {
    1 <= col <= n && ZeroCostCandidate(t, basis, col - 1) &&
    forall i :: 0 <= i < col - 1 ==> !ZeroCostCandidate(t, basis, i)
  }

  /** The simplex loop stops on `t`: no entering column, or no leaving row
      for the entering column. */
  ghost predicate Stops(t: Matrix)
    requires Rectangular(t)
  {
    var col := EnteringColumn(t[0]);
    col == -1 || NoLeavingRow(t, col)
  }

  /** The loop can make one more pass from `(t, basis)`. */
  ghost predicate CanStep(t: Matrix, basis: seq<int>)
  {
    Rectangular(t) && |basis| == |t| - 1 && !Stops(t)
  }

  /** One pass of the simplex loop: the entering column of Dantzig's rule,
      the row of the ratio test, and the pivot there, recording variable
      `col - 1` as basic in that row. */
  ghost function NextState(t: Matrix, basis: seq<int>): (Matrix, seq<int>)
    requires CanStep(t, basis)
  {
    var col := EnteringColumn(t[0]);
    var r := RatioTestRow(t, col);
    (Pivoted(t, r, col), basis[r - 1 := col - 1])
  }

  /** The pass of the loop pivots on the row the ratio test finds. */
  lemma NextStateIsPivot(t: Matrix, basis: seq<int>, col: nat, r: int)
    requires Rectangular(t) && |basis| == |t| - 1
    requires col == EnteringColumn(t[0]) && MinRatioRow(t, col, r)
    ensures CanStep(t, basis)
    ensures NextState(t, basis).0 == Pivoted(t, r, col)
    ensures NextState(t, basis).1 == basis[r - 1 := col - 1]
  {
    MinRatioRowUnique(t, col, r, RatioTestRow(t, col));
  }

  /** The tableau and basis after `k` passes of the simplex loop from
      `(t0, b0)`, or where the loop stops if it stops first. */
  ghost function Run(t0: Matrix, b0: seq<int>, k: nat): (Matrix, seq<int>)
    decreases k
  {
    if k == 0 then (t0, b0)
    else
      var s := Run(t0, b0, k - 1);
      if CanStep(s.0, s.1) then NextState(s.0, s.1) else s
  }

  /** One more pass from the state after `k` passes gives the state after
      `k + 1`. */
  lemma RunExtend(t0: Matrix, b0: seq<int>, k: nat, t: Matrix, b: seq<int>)
    requires Run(t0, b0, k) == (t, b) && CanStep(t, b)
    ensures Run(t0, b0, k + 1) == NextState(t, b)
  {
  }

  /** The state's basis is in canonical form for its tableau. */
  ghost predicate CanonicalState(s: (Matrix, seq<int>))
  {
    Rectangular(s.0) && Canonical(s.0, s.1)
  }

  /** Every pass of the loop keeps canonical form, so a run from a
      canonical tableau ends on one. */
  lemma {:induction false} RunKeepsCanonical(t0: Matrix, b0: seq<int>, k: nat)
    requires CanonicalState((t0, b0))
    ensures CanonicalState(Run(t0, b0, k))
    decreases k
  {
    if k > 0 {
      RunKeepsCanonical(t0, b0, k - 1);
      var s := Run(t0, b0, k - 1);
      if CanStep(s.0, s.1) {
        NextStateKeepsCanonical(s);
      }
    }
  }

  /** A single pass of the loop keeps canonical form. */
  lemma NextStateKeepsCanonical(s: (Matrix, seq<int>))
    requires CanStep(s.0, s.1) && CanonicalState(s)
    ensures CanonicalState(NextState(s.0, s.1))
  {
    var col := EnteringColumn(s.0[0]);
    PivotPreservesCanonical(s.0, s.1, RatioTestRow(s.0, col), col);
  }

  /** Once the loop stops it stays where it stopped. */
  lemma {:induction false} RunStaysStopped(t0: Matrix, b0: seq<int>, j: nat, k: nat)
    requires j <= k && !CanStep(Run(t0, b0, j).0, Run(t0, b0, j).1)
    ensures Run(t0, b0, k) == Run(t0, b0, j)
    decreases k
  {
    if j < k {
      RunStaysStopped(t0, b0, j, k - 1);
    }
  }

  /** In canonical form no variable is basic in two rows: its column
      cannot hold its 1 in two different rows. */
  lemma CanonicalBasisDistinct(t: Matrix, basis: seq<int>, k: nat, l: nat)
    requires Rectangular(t) && Canonical(t, basis)
    requires k < l < |basis|
    ensures basis[k] != basis[l]
  {
    assert UnitColumn(t, basis[k] + 1, k + 1);
    assert UnitColumn(t, basis[l] + 1, l + 1);
  }

  /** In canonical form the value extraction reports for a basic decision
      variable is the RHS of the row it is basic in, so the first-occurrence
      lookup of `list.index` is never ambiguous. */
  lemma BasicValueInCanonicalForm(t: Matrix, basis: seq<int>, k: nat)
    requires Rectangular(t) && Canonical(t, basis) && |t[0]| > 0
    requires k < |basis|
    ensures BasicValue(t, basis, basis[k]) == Rhs(t, k + 1)
  {
    var j := IndexOf(basis, basis[k]);
    if j < k {
      CanonicalBasisDistinct(t, basis, j, k);
    }
  }

  /** With non-negative right-hand sides every constraint row of the
      initial tableau has a non-negative RHS; without `>=` rows, where no
      Phase I runs, Phase II therefore starts from a feasible point. */
  lemma InitialFeasible(c: Row, A: Matrix, b: Row, rels: seq<Relation>)
    requires WellFormed(c, A, b, rels)
    requires forall i :: 0 <= i < |b| ==> b[i] >= 0.0
    ensures Rectangular(InitialTableau(c, A, b, rels))
    ensures FeasibleRhs(InitialTableau(c, A, b, rels))
  {
    InitialTableauShape(c, A, b, rels);
    var t := InitialTableau(c, A, b, rels);
    forall r | 1 <= r < |t|
      ensures Rhs(t, r) >= 0.0
    {
      assert Rhs(t, r) == b[r - 1];
    }
  }

  /** The ratio test skips a column entry in `(0, Tol]`, and the pivot
      can then drive that row's RHS negative. Here column 1 enters, row 1
      wins the ratio test, and row 2, whose entry is `5e-10`, ends with
      the RHS `-5e-9`: the feasible point becomes infeasible. */
  lemma TinyEntryLosesFeasibility()
    ensures var t := [[1.0, -1.0, 0.0], [0.0, 1.0, 10.0], [0.0, 0.0000000005, 0.0]];
      Rectangular(t) && FeasibleRhs(t) &&
      EnteringColumn(t[0]) == 1 && MinRatioRow(t, 1, 1) &&
      Rhs(Pivoted(t, 1, 1), 2) == -0.000000005
  {
    var t := [[1.0, -1.0, 0.0], [0.0, 1.0, 10.0], [0.0, 0.0000000005, 0.0]];
    assert Rectangular(t);
    var pr := Divided(t[1], 1.0);
    assert pr[2] == 10.0;
    assert Pivoted(t, 1, 1)[2] == Minus(t[2], Scaled(t[2][1], pr));
  }

  lemma NoArtificialLabels(names: seq<VarName>)
    requires forall k :: 0 <= k < |names| ==> !names[k].A?
    ensures ArtificialNameCount(names) == 0
    decreases |names|
  {
    if names != [] {
      NoArtificialLabels(names[..|names| - 1]);
    }
  }

  /** The tableau of the construction loop once rows `1..k` are written:
      the objective row, `k` constraint rows, and zero rows after them. */
  ghost function PartialTableau(c: Row, A: Matrix, b: Row, rels: seq<Relation>, k: nat): Matrix
    requires WellFormed(c, A, b, rels) && k <= |A|
  {
    seq(|A| + 1, r requires 0 <= r <= |A| =>
      if r == 0 then ObjectiveRow(c, rels)
      else if r <= k then ConstraintRow(|c|, rels, A[r - 1], b[r - 1], r - 1)
      else Zeros(Width(|c|, rels)))
  }

  /** The basis of the construction loop once entries `0..k-1` are set. */
  ghost function PartialBasis(n: nat, rels: seq<Relation>, k: nat): seq<int>
  {
    seq(|rels|, i requires 0 <= i < |rels| => if i < k then BasisEntry(n, rels, i) else 0)
  }

  /** Writing constraint row `k + 1` advances the partial tableau. */
  lemma PartialTableauStep(c: Row, A: Matrix, b: Row, rels: seq<Relation>, k: nat)
    requires WellFormed(c, A, b, rels) && k < |A|
    ensures PartialTableau(c, A, b, rels, k)[k + 1] == Zeros(Width(|c|, rels))
    ensures PartialTableau(c, A, b, rels, k)[k + 1 := ConstraintRow(|c|, rels, A[k], b[k], k)] ==
            PartialTableau(c, A, b, rels, k + 1)
  {
  }

  /** With every row written, the partial tableau is the initial tableau. */
  lemma PartialTableauDone(c: Row, A: Matrix, b: Row, rels: seq<Relation>)
    requires WellFormed(c, A, b, rels)
    ensures PartialTableau(c, A, b, rels, |A|) == InitialTableau(c, A, b, rels)
  {
  }

  /** Setting entry `k` to the counter's value for a `<=` or `>=` row,
      or leaving it 0 for any other token, advances the partial basis. */
  lemma PartialBasisStep(n: nat, rels: seq<Relation>, k: nat)
    requires k < |rels|
    ensures rels[k] == Le || rels[k] == Ge ==>
      PartialBasis(n, rels, k)[k := BasisEntry(n, rels, k)] == PartialBasis(n, rels, k + 1)
    ensures rels[k].Other? ==> PartialBasis(n, rels, k) == PartialBasis(n, rels, k + 1)
  {
  }

  /** How constraint `i` advances the running indices and the labels. */
  lemma ConstraintStepFacts(n: nat, rels: seq<Relation>, i: nat)
    requires i < |rels|
    ensures ConstraintNames(rels, i + 1) == ConstraintNames(rels, i) + RowNames(rels, i)
    ensures rels[i] == Le ==>
      SlackCount(rels[..i + 1]) == SlackCount(rels[..i]) + 1 &&
      SurplusCount(rels[..i + 1]) == SurplusCount(rels[..i]) &&
      Counter(n, rels[..i + 1]) == Counter(n, rels[..i]) + 1 &&
      BasisEntry(n, rels, i) == Counter(n, rels[..i]) &&
      RowNames(rels, i) == [F(SlackCount(rels[..i]) + 1)]
    ensures rels[i] == Ge ==>
      SlackCount(rels[..i + 1]) == SlackCount(rels[..i]) &&
      SurplusCount(rels[..i + 1]) == SurplusCount(rels[..i]) + 1 &&
      Counter(n, rels[..i + 1]) == Counter(n, rels[..i]) + 2 &&
      BasisEntry(n, rels, i) == Counter(n, rels[..i]) + 1 &&
      RowNames(rels, i) == [E(SurplusCount(rels[..i]) + 1), VarName.A(SurplusCount(rels[..i]) + 1)]
    ensures rels[i].Other? ==>
      SlackCount(rels[..i + 1]) == SlackCount(rels[..i]) &&
      SurplusCount(rels[..i + 1]) == SurplusCount(rels[..i]) &&
      Counter(n, rels[..i + 1]) == Counter(n, rels[..i]) &&
      RowNames(rels, i) == []
  {
    CountStep(rels, Le, i);
    CountStep(rels, Ge, i);
  }

  /** One constraint row of `_inicializar_tableau`, written into the zero
      row `zero`: the coefficients after column 0, the RHS in the last
      column, and the slack, or the surplus and artificial, entries at the
      running indices. */
  method FillRow(n: nat, rels: seq<Relation>, a: Row, rhs: real, i: nat, zero: Row,
                 slackIdx: nat, surplusIdx: nat) returns (row: Row)
    requires i < |rels| && |a| == n && zero == Zeros(Width(n, rels))
    requires slackIdx == SlackCount(rels[..i]) && surplusIdx == SurplusCount(rels[..i])
    ensures row == ConstraintRow(n, rels, a, rhs, i)
  {
    var width := |zero|;
    var colOffset := n + 1;
    row := (zero[..1] + a + zero[n + 1..])[width - 1 := rhs];
    assert row == RowBase(n, rels, a, rhs);
    if rels[i] == Le {
      SlackRowBuilt(n, rels, a, rhs, i);
      row := row[colOffset + slackIdx := 1.0];
    } else if rels[i] == Ge {
      SurplusRowBuilt(n, rels, a, rhs, i);
      row := row[colOffset + SlackCount(rels) + surplusIdx := -1.0];
      row := row[colOffset + SlackCount(rels) + SurplusCount(rels) + surplusIdx := 1.0];
    } else {
      OtherRowBuilt(n, rels, a, rhs, i);
    }
  }

  /** The bookkeeping of `_inicializar_tableau` for constraint `i`: the
      labels it appends, the basis entry it sets from the running counter,
      and how the slack, surplus, artificial and variable counters
      advance. */
  method RecordVariables(n: nat, rels: seq<Relation>, i: nat, names: seq<VarName>, bs: seq<int>,
                         slackIdx: nat, surplusIdx: nat, artificialIdx: nat, varCounter: nat)
    returns (names': seq<VarName>, bs': seq<int>, slackIdx': nat, surplusIdx': nat,
             artificialIdx': nat, varCounter': nat)
    requires i < |rels| == |bs|
    requires slackIdx == SlackCount(rels[..i]) && surplusIdx == SurplusCount(rels[..i])
    requires artificialIdx == surplusIdx && varCounter == Counter(n, rels[..i])
    ensures names' == names + RowNames(rels, i)
    ensures rels[i].Other? ==> bs' == bs
    ensures !rels[i].Other? ==> bs' == bs[i := BasisEntry(n, rels, i)]
    ensures slackIdx' == SlackCount(rels[..i + 1]) && surplusIdx' == SurplusCount(rels[..i + 1])
    ensures artificialIdx' == surplusIdx' && varCounter' == Counter(n, rels[..i + 1])
  {
    ConstraintStepFacts(n, rels, i);
    names', bs', slackIdx', surplusIdx', artificialIdx', varCounter' :=
      names, bs, slackIdx, surplusIdx, artificialIdx, varCounter;
    if rels[i] == Le {
      names' := names' + [F(slackIdx' + 1)];
      bs' := bs'[i := varCounter'];
      varCounter' := varCounter' + 1;
      slackIdx' := slackIdx' + 1;
    } else if rels[i] == Ge {
      names' := names' + [E(surplusIdx' + 1)];
      varCounter' := varCounter' + 1;
      names' := names' + [VarName.A(artificialIdx' + 1)];
      bs' := bs'[i := varCounter'];
      varCounter' := varCounter' + 1;
      surplusIdx' := surplusIdx' + 1;
      artificialIdx' := artificialIdx' + 1;
    }
  }

  /** One pass of the constraint loop of `_inicializar_tableau`: fills
      row `i + 1`, records the basis entry and the labels of constraint `i`
      and advances the counters, taking the partial tableau, basis and
      labels after `i` constraints to those after `i + 1`. */
  method AddConstraintRow(c: Row, A: Matrix, b: Row, rels: seq<Relation>, names0: seq<VarName>, i: nat,
                          t: Matrix, bs: seq<int>, names: seq<VarName>,
                          slackIdx: nat, surplusIdx: nat, artificialIdx: nat, varCounter: nat)
    returns (t': Matrix, bs': seq<int>, names': seq<VarName>,
             slackIdx': nat, surplusIdx': nat, artificialIdx': nat, varCounter': nat)
    requires WellFormed(c, A, b, rels) && i < |A|
    requires slackIdx == SlackCount(rels[..i]) && surplusIdx == SurplusCount(rels[..i])
    requires artificialIdx == surplusIdx && varCounter == Counter(|c|, rels[..i])
    requires t == PartialTableau(c, A, b, rels, i) && bs == PartialBasis(|c|, rels, i)
    requires names == names0 + ConstraintNames(rels, i)
    ensures slackIdx' == SlackCount(rels[..i + 1]) && surplusIdx' == SurplusCount(rels[..i + 1])
    ensures artificialIdx' == surplusIdx' && varCounter' == Counter(|c|, rels[..i + 1])
    ensures t' == PartialTableau(c, A, b, rels, i + 1) && bs' == PartialBasis(|c|, rels, i + 1)
    ensures names' == names0 + ConstraintNames(rels, i + 1)
  {
    var n := |c|;
    ConstraintStepFacts(n, rels, i);
    PartialTableauStep(c, A, b, rels, i);
    PartialBasisStep(n, rels, i);
    var row := FillRow(n, rels, A[i], b[i], i, t[i + 1], slackIdx, surplusIdx);
    names', bs', slackIdx', surplusIdx', artificialIdx', varCounter' :=
      RecordVariables(n, rels, i, names, bs, slackIdx, surplusIdx, artificialIdx, varCounter);
    assert names' == names0 + ConstraintNames(rels, i + 1) by {
      assert names0 + ConstraintNames(rels, i) + RowNames(rels, i) ==
             names0 + (ConstraintNames(rels, i) + RowNames(rels, i));
    }
    t' := t[i + 1 := row];
  }

  /** The start of `_inicializar_tableau`: an all-zero tableau of `m + 1`
      rows of `Width` columns with row 0 set to `[1, -c, 0, ..., 0]`, and
      an all-zero basis. */
  method StartTableau(c: Row, A: Matrix, b: Row, rels: seq<Relation>) returns (t: Matrix, bs: seq<int>)
    requires WellFormed(c, A, b, rels)
    ensures t == PartialTableau(c, A, b, rels, 0)
    ensures bs == PartialBasis(|c|, rels, 0)
  {
    var n, m := |c|, |A|;
    var numSlacks := SlackCount(rels);
    var numSurplus := SurplusCount(rels);
    var numArtificials := numSurplus;
    var width := 1 + n + numSlacks + numSurplus + numArtificials + 1;
    t := seq(m + 1, _ => Zeros(width));
    bs := seq(m, _ => 0);
    t := t[0 := [1.0] + Negated(c) + Zeros(width - n - 1)];
    assert t[0] == ObjectiveRow(c, rels);
  }

  /** The construction loop of `_inicializar_tableau` on values: the
      tableau and basis it fills row by row, and the labels it appends
      to `names0`. */
  method BuildTableau(c: Row, A: Matrix, b: Row, rels: seq<Relation>, names0: seq<VarName>)
    returns (t: Matrix, bs: seq<int>, names: seq<VarName>)
    requires WellFormed(c, A, b, rels)
    ensures t == InitialTableau(c, A, b, rels)
    ensures bs == InitialBasis(|c|, rels)
    ensures names == names0 + ConstraintNames(rels, |A|) + [RhsLabel]
  {
    var n, m := |c|, |A|;
    t, bs := StartTableau(c, A, b, rels);
    names := names0;
    var rowIdx, slackIdx, surplusIdx, artificialIdx := 1, 0, 0, 0;
    var varCounter := n;
    for i := 0 to m
      invariant rowIdx == i + 1
      invariant slackIdx == SlackCount(rels[..i]) && surplusIdx == SurplusCount(rels[..i])
      invariant artificialIdx == surplusIdx
      invariant varCounter == Counter(n, rels[..i])
      invariant t == PartialTableau(c, A, b, rels, i)
      invariant bs == PartialBasis(n, rels, i)
      invariant names == names0 + ConstraintNames(rels, i)
    {
      t, bs, names, slackIdx, surplusIdx, artificialIdx, varCounter :=
        AddConstraintRow(c, A, b, rels, names0, i, t, bs, names, slackIdx, surplusIdx, artificialIdx, varCounter);
      rowIdx := rowIdx + 1;
    }
    names := names + [RhsLabel];
    PartialTableauDone(c, A, b, rels);
    assert bs == InitialBasis(n, rels);
  }

  class SimplexSolver {
    /** The problem: objective, constraint rows, right-hand sides, relations. */
    const c: Row
    const A: Matrix
    const b: Row
    const rels: seq<Relation>
    const nVars: nat
    const nConstraints: nat

    var tableau: Matrix
    var basis: seq<int>
    var varNames: seq<VarName>

    /** The problem data are rectangular, and an artificial label is only
        ever present when some relation is `>=`. */
    ghost predicate Valid()
      reads this
    {
      WellFormed(c, A, b, rels) && nVars == |c| && nConstraints == |A| &&
      (ArtificialNameCount(varNames) > 0 ==> SurplusCount(rels) > 0)
    }

    /** The tableau has `m + 1` rows of `Width` columns and the basis has
        one entry per constraint. */
    ghost predicate Shaped()
      reads this
    {
      Valid() && IsMatrix(tableau, nConstraints + 1, Width(nVars, rels)) &&
      Rectangular(tableau) && |basis| == nConstraints
    }

    /** The solver for an already parsed problem; `n_vars` is the length
        of the coefficient rows, and the variable labels start as `x1..xn`. */
    constructor (c: Row, A: Matrix, b: Row, rels: seq<Relation>)
      requires WellFormed(c, A, b, rels)
      ensures Valid()
      ensures this.c == c && this.A == A && this.b == b && this.rels == rels
      ensures tableau == [] && basis == []
      ensures varNames == seq(|c|, i requires 0 <= i => X(i + 1))
    {
      this.c, this.A, this.b, this.rels := c, A, b, rels;
      nVars, nConstraints := |c|, |A|;
      tableau, basis := [], [];
      varNames := seq(|c|, i requires 0 <= i => X(i + 1));
      new;
      NoArtificialLabels(varNames);
    }

    /** `_inicializar_tableau`: builds the initial tableau and basis,
        appends one label per slack, surplus and artificial column (in
        constraint order) and the `RHS` label, and runs the Phase I setup
        when some relation is `>=`. */
    method InitializeTableau()
      requires Valid()
      modifies this`tableau, this`basis, this`varNames
      ensures Shaped()
      ensures basis == InitialBasis(nVars, rels)
      ensures varNames == old(varNames) + ConstraintNames(rels, nConstraints) + [RhsLabel]
      ensures SurplusCount(rels) == 0 ==> tableau == InitialTableau(c, A, b, rels)
      ensures SurplusCount(rels) > 0 ==>
        tableau == PhaseOneTableau(InitialTableau(c, A, b, rels), rels, ArtificialStart(nVars, rels))
    {
      var numSlacks := SlackCount(rels);
      var numSurplus := SurplusCount(rels);
      var numArtificials := numSurplus;
      var t, bs, names := BuildTableau(c, A, b, rels, varNames);
      ArtificialNameCountAppend(old(varNames), ConstraintNames(rels, nConstraints));
      ArtificialNameCountAppend(old(varNames) + ConstraintNames(rels, nConstraints), [RhsLabel]);
      ConstraintNamesArtificials(rels, nConstraints);
      CountWhole(rels, Ge);
      InitialTableauShape(c, A, b, rels);
      tableau, basis, varNames := t, bs, names;
      if numArtificials > 0 {
        PreparePhase1(numSlacks, numSurplus);
      }
    }

    /** `_preparar_fase_1`: appends the W row (-1 in column 0, 1 from the
        first artificial column up to the RHS), subtracts every `>=` row
        from it, swaps it with row 0 and deletes the last row, which is by
        then the original objective row. */
    method PreparePhase1(numSlacks: nat, numSurplus: nat)
      requires Shaped()
      requires numSlacks == SlackCount(rels) && numSurplus == SurplusCount(rels)
      modifies this`tableau
      ensures Shaped()
      ensures tableau == PhaseOneTableau(old(tableau), rels, ArtificialStart(nVars, rels))
    {
      var width := |tableau[0]|;
      var startArtificialCols := 1 + nVars + numSlacks + numSurplus;
      var wRow := Zeros(width)[0 := -1.0];
      wRow := seq(width, j requires 0 <= j < width => if startArtificialCols <= j < width - 1 then 1.0 else wRow[j]);
      assert wRow == PhaseOneStartRow(width, startArtificialCols);
      ghost var t0 := tableau;
      tableau := tableau + [wRow];
      var i := 0;
      while i < nConstraints
        invariant 0 <= i <= nConstraints
        invariant |tableau| == nConstraints + 2 && tableau[..nConstraints + 1] == t0
        invariant tableau[nConstraints + 1] == SubtractGeRows(wRow, t0, rels, i)
      {
        if rels[i] == Ge {
          var last := |tableau| - 1;
          tableau := tableau[last := Minus(tableau[last], tableau[i + 1])];
        }
        i := i + 1;
      }
      var last := |tableau| - 1;
      tableau := tableau[0 := tableau[last]][last := tableau[0]];
      tableau := tableau[..last];
      assert tableau == PhaseOneTableau(t0, rels, startArtificialCols);
    }

    /** `_pivotear`: normalises row `r` by the pivot element, eliminates
        column `col` from every other row, and records variable `col - 1`
        as basic in row `r`. */
    method Pivot(r: nat, col: nat)
      requires Shaped() && 1 <= r <= nConstraints && col < Width(nVars, rels)
      requires tableau[r][col] != 0.0
      modifies this`tableau, this`basis
      ensures Shaped()
      ensures tableau == Pivoted(old(tableau), r, col)
      ensures basis == old(basis)[r - 1 := col - 1]
      ensures UnitColumn(tableau, col, r)
      ensures forall i :: 0 <= i < |tableau| && i != r && old(tableau)[i][col] == 0.0 ==>
                tableau[i] == old(tableau)[i]
    {
      ghost var t0 := tableau;
      PivotedUnitColumn(t0, r, col);
      ghost var target := Pivoted(t0, r, col);
      var t := tableau;
      var pivotElement := t[r][col];
      t := t[r := Divided(t[r], pivotElement)];
      var i := 0;
      while i < |t|
        invariant 0 <= i <= |t| == |t0|
        invariant t[r] == target[r]
        invariant forall k :: 0 <= k < i ==> t[k] == target[k]
        invariant forall k :: i <= k < |t| && k != r ==> t[k] == t0[k]
      {
        if i != r {
          var multiplier := t[i][col];
          t := t[i := Minus(t[i], Scaled(multiplier, t[r]))];
        }
        i := i + 1;
      }
      assert t == target;
      tableau := t;
      basis := basis[r - 1 := col - 1];
    }

    /** `_resolver_simplex`, with at most `fuel` pivots. The loop makes
        `steps` passes from the tableau and basis it starts on, each the
        pivot the two rules choose, and stops exactly where the source
        stops: `Optimal` with no entering column (the optimality
        certificate), `Unbounded` with an entering column that no
        constraint row can leave for. `OutOfFuel` means `fuel` passes were
        made and the loop had not stopped. */
    method RunSimplex(fuel: nat) returns (status: Status, ghost steps: nat)
      requires Shaped()
      modifies this`tableau, this`basis
      ensures Shaped()
      ensures steps <= fuel && (tableau, basis) == Run(old(tableau), old(basis), steps)
      ensures status == Optimal ==> EnteringColumn(tableau[0]) == -1 && OptimalityCertificate(tableau)
      ensures status == Unbounded ==>
        var col := EnteringColumn(tableau[0]);
        1 <= col < |tableau[0]| - 1 && tableau[0][col] < -Tol && NoLeavingRow(tableau, col)
      ensures status == OutOfFuel <==> !Stops(tableau)
      ensures status == OutOfFuel ==> steps == fuel
      ensures Canonical(old(tableau), old(basis)) ==> Canonical(tableau, basis)
    {
      var remaining := fuel;
      steps := 0;
      while true
        invariant Shaped()
        invariant steps + remaining == fuel
        invariant (tableau, basis) == Run(old(tableau), old(basis), steps)
        decreases remaining
      {
        if Canonical(old(tableau), old(basis)) {
          RunKeepsCanonical(old(tableau), old(basis), steps);
          assert CanonicalState((tableau, basis));
        }
        var colPivot := EnteringColumn(tableau[0]);
        if colPivot == -1 {
          return Optimal, steps;
        }
        var rowPivot := LeavingRow(tableau, colPivot);
        if rowPivot == -1 {
          return Unbounded, steps;
        }
        if remaining == 0 {
          return OutOfFuel, steps;
        }
        ghost var t0, b0 := tableau, basis;
        NextStateIsPivot(t0, b0, colPivot, rowPivot);
        RunExtend(old(tableau), old(basis), steps, t0, b0);
        Pivot(rowPivot, colPivot);
        steps := steps + 1;
        remaining := remaining - 1;
      }
    }

    /** `_extrair_solucao`: reads, without changing anything, the value of
        each decision variable and the objective value. */
    method ExtractSolution() returns (sol: Solution)
      requires Shaped()
      ensures IsExtraction(tableau, basis, nVars, sol)
    {
      var last := |tableau[0]| - 1;
      var optimalValue := tableau[0][last];
      var values: seq<real> := [];
      var i := 0;
      while i < nVars
        invariant 0 <= i <= nVars && |values| == i
        invariant forall k :: 0 <= k < i ==> values[k] == BasicValue(tableau, basis, k)
      {
        if i in basis {
          var rowIdx := IndexOf(basis, i);
          values := values + [tableau[rowIdx + 1][last]];
        } else {
          values := values + [0.0];
        }
        i := i + 1;
      }
      sol := Solution(values, optimalValue);
    }

    /** `_verificar_solucoes_multiplas`: looks for the first non-basic
        decision variable with a reduced cost below `Tol` in absolute value
        (`col` is its column, -1 if none); for that one only, runs the ratio
        test (`row`, -1 if none) and, when a row is found, pivots and
        extracts the alternate solution. Otherwise nothing changes. */
    method CheckMultipleSolutions() returns (col: int, row: int, alternate: Option<Solution>)
      requires Shaped()
      modifies this`tableau, this`basis
      ensures Shaped()
      ensures col == -1 <==> forall i :: 0 <= i < nVars ==> !ZeroCostCandidate(old(tableau), old(basis), i)
      ensures col != -1 ==>
        1 <= col <= nVars && ZeroCostCandidate(old(tableau), old(basis), col - 1) &&
        (forall i :: 0 <= i < col - 1 ==> !ZeroCostCandidate(old(tableau), old(basis), i)) &&
        (row == -1 <==> NoLeavingRow(old(tableau), col)) &&
        (row != -1 ==> MinRatioRow(old(tableau), col, row))
      ensures col == -1 ==> row == -1
      ensures alternate.Some? <==> row != -1
      ensures row == -1 ==> tableau == old(tableau) && basis == old(basis)
      ensures row != -1 ==>
        tableau == Pivoted(old(tableau), row, col) && basis == old(basis)[row - 1 := col - 1] &&
        IsExtraction(tableau, basis, nVars, alternate.value)
    {
      col, row, alternate := -1, -1, None;
      var idx := 0;
      while idx < nVars
        invariant 0 <= idx <= nVars
        invariant tableau == old(tableau) && basis == old(basis)
        invariant forall k :: 0 <= k < idx ==> !ZeroCostCandidate(tableau, basis, k)
      {
        if idx !in basis && Abs(tableau[0][idx + 1]) < Tol {
          assert ZeroCostCandidate(old(tableau), old(basis), idx);
          col := idx + 1;
          row := LeavingRow(tableau, col);
          if row != -1 {
            Pivot(row, col);
            var sol := ExtractSolution();
            alternate := Some(sol);
          }
          return;
        }
        idx := idx + 1;
      }
    }

    /** Phase I of `resolver`: the simplex loop on the auxiliary objective,
        then the feasibility test on its value. When the value is not below
        `-Tol`, the source reads row `nConstraints + 1` for the original
        objective, which the tableau does not have. */
    method PhaseOne(fuel: nat) returns (outcome: Outcome, ghost t2: Matrix, ghost b2: seq<int>, ghost steps: nat)
      requires Shaped()
      modifies this`tableau, this`basis
      ensures Shaped()
      ensures tableau == t2 && basis == b2
      ensures steps <= fuel && (t2, b2) == Run(old(tableau), old(basis), steps)
      ensures outcome.Infeasible? || outcome.MissingObjectiveRow? || outcome.Stalled?
      ensures outcome.Stalled? <==> !Stops(t2)
      ensures outcome.Stalled? ==> steps == fuel
      ensures outcome.Infeasible? ==> outcome.phaseOneValue == Rhs(t2, 0) < -Tol
      ensures outcome.MissingObjectiveRow? ==> |t2| == nConstraints + 1 && Rhs(t2, 0) >= -Tol
      ensures Canonical(old(tableau), old(basis)) ==> Canonical(t2, b2)
    {
      var statusPhase1;
      statusPhase1, steps := RunSimplex(fuel);
      t2, b2 := tableau, basis;
      if statusPhase1 == OutOfFuel {
        return Stalled, t2, b2, steps;
      }
      var last := |tableau[0]| - 1;
      if tableau[0][last] < -Tol {
        return Infeasible(tableau[0][last]), t2, b2, steps;
      }
      // Reading row `nConstraints + 1` fails: the rows are 0..nConstraints.
      return MissingObjectiveRow, t2, b2, steps;
    }

    /** The Phase II part of `resolver`: the simplex loop on the current
        tableau, then, at an optimum, the extraction and the probe for an
        alternate optimum. The ghost results `t2` and `b2` are the tableau
        and basis on which the loop stopped. */
    method PhaseTwo(fuel: nat) returns (outcome: Outcome, ghost t2: Matrix, ghost b2: seq<int>, ghost steps: nat)
      requires Shaped()
      modifies this`tableau, this`basis
      ensures Shaped()
      ensures IsMatrix(t2, nConstraints + 1, Width(nVars, rels)) && Rectangular(t2) && |b2| == nConstraints
      ensures steps <= fuel && (t2, b2) == Run(old(tableau), old(basis), steps)
      ensures outcome.Solved? || outcome.NoFiniteOptimum? || outcome.Stalled?
      ensures outcome.Stalled? <==> !Stops(t2)
      ensures outcome.Stalled? ==> steps == fuel
      ensures outcome.NoFiniteOptimum? ==>
        var col := EnteringColumn(t2[0]);
        1 <= col < |t2[0]| - 1 && NoLeavingRow(t2, col)
      ensures !outcome.Solved? ==> tableau == t2 && basis == b2
      ensures outcome.Solved? ==>
        EnteringColumn(t2[0]) == -1 && OptimalityCertificate(t2) &&
        IsExtraction(t2, b2, nVars, outcome.solution) &&
        (outcome.multiple <==> exists i :: 0 <= i < nVars && ZeroCostCandidate(t2, b2, i)) &&
        (outcome.alternate.Some? <==>
           exists col :: FirstZeroCostColumn(t2, b2, nVars, col) && !NoLeavingRow(t2, col)) &&
        (outcome.alternate.Some? ==>
           (exists col, r :: FirstZeroCostColumn(t2, b2, nVars, col) && MinRatioRow(t2, col, r) &&
              tableau == Pivoted(t2, r, col) && basis == b2[r - 1 := col - 1]) &&
           IsExtraction(tableau, basis, nVars, outcome.alternate.value)) &&
        (outcome.alternate.None? ==> tableau == t2 && basis == b2)
      ensures Canonical(old(tableau), old(basis)) ==> Canonical(t2, b2)
    {
      var status;
      status, steps := RunSimplex(fuel);
      t2, b2 := tableau, basis;
      match status
      case Optimal =>
        var sol := ExtractSolution();
        var col, row, alternate := CheckMultipleSolutions();
        if col != -1 {
          assert FirstZeroCostColumn(t2, b2, nVars, col);
        }
        return Solved(sol, col != -1, alternate), t2, b2, steps;
      case Unbounded =>
        return NoFiniteOptimum, t2, b2, steps;
      case OutOfFuel =>
        return Stalled, t2, b2, steps;
    }

    /** `resolver`: builds the tableau and, when some label is artificial,
        runs Phase I; a Phase I value below `-Tol` is reported infeasible,
        and otherwise the next step reads row `m + 1` of a tableau that has
        only `m + 1` rows. Without artificials, Phase II runs directly and
        an optimum is extracted and probed for an alternate vertex. The
        ghost results `t2` and `b2` are the tableau and basis on which
        the last simplex loop stopped. */
    method Resolve(fuel: nat) returns (outcome: Outcome, ghost t2: Matrix, ghost b2: seq<int>, ghost steps: nat)
      requires Valid()
      modifies this`tableau, this`basis, this`varNames
      ensures Shaped()
      ensures varNames == old(varNames) + ConstraintNames(rels, nConstraints) + [RhsLabel]
      ensures IsMatrix(t2, nConstraints + 1, Width(nVars, rels)) && Rectangular(t2) && |b2| == nConstraints
      ensures steps <= fuel
      ensures SurplusCount(rels) == 0 ==>
        (t2, b2) == Run(InitialTableau(c, A, b, rels), InitialBasis(nVars, rels), steps)
      ensures SurplusCount(rels) > 0 ==>
        (t2, b2) == Run(PhaseOneTableau(InitialTableau(c, A, b, rels), rels, ArtificialStart(nVars, rels)),
                        InitialBasis(nVars, rels), steps)
      ensures SurplusCount(rels) > 0 ==> outcome.Infeasible? || outcome.MissingObjectiveRow? || outcome.Stalled?
      ensures SurplusCount(rels) == 0 ==> outcome.Solved? || outcome.NoFiniteOptimum? || outcome.Stalled?
      ensures outcome.Stalled? <==> !Stops(t2)
      ensures outcome.Stalled? ==> steps == fuel
      ensures outcome.Infeasible? ==> outcome.phaseOneValue == Rhs(t2, 0) < -Tol
      ensures outcome.MissingObjectiveRow? ==> |t2| == nConstraints + 1 && Rhs(t2, 0) >= -Tol
      ensures outcome.NoFiniteOptimum? ==>
        var col := EnteringColumn(t2[0]);
        1 <= col < |t2[0]| - 1 && NoLeavingRow(t2, col)
      ensures !outcome.Solved? ==> tableau == t2 && basis == b2
      ensures outcome.Solved? ==>
        EnteringColumn(t2[0]) == -1 && OptimalityCertificate(t2) &&
        IsExtraction(t2, b2, nVars, outcome.solution) &&
        (outcome.multiple <==> exists i :: 0 <= i < nVars && ZeroCostCandidate(t2, b2, i)) &&
        (outcome.alternate.Some? <==>
           exists col :: FirstZeroCostColumn(t2, b2, nVars, col) && !NoLeavingRow(t2, col)) &&
        (outcome.alternate.Some? ==>
           (exists col, r :: FirstZeroCostColumn(t2, b2, nVars, col) && MinRatioRow(t2, col, r) &&
              tableau == Pivoted(t2, r, col) && basis == b2[r - 1 := col - 1]) &&
           IsExtraction(tableau, basis, nVars, outcome.alternate.value)) &&
        (outcome.alternate.None? ==> tableau == t2 && basis == b2)
      ensures (forall i :: 0 <= i < |rels| ==> rels[i] == Le) ==> Canonical(t2, b2)
    {
      ghost var names0 := varNames;
      InitializeTableau();
      ArtificialNameCountAppend(names0, ConstraintNames(rels, nConstraints));
      ArtificialNameCountAppend(names0 + ConstraintNames(rels, nConstraints), [RhsLabel]);
      ConstraintNamesArtificials(rels, nConstraints);
      CountWhole(rels, Ge);
      if forall i :: 0 <= i < |rels| ==> rels[i] == Le {
        CountAllSlack(rels, |rels|);
        AllSlackCanonical(c, A, b, rels);
      }
      var numArtificials := ArtificialNameCount(varNames);
      if numArtificials > 0 {
        outcome, t2, b2, steps := PhaseOne(fuel);
      } else {
        outcome, t2, b2, steps := PhaseTwo(fuel);
      }
    }
  }
}
