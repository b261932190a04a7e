/** Shared vocabulary of the simplex model: the tolerance, relation symbols,
    variable labels, row and matrix helpers, and relation counting. */
module Tableau {

  /** The tolerance 1e-9 used by every sign test of the solver. */
  const Tol: real := 0.000000001

  /** The relation token of one constraint line. Any token other than
      `<=` and `>=` is kept as `Other` and is not rejected. */
  datatype Relation = Le | Ge | Other(symbol: string)

  /** Variable labels: `x<k>` decision, `f<k>` slack, `e<k>` surplus,
      `a<k>` artificial, and the closing `RHS` label. */
  datatype VarName = X(k: nat) | F(k: nat) | E(k: nat) | A(k: nat) | RhsLabel

  type Row = seq<real>
  type Matrix = seq<Row>

  function Zeros(k: nat): Row
  {
    seq(k, _ => 0.0)
  }

  function Negated(v: Row): Row
  {
    seq(|v|, j requires 0 <= j < |v| => -v[j])
  }

  function Scaled(k: real, v: Row): Row
  {
    seq(|v|, j requires 0 <= j < |v| => k * v[j])
  }

  function Divided(v: Row, p: real): Row
    requires p != 0.0
  {
    seq(|v|, j requires 0 <= j < |v| => v[j] / p)
  }

  function Minus(u: Row, v: Row): Row
    requires |u| == |v|
  {
    seq(|u|, j requires 0 <= j < |u| => u[j] - v[j])
  }

  function Abs(x: real): real
  {
    if x < 0.0 then -x else x
  }

  /** `t` has `rows` rows of `cols` entries each. */
  ghost predicate IsMatrix(t: Matrix, rows: nat, cols: nat)
  {
    |t| == rows && forall i :: 0 <= i < |t| ==> |t[i]| == cols
  }

  /** A non-empty matrix whose rows all have the length of row 0. */
  ghost predicate Rectangular(t: Matrix)
  {
    |t| > 0 && forall i :: 0 <= i < |t| ==> |t[i]| == |t[0]|
  }

  /** Column `col` is a unit column with its 1 in row `row`. */
  ghost predicate UnitColumn(t: Matrix, col: int, row: int)
    requires Rectangular(t)
  {
    0 <= row < |t| && 0 <= col < |t[0]| &&
    t[row][col] == 1.0 &&
    forall i :: 0 <= i < |t| && i != row ==> t[i][col] == 0.0
  }

  /** Canonical form: variable `basis[k]` lives in column `basis[k] + 1`,
      and that column is a unit column with its 1 in row `k + 1`. */
  ghost predicate Canonical(t: Matrix, basis: seq<int>)
    requires Rectangular(t)
  {
    |basis| == |t| - 1 &&
    forall k :: 0 <= k < |basis| ==> UnitColumn(t, basis[k] + 1, k + 1)
  }

  /** Number of occurrences of `r` in `rels`, counted from the end so that
      a prefix `rels[..i+1]` unfolds onto `rels[..i]`. */
  function Count(rels: seq<Relation>, r: Relation): (k: nat)
    ensures k <= |rels|
  {
    if rels == [] then 0
    else Count(rels[..|rels| - 1], r) + (if rels[|rels| - 1] == r then 1 else 0)
  }

  /** `constraints_type.count('<=')` */
  function SlackCount(rels: seq<Relation>): nat
  {
    Count(rels, Le)
  }

  /** `constraints_type.count('>=')` */
  function SurplusCount(rels: seq<Relation>): nat
  {
    Count(rels, Ge)
  }

  lemma CountStep(rels: seq<Relation>, r: Relation, i: nat)
    requires i < |rels|
    ensures Count(rels[..i + 1], r) == Count(rels[..i], r) + (if rels[i] == r then 1 else 0)
  {
    assert rels[..i + 1][..i] == rels[..i];
  }

  lemma CountWhole(rels: seq<Relation>, r: Relation)
    ensures Count(rels[..|rels|], r) == Count(rels, r)
  {
    assert rels[..|rels|] == rels;
  }

  /** Prefix counts are monotone. */
  lemma {:induction false} CountMonotone(rels: seq<Relation>, r: Relation, i: nat, j: nat)
    requires i <= j <= |rels|
    ensures Count(rels[..i], r) <= Count(rels[..j], r)
  {
    if i < j {
      CountMonotone(rels, r, i, j - 1);
      CountStep(rels, r, j - 1);
    }
  }

  /** An occurrence at `i` is counted by every prefix that contains it
      and by no prefix that stops before it. */
  lemma CountBelowOccurrence(rels: seq<Relation>, r: Relation, i: nat, j: nat)
    requires i < j <= |rels| && rels[i] == r
    ensures Count(rels[..i], r) < Count(rels[..j], r)
  {
    CountStep(rels, r, i);
    CountMonotone(rels, r, i + 1, j);
  }

  /** Every occurrence is strictly below the total count. */
  lemma CountBelowTotal(rels: seq<Relation>, r: Relation, i: nat)
    requires i < |rels| && rels[i] == r
    ensures Count(rels[..i], r) < Count(rels, r)
  {
    CountBelowOccurrence(rels, r, i, |rels|);
    CountWhole(rels, r);
  }

  /** A prefix never counts more than the whole sequence. */
  lemma CountPrefixBound(rels: seq<Relation>, r: Relation, i: nat)
    requires i <= |rels|
    ensures Count(rels[..i], r) <= Count(rels, r)
  {
    CountMonotone(rels, r, i, |rels|);
    CountWhole(rels, r);
  }

  /** Number of artificial labels in a name list: the names that start with `a`. */
  function ArtificialNameCount(names: seq<VarName>): (k: nat)
    ensures k <= |names|
  {
    if names == [] then 0
    else ArtificialNameCount(names[..|names| - 1]) + (if names[|names| - 1].A? then 1 else 0)
  }

  lemma ArtificialNameCountAppend(u: seq<VarName>, v: seq<VarName>)
    ensures ArtificialNameCount(u + v) == ArtificialNameCount(u) + ArtificialNameCount(v)
    decreases |v|
  {
    if v == [] {
      assert u + v == u;
    } else {
      assert (u + v)[..|u + v| - 1] == u + v[..|v| - 1];
      ArtificialNameCountAppend(u, v[..|v| - 1]);
    }
  }
}
