# Tableau simplex solver, modelled in Dafny

This project models the `SimplexSolver` class of `main.py`. The class
solves a linear program `max c·x` subject to rows `A[i]·x <= b[i]` or
`A[i]·x >= b[i]` with the tableau method: it builds an augmented tableau
with slack, surplus and artificial columns, runs an optional Phase I on
an auxiliary objective `W`, iterates Dantzig pivots until optimality or
unboundedness, reads off the solution, and probes for a second optimal
vertex.

The model is split by concern:

- `tableau.dfy` (module `Tableau`) holds the shared vocabulary:
  - the tolerance `Tol = 1e-9`;
  - the relation tokens (`Le`, `Ge`, and `Other` for any other token);
  - the variable labels `x`, `f`, `e`, `a` and `RHS`;
  - row arithmetic, unit columns and canonical form;
  - counting of relations.
- `tableau_builder.dfy` (module `TableauBuilder`) describes, as functions
  of the problem data, the tableau, basis and labels that
  `_inicializar_tableau` builds and the row 0 that `_preparar_fase_1`
  installs. Its lemmas say what these contain.
- `pivot_operator.dfy` (module `PivotOperator`) gives the Gauss-Jordan
  pivot as a function `Pivoted`. Its lemmas cover the unit column, the
  kept canonical form, the kept feasibility and the objective value.
- `pivot_rules.dfy` (module `PivotRules`) holds the entering-column rule
  (most negative reduced cost, first index on ties) and the minimum-ratio
  leaving-row rule (first row on ties). The leaving-row rule is a method
  because the source fills a local ratio array in a loop.
- `solver.dfy` (module `Solver`) holds the class `SimplexSolver`:
  - its fields are the problem data, `tableau` (a `seq<seq<real>>`),
    `basis` and `varNames`;
  - its methods update them in place as the source does;
  - each method is proved against the functions above. The simplex loop
    is proved against `Run`, a ghost function giving the state after `k`
    passes of the loop: one Dantzig pivot per pass, none once the loop
    has stopped;
  - `Resolve` is the driver `resolver`, and it returns an `Outcome` where
    the source prints.

Numbers are exact `real`s. The tolerance tests use the source's constant
and its strict or non-strict comparisons.

The model follows what the code does, also where that differs from what a
two-phase tableau solver is meant to do:

- **Unknown relation tokens are not rejected.**
  - A solver would be expected to refuse a relation token other than
    `<=` and `>=` as malformed input.
  - The code accepts the token, adds no column for it and leaves
    `basis[i] = 0`. See `TableauBuilder.OtherRelationRow`.
- **The original objective row is not kept.**
  - Phase II needs the original objective row back in row 0 after
    Phase I, so it has to be kept aside while Phase I runs.
  - The code swaps `W` into row 0 and deletes the last row, which at that
    point is the original objective (main.py:101-102).
  - Line 221 then reads row `n_constraints + 1` of a tableau with
    `n_constraints + 1` rows, and that read always raises `IndexError`.
  - `Resolve` therefore returns `MissingObjectiveRow` on every
    Phase I run that is not infeasible. It never reaches Phase II after a
    Phase I.
- **The basis does not always number the columns it names.**
  - Canonical form needs column `basis[i] + 1` to be row `i + 1`'s unit
    column.
  - The code's counter gives one number per `<=` row and two per `>=`
    row, in constraint order. The columns, however, are grouped: all
    slacks, then all surpluses, then all artificials.
  - So `basis[i] + 1` is guaranteed to be row `i + 1`'s unit column only
    when no row is `>=` (see `TableauBuilder.AllSlackCanonical`). Some
    mixes with `>=` rows still come out right, for example a single `>=`
    row, or `<=` followed by `>=`. Others do not.
  - For `max x1` subject to `x1 >= 1` twice, the basis is `[2, 4]`, and
    `basis[0] + 1 = 3` is the second surplus column rather than row 1's
    artificial. The lemma `TableauBuilder.SurplusBasisMismatch` proves
    this for that problem.
- **The labels follow constraint order.** The labels are appended in
  constraint order (`f1`, `e1`, `a1`, …). This does not match the grouped
  column order either. The model keeps the labels as the code writes them.
- **The ratio test can lose feasibility.**
  - The ratio test ignores column entries in `(0, Tol]`.
  - The pivot still subtracts from those rows, and that can make their
    RHS negative.
  - `Solver.TinyEntryLosesFeasibility` shows this on a three-row tableau.
  - So the simplex loop's contract does not promise feasibility.
    `PivotOperator.PivotKeepsFeasible` states the condition under which
    a pivot does keep it.

## Model

| member | source | states |
|---|---|---|
| Tableau.Count | main.py:34-35 | the number of occurrences of a relation token is at most the number of constraints |
| Tableau.CountMonotone | main.py:46-75 | counting a relation over a longer prefix of the constraints never gives less, so the running slack and surplus indices never go back |
| Tableau.CountBelowTotal | main.py:58-72 | a constraint's running index is below the total count of its relation, so its slack, surplus or artificial column lies inside its block |
| Tableau.ArtificialNameCountAppend | main.py:208 | counting labels that start with `a` is additive over concatenated label lists |
| TableauBuilder.InitialTableauShape | main.py:34-56 | the tableau has `m + 1` rows of `2 + n + #(<=) + 2·#(>=)` columns; row 0 is `[1, -c, 0, …, 0]`; row `i + 1` has 0 in column 0, `A[i]` in columns `1..n` and `b[i]` in the last column |
| TableauBuilder.UnitColumnsInRange | main.py:58-72 | a slack column lies inside the slack block and a surplus or artificial column inside its block |
| TableauBuilder.SlackRowBuilt | main.py:55-59 | a `<=` row is the coefficient/RHS row with a 1 at column `n + 1 + slack_idx`, and that column is inside the tableau |
| TableauBuilder.SurplusRowBuilt | main.py:55-72 | a `>=` row is the coefficient/RHS row with -1 at `n + 1 + num_slacks + surplus_idx` and 1 at `n + 1 + num_slacks + num_surplus + artificial_idx`, both before the RHS column |
| TableauBuilder.OtherRowBuilt | main.py:55-58 | a row with an unknown relation token gets only its coefficients and RHS |
| TableauBuilder.SlackBlockEntry | main.py:59 | in the slack block, a row holds 1 exactly at its own slack column and 0 elsewhere |
| TableauBuilder.ArtificialBlockEntry | main.py:69 | in the artificial block, a row holds 1 exactly at its own artificial column and 0 elsewhere |
| TableauBuilder.InitialBasisIncreasing | main.py:40-75 | with every relation `<=` or `>=`, the basis entries are at least `n` and strictly increasing |
| TableauBuilder.CountAllSlack | main.py:34-35 | when every relation is `<=`, a prefix of length `i` counts `i` slacks and no surpluses |
| TableauBuilder.SlackRowIsCanonical | main.py:58-63 | with no `>=` row, each `<=` row's basis entry plus one is a unit column with its 1 in that row |
| TableauBuilder.AllSlackCanonical | main.py:40-63 | when every relation is `<=`: `basis[i] = n + i`, and the initial tableau is in canonical form for that basis |
| TableauBuilder.OtherRelationRow | main.py:40-75 | under an unknown relation token the basis entry stays 0 and the row has no nonzero entry between the decision columns and the RHS |
| TableauBuilder.SurplusBasisMismatch | main.py:52-75 | for `max x1` subject to `x1 >= 1` twice, the basis is `[2, 4]` and column 3 is not row 1's unit column, so the tableau is not in canonical form for its own basis |
| TableauBuilder.ConstraintNamesArtificials | main.py:60-70 | the labels that start with `a` are exactly one per `>=` constraint |
| TableauBuilder.SubtractGeRows | main.py:97-99 | subtracting the `>=` rows keeps the W row's width |
| TableauBuilder.SubtractGeRowsAt | main.py:97-99 | entry `j` of the W row is its start value minus the sum over `>=` rows of their entry `j` |
| TableauBuilder.InitialColumnZeroSum | main.py:97-99 | the `>=` rows sum to 0 in column 0 |
| TableauBuilder.InitialRhsSum | main.py:97-99 | the `>=` rows' RHS entries sum to the sum of `b` over the `>=` constraints |
| TableauBuilder.InitialArtificialSum | main.py:93-99 | over the first `k` constraint rows, the `>=` rows sum to 1 in an artificial column once its own row is included and to 0 before |
| TableauBuilder.PhaseOneRowOnInitial | main.py:88-102 | after Phase I setup the tableau still has `m + 1` rows of the same width; rows `1..m` are unchanged; the new row 0 has -1 in column 0, 0 in every artificial column and `-(sum of b over the >= rows)` as its RHS; the original objective row is no longer present |
| PivotOperator.PivotedUnitColumn | main.py:128-136 | the pivot keeps the dimensions, leaves 1 at the pivot and 0 elsewhere in its column, and leaves every row with a 0 in that column unchanged |
| PivotOperator.PivotPreservesCanonical | main.py:128-138 | if the tableau is in canonical form for the basis, it is in canonical form after the pivot for the basis with entry `r - 1` set to `c - 1` |
| PivotOperator.PivotKeepsFeasible | main.py:112-138 | a pivot on the ratio test's row keeps every RHS non-negative when no column entry lies in `(0, Tol]` |
| PivotOperator.PivotObjectiveNondecreasing | main.py:147-162 | a pivot in a column with negative reduced cost on a row with non-negative RHS never lowers the objective value |
| PivotRules.FirstArgMin | main.py:110 | `argmin` returns the first index holding the minimum of a range |
| PivotRules.EnteringColumn | main.py:104-110 | -1 if and only if every row-0 entry in columns `1..width-2` is at least `-Tol`; otherwise the first column holding the minimum, and that entry is below `-Tol` |
| PivotRules.FirstMinRatio | main.py:116-125 | -1 if and only if every ratio is infinite; otherwise the first index of the least finite ratio |
| PivotRules.MinRatioRowUnique | main.py:116-126 | at most one row satisfies the leaving-row rule: the first row of least ratio among rows whose entry is above `Tol` |
| PivotRules.MinRatioRowExists | main.py:116-126 | when some row has an entry above `Tol` in the column, a row satisfying the leaving-row rule exists |
| PivotRules.RatioTestRow | main.py:112-126 | the ratio test as a function: -1 exactly when no row has an entry above `Tol` in the column, and otherwise the row the leaving-row rule picks |
| PivotRules.LeavingRow | main.py:112-126 | -1 if and only if no row `1..m` has an entry above `Tol` in the column; otherwise the first row of least `RHS/entry` among those rows, whose entry is above `Tol` |
| Solver.IndexOf | main.py:172 | `list.index`: the first position holding the value |
| Solver.CanonicalBasisDistinct | main.py:171-173 | in canonical form no variable is basic in two rows |
| Solver.BasicValueInCanonicalForm | main.py:169-175 | in canonical form the value reported for a basic variable is the RHS of the row it is basic in |
| Solver.TinyEntryLosesFeasibility | main.py:118-120 | on a feasible tableau where column 1 enters and row 1 wins the ratio test, row 2's entry `5e-10` is skipped by the test, and the pivot leaves row 2's RHS at `-5e-9` |
| Solver.InitialFeasible | main.py:54-56 | with non-negative right-hand sides every constraint row of the initial tableau has a non-negative RHS |
| Solver.NoArtificialLabels | main.py:208 | a label list without `a` labels counts 0 artificials |
| Solver.NextStateIsPivot | main.py:147-162 | when the entering column exists and a row wins its ratio test, the loop can step, and one pass pivots on exactly that row and column and sets basis entry `r - 1` to `col - 1` |
| Solver.NextStateKeepsCanonical | main.py:147-162 | one pass of the loop keeps the tableau in canonical form for the basis |
| Solver.RunKeepsCanonical | main.py:142-163 | any number of passes from a canonical state leaves a canonical state |
| Solver.RunStaysStopped | main.py:149-158 | once the loop has stopped (optimal or no leaving row) further passes change nothing |
| Solver.RecordVariables | main.py:58-75 | the labels appended are constraint `i`'s labels; `basis[i]` is set to the counter (plus one for `>=`) only for a `<=` or `>=` row and left alone otherwise; the slack, surplus, artificial and variable counters advance to their counts over the first `i + 1` constraints |
| Solver.StartTableau | main.py:34-43 | the tableau starts as `m + 1` rows of the full width, all zero except row 0, which is `[1, -c, 0, …, 0]`; the basis starts as `m` zeros |
| Solver.FillRow | main.py:55-75 | the row written for constraint `i` is exactly its constraint row |
| Solver.AddConstraintRow | main.py:54-77 | one pass of the constraint loop takes the tableau, basis, labels and counters after `i` constraints to those after `i + 1`: row `i + 1` becomes constraint `i`'s row, its basis entry is recorded for a `<=` or `>=` row only, and its labels follow the earlier ones |
| Solver.BuildTableau | main.py:38-79 | the construction loop yields the initial tableau and basis, and appends one label per slack, then per surplus/artificial pair, in constraint order, then `RHS` |
| Solver.SimplexSolver.constructor | main.py:5-12 | stores the parsed problem and starts the labels at `x1..xn` |
| Solver.SimplexSolver.InitializeTableau | main.py:33-82 | sets the basis and labels as built; the tableau is the initial tableau with no `>=` row, and the Phase I tableau otherwise |
| Solver.SimplexSolver.PreparePhase1 | main.py:84-102 | the tableau becomes the W row over the unchanged constraint rows, with the original objective row removed |
| Solver.SimplexSolver.Pivot | main.py:128-138 | the tableau becomes `Pivoted` of the old one and basis entry `r - 1` becomes `col - 1`; the pivot column is a unit column; rows with a 0 in the pivot column and the other basis entries are unchanged |
| Solver.SimplexSolver.RunSimplex | main.py:140-163 | the new tableau and basis are `Run` of the old ones after `steps <= fuel` passes; `Optimal` only with every row-0 variable entry at least `-Tol`; `Unbounded` only with an entering column below `-Tol` that has no constraint entry above `Tol`; `OutOfFuel` exactly when the loop has not stopped, and then after `fuel` passes; canonical form is kept across pivots |
| Solver.SimplexSolver.ExtractSolution | main.py:165-182 | changes nothing; `x_{i+1}` is the RHS of row `basis.index(i) + 1` if `i` is basic and 0 otherwise; the objective value is the RHS of row 0 |
| Solver.SimplexSolver.CheckMultipleSolutions | main.py:184-203 | picks the lowest-index non-basic decision variable whose reduced cost is below `Tol` in absolute value; only for it, runs the ratio test; pivots and extracts only when a row is found; otherwise tableau and basis are unchanged |
| Solver.SimplexSolver.PhaseOne | main.py:209-221 | Phase I ends as `Infeasible` exactly when the auxiliary value in the RHS of row 0 is below `-Tol`, carrying that value; otherwise it ends as the missing-row error on an `m + 1`-row tableau, or as `Stalled` exactly when the loop has not stopped; the tableau and basis are `Run` of the Phase I tableau after the loop's passes, and canonical form is kept |
| Solver.SimplexSolver.PhaseTwo | main.py:235-243 | on the tableau `Run` reaches from the start state after the loop's passes: `Solved` carries the optimality certificate and the extraction of that tableau; `multiple` holds exactly when some non-basic decision variable has a reduced cost below `Tol` in absolute value; an alternate solution exists exactly when the first such variable's column has a leaving row, and it is the extraction after the pivot on that column's ratio-test row; without one the tableau is left as the loop stopped; `Stalled` exactly when the loop has not stopped; `NoFiniteOptimum` carries an entering column with no leaving row; canonical form is kept |
| Solver.SimplexSolver.Resolve | main.py:205-243 | appends the labels as built; the final tableau and basis are `Run` from the initial basis and the initial tableau, or the Phase I tableau when there are `>=` rows; with `>=` rows: infeasible exactly when the Phase I value is below `-Tol`, otherwise the missing-row error or `Stalled`; without `>=` rows: the Phase II outcomes above; when every relation is `<=` that tableau is in canonical form for its basis |

## Left out

- Reading the input file (`_ler_arquivo`, main.py:14-31) and the command-line entry point (main.py:245-252) are not modelled. The constructor takes the parsed `c`, `A`, `b` and relation tokens instead.
- All `print` output and the `np.round` tableau snapshots are not modelled. `Resolve` returns an `Outcome` instead, and `CheckMultipleSolutions` returns the chosen column, row and alternate solution.
- IEEE-754 float64 rounding is not modelled. The model uses exact reals, so facts such as the pivot entry becoming exactly 1 hold only in exact arithmetic.
- NaN and infinite values in the input are not modelled. The ratio array's `np.inf` is the `Infinite` case of `Ratio`.
- Solver.SimplexSolver.RunSimplex: the source loop has no termination guarantee, because it has no anti-cycling rule. The model takes a fuel bound on the number of pivots and reports `OutOfFuel` when it runs out. `Resolve` reports this as `Stalled`.
- Solver.SimplexSolver.Pivot: its requires asks for a nonzero pivot element. The source would divide by zero on a zero pivot. Every caller pivots on an entry above `Tol`.
- Lines 222-233 (restoring the objective, deleting the artificial columns, and the exact `!= 0` re-canonicalisation of row 0) are not modelled. Line 221 always raises `IndexError` first, so they cannot run.
- Solver.SimplexSolver.constructor: it requires every row of `A` to be as long as `c`. The source has no such check. When the lengths differ, main.py:42 raises a broadcast `ValueError`. With a single objective coefficient and `n_vars > 1`, it instead writes `-c[0]` into every decision column and goes on solving. Neither behaviour is modelled.
- Solver.SimplexSolver.constructor: it accepts zero constraints, and `Resolve` then solves with a one-row tableau. In the source, main.py:8 raises `IndexError` for an empty `A`, because `A.shape` then has one entry. That crash is not modelled.
- `solucao` is a dictionary keyed by `x1..xn` in insertion order. It is modelled as the sequence of values in that order.
- Labels are modelled as a datatype (`X`, `F`, `E`, `A`, `RhsLabel`) rather than strings. The only string test the core makes is `startswith('a')`, and `A` labels are exactly the labels that pass it.
