# MathSolveX solvers in Dafny

MathSolveX is an operations-research teaching site. Its React pages solve
small problems in the browser:

- linear programs, by the two-phase simplex method or by the graphical method;
- transportation problems, by North-West Corner, Minimum-Cost or Vogel's approximation;
- a car-manufacturing supply chain;
- the staffing of production lines;
- a weekly shift schedule.

Its Django app adds a shift-gap rule, a worker-selection loop, a corner-point
workforce optimiser with a budget sensitivity solver, and two template
filters. This project models those solvers and helpers and proves what they
promise, quirks included.

Each source file becomes one module:

| module | file | source |
|---|---|---|
| `Numeric` | numeric.dfy | shared helpers: sums, `Math.round`, Python `round`, `filter`, matrices |
| `Simplex` | simplex.dfy | src/pages/SimplexMethod.tsx |
| `Transportation` | transportation.dfy | src/pages/Transportation.tsx |
| `Graphical` | graphical.dfy | src/pages/GraphicalMethod.tsx |
| `SupplyChain` | supply_chain.dfy | src/pages/WorkforceOptimization.tsx |
| `ProductionLines` | production_lines.dfy | src/pages/ProductionLines.tsx |
| `ShiftScheduler` | shift_scheduler.dfy | src/pages/WorkforceShiftScheduler.tsx |
| `WorkforceViews` | workforce_views.dfy | workforce/views.py |
| `WorkforceFilters` | workforce_filters.dfy | workforce/templatetags/workforce_filters.py |

Numbers are `real`. The tolerances 1e-10 and 1e-8 are exact decimal literals.
The code that works step by step stays imperative:

- The simplex tableau and the Phase I objective `w` are `array2<real>` buffers. The methods update them in place.
- The loops of the transportation, supply-chain, production-line, scheduling and workforce code are `while`/`for` loops with invariants.

Each method is proved equal to a specification function, or proved to keep
the invariant the page or view relies on. Lemmas then state what those functions
mean.

The following behaviours are modelled exactly as written.

Simplex:

- A `>=` row advances the slack counter, so its slack column can be another row's artificial column.
- The Phase I update of `w` reads `w[0][enterCol]` while that row is being rewritten.
- Extraction tests rows for unit vectors, not columns.

Transportation:

- North-West stops after a tie that leaves a remainder of -epsilon.
- The Vogel penalty filters twice with mismatched indices.
- The Minimum-Cost degeneracy `break` leaves only the inner loop.
- An unknown method name is solved by North-West but labelled "Vogel's Approximation".

Scheduling and workforce:

- The scheduler credits hours by name, so two workers with the same name can push the first of them past the weekly maximum.
- A negative required count in the scheduler takes workers from the end of the draw.
- In `solve_with_budget`, `range` is handed a float whenever `budget // skilled_cost` is below the cap.

## Model

| member | source | states |
|---|---|---|
| Numeric.JsRound | src/pages/GraphicalMethod.tsx:191-192 | `Math.round` gives the integer r with x - 0.5 < r <= x + 0.5 (halves go up) |
| Numeric.PyRound | workforce/views.py:365-366 | Python `round` gives an integer within 0.5 of x, and on a tie the even one |
| Simplex.CountExtraVariables | src/pages/SimplexMethod.tsx:97-104 | numSlack is the number of `<=` rows; numArtificial is the number of `>=` and `=` rows |
| Simplex.CountsSplit | src/pages/SimplexMethod.tsx:115-139 | the `slackIndex++` steps (one per `<=` or `>=` row) never outnumber the slack and artificial columns together |
| Simplex.CountsMonotone | src/pages/SimplexMethod.tsx:115-139 | the counters at row i never exceed their final values |
| Simplex.StandardColumnsInRange | src/pages/SimplexMethod.tsx:115-139 | every slack write (rows other than `=`) and every artificial write (rows other than `<=`) lands at or after column n and strictly before the RHS column |
| Simplex.SlackArtificialOverlap | src/pages/SimplexMethod.tsx:128-137 | with rows `>=`, `<=`, the `<=` row's slack column and the `>=` row's artificial column are both column 1 |
| Simplex.StandardTableau | src/pages/SimplexMethod.tsx:106-107 | the tableau has m + 1 rows and n + numSlack + numArtificial + 1 columns |
| Simplex.StandardTableauLayout | src/pages/SimplexMethod.tsx:109-139 | row 0 holds -c_j when maximising and c_j when minimising, then zeros; row i + 1 holds A[i] and b[i] in the RHS column; a `<=` row has 1 in its slack column, a `>=`/`=` row 1 in its artificial column |
| Simplex.FillObjectiveRow | src/pages/SimplexMethod.tsx:110-112 | the buffer's row 0 becomes the standard-form row 0; no other row changes |
| Simplex.FillConstraintRow | src/pages/SimplexMethod.tsx:118-139 | the buffer's row i + 1 becomes the standard-form row of constraint i; no other row changes |
| Simplex.Standardize | src/pages/SimplexMethod.tsx:94-148 | the new tableau buffer holds exactly the standard-form tableau, with the two counts |
| Simplex.EnterScanSoFar | src/pages/SimplexMethod.tsx:175-180 | the scan keeps "-1 if nothing is below -1e-10 so far, else the first of the smallest entries so far" |
| Simplex.EnteringIsDantzig | src/pages/SimplexMethod.tsx:171-182 | the entering column is -1 iff no entry among the first n is below -1e-10; otherwise it is the first column holding the most negative entry |
| Simplex.EnteringColumn | src/pages/SimplexMethod.tsx:232-243 | the loop over row 0 of the buffer returns the Dantzig column of the grid |
| Simplex.LeavingSoFarTake | src/pages/SimplexMethod.tsx:189-194 | taking row i (entry > 1e-10, ratio below the best, non-negative in Phase II) keeps the ratio-test invariant |
| Simplex.LeavingSoFarKeep | src/pages/SimplexMethod.tsx:188-196 | passing over a row keeps the ratio-test invariant |
| Simplex.LeaveScanSoFar | src/pages/SimplexMethod.tsx:185-198 | the full ratio loop ends with the first eligible row of least ratio, or -1 when there is none |
| Simplex.Leaving | src/pages/SimplexMethod.tsx:185-198 | the leaving row is -1, or a row 1..m whose pivot entry exceeds 1e-10 |
| Simplex.LeavingIsMinRatio | src/pages/SimplexMethod.tsx:246-259 | the leaving row is -1 iff no row is eligible (pivot entry > 1e-10 and, in Phase II, ratio >= 0); otherwise it is the first eligible row of smallest ratio |
| Simplex.LeavingRow | src/pages/SimplexMethod.tsx:246-257 | the ratio loop over the buffer returns the leaving row of the grid |
| Simplex.PivotedUnitColumn | src/pages/SimplexMethod.tsx:262-277 | after a pivot on (r, c), column c is the unit vector e_r, row 0 included; row r is the old row divided by the pivot; every other row is the old row minus its column-c entry times the new row r |
| Simplex.NormalizePivotRow | src/pages/SimplexMethod.tsx:264-267 | the pivot row of the buffer is divided by the pivot element, nothing else changes |
| Simplex.EliminateRow | src/pages/SimplexMethod.tsx:271-276 | row i becomes row i minus its column-c entry times the pivot row; every other row is unchanged |
| Simplex.EliminateColumn | src/pages/SimplexMethod.tsx:269-277 | every row but the pivot row is eliminated in the buffer |
| Simplex.Pivot | src/pages/SimplexMethod.tsx:261-277 | the buffer after a Phase II pivot is the pivoted grid |
| Simplex.WUpdate | src/pages/SimplexMethod.tsx:203-206 | the in-place update of w zeroes column c when the normalised row has 1 there, and leaves every later column as it was |
| Simplex.WUpdateSkipsLaterColumns | src/pages/SimplexMethod.tsx:203-206 | with w = [1, 1] and pivot row [1, 1] on column 0, w becomes [0, 1], where the textbook update gives [0, 0] |
| Simplex.NormalizeEntryUpdatingW | src/pages/SimplexMethod.tsx:204-205 | one column: the pivot-row entry is divided by the pivot, and w[0][j] loses the current w[0][c] times it |
| Simplex.NormalizePivotRowUpdatingW | src/pages/SimplexMethod.tsx:203-206 | the Phase I normalisation loop leaves the pivot row normalised and w's row 0 as `WUpdate` says; w's other rows are unchanged |
| Simplex.PhaseTwoStep | src/pages/SimplexMethod.tsx:232-277 | one turn of the Phase II loop on the buffer: it halts with the spec's outcome and leaves the buffer unchanged, or it pivots as the spec says |
| Simplex.PhaseTwoLoopEnds | src/pages/SimplexMethod.tsx:231-259 | Phase II never reports infeasible; it stops only when no row-0 entry is below -1e-10; it reports unbounded only for a column below -1e-10 with no eligible row |
| Simplex.PhaseTwo | src/pages/SimplexMethod.tsx:227-281 | the Phase II loop on the buffer yields the outcome and tableau of the spec loop |
| Simplex.AddRowToObjective | src/pages/SimplexMethod.tsx:163-165 | w's row 0 gains tableau row i, entry by entry; other rows of w are unchanged |
| Simplex.ArtificialRowSumIsSum | src/pages/SimplexMethod.tsx:161-167 | entry j of w's row 0 is the sum of column j over the rows of `>=` and `=` constraints |
| Simplex.BuildPhaseOneObjective | src/pages/SimplexMethod.tsx:157-167 | a fresh w of the tableau's shape whose row 0 sums the artificial rows and whose other rows are 0 |
| Simplex.PhaseOneStep | src/pages/SimplexMethod.tsx:171-215 | one turn of the Phase I loop: the entering column comes from w, the ratio test has no sign condition, and w follows `WUpdate` |
| Simplex.PhaseOneLoopEnds | src/pages/SimplexMethod.tsx:170-216 | Phase I stops only when no w entry is below -1e-10; it reports unbounded only for a w column below -1e-10 with no tableau entry above 1e-10 |
| Simplex.PhaseOneIterate | src/pages/SimplexMethod.tsx:170-216 | the `while (true)` loop on the two buffers yields the spec loop's outcome, tableau and w |
| Simplex.PhaseOneRun | src/pages/SimplexMethod.tsx:151-224 | without artificial variables Phase I is skipped; otherwise the result is infeasible iff the loop stopped with abs(w[0][n]) > 1e-10 |
| Simplex.PhaseOne | src/pages/SimplexMethod.tsx:151-224 | `phaseOne` on the buffer matches the spec run |
| Simplex.UnitRowScan | src/pages/SimplexMethod.tsx:302-315 | returns the first row that is the unit vector e_i within 1e-10 on every non-RHS column, or -1 when no row is |
| Simplex.VariableValue | src/pages/SimplexMethod.tsx:299-315 | variable i is the RHS of the first unit row for it, and 0 when there is none |
| Simplex.ExtractVariable | src/pages/SimplexMethod.tsx:301-315 | the `isBasic` loops over the buffer compute `VariableValue` |
| Simplex.RowTestMissesBasicColumn | src/pages/SimplexMethod.tsx:302-314 | in [[0, 0, 5], [1, 1, 3]] column 0 is basic with value 3, yet x1 is read as 0 |
| Simplex.Extract | src/pages/SimplexMethod.tsx:294-327 | optimal status; the objective is the row-0 RHS in both directions; n variables by `VariableValue`; slack i is the RHS of row i + 1 |
| Simplex.ExtractSolution | src/pages/SimplexMethod.tsx:294-327 | the solution object built from the buffer is `Extract` of its grid |
| Simplex.Solve | src/pages/SimplexMethod.tsx:76-374 | NaN input gives infeasible; unbounded gives +inf (max) or -inf (min) with no variables; infeasible gives 0 with no variables; optimal has n variables and m slacks |
| Simplex.SolveSimplex | src/pages/SimplexMethod.tsx:76-378 | the imperative solver (standardise, both phases on the buffers, extraction, status mapping) equals `Solve` |
| Transportation.BalanceBalances | src/pages/Transportation.tsx:61-77 | after padding, the supply and demand totals are equal and the originals are kept as a prefix; the dummy destination or source takes the difference and costs 0 |
| Transportation.ZerosLedger | src/pages/Transportation.tsx:80-83 | the zero allocation with full remainders satisfies the ledger (shipped + left = supply, and the same for demand) |
| Transportation.LedgerMove | src/pages/Transportation.tsx:94-96 | writing v into an empty cell and taking v off both remainders keeps the ledger |
| Transportation.CornerRun | src/pages/Transportation.tsx:90-111 | the cursor only moves down or right and never leaves the matrix |
| Transportation.CornerIterationsBound | src/pages/Transportation.tsx:90-111 | each turn moves the cursor by one, so the loop runs at most m + n - 1 times |
| Transportation.CornerAllocateExhausts | src/pages/Transportation.tsx:91-96 | a positive allocation of min(remainders) brings the smaller remainder to exactly 0 |
| Transportation.CornerAllocateKeepsLedger | src/pages/Transportation.tsx:91-102 | one allocation (the minimum, or epsilon when that is not positive) writes a positive amount into an empty cell and keeps the ledger |
| Transportation.CornerRunKeepsLedger | src/pages/Transportation.tsx:90-111 | the whole North-West loop keeps the ledger, because it visits each cell at most once |
| Transportation.NorthWestConserves | src/pages/Transportation.tsx:79-114 | each row ships its supply less what is left and each column receives its demand less what is left; no cell is negative |
| Transportation.NorthWestNonNegative | src/pages/Transportation.tsx:91-102 | North-West never writes a negative cell |
| Transportation.NorthWestStopsAfterTie | src/pages/Transportation.tsx:104-110 | for supply [10, 10] and demand [10, 10] the result is [[10, 0], [epsilon, 0]]: column 1 gets nothing |
| Transportation.NorthWestCorner | src/pages/Transportation.tsx:79-114 | the while loop returns the North-West allocation |
| Transportation.CheapestFromIsCheapest | src/pages/Transportation.tsx:133-146 | the row-by-row search that skips used-up rows and columns and replaces the best only on a strictly lower cost ends with the cheapest open cell |
| Transportation.CheapestOpen | src/pages/Transportation.tsx:130-146 | with no open cell (both remainders above epsilon), (0, 0); otherwise an open cell no costlier than any open cell and strictly cheaper than every open cell before it in row-major order |
| Transportation.CheapestCell | src/pages/Transportation.tsx:130-146 | the nested `for` loops with their `continue`s return exactly that cheapest open cell |
| Transportation.CheapestIsOpen | src/pages/Transportation.tsx:129-146 | while some supply and some demand exceed epsilon, the cheapest cell is open |
| Transportation.LedgerAtMostMove | src/pages/Transportation.tsx:149-152 | overwriting a cell with v and taking v off both remainders keeps "shipped + left <= supply" |
| Transportation.AllocateKeepsBookkept | src/pages/Transportation.tsx:148-152 | allocating min(remainders) at an open cell keeps the Minimum-Cost bookkeeping and brings the row or column remainder to 0 |
| Transportation.AllocateLowersCounts | src/pages/Transportation.tsx:129-152 | that allocation lowers the number of remainders above epsilon, so the loop ends |
| Transportation.FirstCandidate | src/pages/Transportation.tsx:157-158 | -1 iff no cell from column j on is 0 with both remainders above epsilon; otherwise the first such column |
| Transportation.FixRowOf | src/pages/Transportation.tsx:157-163 | epsilon goes into the first candidate cell of the row and comes off that row and column remainder; with no candidate nothing changes |
| Transportation.FixRow | src/pages/Transportation.tsx:157-164 | the inner loop, which `break`s after its first write, computes exactly that row fix |
| Transportation.FixRowKeepsRowsFixed | src/pages/Transportation.tsx:156-165 | after row i, each fixed row has at most one new epsilon cell, and later rows are untouched |
| Transportation.FixRowKeepsBookkept | src/pages/Transportation.tsx:156-165 | the row fix keeps the Minimum-Cost bookkeeping |
| Transportation.FixRowsFromFixes | src/pages/Transportation.tsx:156-165 | the fix over the rows changes only candidate cells, to epsilon, at most one per row, and never raises a remainder |
| Transportation.FixRowsFromKeepsBookkept | src/pages/Transportation.tsx:156-165 | the fix over the rows keeps the Minimum-Cost bookkeeping |
| Transportation.FixDegeneracy | src/pages/Transportation.tsx:156-165 | the outer loop computes the row fix for each row in turn, from row 0 to the last |
| Transportation.DegeneracyFixes | src/pages/Transportation.tsx:124-166 | when fewer than m + n - 1 cells exceed epsilon, the fix changes only candidate cells, at most one per row, to epsilon; otherwise nothing changes |
| Transportation.DegeneracyLowers | src/pages/Transportation.tsx:155-166 | the degeneracy step keeps the shapes and never adds a remainder above epsilon |
| Transportation.DegeneracyKeeps | src/pages/Transportation.tsx:155-166 | the degeneracy step keeps the Minimum-Cost bookkeeping |
| Transportation.HandleDegeneracy | src/pages/Transportation.tsx:124-166 | `if (isDegenerate())` on the loop arrays computes the degeneracy step |
| Transportation.MinCostTurnUnfold | src/pages/Transportation.tsx:148-166 | a turn writes min(remainders) into an open cell, takes it off both remainders, then runs the degeneracy step |
| Transportation.MinCostTurnLowers | src/pages/Transportation.tsx:129-166 | a turn keeps the shapes and strictly lowers the number of remainders above epsilon, so the loop ends |
| Transportation.MinCostTurnKeeps | src/pages/Transportation.tsx:129-166 | a turn keeps the Minimum-Cost bookkeeping |
| Transportation.MinCostRun | src/pages/Transportation.tsx:129-167 | the loop from any state ends with every row or every column at most epsilon |
| Transportation.MinimumCostStep | src/pages/Transportation.tsx:129-166 | one iteration computes exactly one turn: the cheapest open cell is overwritten with min(remainders), both remainders lose it, and the degeneracy step follows |
| Transportation.MinimumCost | src/pages/Transportation.tsx:116-170 | the loop from the zero allocation computes the Minimum-Cost run; it ends with every row or every column at most epsilon, no negative cell, shipped + left at most supply and demand, and a negative remainder only where none was taken |
| Transportation.FilterMembers | src/pages/Transportation.tsx:184 | a value survives `filter((_, k) => mask[k])` iff it sits at a position the mask keeps |
| Transportation.Penalty | src/pages/Transportation.tsx:183-189 | the penalty is never negative |
| Transportation.GapIsSortedGap | src/pages/Transportation.tsx:187-188 | the gap is sorted[1] - sorted[0] for every ascending arrangement of the kept costs |
| Transportation.PenaltyIsSortedGap | src/pages/Transportation.tsx:183-189 | the penalty is 0 when at most one cost is kept, else sorted[1] - sorted[0] of any ascending arrangement |
| Transportation.PenaltyFiltersTwice | src/pages/Transportation.tsx:193-197 | with costs [1, 5, 2] and column mask [false, true, true], the penalty of the pre-filtered row is 0 where one filter gives 3 |
| Transportation.RowPenalties | src/pages/Transportation.tsx:193-197 | an active row with supply left gets the (doubly filtered) penalty; any other row gets -1 |
| Transportation.ColumnPenalties | src/pages/Transportation.tsx:199-203 | an active column with demand left gets the (doubly filtered) penalty; any other column gets -1 |
| Transportation.FirstMax | src/pages/Transportation.tsx:206-212 | `indexOf(Math.max(...))` is the first index holding the largest entry |
| Transportation.FirstMinWhere | src/pages/Transportation.tsx:214-218 | the `reduce` gives -1 iff nothing is eligible, else the first eligible index of least value |
| Transportation.VogelSelectRule | src/pages/Transportation.tsx:205-231 | the row branch is taken when the largest row penalty is >= the largest column penalty and above -1 (rows win ties); otherwise the column branch, or no cell when every row and column is closed |
| Transportation.VogelSelectOpen | src/pages/Transportation.tsx:209-231 | while an active row and an active column both have more than epsilon left, the choice is such a cell, so the loop's two `break`s never fire |
| Transportation.VogelLedgerMove | src/pages/Transportation.tsx:233-237 | allocating min(remainders) to an empty cell keeps the exact ledger and empties the row or the column |
| Transportation.VogelActivityMove | src/pages/Transportation.tsx:239-241 | after it, deactivating a row or column at most epsilon keeps "only used-up lines are inactive" |
| Transportation.VogelAllocateKeeps | src/pages/Transportation.tsx:233-241 | one allocation plus deactivation keeps the whole Vogel bookkeeping |
| Transportation.VogelAllocateShape | src/pages/Transportation.tsx:233-241 | an allocation keeps the shapes, and only used-up rows and columns are inactive |
| Transportation.VogelAllocateLowers | src/pages/Transportation.tsx:233-237 | an allocation strictly lowers the number of remainders above epsilon |
| Transportation.VogelTurnLowers | src/pages/Transportation.tsx:191-241 | a turn keeps the shapes and the flags sound and strictly lowers the number of remainders above epsilon, so the loop ends |
| Transportation.VogelTurnKeeps | src/pages/Transportation.tsx:191-241 | a turn keeps the exact ledger, non-negative cells and sound flags |
| Transportation.VogelRun | src/pages/Transportation.tsx:191-243 | the loop from any state ends with every row or every column at most epsilon |
| Transportation.VogelStep | src/pages/Transportation.tsx:191-241 | one iteration computes exactly one turn: the Vogel choice gets min(remainders), both remainders lose it, and a row or column left at most epsilon is deactivated |
| Transportation.Vogel | src/pages/Transportation.tsx:172-245 | the loop from the zero allocation with every line active computes the Vogel run; it ends with every row or every column at most epsilon, shipped + left equal to supply and demand, and no negative cell |
| Transportation.TotalCost | src/pages/Transportation.tsx:262-268 | the nested loop computes the sum of allocation times unit cost |
| Transportation.CostDropZeroColumn | src/pages/Transportation.tsx:270-273 | a zero-cost dummy column adds nothing to the cost |
| Transportation.StripUndoesPadding | src/pages/Transportation.tsx:270-277 | stripping the dummy line restores the original shape, and the padded cost equals the original cost of the stripped allocation |
| Transportation.StripNonNegative | src/pages/Transportation.tsx:270-277 | stripping keeps every cell non-negative |
| Transportation.MethodLabel | src/pages/Transportation.tsx:283-284 | "northWest" and "minCost" get their own labels; every other name is labelled "Vogel's Approximation" |
| Transportation.BalancedFlagTolerates | src/pages/Transportation.tsx:285 | totals 1 and 0.99999999999 get a dummy destination, yet the problem is reported balanced |
| Transportation.RunMethod | src/pages/Transportation.tsx:247-260 | "minCost" gives the Minimum-Cost run, "vam" the Vogel run, and "northWest" or any other name the North-West allocation, all of the balanced shape and non-negative |
| Transportation.SolveTransportation | src/pages/Transportation.tsx:58-289 | the allocation is the chosen method's allocation on the padded problem with the dummy line stripped (North-West for an unknown name); it has the caller's shape and no negative cell; the cost is its cost under the original costs; the label follows the name; balanced iff the totals differ by < 1e-10 |
| Graphical.Intersect | src/pages/GraphicalMethod.tsx:95-100 | no intersection iff abs(a1 b2 - a2 b1) < 1e-10 |
| Graphical.IntersectionOnBothLines | src/pages/GraphicalMethod.tsx:102-105 | the returned point satisfies both equations exactly and is the only point that does |
| Graphical.EqualityIsBothInequalities | src/pages/GraphicalMethod.tsx:113-121 | a point that meets an `=` constraint also meets the `<=` and `>=` constraints with the same coefficients |
| Graphical.WithNonNegativity | src/pages/GraphicalMethod.tsx:126-131 | the originals are kept in order, followed by exactly -x <= 0 and -y <= 0 |
| Graphical.NonNegativityMeaning | src/pages/GraphicalMethod.tsx:108-131 | a point meets the augmented list iff it meets the originals and both coordinates are >= -1e-10 |
| Graphical.Round4 | src/pages/GraphicalMethod.tsx:191-192 | rounding to four decimals moves a coordinate by at most 0.00005 |
| Graphical.Round2 | src/pages/GraphicalMethod.tsx:261-263 | rounding to two decimals moves a value by at most 0.005 |
| Graphical.VisitPair | src/pages/GraphicalMethod.tsx:181-202 | after pair (i, j), every stored point was found by a pair, no two are within 1e-8, and every pair up to (i, j) is near a stored point; the new list is the old one with the pair's rounded point pushed at the end unless a close point is already stored (`Visit`) |
| Graphical.Vertices | src/pages/GraphicalMethod.tsx:177-205 | every stored vertex comes from a pair i < j; no two lie within 1e-8 of each other; every pair's rounded feasible in-window intersection is near a stored vertex; the list is `VerticesOf`, the pushes in the order of the nested pair loop |
| Graphical.StoredVertexIsRoundedFeasible | src/pages/GraphicalMethod.tsx:186-192 | a stored vertex is the four-decimal rounding of an in-window intersection of two augmented lines that met every constraint |
| Graphical.FirstBestUnique | src/pages/GraphicalMethod.tsx:210-217 | at most one vertex is the first best, so with the strict comparison ties go to the earliest stored vertex |
| Graphical.Optimum | src/pages/GraphicalMethod.tsx:207-218 | none iff there are no vertices; otherwise no vertex is better (max or min) and every earlier vertex is strictly worse |
| Graphical.SolveGraphical | src/pages/GraphicalMethod.tsx:133-270 | the vertices are those of the augmented list, in pair-loop order (`VerticesOf`); no solution iff there is none; the solution is the first best vertex of that list and its value, rounded to two decimals |
| SupplyChain.ScanPair | src/pages/WorkforceOptimization.tsx:174-183 | examining pair (s, f) keeps "cheapest eligible pair so far, first on ties" |
| SupplyChain.SkipRow | src/pages/WorkforceOptimization.tsx:171-173 | a supplier without room has no eligible pair, so skipping it keeps the scan invariant |
| SupplyChain.ScanDone | src/pages/WorkforceOptimization.tsx:169-185 | after all pairs, the result is -1 iff no pair is eligible, else the cheapest eligible pair |
| SupplyChain.ScanNext | src/pages/WorkforceOptimization.tsx:167-183 | one step of the nested loops moves strictly forward, and a picked pair stays a pair with room on both sides |
| SupplyChain.ScanNextKeeps | src/pages/WorkforceOptimization.tsx:167-183 | one step of the nested loops keeps "cheapest eligible pair so far, first on ties" |
| SupplyChain.ScanRow | src/pages/WorkforceOptimization.tsx:172-182 | the inner `forEach` over the factories leaves exactly the state from which the scan of the next supplier's row goes on to the same pair |
| SupplyChain.ScanFromIsCheapest | src/pages/WorkforceOptimization.tsx:167-183 | scanning on from any point where that invariant holds ends on the cheapest eligible pair |
| SupplyChain.CheapestOf | src/pages/WorkforceOptimization.tsx:163-185 | the pair a round picks is (-1, -1) or a pair with supplier room and factory room above 0 |
| SupplyChain.CheapestOfIsCheapest | src/pages/WorkforceOptimization.tsx:163-185 | the pair is (-1, -1) iff no pair has supplier room and factory room > 0; otherwise an eligible pair no dearer than any eligible pair and cheaper than every one before it |
| SupplyChain.CheapestPair | src/pages/WorkforceOptimization.tsx:163-185 | the two nested `forEach` loops return exactly that pair |
| SupplyChain.NothingAllocated | src/pages/WorkforceOptimization.tsx:147-152 | the zero matrix with the full demand satisfies the allocation invariant |
| SupplyChain.AddToCell | src/pages/WorkforceOptimization.tsx:194-195 | adding q to a cell takes q off that supplier's room and that factory's room and adds q to the total |
| SupplyChain.AllocateKeeps | src/pages/WorkforceOptimization.tsx:189-196 | adding min(demand left, supplier room, factory room) keeps every room non-negative and the total plus the demand left equal to the market demand |
| SupplyChain.AllocateProgresses | src/pages/WorkforceOptimization.tsx:189-196 | each round empties the demand, a supplier or a factory, so the loop ends |
| SupplyChain.WithinCapacities | src/pages/WorkforceOptimization.tsx:189-196 | under the invariant, each row sum is within its supplier's capacity and each column sum within its factory's capacity (or is 0) |
| SupplyChain.NextRoundLowers | src/pages/WorkforceOptimization.tsx:189-196 | a round on an eligible pair keeps the shape and lowers the loop measure (demand, supplier rooms, factory rooms that are still positive) |
| SupplyChain.NextRoundKeeps | src/pages/WorkforceOptimization.tsx:189-196 | a round on an eligible pair keeps the allocation invariant: no negative cell or room, total plus demand left equal to the market demand |
| SupplyChain.Greedy | src/pages/WorkforceOptimization.tsx:162-197 | the greedy run from any state keeps the matrix shape |
| SupplyChain.GreedyUnfold | src/pages/WorkforceOptimization.tsx:162-196 | while demand is left and a pair is picked, the picked pair is eligible and the run goes on from the round on it |
| SupplyChain.RoundStep | src/pages/WorkforceOptimization.tsx:187-196 | the rooms computed in the loop body give exactly the round the run takes, and the measure falls |
| SupplyChain.GreedyKeeps | src/pages/WorkforceOptimization.tsx:162-197 | every greedy run keeps the allocation invariant |
| SupplyChain.GreedyEnds | src/pages/WorkforceOptimization.tsx:162-197 | the run stops only when the demand is placed or no pair is eligible |
| SupplyChain.GreedyAllocationSound | src/pages/WorkforceOptimization.tsx:144-200 | the greedy allocation has no negative cell and no row or column beyond its capacity; its total is at most the market demand, and equals it unless no pair is eligible |
| SupplyChain.AllocationRound | src/pages/WorkforceOptimization.tsx:163-196 | one loop body stops iff no pair is picked and then changes nothing; otherwise the run continues from the new state, which is closer to the end |
| SupplyChain.OptimizeAllocation | src/pages/WorkforceOptimization.tsx:144-200 | the loop returns exactly the greedy allocation, with no negative cell, rows and columns within capacity, and a total at most the market demand, below it only when no pair is eligible |
| SupplyChain.AccumulateRow | src/pages/WorkforceOptimization.tsx:88-100 | one supplier's row adds its cost, its row sum, its utilisation and its column shares |
| SupplyChain.Totals | src/pages/WorkforceOptimization.tsx:82-105 | cost is the sum of quantity times (supplier + transport + production cost); production is the total; utilisations are the row and column sums; revenue = production times price; profit = revenue - cost |
| SupplyChain.UtilizationsAgree | src/pages/WorkforceOptimization.tsx:96-99 | the factory utilisations add up to the total production |
| SupplyChain.SolveSupplyChain | src/pages/WorkforceOptimization.tsx:76-105 | the allocation is the greedy allocation; production is its total and at most the demand, and equals the demand unless no pair is eligible; the utilisations are its row and column sums, within capacity, each adding up to the production; cost is the unit-cost sum; revenue is production times price and profit is revenue less cost |
| ProductionLines.PriorityValue | src/pages/ProductionLines.tsx:38-45 | High is 3, Medium 2, anything else 1 |
| ProductionLines.InsertPermutes | src/pages/ProductionLines.tsx:110-114 | inserting adds exactly that line to the multiset |
| ProductionLines.InsertSorted | src/pages/ProductionLines.tsx:110-114 | inserting into a sorted list keeps it sorted |
| ProductionLines.SortByPriorityCorrect | src/pages/ProductionLines.tsx:110-114 | the sort orders by priority, then production rate, both descending, and is a permutation |
| ProductionLines.StaffingSort | src/pages/ProductionLines.tsx:110-114 | sorting does not change the number of workers given out |
| ProductionLines.AtMinimum | src/pages/ProductionLines.tsx:102-105 | every line starts at its minimum |
| ProductionLines.StaffingAtMinimum | src/pages/ProductionLines.tsx:107 | the minimum staffing uses exactly the sum of the minimums |
| ProductionLines.PassGive | src/pages/ProductionLines.tsx:121-125 | a line below its maximum takes one worker and the pass structure is kept |
| ProductionLines.PassSkip | src/pages/ProductionLines.tsx:121 | a line at its maximum is passed over and has no headroom left beyond the passes so far |
| ProductionLines.PassDone | src/pages/ProductionLines.tsx:120-126 | a pass that reached every line is one more full pass |
| ProductionLines.AllFull | src/pages/ProductionLines.tsx:128 | a pass that gave nobody a worker leaves every line at its maximum |
| ProductionLines.PassesBounds | src/pages/ProductionLines.tsx:117-129 | every line has at least its minimum, and exceeds its maximum only if the minimum already does |
| ProductionLines.PassesFair | src/pages/ProductionLines.tsx:117-129 | a line below its maximum is at most one extra worker behind any line, and has at least as many extras as every line after it |
| ProductionLines.DistributePass | src/pages/ProductionLines.tsx:120-126 | one pass keeps the lines and the worker total, and gives workers iff `workersAllocated`; a pass that gives none found no headroom |
| ProductionLines.OptimizeWorkerAllocation | src/pages/ProductionLines.tsx:87-133 | rejects no lines, and a pool below the sum of the minimums; otherwise the result is in sorted order, within the bounds, uses at most the pool, uses all of it unless every line is full, and hands out extras fairly |
| ProductionLines.AddProductionLine | src/pages/ProductionLines.tsx:63-73 | an empty name is refused; otherwise the line is appended with id count + 1 |
| ProductionLines.AddKeepsNumbering | src/pages/ProductionLines.tsx:70-73 | appending keeps the ids 1..n in order |
| ShiftScheduler.RemoveSkill | src/pages/WorkforceShiftScheduler.tsx:88-93 | the skill is gone and every other skill is kept |
| ShiftScheduler.ToggleSkill | src/pages/WorkforceShiftScheduler.tsx:79-86 | the skill is present afterwards iff it was absent before; other skills are unaffected |
| ShiftScheduler.ToggleTwice | src/pages/WorkforceShiftScheduler.tsx:79-86 | toggling an absent skill twice restores the list |
| ShiftScheduler.RemoveSkillIdempotent | src/pages/WorkforceShiftScheduler.tsx:88-93 | removing twice is removing once |
| ShiftScheduler.AddWorker | src/pages/WorkforceShiftScheduler.tsx:95-116 | an empty name or skill list is refused; otherwise a worker with id count + 1 and 0 hours is appended |
| ShiftScheduler.AddWorkerNumbers | src/pages/WorkforceShiftScheduler.tsx:105-113 | appending to workers numbered 1..n keeps them numbered 1..n + 1 |
| ShiftScheduler.RemoveWorker | src/pages/WorkforceShiftScheduler.tsx:118-121 | a worker is in the result iff it was in the list and has another id |
| ShiftScheduler.RemoveWorkerAppend | src/pages/WorkforceShiftScheduler.tsx:118-121 | removal keeps the order of the rest: from the empty list it gives the empty list, and a list extended by one worker gives the removal extended by that worker unless it has the id |
| ShiftScheduler.RemoveAbsentWorker | src/pages/WorkforceShiftScheduler.tsx:118-121 | removing an id nobody has changes nothing |
| ShiftScheduler.RemoveThenAddReusesId | src/pages/WorkforceShiftScheduler.tsx:106 | removing worker 1 of two and adding a worker gives two workers with id 2 |
| ShiftScheduler.AddShift | src/pages/WorkforceShiftScheduler.tsx:123-141 | an empty name, start or end is refused; otherwise a shift with id count + 1 and nobody assigned is appended |
| ShiftScheduler.RemoveShift | src/pages/WorkforceShiftScheduler.tsx:143-146 | a shift is in the result iff it was in the list and has another id |
| ShiftScheduler.RemoveShiftAppend | src/pages/WorkforceShiftScheduler.tsx:143-146 | removal keeps the order of the remaining shifts, in the same two equations as for workers |
| ShiftScheduler.AvailableInOrder | src/pages/WorkforceShiftScheduler.tsx:175-177 | the drawn workers are the ones with 8 more hours left in their maximum, from the order |
| ShiftScheduler.AvailableDistinct | src/pages/WorkforceShiftScheduler.tsx:175-181 | a permutation draw never holds a worker twice |
| ShiftScheduler.SliceLength | src/pages/WorkforceShiftScheduler.tsx:182 | `slice(0, end)` keeps min(end, n) entries, and a negative end counts from the back |
| ShiftScheduler.Picks | src/pages/WorkforceShiftScheduler.tsx:180-183 | the picks are a prefix of the draw, of that length, all available |
| ShiftScheduler.NegativeRequiredTakesFromEnd | src/pages/WorkforceShiftScheduler.tsx:182 | with three available workers, a required count of -1 takes two |
| ShiftScheduler.FirstNamed | src/pages/WorkforceShiftScheduler.tsx:189 | `findIndex` is -1 iff no worker has the name, else the first such worker |
| ShiftScheduler.CreditKeepsWorkers | src/pages/WorkforceShiftScheduler.tsx:188-193 | crediting changes only hours |
| ShiftScheduler.CreditByDistinctNames | src/pages/WorkforceShiftScheduler.tsx:188-193 | with distinct names, crediting by name credits each picked worker itself |
| ShiftScheduler.CreditPicksKeepsHours | src/pages/WorkforceShiftScheduler.tsx:175-193 | crediting distinct available workers once each keeps everyone within their maximum |
| ShiftScheduler.CreditDuplicateNames | src/pages/WorkforceShiftScheduler.tsx:188-193 | two available workers named Ann with a maximum of 8: both are picked and the first gets 16 hours |
| ShiftScheduler.CreditHours | src/pages/WorkforceShiftScheduler.tsx:188-193 | the `forEach` credits 8 hours per name to the first worker of that name |
| ShiftScheduler.FillShift | src/pages/WorkforceShiftScheduler.tsx:174-194 | one (day, shift) computes exactly `DayStep`: the names `Picks` draws from the workers as they stand, written under the shift's name and credited 8 hours each |
| ShiftScheduler.DayStepEntry | src/pages/WorkforceShiftScheduler.tsx:175-185 | the shift's entry holds no more names than there are workers and, for a count that is not negative, no more than the shift requires, all names of workers of the list; nothing else in the day's map changes |
| ShiftScheduler.DayStepWorkers | src/pages/WorkforceShiftScheduler.tsx:175-193 | one shift changes the workers only in their hours and, with distinct names and everybody within their maximum, keeps everybody within it |
| ShiftScheduler.DayStepFilled | src/pages/WorkforceShiftScheduler.tsx:174-185 | a day's map filled for the shifts before s - 1 is, after shift s - 1, filled for the shifts before s |
| ShiftScheduler.FillKeepsDay | src/pages/WorkforceShiftScheduler.tsx:185 | writing a shift's entry keeps the day's map in shape |
| ShiftScheduler.FillDay | src/pages/WorkforceShiftScheduler.tsx:173-194 | the `forEach` over the shifts computes exactly the day of `DayAfter`: each shift in list order writes the names drawn from the workers as they stand under its name and credits them; the map has an entry per shift name, the workers change only in hours, and the cap survives under distinct names |
| ShiftScheduler.DayAfterShaped | src/pages/WorkforceShiftScheduler.tsx:174-194 | after the first s shifts of a day, the map has an entry per shift name, each naming workers of the list and no more than the shift requires; the workers change only in their hours, and with distinct names nobody who was within their maximum goes over it |
| ShiftScheduler.WeekStepShaped | src/pages/WorkforceShiftScheduler.tsx:166-195 | one more day keeps every day filled and the workers unchanged but for hours, within their maximum under distinct names |
| ShiftScheduler.WeekAfterShaped | src/pages/WorkforceShiftScheduler.tsx:159-195 | after the first i days, starting from the reset hours, every day is filled and the workers are unchanged but for hours, within their maximum under distinct names |
| ShiftScheduler.ResetHours | src/pages/WorkforceShiftScheduler.tsx:159 | every worker comes back with 0 hours and otherwise unchanged |
| ShiftScheduler.ClearShifts | src/pages/WorkforceShiftScheduler.tsx:160 | every shift comes back with nobody assigned and otherwise unchanged |
| ShiftScheduler.GenerateSchedule | src/pages/WorkforceShiftScheduler.tsx:148-201 | returns exactly `Schedule`: a refusal iff there are no workers or no shifts; otherwise seven days, each `DayAfter` over every shift starting from the hours the previous day left, the first day from the reset hours; every day filled, workers unchanged but for hours, the cap kept under distinct names, shifts cleared |
| WorkforceFilters.Subtract | workforce/templatetags/workforce_filters.py:6-8 | adding arg back to the result gives value |
| WorkforceFilters.Divide | workforce/templatetags/workforce_filters.py:10-14 | 0 for a zero divisor; otherwise the quotient, whose product with arg is value |
| WorkforceFilters.DivideRoundTrip | workforce/templatetags/workforce_filters.py:11-14 | dividing then multiplying back gives value iff arg is not 0 or value is 0 |
| WorkforceViews.SlotIndex | workforce/views.py:26-27 | morning 0, afternoon 1, night 2 |
| WorkforceViews.GapRuleMeaning | workforce/views.py:39-53 | the shift is allowed iff no assignment within two days is less than two shifts away |
| WorkforceViews.GapRuleRangeSuffices | workforce/views.py:29-37 | the two-day range loses nothing: the rule is the same over all assignments |
| WorkforceViews.GapRuleExamples | workforce/views.py:44-51 | the same shift and the morning after a night are refused; a morning and a night of the same day are allowed |
| WorkforceViews.PickedExtend | workforce/views.py:171-176 | appending a qualifying candidate keeps the picks increasing and qualifying |
| WorkforceViews.NeedsTake | workforce/views.py:171-176 | taking a candidate for an open place of its level lowers that need by one and keeps the counts and completeness |
| WorkforceViews.TakeSkilled | workforce/views.py:171-173 | taking a skilled candidate for an open skilled place keeps the loop invariant |
| WorkforceViews.TakeSemiSkilled | workforce/views.py:174-176 | taking a semi-skilled candidate for an open semi-skilled place keeps the loop invariant |
| WorkforceViews.SelectSkip | workforce/views.py:163-168 | passing over a candidate that is not taken keeps the loop invariant |
| WorkforceViews.SelectDone | workforce/views.py:178-180 | when the candidates run out or both needs are 0, the picks satisfy the result contract |
| WorkforceViews.Consider | workforce/views.py:154-180 | one turn of the loop keeps the invariant |
| WorkforceViews.SelectWorkers | workforce/views.py:154-180 | the picks are increasing positions of candidates who may work and qualify; at most max(required, 0) per level; each level's picks are its first qualifying candidates (nobody of that level before a pick is passed over); while a level is short, every qualifying candidate of it was taken |
| WorkforceViews.LinePoints | workforce/views.py:290-326 | each point lies on the line and on an axis or a cap; the axis points appear when the coefficient is positive, the cap points when both are positive and the coordinate is non-negative |
| WorkforceViews.Crossings | workforce/views.py:290-326 | the budget line's points, then the production line's points |
| WorkforceViews.CornerPoints | workforce/views.py:284-329 | starts with (0, 0), ends with both caps, holds every crossing, and every point is on an edge |
| WorkforceViews.ValidAmong | workforce/views.py:331-350 | a corner is kept iff it is non-negative, within both caps, within the budget and meets the minimum production |
| WorkforceViews.ValidAmongAppend | workforce/views.py:331-350 | filtering one more corner appends it iff it is valid |
| WorkforceViews.FilterValid | workforce/views.py:331-350 | the loop keeps exactly the valid corners, in order |
| WorkforceViews.BestCorner | workforce/views.py:352-362 | the production is >= 0 and at least every valid corner's; the corner is the first best one when that is positive, else (0, 0) |
| WorkforceViews.ChosenBeatsAll | workforce/views.py:357-362 | the chosen corner is (0, 0) or in the list, and no listed corner produces more |
| WorkforceViews.ChosenIsBest | workforce/views.py:352-362 | the chosen corner is (0, 0) or valid, and produces at least as much as every valid corner |
| WorkforceViews.SolveWorkforceOptimization | workforce/views.py:279-386 | with no valid corner both caps; otherwise the chosen corner rounded half to even; the figures are recomputed from the integers |
| WorkforceViews.FloorDiv | workforce/views.py:404 | Python `//` on floats is the whole number q with q <= a / b < q + 1 |
| WorkforceViews.BuyInOrder | workforce/views.py:402-411 | each purchase stays within its cap |
| WorkforceViews.BuyInOrderFits | workforce/views.py:402-411 | with positive costs both purchases fit the budget, and the first type is bought to its cap or until one more would not fit |
| WorkforceViews.Greedy | workforce/views.py:395-411 | the greedy plan stays within both caps |
| WorkforceViews.GreedyWithinBudget | workforce/views.py:395-411 | with positive costs the greedy plan stays within the budget |
| WorkforceViews.SkilledFirstWithinBudget | workforce/views.py:403-406 | the skilled-first branch stays within the budget |
| WorkforceViews.SemiSkilledFirstWithinBudget | workforce/views.py:408-411 | the semi-skilled-first branch stays within the budget |
| WorkforceViews.GreedyFillsFirst | workforce/views.py:402-411 | the type bought first reaches its cap or the budget |
| WorkforceViews.SkilledFirstFills | workforce/views.py:404 | skilled first: skilled reaches its cap or one more would not fit |
| WorkforceViews.SemiSkilledFirstFills | workforce/views.py:409 | semi-skilled first: semi-skilled reaches its cap or one more would not fit |
| WorkforceViews.AttemptWithinBudget | workforce/views.py:427-428 | with positive costs every fallback attempt fits the budget |
| WorkforceViews.SearchAttempts | workforce/views.py:422-441 | the result is (0, 0) with production 0, or the first attempt of strictly largest production meeting the minimum; no qualifying attempt beats it |
| WorkforceViews.SolveWithBudget | workforce/views.py:388-447 | a zero cost raises ZeroDivisionError; a short greedy plan with budget // cost below the cap raises TypeError; otherwise the greedy plan when it meets the minimum, else the best qualifying attempt or zeros; with positive costs the result fits the budget |

## Left out

- UI: JSX rendering, toasts, React state setters (modelled as method results), and the components. `toFixed` and `toLocaleString` formatting are left out too.
- Parsing: `parseFloat`/`parseInt` of form fields. The simplex inputs carry an explicit NaN case, a `Cell` datatype. The graphical method takes constraints already parsed with `|| 0` applied.
- Floating point: numbers are exact `real`. Rounding error, overflow and IEEE infinities and NaN are not modelled. The simplex's ±Infinity objectives are datatype cases.
- Simplex.Solve: the `while (true)` loops take a `fuel` bound, and running out gives `None`. Dantzig's rule has no anti-cycling, so termination and optimality are not claimed.
- Simplex.Solve: the constraint and cost arrays are taken as the problem. The page lets the typed variable and constraint counts (src/pages/SimplexMethod.tsx:411, 421) differ from the arrays until `updateProblemSize` (src/pages/SimplexMethod.tsx:65-74) resizes them, and `standardize` reads the counts (src/pages/SimplexMethod.tsx:95-96). Such a mismatch is not modelled.
- Simplex.SolveSimplex: the `iterations` list and the names `x1`, `Constraint 1` are not modelled. An exception other than unbounded or infeasible cannot arise in the model.
- Graphical: the `Math.atan2` angular sort of the region (src/pages/GraphicalMethod.tsx:237-247) is left out, because trigonometry is outside `real` arithmetic. The line endpoints and colours for drawing (140-175, 225-235) are left out as presentation.
- Transportation.Balance: the dummy source row has |demand| zero costs, where `solveTransportation` writes `Array(destinations)` (src/pages/Transportation.tsx:76). The two can differ: the destinations field sets the count directly (src/pages/Transportation.tsx:332), and only `updateProblemSize` (src/pages/Transportation.tsx:49-56) resizes the arrays. The model reads the demand array and does not model a count that disagrees with it.
- Transportation.MinimumCost: it states only "shipped + left <= supply" (and the same for demand), not equality. A later allocation can overwrite an epsilon cell, and exact conservation then fails by epsilon.
- Transportation.Vogel: the two `break`s of the loop are omitted, because `VogelSelectOpen` proves they never fire.
- ProductionLines.SortByPriorityCorrect: the sort is an insertion sort that keeps ties in input order. `Array.prototype.sort` is stable too, but its algorithm is not modelled.
- SupplyChain.SolveSupplyChain: `costPerUnit`, `profitPerUnit` and `profitMargin` (src/pages/WorkforceOptimization.tsx:103, 106-107) divide by a possibly zero production and are not modelled. The message text is not modelled either.
- RemoveWorker: its own contract states who stays; that the rest keep their order and multiplicity is stated by `RemoveWorkerAppend`, whose two equations determine the result.
- RemoveShift: likewise, the order of the remaining shifts is stated by `RemoveShiftAppend`.
- ShiftScheduler.GenerateSchedule: each `Math.random` shuffle becomes a permutation input (`orders`), and the date keys become day numbers 0..6. The hours cap is proved only when worker names are distinct, because `generateSchedule` credits hours by name (`CreditDuplicateNames`).
- WorkforceViews.SelectWorkers:
  - The ORM queries become inputs: each candidate's weekly count and nearby assignments.
  - The sort by assignment count (workforce/views.py:148-152) is the caller's order of the candidates.
  - The result is the chosen positions; creating the `ShiftAssignment` rows and `bulk_create` are not modelled.
  - Skill levels are the two values of the model's choices.
- WorkforceViews.GapRuleAllows: the query's date range (workforce/views.py:29-37) is the fixed predicate `Nearby`, two days either side of the shift. Only the worker's assignments are an input. Dates are day numbers, and `timedelta` arithmetic is day subtraction.
- `balance_production_lines` (workforce/views.py) and `solve_knapsack` (workforce/knapsack.py) are not part of this model. They hand the problem to the PuLP solver, whose code is not available.
- src/pages/knapsack.tsx only posts to the backend and is not part of this model. The Django views, forms, models and URL configuration are not part of it either.
