/** The two-phase Simplex solver of the Simplex page (src/pages/SimplexMethod.tsx).

    The tableau is a dense (m+1) x (totalVars+1) buffer mutated in place; here it
    is an `array2<real>`. Each imperative step is a method proved against a
    function on the tableau's value, `Grid(t)`, and the properties the solver
    promises are lemmas and ensures clauses on those functions. */
module Simplex {
  import opened Numeric

  /** The tolerance 1e-10 used by every zero/positivity test of the solver. */
  const Tolerance: real := 0.0000000001

  /** The three constraint signs `<=`, `>=`, `=`. */
  datatype Relation = AtMost | AtLeast | Equal

  datatype Direction = Maximize | Minimize

  /** An input coefficient: a number, or NaN from a field that did not parse. */
  datatype Cell = Num(value: real) | NaN

  datatype Problem = Problem(
    objective: seq<Cell>,
    coefficients: seq<seq<Cell>>,
    rhs: seq<Cell>,
    relations: seq<Relation>,
    direction: Direction)

  /** One row per constraint, one column per variable. The page does not
      guarantee this: the variable and constraint counts change as they are
      typed (SimplexMethod.tsx:411, :421) while the arrays are resized only by
      `updateProblemSize` (SimplexMethod.tsx:65-74), and `standardize` reads
      the counts (SimplexMethod.tsx:95-96). The model takes the arrays as the
      problem and leaves a mismatch with the counts out. */
  ghost predicate WellFormed(p: Problem)
  {
    && |p.coefficients| == |p.rhs| == |p.relations|
    && forall i :: 0 <= i < |p.coefficients| ==> |p.coefficients[i]| == |p.objective|
  }

  /** The objective value as the page reports it: a number or an infinity. */
  datatype Extended = Finite(value: real) | PlusInfinity | MinusInfinity

  datatype Status = Optimal | Unbounded | Infeasible

  /** The page's solution object: status, objective value, variable values
      (x1, x2, ... by position) and the per-constraint slacks. */
  datatype Solution = Solution(
    status: Status,
    objectiveValue: Extended,
    variables: seq<real>,
    slacks: seq<real>)

  /** How a phase ended: no entering column, no leaving row (`solveSimplex`
      throws "Problem is unbounded"), artificial variables left in the basis
      (`solveSimplex` throws "Problem is infeasible"), or `OutOfFuel` for a loop
      that would still be pivoting (Dantzig's rule may cycle). */
  datatype Outcome = Stopped | NoLeavingRow | ArtificialsRemain | OutOfFuel

  // ---------------------------------------------------------------------------
  // Tableau values

  ghost predicate Rect(G: seq<seq<real>>, rows: nat, cols: nat)
  {
    |G| == rows && forall i :: 0 <= i < rows ==> |G[i]| == cols
  }

  /** A tableau has an objective row and a right-hand-side column. */
  ghost predicate IsTableau(G: seq<seq<real>>)
  {
    |G| >= 1 && |G[0]| >= 1 && Rect(G, |G|, |G[0]|)
  }

  ghost function Grid(t: array2<real>): (G: seq<seq<real>>)
    reads t
    ensures Rect(G, t.Length0, t.Length1)
    ensures forall i, j :: 0 <= i < t.Length0 && 0 <= j < t.Length1 ==> G[i][j] == t[i, j]
  {
    seq(t.Length0, i reads t => seq(t.Length1, j reads t => if 0 <= i < t.Length0 && 0 <= j < t.Length1 then t[i, j] else 0.0))
  }

  /** Row 0 of a buffer, the only row of Phase I's w that the solver uses. */
  ghost function ObjectiveRow(w: array2<real>): (W: seq<real>)
    requires w.Length0 >= 1
    reads w
    ensures |W| == w.Length1 && forall j :: 0 <= j < w.Length1 ==> W[j] == w[0, j]
  {
    seq(w.Length1, j reads w => if 0 <= j < w.Length1 then w[0, j] else 0.0)
  }

  lemma GridIs(t: array2<real>, G: seq<seq<real>>)
    requires Rect(G, t.Length0, t.Length1)
    requires forall i, j :: 0 <= i < t.Length0 && 0 <= j < t.Length1 ==> t[i, j] == G[i][j]
    ensures Grid(t) == G
  {
    var H := Grid(t);
    forall i | 0 <= i < t.Length0
      ensures H[i] == G[i]
    {
      assert |H[i]| == |G[i]|;
      forall j | 0 <= j < t.Length1
        ensures H[i][j] == G[i][j]
      {
      }
    }
  }

  // ---------------------------------------------------------------------------
  // Standard form (standardize, SimplexMethod.tsx:94-148)

  /** Number of `<=` rows: `numSlack` in `standardize`. */
  function SlackCount(rel: seq<Relation>): nat
  {
    if rel == [] then 0 else SlackCount(rel[..|rel| - 1]) + (if rel[|rel| - 1] == AtMost then 1 else 0)
  }

  /** Number of `>=` and `=` rows: `numArtificial` in `standardize`. */
  function ArtificialCount(rel: seq<Relation>): nat
  {
    if rel == [] then 0 else ArtificialCount(rel[..|rel| - 1]) + (if rel[|rel| - 1] != AtMost then 1 else 0)
  }

  /** Number of `slackIndex++` steps: every `<=` and every `>=` row uses one. */
  function SlackSteps(rel: seq<Relation>): nat
  {
    if rel == [] then 0 else SlackSteps(rel[..|rel| - 1]) + (if rel[|rel| - 1] != Equal then 1 else 0)
  }

  function TotalVars(n: nat, rel: seq<Relation>): nat
  {
    n + SlackCount(rel) + ArtificialCount(rel)
  }

  /** The column written through `slackIndex` for constraint i. */
  function SlackColumn(n: nat, rel: seq<Relation>, i: nat): nat
    requires i <= |rel|
  {
    n + SlackSteps(rel[..i])
  }

  /** The column written through `artificialIndex` for constraint i. */
  function ArtificialColumn(n: nat, rel: seq<Relation>, i: nat): nat
    requires i <= |rel|
  {
    n + SlackCount(rel) + ArtificialCount(rel[..i])
  }

  lemma {:induction false} CountsSplit(rel: seq<Relation>)
    ensures SlackSteps(rel) <= SlackCount(rel) + ArtificialCount(rel)
    decreases |rel|
  {
    if rel != [] {
      CountsSplit(rel[..|rel| - 1]);
    }
  }

  lemma {:induction false} CountsMonotone(rel: seq<Relation>, i: nat)
    requires i <= |rel|
    ensures SlackSteps(rel[..i]) <= SlackSteps(rel)
    ensures ArtificialCount(rel[..i]) <= ArtificialCount(rel)
    decreases |rel|
  {
    if i < |rel| {
      assert rel[..i] == rel[..|rel| - 1][..i];
      CountsMonotone(rel[..|rel| - 1], i);
    } else {
      assert rel[..i] == rel;
    }
  }

  /** Every slack or artificial write lands in a column at or after the
      original variables and strictly before the right-hand-side column. */
  lemma {:induction false} StandardColumnsInRange(n: nat, rel: seq<Relation>, i: nat)
    requires i < |rel|
    ensures rel[i] != Equal ==> n <= SlackColumn(n, rel, i) < TotalVars(n, rel)
    ensures rel[i] != AtMost ==> n <= ArtificialColumn(n, rel, i) < TotalVars(n, rel)
  {
    var pre := rel[..i + 1];
    assert pre[..i] == rel[..i];
    CountsMonotone(rel, i + 1);
    CountsSplit(rel);
    assert SlackSteps(pre) == SlackSteps(rel[..i]) + (if rel[i] != Equal then 1 else 0);
    assert ArtificialCount(pre) == ArtificialCount(rel[..i]) + (if rel[i] != AtMost then 1 else 0);
  }

  /** The slack and artificial columns of `standardize` can coincide: with rows
      `>=` then `<=`, the `<=` row's slack column is the `>=` row's artificial
      column, because the `>=` row advanced slackIndex though numSlack does not
      count it. */
  lemma SlackArtificialOverlap()
    ensures SlackColumn(0, [AtLeast, AtMost], 1) == ArtificialColumn(0, [AtLeast, AtMost], 0) == 1
  {
    var rel := [AtLeast, AtMost];
    assert rel[..1] == [AtLeast] && rel[..0] == [];
    assert [AtLeast][..0] == [];
    assert rel[..1] == [AtLeast];
    assert rel[..|rel| - 1] == [AtLeast];
  }

  /** The entry in row r, column j of the standard-form tableau. */
  function StandardEntry(c: seq<real>, A: seq<seq<real>>, b: seq<real>, rel: seq<Relation>, dir: Direction, r: nat, j: nat): real
    requires |A| == |b| == |rel| && r <= |A|
    requires forall i :: 0 <= i < |A| ==> |A[i]| == |c|
  {
    var n := |c|;
    if r == 0 then
      if j < n then (if dir == Maximize then -c[j] else c[j]) else 0.0
    else
      var i := r - 1;
      if j < n then A[i][j]
      else if j == TotalVars(n, rel) then b[i]
      else match rel[i]
        case AtMost => if j == SlackColumn(n, rel, i) then 1.0 else 0.0
        case AtLeast =>
          if j == ArtificialColumn(n, rel, i) then 1.0
          else if j == SlackColumn(n, rel, i) then -1.0
          else 0.0
        case Equal => if j == ArtificialColumn(n, rel, i) then 1.0 else 0.0
  }

  /** The tableau `standardize` builds. */
  ghost function StandardTableau(c: seq<real>, A: seq<seq<real>>, b: seq<real>, rel: seq<Relation>, dir: Direction): (G: seq<seq<real>>)
    requires |A| == |b| == |rel|
    requires forall i :: 0 <= i < |A| ==> |A[i]| == |c|
    ensures IsTableau(G) && Rect(G, |A| + 1, TotalVars(|c|, rel) + 1)
  {
    var total := TotalVars(|c|, rel);
    seq(|A| + 1, r requires 0 <= r <= |A| =>
      seq(total + 1, j requires 0 <= j <= total => StandardEntry(c, A, b, rel, dir, r, j)))
  }

  /** The layout of the standard-form tableau: row 0 holds the objective
      (negated when maximizing) and zeros; row i + 1 holds constraint i's
      coefficients, its right-hand side in the last column, and a 1 in its
      slack column (for <=) or its artificial column (for >= and =), both of
      which lie among the variable columns. */
  lemma StandardTableauLayout(c: seq<real>, A: seq<seq<real>>, b: seq<real>, rel: seq<Relation>, dir: Direction)
    requires |A| == |b| == |rel|
    requires forall i :: 0 <= i < |A| ==> |A[i]| == |c|
    ensures var G := StandardTableau(c, A, b, rel, dir); var total := TotalVars(|c|, rel);
      && (forall j :: 0 <= j < |c| ==> G[0][j] == if dir == Maximize then -c[j] else c[j])
      && (forall j :: |c| <= j <= total ==> G[0][j] == 0.0)
      && (forall i, j :: 0 <= i < |A| && 0 <= j < |c| ==> G[i + 1][j] == A[i][j])
      && (forall i :: 0 <= i < |A| ==> G[i + 1][total] == b[i])
      && (forall i :: 0 <= i < |A| && rel[i] != Equal ==> |c| <= SlackColumn(|c|, rel, i) < total)
      && (forall i :: 0 <= i < |A| && rel[i] != AtMost ==> |c| <= ArtificialColumn(|c|, rel, i) < total)
      && (forall i :: 0 <= i < |A| && rel[i] == AtMost ==> G[i + 1][SlackColumn(|c|, rel, i)] == 1.0)
      && (forall i :: 0 <= i < |A| && rel[i] != AtMost ==> G[i + 1][ArtificialColumn(|c|, rel, i)] == 1.0)
  {
    var G := StandardTableau(c, A, b, rel, dir);
    var total := TotalVars(|c|, rel);
    forall i | 0 <= i < |A|
      ensures rel[i] != Equal ==> |c| <= SlackColumn(|c|, rel, i) < total
      ensures rel[i] != AtMost ==> |c| <= ArtificialColumn(|c|, rel, i) < total
      ensures rel[i] == AtMost ==> G[i + 1][SlackColumn(|c|, rel, i)] == 1.0
      ensures rel[i] != AtMost ==> G[i + 1][ArtificialColumn(|c|, rel, i)] == 1.0
    {
      StandardColumnsInRange(|c|, rel, i);
    }
  }

  /** Row 0 of `standardize`: the objective, negated when maximizing. */
  method FillObjectiveRow(t: array2<real>, c: seq<real>, A: seq<seq<real>>, b: seq<real>, rel: seq<Relation>, dir: Direction)
    requires |A| == |b| == |rel|
    requires forall i :: 0 <= i < |A| ==> |A[i]| == |c|
    requires t.Length0 == |A| + 1 && t.Length1 == TotalVars(|c|, rel) + 1
    requires forall q :: 0 <= q < t.Length1 ==> t[0, q] == 0.0
    modifies t
    ensures forall q :: 0 <= q < t.Length1 ==> t[0, q] == StandardEntry(c, A, b, rel, dir, 0, q)
    ensures forall r, q :: 1 <= r < t.Length0 && 0 <= q < t.Length1 ==> t[r, q] == old(t[r, q])
  {
    for j := 0 to |c|
      invariant forall q :: 0 <= q < t.Length1 ==> t[0, q] == if q < j then StandardEntry(c, A, b, rel, dir, 0, q) else 0.0
      invariant forall r, q :: 1 <= r < t.Length0 && 0 <= q < t.Length1 ==> t[r, q] == old(t[r, q])
    {
      t[0, j] := if dir == Maximize then -c[j] else c[j];
    }
  }

  /** Row r = i+1 of `standardize`: A[i], b[i], and the row's slack and
      artificial entries written through slackIndex and artificialIndex. */
  method FillConstraintRow(t: array2<real>, c: seq<real>, A: seq<seq<real>>, b: seq<real>, rel: seq<Relation>, dir: Direction,
                           r: nat, slackIndex: nat, artificialIndex: nat)
    requires |A| == |b| == |rel| && 1 <= r <= |A|
    requires forall k :: 0 <= k < |A| ==> |A[k]| == |c|
    requires t.Length0 == |A| + 1 && t.Length1 == TotalVars(|c|, rel) + 1
    requires slackIndex == SlackColumn(|c|, rel, r - 1) && artificialIndex == ArtificialColumn(|c|, rel, r - 1)
    requires forall q :: 0 <= q < t.Length1 ==> t[r, q] == 0.0
    modifies t
    ensures forall q :: 0 <= q < t.Length1 ==> t[r, q] == StandardEntry(c, A, b, rel, dir, r, q)
    ensures forall r', q :: 0 <= r' < t.Length0 && r' != r && 0 <= q < t.Length1 ==> t[r', q] == old(t[r', q])
  {
    var i, n, total := r - 1, |c|, TotalVars(|c|, rel);
    StandardColumnsInRange(n, rel, i);
    for j := 0 to n
      invariant forall q :: 0 <= q < t.Length1 ==> t[r, q] == if q < j then A[i][q] else 0.0
      invariant forall r', q :: 0 <= r' < t.Length0 && r' != r && 0 <= q < t.Length1 ==> t[r', q] == old(t[r', q])
    {
      t[r, j] := A[i][j];
    }
    t[r, total] := b[i];
    match rel[i]
    case AtMost =>
      t[r, slackIndex] := 1.0;
    case AtLeast =>
      t[r, slackIndex] := -1.0;
      t[r, artificialIndex] := 1.0;
    case Equal =>
      t[r, artificialIndex] := 1.0;
  }

  /** The counting loop of `standardize`: one slack per `<=` row, one
      artificial per `>=` or `=` row. */
  method CountExtraVariables(rel: seq<Relation>) returns (numSlack: nat, numArtificial: nat)
    ensures numSlack == SlackCount(rel) && numArtificial == ArtificialCount(rel)
  {
    numSlack, numArtificial := 0, 0;
    for k := 0 to |rel|
      invariant numSlack == SlackCount(rel[..k]) && numArtificial == ArtificialCount(rel[..k])
    {
      assert rel[..k + 1][..k] == rel[..k];
      if rel[k] == AtMost { numSlack := numSlack + 1; }
      if rel[k] == AtLeast || rel[k] == Equal { numArtificial := numArtificial + 1; }
    }
    assert rel[..|rel|] == rel;
  }

  /** standardize (SimplexMethod.tsx:94-148): a fresh tableau in standard form. */
  method Standardize(c: seq<real>, A: seq<seq<real>>, b: seq<real>, rel: seq<Relation>, dir: Direction)
    returns (t: array2<real>, numSlack: nat, numArtificial: nat)
    requires |A| == |b| == |rel|
    requires forall i :: 0 <= i < |A| ==> |A[i]| == |c|
    ensures fresh(t)
    ensures Grid(t) == StandardTableau(c, A, b, rel, dir)
    ensures numSlack == SlackCount(rel) && numArtificial == ArtificialCount(rel)
  {
    var m, n := |A|, |c|;
    numSlack, numArtificial := CountExtraVariables(rel);
    var totalVars := n + numSlack + numArtificial;
    t := new real[m + 1, totalVars + 1]((_, _) => 0.0);
    FillObjectiveRow(t, c, A, b, rel, dir);
    var slackIndex, artificialIndex := n, n + numSlack;
    for i := 0 to m
      invariant slackIndex == SlackColumn(n, rel, i) && artificialIndex == ArtificialColumn(n, rel, i)
      invariant forall r, q :: 0 <= r <= i && 0 <= q <= totalVars ==> t[r, q] == StandardEntry(c, A, b, rel, dir, r, q)
      invariant forall r, q :: i < r <= m && 0 <= q <= totalVars ==> t[r, q] == 0.0
    {
      FillConstraintRow(t, c, A, b, rel, dir, i + 1, slackIndex, artificialIndex);
      assert rel[..i + 1][..i] == rel[..i];
      if rel[i] != Equal { slackIndex := slackIndex + 1; }
      if rel[i] != AtMost { artificialIndex := artificialIndex + 1; }
    }
    GridIs(t, StandardTableau(c, A, b, rel, dir));
  }

  // ---------------------------------------------------------------------------
  // Pivoting (SimplexMethod.tsx:200-215, 261-277)

  /** The pivot row divided by the pivot element. */
  function Normalized(G: seq<seq<real>>, r: nat, c: nat): (N: seq<seq<real>>)
    requires IsTableau(G) && r < |G| && c < |G[0]| && G[r][c] != 0.0
    ensures IsTableau(N) && Rect(N, |G|, |G[0]|)
  {
    G[r := seq(|G[0]|, j requires 0 <= j < |G[0]| => G[r][j] / G[r][c])]
  }

  /** Every row but r minus its column-c entry times row r. */
  function Eliminated(N: seq<seq<real>>, r: nat, c: nat): (E: seq<seq<real>>)
    requires IsTableau(N) && r < |N| && c < |N[0]|
    ensures IsTableau(E) && Rect(E, |N|, |N[0]|)
  {
    seq(|N|, i requires 0 <= i < |N| =>
      if i == r then N[i]
      else seq(|N[0]|, j requires 0 <= j < |N[0]| => N[i][j] - N[i][c] * N[r][j]))
  }

  /** One pivot on (r, c). */
  function Pivoted(G: seq<seq<real>>, r: nat, c: nat): (P: seq<seq<real>>)
    requires IsTableau(G) && r < |G| && c < |G[0]| && G[r][c] != 0.0
    ensures IsTableau(P) && Rect(P, |G|, |G[0]|)
  {
    Eliminated(Normalized(G, r, c), r, c)
  }

  /** After a pivot on (r, c), column c is the unit vector e_r, row 0
      included; row r is the old row r scaled by 1 / G[r][c]; and every other
      row is the old row minus a multiple of the new row r. */
  lemma PivotedUnitColumn(G: seq<seq<real>>, r: nat, c: nat)
    requires IsTableau(G) && r < |G| && c < |G[0]| && G[r][c] != 0.0
    ensures var P := Pivoted(G, r, c);
      && P[r][c] == 1.0
      && (forall i :: 0 <= i < |G| && i != r ==> P[i][c] == 0.0)
      && (forall j :: 0 <= j < |G[0]| ==> P[r][j] * G[r][c] == G[r][j])
      && (forall i, j :: 0 <= i < |G| && i != r && 0 <= j < |G[0]| ==> P[i][j] == G[i][j] - G[i][c] * P[r][j])
  {
    var N := Normalized(G, r, c);
    assert N[r][c] == 1.0;
    forall j | 0 <= j < |G[0]|
      ensures N[r][j] * G[r][c] == G[r][j]
    {
    }
  }

  /** The Phase I update of w's row 0, interleaved with the normalisation of
      the pivot row: w[0][j] -= w[0][c] * row[j] reads w[0][c] as it stands
      when column j is reached, so once column c has been zeroed the later
      columns are left as they were. */
  function WUpdate(W: seq<real>, row: seq<real>, c: nat): (V: seq<real>)
    requires |W| == |row| && c < |W|
    ensures |V| == |W|
    ensures row[c] == 1.0 ==> V[c] == 0.0
    ensures forall j :: c < j < |W| ==> V[j] == W[j]
  {
    seq(|W|, j requires 0 <= j < |W| => if j <= c then W[j] - W[c] * row[j] else W[j])
  }

  /** The quirk: with w = [1, 1] and a normalised pivot row [1, 1] on column
      0, the textbook update would zero both entries, but w[0][1] keeps its
      value because w[0][0] is already 0 when column 1 is reached. */
  lemma WUpdateSkipsLaterColumns()
    ensures WUpdate([1.0, 1.0], [1.0, 1.0], 0) == [0.0, 1.0]
    ensures [1.0 - 1.0 * 1.0, 1.0 - 1.0 * 1.0] == [0.0, 0.0]
  {
    var V := WUpdate([1.0, 1.0], [1.0, 1.0], 0);
    assert V[0] == 0.0 && V[1] == 1.0;
  }

  // ---------------------------------------------------------------------------
  // Entering column (SimplexMethod.tsx:171-182, 232-243)

  /** The entering scan after columns [0, upto): col is -1 when none of them
      is below -Tolerance, else the first column holding the smallest entry,
      which is below -Tolerance. */
  ghost predicate EnteringSoFar(row: seq<real>, upto: nat, col: int)
    requires upto <= |row|
  {
    if col == -1 then forall k :: 0 <= k < upto ==> row[k] >= -Tolerance
    else
      && 0 <= col < upto && row[col] < -Tolerance
      && (forall k :: 0 <= k < upto ==> row[col] <= row[k])
      && (forall k :: 0 <= k < col ==> row[col] < row[k])
  }

  /** The loop `if (row[j] < minCoeff) { minCoeff = row[j]; enterCol = j; }`
      from column j on. */
  function EnterScan(row: seq<real>, n: nat, j: nat, col: int, minCoeff: real): (r: int)
    requires j <= n <= |row|
    ensures r == col || j <= r < n
    decreases n - j
  {
    if j == n then col
    else if row[j] < minCoeff then EnterScan(row, n, j + 1, j, row[j])
    else EnterScan(row, n, j + 1, col, minCoeff)
  }

  lemma {:induction false} EnterScanSoFar(row: seq<real>, n: nat, j: nat, col: int, minCoeff: real)
    requires j <= n <= |row|
    requires EnteringSoFar(row, j, col)
    requires minCoeff == if col == -1 then -Tolerance else row[col]
    ensures EnteringSoFar(row, n, EnterScan(row, n, j, col, minCoeff))
    decreases n - j
  {
    if j < n {
      if row[j] < minCoeff {
        EnterScanSoFar(row, n, j + 1, j, row[j]);
      } else {
        EnterScanSoFar(row, n, j + 1, col, minCoeff);
      }
    }
  }

  /** Dantzig's rule over the first n entries of an objective row. */
  function Entering(row: seq<real>, n: nat): (r: int)
    requires n <= |row|
    ensures r == -1 || 0 <= r < n
  {
    EnterScan(row, n, 0, -1, -Tolerance)
  }

  /** The entering column is -1 iff no entry is below -Tolerance; otherwise
      it is the first column holding the most negative entry. */
  lemma EnteringIsDantzig(row: seq<real>, n: nat)
    requires n <= |row|
    ensures EnteringSoFar(row, n, Entering(row, n))
  {
    EnterScanSoFar(row, n, 0, -1, -Tolerance);
  }

  // ---------------------------------------------------------------------------
  // Leaving row (SimplexMethod.tsx:185-198, 246-259)

  function Ratio(G: seq<seq<real>>, i: nat, c: nat): real
    requires IsTableau(G) && i < |G| && c < |G[0]| && G[i][c] != 0.0
  {
    G[i][|G[0]| - 1] / G[i][c]
  }

  /** Row i may leave: a pivot-column entry above the tolerance and, in
      Phase II, a non-negative ratio. */
  ghost predicate Eligible(G: seq<seq<real>>, c: nat, nonNegative: bool, i: nat)
    requires IsTableau(G) && i < |G| && c < |G[0]|
  {
    G[i][c] > Tolerance && (!nonNegative || Ratio(G, i, c) >= 0.0)
  }

  /** The ratio test after rows [1, upto): row is -1 when none of them is
      eligible, else the first eligible row with the smallest ratio. */
  ghost predicate LeavingSoFar(G: seq<seq<real>>, c: nat, nonNegative: bool, upto: nat, row: int)
    requires IsTableau(G) && upto <= |G| && c < |G[0]|
  {
    if row == -1 then forall k :: 1 <= k < upto ==> !Eligible(G, c, nonNegative, k)
    else
      && 1 <= row < upto && Eligible(G, c, nonNegative, row)
      && (forall k :: 1 <= k < upto && Eligible(G, c, nonNegative, k) ==> Ratio(G, row, c) <= Ratio(G, k, c))
      && (forall k :: 1 <= k < row && Eligible(G, c, nonNegative, k) ==> Ratio(G, row, c) < Ratio(G, k, c))
  }

  /** Whether the ratio loop takes row i: `tableau[i][col] > 1e-10`, then
      `(leaveRow === -1 || ratio < minRatio)` and, in Phase II, `ratio >= 0`. */
  predicate TakesRow(G: seq<seq<real>>, c: nat, nonNegative: bool, i: nat, row: int, minRatio: real)
    requires IsTableau(G) && i < |G| && c < |G[0]|
  {
    G[i][c] > Tolerance &&
    (row == -1 || Ratio(G, i, c) < minRatio) && (!nonNegative || Ratio(G, i, c) >= 0.0)
  }

  /** The ratio loop from row i on; `row == -1` plays the part of
      `minRatio = Infinity`. */
  function LeaveScan(G: seq<seq<real>>, c: nat, nonNegative: bool, i: nat, row: int, minRatio: real): (r: int)
    requires IsTableau(G) && 1 <= i <= |G| && c < |G[0]|
    ensures r == row || (i <= r < |G| && G[r][c] > Tolerance)
    decreases |G| - i
  {
    if i == |G| then row
    else if TakesRow(G, c, nonNegative, i, row, minRatio) then
      LeaveScan(G, c, nonNegative, i + 1, i, Ratio(G, i, c))
    else
      LeaveScan(G, c, nonNegative, i + 1, row, minRatio)
  }

  /** Taking row i keeps the ratio-test invariant. */
  lemma LeavingSoFarTake(G: seq<seq<real>>, c: nat, nonNegative: bool, i: nat, row: int, minRatio: real)
    requires IsTableau(G) && 1 <= i < |G| && c < |G[0]|
    requires LeavingSoFar(G, c, nonNegative, i, row)
    requires row != -1 ==> minRatio == Ratio(G, row, c)
    requires TakesRow(G, c, nonNegative, i, row, minRatio)
    ensures LeavingSoFar(G, c, nonNegative, i + 1, i)
  {
    var ratio := Ratio(G, i, c);
    assert Eligible(G, c, nonNegative, i);
    forall k | 1 <= k < i + 1 && Eligible(G, c, nonNegative, k)
      ensures ratio <= Ratio(G, k, c)
    {
      if k < i {
        assert row != -1;
        assert minRatio <= Ratio(G, k, c);
      }
    }
    forall k | 1 <= k < i && Eligible(G, c, nonNegative, k)
      ensures ratio < Ratio(G, k, c)
    {
      assert minRatio <= Ratio(G, k, c);
    }
  }

  /** Passing over row i keeps the ratio-test invariant. */
  lemma LeavingSoFarKeep(G: seq<seq<real>>, c: nat, nonNegative: bool, i: nat, row: int, minRatio: real)
    requires IsTableau(G) && 1 <= i < |G| && c < |G[0]|
    requires LeavingSoFar(G, c, nonNegative, i, row)
    requires row != -1 ==> minRatio == Ratio(G, row, c)
    requires !TakesRow(G, c, nonNegative, i, row, minRatio)
    ensures LeavingSoFar(G, c, nonNegative, i + 1, row)
  {
    if row == -1 {
      assert !Eligible(G, c, nonNegative, i);
    } else {
      assert Eligible(G, c, nonNegative, i) ==> minRatio <= Ratio(G, i, c);
    }
  }

  lemma {:induction false} LeaveScanSoFar(G: seq<seq<real>>, c: nat, nonNegative: bool, i: nat, row: int, minRatio: real)
    requires IsTableau(G) && 1 <= i <= |G| && c < |G[0]|
    requires LeavingSoFar(G, c, nonNegative, i, row)
    requires row != -1 ==> minRatio == Ratio(G, row, c)
    ensures LeavingSoFar(G, c, nonNegative, |G|, LeaveScan(G, c, nonNegative, i, row, minRatio))
    decreases |G| - i
  {
    if i < |G| {
      if TakesRow(G, c, nonNegative, i, row, minRatio) {
        LeavingSoFarTake(G, c, nonNegative, i, row, minRatio);
        LeaveScanSoFar(G, c, nonNegative, i + 1, i, Ratio(G, i, c));
      } else {
        LeavingSoFarKeep(G, c, nonNegative, i, row, minRatio);
        LeaveScanSoFar(G, c, nonNegative, i + 1, row, minRatio);
      }
    }
  }

  function Leaving(G: seq<seq<real>>, c: nat, nonNegative: bool): (r: int)
    requires IsTableau(G) && c < |G[0]|
    ensures r == -1 || (1 <= r < |G| && G[r][c] > Tolerance)
  {
    LeaveScan(G, c, nonNegative, 1, -1, 0.0)
  }

  /** The leaving row is -1 iff no row is eligible; otherwise it is the first
      eligible row with the smallest ratio. */
  lemma LeavingIsMinRatio(G: seq<seq<real>>, c: nat, nonNegative: bool)
    requires IsTableau(G) && c < |G[0]|
    ensures LeavingSoFar(G, c, nonNegative, |G|, Leaving(G, c, nonNegative))
  {
    LeaveScanSoFar(G, c, nonNegative, 1, -1, 0.0);
  }

  // ---------------------------------------------------------------------------
  // The two phases as functions of the tableau

  datatype Run = Run(outcome: Outcome, grid: seq<seq<real>>)

  /** One iteration of the Phase II loop: halt with an outcome, or the
      pivoted tableau. */
  datatype PhaseTwoStepResult = Finish(outcome: Outcome) | Proceed(grid: seq<seq<real>>)

  function PhaseTwoNext(G: seq<seq<real>>, fuel: nat): (s: PhaseTwoStepResult)
    requires IsTableau(G)
    ensures s.Proceed? ==> fuel > 0 && IsTableau(s.grid) && Rect(s.grid, |G|, |G[0]|)
  {
    var c := Entering(G[0], |G[0]| - 1);
    if c == -1 then Finish(Stopped)
    else
      var r := Leaving(G, c, true);
      if r == -1 then Finish(NoLeavingRow)
      else if fuel == 0 then Finish(OutOfFuel)
      else Proceed(Pivoted(G, r, c))
  }

  /** The Phase II loop with at most `fuel` pivots. */
  function PhaseTwoLoop(G: seq<seq<real>>, fuel: nat): (run: Run)
    requires IsTableau(G)
    ensures IsTableau(run.grid) && Rect(run.grid, |G|, |G[0]|)
    decreases fuel
  {
    match PhaseTwoNext(G, fuel)
    case Finish(outcome) => Run(outcome, G)
    case Proceed(G') => PhaseTwoLoop(G', fuel - 1)
  }

  /** How Phase II ends: stopped means no row-0 entry is below -Tolerance
      (the optimality test); no leaving row means some column has a row-0
      entry below -Tolerance and no row with an entry above the tolerance and
      a non-negative ratio. */
  lemma {:induction false} PhaseTwoLoopEnds(G: seq<seq<real>>, fuel: nat)
    requires IsTableau(G)
    ensures var run := PhaseTwoLoop(G, fuel);
      && run.outcome != ArtificialsRemain
      && (run.outcome == Stopped ==> forall j :: 0 <= j < |G[0]| - 1 ==> run.grid[0][j] >= -Tolerance)
      && (run.outcome == NoLeavingRow ==>
            exists c :: 0 <= c < |G[0]| - 1 && run.grid[0][c] < -Tolerance &&
              forall i :: 1 <= i < |G| ==> !Eligible(run.grid, c, true, i))
    decreases fuel
  {
    var c := Entering(G[0], |G[0]| - 1);
    EnteringIsDantzig(G[0], |G[0]| - 1);
    if c != -1 {
      var r := Leaving(G, c, true);
      LeavingIsMinRatio(G, c, true);
      if r != -1 && fuel > 0 {
        assert PhaseTwoNext(G, fuel) == Proceed(Pivoted(G, r, c));
        PhaseTwoLoopEnds(Pivoted(G, r, c), fuel - 1);
      }
    }
  }

  datatype PhaseOneState = PhaseOneState(outcome: Outcome, grid: seq<seq<real>>, w: seq<real>)

  /** One iteration of the Phase I loop: halt with an outcome, or the next
      tableau and w row. */
  datatype PhaseOneStepResult = Halt(outcome: Outcome) | Next(grid: seq<seq<real>>, w: seq<real>)

  /** One iteration of the Phase I loop: entering columns come from w's row
      0, the ratio test has no sign condition, and w's row 0 follows `WUpdate`. */
  function PhaseOneNext(G: seq<seq<real>>, W: seq<real>, fuel: nat): (s: PhaseOneStepResult)
    requires IsTableau(G) && |W| == |G[0]|
    ensures s.Next? ==> fuel > 0 && IsTableau(s.grid) && Rect(s.grid, |G|, |G[0]|) && |s.w| == |W|
  {
    var c := Entering(W, |W| - 1);
    if c == -1 then Halt(Stopped)
    else
      var r := Leaving(G, c, false);
      if r == -1 then Halt(NoLeavingRow)
      else if fuel == 0 then Halt(OutOfFuel)
      else
        var N := Normalized(G, r, c);
        Next(Eliminated(N, r, c), WUpdate(W, N[r], c))
  }

  /** The Phase I loop with at most `fuel` pivots. */
  function PhaseOneLoop(G: seq<seq<real>>, W: seq<real>, fuel: nat): (s: PhaseOneState)
    requires IsTableau(G) && |W| == |G[0]|
    ensures IsTableau(s.grid) && Rect(s.grid, |G|, |G[0]|) && |s.w| == |W|
    decreases fuel
  {
    match PhaseOneNext(G, W, fuel)
    case Halt(outcome) => PhaseOneState(outcome, G, W)
    case Next(G', W') => PhaseOneLoop(G', W', fuel - 1)
  }

  /** How the Phase I loop ends: stopped means no entry of w's row 0 is below
      -Tolerance; no leaving row means some column has a w entry below
      -Tolerance and no tableau entry above the tolerance. */
  lemma {:induction false} PhaseOneLoopEnds(G: seq<seq<real>>, W: seq<real>, fuel: nat)
    requires IsTableau(G) && |W| == |G[0]|
    ensures var s := PhaseOneLoop(G, W, fuel);
      && s.outcome != ArtificialsRemain
      && (s.outcome == Stopped ==> forall j :: 0 <= j < |W| - 1 ==> s.w[j] >= -Tolerance)
      && (s.outcome == NoLeavingRow ==>
            exists c :: 0 <= c < |W| - 1 && s.w[c] < -Tolerance &&
              forall i :: 1 <= i < |G| ==> s.grid[i][c] <= Tolerance)
    decreases fuel
  {
    var c := Entering(W, |W| - 1);
    EnteringIsDantzig(W, |W| - 1);
    if c != -1 {
      var r := Leaving(G, c, false);
      LeavingIsMinRatio(G, c, false);
      if r == -1 {
        forall i | 1 <= i < |G|
          ensures G[i][c] <= Tolerance
        {
          assert !Eligible(G, c, false, i);
        }
      } else if fuel > 0 {
        var N := Normalized(G, r, c);
        assert PhaseOneNext(G, W, fuel) == Next(Eliminated(N, r, c), WUpdate(W, N[r], c));
        PhaseOneLoopEnds(Eliminated(N, r, c), WUpdate(W, N[r], c), fuel - 1);
      }
    }
  }

  /** Sum of column j over the rows 1..k whose constraint needs an artificial
      variable. */
  function ArtificialRowSum(G: seq<seq<real>>, rel: seq<Relation>, k: nat, j: nat): real
    requires IsTableau(G) && k < |G| && k <= |rel| && j < |G[0]|
  {
    if k == 0 then 0.0
    else ArtificialRowSum(G, rel, k - 1, j) + (if rel[k - 1] != AtMost then G[k][j] else 0.0)
  }

  /** Row 0 of the Phase I objective w. */
  function InitialW(G: seq<seq<real>>, rel: seq<Relation>): (W: seq<real>)
    requires IsTableau(G) && |rel| == |G| - 1
    ensures |W| == |G[0]|
  {
    seq(|G[0]|, j requires 0 <= j < |G[0]| => ArtificialRowSum(G, rel, |rel|, j))
  }

  /** `ArtificialRowSum` agrees with the plain sum of the artificial rows'
      entries. */
  lemma {:induction false} ArtificialRowSumIsSum(G: seq<seq<real>>, rel: seq<Relation>, k: nat, j: nat)
    requires IsTableau(G) && k < |G| && k <= |rel| && j < |G[0]|
    ensures ArtificialRowSum(G, rel, k, j) == Sum(seq(k, i requires 0 <= i < k => if rel[i] != AtMost then G[i + 1][j] else 0.0))
  {
    var s := seq(k, i requires 0 <= i < k => if rel[i] != AtMost then G[i + 1][j] else 0.0);
    if k > 0 {
      ArtificialRowSumIsSum(G, rel, k - 1, j);
      assert s[..k - 1] == seq(k - 1, i requires 0 <= i < k - 1 => if rel[i] != AtMost then G[i + 1][j] else 0.0);
    }
  }

  /** phaseOne as a whole: skipped without artificial variables; otherwise
      the loop, then infeasible iff it stopped with |w[0][n]| above the
      tolerance. */
  function PhaseOneRun(G: seq<seq<real>>, rel: seq<Relation>, fuel: nat): (run: Run)
    requires IsTableau(G) && |rel| == |G| - 1
    ensures IsTableau(run.grid) && Rect(run.grid, |G|, |G[0]|)
    ensures ArtificialCount(rel) == 0 ==> run == Run(Stopped, G)
    ensures run.outcome == ArtificialsRemain <==>
      ArtificialCount(rel) > 0 &&
      var s := PhaseOneLoop(G, InitialW(G, rel), fuel);
      s.outcome == Stopped && Abs(s.w[|G[0]| - 1]) > Tolerance
  {
    if ArtificialCount(rel) == 0 then Run(Stopped, G)
    else
      PhaseOneLoopEnds(G, InitialW(G, rel), fuel);
      var s := PhaseOneLoop(G, InitialW(G, rel), fuel);
      if s.outcome == Stopped && Abs(s.w[|G[0]| - 1]) > Tolerance then Run(ArtificialsRemain, s.grid)
      else Run(s.outcome, s.grid)
  }

  // ---------------------------------------------------------------------------
  // Solution extraction and status mapping (SimplexMethod.tsx:283-374)

  /** Row `row` equals the unit vector e_i within the tolerance on every
      non-RHS column. */
  predicate RowIsUnit(G: seq<seq<real>>, row: nat, i: nat)
    requires IsTableau(G) && row < |G|
  {
    forall col :: 0 <= col < |G[0]| - 1 ==>
      if col == i then Abs(G[row][col] - 1.0) <= Tolerance else Abs(G[row][col]) <= Tolerance
  }

  /** The first row in [row, m] that is a unit row for variable i, or -1. */
  function UnitRowScan(G: seq<seq<real>>, i: nat, m: nat, row: nat): (r: int)
    requires IsTableau(G) && m < |G| && 1 <= row <= m + 1
    ensures r == -1 ==> forall k :: row <= k <= m ==> !RowIsUnit(G, k, i)
    ensures r != -1 ==> row <= r <= m && RowIsUnit(G, r, i) && forall k :: row <= k < r ==> !RowIsUnit(G, k, i)
    decreases m + 1 - row
  {
    if row > m then -1
    else if RowIsUnit(G, row, i) then row
    else UnitRowScan(G, i, m, row + 1)
  }

  /** Variable i: the RHS of the first unit row for it among rows 1..m, else 0. */
  function VariableValue(G: seq<seq<real>>, i: nat, m: nat): (v: real)
    requires IsTableau(G) && m < |G|
    ensures (forall k :: 1 <= k <= m ==> !RowIsUnit(G, k, i)) ==> v == 0.0
    ensures forall k :: 1 <= k <= m && RowIsUnit(G, k, i) && (forall l :: 1 <= l < k ==> !RowIsUnit(G, l, i)) ==>
      v == G[k][|G[0]| - 1]
  {
    var r := UnitRowScan(G, i, m, 1);
    if r == -1 then 0.0 else G[r][|G[0]| - 1]
  }

  /** The optimal solution read off a final tableau with n original variables
      and m constraints. */
  function Extract(G: seq<seq<real>>, n: nat, m: nat): (s: Solution)
    requires IsTableau(G) && m < |G|
    ensures s.status == Optimal && s.objectiveValue == Finite(G[0][|G[0]| - 1])
    ensures |s.variables| == n && forall i :: 0 <= i < n ==> s.variables[i] == VariableValue(G, i, m)
    ensures |s.slacks| == m && forall i :: 0 <= i < m ==> s.slacks[i] == G[i + 1][|G[0]| - 1]
  {
    var last := |G[0]| - 1;
    Solution(Optimal, Finite(G[0][last]),
      seq(n, i requires 0 <= i < n => VariableValue(G, i, m)),
      seq(m, i requires 0 <= i < m => G[i + 1][last]))
  }

  /** The quirk of testing rows: in [[0, 0, 5], [1, 1, 3]] column 0 is the
      unit vector e_1, so x1 is basic with value 3, yet row 1 is not a unit
      row for x1 and the extracted value is 0. */
  lemma RowTestMissesBasicColumn()
    ensures var G := [[0.0, 0.0, 5.0], [1.0, 1.0, 3.0]];
      G[0][0] == 0.0 && G[1][0] == 1.0 && VariableValue(G, 0, 1) == 0.0
  {
    var G := [[0.0, 0.0, 5.0], [1.0, 1.0, 3.0]];
    assert IsTableau(G);
    assert !RowIsUnit(G, 1, 0) by {
      assert Abs(G[1][1]) > Tolerance;
    }
    assert UnitRowScan(G, 0, 1, 2) == -1;
  }

  function InfeasibleSolution(): Solution
  {
    Solution(Infeasible, Finite(0.0), [], [])
  }

  function UnboundedSolution(dir: Direction): Solution
  {
    Solution(Unbounded, if dir == Maximize then PlusInfinity else MinusInfinity, [], [])
  }

  predicate HasNaN(p: Problem)
  {
    || (exists j :: 0 <= j < |p.objective| && p.objective[j].NaN?)
    || (exists i, j :: 0 <= i < |p.coefficients| && 0 <= j < |p.coefficients[i]| && p.coefficients[i][j].NaN?)
    || (exists i :: 0 <= i < |p.rhs| && p.rhs[i].NaN?)
  }

  function Values(s: seq<Cell>): (v: seq<real>)
    requires forall k :: 0 <= k < |s| ==> s[k].Num?
    ensures |v| == |s| && forall k :: 0 <= k < |s| ==> v[k] == s[k].value
  {
    seq(|s|, k requires 0 <= k < |s| => s[k].value)
  }

  function Matrix(p: Problem): (A: seq<seq<real>>)
    requires WellFormed(p) && !HasNaN(p)
    ensures |A| == |p.coefficients| && forall i :: 0 <= i < |A| ==> |A[i]| == |p.objective|
  {
    seq(|p.coefficients|, i requires 0 <= i < |p.coefficients| => Values(p.coefficients[i]))
  }

  /** The whole solver: standard form, Phase I, Phase II, extraction; `None`
      when a phase runs out of fuel. */
  ghost function Solve(p: Problem, fuel: nat): (r: Option<Solution>)
    requires WellFormed(p)
    ensures HasNaN(p) ==> r == Some(InfeasibleSolution())
    ensures r.Some? && r.value.status == Unbounded ==>
      r.value.variables == [] && r.value.objectiveValue == (if p.direction == Maximize then PlusInfinity else MinusInfinity)
    ensures r.Some? && r.value.status == Infeasible ==> r.value.variables == [] && r.value.objectiveValue == Finite(0.0)
    ensures r.Some? && r.value.status == Optimal ==>
      r.value.objectiveValue.Finite? && |r.value.variables| == |p.objective| && |r.value.slacks| == |p.rhs|
  {
    if HasNaN(p) then Some(InfeasibleSolution())
    else
      var G := StandardTableau(Values(p.objective), Matrix(p), Values(p.rhs), p.relations, p.direction);
      var one := PhaseOneRun(G, p.relations, fuel);
      match one.outcome
      case OutOfFuel => None
      case NoLeavingRow => Some(UnboundedSolution(p.direction))
      case ArtificialsRemain => Some(InfeasibleSolution())
      case Stopped =>
        var two := PhaseTwoLoop(one.grid, fuel);
        match two.outcome
        case OutOfFuel => None
        case NoLeavingRow => Some(UnboundedSolution(p.direction))
        case ArtificialsRemain => Some(InfeasibleSolution())
        case Stopped => Some(Extract(two.grid, |p.objective|, |p.rhs|))
  }

  // ---------------------------------------------------------------------------
  // The solver's loops on the tableau buffer

  /** The entering-column loop over a[0, 0..n). */
  method EnteringColumn(a: array2<real>, n: nat) returns (col: int)
    requires a.Length0 >= 1 && n <= a.Length1
    ensures col == Entering(Grid(a)[0], n)
  {
    ghost var row := Grid(a)[0];
    col := -1;
    var minCoeff := -Tolerance;
    for j := 0 to n
      invariant EnterScan(row, n, j, col, minCoeff) == Entering(row, n)
    {
      if a[0, j] < minCoeff {
        minCoeff := a[0, j];
        col := j;
      }
    }
  }

  /** The minimum-ratio loop over rows 1..m for entering column c. */
  method LeavingRow(t: array2<real>, c: nat, nonNegative: bool) returns (row: int)
    requires t.Length0 >= 1 && c < t.Length1
    ensures row == Leaving(Grid(t), c, nonNegative)
  {
    ghost var G := Grid(t);
    var n := t.Length1 - 1;
    row := -1;
    var minRatio := 0.0;
    for i := 1 to t.Length0
      invariant LeaveScan(G, c, nonNegative, i, row, minRatio) == Leaving(G, c, nonNegative)
    {
      if t[i, c] > Tolerance {
        var ratio := t[i, n] / t[i, c];
        assert ratio == Ratio(G, i, c);
        if (row == -1 || ratio < minRatio) && (!nonNegative || ratio >= 0.0) {
          minRatio := ratio;
          row := i;
        }
      }
    }
  }

  /** `tableau[leaveRow][j] /= pivot` for every column (Phase II). */
  method NormalizePivotRow(t: array2<real>, r: nat, c: nat)
    requires t.Length0 >= 1 && t.Length1 >= 1 && r < t.Length0 && c < t.Length1 && t[r, c] != 0.0
    modifies t
    ensures Grid(t) == Normalized(old(Grid(t)), r, c)
  {
    ghost var G := Grid(t);
    var pivot := t[r, c];
    for j := 0 to t.Length1
      invariant forall q :: 0 <= q < t.Length1 ==> t[r, q] == if q < j then G[r][q] / pivot else G[r][q]
      invariant forall i, q :: 0 <= i < t.Length0 && i != r && 0 <= q < t.Length1 ==> t[i, q] == G[i][q]
    {
      t[r, j] := t[r, j] / pivot;
    }
    GridIs(t, Normalized(G, r, c));
  }

  /** One column of the Phase I normalisation loop:
      `tableau[r][j] /= pivot; w[0][j] -= w[0][c] * tableau[r][j]`. */
  method NormalizeEntryUpdatingW(t: array2<real>, w: array2<real>, r: nat, c: nat, j: nat, pivot: real)
    requires t != w && r < t.Length0 && j < t.Length1 && w.Length0 >= 1 && c < w.Length1 && j < w.Length1
    requires pivot != 0.0
    modifies t, w
    ensures t[r, j] == old(t[r, j]) / pivot
    ensures w[0, j] == old(w[0, j]) - old(w[0, c]) * t[r, j]
    ensures forall i, q :: 0 <= i < t.Length0 && 0 <= q < t.Length1 && (i != r || q != j) ==> t[i, q] == old(t[i, q])
    ensures forall i, q :: 0 <= i < w.Length0 && 0 <= q < w.Length1 && (i != 0 || q != j) ==> w[i, q] == old(w[i, q])
  {
    t[r, j] := t[r, j] / pivot;
    w[0, j] := w[0, j] - w[0, c] * t[r, j];
  }

  /** The Phase I normalisation loop, which also updates w's row 0 column by
      column (the `WUpdate` order). */
  method NormalizePivotRowUpdatingW(t: array2<real>, w: array2<real>, r: nat, c: nat)
    requires t != w
    requires t.Length0 >= 1 && t.Length1 >= 1 && r < t.Length0 && c < t.Length1 && t[r, c] != 0.0
    requires w.Length0 >= 1 && w.Length1 == t.Length1
    modifies t, w
    ensures Grid(t) == Normalized(old(Grid(t)), r, c)
    ensures ObjectiveRow(w) == WUpdate(old(ObjectiveRow(w)), Grid(t)[r], c)
    ensures forall i, q :: 1 <= i < w.Length0 && 0 <= q < w.Length1 ==> w[i, q] == old(w[i, q])
  {
    ghost var G := Grid(t);
    ghost var W := ObjectiveRow(w);
    ghost var N := Normalized(G, r, c);
    ghost var V := WUpdate(W, N[r], c);
    assert N[r][c] == 1.0;
    assert V[c] == 0.0;
    var pivot := t[r, c];
    for j := 0 to t.Length1
      invariant forall q :: 0 <= q < t.Length1 ==> t[r, q] == if q < j then N[r][q] else G[r][q]
      invariant forall i, q :: 0 <= i < t.Length0 && i != r && 0 <= q < t.Length1 ==> t[i, q] == G[i][q]
      invariant forall q :: 0 <= q < w.Length1 ==> w[0, q] == if q < j then V[q] else W[q]
      invariant forall i, q :: 1 <= i < w.Length0 && 0 <= q < w.Length1 ==> w[i, q] == old(w[i, q])
    {
      ghost var factor := w[0, c];
      assert factor == if j <= c then W[c] else 0.0;
      NormalizeEntryUpdatingW(t, w, r, c, j, pivot);
      assert t[r, j] == N[r][j];
      assert w[0, j] == V[j];
    }
    GridIs(t, N);
    assert ObjectiveRow(w) == V;
  }

  /** `tableau[i][j] -= factor * tableau[leaveRow][j]` for one row i. */
  method EliminateRow(t: array2<real>, i: nat, r: nat, c: nat)
    requires i < t.Length0 && r < t.Length0 && i != r && c < t.Length1
    modifies t
    ensures forall q :: 0 <= q < t.Length1 ==> t[i, q] == old(t[i, q]) - old(t[i, c]) * t[r, q]
    ensures forall k, q :: 0 <= k < t.Length0 && k != i && 0 <= q < t.Length1 ==> t[k, q] == old(t[k, q])
  {
    var factor := t[i, c];
    for j := 0 to t.Length1
      invariant forall q :: 0 <= q < t.Length1 ==> t[i, q] == if q < j then old(t[i, q]) - factor * t[r, q] else old(t[i, q])
      invariant forall k, q :: 0 <= k < t.Length0 && k != i && 0 <= q < t.Length1 ==> t[k, q] == old(t[k, q])
    {
      t[i, j] := t[i, j] - factor * t[r, j];
    }
  }

  /** The elimination loop over every row but the pivot row. */
  method EliminateColumn(t: array2<real>, r: nat, c: nat)
    requires t.Length0 >= 1 && t.Length1 >= 1 && r < t.Length0 && c < t.Length1
    modifies t
    ensures Grid(t) == Eliminated(old(Grid(t)), r, c)
  {
    ghost var N := Grid(t);
    ghost var E := Eliminated(N, r, c);
    for i := 0 to t.Length0
      invariant forall k, q :: 0 <= k < t.Length0 && 0 <= q < t.Length1 ==> t[k, q] == if k < i then E[k][q] else N[k][q]
    {
      if i != r {
        EliminateRow(t, i, r, c);
      }
    }
    GridIs(t, E);
  }

  /** The Phase II pivot: normalise row r, then eliminate column c. */
  method Pivot(t: array2<real>, r: nat, c: nat)
    requires t.Length0 >= 1 && t.Length1 >= 1 && r < t.Length0 && c < t.Length1 && t[r, c] != 0.0
    modifies t
    ensures Grid(t) == Pivoted(old(Grid(t)), r, c)
  {
    NormalizePivotRow(t, r, c);
    EliminateColumn(t, r, c);
  }

  /** One iteration of the phaseTwo loop: stop, or pivot and go on. */
  method PhaseTwoStep(t: array2<real>, f: nat) returns (done: bool, outcome: Outcome)
    requires t.Length0 >= 1 && t.Length1 >= 1
    modifies t
    ensures done ==> PhaseTwoNext(old(Grid(t)), f) == Finish(outcome) && unchanged(t)
    ensures !done ==> PhaseTwoNext(old(Grid(t)), f) == Proceed(Grid(t))
  {
    var c := EnteringColumn(t, t.Length1 - 1);
    if c == -1 {
      return true, Stopped;
    }
    var r := LeavingRow(t, c, true);
    if r == -1 {
      return true, NoLeavingRow;
    }
    if f == 0 {
      return true, OutOfFuel;
    }
    Pivot(t, r, c);
    return false, Stopped;
  }

  /** phaseTwo: pivot until no entering column or no leaving row remains. */
  method PhaseTwo(t: array2<real>, fuel: nat) returns (outcome: Outcome)
    requires t.Length0 >= 1 && t.Length1 >= 1
    modifies t
    ensures Run(outcome, Grid(t)) == PhaseTwoLoop(old(Grid(t)), fuel)
  {
    ghost var goal := PhaseTwoLoop(Grid(t), fuel);
    var f := fuel;
    while true
      invariant PhaseTwoLoop(Grid(t), f) == goal
      decreases f
    {
      var done;
      done, outcome := PhaseTwoStep(t, f);
      if done {
        return;
      }
      f := f - 1;
    }
  }

  /** `w[0][j] += tableau[i][j]` for every column. */
  method AddRowToObjective(t: array2<real>, w: array2<real>, i: nat)
    requires t != w && i < t.Length0 && w.Length0 >= 1 && w.Length1 == t.Length1
    modifies w
    ensures forall q :: 0 <= q < w.Length1 ==> w[0, q] == old(w[0, q]) + t[i, q]
    ensures forall k, q :: 1 <= k < w.Length0 && 0 <= q < w.Length1 ==> w[k, q] == old(w[k, q])
  {
    for j := 0 to w.Length1
      invariant forall q :: 0 <= q < w.Length1 ==> w[0, q] == if q < j then old(w[0, q]) + t[i, q] else old(w[0, q])
      invariant forall k, q :: 1 <= k < w.Length0 && 0 <= q < w.Length1 ==> w[k, q] == old(w[k, q])
    {
      w[0, j] := w[0, j] + t[i, j];
    }
  }

  /** The Phase I objective: w's row 0 is the sum of the rows of `>=` and
      `=` constraints; the other rows of w stay 0. */
  method BuildPhaseOneObjective(t: array2<real>, rel: seq<Relation>) returns (w: array2<real>)
    requires t.Length0 >= 1 && t.Length1 >= 1 && |rel| == t.Length0 - 1
    ensures fresh(w) && w.Length0 == t.Length0 && w.Length1 == t.Length1
    ensures ObjectiveRow(w) == InitialW(Grid(t), rel)
    ensures forall i, q :: 1 <= i < w.Length0 && 0 <= q < w.Length1 ==> w[i, q] == 0.0
  {
    ghost var G := Grid(t);
    w := new real[t.Length0, t.Length1]((_, _) => 0.0);
    for i := 1 to t.Length0
      invariant forall q :: 0 <= q < w.Length1 ==> w[0, q] == ArtificialRowSum(G, rel, i - 1, q)
      invariant forall k, q :: 1 <= k < w.Length0 && 0 <= q < w.Length1 ==> w[k, q] == 0.0
    {
      if rel[i - 1] == AtLeast || rel[i - 1] == Equal {
        AddRowToObjective(t, w, i);
      }
    }
    assert ObjectiveRow(w) == InitialW(G, rel);
  }

  /** One iteration of the phaseOne loop: stop, or pivot (updating w) and go on. */
  method PhaseOneStep(t: array2<real>, w: array2<real>, f: nat) returns (done: bool, outcome: Outcome)
    requires t != w
    requires t.Length0 >= 1 && t.Length1 >= 1 && w.Length0 >= 1 && w.Length1 == t.Length1
    modifies t, w
    ensures done ==> PhaseOneNext(old(Grid(t)), old(ObjectiveRow(w)), f) == Halt(outcome) && unchanged(t, w)
    ensures !done ==> PhaseOneNext(old(Grid(t)), old(ObjectiveRow(w)), f) == Next(Grid(t), ObjectiveRow(w))
  {
    assert Grid(w)[0] == ObjectiveRow(w);
    var c := EnteringColumn(w, w.Length1 - 1);
    if c == -1 {
      return true, Stopped;
    }
    var r := LeavingRow(t, c, false);
    if r == -1 {
      return true, NoLeavingRow;
    }
    if f == 0 {
      return true, OutOfFuel;
    }
    NormalizePivotRowUpdatingW(t, w, r, c);
    EliminateColumn(t, r, c);
    return false, Stopped;
  }

  /** The phaseOne `while (true)` loop. */
  method PhaseOneIterate(t: array2<real>, w: array2<real>, fuel: nat) returns (outcome: Outcome)
    requires t != w
    requires t.Length0 >= 1 && t.Length1 >= 1 && w.Length0 >= 1 && w.Length1 == t.Length1
    modifies t, w
    ensures PhaseOneState(outcome, Grid(t), ObjectiveRow(w)) == PhaseOneLoop(old(Grid(t)), old(ObjectiveRow(w)), fuel)
  {
    ghost var goal := PhaseOneLoop(Grid(t), ObjectiveRow(w), fuel);
    var f := fuel;
    while true
      invariant PhaseOneLoop(Grid(t), ObjectiveRow(w), f) == goal
      decreases f
    {
      var done;
      done, outcome := PhaseOneStep(t, w, f);
      if done {
        return;
      }
      f := f - 1;
    }
  }

  /** phaseOne: skipped without artificial variables; otherwise pivot on w's
      row 0 and report artificials left when |w[0][n]| is above the tolerance. */
  method PhaseOne(t: array2<real>, rel: seq<Relation>, numArtificial: nat, fuel: nat) returns (outcome: Outcome)
    requires t.Length0 >= 1 && t.Length1 >= 1 && |rel| == t.Length0 - 1
    requires numArtificial == ArtificialCount(rel)
    modifies t
    ensures Run(outcome, Grid(t)) == PhaseOneRun(old(Grid(t)), rel, fuel)
  {
    if numArtificial == 0 {
      return Stopped;
    }
    var n := t.Length1 - 1;
    ghost var G := Grid(t);
    var w := BuildPhaseOneObjective(t, rel);
    ghost var s := PhaseOneLoop(G, InitialW(G, rel), fuel);
    outcome := PhaseOneIterate(t, w, fuel);
    assert ObjectiveRow(w) == s.w && Grid(t) == s.grid && outcome == s.outcome;
    assert w[0, n] == s.w[n];
    if outcome == Stopped && Abs(w[0, n]) > Tolerance {
      outcome := ArtificialsRemain;
    }
  }

  /** The `isBasic` loops for variable i over rows 1..m. */
  method ExtractVariable(t: array2<real>, i: nat, m: nat) returns (value: real)
    requires t.Length0 >= 1 && t.Length1 >= 1 && m < t.Length0
    ensures value == VariableValue(Grid(t), i, m)
  {
    ghost var G := Grid(t);
    value := 0.0;
    var row := 1;
    while row <= m
      invariant 1 <= row <= m + 1
      invariant UnitRowScan(G, i, m, row) == UnitRowScan(G, i, m, 1)
    {
      var isBasic := true;
      for col := 0 to t.Length1 - 1
        invariant isBasic <==> forall k :: 0 <= k < col ==>
          if k == i then Abs(G[row][k] - 1.0) <= Tolerance else Abs(G[row][k]) <= Tolerance
      {
        if col == i {
          if Abs(t[row, col] - 1.0) > Tolerance { isBasic := false; }
        } else {
          if Abs(t[row, col]) > Tolerance { isBasic := false; }
        }
      }
      if isBasic {
        value := t[row, t.Length1 - 1];
        return;
      }
      row := row + 1;
    }
  }

  /** The optimal solution object built from the final tableau. */
  method ExtractSolution(t: array2<real>, n: nat, m: nat) returns (s: Solution)
    requires t.Length0 >= 1 && t.Length1 >= 1 && m < t.Length0
    ensures s == Extract(Grid(t), n, m)
  {
    var last := t.Length1 - 1;
    var variables: seq<real> := [];
    for i := 0 to n
      invariant |variables| == i && forall k :: 0 <= k < i ==> variables[k] == VariableValue(Grid(t), k, m)
    {
      var v := ExtractVariable(t, i, m);
      variables := variables + [v];
    }
    var slacks: seq<real> := [];
    for i := 0 to m
      invariant |slacks| == i && forall k :: 0 <= k < i ==> slacks[k] == t[k + 1, last]
    {
      slacks := slacks + [t[i + 1, last]];
    }
    s := Solution(Optimal, Finite(t[0, last]), variables, slacks);
  }

  /** solveSimplex: the NaN check, the two phases and the status mapping. */
  method SolveSimplex(p: Problem, fuel: nat) returns (r: Option<Solution>)
    requires WellFormed(p)
    ensures r == Solve(p, fuel)
  {
    if HasNaN(p) {
      return Some(InfeasibleSolution());
    }
    var t, numSlack, numArtificial := Standardize(Values(p.objective), Matrix(p), Values(p.rhs), p.relations, p.direction);
    var one := PhaseOne(t, p.relations, numArtificial, fuel);
    match one
    case OutOfFuel => return None;
    case NoLeavingRow => return Some(UnboundedSolution(p.direction));
    case ArtificialsRemain => return Some(InfeasibleSolution());
    case Stopped =>
    var two := PhaseTwo(t, fuel);
    match two
    case OutOfFuel => return None;
    case NoLeavingRow => return Some(UnboundedSolution(p.direction));
    case ArtificialsRemain => return Some(InfeasibleSolution());
    case Stopped =>
    var solution := ExtractSolution(t, |p.objective|, |p.rhs|);
    r := Some(solution);
  }
}
