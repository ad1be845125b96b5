/** Numeric helpers shared by the solver modules: absolute value, minimum,
    left-to-right sums (the `reduce((a, b) => a + b, 0)` of the pages), the
    two rounding functions the program uses (JavaScript's `Math.round` and
    Python's `round`), list filtering, and matrices held as sequences of
    rows. */
module Numeric {

  datatype Option<T> = None | Some(value: T)

  function Abs(x: real): (r: real)
    ensures r >= 0.0 && (r == x || r == -x)
  {
    if x < 0.0 then -x else x
  }

  function Min(a: real, b: real): (r: real)
    ensures r <= a && r <= b && (r == a || r == b)
  {
    if a <= b then a else b
  }

  /** `Min` on integers (counts and slice ends); Dafny has no overloading,
      so the two types need two functions. */
  function MinInt(a: int, b: int): (r: int)
    ensures r <= a && r <= b && (r == a || r == b)
  {
    if a <= b then a else b
  }

  /** Sum of a sequence, accumulated from the left as `reduce` does. */
  function Sum(s: seq<real>): real
  {
    if s == [] then 0.0 else Sum(s[..|s| - 1]) + s[|s| - 1]
  }

  lemma {:induction false} SumUpdate(s: seq<real>, k: nat, v: real)
    requires k < |s|
    ensures Sum(s[k := v]) == Sum(s) - s[k] + v
    decreases |s|
  {
    var n := |s| - 1;
    assert s[k := v][..n] == if k < n then s[..n][k := v] else s[..n];
    if k < n {
      SumUpdate(s[..n], k, v);
    }
  }

  lemma {:induction false} SumNonNegative(s: seq<real>)
    requires forall k :: 0 <= k < |s| ==> s[k] >= 0.0
    ensures Sum(s) >= 0.0
    decreases |s|
  {
    if s != [] {
      SumNonNegative(s[..|s| - 1]);
    }
  }

  lemma {:induction false} SumConstantZero(n: nat)
    ensures Sum(seq(n, _ => 0.0)) == 0.0
  {
    if n > 0 {
      assert seq(n, _ => 0.0)[..n - 1] == seq(n - 1, _ => 0.0);
      SumConstantZero(n - 1);
    }
  }

  /** Number of entries strictly above a threshold. */
  function CountAbove(s: seq<real>, bound: real): (r: nat)
    ensures r <= |s|
  {
    if s == [] then 0 else CountAbove(s[..|s| - 1], bound) + (if s[|s| - 1] > bound then 1 else 0)
  }

  /** Lowering entries never raises the count, and lowering one entry from
      above the bound to at most the bound lowers it strictly. */
  lemma {:induction false} CountAboveDecreases(s: seq<real>, t: seq<real>, bound: real, k: int)
    requires |s| == |t|
    requires forall i :: 0 <= i < |s| ==> t[i] <= s[i]
    requires 0 <= k < |s| ==> s[k] > bound && t[k] <= bound
    ensures CountAbove(t, bound) <= CountAbove(s, bound)
    ensures 0 <= k < |s| ==> CountAbove(t, bound) < CountAbove(s, bound)
    decreases |s|
  {
    if s != [] {
      var n := |s| - 1;
      CountAboveDecreases(s[..n], t[..n], bound, if k < n then k else -1);
    }
  }

  /** Lowering one entry never raises the count, and lowering it from above
      the bound to at most the bound lowers the count. */
  lemma CountAboveLowerOne(s: seq<real>, k: nat, v: real, bound: real)
    requires k < |s| && v <= s[k]
    ensures CountAbove(s[k := v], bound) <= CountAbove(s, bound)
    ensures s[k] > bound && v <= bound ==> CountAbove(s[k := v], bound) < CountAbove(s, bound)
  {
    CountAboveDecreases(s, s[k := v], bound, if s[k] > bound && v <= bound then k else -1);
  }

  /** JavaScript `Math.round`: the nearest integer, halves rounded up. */
  function JsRound(x: real): (r: int)
    ensures x - 0.5 < r as real <= x + 0.5
  {
    (x + 0.5).Floor
  }

  /** Python `round` to an integer: the nearest integer, halves to even. */
  function PyRound(x: real): (r: int)
    ensures x - 0.5 <= r as real <= x + 0.5
    ensures r as real - x == 0.5 || x - r as real == 0.5 ==> r % 2 == 0
  {
    var f := x.Floor;
    var frac := x - f as real;
    if frac < 0.5 then f
    else if frac > 0.5 then f + 1
    else if f % 2 == 0 then f
    else f + 1
  }

  /** `xs.filter(keep)`: the entries that pass, in order. */
  function Keep<T(!new)>(xs: seq<T>, keep: T -> bool): (r: seq<T>)
    ensures |r| <= |xs|
    ensures forall x :: x in r <==> x in xs && keep(x)
  {
    if xs == [] then [] else (if keep(xs[0]) then [xs[0]] else []) + Keep(xs[1..], keep)
  }

  /** A filter that drops nothing returns the list unchanged. */
  lemma {:induction false} KeepAll<T(!new)>(xs: seq<T>, keep: T -> bool)
    requires forall x :: x in xs ==> keep(x)
    ensures Keep(xs, keep) == xs
  {
    if xs != [] {
      KeepAll(xs[1..], keep);
      assert xs == [xs[0]] + xs[1..];
    }
  }

  /** Filtering a list extended by one entry extends the filtered list by that entry when it passes. */
  lemma {:induction false} KeepAppend<T(!new)>(xs: seq<T>, x: T, keep: T -> bool)
    ensures Keep(xs + [x], keep) == Keep(xs, keep) + (if keep(x) then [x] else [])
  {
    if xs != [] {
      KeepAppend(xs[1..], x, keep);
      assert (xs + [x])[1..] == xs[1..] + [x];
    }
  }

  // Matrices, as sequences of rows

  predicate IsMatrix(a: seq<seq<real>>, m: nat, n: nat)
  {
    |a| == m && forall i :: 0 <= i < m ==> |a[i]| == n
  }

  /** `Array(m).fill(0).map(() => Array(n).fill(0))`. */
  function Zeros(m: nat, n: nat): (a: seq<seq<real>>)
    ensures IsMatrix(a, m, n)
  {
    seq(m, _ => seq(n, _ => 0.0))
  }

  /** `a[i][j] = v`. */
  function SetCell(a: seq<seq<real>>, i: nat, j: nat, v: real): (b: seq<seq<real>>)
    requires i < |a| && j < |a[i]|
  {
    a[i := a[i][j := v]]
  }

  /** Column j of a matrix. */
  function Column(a: seq<seq<real>>, j: nat): (col: seq<real>)
    requires forall i :: 0 <= i < |a| ==> j < |a[i]|
    ensures |col| == |a|
  {
    seq(|a|, i requires 0 <= i < |a| => a[i][j])
  }

  /** Writing v into cell (i, j) changes row i's sum and column j's sum by
      v minus the old entry and leaves every other column as it was. */
  lemma SetCellSums(a: seq<seq<real>>, m: nat, n: nat, i: nat, j: nat, v: real)
    requires IsMatrix(a, m, n) && i < m && j < n
    ensures IsMatrix(SetCell(a, i, j, v), m, n)
    ensures Sum(SetCell(a, i, j, v)[i]) == Sum(a[i]) - a[i][j] + v
    ensures Sum(Column(SetCell(a, i, j, v), j)) == Sum(Column(a, j)) - a[i][j] + v
    ensures forall c :: 0 <= c < n && c != j ==> Column(SetCell(a, i, j, v), c) == Column(a, c)
  {
    SumUpdate(a[i], j, v);
    assert Column(SetCell(a, i, j, v), j) == Column(a, j)[i := v];
    SumUpdate(Column(a, j), i, v);
  }

  /** Every row and column of the zero matrix sums to 0. */
  lemma ZerosSums(m: nat, n: nat)
    ensures forall i :: 0 <= i < m ==> Sum(Zeros(m, n)[i]) == 0.0
    ensures forall j :: 0 <= j < n ==> Sum(Column(Zeros(m, n), j)) == 0.0
  {
    SumConstantZero(n);
    SumConstantZero(m);
    forall j | 0 <= j < n
      ensures Column(Zeros(m, n), j) == seq(m, _ => 0.0)
    {
    }
  }

  predicate NonNegative(a: seq<seq<real>>)
  {
    forall i, j :: 0 <= i < |a| && 0 <= j < |a[i]| ==> a[i][j] >= 0.0
  }

  /** The cost of one row: the sum of allocation times unit cost. */
  function RowCost(a: seq<real>, c: seq<real>): real
    requires |a| == |c|
  {
    if a == [] then 0.0 else RowCost(a[..|a| - 1], c[..|a| - 1]) + a[|a| - 1] * c[|a| - 1]
  }

  /** The cost of an allocation: the sum of its row costs. */
  function Cost(a: seq<seq<real>>, c: seq<seq<real>>): real
    requires |a| == |c| && forall i :: 0 <= i < |a| ==> |a[i]| == |c[i]|
  {
    if a == [] then 0.0 else Cost(a[..|a| - 1], c[..|a| - 1]) + RowCost(a[|a| - 1], c[|a| - 1])
  }
}
