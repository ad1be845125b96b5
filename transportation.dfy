/** The transportation page (src/pages/Transportation.tsx): padding an
    unbalanced problem with a dummy source or destination, the North-West
    Corner, Minimum-Cost and Vogel's Approximation starting allocations, the
    total cost, and stripping of the dummy row or column.

    The page keeps its working arrays in local variables of one call and never
    shares them, so the matrices here are `seq<seq<real>>` values that the
    methods reassign cell by cell. */
module Transportation {
  import opened Numeric

  /** The `epsilon` of the three heuristics (1e-10). */
  const Epsilon: real := 0.0000000001

  /** The bookkeeping of North-West Corner and Vogel: what row i ships plus
      what it has left is its supply, and what column j receives plus what it
      still needs is its demand. */
  predicate Ledger(supply: seq<real>, demand: seq<real>, a: seq<seq<real>>, supplyLeft: seq<real>, demandLeft: seq<real>)
  {
    && IsMatrix(a, |supply|, |demand|) && |supplyLeft| == |supply| && |demandLeft| == |demand|
    && (forall i :: 0 <= i < |supply| ==> Sum(a[i]) + supplyLeft[i] == supply[i])
    && (forall j :: 0 <= j < |demand| ==> Sum(Column(a, j)) + demandLeft[j] == demand[j])
  }

  lemma ZerosLedger(supply: seq<real>, demand: seq<real>)
    ensures Ledger(supply, demand, Zeros(|supply|, |demand|), supply, demand)
  {
    ZerosSums(|supply|, |demand|);
  }

  /** Writing v into an empty cell (i, j) and taking v off both remainders
      keeps the ledger. */
  lemma LedgerMove(supply: seq<real>, demand: seq<real>, a: seq<seq<real>>, supplyLeft: seq<real>, demandLeft: seq<real>, i: nat, j: nat, v: real)
    requires Ledger(supply, demand, a, supplyLeft, demandLeft)
    requires i < |supply| && j < |demand| && a[i][j] == 0.0
    ensures Ledger(supply, demand, SetCell(a, i, j, v), supplyLeft[i := supplyLeft[i] - v], demandLeft[j := demandLeft[j] - v])
  {
    SetCellSums(a, |supply|, |demand|, i, j, v);
  }

  // ---------------------------------------------------------------------------
  // Padding (Transportation.tsx:62-77)

  datatype Instance = Instance(supply: seq<real>, demand: seq<real>, costs: seq<seq<real>>)

  /** Sum of a sequence with one more entry. */
  lemma SumAppend(s: seq<real>, x: real)
    ensures Sum(s + [x]) == Sum(s) + x
  {
    assert (s + [x])[..|s|] == s;
  }

  /** The working copies: supply, demand and costs as given when the totals
      agree; otherwise a dummy destination (a zero cost column) that takes
      the excess supply, or a dummy source (a zero cost row) that provides
      the missing supply. */
  function Balance(supply: seq<real>, demand: seq<real>, costs: seq<seq<real>>): (p: Instance)
    requires IsMatrix(costs, |supply|, |demand|)
  {
    var totalSupply, totalDemand := Sum(supply), Sum(demand);
    if totalSupply > totalDemand then
      Instance(supply, demand + [totalSupply - totalDemand], seq(|costs|, i requires 0 <= i < |costs| => costs[i] + [0.0]))
    else if totalDemand > totalSupply then
      Instance(supply + [totalDemand - totalSupply], demand, costs + [seq(|demand|, _ => 0.0)])
    else
      Instance(supply, demand, costs)
  }

  /** After padding the working totals agree, the cost matrix fits the
      working sizes, the original data is kept as a prefix, and a dummy row
      or column costs nothing. */
  lemma BalanceBalances(supply: seq<real>, demand: seq<real>, costs: seq<seq<real>>)
    requires IsMatrix(costs, |supply|, |demand|)
    ensures var p := Balance(supply, demand, costs);
      && Sum(p.supply) == Sum(p.demand)
      && IsMatrix(p.costs, |p.supply|, |p.demand|)
      && supply <= p.supply && demand <= p.demand
      && |p.supply| + |p.demand| <= |supply| + |demand| + 1
      && (Sum(supply) == Sum(demand) <==> p == Instance(supply, demand, costs))
      && (forall i, j :: 0 <= i < |supply| && 0 <= j < |demand| ==> p.costs[i][j] == costs[i][j])
      && (forall i, j :: 0 <= i < |p.supply| && 0 <= j < |p.demand| && (i >= |supply| || j >= |demand|) ==> p.costs[i][j] == 0.0)
  {
    var p := Balance(supply, demand, costs);
    if Sum(supply) > Sum(demand) {
      SumAppend(demand, Sum(supply) - Sum(demand));
    } else if Sum(demand) > Sum(supply) {
      SumAppend(supply, Sum(demand) - Sum(supply));
    }
  }

  /** The balanced cost matrix has a row per source and a column per
      destination. */
  lemma BalanceIsMatrix(supply: seq<real>, demand: seq<real>, costs: seq<seq<real>>)
    requires IsMatrix(costs, |supply|, |demand|)
    ensures var p := Balance(supply, demand, costs); IsMatrix(p.costs, |p.supply|, |p.demand|)
  {
    BalanceBalances(supply, demand, costs);
  }

  // ---------------------------------------------------------------------------
  // North-West Corner (Transportation.tsx:79-114)

  /** The loop state of `northWestCorner`: the cursor, the allocation and
      both remainders. */
  datatype Corner = Corner(i: nat, j: nat, allocation: seq<seq<real>>, supplyLeft: seq<real>, demandLeft: seq<real>)

  predicate CornerFits(m: nat, n: nat, s: Corner)
  {
    s.i < m && s.j < n && IsMatrix(s.allocation, m, n) && |s.supplyLeft| == m && |s.demandLeft| == n
  }

  /** The allocation at the cursor: min(remaining supply, remaining demand)
      when that is positive, otherwise epsilon; both remainders drop by the
      amount written. */
  function CornerAllocate(m: nat, n: nat, s: Corner): (t: Corner)
    requires CornerFits(m, n, s)
    ensures CornerFits(m, n, t) && t.i == s.i && t.j == s.j
  {
    var q := Min(s.supplyLeft[s.i], s.demandLeft[s.j]);
    var v := if q > 0.0 then q else Epsilon;
    Corner(s.i, s.j, SetCell(s.allocation, s.i, s.j, v),
      s.supplyLeft[s.i := s.supplyLeft[s.i] - v], s.demandLeft[s.j := s.demandLeft[s.j] - v])
  }

  /** The North-West loop from cursor (s.i, s.j): allocate, then move down
      if the row is used up and not the last, else right if the column is
      used up and not the last, else stop. */
  function CornerRun(m: nat, n: nat, s: Corner): (t: Corner)
    requires CornerFits(m, n, s)
    ensures CornerFits(m, n, t) && s.i <= t.i && s.j <= t.j
    decreases (m - s.i) + (n - s.j)
  {
    var u := CornerAllocate(m, n, s);
    if Abs(u.supplyLeft[u.i]) < Epsilon && u.i < m - 1 then CornerRun(m, n, u.(i := u.i + 1))
    else if Abs(u.demandLeft[u.j]) < Epsilon && u.j < n - 1 then CornerRun(m, n, u.(j := u.j + 1))
    else u
  }

  /** The loop's start: cursor (0, 0), nothing allocated, full remainders. */
  function CornerStart(supply: seq<real>, demand: seq<real>): Corner
  {
    Corner(0, 0, Zeros(|supply|, |demand|), supply, demand)
  }

  /** The allocation `northWestCorner` returns. */
  function NorthWest(supply: seq<real>, demand: seq<real>): (a: seq<seq<real>>)
    ensures IsMatrix(a, |supply|, |demand|)
  {
    if |supply| == 0 || |demand| == 0 then Zeros(|supply|, |demand|)
    else CornerRun(|supply|, |demand|, CornerStart(supply, demand)).allocation
  }

  /** The number of iterations of the North-West loop from s. */
  function CornerIterations(m: nat, n: nat, s: Corner): nat
    requires CornerFits(m, n, s)
    decreases (m - s.i) + (n - s.j)
  {
    var u := CornerAllocate(m, n, s);
    if Abs(u.supplyLeft[u.i]) < Epsilon && u.i < m - 1 then 1 + CornerIterations(m, n, u.(i := u.i + 1))
    else if Abs(u.demandLeft[u.j]) < Epsilon && u.j < n - 1 then 1 + CornerIterations(m, n, u.(j := u.j + 1))
    else 1
  }

  /** Each iteration moves the cursor one step down or right, and it never
      leaves the matrix, so the loop runs at most m + n - 1 times. */
  lemma {:induction false} CornerIterationsBound(m: nat, n: nat, s: Corner)
    requires CornerFits(m, n, s)
    ensures CornerIterations(m, n, s) == (CornerRun(m, n, s).i - s.i) + (CornerRun(m, n, s).j - s.j) + 1
    ensures CornerIterations(m, n, s) <= (m - s.i) + (n - s.j) - 1
    decreases (m - s.i) + (n - s.j)
  {
    var u := CornerAllocate(m, n, s);
    if Abs(u.supplyLeft[u.i]) < Epsilon && u.i < m - 1 {
      CornerIterationsBound(m, n, u.(i := u.i + 1));
    } else if Abs(u.demandLeft[u.j]) < Epsilon && u.j < n - 1 {
      CornerIterationsBound(m, n, u.(j := u.j + 1));
    }
  }

  /** Cells at or after the cursor in both directions are still empty. */
  predicate AheadEmpty(m: nat, n: nat, s: Corner)
    requires CornerFits(m, n, s)
  {
    forall r, c :: s.i <= r < m && s.j <= c < n ==> s.allocation[r][c] == 0.0
  }

  /** One allocation keeps the ledger, writes a positive amount into an
      empty cell, and leaves empty the cells ahead of either next cursor. */
  lemma CornerAllocateKeepsLedger(supply: seq<real>, demand: seq<real>, s: Corner)
    requires CornerFits(|supply|, |demand|, s) && AheadEmpty(|supply|, |demand|, s)
    requires Ledger(supply, demand, s.allocation, s.supplyLeft, s.demandLeft) && NonNegative(s.allocation)
    ensures var u := CornerAllocate(|supply|, |demand|, s);
      && Ledger(supply, demand, u.allocation, u.supplyLeft, u.demandLeft) && NonNegative(u.allocation)
      && (s.i < |supply| - 1 ==> AheadEmpty(|supply|, |demand|, u.(i := s.i + 1)))
      && (s.j < |demand| - 1 ==> AheadEmpty(|supply|, |demand|, u.(j := s.j + 1)))
  {
    var q := Min(s.supplyLeft[s.i], s.demandLeft[s.j]);
    var v := if q > 0.0 then q else Epsilon;
    LedgerMove(supply, demand, s.allocation, s.supplyLeft, s.demandLeft, s.i, s.j, v);
  }

  /** The North-West loop keeps the ledger and writes only positive amounts,
      because it visits every cell at most once. */
  lemma {:induction false} CornerRunKeepsLedger(supply: seq<real>, demand: seq<real>, s: Corner)
    requires CornerFits(|supply|, |demand|, s) && AheadEmpty(|supply|, |demand|, s)
    requires Ledger(supply, demand, s.allocation, s.supplyLeft, s.demandLeft) && NonNegative(s.allocation)
    ensures var t := CornerRun(|supply|, |demand|, s);
      Ledger(supply, demand, t.allocation, t.supplyLeft, t.demandLeft) && NonNegative(t.allocation)
    decreases (|supply| - s.i) + (|demand| - s.j)
  {
    var m, n := |supply|, |demand|;
    var u := CornerAllocate(m, n, s);
    CornerAllocateKeepsLedger(supply, demand, s);
    if Abs(u.supplyLeft[u.i]) < Epsilon && u.i < m - 1 {
      var next := u.(i := u.i + 1);
      assert CornerRun(m, n, s) == CornerRun(m, n, next);
      CornerRunKeepsLedger(supply, demand, next);
    } else if Abs(u.demandLeft[u.j]) < Epsilon && u.j < n - 1 {
      var next := u.(j := u.j + 1);
      assert CornerRun(m, n, s) == CornerRun(m, n, next);
      CornerRunKeepsLedger(supply, demand, next);
    } else {
      assert CornerRun(m, n, s) == u;
    }
  }

  /** North-West conserves supply and demand: with the final remainders, each
      row ships its supply less what is left and each column receives its
      demand less what is still needed; no cell is negative. */
  lemma NorthWestConserves(supply: seq<real>, demand: seq<real>)
    requires |supply| > 0 && |demand| > 0
    ensures var t := CornerRun(|supply|, |demand|, CornerStart(supply, demand));
      && t.allocation == NorthWest(supply, demand)
      && Ledger(supply, demand, t.allocation, t.supplyLeft, t.demandLeft)
      && NonNegative(t.allocation)
  {
    ZerosLedger(supply, demand);
    CornerRunKeepsLedger(supply, demand, CornerStart(supply, demand));
  }

  /** A positive allocation at the cursor uses up the row or the column
      there: the remainder that was smaller becomes exactly 0. */
  lemma CornerAllocateExhausts(m: nat, n: nat, s: Corner)
    requires CornerFits(m, n, s) && Min(s.supplyLeft[s.i], s.demandLeft[s.j]) > 0.0
    ensures var t := CornerAllocate(m, n, s);
      && t.allocation[s.i][s.j] == Min(s.supplyLeft[s.i], s.demandLeft[s.j])
      && (t.supplyLeft[s.i] == 0.0 || t.demandLeft[s.j] == 0.0)
      && t.supplyLeft[s.i] >= 0.0 && t.demandLeft[s.j] >= 0.0
  {
  }

  /** With supply [10, 10] and demand [10, 10] the first step exhausts row 0
      and column 0 together; the cursor moves down, writes epsilon at (1, 0)
      and leaves column 0 at -epsilon, whose absolute value is not below
      epsilon, so the loop stops and column 1 receives nothing. */
  lemma NorthWestStopsAfterTie()
    ensures NorthWest([10.0, 10.0], [10.0, 10.0]) == [[10.0, 0.0], [Epsilon, 0.0]]
  {
    var zero: seq<real> := seq(2, _ => 0.0);
    assert zero == [0.0, 0.0] by {
      assert zero[0] == 0.0 && zero[1] == 0.0;
    }
    assert Zeros(2, 2) == [zero, zero];
    var s0 := CornerStart([10.0, 10.0], [10.0, 10.0]);
    var u0 := CornerAllocate(2, 2, s0);
    assert Min(10.0, 10.0) == 10.0;
    assert [0.0, 0.0][0 := 10.0] == [10.0, 0.0];
    assert u0.allocation == [[10.0, 0.0], [0.0, 0.0]];
    assert u0.supplyLeft == [0.0, 10.0] && u0.demandLeft == [0.0, 10.0];
    var s1 := u0.(i := 1);
    var u1 := CornerAllocate(2, 2, s1);
    assert Min(10.0, 0.0) == 0.0;
    assert [0.0, 0.0][0 := Epsilon] == [Epsilon, 0.0];
    assert u1.allocation == [[10.0, 0.0], [Epsilon, 0.0]];
    assert [0.0, 10.0][0 := 0.0 - Epsilon] == [-Epsilon, 10.0];
    assert u1.supplyLeft == [0.0, 10.0 - Epsilon] && u1.demandLeft == [-Epsilon, 10.0];
    assert CornerRun(2, 2, s1) == u1;
  }

  /** `northWestCorner`. */
  method NorthWestCorner(supply: seq<real>, demand: seq<real>) returns (allocation: seq<seq<real>>)
    ensures allocation == NorthWest(supply, demand)
  {
    var m, n := |supply|, |demand|;
    allocation := Zeros(m, n);
    var remainingSupply, remainingDemand := supply, demand;
    var i, j := 0, 0;
    ghost var goal := NorthWest(supply, demand);
    while i < m && j < n
      invariant m == 0 || n == 0 ==> allocation == Zeros(m, n)
      invariant m > 0 && n > 0 ==>
        var s := Corner(i, j, allocation, remainingSupply, remainingDemand);
        CornerFits(m, n, s) && CornerRun(m, n, s).allocation == goal
      decreases (m - i) + (n - j)
    {
      ghost var s := Corner(i, j, allocation, remainingSupply, remainingDemand);
      var quantity := Min(remainingSupply[i], remainingDemand[j]);
      if quantity > 0.0 {
        allocation := SetCell(allocation, i, j, quantity);
        remainingSupply := remainingSupply[i := remainingSupply[i] - quantity];
        remainingDemand := remainingDemand[j := remainingDemand[j] - quantity];
      } else {
        allocation := SetCell(allocation, i, j, Epsilon);
        remainingSupply := remainingSupply[i := remainingSupply[i] - Epsilon];
        remainingDemand := remainingDemand[j := remainingDemand[j] - Epsilon];
      }
      assert Corner(i, j, allocation, remainingSupply, remainingDemand) == CornerAllocate(m, n, s);
      if Abs(remainingSupply[i]) < Epsilon && i < m - 1 {
        i := i + 1;
      } else if Abs(remainingDemand[j]) < Epsilon && j < n - 1 {
        j := j + 1;
      } else {
        break;
      }
    }
  }

  // ---------------------------------------------------------------------------
  // Minimum-Cost (Transportation.tsx:116-170)

  /** `.some(x => x > bound)`. */
  predicate SomeAbove(s: seq<real>, bound: real)
  {
    exists k :: 0 <= k < |s| && s[k] > bound
  }

  /** Cell (i, j) may still receive goods: both remainders exceed epsilon. */
  predicate Open(supplyLeft: seq<real>, demandLeft: seq<real>, i: nat, j: nat)
    requires i < |supplyLeft| && j < |demandLeft|
  {
    supplyLeft[i] > Epsilon && demandLeft[j] > Epsilon
  }

  /** (a, b) comes before (i, j) in row-major order. */
  predicate Before(a: nat, b: nat, i: nat, j: nat)
  {
    a < i || (a == i && b < j)
  }

  /** The cheapest-cell search after the cells before (i, j): `found` plays
      the part of `minCost < Infinity`. */
  ghost predicate CheapestSoFar(costs: seq<seq<real>>, supplyLeft: seq<real>, demandLeft: seq<real>, i: nat, j: nat,
                                found: bool, minI: nat, minJ: nat, minCost: real)
    requires IsMatrix(costs, |supplyLeft|, |demandLeft|)
  {
    var m, n := |supplyLeft|, |demandLeft|;
    && (!found ==>
          && minI == 0 && minJ == 0
          && forall a, b :: 0 <= a < m && 0 <= b < n && Before(a, b, i, j) ==> !Open(supplyLeft, demandLeft, a, b))
    && (found ==>
          && minI < m && minJ < n && Before(minI, minJ, i, j) && Open(supplyLeft, demandLeft, minI, minJ)
          && minCost == costs[minI][minJ]
          && forall a, b :: 0 <= a < m && 0 <= b < n && Before(a, b, i, j) && Open(supplyLeft, demandLeft, a, b) ==>
               minCost <= costs[a][b] && (Before(a, b, minI, minJ) ==> minCost < costs[a][b]))
  }

  /** The cheapest open cell: when no cell is open, (0, 0); otherwise an
      open cell that costs no more than any open cell and strictly less than
      every open cell before it in row-major order (ties go to the first). */
  ghost predicate IsCheapestOpen(costs: seq<seq<real>>, supplyLeft: seq<real>, demandLeft: seq<real>, c: (nat, nat))
    requires IsMatrix(costs, |supplyLeft|, |demandLeft|)
  {
    var m, n := |supplyLeft|, |demandLeft|;
    && ((forall a, b :: 0 <= a < m && 0 <= b < n ==> !Open(supplyLeft, demandLeft, a, b)) ==> c == (0, 0))
    && ((exists a, b :: 0 <= a < m && 0 <= b < n && Open(supplyLeft, demandLeft, a, b)) ==>
          && c.0 < m && c.1 < n && Open(supplyLeft, demandLeft, c.0, c.1)
          && forall a, b :: 0 <= a < m && 0 <= b < n && Open(supplyLeft, demandLeft, a, b) ==>
               costs[c.0][c.1] <= costs[a][b] && (Before(a, b, c.0, c.1) ==> costs[c.0][c.1] < costs[a][b]))
  }

  /** The search for the cheapest cell from (i, j) on, with the best found
      so far: a row whose supply is used up is skipped (`continue`), as is a
      column whose demand is, and a cell replaces the best only when it is
      strictly cheaper (`minCost` starts at Infinity, here `found`). */
  function CheapestFrom(costs: seq<seq<real>>, supplyLeft: seq<real>, demandLeft: seq<real>, i: nat, j: nat,
                        found: bool, minI: nat, minJ: nat, minCost: real): (nat, nat)
    requires IsMatrix(costs, |supplyLeft|, |demandLeft|) && i <= |supplyLeft| && j <= |demandLeft|
    decreases |supplyLeft| - i, |demandLeft| - j
  {
    if i == |supplyLeft| then (minI, minJ)
    else if j == |demandLeft| || supplyLeft[i] <= Epsilon then
      CheapestFrom(costs, supplyLeft, demandLeft, i + 1, 0, found, minI, minJ, minCost)
    else if demandLeft[j] > Epsilon && (!found || costs[i][j] < minCost) then
      CheapestFrom(costs, supplyLeft, demandLeft, i, j + 1, true, i, j, costs[i][j])
    else
      CheapestFrom(costs, supplyLeft, demandLeft, i, j + 1, found, minI, minJ, minCost)
  }

  /** The search keeps "cheapest open cell so far", so it ends with the
      cheapest open cell. */
  lemma {:induction false} CheapestFromIsCheapest(costs: seq<seq<real>>, supplyLeft: seq<real>, demandLeft: seq<real>, i: nat, j: nat,
                                                  found: bool, minI: nat, minJ: nat, minCost: real)
    requires IsMatrix(costs, |supplyLeft|, |demandLeft|) && i <= |supplyLeft| && j <= |demandLeft|
    requires CheapestSoFar(costs, supplyLeft, demandLeft, i, j, found, minI, minJ, minCost)
    ensures IsCheapestOpen(costs, supplyLeft, demandLeft, CheapestFrom(costs, supplyLeft, demandLeft, i, j, found, minI, minJ, minCost))
    decreases |supplyLeft| - i, |demandLeft| - j
  {
    if i == |supplyLeft| {
    } else if j == |demandLeft| || supplyLeft[i] <= Epsilon {
      CheapestFromIsCheapest(costs, supplyLeft, demandLeft, i + 1, 0, found, minI, minJ, minCost);
    } else if demandLeft[j] > Epsilon && (!found || costs[i][j] < minCost) {
      CheapestFromIsCheapest(costs, supplyLeft, demandLeft, i, j + 1, true, i, j, costs[i][j]);
    } else {
      CheapestFromIsCheapest(costs, supplyLeft, demandLeft, i, j + 1, found, minI, minJ, minCost);
    }
  }

  /** The cell the Minimum-Cost loop fills next. */
  function CheapestOpen(costs: seq<seq<real>>, supplyLeft: seq<real>, demandLeft: seq<real>): (c: (nat, nat))
    requires IsMatrix(costs, |supplyLeft|, |demandLeft|)
    ensures IsCheapestOpen(costs, supplyLeft, demandLeft, c)
  {
    CheapestFromIsCheapest(costs, supplyLeft, demandLeft, 0, 0, false, 0, 0, 0.0);
    CheapestFrom(costs, supplyLeft, demandLeft, 0, 0, false, 0, 0, 0.0)
  }

  /** The nested `for` loops that find the cheapest open cell. */
  method CheapestCell(costs: seq<seq<real>>, supplyLeft: seq<real>, demandLeft: seq<real>) returns (minI: nat, minJ: nat)
    requires IsMatrix(costs, |supplyLeft|, |demandLeft|)
    ensures (minI, minJ) == CheapestOpen(costs, supplyLeft, demandLeft)
  {
    var m, n := |supplyLeft|, |demandLeft|;
    var found := false;
    var minCost := 0.0;
    minI, minJ := 0, 0;
    for i := 0 to m
      invariant CheapestFrom(costs, supplyLeft, demandLeft, i, 0, found, minI, minJ, minCost) == CheapestOpen(costs, supplyLeft, demandLeft)
    {
      if supplyLeft[i] > Epsilon {
        for j := 0 to n
          invariant CheapestFrom(costs, supplyLeft, demandLeft, i, j, found, minI, minJ, minCost) == CheapestOpen(costs, supplyLeft, demandLeft)
        {
          if demandLeft[j] > Epsilon {
            if !found || costs[i][j] < minCost {
              found, minCost, minI, minJ := true, costs[i][j], i, j;
            }
          }
        }
      }
    }
  }

  /** The bookkeeping of Minimum-Cost, where an epsilon cell can later be
      overwritten by an allocation: what row i ships plus what it has left is
      at most its supply, and likewise for columns. */
  predicate LedgerAtMost(supply: seq<real>, demand: seq<real>, a: seq<seq<real>>, supplyLeft: seq<real>, demandLeft: seq<real>)
  {
    && IsMatrix(a, |supply|, |demand|) && |supplyLeft| == |supply| && |demandLeft| == |demand|
    && (forall i :: 0 <= i < |supply| ==> Sum(a[i]) + supplyLeft[i] <= supply[i])
    && (forall j :: 0 <= j < |demand| ==> Sum(Column(a, j)) + demandLeft[j] <= demand[j])
  }

  /** Overwriting a non-negative cell with v and taking v off both
      remainders keeps the bound. */
  lemma LedgerAtMostMove(supply: seq<real>, demand: seq<real>, a: seq<seq<real>>, supplyLeft: seq<real>, demandLeft: seq<real>, i: nat, j: nat, v: real)
    requires LedgerAtMost(supply, demand, a, supplyLeft, demandLeft)
    requires i < |supply| && j < |demand| && a[i][j] >= 0.0
    ensures LedgerAtMost(supply, demand, SetCell(a, i, j, v), supplyLeft[i := supplyLeft[i] - v], demandLeft[j := demandLeft[j] - v])
  {
    SetCellSums(a, |supply|, |demand|, i, j, v);
  }

  /** A row's remainder is either untouched or non-negative. */
  predicate RemaindersSettled(original: seq<real>, left: seq<real>)
  {
    |left| == |original| && forall i :: 0 <= i < |left| ==> left[i] >= 0.0 || left[i] == original[i]
  }

  /** Number of cells above a bound (`allocation.flat().filter(x => x > bound).length`). */
  function CellsAbove(a: seq<seq<real>>, bound: real): nat
  {
    if a == [] then 0 else CellsAbove(a[..|a| - 1], bound) + CountAbove(a[|a| - 1], bound)
  }

  /** `isDegenerate`: fewer than m + n - 1 cells above epsilon. */
  predicate IsDegenerate(a: seq<seq<real>>, m: nat, n: nat)
  {
    CellsAbove(a, Epsilon) < m + n - 1
  }

  /** Cell (i, j) may take an epsilon in the degeneracy fix. */
  predicate Candidate(a: seq<seq<real>>, supplyLeft: seq<real>, demandLeft: seq<real>, i: nat, j: nat)
    requires i < |a| && j < |a[i]| && i < |supplyLeft| && j < |demandLeft|
  {
    a[i][j] == 0.0 && supplyLeft[i] > Epsilon && demandLeft[j] > Epsilon
  }

  /** What the inner loop of the degeneracy fix does to row i: epsilon goes
      into the first candidate cell of the row, if any (then the loop
      breaks), and comes off that row's and that column's remainders. */
  predicate RowFilled(a: seq<seq<real>>, supplyLeft: seq<real>, demandLeft: seq<real>, i: nat,
                      a': seq<seq<real>>, supplyLeft': seq<real>, demandLeft': seq<real>, placed: int)
    requires IsMatrix(a, |supplyLeft|, |demandLeft|) && i < |supplyLeft|
  {
    && (placed == -1 ==>
          && (forall j :: 0 <= j < |demandLeft| ==> !Candidate(a, supplyLeft, demandLeft, i, j))
          && a' == a && supplyLeft' == supplyLeft && demandLeft' == demandLeft)
    && (placed != -1 ==>
          && 0 <= placed < |demandLeft| && Candidate(a, supplyLeft, demandLeft, i, placed)
          && (forall j :: 0 <= j < placed ==> !Candidate(a, supplyLeft, demandLeft, i, j))
          && a' == SetCell(a, i, placed, Epsilon)
          && supplyLeft' == supplyLeft[i := supplyLeft[i] - Epsilon]
          && demandLeft' == demandLeft[placed := demandLeft[placed] - Epsilon])
  }

  /** The first candidate cell of row i at column j or later, or -1. */
  function FirstCandidate(a: seq<seq<real>>, supplyLeft: seq<real>, demandLeft: seq<real>, i: nat, j: nat): (k: int)
    requires IsMatrix(a, |supplyLeft|, |demandLeft|) && i < |supplyLeft| && j <= |demandLeft|
    ensures k == -1 || (j <= k < |demandLeft| && Candidate(a, supplyLeft, demandLeft, i, k))
    ensures forall c :: j <= c < |demandLeft| && (k == -1 || c < k) ==> !Candidate(a, supplyLeft, demandLeft, i, c)
    decreases |demandLeft| - j
  {
    if j == |demandLeft| then -1
    else if Candidate(a, supplyLeft, demandLeft, i, j) then j
    else FirstCandidate(a, supplyLeft, demandLeft, i, j + 1)
  }

  /** The loop state of the Minimum-Cost method and its degeneracy fix. */
  datatype Stage = Stage(allocation: seq<seq<real>>, supplyLeft: seq<real>, demandLeft: seq<real>)

  /** What the inner loop of the degeneracy fix makes of row i. */
  function FixRowOf(a: seq<seq<real>>, supplyLeft: seq<real>, demandLeft: seq<real>, i: nat): (s: Stage)
    requires IsMatrix(a, |supplyLeft|, |demandLeft|) && i < |supplyLeft|
    ensures IsMatrix(s.allocation, |supplyLeft|, |demandLeft|) && |s.supplyLeft| == |supplyLeft| && |s.demandLeft| == |demandLeft|
    ensures RowFilled(a, supplyLeft, demandLeft, i, s.allocation, s.supplyLeft, s.demandLeft, FirstCandidate(a, supplyLeft, demandLeft, i, 0))
  {
    var k := FirstCandidate(a, supplyLeft, demandLeft, i, 0);
    if k == -1 then Stage(a, supplyLeft, demandLeft)
    else Stage(SetCell(a, i, k, Epsilon), supplyLeft[i := supplyLeft[i] - Epsilon], demandLeft[k := demandLeft[k] - Epsilon])
  }

  /** The inner loop of the degeneracy fix for row i. */
  method FixRow(a: seq<seq<real>>, supplyLeft: seq<real>, demandLeft: seq<real>, i: nat)
    returns (a': seq<seq<real>>, supplyLeft': seq<real>, demandLeft': seq<real>)
    requires IsMatrix(a, |supplyLeft|, |demandLeft|) && i < |supplyLeft|
    ensures Stage(a', supplyLeft', demandLeft') == FixRowOf(a, supplyLeft, demandLeft, i)
  {
    a', supplyLeft', demandLeft' := a, supplyLeft, demandLeft;
    for j := 0 to |demandLeft|
      invariant a' == a && supplyLeft' == supplyLeft && demandLeft' == demandLeft
      invariant FirstCandidate(a, supplyLeft, demandLeft, i, j) == FirstCandidate(a, supplyLeft, demandLeft, i, 0)
    {
      if a'[i][j] == 0.0 && supplyLeft'[i] > Epsilon && demandLeft'[j] > Epsilon {
        a' := SetCell(a', i, j, Epsilon);
        supplyLeft' := supplyLeft'[i := supplyLeft'[i] - Epsilon];
        demandLeft' := demandLeft'[j := demandLeft'[j] - Epsilon];
        return;
      }
    }
  }

  /** The outer loop of the degeneracy fix, from row i on. */
  function FixRowsFrom(a: seq<seq<real>>, supplyLeft: seq<real>, demandLeft: seq<real>, i: nat): (s: Stage)
    requires IsMatrix(a, |supplyLeft|, |demandLeft|) && i <= |supplyLeft|
    decreases |supplyLeft| - i
  {
    if i == |supplyLeft| then Stage(a, supplyLeft, demandLeft)
    else
      var s := FixRowOf(a, supplyLeft, demandLeft, i);
      FixRowsFrom(s.allocation, s.supplyLeft, s.demandLeft, i + 1)
  }

  /** The degeneracy fix after rows [0, i): rows from i on are untouched,
      remainders only went down, every changed cell was a candidate at the
      start and now holds epsilon, and no row has two changed cells. */
  ghost predicate RowsFixed(a: seq<seq<real>>, supplyLeft: seq<real>, demandLeft: seq<real>,
                            a': seq<seq<real>>, supplyLeft': seq<real>, demandLeft': seq<real>, i: nat)
    requires IsMatrix(a, |supplyLeft|, |demandLeft|)
  {
    var m, n := |supplyLeft|, |demandLeft|;
    && IsMatrix(a', m, n) && |supplyLeft'| == m && |demandLeft'| == n
    && (forall r :: i <= r < m ==> a'[r] == a[r] && supplyLeft'[r] == supplyLeft[r])
    && (forall r :: 0 <= r < m ==> supplyLeft'[r] <= supplyLeft[r])
    && (forall j :: 0 <= j < n ==> demandLeft'[j] <= demandLeft[j])
    && (forall r, j :: 0 <= r < m && 0 <= j < n ==>
          a'[r][j] == a[r][j] || (a'[r][j] == Epsilon && Candidate(a, supplyLeft, demandLeft, r, j)))
    && (forall r, j, k :: 0 <= r < m && 0 <= j < k < n ==> a'[r][j] == a[r][j] || a'[r][k] == a[r][k])
  }

  /** The Minimum-Cost bookkeeping: no negative cell, the ledger bound, and
      settled row remainders. */
  ghost predicate Bookkept(supply: seq<real>, demand: seq<real>, a: seq<seq<real>>, supplyLeft: seq<real>, demandLeft: seq<real>)
  {
    && NonNegative(a) && LedgerAtMost(supply, demand, a, supplyLeft, demandLeft)
    && RemaindersSettled(supply, supplyLeft) && RemaindersSettled(demand, demandLeft)
  }

  /** Allocating min(remainders) to an open cell keeps the bookkeeping and
      brings the row's or the column's remainder to 0. */
  lemma AllocateKeepsBookkept(supply: seq<real>, demand: seq<real>, a: seq<seq<real>>, supplyLeft: seq<real>, demandLeft: seq<real>, i: nat, j: nat, q: real)
    requires Bookkept(supply, demand, a, supplyLeft, demandLeft)
    requires i < |supply| && j < |demand| && Open(supplyLeft, demandLeft, i, j) && q == Min(supplyLeft[i], demandLeft[j])
    ensures Bookkept(supply, demand, SetCell(a, i, j, q), supplyLeft[i := supplyLeft[i] - q], demandLeft[j := demandLeft[j] - q])
    ensures supplyLeft[i] - q == 0.0 || demandLeft[j] - q == 0.0
  {
    LedgerAtMostMove(supply, demand, a, supplyLeft, demandLeft, i, j, q);
  }

  lemma FixRowKeepsRowsFixed(a: seq<seq<real>>, supplyLeft: seq<real>, demandLeft: seq<real>,
                             b: seq<seq<real>>, bSupply: seq<real>, bDemand: seq<real>,
                             c: seq<seq<real>>, cSupply: seq<real>, cDemand: seq<real>, i: nat, placed: int)
    requires IsMatrix(a, |supplyLeft|, |demandLeft|) && i < |supplyLeft|
    requires RowsFixed(a, supplyLeft, demandLeft, b, bSupply, bDemand, i)
    requires RowFilled(b, bSupply, bDemand, i, c, cSupply, cDemand, placed)
    ensures RowsFixed(a, supplyLeft, demandLeft, c, cSupply, cDemand, i + 1)
  {
  }

  lemma FixRowKeepsBookkept(supply: seq<real>, demand: seq<real>,
                            b: seq<seq<real>>, bSupply: seq<real>, bDemand: seq<real>,
                            c: seq<seq<real>>, cSupply: seq<real>, cDemand: seq<real>, i: nat, placed: int)
    requires IsMatrix(b, |supply|, |demand|) && i < |supply| && |bSupply| == |supply| && |bDemand| == |demand|
    requires Bookkept(supply, demand, b, bSupply, bDemand)
    requires RowFilled(b, bSupply, bDemand, i, c, cSupply, cDemand, placed)
    ensures Bookkept(supply, demand, c, cSupply, cDemand)
  {
    if placed != -1 {
      LedgerAtMostMove(supply, demand, b, bSupply, bDemand, i, placed, Epsilon);
    }
  }

  /** The rows after row i keep "fixed": the whole fix changes only
      candidate cells, at most one per row, to epsilon, and only lowers
      remainders. */
  lemma {:induction false} FixRowsFromFixes(a: seq<seq<real>>, supplyLeft: seq<real>, demandLeft: seq<real>,
                                            b: seq<seq<real>>, bSupply: seq<real>, bDemand: seq<real>, i: nat)
    requires IsMatrix(a, |supplyLeft|, |demandLeft|) && i <= |supplyLeft|
    requires RowsFixed(a, supplyLeft, demandLeft, b, bSupply, bDemand, i)
    ensures var s := FixRowsFrom(b, bSupply, bDemand, i);
      RowsFixed(a, supplyLeft, demandLeft, s.allocation, s.supplyLeft, s.demandLeft, |supplyLeft|)
    decreases |supplyLeft| - i
  {
    if i < |supplyLeft| {
      var s := FixRowOf(b, bSupply, bDemand, i);
      FixRowKeepsRowsFixed(a, supplyLeft, demandLeft, b, bSupply, bDemand, s.allocation, s.supplyLeft, s.demandLeft,
                           i, FirstCandidate(b, bSupply, bDemand, i, 0));
      FixRowsFromFixes(a, supplyLeft, demandLeft, s.allocation, s.supplyLeft, s.demandLeft, i + 1);
    }
  }

  /** The degeneracy fix keeps the Minimum-Cost bookkeeping. */
  lemma {:induction false} FixRowsFromKeepsBookkept(supply: seq<real>, demand: seq<real>,
                                                    b: seq<seq<real>>, bSupply: seq<real>, bDemand: seq<real>, i: nat)
    requires IsMatrix(b, |supply|, |demand|) && i <= |supply| && |bSupply| == |supply| && |bDemand| == |demand|
    requires Bookkept(supply, demand, b, bSupply, bDemand)
    ensures var s := FixRowsFrom(b, bSupply, bDemand, i);
      IsMatrix(s.allocation, |supply|, |demand|) && Bookkept(supply, demand, s.allocation, s.supplyLeft, s.demandLeft)
    decreases |supply| - i
  {
    if i < |supply| {
      var s := FixRowOf(b, bSupply, bDemand, i);
      FixRowKeepsBookkept(supply, demand, b, bSupply, bDemand, s.allocation, s.supplyLeft, s.demandLeft,
                          i, FirstCandidate(b, bSupply, bDemand, i, 0));
      FixRowsFromKeepsBookkept(supply, demand, s.allocation, s.supplyLeft, s.demandLeft, i + 1);
    }
  }

  /** The degeneracy fix (the `break` leaves only the inner loop): row by
      row, epsilon goes into the row's first candidate cell. */
  method FixDegeneracy(a: seq<seq<real>>, supplyLeft: seq<real>, demandLeft: seq<real>)
    returns (a': seq<seq<real>>, supplyLeft': seq<real>, demandLeft': seq<real>)
    requires IsMatrix(a, |supplyLeft|, |demandLeft|)
    ensures Stage(a', supplyLeft', demandLeft') == FixRowsFrom(a, supplyLeft, demandLeft, 0)
  {
    a', supplyLeft', demandLeft' := a, supplyLeft, demandLeft;
    for i := 0 to |supplyLeft|
      invariant IsMatrix(a', |supplyLeft|, |demandLeft|) && |supplyLeft'| == |supplyLeft| && |demandLeft'| == |demandLeft|
      invariant FixRowsFrom(a', supplyLeft', demandLeft', i) == FixRowsFrom(a, supplyLeft, demandLeft, 0)
    {
      a', supplyLeft', demandLeft' := FixRow(a', supplyLeft', demandLeft', i);
    }
  }

  /** `if (isDegenerate()) { ... }`: the fix runs only when fewer than
      m + n - 1 cells exceed epsilon. */
  function Degeneracy(a: seq<seq<real>>, supplyLeft: seq<real>, demandLeft: seq<real>): (s: Stage)
    requires IsMatrix(a, |supplyLeft|, |demandLeft|)
  {
    if IsDegenerate(a, |supplyLeft|, |demandLeft|) then FixRowsFrom(a, supplyLeft, demandLeft, 0)
    else Stage(a, supplyLeft, demandLeft)
  }

  /** When the fix runs, it changes only candidate cells, at most one per
      row, to epsilon, and only lowers remainders; otherwise nothing changes. */
  lemma DegeneracyFixes(a: seq<seq<real>>, supplyLeft: seq<real>, demandLeft: seq<real>)
    requires IsMatrix(a, |supplyLeft|, |demandLeft|)
    ensures var s := Degeneracy(a, supplyLeft, demandLeft);
      && (IsDegenerate(a, |supplyLeft|, |demandLeft|) ==> RowsFixed(a, supplyLeft, demandLeft, s.allocation, s.supplyLeft, s.demandLeft, |supplyLeft|))
      && (!IsDegenerate(a, |supplyLeft|, |demandLeft|) ==> s == Stage(a, supplyLeft, demandLeft))
  {
    if IsDegenerate(a, |supplyLeft|, |demandLeft|) {
      FixRowsFromFixes(a, supplyLeft, demandLeft, a, supplyLeft, demandLeft, 0);
    }
  }

  /** The degeneracy fix leaves the shapes and never raises a remainder. */
  lemma DegeneracyLowers(a: seq<seq<real>>, supplyLeft: seq<real>, demandLeft: seq<real>)
    requires IsMatrix(a, |supplyLeft|, |demandLeft|)
    ensures var s := Degeneracy(a, supplyLeft, demandLeft);
      && IsMatrix(s.allocation, |supplyLeft|, |demandLeft|) && |s.supplyLeft| == |supplyLeft| && |s.demandLeft| == |demandLeft|
      && CountAbove(s.supplyLeft, Epsilon) <= CountAbove(supplyLeft, Epsilon)
      && CountAbove(s.demandLeft, Epsilon) <= CountAbove(demandLeft, Epsilon)
  {
    DegeneracyFixes(a, supplyLeft, demandLeft);
    var s := Degeneracy(a, supplyLeft, demandLeft);
    CountAboveDecreases(supplyLeft, s.supplyLeft, Epsilon, -1);
    CountAboveDecreases(demandLeft, s.demandLeft, Epsilon, -1);
  }

  /** Either way the Minimum-Cost bookkeeping survives. */
  lemma DegeneracyKeeps(supply: seq<real>, demand: seq<real>, a: seq<seq<real>>, supplyLeft: seq<real>, demandLeft: seq<real>)
    requires IsMatrix(a, |supplyLeft|, |demandLeft|) && |supply| == |supplyLeft| && |demand| == |demandLeft|
    requires Bookkept(supply, demand, a, supplyLeft, demandLeft)
    ensures var s := Degeneracy(a, supplyLeft, demandLeft);
      IsMatrix(s.allocation, |supplyLeft|, |demandLeft|) && Bookkept(supply, demand, s.allocation, s.supplyLeft, s.demandLeft)
  {
    if IsDegenerate(a, |supplyLeft|, |demandLeft|) {
      FixRowsFromKeepsBookkept(supply, demand, a, supplyLeft, demandLeft, 0);
    }
  }

  /** Allocating min(remainders) at an open cell takes the row or the column
      to 0, so fewer remainders exceed epsilon. */
  lemma AllocateLowersCounts(supplyLeft: seq<real>, demandLeft: seq<real>, i: nat, j: nat, q: real)
    requires i < |supplyLeft| && j < |demandLeft| && Open(supplyLeft, demandLeft, i, j)
    requires q == Min(supplyLeft[i], demandLeft[j])
    ensures CountAbove(supplyLeft[i := supplyLeft[i] - q], Epsilon) + CountAbove(demandLeft[j := demandLeft[j] - q], Epsilon)
      < CountAbove(supplyLeft, Epsilon) + CountAbove(demandLeft, Epsilon)
  {
    CountAboveLowerOne(supplyLeft, i, supplyLeft[i] - q, Epsilon);
    CountAboveLowerOne(demandLeft, j, demandLeft[j] - q, Epsilon);
  }

  /** Some supply and some demand above epsilon make an open cell. */
  lemma SomeOpen(supplyLeft: seq<real>, demandLeft: seq<real>)
    requires SomeAbove(supplyLeft, Epsilon) && SomeAbove(demandLeft, Epsilon)
    ensures exists a, b :: 0 <= a < |supplyLeft| && 0 <= b < |demandLeft| && Open(supplyLeft, demandLeft, a, b)
  {
    var a :| 0 <= a < |supplyLeft| && supplyLeft[a] > Epsilon;
    var b :| 0 <= b < |demandLeft| && demandLeft[b] > Epsilon;
    assert Open(supplyLeft, demandLeft, a, b);
  }

  /** While some supply and some demand exceed epsilon, the cheapest open
      cell is an open cell. */
  lemma CheapestIsOpen(costs: seq<seq<real>>, supplyLeft: seq<real>, demandLeft: seq<real>)
    requires IsMatrix(costs, |supplyLeft|, |demandLeft|)
    requires SomeAbove(supplyLeft, Epsilon) && SomeAbove(demandLeft, Epsilon)
    ensures var c := CheapestOpen(costs, supplyLeft, demandLeft);
      c.0 < |supplyLeft| && c.1 < |demandLeft| && Open(supplyLeft, demandLeft, c.0, c.1)
  {
    SomeOpen(supplyLeft, demandLeft);
  }

  /** One turn of the `minimumCost` loop: the cheapest open cell is set to
      the smaller of its two remainders (written over whatever it held), both
      remainders lose that much, and the degeneracy fix follows. */
  function MinCostTurn(costs: seq<seq<real>>, a: seq<seq<real>>, supplyLeft: seq<real>, demandLeft: seq<real>): (s: Stage)
    requires IsMatrix(costs, |supplyLeft|, |demandLeft|) && IsMatrix(a, |supplyLeft|, |demandLeft|)
    requires SomeAbove(supplyLeft, Epsilon) && SomeAbove(demandLeft, Epsilon)
  {
    CheapestIsOpen(costs, supplyLeft, demandLeft);
    var c := CheapestOpen(costs, supplyLeft, demandLeft);
    var q := Min(supplyLeft[c.0], demandLeft[c.1]);
    Degeneracy(SetCell(a, c.0, c.1, q), supplyLeft[c.0 := supplyLeft[c.0] - q], demandLeft[c.1 := demandLeft[c.1] - q])
  }

  /** A turn is the allocation at the cheapest open cell followed by the
      degeneracy fix. */
  lemma MinCostTurnUnfold(costs: seq<seq<real>>, a: seq<seq<real>>, supplyLeft: seq<real>, demandLeft: seq<real>)
      returns (i: nat, j: nat, q: real)
    requires IsMatrix(costs, |supplyLeft|, |demandLeft|) && IsMatrix(a, |supplyLeft|, |demandLeft|)
    requires SomeAbove(supplyLeft, Epsilon) && SomeAbove(demandLeft, Epsilon)
    ensures i < |supplyLeft| && j < |demandLeft| && Open(supplyLeft, demandLeft, i, j) && q == Min(supplyLeft[i], demandLeft[j])
    ensures MinCostTurn(costs, a, supplyLeft, demandLeft)
      == Degeneracy(SetCell(a, i, j, q), supplyLeft[i := supplyLeft[i] - q], demandLeft[j := demandLeft[j] - q])
  {
    CheapestIsOpen(costs, supplyLeft, demandLeft);
    var c := CheapestOpen(costs, supplyLeft, demandLeft);
    i, j := c.0, c.1;
    q := Min(supplyLeft[i], demandLeft[j]);
  }

  /** A turn keeps the shapes and strictly lowers the number of
      remainders above epsilon. */
  lemma MinCostTurnLowers(costs: seq<seq<real>>, a: seq<seq<real>>, supplyLeft: seq<real>, demandLeft: seq<real>)
    requires IsMatrix(costs, |supplyLeft|, |demandLeft|) && IsMatrix(a, |supplyLeft|, |demandLeft|)
    requires SomeAbove(supplyLeft, Epsilon) && SomeAbove(demandLeft, Epsilon)
    ensures var s := MinCostTurn(costs, a, supplyLeft, demandLeft);
      && IsMatrix(s.allocation, |supplyLeft|, |demandLeft|) && |s.supplyLeft| == |supplyLeft| && |s.demandLeft| == |demandLeft|
      && CountAbove(s.supplyLeft, Epsilon) + CountAbove(s.demandLeft, Epsilon) < CountAbove(supplyLeft, Epsilon) + CountAbove(demandLeft, Epsilon)
  {
    var i, j, q := MinCostTurnUnfold(costs, a, supplyLeft, demandLeft);
    var b, supplyLeft', demandLeft' := SetCell(a, i, j, q), supplyLeft[i := supplyLeft[i] - q], demandLeft[j := demandLeft[j] - q];
    SetCellSums(a, |supplyLeft|, |demandLeft|, i, j, q);
    AllocateLowersCounts(supplyLeft, demandLeft, i, j, q);
    DegeneracyLowers(b, supplyLeft', demandLeft');
  }

  /** A turn keeps the Minimum-Cost bookkeeping. */
  lemma MinCostTurnKeeps(supply: seq<real>, demand: seq<real>, costs: seq<seq<real>>, a: seq<seq<real>>, supplyLeft: seq<real>, demandLeft: seq<real>)
    requires IsMatrix(costs, |supply|, |demand|) && IsMatrix(a, |supply|, |demand|)
    requires SomeAbove(supplyLeft, Epsilon) && SomeAbove(demandLeft, Epsilon)
    requires Bookkept(supply, demand, a, supplyLeft, demandLeft)
    ensures var s := MinCostTurn(costs, a, supplyLeft, demandLeft);
      Bookkept(supply, demand, s.allocation, s.supplyLeft, s.demandLeft)
  {
    var i, j, q := MinCostTurnUnfold(costs, a, supplyLeft, demandLeft);
    var b, supplyLeft', demandLeft' := SetCell(a, i, j, q), supplyLeft[i := supplyLeft[i] - q], demandLeft[j := demandLeft[j] - q];
    SetCellSums(a, |supply|, |demand|, i, j, q);
    AllocateKeepsBookkept(supply, demand, a, supplyLeft, demandLeft, i, j, q);
    DegeneracyKeeps(supply, demand, b, supplyLeft', demandLeft');
  }

  /** The `minimumCost` loop from a given state: turns until every row or
      every column is used up to epsilon. */
  function MinCostRun(costs: seq<seq<real>>, a: seq<seq<real>>, supplyLeft: seq<real>, demandLeft: seq<real>): (s: Stage)
    requires IsMatrix(costs, |supplyLeft|, |demandLeft|) && IsMatrix(a, |supplyLeft|, |demandLeft|)
    ensures !SomeAbove(s.supplyLeft, Epsilon) || !SomeAbove(s.demandLeft, Epsilon)
    decreases CountAbove(supplyLeft, Epsilon) + CountAbove(demandLeft, Epsilon)
  {
    if SomeAbove(supplyLeft, Epsilon) && SomeAbove(demandLeft, Epsilon) then
      MinCostTurnLowers(costs, a, supplyLeft, demandLeft);
      var s := MinCostTurn(costs, a, supplyLeft, demandLeft);
      MinCostRun(costs, s.allocation, s.supplyLeft, s.demandLeft)
    else
      Stage(a, supplyLeft, demandLeft)
  }

  /** The allocation `minimumCost` returns. */
  function MinCostAllocation(supply: seq<real>, demand: seq<real>, costs: seq<seq<real>>): (a: seq<seq<real>>)
    requires IsMatrix(costs, |supply|, |demand|)
  {
    MinCostRun(costs, Zeros(|supply|, |demand|), supply, demand).allocation
  }

  /** One iteration of the `minimumCost` loop. */
  method MinimumCostStep(costs: seq<seq<real>>, allocation: seq<seq<real>>, supplyLeft: seq<real>, demandLeft: seq<real>)
    returns (allocation': seq<seq<real>>, supplyLeft': seq<real>, demandLeft': seq<real>)
    requires IsMatrix(costs, |supplyLeft|, |demandLeft|) && IsMatrix(allocation, |supplyLeft|, |demandLeft|)
    requires SomeAbove(supplyLeft, Epsilon) && SomeAbove(demandLeft, Epsilon)
    ensures Stage(allocation', supplyLeft', demandLeft') == MinCostTurn(costs, allocation, supplyLeft, demandLeft)
  {
    CheapestIsOpen(costs, supplyLeft, demandLeft);
    var minI, minJ := CheapestCell(costs, supplyLeft, demandLeft);
    var quantity := Min(supplyLeft[minI], demandLeft[minJ]);
    allocation' := SetCell(allocation, minI, minJ, quantity);
    supplyLeft' := supplyLeft[minI := supplyLeft[minI] - quantity];
    demandLeft' := demandLeft[minJ := demandLeft[minJ] - quantity];
    SetCellSums(allocation, |supplyLeft|, |demandLeft|, minI, minJ, quantity);
    allocation', supplyLeft', demandLeft' := HandleDegeneracy(allocation', supplyLeft', demandLeft');
  }

  /** `if (isDegenerate()) { ... }` on the loop's arrays. */
  method HandleDegeneracy(a: seq<seq<real>>, supplyLeft: seq<real>, demandLeft: seq<real>)
    returns (a': seq<seq<real>>, supplyLeft': seq<real>, demandLeft': seq<real>)
    requires IsMatrix(a, |supplyLeft|, |demandLeft|)
    ensures Stage(a', supplyLeft', demandLeft') == Degeneracy(a, supplyLeft, demandLeft)
  {
    a', supplyLeft', demandLeft' := a, supplyLeft, demandLeft;
    if IsDegenerate(a, |supplyLeft|, |demandLeft|) {
      a', supplyLeft', demandLeft' := FixDegeneracy(a, supplyLeft, demandLeft);
    }
  }

  /** `minimumCost`: the loop computes the Minimum-Cost run. Afterwards
      every row or every column is used up to epsilon, no cell is negative,
      no row ships more than its supply and no column receives more than its
      demand (counting what is left), and a remainder is negative only if it
      was never touched. */
  method MinimumCost(supply: seq<real>, demand: seq<real>, costs: seq<seq<real>>)
    returns (allocation: seq<seq<real>>, supplyLeft: seq<real>, demandLeft: seq<real>)
    requires IsMatrix(costs, |supply|, |demand|)
    ensures Stage(allocation, supplyLeft, demandLeft) == MinCostRun(costs, Zeros(|supply|, |demand|), supply, demand)
    ensures IsMatrix(allocation, |supply|, |demand|) && NonNegative(allocation)
    ensures LedgerAtMost(supply, demand, allocation, supplyLeft, demandLeft)
    ensures RemaindersSettled(supply, supplyLeft) && RemaindersSettled(demand, demandLeft)
    ensures !SomeAbove(supplyLeft, Epsilon) || !SomeAbove(demandLeft, Epsilon)
  {
    allocation := Zeros(|supply|, |demand|);
    supplyLeft, demandLeft := supply, demand;
    ZerosLedger(supply, demand);
    while SomeAbove(supplyLeft, Epsilon) && SomeAbove(demandLeft, Epsilon)
      invariant IsMatrix(allocation, |supply|, |demand|) && |supplyLeft| == |supply| && |demandLeft| == |demand|
      invariant Bookkept(supply, demand, allocation, supplyLeft, demandLeft)
      invariant MinCostRun(costs, allocation, supplyLeft, demandLeft) == MinCostRun(costs, Zeros(|supply|, |demand|), supply, demand)
      decreases CountAbove(supplyLeft, Epsilon) + CountAbove(demandLeft, Epsilon)
    {
      MinCostTurnLowers(costs, allocation, supplyLeft, demandLeft);
      MinCostTurnKeeps(supply, demand, costs, allocation, supplyLeft, demandLeft);
      allocation, supplyLeft, demandLeft := MinimumCostStep(costs, allocation, supplyLeft, demandLeft);
    }
  }

  // ---------------------------------------------------------------------------
  // Vogel's Approximation (Transportation.tsx:172-245)

  /** `xs.filter((_, k) => mask[k])`: entries past the end of the mask are
      dropped, as `undefined` is falsy. */
  function Filter(xs: seq<real>, mask: seq<bool>): (r: seq<real>)
    ensures |r| <= |xs|
  {
    if xs == [] then []
    else Filter(xs[..|xs| - 1], mask) + (if |xs| - 1 < |mask| && mask[|xs| - 1] then [xs[|xs| - 1]] else [])
  }

  /** A value survives the filter iff it sits at a position the mask keeps. */
  lemma FilterMembers(xs: seq<real>, mask: seq<bool>, x: real)
    ensures x in Filter(xs, mask) <==> exists k :: 0 <= k < |xs| && k < |mask| && mask[k] && xs[k] == x
  {
    if x in Filter(xs, mask) {
      var k := FilterWitness(xs, mask, x);
    }
    if exists k :: 0 <= k < |xs| && k < |mask| && mask[k] && xs[k] == x {
      var k :| 0 <= k < |xs| && k < |mask| && mask[k] && xs[k] == x;
      FilterKeeps(xs, mask, k);
    }
  }

  /** A value that survives the filter sits at a position the mask keeps. */
  lemma {:induction false} FilterWitness(xs: seq<real>, mask: seq<bool>, x: real) returns (k: nat)
    requires x in Filter(xs, mask)
    ensures k < |xs| && k < |mask| && mask[k] && xs[k] == x
  {
    var l := |xs| - 1;
    var last := if l < |mask| && mask[l] then [xs[l]] else [];
    assert Filter(xs, mask) == Filter(xs[..l], mask) + last;
    if x in Filter(xs[..l], mask) {
      k := FilterWitness(xs[..l], mask, x);
      assert xs[..l][k] == xs[k];
    } else {
      k := l;
    }
  }

  /** The value at a position the mask keeps survives the filter. */
  lemma {:induction false} FilterKeeps(xs: seq<real>, mask: seq<bool>, k: nat)
    requires k < |xs| && k < |mask| && mask[k]
    ensures xs[k] in Filter(xs, mask)
  {
    var l := |xs| - 1;
    var last := if l < |mask| && mask[l] then [xs[l]] else [];
    assert Filter(xs, mask) == Filter(xs[..l], mask) + last;
    if k < l {
      FilterKeeps(xs[..l], mask, k);
      assert xs[..l][k] == xs[k];
    } else {
      assert xs[k] in last;
    }
  }

  /** The smallest entry. */
  function Smallest(s: seq<real>): (r: real)
    requires |s| > 0
    ensures r in s && forall k :: 0 <= k < |s| ==> r <= s[k]
  {
    if |s| == 1 then s[0] else Min(s[0], Smallest(s[1..]))
  }

  /** s without the first occurrence of x. */
  function RemoveOne(s: seq<real>, x: real): (r: seq<real>)
    requires x in s
    ensures multiset(r) == multiset(s) - multiset{x} && |r| == |s| - 1
  {
    assert s == [s[0]] + s[1..];
    if s[0] == x then s[1..] else [s[0]] + RemoveOne(s[1..], x)
  }

  /** `calculatePenalty`: the two smallest entries kept by the mask, as the
      first two of the sorted list; 0 when fewer than two are kept. */
  function Penalty(costs: seq<real>, active: seq<bool>): (r: real)
    ensures r >= 0.0
  {
    var valid := Filter(costs, active);
    if |valid| <= 1 then 0.0 else Gap(valid)
  }

  /** The second smallest entry (counting repeats) minus the smallest. */
  function Gap(valid: seq<real>): (r: real)
    requires |valid| >= 2
    ensures r >= 0.0
  {
    var smallest := Smallest(valid);
    var rest := RemoveOne(valid, smallest);
    var second := Smallest(rest);
    assert second in multiset(rest);
    assert second in valid;
    second - smallest
  }

  predicate SortedAscending(t: seq<real>)
  {
    forall p, q :: 0 <= p < q < |t| ==> t[p] <= t[q]
  }

  /** The smallest entry of any arrangement of s is the first entry of any
      ascending arrangement. */
  lemma SmallestIsFirstSorted(s: seq<real>, t: seq<real>)
    requires |s| > 0 && multiset(t) == multiset(s) && SortedAscending(t)
    ensures |t| > 0 && Smallest(s) == t[0]
  {
    assert s[0] in multiset(t);
    assert t[0] in multiset(s);
    var a := Smallest(s);
    assert a in multiset(t);
  }

  /** The penalty is sorted[1] - sorted[0] for every ascending arrangement
      `sorted` of the kept costs. */
  lemma GapIsSortedGap(valid: seq<real>, sorted: seq<real>)
    requires multiset(sorted) == multiset(valid) && SortedAscending(sorted) && |valid| >= 2
    ensures |sorted| >= 2 && Gap(valid) == sorted[1] - sorted[0]
  {
    assert |multiset(sorted)| == |sorted|;
    SmallestIsFirstSorted(valid, sorted);
    TailIsRest(valid, sorted);
    var rest := RemoveOne(valid, sorted[0]);
    SmallestIsFirstSorted(rest, sorted[1..]);
  }

  /** Past its first entry, an arrangement of `valid` is an arrangement of
      `valid` without that entry, still ascending. */
  lemma TailIsRest(valid: seq<real>, sorted: seq<real>)
    requires multiset(sorted) == multiset(valid) && SortedAscending(sorted) && |sorted| > 0
    ensures sorted[0] in valid
    ensures multiset(sorted[1..]) == multiset(RemoveOne(valid, sorted[0])) && SortedAscending(sorted[1..])
  {
    assert sorted[0] in multiset(valid);
    assert sorted == [sorted[0]] + sorted[1..];
    assert multiset(sorted) == multiset{sorted[0]} + multiset(sorted[1..]);
  }

  /** The penalty is sorted[1] - sorted[0] for every ascending arrangement
      `sorted` of the kept costs, and 0 when fewer than two are kept. */
  lemma PenaltyIsSortedGap(costs: seq<real>, active: seq<bool>, sorted: seq<real>)
    requires multiset(sorted) == multiset(Filter(costs, active)) && SortedAscending(sorted)
    ensures |sorted| <= 1 ==> Penalty(costs, active) == 0.0
    ensures |sorted| >= 2 ==> Penalty(costs, active) == sorted[1] - sorted[0]
  {
    var valid := Filter(costs, active);
    assert |multiset(sorted)| == |sorted| && |multiset(valid)| == |valid|;
    if |valid| >= 2 {
      GapIsSortedGap(valid, sorted);
    }
  }

  /** The row penalty filters twice: the row is first cut down to the active
      columns, then masked again with the full-width activeCols array, so
      positions shift. For costs [1, 5, 2] with column 0 inactive, the single
      filter keeps [5, 2] (penalty 3) while the double filter keeps only [2]
      (penalty 0). */
  lemma PenaltyFiltersTwice()
    ensures Filter([1.0, 5.0, 2.0], [false, true, true]) == [5.0, 2.0]
    ensures Penalty([1.0, 5.0, 2.0], [false, true, true]) == 3.0
    ensures Penalty([5.0, 2.0], [false, true, true]) == 0.0
  {
    FilterDropsFirst();
    GapOfPair();
    FilterShifted();
  }

  lemma FilterDropsFirst()
    ensures Filter([1.0, 5.0, 2.0], [false, true, true]) == [5.0, 2.0]
  {
    var active := [false, true, true];
    assert Filter([1.0], active) == [] by {
      assert [1.0][..0] == [];
    }
    assert Filter([1.0, 5.0], active) == [5.0] by {
      assert [1.0, 5.0][..1] == [1.0];
    }
    assert [1.0, 5.0, 2.0][..2] == [1.0, 5.0];
  }

  lemma GapOfPair()
    ensures Gap([5.0, 2.0]) == 3.0
  {
    assert Smallest([5.0, 2.0]) == 2.0 by {
      assert [5.0, 2.0][1..] == [2.0];
    }
    assert RemoveOne([5.0, 2.0], 2.0) == [5.0] by {
      assert [5.0, 2.0][1..] == [2.0];
    }
  }

  lemma FilterShifted()
    ensures Filter([5.0, 2.0], [false, true, true]) == [2.0]
  {
    var active := [false, true, true];
    assert Filter([5.0], active) == [] by {
      assert [5.0][..0] == [];
    }
    assert [5.0, 2.0][..1] == [5.0];
  }

  /** `Math.max(...s)` followed by `indexOf`: the first index holding the
      largest entry. */
  function FirstMax(s: seq<real>): (k: nat)
    requires |s| > 0
    ensures k < |s| && (forall i :: 0 <= i < |s| ==> s[i] <= s[k]) && (forall i :: 0 <= i < k ==> s[i] < s[k])
  {
    if |s| == 1 then 0
    else
      var k := FirstMax(s[..|s| - 1]);
      if s[|s| - 1] > s[k] then |s| - 1 else k
  }

  /** The `reduce` over the eligible entries with `curr.cost < min.cost`,
      started from `{cost: Infinity, j: -1}`: -1 when no entry is eligible,
      else the first eligible index holding the smallest eligible value. */
  function FirstMinWhere(values: seq<real>, ok: seq<bool>): (k: int)
    requires |ok| == |values|
    ensures k == -1 <==> forall i :: 0 <= i < |ok| ==> !ok[i]
    ensures k != -1 ==>
      && 0 <= k < |values| && ok[k]
      && (forall i :: 0 <= i < |values| && ok[i] ==> values[k] <= values[i])
      && (forall i :: 0 <= i < k && ok[i] ==> values[k] < values[i])
  {
    if values == [] then -1
    else
      var l := |values| - 1;
      var k := FirstMinWhere(values[..l], ok[..l]);
      if ok[l] && (k == -1 || values[l] < values[k]) then l else k
  }

  /** The penalty of every row: rows that are inactive or used up get -1. */
  function RowPenalties(costs: seq<seq<real>>, supplyLeft: seq<real>, activeRows: seq<bool>, activeCols: seq<bool>): (p: seq<real>)
    requires |activeRows| == |supplyLeft| == |costs|
    ensures |p| == |costs|
    ensures forall i :: 0 <= i < |p| ==>
      (p[i] >= 0.0 <==> activeRows[i] && supplyLeft[i] > Epsilon) && (p[i] < 0.0 ==> p[i] == -1.0)
  {
    seq(|costs|, i requires 0 <= i < |costs| =>
      if activeRows[i] && supplyLeft[i] > Epsilon then Penalty(Filter(costs[i], activeCols), activeCols) else -1.0)
  }

  /** The penalty of every column: columns that are inactive or used up get -1. */
  function ColumnPenalties(costs: seq<seq<real>>, demandLeft: seq<real>, activeRows: seq<bool>, activeCols: seq<bool>): (p: seq<real>)
    requires IsMatrix(costs, |activeRows|, |demandLeft|) && |activeCols| == |demandLeft|
    ensures |p| == |demandLeft|
    ensures forall j :: 0 <= j < |p| ==>
      (p[j] >= 0.0 <==> activeCols[j] && demandLeft[j] > Epsilon) && (p[j] < 0.0 ==> p[j] == -1.0)
  {
    seq(|demandLeft|, j requires 0 <= j < |demandLeft| =>
      if activeCols[j] && demandLeft[j] > Epsilon then Penalty(Filter(Column(costs, j), activeRows), activeRows) else -1.0)
  }

  /** The columns row selection may pick: active with demand left. */
  function OpenColumns(demandLeft: seq<real>, activeCols: seq<bool>): (ok: seq<bool>)
    requires |activeCols| == |demandLeft|
    ensures |ok| == |demandLeft|
  {
    seq(|demandLeft|, j requires 0 <= j < |demandLeft| => activeCols[j] && demandLeft[j] > Epsilon)
  }

  /** The rows column selection may pick: active with supply left. */
  function OpenRows(supplyLeft: seq<real>, activeRows: seq<bool>): (ok: seq<bool>)
    requires |activeRows| == |supplyLeft|
    ensures |ok| == |supplyLeft|
  {
    seq(|supplyLeft|, i requires 0 <= i < |supplyLeft| => activeRows[i] && supplyLeft[i] > Epsilon)
  }

  datatype Choice = Choice(row: int, col: int)

  /** One selection of Vogel's method: the row with the largest penalty when
      that is at least the largest column penalty and above -1, its cheapest
      open column; otherwise the column with the largest penalty when that is
      above -1, its cheapest open row; otherwise none. */
  function VogelSelect(costs: seq<seq<real>>, supplyLeft: seq<real>, demandLeft: seq<real>, activeRows: seq<bool>, activeCols: seq<bool>): Choice
    requires IsMatrix(costs, |supplyLeft|, |demandLeft|) && |supplyLeft| > 0 && |demandLeft| > 0
    requires |activeRows| == |supplyLeft| && |activeCols| == |demandLeft|
  {
    var rowPenalties := RowPenalties(costs, supplyLeft, activeRows, activeCols);
    var colPenalties := ColumnPenalties(costs, demandLeft, activeRows, activeCols);
    var maxRow := rowPenalties[FirstMax(rowPenalties)];
    var maxCol := colPenalties[FirstMax(colPenalties)];
    if maxRow >= maxCol && maxRow > -1.0 then
      var i := FirstMax(rowPenalties);
      Choice(i, FirstMinWhere(costs[i], OpenColumns(demandLeft, activeCols)))
    else if maxCol > -1.0 then
      var j := FirstMax(colPenalties);
      Choice(FirstMinWhere(Column(costs, j), OpenRows(supplyLeft, activeRows)), j)
    else
      Choice(-1, -1)
  }

  /** The row branch of the selection: the first row of largest penalty,
      open and with a penalty at least every column's, and its cheapest open
      column (the first on ties). */
  predicate RowRule(c: Choice, costs: seq<seq<real>>, demandLeft: seq<real>, activeCols: seq<bool>, rowPenalties: seq<real>, colPenalties: seq<real>)
    requires IsMatrix(costs, |rowPenalties|, |demandLeft|) && |rowPenalties| > 0
    requires |activeCols| == |demandLeft| == |colPenalties|
  {
    && c.row == FirstMax(rowPenalties) && rowPenalties[c.row] >= 0.0
    && (forall j :: 0 <= j < |colPenalties| ==> colPenalties[j] <= rowPenalties[c.row])
    && c.col == FirstMinWhere(costs[c.row], OpenColumns(demandLeft, activeCols))
  }

  /** The column branch: the first column of largest penalty, open and with
      a penalty above every row's, and its cheapest open row. */
  predicate ColumnRule(c: Choice, costs: seq<seq<real>>, supplyLeft: seq<real>, activeRows: seq<bool>, rowPenalties: seq<real>, colPenalties: seq<real>)
    requires IsMatrix(costs, |supplyLeft|, |colPenalties|) && |colPenalties| > 0
    requires |activeRows| == |supplyLeft| == |rowPenalties|
  {
    && c.col == FirstMax(colPenalties) && colPenalties[c.col] >= 0.0
    && (forall i :: 0 <= i < |rowPenalties| ==> rowPenalties[i] < colPenalties[c.col])
    && c.row == FirstMinWhere(Column(costs, c.col), OpenRows(supplyLeft, activeRows))
  }

  /** The selection rule: the row branch, else the column branch, else no
      cell, and then every row and column is closed. */
  lemma VogelSelectRule(costs: seq<seq<real>>, supplyLeft: seq<real>, demandLeft: seq<real>, activeRows: seq<bool>, activeCols: seq<bool>,
                        rowPenalties: seq<real>, colPenalties: seq<real>)
    requires IsMatrix(costs, |supplyLeft|, |demandLeft|) && |supplyLeft| > 0 && |demandLeft| > 0
    requires |activeRows| == |supplyLeft| && |activeCols| == |demandLeft|
    requires rowPenalties == RowPenalties(costs, supplyLeft, activeRows, activeCols)
    requires colPenalties == ColumnPenalties(costs, demandLeft, activeRows, activeCols)
    ensures var c := VogelSelect(costs, supplyLeft, demandLeft, activeRows, activeCols);
      || RowRule(c, costs, demandLeft, activeCols, rowPenalties, colPenalties)
      || ColumnRule(c, costs, supplyLeft, activeRows, rowPenalties, colPenalties)
      || (&& c == Choice(-1, -1)
          && (forall i :: 0 <= i < |supplyLeft| ==> !(activeRows[i] && supplyLeft[i] > Epsilon))
          && (forall j :: 0 <= j < |demandLeft| ==> !(activeCols[j] && demandLeft[j] > Epsilon)))
  {
    var r := FirstMax(rowPenalties);
    var k := FirstMax(colPenalties);
    if !(rowPenalties[r] >= colPenalties[k] && rowPenalties[r] > -1.0) && !(colPenalties[k] > -1.0) {
      assert forall i :: 0 <= i < |supplyLeft| ==> rowPenalties[i] < 0.0;
      assert forall j :: 0 <= j < |demandLeft| ==> colPenalties[j] < 0.0;
    }
  }

  /** c is a cell of an active row and an active column, both with more than
      epsilon left. */
  predicate ActiveOpenCell(c: Choice, supplyLeft: seq<real>, demandLeft: seq<real>, activeRows: seq<bool>, activeCols: seq<bool>)
    requires |activeRows| == |supplyLeft| && |activeCols| == |demandLeft|
  {
    && 0 <= c.row < |supplyLeft| && 0 <= c.col < |demandLeft|
    && Open(supplyLeft, demandLeft, c.row, c.col) && activeRows[c.row] && activeCols[c.col]
  }

  /** While some active row and some active column have more than epsilon
      left, the selection is an open cell of an active row and an active
      column, so the loop's two `break`s never fire. */
  lemma VogelSelectOpen(costs: seq<seq<real>>, supplyLeft: seq<real>, demandLeft: seq<real>, activeRows: seq<bool>, activeCols: seq<bool>, openRow: nat, openCol: nat)
    requires IsMatrix(costs, |supplyLeft|, |demandLeft|)
    requires |activeRows| == |supplyLeft| && |activeCols| == |demandLeft|
    requires openRow < |supplyLeft| && activeRows[openRow] && supplyLeft[openRow] > Epsilon
    requires openCol < |demandLeft| && activeCols[openCol] && demandLeft[openCol] > Epsilon
    ensures ActiveOpenCell(VogelSelect(costs, supplyLeft, demandLeft, activeRows, activeCols), supplyLeft, demandLeft, activeRows, activeCols)
  {
    var c := VogelSelect(costs, supplyLeft, demandLeft, activeRows, activeCols);
    var rowPenalties := RowPenalties(costs, supplyLeft, activeRows, activeCols);
    var colPenalties := ColumnPenalties(costs, demandLeft, activeRows, activeCols);
    var openColumns := OpenColumns(demandLeft, activeCols);
    var openRows := OpenRows(supplyLeft, activeRows);
    VogelSelectRule(costs, supplyLeft, demandLeft, activeRows, activeCols, rowPenalties, colPenalties);
    assert openColumns[openCol] && openRows[openRow];
    if RowRule(c, costs, demandLeft, activeCols, rowPenalties, colPenalties) {
      FirstMinWhereFinds(costs[c.row], openColumns, openCol);
      assert openColumns[c.col];
    } else {
      assert ColumnRule(c, costs, supplyLeft, activeRows, rowPenalties, colPenalties);
      FirstMinWhereFinds(Column(costs, c.col), openRows, openRow);
      assert openRows[c.row];
    }
  }

  lemma FirstMinWhereFinds(values: seq<real>, ok: seq<bool>, w: int)
    requires |ok| == |values| && 0 <= w < |ok| && ok[w]
    ensures 0 <= FirstMinWhere(values, ok) < |values| && ok[FirstMinWhere(values, ok)]
  {
  }

  /** `active[k] = false` when k's remainder has dropped to epsilon. */
  function Deactivate(active: seq<bool>, left: seq<real>, k: nat): (r: seq<bool>)
    requires k < |active| == |left|
    ensures |r| == |active|
  {
    if left[k] <= Epsilon then active[k := false] else active
  }

  /** The Vogel ledger: what each row ships plus what it has left is exactly
      its supply (likewise for columns), no cell is negative, and every
      remainder is non-negative or untouched. */
  ghost predicate VogelLedger(supply: seq<real>, demand: seq<real>, a: seq<seq<real>>, supplyLeft: seq<real>, demandLeft: seq<real>)
  {
    && Ledger(supply, demand, a, supplyLeft, demandLeft) && NonNegative(a)
    && RemaindersSettled(supply, supplyLeft) && RemaindersSettled(demand, demandLeft)
  }

  /** Only used-up rows and columns are inactive. */
  predicate FlagsSound(supplyLeft: seq<real>, demandLeft: seq<real>, activeRows: seq<bool>, activeCols: seq<bool>)
  {
    && |activeRows| == |supplyLeft| && |activeCols| == |demandLeft|
    && (forall i :: 0 <= i < |supplyLeft| && !activeRows[i] ==> supplyLeft[i] <= Epsilon)
    && (forall j :: 0 <= j < |demandLeft| && !activeCols[j] ==> demandLeft[j] <= Epsilon)
  }

  /** The Vogel activity flags: only used-up rows and columns are inactive,
      and every filled cell lies in a used-up row or column. */
  ghost predicate VogelActivity(a: seq<seq<real>>, supplyLeft: seq<real>, demandLeft: seq<real>, activeRows: seq<bool>, activeCols: seq<bool>)
  {
    && IsMatrix(a, |supplyLeft|, |demandLeft|) && FlagsSound(supplyLeft, demandLeft, activeRows, activeCols)
    && (forall i, j :: 0 <= i < |supplyLeft| && 0 <= j < |demandLeft| && a[i][j] != 0.0 ==> supplyLeft[i] <= Epsilon || demandLeft[j] <= Epsilon)
  }

  ghost predicate VogelKept(supply: seq<real>, demand: seq<real>, a: seq<seq<real>>, supplyLeft: seq<real>, demandLeft: seq<real>,
                            activeRows: seq<bool>, activeCols: seq<bool>)
  {
    VogelLedger(supply, demand, a, supplyLeft, demandLeft) && VogelActivity(a, supplyLeft, demandLeft, activeRows, activeCols)
  }

  /** Allocating min(remainders) to an empty open cell keeps the ledger exact
      and brings the row or the column remainder to exactly 0. */
  lemma VogelLedgerMove(supply: seq<real>, demand: seq<real>, a: seq<seq<real>>, supplyLeft: seq<real>, demandLeft: seq<real>, i: nat, j: nat, q: real)
    requires VogelLedger(supply, demand, a, supplyLeft, demandLeft)
    requires i < |supply| && j < |demand| && a[i][j] == 0.0
    requires Open(supplyLeft, demandLeft, i, j) && q == Min(supplyLeft[i], demandLeft[j])
    ensures VogelLedger(supply, demand, SetCell(a, i, j, q), supplyLeft[i := supplyLeft[i] - q], demandLeft[j := demandLeft[j] - q])
  {
    LedgerMove(supply, demand, a, supplyLeft, demandLeft, i, j, q);
  }

  /** After that allocation, deactivating what is used up keeps the flags. */
  lemma VogelActivityMove(a: seq<seq<real>>, supplyLeft: seq<real>, demandLeft: seq<real>, activeRows: seq<bool>, activeCols: seq<bool>, i: nat, j: nat, q: real)
    requires VogelActivity(a, supplyLeft, demandLeft, activeRows, activeCols)
    requires i < |supplyLeft| && j < |demandLeft| && Open(supplyLeft, demandLeft, i, j) && q == Min(supplyLeft[i], demandLeft[j])
    ensures var supplyLeft' := supplyLeft[i := supplyLeft[i] - q];
      var demandLeft' := demandLeft[j := demandLeft[j] - q];
      VogelActivity(SetCell(a, i, j, q), supplyLeft', demandLeft', Deactivate(activeRows, supplyLeft', i), Deactivate(activeCols, demandLeft', j))
  {
  }

  /** Allocating min(remainders) to an open cell of an active row and column
      and deactivating what is used up keeps the Vogel bookkeeping. */
  lemma VogelAllocateKeeps(supply: seq<real>, demand: seq<real>, a: seq<seq<real>>, supplyLeft: seq<real>, demandLeft: seq<real>,
                           activeRows: seq<bool>, activeCols: seq<bool>, i: nat, j: nat, q: real)
    requires VogelKept(supply, demand, a, supplyLeft, demandLeft, activeRows, activeCols)
    requires i < |supply| && j < |demand| && Open(supplyLeft, demandLeft, i, j) && q == Min(supplyLeft[i], demandLeft[j])
    ensures var supplyLeft' := supplyLeft[i := supplyLeft[i] - q];
      var demandLeft' := demandLeft[j := demandLeft[j] - q];
      VogelKept(supply, demand, SetCell(a, i, j, q), supplyLeft', demandLeft',
                Deactivate(activeRows, supplyLeft', i), Deactivate(activeCols, demandLeft', j))
  {
    assert a[i][j] == 0.0;
    VogelLedgerMove(supply, demand, a, supplyLeft, demandLeft, i, j, q);
    VogelActivityMove(a, supplyLeft, demandLeft, activeRows, activeCols, i, j, q);
  }

  /** The loop state of Vogel's method. */
  datatype VogelStage = VogelStage(allocation: seq<seq<real>>, supplyLeft: seq<real>, demandLeft: seq<real>,
                                   activeRows: seq<bool>, activeCols: seq<bool>)

  /** While some supply and some demand exceed epsilon, the selection is an
      open cell of an active row and an active column. */
  lemma VogelChoiceOpen(costs: seq<seq<real>>, supplyLeft: seq<real>, demandLeft: seq<real>, activeRows: seq<bool>, activeCols: seq<bool>)
    requires IsMatrix(costs, |supplyLeft|, |demandLeft|) && FlagsSound(supplyLeft, demandLeft, activeRows, activeCols)
    requires SomeAbove(supplyLeft, Epsilon) && SomeAbove(demandLeft, Epsilon)
    ensures |supplyLeft| > 0 && |demandLeft| > 0
    ensures ActiveOpenCell(VogelSelect(costs, supplyLeft, demandLeft, activeRows, activeCols), supplyLeft, demandLeft, activeRows, activeCols)
  {
    var wi :| 0 <= wi < |supplyLeft| && supplyLeft[wi] > Epsilon;
    var wj :| 0 <= wj < |demandLeft| && demandLeft[wj] > Epsilon;
    VogelSelectOpen(costs, supplyLeft, demandLeft, activeRows, activeCols, wi, wj);
  }

  /** Allocating at cell c: it is set to the smaller of its two
      remainders, both remainders lose that much, and a row or column whose
      remainder is now at most epsilon is deactivated. */
  function VogelAllocate(a: seq<seq<real>>, supplyLeft: seq<real>, demandLeft: seq<real>,
                         activeRows: seq<bool>, activeCols: seq<bool>, c: Choice): VogelStage
    requires IsMatrix(a, |supplyLeft|, |demandLeft|) && |activeRows| == |supplyLeft| && |activeCols| == |demandLeft|
    requires ActiveOpenCell(c, supplyLeft, demandLeft, activeRows, activeCols)
  {
    var q := Min(supplyLeft[c.row], demandLeft[c.col]);
    var supplyLeft', demandLeft' := supplyLeft[c.row := supplyLeft[c.row] - q], demandLeft[c.col := demandLeft[c.col] - q];
    VogelStage(SetCell(a, c.row, c.col, q), supplyLeft', demandLeft',
               Deactivate(activeRows, supplyLeft', c.row), Deactivate(activeCols, demandLeft', c.col))
  }

  /** One turn of the `vogelApproximation` loop: allocate at the selected
      cell. */
  function VogelTurn(costs: seq<seq<real>>, a: seq<seq<real>>, supplyLeft: seq<real>, demandLeft: seq<real>,
                     activeRows: seq<bool>, activeCols: seq<bool>): VogelStage
    requires IsMatrix(costs, |supplyLeft|, |demandLeft|) && IsMatrix(a, |supplyLeft|, |demandLeft|)
    requires FlagsSound(supplyLeft, demandLeft, activeRows, activeCols)
    requires SomeAbove(supplyLeft, Epsilon) && SomeAbove(demandLeft, Epsilon)
  {
    VogelChoiceOpen(costs, supplyLeft, demandLeft, activeRows, activeCols);
    VogelAllocate(a, supplyLeft, demandLeft, activeRows, activeCols, VogelSelect(costs, supplyLeft, demandLeft, activeRows, activeCols))
  }

  /** An allocation keeps the shapes and the flags sound. */
  lemma VogelAllocateShape(a: seq<seq<real>>, supplyLeft: seq<real>, demandLeft: seq<real>,
                           activeRows: seq<bool>, activeCols: seq<bool>, c: Choice)
    requires IsMatrix(a, |supplyLeft|, |demandLeft|) && FlagsSound(supplyLeft, demandLeft, activeRows, activeCols)
    requires ActiveOpenCell(c, supplyLeft, demandLeft, activeRows, activeCols)
    ensures var s := VogelAllocate(a, supplyLeft, demandLeft, activeRows, activeCols, c);
      && IsMatrix(s.allocation, |supplyLeft|, |demandLeft|) && FlagsSound(s.supplyLeft, s.demandLeft, s.activeRows, s.activeCols)
      && |s.supplyLeft| == |supplyLeft| && |s.demandLeft| == |demandLeft|
  {
  }

  /** An allocation strictly lowers the number of remainders above
      epsilon. */
  lemma VogelAllocateLowers(a: seq<seq<real>>, supplyLeft: seq<real>, demandLeft: seq<real>,
                            activeRows: seq<bool>, activeCols: seq<bool>, c: Choice)
    requires IsMatrix(a, |supplyLeft|, |demandLeft|) && FlagsSound(supplyLeft, demandLeft, activeRows, activeCols)
    requires ActiveOpenCell(c, supplyLeft, demandLeft, activeRows, activeCols)
    ensures var s := VogelAllocate(a, supplyLeft, demandLeft, activeRows, activeCols, c);
      CountAbove(s.supplyLeft, Epsilon) + CountAbove(s.demandLeft, Epsilon) < CountAbove(supplyLeft, Epsilon) + CountAbove(demandLeft, Epsilon)
  {
    var q := Min(supplyLeft[c.row], demandLeft[c.col]);
    AllocateLowersCounts(supplyLeft, demandLeft, c.row, c.col, q);
  }

  /** A turn keeps the shapes and the flags sound, and strictly lowers the
      number of remainders above epsilon. */
  lemma VogelTurnLowers(costs: seq<seq<real>>, a: seq<seq<real>>, supplyLeft: seq<real>, demandLeft: seq<real>,
                        activeRows: seq<bool>, activeCols: seq<bool>)
    requires IsMatrix(costs, |supplyLeft|, |demandLeft|) && IsMatrix(a, |supplyLeft|, |demandLeft|)
    requires FlagsSound(supplyLeft, demandLeft, activeRows, activeCols)
    requires SomeAbove(supplyLeft, Epsilon) && SomeAbove(demandLeft, Epsilon)
    ensures var s := VogelTurn(costs, a, supplyLeft, demandLeft, activeRows, activeCols);
      && IsMatrix(s.allocation, |supplyLeft|, |demandLeft|) && FlagsSound(s.supplyLeft, s.demandLeft, s.activeRows, s.activeCols)
      && |s.supplyLeft| == |supplyLeft| && |s.demandLeft| == |demandLeft|
      && CountAbove(s.supplyLeft, Epsilon) + CountAbove(s.demandLeft, Epsilon) < CountAbove(supplyLeft, Epsilon) + CountAbove(demandLeft, Epsilon)
  {
    VogelChoiceOpen(costs, supplyLeft, demandLeft, activeRows, activeCols);
    var c := VogelSelect(costs, supplyLeft, demandLeft, activeRows, activeCols);
    VogelAllocateShape(a, supplyLeft, demandLeft, activeRows, activeCols, c);
    VogelAllocateLowers(a, supplyLeft, demandLeft, activeRows, activeCols, c);
  }

  /** A turn keeps the Vogel bookkeeping. */
  lemma VogelTurnKeeps(supply: seq<real>, demand: seq<real>, costs: seq<seq<real>>, a: seq<seq<real>>, supplyLeft: seq<real>, demandLeft: seq<real>,
                       activeRows: seq<bool>, activeCols: seq<bool>)
    requires IsMatrix(costs, |supply|, |demand|)
    requires VogelKept(supply, demand, a, supplyLeft, demandLeft, activeRows, activeCols)
    requires SomeAbove(supplyLeft, Epsilon) && SomeAbove(demandLeft, Epsilon)
    ensures var s := VogelTurn(costs, a, supplyLeft, demandLeft, activeRows, activeCols);
      VogelKept(supply, demand, s.allocation, s.supplyLeft, s.demandLeft, s.activeRows, s.activeCols)
  {
    VogelChoiceOpen(costs, supplyLeft, demandLeft, activeRows, activeCols);
    var c := VogelSelect(costs, supplyLeft, demandLeft, activeRows, activeCols);
    VogelAllocateKeeps(supply, demand, a, supplyLeft, demandLeft, activeRows, activeCols, c.row, c.col, Min(supplyLeft[c.row], demandLeft[c.col]));
  }

  /** The `vogelApproximation` loop from a given state: turns until every
      row or every column is used up to epsilon. */
  function VogelRun(costs: seq<seq<real>>, a: seq<seq<real>>, supplyLeft: seq<real>, demandLeft: seq<real>,
                    activeRows: seq<bool>, activeCols: seq<bool>): (s: VogelStage)
    requires IsMatrix(costs, |supplyLeft|, |demandLeft|) && IsMatrix(a, |supplyLeft|, |demandLeft|)
    requires FlagsSound(supplyLeft, demandLeft, activeRows, activeCols)
    ensures !SomeAbove(s.supplyLeft, Epsilon) || !SomeAbove(s.demandLeft, Epsilon)
    decreases CountAbove(supplyLeft, Epsilon) + CountAbove(demandLeft, Epsilon)
  {
    if SomeAbove(supplyLeft, Epsilon) && SomeAbove(demandLeft, Epsilon) then
      VogelTurnLowers(costs, a, supplyLeft, demandLeft, activeRows, activeCols);
      var s := VogelTurn(costs, a, supplyLeft, demandLeft, activeRows, activeCols);
      VogelRun(costs, s.allocation, s.supplyLeft, s.demandLeft, s.activeRows, s.activeCols)
    else
      VogelStage(a, supplyLeft, demandLeft, activeRows, activeCols)
  }

  /** The allocation `vogelApproximation` returns: every row and column
      starts active. */
  function VogelAllocation(supply: seq<real>, demand: seq<real>, costs: seq<seq<real>>): seq<seq<real>>
    requires IsMatrix(costs, |supply|, |demand|)
  {
    VogelRun(costs, Zeros(|supply|, |demand|), supply, demand, seq(|supply|, _ => true), seq(|demand|, _ => true)).allocation
  }

  /** One iteration of the `vogelApproximation` loop. */
  method VogelStep(costs: seq<seq<real>>, allocation: seq<seq<real>>, supplyLeft: seq<real>, demandLeft: seq<real>,
                   activeRows: seq<bool>, activeCols: seq<bool>)
    returns (allocation': seq<seq<real>>, supplyLeft': seq<real>, demandLeft': seq<real>, activeRows': seq<bool>, activeCols': seq<bool>)
    requires IsMatrix(costs, |supplyLeft|, |demandLeft|) && IsMatrix(allocation, |supplyLeft|, |demandLeft|)
    requires FlagsSound(supplyLeft, demandLeft, activeRows, activeCols)
    requires SomeAbove(supplyLeft, Epsilon) && SomeAbove(demandLeft, Epsilon)
    ensures VogelStage(allocation', supplyLeft', demandLeft', activeRows', activeCols')
      == VogelTurn(costs, allocation, supplyLeft, demandLeft, activeRows, activeCols)
  {
    VogelChoiceOpen(costs, supplyLeft, demandLeft, activeRows, activeCols);
    var choice := VogelSelect(costs, supplyLeft, demandLeft, activeRows, activeCols);
    var i, j := choice.row, choice.col;
    var quantity := Min(supplyLeft[i], demandLeft[j]);
    allocation' := SetCell(allocation, i, j, quantity);
    supplyLeft' := supplyLeft[i := supplyLeft[i] - quantity];
    demandLeft' := demandLeft[j := demandLeft[j] - quantity];
    activeRows' := Deactivate(activeRows, supplyLeft', i);
    activeCols' := Deactivate(activeCols, demandLeft', j);
  }

  /** `vogelApproximation`: the loop computes the Vogel run. Afterwards
      every row or every column is used up to epsilon, no cell is negative,
      and what each row ships plus what it has left is exactly its supply
      (likewise for the columns and demand), a remainder being negative only
      if never touched. */
  method Vogel(supply: seq<real>, demand: seq<real>, costs: seq<seq<real>>)
    returns (allocation: seq<seq<real>>, supplyLeft: seq<real>, demandLeft: seq<real>)
    requires IsMatrix(costs, |supply|, |demand|)
    ensures var s := VogelRun(costs, Zeros(|supply|, |demand|), supply, demand, seq(|supply|, _ => true), seq(|demand|, _ => true));
      allocation == s.allocation && supplyLeft == s.supplyLeft && demandLeft == s.demandLeft
    ensures Ledger(supply, demand, allocation, supplyLeft, demandLeft) && NonNegative(allocation)
    ensures RemaindersSettled(supply, supplyLeft) && RemaindersSettled(demand, demandLeft)
    ensures !SomeAbove(supplyLeft, Epsilon) || !SomeAbove(demandLeft, Epsilon)
  {
    allocation := Zeros(|supply|, |demand|);
    supplyLeft, demandLeft := supply, demand;
    var activeRows := seq(|supply|, _ => true);
    var activeCols := seq(|demand|, _ => true);
    ZerosLedger(supply, demand);
    ghost var run := VogelRun(costs, allocation, supplyLeft, demandLeft, activeRows, activeCols);
    while SomeAbove(supplyLeft, Epsilon) && SomeAbove(demandLeft, Epsilon)
      invariant VogelKept(supply, demand, allocation, supplyLeft, demandLeft, activeRows, activeCols)
      invariant VogelRun(costs, allocation, supplyLeft, demandLeft, activeRows, activeCols) == run
      decreases CountAbove(supplyLeft, Epsilon) + CountAbove(demandLeft, Epsilon)
    {
      VogelTurnLowers(costs, allocation, supplyLeft, demandLeft, activeRows, activeCols);
      VogelTurnKeeps(supply, demand, costs, allocation, supplyLeft, demandLeft, activeRows, activeCols);
      allocation, supplyLeft, demandLeft, activeRows, activeCols :=
        VogelStep(costs, allocation, supplyLeft, demandLeft, activeRows, activeCols);
    }
  }

  // ---------------------------------------------------------------------------
  // Total cost, stripping and dispatch (Transportation.tsx:247-290)

  /** The nested loop summing allocation[i][j] * costs[i][j]. */
  method TotalCost(allocation: seq<seq<real>>, costs: seq<seq<real>>) returns (total: real)
    requires |allocation| == |costs| && forall i :: 0 <= i < |allocation| ==> |allocation[i]| == |costs[i]|
    ensures total == Cost(allocation, costs)
  {
    total := 0.0;
    for i := 0 to |allocation|
      invariant total == Cost(allocation[..i], costs[..i])
    {
      ghost var before := total;
      for j := 0 to |allocation[i]|
        invariant total == before + RowCost(allocation[i][..j], costs[i][..j])
      {
        assert allocation[i][..j + 1][..j] == allocation[i][..j];
        assert costs[i][..j + 1][..j] == costs[i][..j];
        total := total + allocation[i][j] * costs[i][j];
      }
      assert allocation[i][..|allocation[i]|] == allocation[i];
      assert costs[i][..|costs[i]|] == costs[i];
      assert allocation[..i + 1][..i] == allocation[..i];
      assert costs[..i + 1][..i] == costs[..i];
    }
    assert allocation[..|allocation|] == allocation;
    assert costs[..|costs|] == costs;
  }

  /** A row whose unit costs are all 0 costs nothing. */
  lemma {:induction false} RowCostZeroCosts(a: seq<real>, n: nat)
    requires |a| == n
    ensures RowCost(a, seq(n, _ => 0.0)) == 0.0
  {
    if n > 0 {
      assert seq(n, _ => 0.0)[..n - 1] == seq(n - 1, _ => 0.0);
      RowCostZeroCosts(a[..n - 1], n - 1);
    }
  }

  /** `allocation.map(row => row.slice(0, -1))`. */
  function DropLastColumn(a: seq<seq<real>>): (b: seq<seq<real>>)
    ensures |b| == |a|
  {
    seq(|a|, i requires 0 <= i < |a| => if a[i] == [] then [] else a[i][..|a[i]| - 1])
  }

  /** The dummy column of zero cost adds nothing to the cost. */
  lemma {:induction false} CostDropZeroColumn(a: seq<seq<real>>, costs: seq<seq<real>>, m: nat, n: nat)
    requires IsMatrix(a, m, n + 1) && IsMatrix(costs, m, n)
    ensures Cost(a, seq(m, i requires 0 <= i < m => costs[i] + [0.0])) == Cost(DropLastColumn(a), costs)
  {
    var padded := seq(m, i requires 0 <= i < m => costs[i] + [0.0]);
    if m > 0 {
      var k := m - 1;
      var dropped := DropLastColumn(a);
      assert padded[..k] == seq(k, i requires 0 <= i < k => costs[..k][i] + [0.0]);
      assert dropped[..k] == DropLastColumn(a[..k]);
      CostDropZeroColumn(a[..k], costs[..k], k, n);
      RowCostDropZero(a[k], costs[k]);
      assert dropped[k] == a[k][..n];
      assert padded[k] == costs[k] + [0.0];
    }
  }

  /** A last column of zero cost adds nothing to a row's cost. */
  lemma RowCostDropZero(row: seq<real>, c: seq<real>)
    requires |row| == |c| + 1
    ensures RowCost(row, c + [0.0]) == RowCost(row[..|c|], c)
  {
    assert (c + [0.0])[..|c|] == c;
  }

  /** `allocation.slice(0, -1)`. */
  function DropLastRow(a: seq<seq<real>>): (b: seq<seq<real>>)
  {
    if a == [] then [] else a[..|a| - 1]
  }

  /** Removing the dummy row or column when the totals differ. */
  function Strip(a: seq<seq<real>>, totalSupply: real, totalDemand: real): seq<seq<real>>
  {
    if totalSupply != totalDemand then
      if totalSupply > totalDemand then DropLastColumn(a) else DropLastRow(a)
    else a
  }

  /** Stripping undoes the padding: an allocation of the padded shape becomes
      one of the original shape, and the padded cost of an allocation is the
      original cost of its stripped part, the dummy row or column costing 0. */
  lemma StripUndoesPadding(supply: seq<real>, demand: seq<real>, costs: seq<seq<real>>, a: seq<seq<real>>)
    requires IsMatrix(costs, |supply|, |demand|)
    requires IsMatrix(a, |Balance(supply, demand, costs).supply|, |Balance(supply, demand, costs).demand|)
    ensures var p := Balance(supply, demand, costs);
      && IsMatrix(p.costs, |p.supply|, |p.demand|)
      && IsMatrix(Strip(a, Sum(supply), Sum(demand)), |supply|, |demand|)
      && Cost(a, p.costs) == Cost(Strip(a, Sum(supply), Sum(demand)), costs)
  {
    var m, n := |supply|, |demand|;
    BalanceBalances(supply, demand, costs);
    if Sum(supply) > Sum(demand) {
      CostDropZeroColumn(a, costs, m, n);
    } else if Sum(demand) > Sum(supply) {
      var p := Balance(supply, demand, costs);
      assert p.costs[..m] == costs;
      RowCostZeroCosts(a[m], n);
    }
  }

  /** Stripping keeps every cell non-negative. */
  lemma StripNonNegative(a: seq<seq<real>>, totalSupply: real, totalDemand: real)
    requires NonNegative(a)
    ensures NonNegative(Strip(a, totalSupply, totalDemand))
  {
    var b := Strip(a, totalSupply, totalDemand);
    forall i, j | 0 <= i < |b| && 0 <= j < |b[i]|
      ensures b[i][j] >= 0.0
    {
      assert b[i][j] == a[i][j];
    }
  }

  /** North-West never writes a negative cell. */
  lemma NorthWestNonNegative(supply: seq<real>, demand: seq<real>)
    ensures NonNegative(NorthWest(supply, demand))
  {
    if |supply| > 0 && |demand| > 0 {
      NorthWestConserves(supply, demand);
    }
  }

  /** The method name shown with a solution. Any name other than the three
      the page offers is solved by North-West but labelled as Vogel. */
  function MethodLabel(name: string): (shown: string)
    ensures name == "northWest" <==> shown == "North-West Corner"
    ensures name == "minCost" <==> shown == "Minimum Cost"
    ensures name != "northWest" && name != "minCost" <==> shown == "Vogel's Approximation"
  {
    if name == "northWest" then "North-West Corner"
    else if name == "minCost" then "Minimum Cost"
    else "Vogel's Approximation"
  }

  datatype Solution = Solution(allocation: seq<seq<real>>, totalCost: real, methodName: string, balanced: bool)

  /** The initial solution the chosen method computes on the balanced
      instance, before the dummy row or column is removed; an unknown name
      falls back to the North-West Corner rule. */
  method RunMethod(p: Instance, name: string) returns (allocation: seq<seq<real>>)
    requires IsMatrix(p.costs, |p.supply|, |p.demand|)
    ensures IsMatrix(allocation, |p.supply|, |p.demand|) && NonNegative(allocation)
    ensures name == "minCost" ==> allocation == MinCostAllocation(p.supply, p.demand, p.costs)
    ensures name == "vam" ==> allocation == VogelAllocation(p.supply, p.demand, p.costs)
    ensures name != "minCost" && name != "vam" ==> allocation == NorthWest(p.supply, p.demand)
  {
    var supplyLeft, demandLeft;
    if name == "northWest" {
      allocation := NorthWestCorner(p.supply, p.demand);
      NorthWestNonNegative(p.supply, p.demand);
    } else if name == "minCost" {
      allocation, supplyLeft, demandLeft := MinimumCost(p.supply, p.demand, p.costs);
    } else if name == "vam" {
      allocation, supplyLeft, demandLeft := Vogel(p.supply, p.demand, p.costs);
    } else {
      allocation := NorthWestCorner(p.supply, p.demand);
      NorthWestNonNegative(p.supply, p.demand);
    }
  }

  /** `solveTransportation`: pad, solve with the chosen method (North-West for
      an unknown name), price the padded allocation, strip the dummy. The
      reported cost is the cost of the reported allocation under the original
      costs; the allocation has the original shape and no negative cell; the
      problem is reported balanced when the totals differ by less than 1e-10. */
  method SolveTransportation(supply: seq<real>, demand: seq<real>, costs: seq<seq<real>>, name: string) returns (solution: Solution)
    requires IsMatrix(costs, |supply|, |demand|)
    ensures IsMatrix(solution.allocation, |supply|, |demand|) && NonNegative(solution.allocation)
    ensures solution.totalCost == Cost(solution.allocation, costs)
    ensures solution.methodName == MethodLabel(name)
    ensures solution.balanced <==> Abs(Sum(supply) - Sum(demand)) < Epsilon
    ensures name != "minCost" && name != "vam" ==>
      var p := Balance(supply, demand, costs);
      solution.allocation == Strip(NorthWest(p.supply, p.demand), Sum(supply), Sum(demand))
    ensures name == "minCost" ==>
      var p := Balance(supply, demand, costs);
      IsMatrix(p.costs, |p.supply|, |p.demand|) && solution.allocation == Strip(MinCostAllocation(p.supply, p.demand, p.costs), Sum(supply), Sum(demand))
    ensures name == "vam" ==>
      var p := Balance(supply, demand, costs);
      IsMatrix(p.costs, |p.supply|, |p.demand|) && solution.allocation == Strip(VogelAllocation(p.supply, p.demand, p.costs), Sum(supply), Sum(demand))
  {
    var totalSupply, totalDemand := Sum(supply), Sum(demand);
    var p := Balance(supply, demand, costs);
    BalanceIsMatrix(supply, demand, costs);
    var allocation := RunMethod(p, name);
    var totalCost := TotalCost(allocation, p.costs);
    StripUndoesPadding(supply, demand, costs, allocation);
    StripNonNegative(allocation, totalSupply, totalDemand);
    allocation := Strip(allocation, totalSupply, totalDemand);
    solution := Solution(allocation, totalCost, MethodLabel(name), Abs(totalSupply - totalDemand) < Epsilon);
  }

  /** The balanced flag uses a tolerance while the padding does not: totals
      1 and 1 - 10^-11 get a dummy destination yet are reported balanced. */
  lemma BalancedFlagTolerates()
    ensures Balance([1.0], [0.99999999999], [[3.0]]).demand == [0.99999999999, 0.00000000001]
    ensures Abs(Sum([1.0]) - Sum([0.99999999999])) < Epsilon
  {
    assert Sum([1.0]) == 1.0 by {
      assert [1.0][..0] == [];
    }
    assert Sum([0.99999999999]) == 0.99999999999 by {
      assert [0.99999999999][..0] == [];
    }
  }
}
