/** The car-manufacturing supply chain page
    (src/pages/WorkforceOptimization.tsx): a greedy allocation of market
    demand to supplier-factory pairs, cheapest combined unit cost first,
    within supplier and factory capacities, and the cost, production and
    utilisation totals of the result. */
module SupplyChain {
  import opened Numeric

  datatype Supplier = Supplier(capacity: real, costPerUnit: real)

  datatype Factory = Factory(capacity: real, productionCost: real)

  /** The data of one instance; `transport[s][f]` is the unit transport cost
      from supplier s to factory f. */
  datatype Network = Network(suppliers: seq<Supplier>, factories: seq<Factory>, transport: seq<seq<real>>)

  predicate WellFormed(net: Network)
  {
    IsMatrix(net.transport, |net.suppliers|, |net.factories|)
  }

  /** The combined unit cost of pair (s, f): supplier cost, transport and
      production. */
  function UnitCost(net: Network, s: nat, f: nat): real
    requires WellFormed(net) && s < |net.suppliers| && f < |net.factories|
  {
    net.suppliers[s].costPerUnit + net.transport[s][f] + net.factories[f].productionCost
  }

  /** Room left at every supplier: capacity minus what its row ships. */
  function SupplierRoom(net: Network, a: seq<seq<real>>): (room: seq<real>)
    requires IsMatrix(a, |net.suppliers|, |net.factories|)
    ensures |room| == |net.suppliers|
  {
    seq(|net.suppliers|, s requires 0 <= s < |net.suppliers| => net.suppliers[s].capacity - Sum(a[s]))
  }

  /** Room left at every factory: capacity minus what its column receives. */
  function FactoryRoom(net: Network, a: seq<seq<real>>): (room: seq<real>)
    requires IsMatrix(a, |net.suppliers|, |net.factories|)
    ensures |room| == |net.factories|
  {
    seq(|net.factories|, f requires 0 <= f < |net.factories| => net.factories[f].capacity - Sum(Column(a, f)))
  }

  /** Pair (s, f) may still receive goods: both have room left. */
  predicate Eligible(net: Network, a: seq<seq<real>>, s: nat, f: nat)
    requires IsMatrix(a, |net.suppliers|, |net.factories|) && s < |net.suppliers| && f < |net.factories|
  {
    SupplierRoom(net, a)[s] > 0.0 && FactoryRoom(net, a)[f] > 0.0
  }

  /** Pair (s, f) comes before pair (s', f') in supplier-then-factory order. */
  predicate Before(s: nat, f: nat, s': nat, f': nat)
  {
    s < s' || (s == s' && f < f')
  }

  /** What the scan knows once every pair before (s, f) has been examined:
      (-1, -1) when none of them was eligible, otherwise an eligible pair
      among them of least cost, beaten by no earlier eligible pair even on
      a tie. */
  ghost predicate BestSoFar(net: Network, a: seq<seq<real>>, bestSupplier: int, bestFactory: int, bestCost: real, s: nat, f: nat)
    requires WellFormed(net) && IsMatrix(a, |net.suppliers|, |net.factories|)
  {
    && (bestSupplier == -1 <==> bestFactory == -1)
    && (bestSupplier == -1 ==>
          forall s', f' :: 0 <= s' < |net.suppliers| && 0 <= f' < |net.factories| && Before(s', f', s, f) ==> !Eligible(net, a, s', f'))
    && (bestSupplier != -1 ==>
          && 0 <= bestSupplier < |net.suppliers| && 0 <= bestFactory < |net.factories|
          && Before(bestSupplier, bestFactory, s, f) && Eligible(net, a, bestSupplier, bestFactory)
          && bestCost == UnitCost(net, bestSupplier, bestFactory)
          && CheapestAmong(net, a, bestSupplier, bestFactory, s, f))
  }

  /** (bs, bf) costs no more than any eligible pair before (s, f), and less
      than any eligible pair before itself. */
  ghost predicate CheapestAmong(net: Network, a: seq<seq<real>>, bs: nat, bf: nat, s: nat, f: nat)
    requires WellFormed(net) && IsMatrix(a, |net.suppliers|, |net.factories|)
    requires bs < |net.suppliers| && bf < |net.factories|
  {
    forall s', f' :: 0 <= s' < |net.suppliers| && 0 <= f' < |net.factories| && Before(s', f', s, f) && Eligible(net, a, s', f') ==>
      UnitCost(net, bs, bf) <= UnitCost(net, s', f') && (Before(s', f', bs, bf) ==> UnitCost(net, bs, bf) < UnitCost(net, s', f'))
  }

  /** The pair one round picks: the eligible pair of least combined unit
      cost, the first in supplier-then-factory order on ties, or (-1, -1)
      when no pair is eligible. */
  ghost predicate IsCheapestPair(net: Network, a: seq<seq<real>>, p: (int, int))
    requires WellFormed(net) && IsMatrix(a, |net.suppliers|, |net.factories|)
  {
    && (p.0 == -1 <==> p.1 == -1)
    && (p.0 == -1 <==> forall s, f :: 0 <= s < |net.suppliers| && 0 <= f < |net.factories| ==> !Eligible(net, a, s, f))
    && (p.0 != -1 ==>
          && 0 <= p.0 < |net.suppliers| && 0 <= p.1 < |net.factories|
          && Eligible(net, a, p.0, p.1)
          && (forall s, f :: 0 <= s < |net.suppliers| && 0 <= f < |net.factories| && Eligible(net, a, s, f) ==>
                UnitCost(net, p.0, p.1) <= UnitCost(net, s, f))
          && (forall s, f :: 0 <= s < |net.suppliers| && 0 <= f < |net.factories| && Eligible(net, a, s, f) && Before(s, f, p.0, p.1) ==>
                UnitCost(net, p.0, p.1) < UnitCost(net, s, f)))
  }

  /** Examining pair (s, f) moves the scan to the next pair. */
  lemma ScanPair(net: Network, a: seq<seq<real>>, bs: int, bf: int, bestCost: real, s: nat, f: nat)
    requires WellFormed(net) && IsMatrix(a, |net.suppliers|, |net.factories|)
    requires s < |net.suppliers| && f < |net.factories| && BestSoFar(net, a, bs, bf, bestCost, s, f)
    ensures Eligible(net, a, s, f) && (bs == -1 || UnitCost(net, s, f) < bestCost) ==>
      BestSoFar(net, a, s, f, UnitCost(net, s, f), s, f + 1)
    ensures !(Eligible(net, a, s, f) && (bs == -1 || UnitCost(net, s, f) < bestCost)) ==>
      BestSoFar(net, a, bs, bf, bestCost, s, f + 1)
  {
  }

  /** A supplier without room has no eligible pair: the scan skips its row. */
  lemma SkipRow(net: Network, a: seq<seq<real>>, bs: int, bf: int, bestCost: real, s: nat, f: nat)
    requires WellFormed(net) && IsMatrix(a, |net.suppliers|, |net.factories|)
    requires s < |net.suppliers| && BestSoFar(net, a, bs, bf, bestCost, s, f)
    requires SupplierRoom(net, a)[s] <= 0.0
    ensures BestSoFar(net, a, bs, bf, bestCost, s + 1, 0)
  {
  }

  /** Having examined the whole row s is having reached row s + 1. */
  lemma EndRow(net: Network, a: seq<seq<real>>, bs: int, bf: int, bestCost: real, s: nat)
    requires WellFormed(net) && IsMatrix(a, |net.suppliers|, |net.factories|)
    requires BestSoFar(net, a, bs, bf, bestCost, s, |net.factories|)
    ensures BestSoFar(net, a, bs, bf, bestCost, s + 1, 0)
  {
  }

  /** Having reached row |suppliers|, the scan has examined every pair. */
  lemma ScanDone(net: Network, a: seq<seq<real>>, bs: int, bf: int, bestCost: real)
    requires WellFormed(net) && IsMatrix(a, |net.suppliers|, |net.factories|)
    requires BestSoFar(net, a, bs, bf, bestCost, |net.suppliers|, 0)
    ensures IsCheapestPair(net, a, (bs, bf))
  {
  }

  /** What a round may pick: no pair, written (-1, -1), or an eligible
      pair. */
  predicate PickedPair(net: Network, a: seq<seq<real>>, p: (int, int))
    requires IsMatrix(a, |net.suppliers|, |net.factories|)
  {
    && (p.0 == -1 <==> p.1 == -1)
    && (p.0 != -1 ==> 0 <= p.0 < |net.suppliers| && 0 <= p.1 < |net.factories| && Eligible(net, a, p.0, p.1))
  }

  /** The state of the two nested `forEach` loops: the pair (s, f) about to
      be examined, the best pair so far and its cost. */
  datatype ScanState = ScanState(s: nat, f: nat, bs: int, bf: int, bestCost: real)

  /** One step of the loops from pair (s, f): a supplier without room is
      skipped, as is the end of a row, and a pair with factory room replaces
      the best only when strictly cheaper (any pair beats the initial
      `Infinity`, here the pair (-1, -1)). */
  function ScanNext(net: Network, a: seq<seq<real>>, s: nat, f: nat, bs: int, bf: int, bestCost: real): (next: ScanState)
    requires WellFormed(net) && IsMatrix(a, |net.suppliers|, |net.factories|)
    requires s < |net.suppliers| && f <= |net.factories|
    ensures next.s <= |net.suppliers| && next.f <= |net.factories| && (next.s < |net.suppliers| || next.f == 0)
    ensures next.s > s || (next.s == s && next.f > f)
    ensures PickedPair(net, a, (bs, bf)) ==> PickedPair(net, a, (next.bs, next.bf))
  {
    if SupplierRoom(net, a)[s] <= 0.0 || f == |net.factories| then ScanState(s + 1, 0, bs, bf, bestCost)
    else if FactoryRoom(net, a)[f] > 0.0 && (bs == -1 || UnitCost(net, s, f) < bestCost) then
      ScanState(s, f + 1, s, f, UnitCost(net, s, f))
    else ScanState(s, f + 1, bs, bf, bestCost)
  }

  /** The loops from pair (s, f) on: the best pair once every supplier has
      been examined. */
  function ScanFrom(net: Network, a: seq<seq<real>>, s: nat, f: nat, bs: int, bf: int, bestCost: real): (p: (int, int))
    requires WellFormed(net) && IsMatrix(a, |net.suppliers|, |net.factories|)
    requires s <= |net.suppliers| && f <= |net.factories|
    ensures PickedPair(net, a, (bs, bf)) ==> PickedPair(net, a, p)
    decreases |net.suppliers| - s, |net.factories| - f
  {
    if s == |net.suppliers| then (bs, bf)
    else
      var next := ScanNext(net, a, s, f, bs, bf, bestCost);
      ScanFrom(net, a, next.s, next.f, next.bs, next.bf, next.bestCost)
  }

  /** `BestSoFar` holds of the state one step of the loops moves to. */
  lemma ScanNextKeeps(net: Network, a: seq<seq<real>>, s: nat, f: nat, bs: int, bf: int, bestCost: real)
    requires WellFormed(net) && IsMatrix(a, |net.suppliers|, |net.factories|)
    requires s < |net.suppliers| && f <= |net.factories|
    requires BestSoFar(net, a, bs, bf, bestCost, s, f)
    ensures var next := ScanNext(net, a, s, f, bs, bf, bestCost);
      BestSoFar(net, a, next.bs, next.bf, next.bestCost, next.s, next.f)
  {
    if SupplierRoom(net, a)[s] <= 0.0 {
      SkipRow(net, a, bs, bf, bestCost, s, f);
    } else if f == |net.factories| {
      EndRow(net, a, bs, bf, bestCost, s);
    } else {
      ScanPair(net, a, bs, bf, bestCost, s, f);
    }
  }

  /** Scanning on from what `BestSoFar` knows at (s, f) ends on the cheapest
      pair. */
  lemma {:induction false} ScanFromIsCheapest(net: Network, a: seq<seq<real>>, s: nat, f: nat, bs: int, bf: int, bestCost: real)
    requires WellFormed(net) && IsMatrix(a, |net.suppliers|, |net.factories|)
    requires s <= |net.suppliers| && f <= |net.factories| && (s < |net.suppliers| || f == 0)
    requires BestSoFar(net, a, bs, bf, bestCost, s, f)
    ensures IsCheapestPair(net, a, ScanFrom(net, a, s, f, bs, bf, bestCost))
    decreases |net.suppliers| - s, |net.factories| - f
  {
    if s == |net.suppliers| {
      ScanDone(net, a, bs, bf, bestCost);
    } else {
      ScanNextKeeps(net, a, s, f, bs, bf, bestCost);
      var next := ScanNext(net, a, s, f, bs, bf, bestCost);
      ScanFromIsCheapest(net, a, next.s, next.f, next.bs, next.bf, next.bestCost);
    }
  }

  /** The pair one round of `optimizeAllocation` picks. */
  function CheapestOf(net: Network, a: seq<seq<real>>): (p: (int, int))
    requires WellFormed(net) && IsMatrix(a, |net.suppliers|, |net.factories|)
    ensures PickedPair(net, a, p)
  {
    ScanFrom(net, a, 0, 0, -1, -1, 0.0)
  }

  /** The pair a round picks is the cheapest eligible pair, the first one
      on ties, and (-1, -1) exactly when no pair is eligible. */
  lemma CheapestOfIsCheapest(net: Network, a: seq<seq<real>>)
    requires WellFormed(net) && IsMatrix(a, |net.suppliers|, |net.factories|)
    ensures IsCheapestPair(net, a, CheapestOf(net, a))
  {
    ScanFromIsCheapest(net, a, 0, 0, -1, -1, 0.0);
  }

  /** Within the row of a supplier with room, a step of the loops examines
      pair (s, f) with the factory's room as the loop computes it. */
  lemma ScanNextInRow(net: Network, a: seq<seq<real>>, s: nat, f: nat, bs: int, bf: int, bestCost: real, room: real)
    requires WellFormed(net) && IsMatrix(a, |net.suppliers|, |net.factories|)
    requires s < |net.suppliers| && f < |net.factories| && SupplierRoom(net, a)[s] > 0.0
    requires room == net.factories[f].capacity - Sum(Column(a, f))
    ensures ScanNext(net, a, s, f, bs, bf, bestCost) ==
      if room > 0.0 && (bs == -1 || UnitCost(net, s, f) < bestCost) then ScanState(s, f + 1, s, f, UnitCost(net, s, f))
      else ScanState(s, f + 1, bs, bf, bestCost)
  {
    assert room == FactoryRoom(net, a)[f];
  }

  /** The inner `forEach` over the factories for a supplier with room: the
      scan goes on from the start of the next row with the best pair it
      leaves. */
  method ScanRow(net: Network, a: seq<seq<real>>, s: nat, bs: int, bf: int, bestCost: real)
    returns (bestSupplier: int, bestFactory: int, bestCost': real)
    requires WellFormed(net) && IsMatrix(a, |net.suppliers|, |net.factories|)
    requires s < |net.suppliers| && SupplierRoom(net, a)[s] > 0.0
    ensures ScanFrom(net, a, s, 0, bs, bf, bestCost) == ScanFrom(net, a, s + 1, 0, bestSupplier, bestFactory, bestCost')
  {
    bestSupplier, bestFactory, bestCost' := bs, bf, bestCost;
    for f := 0 to |net.factories|
      invariant ScanFrom(net, a, s, 0, bs, bf, bestCost) == ScanFrom(net, a, s, f, bestSupplier, bestFactory, bestCost')
    {
      var remainingCapacity := net.factories[f].capacity - Sum(Column(a, f));
      var totalCost := UnitCost(net, s, f);
      ScanNextInRow(net, a, s, f, bestSupplier, bestFactory, bestCost', remainingCapacity);
      if remainingCapacity > 0.0 && (bestSupplier == -1 || totalCost < bestCost') {
        bestCost' := totalCost;
        bestSupplier, bestFactory := s, f;
      }
    }
  }

  /** The two nested `forEach` loops of one round. */
  method CheapestPair(net: Network, a: seq<seq<real>>) returns (bestSupplier: int, bestFactory: int)
    requires WellFormed(net) && IsMatrix(a, |net.suppliers|, |net.factories|)
    ensures (bestSupplier, bestFactory) == CheapestOf(net, a)
  {
    bestSupplier, bestFactory := -1, -1;
    var bestCost := 0.0;
    for s := 0 to |net.suppliers|
      invariant ScanFrom(net, a, s, 0, bestSupplier, bestFactory, bestCost) == CheapestOf(net, a)
    {
      var remainingSupply := net.suppliers[s].capacity - Sum(a[s]);
      assert remainingSupply == SupplierRoom(net, a)[s];
      if remainingSupply > 0.0 {
        bestSupplier, bestFactory, bestCost := ScanRow(net, a, s, bestSupplier, bestFactory, bestCost);
      }
    }
  }

  /** Everything allocated: the sum of all row sums. */
  function Total(a: seq<seq<real>>): real
  {
    Sum(RowSums(a))
  }

  function RowSums(a: seq<seq<real>>): (r: seq<real>)
    ensures |r| == |a|
  {
    seq(|a|, s requires 0 <= s < |a| => Sum(a[s]))
  }

  /** A capacity never overrun: every room left is non-negative, or still
      the whole capacity (a supplier or factory of negative capacity is
      never used). */
  predicate RoomKept(room: seq<real>, capacity: seq<real>)
    requires |room| == |capacity|
  {
    forall k :: 0 <= k < |room| ==> room[k] >= 0.0 || room[k] == capacity[k]
  }

  function SupplierCapacities(net: Network): (c: seq<real>)
    ensures |c| == |net.suppliers|
  {
    seq(|net.suppliers|, s requires 0 <= s < |net.suppliers| => net.suppliers[s].capacity)
  }

  function FactoryCapacities(net: Network): (c: seq<real>)
    ensures |c| == |net.factories|
  {
    seq(|net.factories|, f requires 0 <= f < |net.factories| => net.factories[f].capacity)
  }

  /** What the greedy allocation keeps: the shape, no negative cell, no
      supplier or factory over its capacity, and the total taken is what
      the remaining demand is missing. */
  ghost predicate Allocated(net: Network, marketDemand: real, a: seq<seq<real>>, remainingDemand: real)
  {
    && IsMatrix(a, |net.suppliers|, |net.factories|) && NonNegative(a)
    && RoomKept(SupplierRoom(net, a), SupplierCapacities(net))
    && RoomKept(FactoryRoom(net, a), FactoryCapacities(net))
    && Total(a) + remainingDemand == marketDemand
    && (remainingDemand >= 0.0 || remainingDemand == marketDemand)
  }

  /** The loop's measure: suppliers and factories with room, plus one while
      demand is left. */
  ghost function Progress(net: Network, a: seq<seq<real>>, remainingDemand: real): nat
    requires IsMatrix(a, |net.suppliers|, |net.factories|)
  {
    CountAbove(SupplierRoom(net, a), 0.0) + CountAbove(FactoryRoom(net, a), 0.0) + (if remainingDemand > 0.0 then 1 else 0)
  }

  /** `allocation[s][f] += quantity` takes quantity from the supplier's room,
      the factory's room, and adds it to the total. */
  lemma AddToCell(net: Network, a: seq<seq<real>>, s: nat, f: nat, q: real)
    requires IsMatrix(a, |net.suppliers|, |net.factories|) && s < |net.suppliers| && f < |net.factories|
    ensures var b := SetCell(a, s, f, a[s][f] + q);
      && IsMatrix(b, |net.suppliers|, |net.factories|)
      && SupplierRoom(net, b) == SupplierRoom(net, a)[s := SupplierRoom(net, a)[s] - q]
      && FactoryRoom(net, b) == FactoryRoom(net, a)[f := FactoryRoom(net, a)[f] - q]
      && Total(b) == Total(a) + q
  {
    var b := SetCell(a, s, f, a[s][f] + q);
    SetCellSums(a, |net.suppliers|, |net.factories|, s, f, a[s][f] + q);
    assert RowSums(b) == RowSums(a)[s := Sum(a[s]) + q];
    SumUpdate(RowSums(a), s, Sum(a[s]) + q);
  }

  /** Taking a positive amount no larger than a room keeps that room
      non-negative. */
  lemma RoomKeptTake(room: seq<real>, capacity: seq<real>, k: nat, q: real)
    requires |room| == |capacity| && k < |room| && RoomKept(room, capacity)
    requires 0.0 < q <= room[k]
    ensures RoomKept(room[k := room[k] - q], capacity)
  {
  }

  lemma AddNonNegative(a: seq<seq<real>>, s: nat, f: nat, q: real)
    requires NonNegative(a) && s < |a| && f < |a[s]| && q >= 0.0
    ensures NonNegative(SetCell(a, s, f, a[s][f] + q))
  {
  }

  /** One round of the loop lowers the measure: the minimum empties the
      demand, the supplier's room or the factory's room. */
  lemma AllocateProgresses(net: Network, a: seq<seq<real>>, remainingDemand: real, s: nat, f: nat, q: real)
    requires IsMatrix(a, |net.suppliers|, |net.factories|) && remainingDemand > 0.0
    requires s < |net.suppliers| && f < |net.factories| && Eligible(net, a, s, f)
    requires q == Min(remainingDemand, Min(SupplierRoom(net, a)[s], FactoryRoom(net, a)[f]))
    ensures Progress(net, SetCell(a, s, f, a[s][f] + q), remainingDemand - q) < Progress(net, a, remainingDemand)
  {
    AddToCell(net, a, s, f, q);
    var supplierRoom, factoryRoom := SupplierRoom(net, a), FactoryRoom(net, a);
    CountAboveLowerOne(supplierRoom, s, supplierRoom[s] - q, 0.0);
    CountAboveLowerOne(factoryRoom, f, factoryRoom[f] - q, 0.0);
  }

  /** One round of the loop keeps the allocation invariant: add min(demand
      left, supplier room, factory room) to the chosen pair. */
  lemma AllocateKeeps(net: Network, marketDemand: real, a: seq<seq<real>>, remainingDemand: real, s: nat, f: nat, q: real)
    requires Allocated(net, marketDemand, a, remainingDemand) && remainingDemand > 0.0
    requires s < |net.suppliers| && f < |net.factories| && Eligible(net, a, s, f)
    requires q == Min(remainingDemand, Min(SupplierRoom(net, a)[s], FactoryRoom(net, a)[f]))
    ensures Allocated(net, marketDemand, SetCell(a, s, f, a[s][f] + q), remainingDemand - q)
  {
    AddToCell(net, a, s, f, q);
    var supplierRoom, factoryRoom := SupplierRoom(net, a), FactoryRoom(net, a);
    RoomKeptTake(supplierRoom, SupplierCapacities(net), s, q);
    RoomKeptTake(factoryRoom, FactoryCapacities(net), f, q);
    AddNonNegative(a, s, f, q);
  }

  /** Before the loop: nothing allocated, every room is its capacity. */
  lemma NothingAllocated(net: Network, marketDemand: real)
    ensures Allocated(net, marketDemand, Zeros(|net.suppliers|, |net.factories|), marketDemand)
  {
    var m, n := |net.suppliers|, |net.factories|;
    ZerosSums(m, n);
    SumConstantZero(m);
    assert RowSums(Zeros(m, n)) == seq(m, _ => 0.0);
  }

  /** What `Allocated` says about the capacities, in the program's terms. */
  lemma WithinCapacities(net: Network, marketDemand: real, a: seq<seq<real>>, remainingDemand: real)
    requires Allocated(net, marketDemand, a, remainingDemand)
    ensures forall s :: 0 <= s < |net.suppliers| ==> Sum(a[s]) <= net.suppliers[s].capacity || Sum(a[s]) == 0.0
    ensures forall f :: 0 <= f < |net.factories| ==> Sum(Column(a, f)) <= net.factories[f].capacity || Sum(Column(a, f)) == 0.0
  {
    forall s | 0 <= s < |net.suppliers|
      ensures Sum(a[s]) <= net.suppliers[s].capacity || Sum(a[s]) == 0.0
    {
      assert SupplierRoom(net, a)[s] >= 0.0 || SupplierRoom(net, a)[s] == SupplierCapacities(net)[s];
    }
    forall f | 0 <= f < |net.factories|
      ensures Sum(Column(a, f)) <= net.factories[f].capacity || Sum(Column(a, f)) == 0.0
    {
      assert FactoryRoom(net, a)[f] >= 0.0 || FactoryRoom(net, a)[f] == FactoryCapacities(net)[f];
    }
  }

  /** The state of the allocation loop: what is allocated so far and the
      demand still to place. */
  datatype Round = Round(allocation: seq<seq<real>>, remainingDemand: real)

  /** One round of the loop on pair (s, f): add min(demand left, supplier
      room, factory room) to the pair. */
  function NextRound(net: Network, a: seq<seq<real>>, remainingDemand: real, s: nat, f: nat): Round
    requires IsMatrix(a, |net.suppliers|, |net.factories|)
    requires s < |net.suppliers| && f < |net.factories|
  {
    var q := Min(remainingDemand, Min(SupplierRoom(net, a)[s], FactoryRoom(net, a)[f]));
    Round(SetCell(a, s, f, a[s][f] + q), remainingDemand - q)
  }

  /** A round on an eligible pair empties the demand, the supplier's room or
      the factory's room, so the loop's measure falls. */
  lemma NextRoundLowers(net: Network, a: seq<seq<real>>, remainingDemand: real, s: nat, f: nat)
    requires IsMatrix(a, |net.suppliers|, |net.factories|) && remainingDemand > 0.0
    requires s < |net.suppliers| && f < |net.factories| && Eligible(net, a, s, f)
    ensures var r := NextRound(net, a, remainingDemand, s, f);
      && IsMatrix(r.allocation, |net.suppliers|, |net.factories|)
      && Progress(net, r.allocation, r.remainingDemand) < Progress(net, a, remainingDemand)
  {
    var q := Min(remainingDemand, Min(SupplierRoom(net, a)[s], FactoryRoom(net, a)[f]));
    AddToCell(net, a, s, f, q);
    AllocateProgresses(net, a, remainingDemand, s, f, q);
  }

  /** A round on an eligible pair keeps `Allocated`. */
  lemma NextRoundKeeps(net: Network, marketDemand: real, a: seq<seq<real>>, remainingDemand: real, s: nat, f: nat)
    requires Allocated(net, marketDemand, a, remainingDemand) && remainingDemand > 0.0
    requires s < |net.suppliers| && f < |net.factories| && Eligible(net, a, s, f)
    ensures var r := NextRound(net, a, remainingDemand, s, f); Allocated(net, marketDemand, r.allocation, r.remainingDemand)
  {
    var q := Min(remainingDemand, Min(SupplierRoom(net, a)[s], FactoryRoom(net, a)[f]));
    AllocateKeeps(net, marketDemand, a, remainingDemand, s, f, q);
  }

  /** The `while (remainingDemand > 0)` loop of `optimizeAllocation` run to
      its end from a given state: each round is `NextRound` on the pair
      `CheapestOf` picks, and the loop stops when the demand is placed or no
      pair is eligible. */
  function Greedy(net: Network, a: seq<seq<real>>, remainingDemand: real): (r: Round)
    requires WellFormed(net) && IsMatrix(a, |net.suppliers|, |net.factories|)
    ensures IsMatrix(r.allocation, |net.suppliers|, |net.factories|)
    decreases Progress(net, a, remainingDemand)
  {
    if remainingDemand <= 0.0 then Round(a, remainingDemand)
    else
      var p := CheapestOf(net, a);
      if p.0 == -1 then Round(a, remainingDemand)
      else
        NextRoundLowers(net, a, remainingDemand, p.0, p.1);
        var next := NextRound(net, a, remainingDemand, p.0, p.1);
        Greedy(net, next.allocation, next.remainingDemand)
  }

  /** One round of `Greedy` while demand is left and `CheapestOf` picks a
      real pair (s, f): the run goes on from `NextRound` on that pair. */
  lemma GreedyUnfold(net: Network, a: seq<seq<real>>, remainingDemand: real, s: int, f: int)
    requires WellFormed(net) && IsMatrix(a, |net.suppliers|, |net.factories|) && remainingDemand > 0.0
    requires (s, f) == CheapestOf(net, a) && s != -1
    ensures 0 <= s < |net.suppliers| && 0 <= f < |net.factories| && Eligible(net, a, s, f)
    ensures var next := NextRound(net, a, remainingDemand, s, f);
      Greedy(net, a, remainingDemand) == Greedy(net, next.allocation, next.remainingDemand)
  {
  }

  /** One iteration of the loop in `optimizeAllocation`, with the rooms
      computed as the program computes them: the new state is where the
      run continues, and it is closer to the end. */
  lemma RoundStep(net: Network, a: seq<seq<real>>, remainingDemand: real, s: int, f: int, quantity: real)
    requires WellFormed(net) && IsMatrix(a, |net.suppliers|, |net.factories|) && remainingDemand > 0.0
    requires (s, f) == CheapestOf(net, a) && s != -1
    requires 0 <= s < |net.suppliers| && 0 <= f < |net.factories|
    requires quantity == Min(remainingDemand, Min(SupplierRoom(net, a)[s], FactoryRoom(net, a)[f]))
    ensures IsMatrix(SetCell(a, s, f, a[s][f] + quantity), |net.suppliers|, |net.factories|)
    ensures Greedy(net, a, remainingDemand) == Greedy(net, SetCell(a, s, f, a[s][f] + quantity), remainingDemand - quantity)
    ensures Progress(net, SetCell(a, s, f, a[s][f] + quantity), remainingDemand - quantity) < Progress(net, a, remainingDemand)
  {
    GreedyUnfold(net, a, remainingDemand, s, f);
    NextRoundLowers(net, a, remainingDemand, s, f);
  }

  /** The greedy rounds keep `Allocated`: no negative cell, no capacity
      overrun, and what is allocated plus what is left is the market
      demand. */
  lemma {:induction false} GreedyKeeps(net: Network, marketDemand: real, a: seq<seq<real>>, remainingDemand: real)
    requires WellFormed(net) && Allocated(net, marketDemand, a, remainingDemand)
    ensures var r := Greedy(net, a, remainingDemand); Allocated(net, marketDemand, r.allocation, r.remainingDemand)
    decreases Progress(net, a, remainingDemand)
  {
    if remainingDemand > 0.0 {
      var p := CheapestOf(net, a);
      if p.0 != -1 {
        GreedyUnfold(net, a, remainingDemand, p.0, p.1);
        NextRoundKeeps(net, marketDemand, a, remainingDemand, p.0, p.1);
        NextRoundLowers(net, a, remainingDemand, p.0, p.1);
        var next := NextRound(net, a, remainingDemand, p.0, p.1);
        GreedyKeeps(net, marketDemand, next.allocation, next.remainingDemand);
      }
    }
  }

  /** The run stops only once the demand is placed or no pair is eligible
      any more. */
  lemma {:induction false} GreedyEnds(net: Network, a: seq<seq<real>>, remainingDemand: real)
    requires WellFormed(net) && IsMatrix(a, |net.suppliers|, |net.factories|)
    ensures var r := Greedy(net, a, remainingDemand);
      r.remainingDemand <= 0.0 ||
      forall s, f :: 0 <= s < |net.suppliers| && 0 <= f < |net.factories| ==> !Eligible(net, r.allocation, s, f)
    decreases Progress(net, a, remainingDemand)
  {
    if remainingDemand > 0.0 {
      var p := CheapestOf(net, a);
      if p.0 == -1 {
        CheapestOfIsCheapest(net, a);
      } else {
        GreedyUnfold(net, a, remainingDemand, p.0, p.1);
        NextRoundLowers(net, a, remainingDemand, p.0, p.1);
        var next := NextRound(net, a, remainingDemand, p.0, p.1);
        GreedyEnds(net, next.allocation, next.remainingDemand);
      }
    }
  }

  /** The allocation `optimizeAllocation` returns for a market demand. */
  function GreedyAllocation(net: Network, marketDemand: real): seq<seq<real>>
    requires WellFormed(net)
  {
    Greedy(net, Zeros(|net.suppliers|, |net.factories|), marketDemand).allocation
  }

  /** The body of the `while` loop in `optimizeAllocation`: pick the pair
      with `CheapestPair`, leave the loop (`stop`) when there is none,
      otherwise add min(demand left, supplier room, factory room) to it. The
      run of `Greedy` goes on from the new state, which is closer to the
      end. */
  method AllocationRound(net: Network, allocation: seq<seq<real>>, remainingDemand: real)
    returns (allocation': seq<seq<real>>, remainingDemand': real, stop: bool)
    requires WellFormed(net) && IsMatrix(allocation, |net.suppliers|, |net.factories|) && remainingDemand > 0.0
    ensures stop <==> CheapestOf(net, allocation).0 == -1
    ensures stop ==> allocation' == allocation && remainingDemand' == remainingDemand
    ensures !stop ==>
      && IsMatrix(allocation', |net.suppliers|, |net.factories|)
      && Greedy(net, allocation, remainingDemand) == Greedy(net, allocation', remainingDemand')
      && Progress(net, allocation', remainingDemand') < Progress(net, allocation, remainingDemand)
  {
    allocation', remainingDemand', stop := allocation, remainingDemand, false;
    var bestSupplier, bestFactory := CheapestPair(net, allocation);
    if bestSupplier == -1 || bestFactory == -1 {
      stop := true;
      return;
    }
    var remainingSupply := net.suppliers[bestSupplier].capacity - Sum(allocation[bestSupplier]);
    var remainingCapacity := net.factories[bestFactory].capacity - Sum(Column(allocation, bestFactory));
    var quantity := Min(remainingDemand, Min(remainingSupply, remainingCapacity));
    assert remainingSupply == SupplierRoom(net, allocation)[bestSupplier];
    assert remainingCapacity == FactoryRoom(net, allocation)[bestFactory];
    RoundStep(net, allocation, remainingDemand, bestSupplier, bestFactory, quantity);
    allocation' := SetCell(allocation, bestSupplier, bestFactory, allocation[bestSupplier][bestFactory] + quantity);
    remainingDemand' := remainingDemand - quantity;
  }

  /** What the greedy allocation guarantees: no negative cell, no supplier
      ships and no factory receives beyond its capacity, the total never
      exceeds the market demand, and either the demand is met or no pair is
      eligible any more. */
  lemma GreedyAllocationSound(net: Network, marketDemand: real)
    requires WellFormed(net)
    ensures var a := GreedyAllocation(net, marketDemand);
      && IsMatrix(a, |net.suppliers|, |net.factories|) && NonNegative(a)
      && (forall s :: 0 <= s < |net.suppliers| ==> Sum(a[s]) <= net.suppliers[s].capacity || Sum(a[s]) == 0.0)
      && (forall f :: 0 <= f < |net.factories| ==> Sum(Column(a, f)) <= net.factories[f].capacity || Sum(Column(a, f)) == 0.0)
      && Total(a) <= (if marketDemand > 0.0 then marketDemand else 0.0)
      && (Total(a) == marketDemand || marketDemand <= 0.0 ||
          forall s, f :: 0 <= s < |net.suppliers| && 0 <= f < |net.factories| ==> !Eligible(net, a, s, f))
  {
    var zero := Zeros(|net.suppliers|, |net.factories|);
    NothingAllocated(net, marketDemand);
    GreedyKeeps(net, marketDemand, zero, marketDemand);
    GreedyEnds(net, zero, marketDemand);
    var r := Greedy(net, zero, marketDemand);
    WithinCapacities(net, marketDemand, r.allocation, r.remainingDemand);
  }

  /** `optimizeAllocation`: the allocation `GreedyAllocation` describes.
      The loop ends; no cell is negative, no supplier ships and no factory
      receives beyond its capacity, the total never exceeds the market
      demand, and either the demand is met or no pair is eligible any
      more. */
  method OptimizeAllocation(net: Network, marketDemand: real) returns (allocation: seq<seq<real>>)
    requires WellFormed(net)
    ensures allocation == GreedyAllocation(net, marketDemand)
    ensures IsMatrix(allocation, |net.suppliers|, |net.factories|) && NonNegative(allocation)
    ensures forall s :: 0 <= s < |net.suppliers| ==> Sum(allocation[s]) <= net.suppliers[s].capacity || Sum(allocation[s]) == 0.0
    ensures forall f :: 0 <= f < |net.factories| ==> Sum(Column(allocation, f)) <= net.factories[f].capacity || Sum(Column(allocation, f)) == 0.0
    ensures Total(allocation) <= if marketDemand > 0.0 then marketDemand else 0.0
    ensures Total(allocation) == marketDemand || marketDemand <= 0.0 ||
      forall s, f :: 0 <= s < |net.suppliers| && 0 <= f < |net.factories| ==> !Eligible(net, allocation, s, f)
  {
    var m, n := |net.suppliers|, |net.factories|;
    allocation := Zeros(m, n);
    var remainingDemand := marketDemand;
    ghost var run := Greedy(net, allocation, remainingDemand);
    while remainingDemand > 0.0
      invariant IsMatrix(allocation, m, n)
      invariant Greedy(net, allocation, remainingDemand) == run
      decreases Progress(net, allocation, remainingDemand)
    {
      var stop;
      allocation, remainingDemand, stop := AllocationRound(net, allocation, remainingDemand);
      if stop {
        break;
      }
    }
    assert Round(allocation, remainingDemand) == run;
    GreedyAllocationSound(net, marketDemand);
  }

  /** The figures `solveSupplyChain` reports from an allocation. */
  datatype Report = Report(totalCost: real, totalProduction: real, supplierUtilization: seq<real>, factoryUtilization: seq<real>,
                           totalRevenue: real, totalProfit: real)

  /** The combined unit cost of every pair. */
  function UnitCosts(net: Network): (c: seq<seq<real>>)
    requires WellFormed(net)
    ensures IsMatrix(c, |net.suppliers|, |net.factories|)
  {
    seq(|net.suppliers|, s requires 0 <= s < |net.suppliers| =>
      seq(|net.factories|, f requires 0 <= f < |net.factories| => UnitCost(net, s, f)))
  }

  /** The column sums of a matrix with n columns. */
  function ColumnSums(a: seq<seq<real>>, n: nat): (r: seq<real>)
    requires forall i :: 0 <= i < |a| ==> |a[i]| == n
    ensures |r| == n
  {
    seq(n, f requires 0 <= f < n => Sum(Column(a, f)))
  }

  /** Adding one row to the bottom adds its entries to the column sums. */
  lemma ColumnSumsAppend(a: seq<seq<real>>, row: seq<real>, n: nat, f: nat)
    requires forall i :: 0 <= i < |a| ==> |a[i]| == n
    requires |row| == n && f < n
    ensures Sum(Column(a + [row], f)) == Sum(Column(a, f)) + row[f]
  {
    assert Column(a + [row], f)[..|a|] == Column(a, f);
  }

  /** The sums over the first s + 1 rows are those over the first s rows
      plus row s. */
  lemma PrefixStep(a: seq<seq<real>>, c: seq<seq<real>>, n: nat, s: nat)
    requires IsMatrix(a, |a|, n) && IsMatrix(c, |a|, n) && s < |a|
    ensures Cost(a[..s + 1], c[..s + 1]) == Cost(a[..s], c[..s]) + RowCost(a[s], c[s])
    ensures Total(a[..s + 1]) == Total(a[..s]) + Sum(a[s])
    ensures ColumnSums(a[..s + 1], n) == seq(n, f requires 0 <= f < n => ColumnSums(a[..s], n)[f] + a[s][f])
  {
    assert a[..s + 1][..s] == a[..s];
    assert c[..s + 1][..s] == c[..s];
    assert RowSums(a[..s + 1])[..s] == RowSums(a[..s]);
    assert a[..s + 1] == a[..s] + [a[s]];
    forall f | 0 <= f < n
      ensures ColumnSums(a[..s + 1], n)[f] == ColumnSums(a[..s], n)[f] + a[s][f]
    {
      ColumnSumsAppend(a[..s], a[s], n, f);
    }
  }

  /** Adding row s's sum at position s turns the utilisations of the first
      s suppliers (zeros after them) into those of the first s + 1. */
  lemma UtilizationStep(a: seq<seq<real>>, m: nat, s: nat)
    requires |a| == m && s < m
    ensures RowSums(a[..s + 1]) + seq(m - s - 1, _ => 0.0) == (RowSums(a[..s]) + seq(m - s, _ => 0.0))[s := Sum(a[s])]
  {
    assert a[..s + 1][..s] == a[..s];
    assert RowSums(a[..s + 1]) == RowSums(a[..s]) + [Sum(a[s])];
  }

  /** The inner `forEach` of `solveSupplyChain` over the factories, for
      supplier s: it adds row s's cost and quantity to the totals, row s's
      sum to supplier s's utilisation, and each entry to its factory's
      utilisation. */
  method AccumulateRow(net: Network, allocation: seq<seq<real>>, s: nat,
                       totalCost: real, totalProduction: real, supplierUtilization: seq<real>, factoryUtilization: seq<real>)
    returns (cost: real, production: real, suppliers: seq<real>, factories: seq<real>)
    requires WellFormed(net) && IsMatrix(allocation, |net.suppliers|, |net.factories|) && s < |net.suppliers|
    requires |supplierUtilization| == |net.suppliers| && |factoryUtilization| == |net.factories|
    ensures cost == totalCost + RowCost(allocation[s], UnitCosts(net)[s])
    ensures production == totalProduction + Sum(allocation[s])
    ensures suppliers == supplierUtilization[s := supplierUtilization[s] + Sum(allocation[s])]
    ensures factories == seq(|net.factories|, f requires 0 <= f < |net.factories| => factoryUtilization[f] + allocation[s][f])
  {
    var n := |net.factories|;
    ghost var row, unit := allocation[s], UnitCosts(net)[s];
    cost, production, suppliers, factories := totalCost, totalProduction, supplierUtilization, factoryUtilization;
    for f := 0 to n
      invariant cost == totalCost + RowCost(row[..f], unit[..f])
      invariant production == totalProduction + Sum(row[..f])
      invariant suppliers == supplierUtilization[s := supplierUtilization[s] + Sum(row[..f])]
      invariant |factories| == n
      invariant forall f' :: 0 <= f' < n ==> factories[f'] == factoryUtilization[f'] + (if f' < f then row[f'] else 0.0)
    {
      var quantity := allocation[s][f];
      assert row[..f + 1][..f] == row[..f];
      assert unit[..f + 1][..f] == unit[..f];
      assert quantity * unit[f] == quantity * net.suppliers[s].costPerUnit + quantity * net.transport[s][f] + quantity * net.factories[f].productionCost;
      cost := cost + quantity * net.suppliers[s].costPerUnit;
      cost := cost + quantity * net.transport[s][f];
      cost := cost + quantity * net.factories[f].productionCost;
      suppliers := suppliers[s := suppliers[s] + quantity];
      factories := factories[f := factories[f] + quantity];
      production := production + quantity;
    }
    assert row[..n] == row;
    assert unit[..n] == unit;
  }

  /** The accumulating loop of `solveSupplyChain`: total cost (supplier,
      transport and production cost per unit), total production, the
      utilisation of every supplier (its row sum) and factory (its column
      sum), revenue and profit. */
  method Totals(net: Network, allocation: seq<seq<real>>, salePrice: real) returns (report: Report)
    requires WellFormed(net) && IsMatrix(allocation, |net.suppliers|, |net.factories|)
    ensures report.totalCost == Cost(allocation, UnitCosts(net))
    ensures report.totalProduction == Total(allocation)
    ensures report.supplierUtilization == RowSums(allocation)
    ensures report.factoryUtilization == ColumnSums(allocation, |net.factories|)
    ensures report.totalRevenue == report.totalProduction * salePrice
    ensures report.totalProfit == report.totalRevenue - report.totalCost
  {
    var m, n := |net.suppliers|, |net.factories|;
    ghost var costs := UnitCosts(net);
    var totalCost, totalProduction := 0.0, 0.0;
    var supplierUtilization := seq(m, _ => 0.0);
    var factoryUtilization := seq(n, _ => 0.0);
    assert factoryUtilization == ColumnSums(allocation[..0], n);
    for s := 0 to m
      invariant totalCost == Cost(allocation[..s], costs[..s])
      invariant totalProduction == Total(allocation[..s])
      invariant supplierUtilization == RowSums(allocation[..s]) + seq(m - s, _ => 0.0)
      invariant factoryUtilization == ColumnSums(allocation[..s], n)
    {
      PrefixStep(allocation, costs, n, s);
      totalCost, totalProduction, supplierUtilization, factoryUtilization :=
        AccumulateRow(net, allocation, s, totalCost, totalProduction, supplierUtilization, factoryUtilization);
      UtilizationStep(allocation, m, s);
    }
    assert allocation[..m] == allocation;
    assert costs[..m] == costs;
    var totalRevenue := totalProduction * salePrice;
    report := Report(totalCost, totalProduction, supplierUtilization, factoryUtilization, totalRevenue, totalRevenue - totalCost);
  }

  /** Sum of two sequences added entry by entry. */
  lemma {:induction false} SumPlus(x: seq<real>, y: seq<real>)
    requires |x| == |y|
    ensures Sum(seq(|x|, k requires 0 <= k < |x| => x[k] + y[k])) == Sum(x) + Sum(y)
  {
    if |x| > 0 {
      var n := |x| - 1;
      assert seq(|x|, k requires 0 <= k < |x| => x[k] + y[k])[..n] == seq(n, k requires 0 <= k < n => x[..n][k] + y[..n][k]);
      SumPlus(x[..n], y[..n]);
    }
  }

  /** Total production seen from both sides: the supplier utilisations and
      the factory utilisations both add up to the total allocated. */
  lemma {:induction false} UtilizationsAgree(a: seq<seq<real>>, n: nat)
    requires forall i :: 0 <= i < |a| ==> |a[i]| == n
    ensures Sum(ColumnSums(a, n)) == Total(a)
  {
    if a == [] {
      assert ColumnSums(a, n) == seq(n, _ => 0.0);
      SumConstantZero(n);
    } else {
      var k := |a| - 1;
      var prefix := a[..k];
      UtilizationsAgree(prefix, n);
      ColumnSumsLast(a, n);
      SumPlus(ColumnSums(prefix, n), a[k]);
      assert RowSums(a)[..k] == RowSums(prefix);
    }
  }

  /** The column sums of a matrix are those without its last row plus that row. */
  lemma ColumnSumsLast(a: seq<seq<real>>, n: nat)
    requires |a| > 0 && forall i :: 0 <= i < |a| ==> |a[i]| == n
    ensures ColumnSums(a, n) == seq(n, f requires 0 <= f < n => ColumnSums(a[..|a| - 1], n)[f] + a[|a| - 1][f])
  {
    var k := |a| - 1;
    assert a == a[..k] + [a[k]];
    forall f | 0 <= f < n
      ensures ColumnSums(a, n)[f] == ColumnSums(a[..k], n)[f] + a[k][f]
    {
      ColumnSumsAppend(a[..k], a[k], n, f);
    }
  }

  /** `solveSupplyChain` without the derived ratios. */
  method SolveSupplyChain(net: Network, marketDemand: real, salePrice: real) returns (allocation: seq<seq<real>>, report: Report)
    requires WellFormed(net)
    ensures allocation == GreedyAllocation(net, marketDemand)
    ensures IsMatrix(allocation, |net.suppliers|, |net.factories|) && NonNegative(allocation)
    ensures report.totalProduction == Total(allocation)
    ensures report.supplierUtilization == RowSums(allocation)
    ensures report.factoryUtilization == ColumnSums(allocation, |net.factories|)
    ensures report.totalProduction <= if marketDemand > 0.0 then marketDemand else 0.0
    ensures report.totalProduction == marketDemand || marketDemand <= 0.0 ||
      forall s, f :: 0 <= s < |net.suppliers| && 0 <= f < |net.factories| ==> !Eligible(net, allocation, s, f)
    ensures |report.supplierUtilization| == |net.suppliers| && |report.factoryUtilization| == |net.factories|
    ensures report.totalProduction == Sum(report.supplierUtilization) == Sum(report.factoryUtilization)
    ensures forall s :: 0 <= s < |net.suppliers| ==>
      report.supplierUtilization[s] <= net.suppliers[s].capacity || report.supplierUtilization[s] == 0.0
    ensures forall f :: 0 <= f < |net.factories| ==>
      report.factoryUtilization[f] <= net.factories[f].capacity || report.factoryUtilization[f] == 0.0
    ensures report.totalCost == Cost(allocation, UnitCosts(net))
    ensures report.totalRevenue == report.totalProduction * salePrice
    ensures report.totalProfit == report.totalRevenue - report.totalCost
  {
    allocation := OptimizeAllocation(net, marketDemand);
    report := Totals(net, allocation, salePrice);
    UtilizationsAgree(allocation, |net.factories|);
  }
}
