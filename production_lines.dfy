/** The production-line page (src/pages/ProductionLines.tsx): lines with a
    minimum and maximum head count, a production rate and a priority; a
    worker pool distributed by giving every line its minimum and then
    handing out the rest one worker per line per pass, in priority order. */
module ProductionLines {
  import opened Numeric

  /** A production line as entered; worker counts come from `parseInt`. */
  datatype Line = Line(id: int, name: string, minWorkers: int, optimalWorkers: int, maxWorkers: int,
                       skilledRatio: real, productionRate: real, priority: string)

  /** A line together with the number of workers given to it. */
  datatype Staffed = Staffed(line: Line, allocatedWorkers: int)

  /** `getPriorityValue`: High 3, Medium 2, Low 1, and 1 for anything else. */
  function PriorityValue(priority: string): (v: int)
    ensures 1 <= v <= 3
    ensures v == 3 <==> priority == "High"
    ensures v == 2 <==> priority == "Medium"
  {
    match priority
    case "High" => 3
    case "Medium" => 2
    case "Low" => 1
    case _ => 1
  }

  /** Line a sorts strictly before line b: higher priority, or the same
      priority and a higher production rate. */
  predicate Ahead(a: Line, b: Line)
  {
    PriorityValue(a.priority) > PriorityValue(b.priority)
    || (PriorityValue(a.priority) == PriorityValue(b.priority) && a.productionRate > b.productionRate)
  }

  /** No line is ahead of a line placed before it. */
  predicate Sorted(s: seq<Staffed>)
  {
    forall i, j :: 0 <= i < j < |s| ==> !Ahead(s[j].line, s[i].line)
  }

  /** Puts x in front of the first entry it is not behind, so that x stays
      before the entries it ties with. */
  function Insert(x: Staffed, s: seq<Staffed>): seq<Staffed>
  {
    if s == [] || !Ahead(s[0].line, x.line) then [x] + s else [s[0]] + Insert(x, s[1..])
  }

  /** The stable sort `[...optimized].sort(...)` with the comparator of
      lines 110-114, as an insertion sort. */
  function SortByPriority(s: seq<Staffed>): seq<Staffed>
  {
    if s == [] then [] else Insert(s[0], SortByPriority(s[1..]))
  }

  lemma {:induction false} InsertPermutes(x: Staffed, s: seq<Staffed>)
    ensures multiset(Insert(x, s)) == multiset(s) + multiset{x}
  {
    if s != [] && Ahead(s[0].line, x.line) {
      InsertPermutes(x, s[1..]);
      assert s == [s[0]] + s[1..];
    }
  }

  lemma {:induction false} InsertSorted(x: Staffed, s: seq<Staffed>)
    requires Sorted(s)
    ensures Sorted(Insert(x, s))
  {
    if s != [] && Ahead(s[0].line, x.line) {
      InsertSorted(x, s[1..]);
      InsertPermutes(x, s[1..]);
      var r := Insert(x, s[1..]);
      forall k | 0 <= k < |r|
        ensures !Ahead(r[k].line, s[0].line)
      {
        assert r[k] in multiset(s[1..]) + multiset{x};
        if r[k] != x {
          assert r[k] in s[1..];
        }
      }
    }
  }

  /** The sort orders the lines by priority, then production rate, both
      descending, and keeps every line exactly once. */
  lemma {:induction false} SortByPriorityCorrect(s: seq<Staffed>)
    ensures Sorted(SortByPriority(s))
    ensures multiset(SortByPriority(s)) == multiset(s)
  {
    if s != [] {
      SortByPriorityCorrect(s[1..]);
      InsertSorted(s[0], SortByPriority(s[1..]));
      InsertPermutes(s[0], SortByPriority(s[1..]));
      assert s == [s[0]] + s[1..];
    }
  }

  /** Workers given out in total. */
  function Staffing(s: seq<Staffed>): int
  {
    if s == [] then 0 else s[0].allocatedWorkers + Staffing(s[1..])
  }

  lemma {:induction false} StaffingInsert(x: Staffed, s: seq<Staffed>)
    ensures Staffing(Insert(x, s)) == x.allocatedWorkers + Staffing(s)
  {
    if s != [] && Ahead(s[0].line, x.line) {
      StaffingInsert(x, s[1..]);
    }
  }

  lemma {:induction false} StaffingSort(s: seq<Staffed>)
    ensures Staffing(SortByPriority(s)) == Staffing(s)
  {
    if s != [] {
      StaffingSort(s[1..]);
      StaffingInsert(s[0], SortByPriority(s[1..]));
    }
  }

  lemma {:induction false} StaffingUpdate(s: seq<Staffed>, k: nat, v: int)
    requires k < |s|
    ensures Staffing(s[k := s[k].(allocatedWorkers := v)]) == Staffing(s) - s[k].allocatedWorkers + v
  {
    if k > 0 {
      assert s[k := s[k].(allocatedWorkers := v)][1..] == s[1..][k - 1 := s[k].(allocatedWorkers := v)];
      StaffingUpdate(s[1..], k - 1, v);
    }
  }

  /** `productionLines.reduce((sum, line) => sum + line.minWorkers, 0)`. */
  function MinimumTotal(lines: seq<Line>): int
  {
    if lines == [] then 0 else lines[0].minWorkers + MinimumTotal(lines[1..])
  }

  /** Every line at its minimum (lines 102-105). */
  function AtMinimum(lines: seq<Line>): (s: seq<Staffed>)
    ensures |s| == |lines|
    ensures forall k :: 0 <= k < |s| ==> s[k] == Staffed(lines[k], lines[k].minWorkers)
  {
    if lines == [] then [] else [Staffed(lines[0], lines[0].minWorkers)] + AtMinimum(lines[1..])
  }

  lemma {:induction false} StaffingAtMinimum(lines: seq<Line>)
    ensures Staffing(AtMinimum(lines)) == MinimumTotal(lines)
  {
    if lines != [] {
      StaffingAtMinimum(lines[1..]);
    }
  }

  /** How many workers a line can take beyond its minimum. */
  function Headroom(line: Line): (h: nat)
    ensures line.minWorkers + h <= line.maxWorkers || h == 0
  {
    if line.maxWorkers > line.minWorkers then line.maxWorkers - line.minWorkers else 0
  }

  function Extra(x: Staffed): int
  {
    x.allocatedWorkers - x.line.minWorkers
  }

  /** The state after `passes` full passes and a partial pass that reached
      the lines before `cut`: every line has had one worker per pass, up to
      its headroom. */
  ghost predicate Passes(s: seq<Staffed>, passes: nat, cut: nat)
  {
    forall k :: 0 <= k < |s| ==> Extra(s[k]) == MinInt(passes + (if k < cut then 1 else 0), Headroom(s[k].line))
  }

  /** What the pass structure implies: a line still below its maximum is at
      most one worker behind any other line, and has at least as many extra
      workers as every line after it. */
  lemma PassesFair(s: seq<Staffed>, passes: nat, cut: nat)
    requires Passes(s, passes, cut)
    ensures forall i, j :: 0 <= i < |s| && 0 <= j < |s| && s[j].allocatedWorkers < s[j].line.maxWorkers ==> Extra(s[i]) <= Extra(s[j]) + 1
    ensures forall i, j :: 0 <= i < j < |s| && s[i].allocatedWorkers < s[i].line.maxWorkers ==> Extra(s[j]) <= Extra(s[i])
  {
  }

  /** One worker to line k. */
  function GiveWorker(s: seq<Staffed>, k: nat): seq<Staffed>
    requires k < |s|
  {
    s[k := s[k].(allocatedWorkers := s[k].allocatedWorkers + 1)]
  }

  /** A line below its maximum, reached in the pass, takes one worker. */
  lemma PassGive(s: seq<Staffed>, passes: nat, k: nat)
    requires k < |s| && Passes(s, passes, k) && s[k].allocatedWorkers < s[k].line.maxWorkers
    ensures Passes(GiveWorker(s, k), passes, k + 1)
  {
    var t := GiveWorker(s, k);
    forall k' | 0 <= k' < |t|
      ensures Extra(t[k']) == MinInt(passes + (if k' < k + 1 then 1 else 0), Headroom(t[k'].line))
    {
      if k' != k {
        assert t[k'] == s[k'];
      }
    }
  }

  /** Giving a worker changes no line and raises the staffing by one. */
  lemma GiveCounts(s: seq<Staffed>, k: nat)
    requires k < |s|
    ensures Lines(GiveWorker(s, k)) == Lines(s)
    ensures Staffing(GiveWorker(s, k)) == Staffing(s) + 1
  {
    StaffingUpdate(s, k, s[k].allocatedWorkers + 1);
  }

  /** A line at its maximum, reached in the pass, has no headroom beyond
      the passes so far. */
  lemma PassSkip(s: seq<Staffed>, passes: nat, k: nat)
    requires k < |s| && Passes(s, passes, k) && s[k].allocatedWorkers >= s[k].line.maxWorkers
    ensures Passes(s, passes, k + 1) && Headroom(s[k].line) <= passes
  {
    assert Extra(s[k]) == MinInt(passes, Headroom(s[k].line));
  }

  /** A pass that reached every line is one more full pass. */
  lemma PassDone(s: seq<Staffed>, passes: nat)
    requires Passes(s, passes, |s|)
    ensures Passes(s, passes + 1, 0)
  {
  }

  /** A pass that gave no worker found every line without headroom beyond
      the passes so far: every line is at its maximum. */
  lemma AllFull(s: seq<Staffed>, passes: nat, cut: nat)
    requires Passes(s, passes, cut)
    requires forall k :: 0 <= k < |s| ==> Headroom(s[k].line) <= passes
    ensures forall k :: 0 <= k < |s| ==> s[k].allocatedWorkers >= s[k].line.maxWorkers
  {
  }

  /** Every line has at least its minimum, and more only up to its maximum. */
  lemma PassesBounds(s: seq<Staffed>, passes: nat, cut: nat)
    requires Passes(s, passes, cut)
    ensures forall k :: 0 <= k < |s| ==> s[k].line.minWorkers <= s[k].allocatedWorkers
    ensures forall k :: 0 <= k < |s| ==> s[k].allocatedWorkers <= s[k].line.maxWorkers || s[k].allocatedWorkers == s[k].line.minWorkers
  {
  }

  datatype Optimization = NoLines | TooFewWorkers | Optimized(staffed: seq<Staffed>)

  function Lines(s: seq<Staffed>): (r: seq<Line>)
    ensures |r| == |s| && forall k :: 0 <= k < |s| ==> r[k] == s[k].line
  {
    if s == [] then [] else [s[0].line] + Lines(s[1..])
  }

  /** The sorted lines at their minimum: every entry is some line at its
      minimum, extra 0, and in no pass yet. */
  lemma SortedStart(lines: seq<Line>)
    ensures Passes(SortByPriority(AtMinimum(lines)), 0, 0)
    ensures Staffing(SortByPriority(AtMinimum(lines))) == MinimumTotal(lines)
  {
    var s := SortByPriority(AtMinimum(lines));
    SortByPriorityCorrect(AtMinimum(lines));
    forall k | 0 <= k < |s|
      ensures Extra(s[k]) == 0
    {
      assert s[k] in multiset(AtMinimum(lines));
      assert s[k] in AtMinimum(lines);
    }
    StaffingSort(AtMinimum(lines));
    StaffingAtMinimum(lines);
  }

  /** `optimizeWorkerAllocation`. It rejects an empty line list and a pool
      smaller than the sum of the minimums. Otherwise every line gets its
      minimum, the lines are sorted by priority, then production rate, and
      the rest of the pool is handed out in passes over the sorted list,
      one worker per line per pass to lines still below their maximum. */
  method OptimizeWorkerAllocation(lines: seq<Line>, totalWorkers: int) returns (result: Optimization)
    ensures lines == [] <==> result == NoLines
    ensures result == TooFewWorkers <==> lines != [] && totalWorkers < MinimumTotal(lines)
    ensures result.Optimized? ==>
      var s := result.staffed;
      && Lines(s) == Lines(SortByPriority(AtMinimum(lines)))
      && (forall k :: 0 <= k < |s| ==> s[k].line.minWorkers <= s[k].allocatedWorkers)
      && (forall k :: 0 <= k < |s| ==> s[k].allocatedWorkers <= s[k].line.maxWorkers || s[k].allocatedWorkers == s[k].line.minWorkers)
      && Staffing(s) <= totalWorkers
      && (Staffing(s) == totalWorkers || forall k :: 0 <= k < |s| ==> s[k].allocatedWorkers >= s[k].line.maxWorkers)
      && (forall i, j :: 0 <= i < |s| && 0 <= j < |s| && s[j].allocatedWorkers < s[j].line.maxWorkers ==> Extra(s[i]) <= Extra(s[j]) + 1)
      && (forall i, j :: 0 <= i < j < |s| && s[i].allocatedWorkers < s[i].line.maxWorkers ==> Extra(s[j]) <= Extra(s[i]))
  {
    if |lines| == 0 {
      return NoLines;
    }
    if totalWorkers < MinimumTotal(lines) {
      return TooFewWorkers;
    }
    var remainingWorkers := totalWorkers;
    var optimized := AtMinimum(lines);
    remainingWorkers := remainingWorkers - MinimumTotal(lines);
    var sortedLines := SortByPriority(optimized);
    SortedStart(lines);
    ghost var order := Lines(sortedLines);
    ghost var passes, cut := 0, 0;
    while remainingWorkers > 0
      invariant Lines(sortedLines) == order
      invariant Passes(sortedLines, passes, cut)
      invariant remainingWorkers > 0 ==> cut == 0
      invariant remainingWorkers >= 0 && Staffing(sortedLines) + remainingWorkers == totalWorkers
      decreases remainingWorkers
    {
      var workersAllocated;
      sortedLines, remainingWorkers, workersAllocated, cut := DistributePass(sortedLines, remainingWorkers, passes);
      if !workersAllocated {
        AllFull(sortedLines, passes, cut);
        break;
      }
      if remainingWorkers > 0 {
        PassDone(sortedLines, passes);
        passes, cut := passes + 1, 0;
      }
    }
    PassesBounds(sortedLines, passes, cut);
    PassesFair(sortedLines, passes, cut);
    result := Optimized(sortedLines);
  }

  /** One pass of the `for` loop over the sorted lines: each line below its
      maximum takes one worker while workers remain. The pass reports
      whether it gave any worker; one that gave none found every line
      without headroom beyond the passes so far. */
  method DistributePass(lines: seq<Staffed>, remainingWorkers: int, ghost passes: nat)
    returns (staffed: seq<Staffed>, remaining: int, workersAllocated: bool, ghost cut: nat)
    requires remainingWorkers > 0 && Passes(lines, passes, 0)
    ensures Lines(staffed) == Lines(lines)
    ensures 0 <= remaining && Staffing(staffed) + remaining == Staffing(lines) + remainingWorkers
    ensures Passes(staffed, passes, cut) && (remaining > 0 ==> cut == |lines|)
    ensures workersAllocated <==> remaining < remainingWorkers
    ensures !workersAllocated ==> forall k :: 0 <= k < |lines| ==> Headroom(lines[k].line) <= passes
  {
    staffed, remaining, workersAllocated, cut := lines, remainingWorkers, false, 0;
    for k := 0 to |lines|
      invariant Lines(staffed) == Lines(lines)
      invariant cut <= k && (remaining > 0 ==> cut == k)
      invariant Passes(staffed, passes, cut)
      invariant remaining >= 0 && Staffing(staffed) + remaining == Staffing(lines) + remainingWorkers
      invariant workersAllocated <==> remaining < remainingWorkers
      invariant !workersAllocated ==> staffed == lines && forall k' :: 0 <= k' < k ==> Headroom(lines[k'].line) <= passes
    {
      if remaining > 0 && staffed[k].allocatedWorkers < staffed[k].line.maxWorkers {
        PassGive(staffed, passes, k);
        GiveCounts(staffed, k);
        staffed := GiveWorker(staffed, k);
        remaining := remaining - 1;
        workersAllocated := true;
        cut := k + 1;
      } else if remaining > 0 {
        PassSkip(staffed, passes, k);
        cut := k + 1;
      }
    }
  }

  /** The fields of the new-line form. */
  datatype Draft = Draft(name: string, minWorkers: int, optimalWorkers: int, maxWorkers: int,
                         skilledRatio: real, productionRate: real, priority: string)

  /** `addProductionLine`: an empty name is refused; otherwise the line is
      appended with id one more than the number of lines. */
  function AddProductionLine(lines: seq<Line>, draft: Draft): (r: Option<seq<Line>>)
    ensures r.None? <==> draft.name == ""
    ensures r.Some? ==> |r.value| == |lines| + 1 && r.value[..|lines|] == lines
    ensures r.Some? ==> r.value[|lines|] == Line(|lines| + 1, draft.name, draft.minWorkers, draft.optimalWorkers, draft.maxWorkers,
                                                 draft.skilledRatio, draft.productionRate, draft.priority)
  {
    if draft.name == "" then None
    else Some(lines + [Line(|lines| + 1, draft.name, draft.minWorkers, draft.optimalWorkers, draft.maxWorkers,
                            draft.skilledRatio, draft.productionRate, draft.priority)])
  }

  /** Lines are numbered 1, 2, 3, ... in the order they were added. */
  predicate Numbered(lines: seq<Line>)
  {
    forall k :: 0 <= k < |lines| ==> lines[k].id == k + 1
  }

  /** Since lines are only ever appended, the ids stay 1..n and distinct. */
  lemma AddKeepsNumbering(lines: seq<Line>, draft: Draft)
    requires Numbered(lines)
    ensures AddProductionLine(lines, draft).Some? ==> Numbered(AddProductionLine(lines, draft).value)
    ensures AddProductionLine(lines, draft).Some? ==>
      forall i, j :: 0 <= i < j < |lines| + 1 ==> AddProductionLine(lines, draft).value[i].id != AddProductionLine(lines, draft).value[j].id
  {
  }
}
