/** The helpers of the Django workforce views: the two-shift gap rule, the
    choice of workers for one shift, the corner-point workforce optimisation
    and the budget sensitivity solver. The database queries these helpers
    run (a worker's assignments near a date, their shift count in the week)
    are inputs here. Dates are day numbers. */
module WorkforceViews {
  import opened Numeric

  // The two-shift gap rule

  datatype ShiftType = Morning | Afternoon | Night

  /** A shift: its day and its place in the day. */
  datatype Slot = Slot(date: int, shiftType: ShiftType)

  /** `shift_order`: morning 0, afternoon 1, night 2. */
  function SlotIndex(t: ShiftType): (i: int)
    ensures 0 <= i <= 2
    ensures i == 0 <==> t == Morning
    ensures i == 2 <==> t == Night
  {
    match t
    case Morning => 0
    case Afternoon => 1
    case Night => 2
  }

  /** Shifts from `other` to `shift`: three a day plus the difference in the day. */
  function ShiftsBetween(shift: Slot, other: Slot): int
  {
    (shift.date - other.date) * 3 + (SlotIndex(shift.shiftType) - SlotIndex(other.shiftType))
  }

  /** The date range the query fetches: two days either side of the shift. */
  predicate Nearby(shift: Slot, other: Slot)
  {
    shift.date - 2 <= other.date <= shift.date + 2
  }

  predicate TooClose(shift: Slot, other: Slot)
  {
    -2 < ShiftsBetween(shift, other) < 2
  }

  /** `check_shift_gap_rule`, over the worker's assignments in any order:
      refuse as soon as one in the date range is less than two shifts away. */
  function GapRuleAllows(shift: Slot, assignments: seq<Slot>): bool
  {
    if assignments == [] then true
    else if Nearby(shift, assignments[0]) && TooClose(shift, assignments[0]) then false
    else GapRuleAllows(shift, assignments[1..])
  }

  /** The shift is allowed exactly when no assignment in the date range is
      less than two shifts away. */
  lemma {:induction false} GapRuleMeaning(shift: Slot, assignments: seq<Slot>)
    ensures GapRuleAllows(shift, assignments) <==>
              forall a :: a in assignments && Nearby(shift, a) ==> !TooClose(shift, a)
  {
    if assignments != [] {
      GapRuleMeaning(shift, assignments[1..]);
      assert forall a :: a in assignments <==> a == assignments[0] || a in assignments[1..];
    }
  }

  /** The two-day range loses nothing: an assignment less than two shifts
      away is always within it, so the rule is the same over all assignments. */
  lemma GapRuleRangeSuffices(shift: Slot, assignments: seq<Slot>)
    ensures GapRuleAllows(shift, assignments) <==> forall a :: a in assignments ==> !TooClose(shift, a)
  {
    GapRuleMeaning(shift, assignments);
  }

  /** The same shift is never allowed twice, nor the next morning after a night,
      while a morning and a night of the same day are two shifts apart and allowed. */
  lemma GapRuleExamples(d: int, assignments: seq<Slot>)
    ensures Slot(d, Morning) in assignments ==> !GapRuleAllows(Slot(d, Morning), assignments)
    ensures Slot(d - 1, Night) in assignments ==> !GapRuleAllows(Slot(d, Morning), assignments)
    ensures GapRuleAllows(Slot(d, Night), [Slot(d, Morning)])
  {
    GapRuleMeaning(Slot(d, Morning), assignments);
    assert !TooClose(Slot(d, Night), Slot(d, Morning));
  }

  // Choosing the workers for one shift

  /** A worker as the selection loop sees them: the skill level, the weekly
      cap, and two query results: the shifts they already have in the week of
      the shift and their assignments near its date. */
  datatype Candidate = Candidate(skillLevel: SkillLevel, maxShiftsPerWeek: int, weeklyShifts: int, assignments: seq<Slot>)

  /** The two choices of `Worker.skill_level`. */
  datatype SkillLevel = Skilled | SemiSkilled

  /** Neither at the weekly maximum nor against the gap rule. */
  predicate MayWork(c: Candidate, shift: Slot)
  {
    c.weeklyShifts < c.maxShiftsPerWeek && GapRuleAllows(shift, c.assignments)
  }

  predicate Qualifies(c: Candidate, shift: Slot, level: SkillLevel)
  {
    MayWork(c, shift) && c.skillLevel == level
  }

  predicate Indices(candidates: seq<Candidate>, picked: seq<nat>)
  {
    forall i :: 0 <= i < |picked| ==> picked[i] < |candidates|
  }

  /** How many of the picked candidates have the given skill level. */
  function CountLevel(candidates: seq<Candidate>, picked: seq<nat>, level: SkillLevel): (n: nat)
    requires Indices(candidates, picked)
    ensures n <= |picked|
  {
    if picked == [] then 0
    else
      CountLevel(candidates, picked[..|picked| - 1], level)
      + (if candidates[picked[|picked| - 1]].skillLevel == level then 1 else 0)
  }

  /** The invariant of the selection loop after the first `k` candidates. */
  ghost predicate Selected(shift: Slot, requiredSkilled: int, requiredSemiSkilled: int, candidates: seq<Candidate>,
                           k: nat, picked: seq<nat>, skilledNeeded: int, semiSkilledNeeded: int)
  {
    && PickedSoFar(shift, candidates, k, picked)
    && NeedsSoFar(shift, requiredSkilled, requiredSemiSkilled, candidates, k, picked, skilledNeeded, semiSkilledNeeded)
    && FirstComers(shift, candidates, picked)
  }

  /** The picks of a level are the first candidates of that level who may
      work: whoever comes before a pick and qualifies at its level is
      picked too. */
  ghost predicate FirstComers(shift: Slot, candidates: seq<Candidate>, picked: seq<nat>)
    requires Indices(candidates, picked)
  {
    forall i, j :: 0 <= i < |picked| && 0 <= j < picked[i] && Qualifies(candidates[j], shift, candidates[picked[i]].skillLevel) ==> j in picked
  }

  /** The picks are earlier candidates, in increasing order, each of whom may work. */
  ghost predicate PickedSoFar(shift: Slot, candidates: seq<Candidate>, k: nat, picked: seq<nat>)
  {
    && k <= |candidates|
    && (forall i :: 0 <= i < |picked| ==> picked[i] < k)
    && (forall i, j :: 0 <= i < j < |picked| ==> picked[i] < picked[j])
    && (forall i :: 0 <= i < |picked| ==>
          Qualifies(candidates[picked[i]], shift, Skilled) || Qualifies(candidates[picked[i]], shift, SemiSkilled))
  }

  /** The needs count down from the requirements, the picks never exceed them,
      and while a need is open every qualifying earlier candidate was taken. */
  ghost predicate NeedsSoFar(shift: Slot, requiredSkilled: int, requiredSemiSkilled: int, candidates: seq<Candidate>,
                             k: nat, picked: seq<nat>, skilledNeeded: int, semiSkilledNeeded: int)
  {
    && k <= |candidates|
    && Indices(candidates, picked)
    && skilledNeeded == requiredSkilled - CountLevel(candidates, picked, Skilled)
    && semiSkilledNeeded == requiredSemiSkilled - CountLevel(candidates, picked, SemiSkilled)
    && (CountLevel(candidates, picked, Skilled) <= if requiredSkilled < 0 then 0 else requiredSkilled)
    && (CountLevel(candidates, picked, SemiSkilled) <= if requiredSemiSkilled < 0 then 0 else requiredSemiSkilled)
    && (skilledNeeded > 0 ==> forall j :: 0 <= j < k && Qualifies(candidates[j], shift, Skilled) ==> j in picked)
    && (semiSkilledNeeded > 0 ==> forall j :: 0 <= j < k && Qualifies(candidates[j], shift, SemiSkilled) ==> j in picked)
  }

  /** Appending a qualifying candidate `k` keeps the picks in order. */
  lemma PickedExtend(shift: Slot, candidates: seq<Candidate>, k: nat, picked: seq<nat>)
    requires PickedSoFar(shift, candidates, k, picked) && k < |candidates|
    requires Qualifies(candidates[k], shift, Skilled) || Qualifies(candidates[k], shift, SemiSkilled)
    ensures PickedSoFar(shift, candidates, k + 1, picked + [k])
  {
  }

  lemma CountLevelAppend(candidates: seq<Candidate>, picked: seq<nat>, k: nat, level: SkillLevel)
    requires Indices(candidates, picked) && k < |candidates|
    ensures Indices(candidates, picked + [k])
    ensures CountLevel(candidates, picked + [k], level)
         == CountLevel(candidates, picked, level) + if candidates[k].skillLevel == level then 1 else 0
  {
    assert (picked + [k])[..|picked|] == picked;
  }

  /** Passing over candidate `k` keeps the invariant when it is not taken for a place still open. */
  lemma SelectSkip(shift: Slot, requiredSkilled: int, requiredSemiSkilled: int, candidates: seq<Candidate>,
                   k: nat, picked: seq<nat>, skilledNeeded: int, semiSkilledNeeded: int)
    requires Selected(shift, requiredSkilled, requiredSemiSkilled, candidates, k, picked, skilledNeeded, semiSkilledNeeded)
    requires k < |candidates|
    requires !(Qualifies(candidates[k], shift, Skilled) && skilledNeeded > 0)
    requires !(Qualifies(candidates[k], shift, SemiSkilled) && semiSkilledNeeded > 0)
    ensures Selected(shift, requiredSkilled, requiredSemiSkilled, candidates, k + 1, picked, skilledNeeded, semiSkilledNeeded)
  {
  }

  /** Taking candidate `k` for an open skilled place keeps the invariant. */
  lemma TakeSkilled(shift: Slot, requiredSkilled: int, requiredSemiSkilled: int, candidates: seq<Candidate>,
                    k: nat, picked: seq<nat>, skilledNeeded: int, semiSkilledNeeded: int)
    requires Selected(shift, requiredSkilled, requiredSemiSkilled, candidates, k, picked, skilledNeeded, semiSkilledNeeded)
    requires k < |candidates| && Qualifies(candidates[k], shift, Skilled) && skilledNeeded > 0
    ensures Selected(shift, requiredSkilled, requiredSemiSkilled, candidates, k + 1, picked + [k], skilledNeeded - 1, semiSkilledNeeded)
  {
    PickedExtend(shift, candidates, k, picked);
    NeedsTake(shift, requiredSkilled, requiredSemiSkilled, candidates, k, picked, skilledNeeded, semiSkilledNeeded);
  }

  /** Taking candidate `k` for an open semi-skilled place keeps the invariant. */
  lemma TakeSemiSkilled(shift: Slot, requiredSkilled: int, requiredSemiSkilled: int, candidates: seq<Candidate>,
                        k: nat, picked: seq<nat>, skilledNeeded: int, semiSkilledNeeded: int)
    requires Selected(shift, requiredSkilled, requiredSemiSkilled, candidates, k, picked, skilledNeeded, semiSkilledNeeded)
    requires k < |candidates| && Qualifies(candidates[k], shift, SemiSkilled) && semiSkilledNeeded > 0
    ensures Selected(shift, requiredSkilled, requiredSemiSkilled, candidates, k + 1, picked + [k], skilledNeeded, semiSkilledNeeded - 1)
  {
    PickedExtend(shift, candidates, k, picked);
    NeedsTake(shift, requiredSkilled, requiredSemiSkilled, candidates, k, picked, skilledNeeded, semiSkilledNeeded);
  }

  /** The needs after taking candidate `k` for an open place of its level. */
  lemma NeedsTake(shift: Slot, requiredSkilled: int, requiredSemiSkilled: int, candidates: seq<Candidate>,
                  k: nat, picked: seq<nat>, skilledNeeded: int, semiSkilledNeeded: int)
    requires NeedsSoFar(shift, requiredSkilled, requiredSemiSkilled, candidates, k, picked, skilledNeeded, semiSkilledNeeded)
    requires k < |candidates|
    requires || (Qualifies(candidates[k], shift, Skilled) && skilledNeeded > 0)
             || (Qualifies(candidates[k], shift, SemiSkilled) && semiSkilledNeeded > 0)
    ensures candidates[k].skillLevel == Skilled ==>
              NeedsSoFar(shift, requiredSkilled, requiredSemiSkilled, candidates, k + 1, picked + [k], skilledNeeded - 1, semiSkilledNeeded)
    ensures candidates[k].skillLevel == SemiSkilled ==>
              NeedsSoFar(shift, requiredSkilled, requiredSemiSkilled, candidates, k + 1, picked + [k], skilledNeeded, semiSkilledNeeded - 1)
  {
    CountLevelAppend(candidates, picked, k, Skilled);
    CountLevelAppend(candidates, picked, k, SemiSkilled);
    assert forall j :: j in picked ==> j in picked + [k];
  }

  /** The loop ends when the candidates run out or both needs reach exactly 0;
      either way every qualifying candidate of a level still short was taken. */
  lemma SelectDone(shift: Slot, requiredSkilled: int, requiredSemiSkilled: int, candidates: seq<Candidate>,
                   k: nat, picked: seq<nat>, skilledNeeded: int, semiSkilledNeeded: int)
    requires Selected(shift, requiredSkilled, requiredSemiSkilled, candidates, k, picked, skilledNeeded, semiSkilledNeeded)
    requires k == |candidates| || (skilledNeeded == 0 && semiSkilledNeeded == 0)
    ensures Indices(candidates, picked)
    ensures forall i, j :: 0 <= i < j < |picked| ==> picked[i] < picked[j]
    ensures forall i :: 0 <= i < |picked| ==>
              Qualifies(candidates[picked[i]], shift, Skilled) || Qualifies(candidates[picked[i]], shift, SemiSkilled)
    ensures CountLevel(candidates, picked, Skilled) <= if requiredSkilled < 0 then 0 else requiredSkilled
    ensures CountLevel(candidates, picked, SemiSkilled) <= if requiredSemiSkilled < 0 then 0 else requiredSemiSkilled
    ensures CountLevel(candidates, picked, Skilled) < requiredSkilled ==>
              forall j :: 0 <= j < |candidates| && Qualifies(candidates[j], shift, Skilled) ==> j in picked
    ensures CountLevel(candidates, picked, SemiSkilled) < requiredSemiSkilled ==>
              forall j :: 0 <= j < |candidates| && Qualifies(candidates[j], shift, SemiSkilled) ==> j in picked
    ensures forall i, j :: 0 <= i < |picked| && 0 <= j < picked[i] && Qualifies(candidates[j], shift, candidates[picked[i]].skillLevel) ==>
              j in picked
  {
  }

  /** One turn of the selection loop, for candidate `k`. */
  method Consider(shift: Slot, requiredSkilled: int, requiredSemiSkilled: int, candidates: seq<Candidate>,
                  k: nat, picked: seq<nat>, skilledNeeded: int, semiSkilledNeeded: int)
    returns (picked': seq<nat>, skilledNeeded': int, semiSkilledNeeded': int)
    requires Selected(shift, requiredSkilled, requiredSemiSkilled, candidates, k, picked, skilledNeeded, semiSkilledNeeded)
    requires k < |candidates|
    ensures Selected(shift, requiredSkilled, requiredSemiSkilled, candidates, k + 1, picked', skilledNeeded', semiSkilledNeeded')
  {
    picked', skilledNeeded', semiSkilledNeeded' := picked, skilledNeeded, semiSkilledNeeded;
    var c := candidates[k];
    if c.weeklyShifts >= c.maxShiftsPerWeek || !GapRuleAllows(shift, c.assignments) {
      SelectSkip(shift, requiredSkilled, requiredSemiSkilled, candidates, k, picked, skilledNeeded, semiSkilledNeeded);
      return;
    }
    if c.skillLevel == Skilled && skilledNeeded > 0 {
      TakeSkilled(shift, requiredSkilled, requiredSemiSkilled, candidates, k, picked, skilledNeeded, semiSkilledNeeded);
      picked' := picked + [k];
      skilledNeeded' := skilledNeeded - 1;
    } else if c.skillLevel == SemiSkilled && semiSkilledNeeded > 0 {
      TakeSemiSkilled(shift, requiredSkilled, requiredSemiSkilled, candidates, k, picked, skilledNeeded, semiSkilledNeeded);
      picked' := picked + [k];
      semiSkilledNeeded' := semiSkilledNeeded - 1;
    } else {
      SelectSkip(shift, requiredSkilled, requiredSemiSkilled, candidates, k, picked, skilledNeeded, semiSkilledNeeded);
    }
  }

  /** The loop of `assign_workers_to_shifts`, over the candidates in the order
      the caller sorted them: skip a worker at the weekly maximum or against
      the gap rule, take a skilled worker while skilled places remain and a
      semi-skilled worker while semi-skilled places remain, and stop once both
      needs are exactly 0. Returns the chosen positions in that order;
      `assign_workers_to_shifts` returns their number. */
  method SelectWorkers(shift: Slot, requiredSkilled: int, requiredSemiSkilled: int, candidates: seq<Candidate>)
    returns (picked: seq<nat>)
    ensures Indices(candidates, picked)
    ensures forall i, j :: 0 <= i < j < |picked| ==> picked[i] < picked[j]
    ensures forall i :: 0 <= i < |picked| ==>
              Qualifies(candidates[picked[i]], shift, Skilled) || Qualifies(candidates[picked[i]], shift, SemiSkilled)
    ensures CountLevel(candidates, picked, Skilled) <= if requiredSkilled < 0 then 0 else requiredSkilled
    ensures CountLevel(candidates, picked, SemiSkilled) <= if requiredSemiSkilled < 0 then 0 else requiredSemiSkilled
    ensures CountLevel(candidates, picked, Skilled) < requiredSkilled ==>
              forall j :: 0 <= j < |candidates| && Qualifies(candidates[j], shift, Skilled) ==> j in picked
    ensures CountLevel(candidates, picked, SemiSkilled) < requiredSemiSkilled ==>
              forall j :: 0 <= j < |candidates| && Qualifies(candidates[j], shift, SemiSkilled) ==> j in picked
    ensures forall i, j :: 0 <= i < |picked| && 0 <= j < picked[i] && Qualifies(candidates[j], shift, candidates[picked[i]].skillLevel) ==>
              j in picked
  {
    picked := [];
    var skilledNeeded := requiredSkilled;
    var semiSkilledNeeded := requiredSemiSkilled;
    var k := 0;
    while k < |candidates|
      invariant Selected(shift, requiredSkilled, requiredSemiSkilled, candidates, k, picked, skilledNeeded, semiSkilledNeeded)
    {
      picked, skilledNeeded, semiSkilledNeeded :=
        Consider(shift, requiredSkilled, requiredSemiSkilled, candidates, k, picked, skilledNeeded, semiSkilledNeeded);
      k := k + 1;
      if skilledNeeded == 0 && semiSkilledNeeded == 0 {
        break;
      }
    }
    SelectDone(shift, requiredSkilled, requiredSemiSkilled, candidates, k, picked, skilledNeeded, semiSkilledNeeded);
  }

  // The corner-point workforce optimisation

  /** `OptimizationParameters`: float costs, productions, budget and minimum
      production; integer caps. */
  datatype Parameters = Parameters(
    skilledCost: real, semiSkilledCost: real,
    skilledProduction: real, semiSkilledProduction: real,
    budget: real, minProduction: real,
    maxSkilled: int, maxSemiSkilled: int)

  /** A candidate workforce: skilled workers x, semi-skilled workers y. */
  datatype Corner = Corner(x: real, y: real)

  function Production(p: Parameters, c: Corner): real
  {
    p.skilledProduction * c.x + p.semiSkilledProduction * c.y
  }

  function Spend(p: Parameters, c: Corner): real
  {
    p.skilledCost * c.x + p.semiSkilledCost * c.y
  }

  /** The point lies on the line a·x + b·y = rhs. */
  predicate OnLine(a: real, b: real, rhs: real, c: Corner)
  {
    a * c.x + b * c.y == rhs
  }

  /** On an axis or on one of the caps x = maxX, y = maxY. */
  predicate OnEdge(c: Corner, maxX: real, maxY: real)
  {
    c.x == 0.0 || c.y == 0.0 || c.x == maxX || c.y == maxY
  }

  /** The corners a line a·x + b·y = rhs contributes, in the order
      `solve_workforce_optimization` appends them: its x-intercept when a is positive, its
      y-intercept when b is positive and, when both are, its crossings with
      x = maxX and with y = maxY that are non-negative. The budget line and
      the production line both go through this. */
  function LinePoints(a: real, b: real, rhs: real, maxX: real, maxY: real): (points: seq<Corner>)
    ensures |points| <= 4
    ensures forall c :: c in points ==> OnLine(a, b, rhs, c) && OnEdge(c, maxX, maxY)
    ensures a > 0.0 ==> Corner(rhs / a, 0.0) in points
    ensures b > 0.0 ==> Corner(0.0, rhs / b) in points
    ensures a > 0.0 && b > 0.0 && (rhs - a * maxX) / b >= 0.0 ==> Corner(maxX, (rhs - a * maxX) / b) in points
    ensures a > 0.0 && b > 0.0 && (rhs - b * maxY) / a >= 0.0 ==> Corner((rhs - b * maxY) / a, maxY) in points
    ensures a <= 0.0 && b <= 0.0 ==> points == []
  {
    var xAxis := if a > 0.0 then [Corner(rhs / a, 0.0)] else [];
    var yAxis := if b > 0.0 then [Corner(0.0, rhs / b)] else [];
    var atMaxX := if a > 0.0 && b > 0.0 && (rhs - a * maxX) / b >= 0.0 then [Corner(maxX, (rhs - a * maxX) / b)] else [];
    var atMaxY := if a > 0.0 && b > 0.0 && (rhs - b * maxY) / a >= 0.0 then [Corner((rhs - b * maxY) / a, maxY)] else [];
    xAxis + yAxis + atMaxX + atMaxY
  }

  /** The corners contributed by the budget line and then by the production line. */
  function Crossings(p: Parameters): (points: seq<Corner>)
    ensures |points| <= 8
    ensures forall c :: c in points ==>
              && OnEdge(c, p.maxSkilled as real, p.maxSemiSkilled as real)
              && (OnLine(p.skilledCost, p.semiSkilledCost, p.budget, c)
                  || OnLine(p.skilledProduction, p.semiSkilledProduction, p.minProduction, c))
    ensures forall c :: c in LinePoints(p.skilledCost, p.semiSkilledCost, p.budget, p.maxSkilled as real, p.maxSemiSkilled as real)
              ==> c in points
    ensures forall c :: c in LinePoints(p.skilledProduction, p.semiSkilledProduction, p.minProduction,
                                        p.maxSkilled as real, p.maxSemiSkilled as real)
              ==> c in points
  {
    LinePoints(p.skilledCost, p.semiSkilledCost, p.budget, p.maxSkilled as real, p.maxSemiSkilled as real)
    + LinePoints(p.skilledProduction, p.semiSkilledProduction, p.minProduction, p.maxSkilled as real, p.maxSemiSkilled as real)
  }

  /** `corner_points`: the origin, the crossings of the budget and production
      lines, and the point where both caps are reached. Every corner lies on
      an axis or a cap. */
  function CornerPoints(p: Parameters): (corners: seq<Corner>)
    ensures 2 <= |corners| <= 10
    ensures corners[0] == Corner(0.0, 0.0)
    ensures corners[|corners| - 1] == Corner(p.maxSkilled as real, p.maxSemiSkilled as real)
    ensures forall c :: c in corners ==> OnEdge(c, p.maxSkilled as real, p.maxSemiSkilled as real)
    ensures forall c :: c in corners ==>
              c == corners[0] || c == corners[|corners| - 1] || c in Crossings(p)
    ensures forall c :: c in Crossings(p) ==> c in corners
  {
    [Corner(0.0, 0.0)] + Crossings(p) + [Corner(p.maxSkilled as real, p.maxSemiSkilled as real)]
  }

  /** A corner is kept when it is non-negative, within both caps, within the
      budget and meets the minimum production. */
  predicate ValidCorner(p: Parameters, c: Corner)
  {
    && 0.0 <= c.x && 0.0 <= c.y
    && c.x <= p.maxSkilled as real && c.y <= p.maxSemiSkilled as real
    && Spend(p, c) <= p.budget
    && Production(p, c) >= p.minProduction
  }

  /** `valid_corners`: the valid corners, in order. */
  function ValidAmong(p: Parameters, corners: seq<Corner>): (valid: seq<Corner>)
    ensures |valid| <= |corners|
    ensures forall c :: c in valid <==> c in corners && ValidCorner(p, c)
  {
    Keep(corners, (c: Corner) => ValidCorner(p, c))
  }

  lemma ValidAmongAppend(p: Parameters, corners: seq<Corner>, c: Corner)
    ensures ValidAmong(p, corners + [c]) == ValidAmong(p, corners) + if ValidCorner(p, c) then [c] else []
  {
    KeepAppend(corners, c, (c: Corner) => ValidCorner(p, c));
  }

  /** The filtering loop. */
  method FilterValid(p: Parameters, corners: seq<Corner>) returns (valid: seq<Corner>)
    ensures valid == ValidAmong(p, corners)
  {
    valid := [];
    var k := 0;
    while k < |corners|
      invariant k <= |corners|
      invariant valid == ValidAmong(p, corners[..k])
    {
      var c := corners[k];
      assert corners[..k + 1] == corners[..k] + [c];
      ValidAmongAppend(p, corners[..k], c);
      if c.x < 0.0 || c.y < 0.0 {
        k := k + 1;
        continue;
      }
      if c.x > p.maxSkilled as real || c.y > p.maxSemiSkilled as real {
        k := k + 1;
        continue;
      }
      if p.skilledCost * c.x + p.semiSkilledCost * c.y > p.budget {
        k := k + 1;
        continue;
      }
      if p.skilledProduction * c.x + p.semiSkilledProduction * c.y < p.minProduction {
        k := k + 1;
        continue;
      }
      valid := valid + [c];
      k := k + 1;
    }
    assert corners[..k] == corners;
  }

  /** `valid[k]` has the largest production and every corner before it less. */
  ghost predicate FirstBest(p: Parameters, valid: seq<Corner>, k: int)
  {
    && 0 <= k < |valid|
    && (forall j :: 0 <= j < k ==> Production(p, valid[j]) < Production(p, valid[k]))
    && (forall j :: 0 <= j < |valid| ==> Production(p, valid[j]) <= Production(p, valid[k]))
  }

  /** The corner the search settles on: the first best one when its
      production is positive, otherwise the starting point (0, 0). */
  ghost predicate Chosen(p: Parameters, valid: seq<Corner>, c: Corner)
  {
    || (c == Corner(0.0, 0.0) && forall j :: 0 <= j < |valid| ==> Production(p, valid[j]) <= 0.0)
    || (exists k :: FirstBest(p, valid, k) && valid[k] == c && Production(p, c) > 0.0)
  }

  /** The search loop: keep the first corner with strictly more production,
      starting from production 0 at (0, 0). */
  method BestCorner(p: Parameters, valid: seq<Corner>) returns (best: Corner, maxProduction: real)
    ensures maxProduction >= 0.0
    ensures forall j :: 0 <= j < |valid| ==> Production(p, valid[j]) <= maxProduction
    ensures Chosen(p, valid, best)
    ensures maxProduction > 0.0 ==> Production(p, best) == maxProduction
  {
    best := Corner(0.0, 0.0);
    maxProduction := 0.0;
    ghost var at := -1;
    var k := 0;
    while k < |valid|
      invariant k <= |valid|
      invariant maxProduction >= 0.0
      invariant forall j :: 0 <= j < k ==> Production(p, valid[j]) <= maxProduction
      invariant at == -1 ==> best == Corner(0.0, 0.0) && maxProduction == 0.0
      invariant at != -1 ==> 0 <= at < k && valid[at] == best && Production(p, best) == maxProduction > 0.0
      invariant at != -1 ==> forall j :: 0 <= j < at ==> Production(p, valid[j]) < maxProduction
    {
      var c := valid[k];
      var production := p.skilledProduction * c.x + p.semiSkilledProduction * c.y;
      if production > maxProduction {
        maxProduction := production;
        best := c;
        at := k;
      }
      k := k + 1;
    }
    if at != -1 {
      assert FirstBest(p, valid, at);
    }
  }

  /** The returned figures. */
  datatype Plan = Plan(
    skilledWorkers: int, semiSkilledWorkers: int, totalWorkers: int,
    totalProduction: real, budgetUsed: real, budgetRemaining: real)

  /** `solve_workforce_optimization`: collect the corners, keep the valid
      ones, take the first with the largest positive production (else
      (0, 0)), round both coordinates half to even, fall back to both caps
      when no corner is valid, and recompute the figures from the integers. */
  method SolveWorkforceOptimization(p: Parameters) returns (plan: Plan)
    ensures ValidAmong(p, CornerPoints(p)) == [] ==>
              plan.skilledWorkers == p.maxSkilled && plan.semiSkilledWorkers == p.maxSemiSkilled
    ensures ValidAmong(p, CornerPoints(p)) != [] ==>
              exists c :: Chosen(p, ValidAmong(p, CornerPoints(p)), c)
                          && plan.skilledWorkers == PyRound(c.x) && plan.semiSkilledWorkers == PyRound(c.y)
    ensures plan.totalWorkers == plan.skilledWorkers + plan.semiSkilledWorkers
    ensures plan.totalProduction == Production(p, Corner(plan.skilledWorkers as real, plan.semiSkilledWorkers as real))
    ensures plan.budgetUsed == Spend(p, Corner(plan.skilledWorkers as real, plan.semiSkilledWorkers as real))
    ensures plan.budgetRemaining == p.budget - plan.budgetUsed
  {
    var corners := CornerPoints(p);
    var valid := FilterValid(p, corners);
    var best, maxProduction := BestCorner(p, valid);
    var bestX := PyRound(best.x);
    var bestY := PyRound(best.y);
    if valid == [] {
      bestX := p.maxSkilled;
      bestY := p.maxSemiSkilled;
    }
    var rounded := Corner(bestX as real, bestY as real);
    var production := Production(p, rounded);
    var budgetUsed := Spend(p, rounded);
    plan := Plan(bestX, bestY, bestX + bestY, production, budgetUsed, p.budget - budgetUsed);
  }

  /** What the chosen corner is, before rounding: (0, 0) when no valid corner
      produces anything, otherwise a valid corner producing at least as much
      as every valid corner. */
  lemma ChosenIsBest(p: Parameters, c: Corner)
    requires Chosen(p, ValidAmong(p, CornerPoints(p)), c)
    ensures c == Corner(0.0, 0.0) || ValidCorner(p, c)
    ensures forall v :: v in ValidAmong(p, CornerPoints(p)) ==> Production(p, v) <= Production(p, c)
  {
    ChosenBeatsAll(p, ValidAmong(p, CornerPoints(p)), c);
  }

  /** The chosen corner is (0, 0) or one of the list, and none of the list produces more. */
  lemma ChosenBeatsAll(p: Parameters, valid: seq<Corner>, c: Corner)
    requires Chosen(p, valid, c)
    ensures c == Corner(0.0, 0.0) || c in valid
    ensures forall v :: v in valid ==> Production(p, v) <= Production(p, c)
  {
    var bound := Production(p, c);
    if c == Corner(0.0, 0.0) && forall j :: 0 <= j < |valid| ==> Production(p, valid[j]) <= 0.0 {
      assert bound == 0.0;
    } else {
      var k :| FirstBest(p, valid, k) && valid[k] == c && Production(p, c) > 0.0;
    }
    assert forall j :: 0 <= j < |valid| ==> Production(p, valid[j]) <= bound;
    forall v | v in valid
      ensures Production(p, v) <= bound
    {
      var j :| 0 <= j < |valid| && valid[j] == v;
    }
  }

  // The budget sensitivity solver

  /** Python's `//` on floats: the floor of the quotient, as a float. */
  function FloorDiv(a: real, b: real): (q: real)
    requires b != 0.0
    ensures q == q.Floor as real
    ensures q <= a / b < q + 1.0
  {
    (a / b).Floor as real
  }

  /** Multiplying both sides by a positive number keeps an inequality. */
  lemma ScaleLe(x: real, y: real, b: real)
    requires x <= y && b > 0.0
    ensures b * x <= b * y
  {
    assert b * (y - x) >= 0.0;
  }

  lemma ScaleLt(x: real, y: real, b: real)
    requires x < y && b > 0.0
    ensures x * b < y * b
  {
    assert (y - x) * b > 0.0;
  }

  /** With a positive cost, a quantity at most budget / cost costs at most the budget. */
  lemma QuotientFits(quantity: real, budget: real, cost: real)
    requires cost > 0.0 && quantity <= budget / cost
    ensures cost * quantity <= budget
  {
    ScaleLe(quantity, budget / cost, cost);
    assert cost * (budget / cost) == budget;
  }

  /** With a positive cost, one more than a quantity above budget / cost - 1 does not fit. */
  lemma QuotientFull(quantity: real, budget: real, cost: real)
    requires cost > 0.0 && budget / cost < quantity + 1.0
    ensures budget < (quantity + 1.0) * cost
  {
    ScaleLt(budget / cost, quantity + 1.0, cost);
    assert budget / cost * cost == budget;
  }

  /** Spend the budget on one type first and the rest on the other:
      `min(cap, budget // cost)` of the first, then the same for the second
      out of what remains. */
  function BuyInOrder(budget: real, firstCap: real, firstCost: real, secondCap: real, secondCost: real): (bought: (real, real))
    requires firstCost != 0.0 && secondCost != 0.0
    ensures bought.0 <= firstCap && bought.1 <= secondCap
  {
    var first := Min(firstCap, FloorDiv(budget, firstCost));
    (first, Min(secondCap, FloorDiv(budget - first * firstCost, secondCost)))
  }

  /** With positive costs the two purchases fit in the budget, and the first
      type is bought up to its cap or until one more would not fit. */
  lemma BuyInOrderFits(budget: real, firstCap: real, firstCost: real, secondCap: real, secondCost: real, bought: (real, real))
    requires firstCost > 0.0 && secondCost > 0.0
    requires bought == BuyInOrder(budget, firstCap, firstCost, secondCap, secondCost)
    ensures firstCost * bought.0 + secondCost * bought.1 <= budget
    ensures bought.0 == firstCap || budget < (bought.0 + 1.0) * firstCost
  {
    QuotientFits(bought.0, budget, firstCost);
    QuotientFits(bought.1, budget - bought.0 * firstCost, secondCost);
    if bought.0 != firstCap {
      QuotientFull(bought.0, budget, firstCost);
    }
  }

  /** The greedy part of `solve_with_budget`: the type with the better
      production per cost (skilled on a tie) is bought first. */
  function Greedy(p: Parameters, budget: real): (c: Corner)
    requires p.skilledCost != 0.0 && p.semiSkilledCost != 0.0
    ensures c.x <= p.maxSkilled as real && c.y <= p.maxSemiSkilled as real
  {
    if SkilledFirst(p) then
      var bought := BuyInOrder(budget, p.maxSkilled as real, p.skilledCost, p.maxSemiSkilled as real, p.semiSkilledCost);
      Corner(bought.0, bought.1)
    else
      var bought := BuyInOrder(budget, p.maxSemiSkilled as real, p.semiSkilledCost, p.maxSkilled as real, p.skilledCost);
      Corner(bought.1, bought.0)
  }

  /** Skilled workers give at least as much production per unit of cost. */
  predicate SkilledFirst(p: Parameters)
    requires p.skilledCost != 0.0 && p.semiSkilledCost != 0.0
  {
    p.skilledProduction / p.skilledCost >= p.semiSkilledProduction / p.semiSkilledCost
  }

  /** With positive costs the greedy plan stays within the budget. */
  lemma GreedyWithinBudget(p: Parameters, budget: real)
    requires p.skilledCost > 0.0 && p.semiSkilledCost > 0.0
    ensures Spend(p, Greedy(p, budget)) <= budget
  {
    if SkilledFirst(p) {
      SkilledFirstWithinBudget(p, budget);
    } else {
      SemiSkilledFirstWithinBudget(p, budget);
    }
  }

  lemma SkilledFirstWithinBudget(p: Parameters, budget: real)
    requires p.skilledCost > 0.0 && p.semiSkilledCost > 0.0 && SkilledFirst(p)
    ensures Spend(p, Greedy(p, budget)) <= budget
  {
    var bought := BuyInOrder(budget, p.maxSkilled as real, p.skilledCost, p.maxSemiSkilled as real, p.semiSkilledCost);
    BuyInOrderFits(budget, p.maxSkilled as real, p.skilledCost, p.maxSemiSkilled as real, p.semiSkilledCost, bought);
    assert Greedy(p, budget) == Corner(bought.0, bought.1);
  }

  lemma SemiSkilledFirstWithinBudget(p: Parameters, budget: real)
    requires p.skilledCost > 0.0 && p.semiSkilledCost > 0.0 && !SkilledFirst(p)
    ensures Spend(p, Greedy(p, budget)) <= budget
  {
    var bought := BuyInOrder(budget, p.maxSemiSkilled as real, p.semiSkilledCost, p.maxSkilled as real, p.skilledCost);
    BuyInOrderFits(budget, p.maxSemiSkilled as real, p.semiSkilledCost, p.maxSkilled as real, p.skilledCost, bought);
    assert Greedy(p, budget) == Corner(bought.1, bought.0);
    assert p.skilledCost * bought.1 + p.semiSkilledCost * bought.0 <= budget;
  }

  /** The type bought first is bought up to its cap or until one more would not fit. */
  lemma GreedyFillsFirst(p: Parameters, budget: real)
    requires p.skilledCost > 0.0 && p.semiSkilledCost > 0.0
    ensures SkilledFirst(p) ==>
              Greedy(p, budget).x == p.maxSkilled as real || budget < (Greedy(p, budget).x + 1.0) * p.skilledCost
    ensures !SkilledFirst(p) ==>
              Greedy(p, budget).y == p.maxSemiSkilled as real || budget < (Greedy(p, budget).y + 1.0) * p.semiSkilledCost
  {
    if SkilledFirst(p) {
      SkilledFirstFills(p, budget);
    } else {
      SemiSkilledFirstFills(p, budget);
    }
  }

  lemma SkilledFirstFills(p: Parameters, budget: real)
    requires p.skilledCost > 0.0 && p.semiSkilledCost > 0.0 && SkilledFirst(p)
    ensures Greedy(p, budget).x == p.maxSkilled as real || budget < (Greedy(p, budget).x + 1.0) * p.skilledCost
  {
    var bought := BuyInOrder(budget, p.maxSkilled as real, p.skilledCost, p.maxSemiSkilled as real, p.semiSkilledCost);
    BuyInOrderFits(budget, p.maxSkilled as real, p.skilledCost, p.maxSemiSkilled as real, p.semiSkilledCost, bought);
    assert Greedy(p, budget).x == bought.0;
  }

  lemma SemiSkilledFirstFills(p: Parameters, budget: real)
    requires p.skilledCost > 0.0 && p.semiSkilledCost > 0.0 && !SkilledFirst(p)
    ensures Greedy(p, budget).y == p.maxSemiSkilled as real || budget < (Greedy(p, budget).y + 1.0) * p.semiSkilledCost
  {
    var bought := BuyInOrder(budget, p.maxSemiSkilled as real, p.semiSkilledCost, p.maxSkilled as real, p.skilledCost);
    BuyInOrderFits(budget, p.maxSemiSkilled as real, p.semiSkilledCost, p.maxSkilled as real, p.skilledCost, bought);
    assert Greedy(p, budget).y == bought.0;
  }

  /** The plan the fallback loop tries for `s` skilled workers: as many
      semi-skilled workers as the rest of the budget and the cap allow. */
  function Attempt(p: Parameters, budget: real, s: int): Corner
    requires p.semiSkilledCost != 0.0
  {
    Corner(s as real, Min(p.maxSemiSkilled as real, FloorDiv(budget - s as real * p.skilledCost, p.semiSkilledCost)))
  }

  /** With positive costs every attempt stays within the budget. */
  lemma AttemptWithinBudget(p: Parameters, budget: real, s: int)
    requires p.skilledCost > 0.0 && p.semiSkilledCost > 0.0
    ensures Spend(p, Attempt(p, budget, s)) <= budget
  {
    var attempt := Attempt(p, budget, s);
    QuotientFits(attempt.y, budget - s as real * p.skilledCost, p.semiSkilledCost);
  }

  /** Attempt `s` is the first of `0 .. count - 1` meeting the minimum with the largest production. */
  ghost predicate FirstBestAttempt(p: Parameters, budget: real, count: int, s: int)
    requires p.semiSkilledCost != 0.0
  {
    && 0 <= s < count
    && Production(p, Attempt(p, budget, s)) >= p.minProduction
    && (forall t :: 0 <= t < s && Production(p, Attempt(p, budget, t)) >= p.minProduction ==>
          Production(p, Attempt(p, budget, t)) < Production(p, Attempt(p, budget, s)))
    && (forall t :: 0 <= t < count && Production(p, Attempt(p, budget, t)) >= p.minProduction ==>
          Production(p, Attempt(p, budget, t)) <= Production(p, Attempt(p, budget, s)))
  }

  /** The fallback loop over `s` in `range(count)`: keep the first attempt
      with production at least the minimum and strictly above the best so
      far, starting from 0 workers and production 0. */
  method SearchAttempts(p: Parameters, budget: real, count: int) returns (best: Corner, bestProduction: real)
    requires p.semiSkilledCost != 0.0
    ensures bestProduction >= 0.0
    ensures forall t :: 0 <= t < count && Production(p, Attempt(p, budget, t)) >= p.minProduction ==>
              Production(p, Attempt(p, budget, t)) <= bestProduction
    ensures bestProduction == 0.0 ==> best == Corner(0.0, 0.0)
    ensures bestProduction > 0.0 ==>
              exists s :: FirstBestAttempt(p, budget, count, s) && best == Attempt(p, budget, s)
                          && bestProduction == Production(p, best)
  {
    best := Corner(0.0, 0.0);
    bestProduction := 0.0;
    ghost var at := -1;
    var s := 0;
    while s < count
      invariant 0 <= s || count <= 0
      invariant bestProduction >= 0.0
      invariant forall t :: 0 <= t < s && t < count && Production(p, Attempt(p, budget, t)) >= p.minProduction ==>
                  Production(p, Attempt(p, budget, t)) <= bestProduction
      invariant at == -1 ==> best == Corner(0.0, 0.0) && bestProduction == 0.0
      invariant at != -1 ==> 0 <= at < s && at < count && best == Attempt(p, budget, at)
                             && bestProduction == Production(p, best) > 0.0 && bestProduction >= p.minProduction
      invariant at != -1 ==> forall t :: 0 <= t < at && Production(p, Attempt(p, budget, t)) >= p.minProduction ==>
                               Production(p, Attempt(p, budget, t)) < bestProduction
      decreases count - s
    {
      var attempt := Attempt(p, budget, s);
      var prod := Production(p, attempt);
      if prod >= p.minProduction && prod > bestProduction {
        bestProduction := prod;
        best := attempt;
        at := s;
      }
      s := s + 1;
    }
    if at != -1 {
      assert FirstBestAttempt(p, budget, count, at);
    }
  }

  datatype Failure = ZeroDivisionError | TypeError

  datatype Outcome = Failed(failure: Failure) | Solved(skilled: real, semiSkilled: real, production: real)

  /** `solve_with_budget`. The efficiency ratios divide by both costs, so a
      zero cost raises. The greedy plan is returned when it meets the minimum
      production; otherwise the fallback runs over
      `range(min(max_skilled + 1, budget // skilled_cost + 1))`, and `min`
      hands `range` the float (a TypeError) whenever `budget // skilled_cost`
      is below the cap. */
  method SolveWithBudget(p: Parameters, budget: real) returns (r: Outcome)
    ensures r == Failed(ZeroDivisionError) <==> p.skilledCost == 0.0 || p.semiSkilledCost == 0.0
    ensures r == Failed(TypeError) <==>
              && p.skilledCost != 0.0 && p.semiSkilledCost != 0.0
              && Production(p, Greedy(p, budget)) < p.minProduction
              && FloorDiv(budget, p.skilledCost) < p.maxSkilled as real
    ensures r.Solved? && Production(p, Greedy(p, budget)) >= p.minProduction ==>
              r == Solved(Greedy(p, budget).x, Greedy(p, budget).y, Production(p, Greedy(p, budget)))
    ensures r.Solved? && Production(p, Greedy(p, budget)) < p.minProduction ==>
              || (r == Solved(0.0, 0.0, 0.0)
                  && forall t :: 0 <= t <= p.maxSkilled ==>
                       Production(p, Attempt(p, budget, t)) < p.minProduction || Production(p, Attempt(p, budget, t)) <= 0.0)
              || exists s :: FirstBestAttempt(p, budget, p.maxSkilled + 1, s)
                             && r == Solved(s as real, Attempt(p, budget, s).y, Production(p, Attempt(p, budget, s)))
                             && r.production > 0.0
    ensures r.Solved? && p.skilledCost > 0.0 && p.semiSkilledCost > 0.0 ==>
              Spend(p, Corner(r.skilled, r.semiSkilled)) <= budget || r == Solved(0.0, 0.0, 0.0)
  {
    if p.skilledCost == 0.0 || p.semiSkilledCost == 0.0 {
      return Failed(ZeroDivisionError);
    }
    var greedy := Greedy(p, budget);
    var production := Production(p, greedy);
    if production < p.minProduction {
      if FloorDiv(budget, p.skilledCost) + 1.0 < p.maxSkilled as real + 1.0 {
        return Failed(TypeError);
      }
      var best, bestProduction := SearchAttempts(p, budget, p.maxSkilled + 1);
      r := Solved(best.x, best.y, if bestProduction > 0.0 then bestProduction else 0.0);
      if p.skilledCost > 0.0 && p.semiSkilledCost > 0.0 {
        if bestProduction > 0.0 {
          ghost var s :| FirstBestAttempt(p, budget, p.maxSkilled + 1, s) && best == Attempt(p, budget, s)
                   && bestProduction == Production(p, best);
          AttemptWithinBudget(p, budget, s);
        }
      }
      return;
    }
    if p.skilledCost > 0.0 && p.semiSkilledCost > 0.0 {
      GreedyWithinBudget(p, budget);
    }
    r := Solved(greedy.x, greedy.y, production);
  }
}
