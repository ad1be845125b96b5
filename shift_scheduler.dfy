/** The weekly shift scheduler (src/pages/WorkforceShiftScheduler.tsx): the
    worker and shift lists with their add and remove operations, the skill
    picker of the new-worker form, and the generation of a seven-day
    schedule that fills every shift with workers who still have 8 hours
    left in their weekly maximum. */
module ShiftScheduler {
  import opened Numeric

  datatype Worker = Worker(id: int, name: string, skills: seq<string>, maxHoursPerWeek: int, assignedHours: int)

  datatype Shift = Shift(id: int, name: string, startTime: string, endTime: string, requiredWorkers: int, assignedWorkers: seq<string>)

  // The skill picker

  /** `removeSkill`: drop every occurrence of the skill. */
  function RemoveSkill(skills: seq<string>, skill: string): (r: seq<string>)
    ensures skill !in r
    ensures forall s :: s != skill ==> (s in r <==> s in skills)
  {
    Keep(skills, s => s != skill)
  }

  /** `toggleSkill`: a present skill is removed (every occurrence), an
      absent one appended. */
  function ToggleSkill(skills: seq<string>, skill: string): (r: seq<string>)
    ensures skill in r <==> skill !in skills
    ensures forall s :: s != skill ==> (s in r <==> s in skills)
  {
    if skill in skills then RemoveSkill(skills, skill) else skills + [skill]
  }

  /** Toggling a skill that was not picked, twice, gives back the list. */
  lemma ToggleTwice(skills: seq<string>, skill: string)
    requires skill !in skills
    ensures ToggleSkill(ToggleSkill(skills, skill), skill) == skills
  {
    assert (skills + [skill])[..|skills|] == skills;
    KeepAfterAppend(skills, skill);
  }

  lemma {:induction false} KeepAfterAppend(skills: seq<string>, skill: string)
    requires skill !in skills
    ensures Keep(skills + [skill], s => s != skill) == skills
  {
    if skills == [] {
    } else {
      assert (skills + [skill])[1..] == skills[1..] + [skill];
      KeepAfterAppend(skills[1..], skill);
      assert skills == [skills[0]] + skills[1..];
    }
  }

  /** Removing a skill twice is removing it once. */
  lemma RemoveSkillIdempotent(skills: seq<string>, skill: string)
    ensures RemoveSkill(RemoveSkill(skills, skill), skill) == RemoveSkill(skills, skill)
  {
    KeepAll(RemoveSkill(skills, skill), s => s != skill);
  }

  // Workers and shifts

  /** The fields of the new-worker form. */
  datatype WorkerDraft = WorkerDraft(name: string, skills: seq<string>, maxHoursPerWeek: int)

  /** `addWorker`: an empty name or an empty skill list is refused;
      otherwise the worker is appended with id one more than the number of
      workers and no hours. */
  function AddWorker(workers: seq<Worker>, draft: WorkerDraft): (r: Option<seq<Worker>>)
    ensures r.None? <==> draft.name == "" || draft.skills == []
    ensures r.Some? ==> r.value == workers + [Worker(|workers| + 1, draft.name, draft.skills, draft.maxHoursPerWeek, 0)]
  {
    if draft.name == "" then None
    else if |draft.skills| == 0 then None
    else Some(workers + [Worker(|workers| + 1, draft.name, draft.skills, draft.maxHoursPerWeek, 0)])
  }

  /** `removeWorker`: drop the workers with the id, keep the rest in order. */
  function RemoveWorker(workers: seq<Worker>, id: int): (r: seq<Worker>)
    ensures forall w :: w in r <==> w in workers && w.id != id
  {
    Keep(workers, (w: Worker) => w.id != id)
  }

  /** Removal keeps the order of the rest: removing from a list extended by
      one worker extends the removal by that worker unless it has the id.
      With `RemoveWorker([], id) == []` this determines the result. */
  lemma RemoveWorkerAppend(workers: seq<Worker>, w: Worker, id: int)
    ensures RemoveWorker([], id) == []
    ensures RemoveWorker(workers + [w], id) == RemoveWorker(workers, id) + (if w.id == id then [] else [w])
  {
    KeepAppend(workers, w, (w: Worker) => w.id != id);
  }

  /** Removing an id no worker has changes nothing. */
  lemma RemoveAbsentWorker(workers: seq<Worker>, id: int)
    requires forall w :: w in workers ==> w.id != id
    ensures RemoveWorker(workers, id) == workers
  {
    KeepAll(workers, (w: Worker) => w.id != id);
  }

  /** The fields of the new-shift form. */
  datatype ShiftDraft = ShiftDraft(name: string, startTime: string, endTime: string, requiredWorkers: int)

  /** `addShift`: an empty name, start or end time is refused; otherwise the
      shift is appended with id one more than the number of shifts and
      nobody assigned. */
  function AddShift(shifts: seq<Shift>, draft: ShiftDraft): (r: Option<seq<Shift>>)
    ensures r.None? <==> draft.name == "" || draft.startTime == "" || draft.endTime == ""
    ensures r.Some? ==> r.value == shifts + [Shift(|shifts| + 1, draft.name, draft.startTime, draft.endTime, draft.requiredWorkers, [])]
  {
    if draft.name == "" || draft.startTime == "" || draft.endTime == "" then None
    else Some(shifts + [Shift(|shifts| + 1, draft.name, draft.startTime, draft.endTime, draft.requiredWorkers, [])])
  }

  /** `removeShift`: drop the shifts with the id, keep the rest in order. */
  function RemoveShift(shifts: seq<Shift>, id: int): (r: seq<Shift>)
    ensures forall s :: s in r <==> s in shifts && s.id != id
  {
    Keep(shifts, (s: Shift) => s.id != id)
  }

  /** Removal keeps the order of the remaining shifts, as for workers. */
  lemma RemoveShiftAppend(shifts: seq<Shift>, shift: Shift, id: int)
    ensures RemoveShift([], id) == []
    ensures RemoveShift(shifts + [shift], id) == RemoveShift(shifts, id) + (if shift.id == id then [] else [shift])
  {
    KeepAppend(shifts, shift, (s: Shift) => s.id != id);
  }

  predicate UniqueIds(workers: seq<Worker>)
  {
    forall i, j :: 0 <= i < j < |workers| ==> workers[i].id != workers[j].id
  }

  /** Ids are the count plus one, so while nothing is removed they stay
      unique: adding to a list numbered 1..n keeps it numbered 1..n+1. */
  lemma AddWorkerNumbers(workers: seq<Worker>, draft: WorkerDraft)
    requires forall k :: 0 <= k < |workers| ==> workers[k].id == k + 1
    ensures AddWorker(workers, draft).Some? ==>
      var r := AddWorker(workers, draft).value;
      UniqueIds(r) && forall k :: 0 <= k < |r| ==> r[k].id == k + 1
  {
  }

  /** After a removal the count no longer tracks the ids: removing worker 1
      of two and adding a new worker gives two workers with id 2. */
  lemma RemoveThenAddReusesId()
    ensures var workers := [Worker(1, "Ann", ["Assembly"], 40, 0), Worker(2, "Bob", ["Packaging"], 40, 0)];
      var r := AddWorker(RemoveWorker(workers, 1), WorkerDraft("Cid", ["Maintenance"], 40));
      r.Some? && |r.value| == 2 && r.value[0].id == 2 && r.value[1].id == 2 && !UniqueIds(r.value)
  {
    var workers := [Worker(1, "Ann", ["Assembly"], 40, 0), Worker(2, "Bob", ["Packaging"], 40, 0)];
    assert Keep(workers[1..], (w: Worker) => w.id != 1) == [workers[1]] by {
      assert workers[1..][1..] == [];
    }
    assert RemoveWorker(workers, 1) == [workers[1]];
  }

  // Schedule generation

  /** A worker can take another 8-hour shift this week. */
  predicate Available(w: Worker)
  {
    w.assignedHours + 8 <= w.maxHoursPerWeek
  }

  /** The hours cap: a worker's hours are 0 or within the weekly maximum. */
  predicate HoursKept(workers: seq<Worker>)
  {
    forall k :: 0 <= k < |workers| ==> 0 <= workers[k].assignedHours && (workers[k].assignedHours == 0 || workers[k].assignedHours <= workers[k].maxHoursPerWeek)
  }

  predicate DistinctNames(workers: seq<Worker>)
  {
    forall i, j :: 0 <= i < j < |workers| ==> workers[i].name != workers[j].name
  }

  /** No index occurs twice. */
  predicate NoRepeats(s: seq<nat>)
  {
    forall i, j :: 0 <= i < j < |s| ==> s[i] != s[j]
  }

  /** The random order of one (day, shift) draw: a permutation of the
      worker indices. */
  predicate IsOrder(order: seq<nat>, n: nat)
  {
    |order| == n && (forall i :: 0 <= i < n ==> order[i] < n) && NoRepeats(order)
  }

  /** The available workers, as indices, in the drawn order. */
  function AvailableInOrder(workers: seq<Worker>, order: seq<nat>): (r: seq<nat>)
    ensures |r| <= |order|
    ensures forall i :: 0 <= i < |r| ==> r[i] < |workers| && Available(workers[r[i]])
    ensures forall k :: k in r ==> k in order
  {
    if order == [] then []
    else
      var rest := AvailableInOrder(workers, order[1..]);
      assert forall k :: k in rest ==> k in order[1..];
      (if order[0] < |workers| && Available(workers[order[0]]) then [order[0]] else []) + rest
  }

  /** Entries of a duplicate-free order come out duplicate-free. */
  lemma {:induction false} AvailableDistinct(workers: seq<Worker>, order: seq<nat>)
    requires NoRepeats(order)
    ensures NoRepeats(AvailableInOrder(workers, order))
  {
    if order != [] {
      AvailableDistinct(workers, order[1..]);
      var rest := AvailableInOrder(workers, order[1..]);
      var r := AvailableInOrder(workers, order);
      if order[0] < |workers| && Available(workers[order[0]]) {
        assert r == [order[0]] + rest;
        assert order[0] !in order[1..] by {
          forall m | 0 <= m < |order| - 1
            ensures order[1..][m] != order[0]
          {
            assert order[1..][m] == order[m + 1];
          }
        }
        forall j | 0 <= j < |rest|
          ensures rest[j] != order[0]
        {
          assert rest[j] in rest;
        }
        forall i, j | 0 <= i < j < |r|
          ensures r[i] != r[j]
        {
          assert r[j] == rest[j - 1];
          if i > 0 {
            assert r[i] == rest[i - 1];
          }
        }
      } else {
        assert r == rest;
      }
    }
  }

  /** Length of JavaScript's `slice(0, end)` of an array of length n: a
      negative end counts from the back. */
  function SliceLength(n: nat, end: int): (r: nat)
    ensures r <= n
    ensures end >= 0 ==> r == MinInt(end, n)
    ensures end < 0 ==> r == if n + end > 0 then n + end else 0
  {
    if end >= 0 then (if end < n then end else n)
    else if n + end > 0 then n + end else 0
  }

  /** `availableWorkers.sort(random).slice(0, shift.requiredWorkers)`, as
      indices. */
  function Picks(workers: seq<Worker>, order: seq<nat>, requiredWorkers: int): (r: seq<nat>)
    ensures |r| == SliceLength(|AvailableInOrder(workers, order)|, requiredWorkers)
    ensures r <= AvailableInOrder(workers, order)
    ensures forall i :: 0 <= i < |r| ==> r[i] < |workers| && Available(workers[r[i]])
  {
    var available := AvailableInOrder(workers, order);
    available[..SliceLength(|available|, requiredWorkers)]
  }

  /** A negative required count drops workers from the end of the draw
      rather than taking none: of three available workers, -1 takes two. */
  lemma NegativeRequiredTakesFromEnd(workers: seq<Worker>, order: seq<nat>)
    requires |AvailableInOrder(workers, order)| == 3
    ensures |Picks(workers, order, -1)| == 2
  {
  }

  function NamesOf(workers: seq<Worker>, picks: seq<nat>): (r: seq<string>)
    requires forall i :: 0 <= i < |picks| ==> picks[i] < |workers|
    ensures |r| == |picks| && forall i :: 0 <= i < |picks| ==> r[i] == workers[picks[i]].name
  {
    if picks == [] then [] else [workers[picks[0]].name] + NamesOf(workers, picks[1..])
  }

  /** `findIndex(w => w.name === name)`. */
  function FirstNamed(workers: seq<Worker>, name: string): (k: int)
    ensures -1 <= k < |workers|
    ensures k == -1 <==> forall i :: 0 <= i < |workers| ==> workers[i].name != name
    ensures k != -1 ==> workers[k].name == name && forall i :: 0 <= i < k ==> workers[i].name != name
  {
    if workers == [] then -1
    else if workers[0].name == name then 0
    else var k := FirstNamed(workers[1..], name); if k == -1 then -1 else k + 1
  }

  /** `updatedWorkers[k].assignedHours += 8`. */
  function AddShiftHours(workers: seq<Worker>, k: nat): seq<Worker>
    requires k < |workers|
  {
    workers[k := workers[k].(assignedHours := workers[k].assignedHours + 8)]
  }

  /** The hours the `selectedWorkers.forEach` loop credits: 8 hours, per
      name, to the first worker of that name. */
  function Credit(workers: seq<Worker>, names: seq<string>): seq<Worker>
    decreases |names|
  {
    if names == [] then workers
    else
      var k := FirstNamed(workers, names[0]);
      Credit(if k == -1 then workers else AddShiftHours(workers, k), names[1..])
  }

  /** The same workers as before, whatever their hours. */
  predicate SameWorkers(a: seq<Worker>, b: seq<Worker>)
  {
    |a| == |b| && forall k :: 0 <= k < |a| ==> a[k] == b[k].(assignedHours := a[k].assignedHours)
  }

  /** Crediting hours changes nothing but hours. */
  lemma {:induction false} CreditKeepsWorkers(workers: seq<Worker>, names: seq<string>)
    ensures SameWorkers(Credit(workers, names), workers)
    decreases |names|
  {
    if names != [] {
      var k := FirstNamed(workers, names[0]);
      var next := if k == -1 then workers else AddShiftHours(workers, k);
      CreditKeepsWorkers(next, names[1..]);
    }
  }

  /** The credit as evidently intended: 8 hours to each picked worker
      itself. */
  function CreditPicks(workers: seq<Worker>, picks: seq<nat>): (r: seq<Worker>)
    ensures |r| == |workers|
  {
    seq(|workers|, k requires 0 <= k < |workers| => workers[k].(assignedHours := workers[k].assignedHours + (if k in picks then 8 else 0)))
  }

  /** Crediting picked available workers, each once, keeps the hours cap. */
  lemma CreditPicksKeepsHours(workers: seq<Worker>, picks: seq<nat>)
    requires HoursKept(workers)
    requires forall i :: 0 <= i < |picks| ==> picks[i] < |workers| && Available(workers[picks[i]])
    ensures HoursKept(CreditPicks(workers, picks))
  {
  }

  /** Where names are distinct, crediting by name is crediting the picked
      workers themselves. */
  lemma {:induction false} CreditByDistinctNames(workers: seq<Worker>, picks: seq<nat>)
    requires DistinctNames(workers)
    requires forall i :: 0 <= i < |picks| ==> picks[i] < |workers|
    requires NoRepeats(picks)
    ensures Credit(workers, NamesOf(workers, picks)) == CreditPicks(workers, picks)
    decreases |picks|
  {
    if picks == [] {
      assert CreditPicks(workers, picks) == workers;
    } else {
      var p := picks[0];
      FirstNamedDistinct(workers, p);
      var next := AddShiftHours(workers, p);
      assert NamesOf(workers, picks)[1..] == NamesOf(next, picks[1..]);
      CreditByDistinctNames(next, picks[1..]);
      CreditPicksFirst(workers, picks);
    }
  }

  /** With distinct names, a worker's name finds that worker. */
  lemma FirstNamedDistinct(workers: seq<Worker>, p: nat)
    requires DistinctNames(workers) && p < |workers|
    ensures FirstNamed(workers, workers[p].name) == p
    ensures DistinctNames(AddShiftHours(workers, p))
  {
  }

  /** Crediting the first pick and then the rest is crediting all picks. */
  lemma CreditPicksFirst(workers: seq<Worker>, picks: seq<nat>)
    requires picks != [] && picks[0] < |workers|
    requires forall i :: 1 <= i < |picks| ==> picks[i] != picks[0]
    ensures CreditPicks(AddShiftHours(workers, picks[0]), picks[1..]) == CreditPicks(workers, picks)
  {
    var next := AddShiftHours(workers, picks[0]);
    forall k | 0 <= k < |workers|
      ensures CreditPicks(next, picks[1..])[k] == CreditPicks(workers, picks)[k]
    {
      assert k in picks <==> k == picks[0] || k in picks[1..];
      if k == picks[0] {
        assert k !in picks[1..];
      }
    }
  }

  /** Two workers named Ann, each with an 8-hour maximum, both available
      and both picked: the name lookup credits the first Ann twice, 16
      hours against her maximum of 8. */
  lemma CreditDuplicateNames()
    ensures var workers := [Worker(1, "Ann", ["Assembly"], 8, 0), Worker(2, "Ann", ["Packaging"], 8, 0)];
      && HoursKept(workers) && Available(workers[0]) && Available(workers[1])
      && Picks(workers, [0, 1], 2) == [0, 1]
      && Credit(workers, NamesOf(workers, [0, 1])) == [workers[0].(assignedHours := 16), workers[1]]
      && !HoursKept(Credit(workers, NamesOf(workers, [0, 1])))
  {
    var workers := [Worker(1, "Ann", ["Assembly"], 8, 0), Worker(2, "Ann", ["Packaging"], 8, 0)];
    assert [0, 1][1..] == [1];
    assert AvailableInOrder(workers, [0, 1]) == [0, 1];
    assert NamesOf(workers, [0, 1]) == ["Ann", "Ann"];
    var once := AddShiftHours(workers, 0);
    var twice := AddShiftHours(once, 0);
    assert FirstNamed(workers, "Ann") == 0;
    assert FirstNamed(once, "Ann") == 0;
    assert ["Ann", "Ann"][1..] == ["Ann"];
    assert ["Ann"][1..] == [];
    assert Credit(once, ["Ann"]) == Credit(twice, []) == twice;
    assert Credit(workers, ["Ann", "Ann"]) == twice;
    assert twice[0].assignedHours == 16 > twice[0].maxHoursPerWeek;
  }

  /** The selected names of one (day, shift), and the worker hours after
      the `forEach` over them. */
  method CreditHours(workers: seq<Worker>, names: seq<string>) returns (updated: seq<Worker>)
    ensures updated == Credit(workers, names)
  {
    updated := workers;
    for i := 0 to |names|
      invariant Credit(updated, names[i..]) == Credit(workers, names)
    {
      assert names[i..][1..] == names[i + 1..];
      var workerIndex := FirstNamed(updated, names[i]);
      if workerIndex != -1 {
        updated := AddShiftHours(updated, workerIndex);
      }
    }
  }

  /** Names of a list of workers. */
  function WorkerNames(workers: seq<Worker>): set<string>
  {
    set w | w in workers :: w.name
  }

  function ShiftNames(shifts: seq<Shift>): set<string>
  {
    set s | s in shifts :: s.name
  }

  /** An entry of the day's map was filled for a shift of that name: no
      more names than there are workers, and no more than the shift asks
      for when that number is not negative. */
  ghost predicate Fits(entry: seq<string>, shifts: seq<Shift>, key: string, n: nat)
  {
    exists s :: 0 <= s < |shifts| && shifts[s].name == key && |entry| <= n
      && (shifts[s].requiredWorkers >= 0 ==> |entry| <= shifts[s].requiredWorkers)
  }

  /** What a day's map holds once the shifts before `done` are filled. */
  ghost predicate DayFilled(day: map<string, seq<string>>, shifts: seq<Shift>, done: nat, names: set<string>, n: nat)
    requires done <= |shifts|
  {
    && day.Keys == ShiftNames(shifts[..done])
    && forall key :: key in day ==> Fits(day[key], shifts, key, n) && forall name :: name in day[key] ==> name in names
  }

  datatype ScheduleResult =
    | NoWorkers
    | NoShifts
    | Scheduled(days: seq<map<string, seq<string>>>, workers: seq<Worker>, shifts: seq<Shift>)

  lemma NamesAreWorkers(workers: seq<Worker>, picks: seq<nat>)
    requires forall i :: 0 <= i < |picks| ==> picks[i] < |workers|
    ensures forall name :: name in NamesOf(workers, picks) ==> name in WorkerNames(workers)
  {
    var names := NamesOf(workers, picks);
    forall name | name in names
      ensures name in WorkerNames(workers)
    {
      var i :| 0 <= i < |names| && names[i] == name;
      assert workers[picks[i]] in workers;
    }
  }

  /** Under distinct names, crediting one (day, shift) draw keeps the hours
      cap. */
  lemma PicksKeepHours(workers: seq<Worker>, order: seq<nat>, requiredWorkers: int)
    requires IsOrder(order, |workers|)
    ensures DistinctNames(workers) && HoursKept(workers) ==>
      HoursKept(Credit(workers, NamesOf(workers, Picks(workers, order, requiredWorkers))))
  {
    if DistinctNames(workers) && HoursKept(workers) {
      var picks := Picks(workers, order, requiredWorkers);
      var available := AvailableInOrder(workers, order);
      AvailableDistinct(workers, order);
      assert forall i :: 0 <= i < |picks| ==> picks[i] == available[i];
      assert NoRepeats(picks);
      CreditByDistinctNames(workers, picks);
      CreditPicksKeepsHours(workers, picks);
    }
  }

  lemma SameWorkersNames(a: seq<Worker>, b: seq<Worker>)
    requires SameWorkers(a, b)
    ensures WorkerNames(a) == WorkerNames(b)
  {
    forall name | name in WorkerNames(b)
      ensures name in WorkerNames(a)
    {
      var w :| w in b && w.name == name;
      var k :| 0 <= k < |b| && b[k] == w;
      assert a[k].name == name;
    }
  }

  lemma SameWorkersDistinct(a: seq<Worker>, b: seq<Worker>)
    requires SameWorkers(a, b)
    ensures DistinctNames(a) <==> DistinctNames(b)
  {
  }

  /** Filling shift `done` of the day keeps the day's map in shape. */
  lemma FillKeepsDay(day: map<string, seq<string>>, shifts: seq<Shift>, done: nat, names: set<string>, n: nat, selected: seq<string>)
    requires done < |shifts| && DayFilled(day, shifts, done, names, n)
    requires |selected| <= n && (shifts[done].requiredWorkers >= 0 ==> |selected| <= shifts[done].requiredWorkers)
    requires forall name :: name in selected ==> name in names
    ensures DayFilled(day[shifts[done].name := selected], shifts, done + 1, names, n)
  {
    assert shifts[..done + 1] == shifts[..done] + [shifts[done]];
    assert ShiftNames(shifts[..done + 1]) == ShiftNames(shifts[..done]) + {shifts[done].name};
    var day' := day[shifts[done].name := selected];
    forall key | key in day'
      ensures Fits(day'[key], shifts, key, n)
    {
      if key == shifts[done].name {
        assert shifts[done].name == key;
      }
    }
  }

  /** A day's map under construction and the workers' hours so far. */
  datatype DayState = DayState(day: map<string, seq<string>>, workers: seq<Worker>)

  /** One shift of a day: its entry is the names `Picks` draws from the
      workers as they stand, written under the shift's name, and those
      names are credited 8 hours each by `Credit`. */
  function DayStep(before: DayState, shift: Shift, order: seq<nat>): DayState
  {
    var selected := NamesOf(before.workers, Picks(before.workers, order, shift.requiredWorkers));
    DayState(before.day[shift.name := selected], Credit(before.workers, selected))
  }

  /** The day after its first s shifts, in list order. */
  function DayAfter(current: seq<Worker>, shifts: seq<Shift>, orders: seq<seq<nat>>, s: nat): DayState
    requires |orders| == |shifts| && s <= |shifts|
  {
    if s == 0 then DayState(map[], current)
    else DayStep(DayAfter(current, shifts, orders, s - 1), shifts[s - 1], orders[s - 1])
  }

  /** Workers that differ only in their hours, step by step. */
  lemma SameWorkersTrans(a: seq<Worker>, b: seq<Worker>, c: seq<Worker>)
    requires SameWorkers(a, b) && SameWorkers(b, c)
    ensures SameWorkers(a, c)
  {
    forall k | 0 <= k < |a|
      ensures a[k] == c[k].(assignedHours := a[k].assignedHours)
    {
      assert a[k] == b[k].(assignedHours := a[k].assignedHours);
      assert b[k] == c[k].(assignedHours := b[k].assignedHours);
    }
  }

  /** `w` are the workers of `current` with other hours and, where the
      names of `current` are distinct and its hours within every maximum,
      still within every maximum. */
  predicate HoursOnly(w: seq<Worker>, current: seq<Worker>)
  {
    SameWorkers(w, current) && (DistinctNames(current) && HoursKept(current) ==> HoursKept(w))
  }

  /** One shift changes the workers only in their hours and, where names
      are distinct, keeps everybody within their weekly maximum. */
  lemma DayStepWorkers(before: DayState, shift: Shift, order: seq<nat>, current: seq<Worker>)
    requires IsOrder(order, |current|)
    ensures HoursOnly(before.workers, current) ==> HoursOnly(DayStep(before, shift, order).workers, current)
  {
    if HoursOnly(before.workers, current) {
      var selected := NamesOf(before.workers, Picks(before.workers, order, shift.requiredWorkers));
      CreditKeepsWorkers(before.workers, selected);
      SameWorkersTrans(Credit(before.workers, selected), before.workers, current);
      SameWorkersDistinct(before.workers, current);
      PicksKeepHours(before.workers, order, shift.requiredWorkers);
    }
  }

  /** Shift s - 1 fills the entry for its name within the shift's bounds. */
  lemma DayStepFilled(before: DayState, shifts: seq<Shift>, s: nat, order: seq<nat>, current: seq<Worker>)
    requires 0 < s <= |shifts| && IsOrder(order, |current|)
    ensures DayFilled(before.day, shifts, s - 1, WorkerNames(current), |current|) && HoursOnly(before.workers, current) ==>
      DayFilled(DayStep(before, shifts[s - 1], order).day, shifts, s, WorkerNames(current), |current|)
  {
    if DayFilled(before.day, shifts, s - 1, WorkerNames(current), |current|) && HoursOnly(before.workers, current) {
      var picks := Picks(before.workers, order, shifts[s - 1].requiredWorkers);
      var selected := NamesOf(before.workers, picks);
      SameWorkersNames(before.workers, current);
      NamesAreWorkers(before.workers, picks);
      FillKeepsDay(before.day, shifts, s - 1, WorkerNames(current), |current|, selected);
    }
  }

  /** One shift's entry is the names of at most as many workers as there
      are and, when the shift's count is not negative, at most that many,
      all of them names of workers of the list; nothing else in the day's
      map changes. */
  lemma DayStepEntry(before: DayState, shift: Shift, order: seq<nat>)
    requires IsOrder(order, |before.workers|)
    ensures var selected := DayStep(before, shift, order).day[shift.name];
      && DayStep(before, shift, order).day == before.day[shift.name := selected]
      && |selected| <= |before.workers| && (shift.requiredWorkers >= 0 ==> |selected| <= shift.requiredWorkers)
      && forall name :: name in selected ==> name in WorkerNames(before.workers)
  {
    NamesAreWorkers(before.workers, Picks(before.workers, order, shift.requiredWorkers));
  }

  /** One (day, shift): draw the available workers in the given order, take
      as many as the shift requires, write their names under the shift's
      name and credit their hours. */
  method FillShift(before: DayState, shift: Shift, order: seq<nat>) returns (after: DayState)
    requires IsOrder(order, |before.workers|)
    ensures after == DayStep(before, shift, order)
    ensures |after.workers| == |before.workers|
  {
    var picks := Picks(before.workers, order, shift.requiredWorkers);
    var selectedWorkers := NamesOf(before.workers, picks);
    var updated := CreditHours(before.workers, selectedWorkers);
    CreditKeepsWorkers(before.workers, selectedWorkers);
    after := DayState(before.day[shift.name := selectedWorkers], updated);
  }

  /** A day after its first s shifts, relative to the workers it started
      from: the map is filled for those shifts and the workers changed only
      in their hours. */
  ghost predicate DayShaped(state: DayState, shifts: seq<Shift>, s: nat, current: seq<Worker>)
    requires s <= |shifts|
  {
    DayFilled(state.day, shifts, s, WorkerNames(current), |current|) && HoursOnly(state.workers, current)
  }

  /** Before any shift, the day's map is empty and the workers are as they
      came. */
  lemma DayStartShaped(shifts: seq<Shift>, current: seq<Worker>)
    ensures DayShaped(DayState(map[], current), shifts, 0, current)
  {
    assert shifts[..0] == [];
    assert SameWorkers(current, current);
  }

  /** Shift s - 1 keeps the day in shape. */
  lemma DayStepShaped(before: DayState, shifts: seq<Shift>, s: nat, order: seq<nat>, current: seq<Worker>)
    requires 0 < s <= |shifts| && IsOrder(order, |current|)
    ensures DayShaped(before, shifts, s - 1, current) ==> DayShaped(DayStep(before, shifts[s - 1], order), shifts, s, current)
  {
    DayStepFilled(before, shifts, s, order, current);
    DayStepWorkers(before, shifts[s - 1], order, current);
  }

  /** The day after its first s shifts has an entry per shift name, each
      naming workers of the list and no more than the shift requires; the
      workers change only in their hours and, where names are distinct,
      nobody goes over their weekly maximum. */
  lemma {:induction false} DayAfterShaped(current: seq<Worker>, shifts: seq<Shift>, orders: seq<seq<nat>>, s: nat)
    requires |orders| == |shifts| && s <= |shifts| && forall t :: 0 <= t < |shifts| ==> IsOrder(orders[t], |current|)
    ensures DayShaped(DayAfter(current, shifts, orders, s), shifts, s, current)
  {
    if s == 0 {
      DayStartShaped(shifts, current);
    } else {
      DayAfterShaped(current, shifts, orders, s - 1);
      DayStepShaped(DayAfter(current, shifts, orders, s - 1), shifts, s, orders[s - 1], current);
    }
  }

  /** One day of the schedule: every shift in list order, each entry of
      the day's map written under the shift's name. */
  method FillDay(current: seq<Worker>, shifts: seq<Shift>, orders: seq<seq<nat>>)
    returns (day: map<string, seq<string>>, updated: seq<Worker>)
    requires |orders| == |shifts| && forall s :: 0 <= s < |shifts| ==> IsOrder(orders[s], |current|)
    ensures DayState(day, updated) == DayAfter(current, shifts, orders, |shifts|)
    ensures DayFilled(day, shifts, |shifts|, WorkerNames(current), |current|)
    ensures HoursOnly(updated, current)
  {
    var state := DayState(map[], current);
    for s := 0 to |shifts|
      invariant state == DayAfter(current, shifts, orders, s) && |state.workers| == |current|
    {
      state := FillShift(state, shifts[s], orders[s]);
    }
    day, updated := state.day, state.workers;
    DayAfterShaped(current, shifts, orders, |shifts|);
  }

  /** The days filled so far and the workers' hours. */
  datatype WeekState = WeekState(days: seq<map<string, seq<string>>>, workers: seq<Worker>)

  /** Every worker with the hours reset to 0. */
  function ResetHours(workers: seq<Worker>): (r: seq<Worker>)
    ensures |r| == |workers| && forall k :: 0 <= k < |workers| ==> r[k].assignedHours == 0
    ensures SameWorkers(r, workers)
  {
    seq(|workers|, k requires 0 <= k < |workers| => workers[k].(assignedHours := 0))
  }

  /** Every shift with nobody assigned. */
  function ClearShifts(shifts: seq<Shift>): (r: seq<Shift>)
    ensures |r| == |shifts| && forall s :: 0 <= s < |shifts| ==> r[s].assignedWorkers == []
    ensures forall s :: 0 <= s < |shifts| ==> r[s].(assignedWorkers := shifts[s].assignedWorkers) == shifts[s]
  {
    seq(|shifts|, s requires 0 <= s < |shifts| => shifts[s].(assignedWorkers := []))
  }

  /** One day of the week: `DayAfter` over every shift with that day's
      draws, from the hours the week has reached so far. */
  function WeekStep(before: WeekState, shifts: seq<Shift>, order: seq<seq<nat>>): (after: WeekState)
    requires |order| == |shifts|
    ensures |after.days| == |before.days| + 1
  {
    var filled := DayAfter(before.workers, shifts, order, |shifts|);
    WeekState(before.days + [filled.day], filled.workers)
  }

  /** The week after its first i days: it starts from the workers with
      their hours reset to 0, and each day is a `WeekStep`, the hours
      carried from one day to the next. */
  function WeekAfter(workers: seq<Worker>, shifts: seq<Shift>, orders: seq<seq<seq<nat>>>, i: nat): (week: WeekState)
    requires i <= |orders| && forall d :: 0 <= d < |orders| ==> |orders[d]| == |shifts|
    ensures |week.days| == i
  {
    if i == 0 then WeekState([], ResetHours(workers))
    else WeekStep(WeekAfter(workers, shifts, orders, i - 1), shifts, orders[i - 1])
  }

  /** `w` are `workers` with other hours and, where names are distinct,
      within every maximum. */
  predicate HoursWithin(w: seq<Worker>, workers: seq<Worker>)
  {
    SameWorkers(w, workers) && (DistinctNames(workers) ==> HoursKept(w))
  }

  /** A day that changes only hours after a week so far that changes only
      hours leaves the workers within their maximum. */
  lemma ChainHours(before: seq<Worker>, after: seq<Worker>, workers: seq<Worker>)
    ensures HoursWithin(before, workers) && HoursOnly(after, before) ==> HoursWithin(after, workers)
  {
    if HoursWithin(before, workers) && HoursOnly(after, before) {
      SameWorkersTrans(after, before, workers);
      SameWorkersDistinct(before, workers);
    }
  }

  /** Every day of a list is filled for all the shifts. */
  ghost predicate AllFilled(days: seq<map<string, seq<string>>>, shifts: seq<Shift>, names: set<string>, n: nat)
  {
    forall d :: 0 <= d < |days| ==> DayFilled(days[d], shifts, |shifts|, names, n)
  }

  lemma AppendFilled(days: seq<map<string, seq<string>>>, day: map<string, seq<string>>, shifts: seq<Shift>, names: set<string>, n: nat)
    ensures AllFilled(days, shifts, names, n) && DayFilled(day, shifts, |shifts|, names, n) ==>
      AllFilled(days + [day], shifts, names, n)
  {
    if AllFilled(days, shifts, names, n) && DayFilled(day, shifts, |shifts|, names, n) {
      forall d | 0 <= d < |days| + 1
        ensures DayFilled((days + [day])[d], shifts, |shifts|, names, n)
      {
        if d < |days| {
          assert (days + [day])[d] == days[d];
        }
      }
    }
  }

  /** A week so far, relative to the workers it started from: every day
      filled, and the workers changed only in their hours, within their
      maximum where names are distinct. */
  ghost predicate WeekShaped(week: WeekState, shifts: seq<Shift>, workers: seq<Worker>)
  {
    AllFilled(week.days, shifts, WorkerNames(workers), |workers|) && HoursWithin(week.workers, workers)
  }

  /** The week starts with no days and every worker at 0 hours. */
  lemma WeekStartShaped(shifts: seq<Shift>, workers: seq<Worker>)
    ensures WeekShaped(WeekState([], ResetHours(workers)), shifts, workers)
  {
    assert HoursKept(ResetHours(workers));
  }

  /** One more day keeps the week in shape. */
  lemma WeekStepShaped(before: WeekState, shifts: seq<Shift>, order: seq<seq<nat>>, workers: seq<Worker>)
    requires |order| == |shifts| && forall t :: 0 <= t < |shifts| ==> IsOrder(order[t], |workers|)
    ensures WeekShaped(before, shifts, workers) ==> WeekShaped(WeekStep(before, shifts, order), shifts, workers)
  {
    if WeekShaped(before, shifts, workers) {
      var filled := DayAfter(before.workers, shifts, order, |shifts|);
      DayAfterShaped(before.workers, shifts, order, |shifts|);
      SameWorkersNames(before.workers, workers);
      ChainHours(before.workers, filled.workers, workers);
      AppendFilled(before.days, filled.day, shifts, WorkerNames(workers), |workers|);
    }
  }

  /** What the first i days leave: i maps, each filled as `DayAfterShaped`
      says, and the workers unchanged but for their hours, within their
      maximum where names are distinct. */
  lemma {:induction false} WeekAfterShaped(workers: seq<Worker>, shifts: seq<Shift>, orders: seq<seq<seq<nat>>>, i: nat)
    requires i <= |orders| && forall d :: 0 <= d < |orders| ==> |orders[d]| == |shifts|
    requires forall d, s :: 0 <= d < |orders| && 0 <= s < |shifts| ==> IsOrder(orders[d][s], |workers|)
    ensures WeekShaped(WeekAfter(workers, shifts, orders, i), shifts, workers)
  {
    if i == 0 {
      WeekStartShaped(shifts, workers);
    } else {
      WeekAfterShaped(workers, shifts, orders, i - 1);
      WeekStepShaped(WeekAfter(workers, shifts, orders, i - 1), shifts, orders[i - 1], workers);
    }
  }

  /** What `generateSchedule` produces: a refusal for an empty worker or
      shift list, otherwise the seven days of `WeekAfter`, the workers with
      the hours they end the week with, and the shifts cleared. */
  function Schedule(workers: seq<Worker>, shifts: seq<Shift>, orders: seq<seq<seq<nat>>>): ScheduleResult
    requires |orders| == 7 && forall d :: 0 <= d < 7 ==> |orders[d]| == |shifts|
  {
    if workers == [] then NoWorkers
    else if shifts == [] then NoShifts
    else
      var week := WeekAfter(workers, shifts, orders, 7);
      Scheduled(week.days, week.workers, ClearShifts(shifts))
  }

  /** `generateSchedule`. Empty worker or shift lists are refused. Otherwise
      every worker's hours are reset to 0, and on each of the 7 days every
      shift, in list order, gets the first `requiredWorkers` of the workers
      still available, in that (day, shift)'s random order. A day's map has
      one entry per shift name (a later shift of the same name overwrites
      an earlier one); every entry names workers of the list, no more than
      the shift requires; the workers come back unchanged but for their
      hours, and, where worker names are distinct, nobody is over their
      weekly maximum. The shifts come back with nobody assigned. */
  method GenerateSchedule(workers: seq<Worker>, shifts: seq<Shift>, orders: seq<seq<seq<nat>>>) returns (result: ScheduleResult)
    requires |orders| == 7 && forall d :: 0 <= d < 7 ==> |orders[d]| == |shifts|
    requires forall d, s :: 0 <= d < 7 && 0 <= s < |shifts| ==> IsOrder(orders[d][s], |workers|)
    ensures result == Schedule(workers, shifts, orders)
    ensures result == NoWorkers <==> workers == []
    ensures result == NoShifts <==> workers != [] && shifts == []
    ensures result.Scheduled? ==>
      && |result.days| == 7
      && AllFilled(result.days, shifts, WorkerNames(workers), |workers|)
      && HoursWithin(result.workers, workers)
      && |result.shifts| == |shifts| && forall s :: 0 <= s < |shifts| ==> result.shifts[s] == shifts[s].(assignedWorkers := [])
  {
    if |workers| == 0 {
      return NoWorkers;
    }
    if |shifts| == 0 {
      return NoShifts;
    }
    var updatedWorkers := seq(|workers|, k requires 0 <= k < |workers| => workers[k].(assignedHours := 0));
    var updatedShifts := seq(|shifts|, s requires 0 <= s < |shifts| => shifts[s].(assignedWorkers := []));
    assert updatedWorkers == ResetHours(workers);
    assert updatedShifts == ClearShifts(shifts);
    var newSchedule: seq<map<string, seq<string>>> := [];
    for i := 0 to 7
      invariant WeekState(newSchedule, updatedWorkers) == WeekAfter(workers, shifts, orders, i)
      invariant |updatedWorkers| == |workers|
    {
      var day;
      day, updatedWorkers := FillDay(updatedWorkers, shifts, orders[i]);
      newSchedule := newSchedule + [day];
    }
    WeekAfterShaped(workers, shifts, orders, 7);
    result := Scheduled(newSchedule, updatedWorkers, updatedShifts);
  }
}
