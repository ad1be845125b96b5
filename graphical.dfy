/** The graphical method for linear programs in two variables
    (src/pages/GraphicalMethod.tsx): intersect every pair of constraint
    lines, keep the intersections inside the drawing window that satisfy
    every constraint (non-negativity included), round them to four decimals
    and drop near duplicates, then take the first vertex with the best
    objective value. Constraint coefficients arrive already parsed. */
module Graphical {
  import opened Numeric

  const Tolerance: real := 0.0000000001
  const Closeness: real := 0.00000001

  datatype Sign = AtMost | AtLeast | Equal | Unknown

  /** a * x + b * y (sign) c. */
  datatype Line = Line(a: real, b: real, c: real, sign: Sign)

  datatype Point = Point(x: real, y: real)

  datatype Goal = Maximize | Minimize

  function Determinant(l1: Line, l2: Line): real
  {
    l1.a * l2.b - l2.a * l1.b
  }

  /** `findIntersection` by Cramer's rule: none when the determinant is
      within 1e-10 of 0. */
  function Intersect(l1: Line, l2: Line): (r: Option<Point>)
    ensures r.None? <==> Abs(Determinant(l1, l2)) < Tolerance
  {
    var det := Determinant(l1, l2);
    if Abs(det) < Tolerance then None
    else Some(Point((l1.c * l2.b - l2.c * l1.b) / det, (l1.a * l2.c - l2.a * l1.c) / det))
  }

  function Lhs(l: Line, p: Point): real
  {
    l.a * p.x + l.b * p.y
  }

  lemma CramerRow(a1: real, b1: real, c1: real, a2: real, b2: real, c2: real, det: real, x: real, y: real)
    requires det == a1 * b2 - a2 * b1 && det != 0.0
    requires x * det == c1 * b2 - c2 * b1 && y * det == a1 * c2 - a2 * c1
    ensures a1 * x + b1 * y == c1
  {
    calc {
      (a1 * x + b1 * y) * det;
      a1 * (x * det) + b1 * (y * det);
      a1 * (c1 * b2 - c2 * b1) + b1 * (a1 * c2 - a2 * c1);
      c1 * det;
    }
  }

  /** The intersection lies on both lines, and it is the only point that
      does: a point on both lines of a non-degenerate pair is the
      intersection. */
  lemma IntersectionOnBothLines(l1: Line, l2: Line, p: Point)
    requires Intersect(l1, l2).Some?
    ensures var q := Intersect(l1, l2).value; Lhs(l1, q) == l1.c && Lhs(l2, q) == l2.c
    ensures Lhs(l1, p) == l1.c && Lhs(l2, p) == l2.c ==> p == Intersect(l1, l2).value
  {
    var det := Determinant(l1, l2);
    var q := Intersect(l1, l2).value;
    assert q.x * det == l1.c * l2.b - l2.c * l1.b;
    assert q.y * det == l1.a * l2.c - l2.a * l1.c;
    CramerRow(l1.a, l1.b, l1.c, l2.a, l2.b, l2.c, det, q.x, q.y);
    CramerRow(l2.a, l2.b, l2.c, l1.a, l1.b, l1.c, -det, q.x, q.y);
    if Lhs(l1, p) == l1.c && Lhs(l2, p) == l2.c {
      calc {
        p.x * det;
        (l1.a * p.x + l1.b * p.y) * l2.b - (l2.a * p.x + l2.b * p.y) * l1.b;
        l1.c * l2.b - l2.c * l1.b;
      }
      calc {
        p.y * det;
        l1.a * (l2.a * p.x + l2.b * p.y) - l2.a * (l1.a * p.x + l1.b * p.y);
        l1.a * l2.c - l2.a * l1.c;
      }
      assert (p.x - q.x) * det == 0.0;
      assert (p.y - q.y) * det == 0.0;
    }
  }

  /** One constraint of `satisfiesConstraints`, with slack 1e-10; an
      unknown sign fails. */
  predicate Satisfies(p: Point, l: Line)
  {
    match l.sign
    case AtMost => Lhs(l, p) <= l.c + Tolerance
    case AtLeast => Lhs(l, p) >= l.c - Tolerance
    case Equal => Abs(Lhs(l, p) - l.c) < Tolerance
    case Unknown => false
  }

  /** `constraints.every(...)`. */
  predicate SatisfiesAll(p: Point, ls: seq<Line>)
  {
    forall k :: 0 <= k < |ls| ==> Satisfies(p, ls[k])
  }

  /** An equality holds only where both inequalities with the same
      coefficients hold. */
  lemma EqualityIsBothInequalities(p: Point, a: real, b: real, c: real)
    ensures Satisfies(p, Line(a, b, c, Equal)) ==> Satisfies(p, Line(a, b, c, AtMost)) && Satisfies(p, Line(a, b, c, AtLeast))
  {
    var v := Lhs(Line(a, b, c, Equal), p);
    assert Lhs(Line(a, b, c, AtMost), p) == v && Lhs(Line(a, b, c, AtLeast), p) == v;
    if Satisfies(p, Line(a, b, c, Equal)) {
      assert Abs(v - c) < Tolerance;
      assert -Tolerance < v - c < Tolerance;
    }
  }

  /** `addNonNegativityConstraints`: -x <= 0 and -y <= 0 appended. */
  function WithNonNegativity(ls: seq<Line>): (r: seq<Line>)
    ensures |r| == |ls| + 2 && r[..|ls|] == ls
    ensures r[|ls|] == Line(-1.0, 0.0, 0.0, AtMost) && r[|ls| + 1] == Line(0.0, -1.0, 0.0, AtMost)
  {
    ls + [Line(-1.0, 0.0, 0.0, AtMost), Line(0.0, -1.0, 0.0, AtMost)]
  }

  /** A point meets the augmented list iff it meets the originals and both
      coordinates are at least -1e-10. */
  lemma NonNegativityMeaning(p: Point, ls: seq<Line>)
    ensures SatisfiesAll(p, WithNonNegativity(ls)) <==> SatisfiesAll(p, ls) && p.x >= -Tolerance && p.y >= -Tolerance
  {
    var r := WithNonNegativity(ls);
    if SatisfiesAll(p, ls) && p.x >= -Tolerance && p.y >= -Tolerance {
      forall k | 0 <= k < |r|
        ensures Satisfies(p, r[k])
      {
        if k < |ls| {
          assert r[k] == ls[k];
        }
      }
    }
    if SatisfiesAll(p, r) {
      assert Satisfies(p, r[|ls|]) && Satisfies(p, r[|ls| + 1]);
      forall k | 0 <= k < |ls|
        ensures Satisfies(p, ls[k])
      {
        assert r[k] == ls[k];
      }
    }
  }

  /** `Math.round(v * 10000) / 10000`. */
  function Round4(v: real): (r: real)
    ensures Abs(r - v) <= 0.00005
  {
    JsRound(v * 10000.0) as real / 10000.0
  }

  /** `Math.round(v * 100) / 100`. */
  function Round2(v: real): (r: real)
    ensures Abs(r - v) <= 0.005
  {
    JsRound(v * 100.0) as real / 100.0
  }

  /** The drawing window [-0.1, 10] x [-0.1, 10]. */
  predicate InWindow(p: Point)
  {
    p.x >= -0.1 && p.y >= -0.1 && p.x <= 10.0 && p.y <= 10.0
  }

  /** What the pair (i, j) contributes: its intersection, when there is one
      inside the window that satisfies every constraint, rounded to four
      decimals. */
  function Found(all: seq<Line>, i: nat, j: nat): Option<Point>
    requires i < |all| && j < |all|
  {
    match Intersect(all[i], all[j])
    case None => None
    case Some(q) =>
      if InWindow(q) && SatisfiesAll(q, all) then Some(Point(Round4(q.x), Round4(q.y))) else None
  }

  /** Both coordinates within 1e-8. */
  predicate Close(p: Point, q: Point)
  {
    Abs(p.x - q.x) < Closeness && Abs(p.y - q.y) < Closeness
  }

  /** `intersectionPoints.some(...)`: some stored point is close to p. */
  predicate Near(points: seq<Point>, p: Point)
  {
    exists k :: 0 <= k < |points| && Close(points[k], p)
  }

  /** No two stored points are close. */
  predicate Separated(points: seq<Point>)
  {
    forall a, b :: 0 <= a < b < |points| ==> !Close(points[a], points[b])
  }

  /** p was found by some pair i < j. */
  ghost predicate FoundByPair(all: seq<Line>, p: Point)
  {
    exists i, j :: 0 <= i < j < |all| && Found(all, i, j) == Some(p)
  }

  /** The pairs (i', j') with i' < j' up to (i, j) in loop order have all
      been recorded: each found point is near a stored one. */
  ghost predicate Recorded(all: seq<Line>, points: seq<Point>, i: nat, j: nat)
  {
    forall i', j' :: 0 <= i' < j' < |all| && (i' < i || (i' == i && j' < j)) && Found(all, i', j').Some? ==>
      Near(points, Found(all, i', j').value)
  }

  lemma NearAppend(points: seq<Point>, p: Point, q: Point)
    requires Near(points, q)
    ensures Near(points + [p], q)
  {
    var k :| 0 <= k < |points| && Close(points[k], q);
    assert (points + [p])[k] == points[k];
  }

  /** Appending a point keeps every recorded pair recorded. */
  lemma RecordedAppend(all: seq<Line>, points: seq<Point>, p: Point, i: nat, j: nat)
    requires Recorded(all, points, i, j)
    ensures Recorded(all, points + [p], i, j)
  {
    forall i', j' | 0 <= i' < j' < |all| && (i' < i || (i' == i && j' < j)) && Found(all, i', j').Some?
      ensures Near(points + [p], Found(all, i', j').value)
    {
      NearAppend(points, p, Found(all, i', j').value);
    }
  }

  /** The list after visiting pair (i, j): the pair's point is appended
      unless a close point is already stored. */
  function Visit(all: seq<Line>, points: seq<Point>, i: nat, j: nat): seq<Point>
    requires i < j < |all|
  {
    match Found(all, i, j)
    case None => points
    case Some(p) => if Near(points, p) then points else points + [p]
  }

  /** The list once rows 0 .. i-1 of the pair loop are done. */
  function RowsBefore(all: seq<Line>, i: nat): seq<Point>
    requires i <= |all|
    decreases i, 0
  {
    if i == 0 then [] else PairsBefore(all, i - 1, |all|)
  }

  /** The list once rows before i and the pairs (i, i+1) .. (i, j-1) are
      done, in the order of the nested `for` loops. */
  function PairsBefore(all: seq<Line>, i: nat, j: nat): seq<Point>
    requires i < j <= |all|
    decreases i, j
  {
    if j == i + 1 then RowsBefore(all, i) else Visit(all, PairsBefore(all, i, j - 1), i, j - 1)
  }

  /** The stored vertices, in the order the pair loop pushes them. */
  function VerticesOf(all: seq<Line>): seq<Point>
  {
    RowsBefore(all, |all|)
  }

  /** The vertex loop of `generateGraphData` for pair (i, j): store the
      rounded intersection unless a close point is already stored. */
  method VisitPair(all: seq<Line>, points: seq<Point>, i: nat, j: nat) returns (points': seq<Point>)
    requires i < j < |all|
    requires forall k :: 0 <= k < |points| ==> FoundByPair(all, points[k])
    requires Separated(points) && Recorded(all, points, i, j)
    ensures forall k :: 0 <= k < |points'| ==> FoundByPair(all, points'[k])
    ensures Separated(points') && Recorded(all, points', i, j + 1)
    ensures points' == Visit(all, points, i, j)
  {
    points' := points;
    var intersection := Intersect(all[i], all[j]);
    if intersection.Some? && InWindow(intersection.value) {
      var q := intersection.value;
      if SatisfiesAll(q, all) {
        var rounded := Point(Round4(q.x), Round4(q.y));
        assert Found(all, i, j) == Some(rounded);
        var duplicate := Near(points, rounded);
        if !duplicate {
          RecordedAppend(all, points, rounded, i, j);
          points' := points + [rounded];
          assert points'[|points|] == rounded;
        }
      }
    }
  }

  /** The nested pair loop: every stored point is the rounded, feasible,
      in-window intersection of a pair i < j of the augmented list; no two
      stored points are close; every such rounded intersection is close to
      a stored point; and the points are stored in pair-loop order. */
  method Vertices(all: seq<Line>) returns (points: seq<Point>)
    ensures forall k :: 0 <= k < |points| ==> FoundByPair(all, points[k])
    ensures Separated(points)
    ensures forall i, j :: 0 <= i < j < |all| && Found(all, i, j).Some? ==> Near(points, Found(all, i, j).value)
    ensures points == VerticesOf(all)
  {
    points := [];
    for i := 0 to |all|
      invariant forall k :: 0 <= k < |points| ==> FoundByPair(all, points[k])
      invariant Separated(points) && Recorded(all, points, i, i + 1)
      invariant points == RowsBefore(all, i)
    {
      for j := i + 1 to |all|
        invariant forall k :: 0 <= k < |points| ==> FoundByPair(all, points[k])
        invariant Separated(points) && Recorded(all, points, i, j)
        invariant points == PairsBefore(all, i, j)
      {
        points := VisitPair(all, points, i, j);
      }
    }
  }

  function Value(objA: real, objB: real, p: Point): real
  {
    objA * p.x + objB * p.y
  }

  /** Point k is the first with the best objective value: no point is
      better, and every earlier point is strictly worse. */
  predicate FirstBest(points: seq<Point>, k: nat, objA: real, objB: real, goal: Goal)
    requires k < |points|
  {
    FirstBestAmong(points, |points|, k, objA, objB, goal)
  }

  /** The same among the first `n` points. */
  predicate FirstBestAmong(points: seq<Point>, n: nat, k: nat, objA: real, objB: real, goal: Goal)
    requires k < n <= |points|
  {
    var v := Value(objA, objB, points[k]);
    match goal
    case Maximize =>
      (forall i :: 0 <= i < n ==> Value(objA, objB, points[i]) <= v)
      && (forall i :: 0 <= i < k ==> Value(objA, objB, points[i]) < v)
    case Minimize =>
      (forall i :: 0 <= i < n ==> Value(objA, objB, points[i]) >= v)
      && (forall i :: 0 <= i < k ==> Value(objA, objB, points[i]) > v)
  }

  /** At most one point is the first best, so on ties the earliest stored
      vertex is the answer. */
  lemma FirstBestUnique(points: seq<Point>, k: nat, k': nat, objA: real, objB: real, goal: Goal)
    requires k < |points| && k' < |points|
    requires FirstBest(points, k, objA, objB, goal) && FirstBest(points, k', objA, objB, goal)
    ensures k == k'
  {
  }

  /** The `forEach` keeping the best point with a strict comparison, from
      -Infinity for maximisation and +Infinity for minimisation (so the
      first point is always taken). */
  method Optimum(points: seq<Point>, objA: real, objB: real, goal: Goal) returns (best: Option<Point>, bestValue: real)
    ensures best.None? <==> |points| == 0
    ensures best.Some? ==>
      && bestValue == Value(objA, objB, best.value)
      && (exists k :: 0 <= k < |points| && points[k] == best.value && FirstBest(points, k, objA, objB, goal))
  {
    best, bestValue := None, 0.0;
    ghost var index := 0;
    for i := 0 to |points|
      invariant best.None? <==> i == 0
      invariant best.Some? ==> index < i && points[index] == best.value && bestValue == Value(objA, objB, best.value)
      invariant best.Some? ==> FirstBestAmong(points, i, index, objA, objB, goal)
    {
      var value := Value(objA, objB, points[i]);
      if best.None? || (goal == Maximize && value > bestValue) || (goal == Minimize && value < bestValue) {
        best, bestValue := Some(points[i]), value;
        index := i;
      }
    }
  }

  datatype Solution = Solution(x: real, y: real, value: real)

  /** `generateGraphData` without the drawing: the vertices of the augmented
      constraint list, and the best vertex with its coordinates and value
      rounded to two decimals; no solution when there is no vertex. */
  method SolveGraphical(constraints: seq<Line>, objA: real, objB: real, goal: Goal) returns (vertices: seq<Point>, solution: Option<Solution>)
    ensures var all := WithNonNegativity(constraints);
      && (forall k :: 0 <= k < |vertices| ==> FoundByPair(all, vertices[k]))
      && Separated(vertices)
      && (forall i, j :: 0 <= i < j < |all| && Found(all, i, j).Some? ==> Near(vertices, Found(all, i, j).value))
      && vertices == VerticesOf(all)
    ensures solution.None? <==> |vertices| == 0
    ensures solution.Some? ==>
      exists k :: (0 <= k < |vertices| && FirstBest(vertices, k, objA, objB, goal) &&
                   solution.value == Solution(Round2(vertices[k].x), Round2(vertices[k].y), Round2(Value(objA, objB, vertices[k]))))
  {
    var all := WithNonNegativity(constraints);
    vertices := Vertices(all);
    var best, bestValue := Optimum(vertices, objA, objB, goal);
    if |vertices| == 0 {
      solution := None;
    } else {
      var p := best.value;
      solution := Some(Solution(Round2(p.x), Round2(p.y), Round2(bestValue)));
    }
  }

  /** Every stored vertex is a feasible in-window intersection of two
      augmented constraint lines, moved by at most 0.00005 per coordinate. */
  lemma StoredVertexIsRoundedFeasible(all: seq<Line>, p: Point)
    requires FoundByPair(all, p)
    ensures exists i, j, q :: (0 <= i < j < |all| && Intersect(all[i], all[j]) == Some(q) &&
                               InWindow(q) && SatisfiesAll(q, all) && Abs(p.x - q.x) <= 0.00005 && Abs(p.y - q.y) <= 0.00005)
  {
    var i, j :| 0 <= i < j < |all| && Found(all, i, j) == Some(p);
    var q := Intersect(all[i], all[j]).value;
    assert Intersect(all[i], all[j]) == Some(q);
  }
}
