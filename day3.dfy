/** Day 3 (src/days/day_3.rs): two wires laid out on a grid from the
    central port, where they cross, and how far away the crossings are. */
module Day3 {
  import opened Wrappers
  import opened Strings

  datatype Direction = Up(distance: u32) | Down(distance: u32) | Left(distance: u32) | Right(distance: u32)

  datatype Point = Point(x: int, y: int)

  /** The central port. */
  const Origin: Point := Point(0, 0)

  /** One segment such as `R75`: the first character is the direction, the
      rest a u32 distance, parsed first; an empty segment is fatal. */
  function ParseSegment(segment: string): (r: Result<Direction>)
    ensures r.Ok? <==> |segment| >= 1 && segment[0] in "UDLR" && ParseU32(segment[1..]).Some?
    ensures r.Ok? ==> |segment| >= 2 && Letter(r.value) == segment[0]
    ensures r.Ok? ==> ParseU32(segment[1..]) == Some(r.value.distance)
    ensures |segment| == 0 ==> r == Err(EmptySegment)
    ensures |segment| >= 1 && ParseU32(segment[1..]).None? ==> r == Err(InvalidDistance)
  {
    if |segment| < 1 then Err(EmptySegment)
    else
      match ParseU32(segment[1..])
      case None => Err(InvalidDistance)
      case Some(d) =>
        match segment[0]
        case 'U' => Ok(Up(d))
        case 'D' => Ok(Down(d))
        case 'L' => Ok(Left(d))
        case 'R' => Ok(Right(d))
        case _ => Err(InvalidDirection)
  }

  /** The `collect` into a `Result`: every segment parsed, the first
      failure fatal. */
  function ParseSegments(segments: seq<string>): (r: Result<seq<Direction>>)
    ensures r.Ok? ==> |r.value| == |segments|
    ensures r.Ok? ==> forall i :: 0 <= i < |segments| ==> ParseSegment(segments[i]) == Ok(r.value[i])
    decreases |segments|
  {
    if segments == [] then Ok([])
    else
      match ParseSegment(segments[0])
      case Err(e) => Err(e)
      case Ok(d) =>
        match ParseSegments(segments[1..])
        case Err(e) => Err(e)
        case Ok(rest) => Ok([d] + rest)
  }

  /** `parse_wire_path`: the comma-separated segments of one wire, one
      direction per segment, in order. */
  function ParseWirePath(wire: string): (r: Result<seq<Direction>>)
    ensures r.Ok? ==> |r.value| == |Split(wire, ',')|
    ensures r.Ok? ==> forall i :: 0 <= i < |r.value| ==> ParseSegment(Split(wire, ',')[i]) == Ok(r.value[i])
  {
    ParseSegments(Split(wire, ','))
  }

  /** `read_wire_paths` on the lines of the input: the first two lines are
      the two wires; fewer lines is fatal, and so is a malformed wire. */
  function ReadWirePaths(lines: seq<string>): (r: Result<(seq<Direction>, seq<Direction>)>)
    ensures r.Ok? ==> |lines| >= 2
    ensures r.Ok? ==> ParseWirePath(lines[0]) == Ok(r.value.0) && ParseWirePath(lines[1]) == Ok(r.value.1)
    ensures |lines| < 2 ==> r == Err(MissingWire)
    ensures |lines| >= 2 && ParseWirePath(lines[0]).Err? ==> r == Err(ParseWirePath(lines[0]).error)
  {
    if |lines| < 2 then Err(MissingWire)
    else
      match ParseWirePath(lines[0])
      case Err(e) => Err(e)
      case Ok(wire1) =>
        match ParseWirePath(lines[1])
        case Err(e) => Err(e)
        case Ok(wire2) => Ok((wire1, wire2))
  }

  function Letter(d: Direction): char {
    match d
    case Up(_) => 'U'
    case Down(_) => 'D'
    case Left(_) => 'L'
    case Right(_) => 'R'
  }

  /** The textual form of a segment, as in the puzzle input. */
  function ShowSegment(d: Direction): string {
    [Letter(d)] + ShowNat(d.distance)
  }

  function ShowWirePath(wire: seq<Direction>): string
    requires |wire| >= 1
  {
    Join(seq(|wire|, i requires 0 <= i < |wire| => ShowSegment(wire[i])), ',')
  }

  lemma ParseShowSegment(d: Direction)
    ensures ParseSegment(ShowSegment(d)) == Ok(d)
  {
    ParseShowU32(d.distance);
    assert ShowSegment(d)[1..] == ShowNat(d.distance);
  }

  /** Parsing inverts rendering for every non-empty wire. */
  lemma ParseShowWirePath(wire: seq<Direction>)
    requires |wire| >= 1
    ensures ParseWirePath(ShowWirePath(wire)) == Ok(wire)
  {
    var parts := seq(|wire|, i requires 0 <= i < |wire| => ShowSegment(wire[i]));
    forall i | 0 <= i < |parts|
      ensures ',' !in parts[i]
    {
      var digits := ShowNat(wire[i].distance);
      assert parts[i] == [Letter(wire[i])] + digits;
      assert forall k :: 0 < k < |parts[i]| ==> parts[i][k] == digits[k - 1];
    }
    SplitJoin(parts, ',');
    ParseSegmentsOfShown(wire);
  }

  /** Two rendered wires, whatever follows them, read back as themselves. */
  lemma ReadShownWires(wire1: seq<Direction>, wire2: seq<Direction>, rest: seq<string>)
    requires |wire1| >= 1 && |wire2| >= 1
    ensures ReadWirePaths([ShowWirePath(wire1), ShowWirePath(wire2)] + rest) == Ok((wire1, wire2))
  {
    ParseShowWirePath(wire1);
    ParseShowWirePath(wire2);
  }

  lemma {:induction false} ParseSegmentsOfShown(wire: seq<Direction>)
    ensures ParseSegments(seq(|wire|, i requires 0 <= i < |wire| => ShowSegment(wire[i]))) == Ok(wire)
    decreases |wire|
  {
    var parts := seq(|wire|, i requires 0 <= i < |wire| => ShowSegment(wire[i]));
    if wire != [] {
      ParseShowSegment(wire[0]);
      ParseSegmentsOfShown(wire[1..]);
      assert parts[1..] == seq(|wire[1..]|, i requires 0 <= i < |wire[1..]| => ShowSegment(wire[1..][i]));
      assert [wire[0]] + wire[1..] == wire;
    }
  }

  /** The unit step of a direction. */
  function StepOf(d: Direction): (step: (int, int))
    ensures Abs(step.0) + Abs(step.1) == 1
  {
    match d
    case Up(_) => (0, 1)
    case Down(_) => (0, -1)
    case Left(_) => (-1, 0)
    case Right(_) => (1, 0)
  }

  function Abs(v: int): nat {
    if v < 0 then -v else v
  }

  /** The points a segment covers after `start`, one per unit step. */
  function Segment(start: Point, d: Direction): (points: seq<Point>)
    ensures |points| == d.distance
  {
    seq(d.distance, k requires 0 <= k < d.distance => Offset(start, d, k + 1))
  }

  /** The point `n` unit steps from `start` in direction `d`. */
  function Offset(start: Point, d: Direction, n: nat): Point {
    var (dx, dy) := StepOf(d);
    Point(start.x + n * dx, start.y + n * dy)
  }

  lemma OffsetNext(start: Point, d: Direction, n: nat)
    ensures Offset(start, d, 0) == start
    ensures Offset(start, d, n + 1) == Point(Offset(start, d, n).x + StepOf(d).0, Offset(start, d, n).y + StepOf(d).1)
  {
  }

  function EndOf(start: Point, d: Direction): Point {
    Offset(start, d, d.distance)
  }

  /** Every point a wire visits after `start`, in order, `start` itself
      excluded: one point per unit of distance. */
  function Walk(start: Point, wire: seq<Direction>): (points: seq<Point>)
    ensures |points| == TotalDistance(wire)
    decreases |wire|
  {
    if wire == [] then [] else Segment(start, wire[0]) + Walk(EndOf(start, wire[0]), wire[1..])
  }

  function TotalDistance(wire: seq<Direction>): nat
    decreases |wire|
  {
    if wire == [] then 0 else wire[0].distance + TotalDistance(wire[1..])
  }

  /** `a` and `b` are one unit step apart. */
  predicate Adjacent(a: Point, b: Point) {
    Abs(a.x - b.x) + Abs(a.y - b.y) == 1
  }

  function LastOr(start: Point, points: seq<Point>): Point {
    if points == [] then start else points[|points| - 1]
  }

  /** Each point is one step from the one before, the first one step from
      `start`. */
  predicate Chained(start: Point, points: seq<Point>) {
    && (|points| > 0 ==> Adjacent(start, points[0]))
    && forall i :: 0 < i < |points| ==> Adjacent(points[i - 1], points[i])
  }

  lemma ChainedConcat(start: Point, a: seq<Point>, b: seq<Point>)
    requires Chained(start, a) && Chained(LastOr(start, a), b)
    ensures Chained(start, a + b) && LastOr(start, a + b) == LastOr(LastOr(start, a), b)
  {
    var ab := a + b;
    forall i | 0 < i < |ab|
      ensures Adjacent(ab[i - 1], ab[i])
    {
      if i > |a| {
        assert ab[i - 1] == b[i - 1 - |a|] && ab[i] == b[i - |a|];
      } else if i == |a| {
        assert ab[i] == b[0];
      }
    }
  }

  lemma SegmentChained(start: Point, d: Direction)
    ensures Chained(start, Segment(start, d)) && LastOr(start, Segment(start, d)) == EndOf(start, d)
  {
    var points := Segment(start, d);
    OffsetNext(start, d, 0);
    forall i | 0 < i < |points|
      ensures Adjacent(points[i - 1], points[i])
    {
      OffsetNext(start, d, i);
    }
  }

  /** The points of a wire are a path of unit steps from `start`. */
  lemma {:induction false} WalkChained(start: Point, wire: seq<Direction>)
    ensures Chained(start, Walk(start, wire))
    decreases |wire|
  {
    if wire != [] {
      var end := EndOf(start, wire[0]);
      SegmentChained(start, wire[0]);
      WalkChained(end, wire[1..]);
      ChainedConcat(start, Segment(start, wire[0]), Walk(end, wire[1..]));
    }
  }

  /** `manhattan_distance`: the taxicab distance from the central port. */
  function ManhattanDistance(x: int, y: int): (d: nat)
    ensures d == 0 <==> x == 0 && y == 0
  {
    Abs(x) + Abs(y)
  }

  /** The i-th point of a path of unit steps is at most `i + 1` further
      from the port than its start. */
  lemma {:induction false} ChainedDistance(start: Point, points: seq<Point>, i: nat)
    requires Chained(start, points) && i < |points|
    ensures ManhattanDistance(points[i].x, points[i].y) <= ManhattanDistance(start.x, start.y) + i + 1
  {
    if i > 0 {
      ChainedDistance(start, points, i - 1);
    }
  }

  /** `points_intersections`: the points on both wires. */
  function Intersections(a: seq<Point>, b: seq<Point>): (both: set<Point>)
    ensures forall p :: p in both <==> p in a && p in b
  {
    set p | p in a && p in b
  }

  /** The crossings of the two wires. */
  function Crossings(wire1: seq<Direction>, wire2: seq<Direction>): set<Point> {
    Intersections(Walk(Origin, wire1), Walk(Origin, wire2))
  }

  /** `position`: the first index of `p`. */
  function FirstIndex(points: seq<Point>, p: Point): (i: nat)
    requires p in points
    ensures i < |points| && points[i] == p
    ensures forall j :: 0 <= j < i ==> points[j] != p
    decreases |points|
  {
    if points[0] == p then 0 else 1 + FirstIndex(points[1..], p)
  }

  /** The combined steps both wires take to first reach `p`; indices start
      at 0 but the first point is one step out. */
  function StepsTo(a: seq<Point>, b: seq<Point>, p: Point): nat
    requires p in a && p in b
  {
    FirstIndex(a, p) + FirstIndex(b, p) + 2
  }

  /** A crossing is never further from the port than the steps the two
      wires need to reach it. */
  lemma DistanceWithinSteps(wire1: seq<Direction>, wire2: seq<Direction>, p: Point)
    requires p in Crossings(wire1, wire2)
    ensures ManhattanDistance(p.x, p.y) < StepsTo(Walk(Origin, wire1), Walk(Origin, wire2), p)
  {
    var a := Walk(Origin, wire1);
    WalkChained(Origin, wire1);
    ChainedDistance(Origin, a, FirstIndex(a, p));
  }

  /** The loop of `wire_points`: every segment walked one unit at a time. */
  method WirePoints(wire: seq<Direction>) returns (cords: seq<Point>)
    ensures cords == Walk(Origin, wire)
  {
    cords := [];
    var x, y := 0, 0;
    for i := 0 to |wire|
      invariant Walk(Origin, wire) == cords + Walk(Point(x, y), wire[i..])
    {
      ghost var start, before := Point(x, y), cords;
      cords, x, y := WalkSegment(cords, x, y, wire[i]);
      WalkAdvance(wire, i, start, before, cords, Point(x, y));
    }
    assert wire[|wire|..] == [];
  }

  /** One turn of `wire_points`'s outer loop keeps its invariant. */
  lemma WalkAdvance(wire: seq<Direction>, i: nat, start: Point, before: seq<Point>, cords: seq<Point>, next: Point)
    requires i < |wire|
    requires Walk(Origin, wire) == before + Walk(start, wire[i..])
    requires cords == before + Segment(start, wire[i])
    requires next == EndOf(start, wire[i])
    ensures Walk(Origin, wire) == cords + Walk(next, wire[i + 1..])
  {
    WalkUnfold(start, wire, i);
  }

  lemma WalkUnfold(start: Point, wire: seq<Direction>, i: nat)
    requires i < |wire|
    ensures Walk(start, wire[i..]) == Segment(start, wire[i]) + Walk(EndOf(start, wire[i]), wire[i + 1..])
  {
    assert wire[i..][1..] == wire[i + 1..];
  }

  /** The inner loop of `wire_points`: one segment, one unit step at a
      time, each point appended. */
  method WalkSegment(before: seq<Point>, x0: int, y0: int, d: Direction) returns (cords: seq<Point>, x: int, y: int)
    ensures cords == before + Segment(Point(x0, y0), d)
    ensures Point(x, y) == EndOf(Point(x0, y0), d)
  {
    var (dx, dy) := StepOf(d);
    cords, x, y := before, x0, y0;
    OffsetNext(Point(x0, y0), d, 0);
    for k := 0 to d.distance
      invariant Point(x, y) == Offset(Point(x0, y0), d, k)
      invariant cords == before + Segment(Point(x0, y0), d)[..k]
    {
      OffsetNext(Point(x0, y0), d, k);
      x := x + dx;
      y := y + dy;
      cords := cords + [Point(x, y)];
    }
    assert Segment(Point(x0, y0), d)[..d.distance] == Segment(Point(x0, y0), d);
  }

  /** `u32::MAX`, the initial bound of `closest_wire_intersection`. */
  const U32Max: nat := U32Limit - 1

  /** `closest_wire_intersection` on parsed wires: over the crossings in
      any order, keep one strictly closer than the best so far. */
  method ClosestWireIntersection(wire1: seq<Direction>, wire2: seq<Direction>) returns (r: Result<Point>)
    ensures var crossings := Crossings(wire1, wire2);
      && (r.Ok? ==> r.value in crossings && ManhattanDistance(r.value.x, r.value.y) < U32Max)
      && (r.Ok? ==> forall q :: q in crossings ==> ManhattanDistance(r.value.x, r.value.y) <= ManhattanDistance(q.x, q.y))
      && (r.Err? <==> forall q :: q in crossings ==> ManhattanDistance(q.x, q.y) >= U32Max)
      && (r.Err? ==> r.error == NoIntersection)
  {
    var points1 := WirePoints(wire1);
    var points2 := WirePoints(wire2);
    var intersections := Intersections(points1, points2);
    var closestIntersection: Option<Point> := None;
    var closestDistance: Option<nat> := None;
    var remaining := intersections;
    while remaining != {}
      invariant remaining <= intersections
      invariant closestIntersection.None? <==> closestDistance.None?
      invariant closestIntersection.Some? ==>
        && closestIntersection.value in intersections
        && closestDistance.value == ManhattanDistance(closestIntersection.value.x, closestIntersection.value.y)
        && closestDistance.value < U32Max
      invariant forall q :: q in intersections && q !in remaining ==>
        ManhattanDistance(q.x, q.y) >= closestDistance.GetOr(U32Max)
      decreases remaining
    {
      var intersection :| intersection in remaining;
      remaining := remaining - {intersection};
      var distance := ManhattanDistance(intersection.x, intersection.y);
      if distance < closestDistance.GetOr(U32Max) {
        closestDistance := Some(distance);
        closestIntersection := Some(intersection);
      }
    }
    if closestIntersection.Some? {
      return Ok(closestIntersection.value);
    }
    return Err(NoIntersection);
  }

  /** `total_steps_to_intersections`: the combined steps of every crossing,
      one entry per crossing, in the order the crossings are visited;
      `picked` is that order. */
  method TotalStepsToIntersections(wire1: seq<Direction>, wire2: seq<Direction>)
      returns (steps: seq<nat>, ghost picked: seq<Point>)
    ensures var a, b := Walk(Origin, wire1), Walk(Origin, wire2);
      && |steps| == |Crossings(wire1, wire2)|
      && (forall s :: s in steps ==> exists p :: p in Crossings(wire1, wire2) && StepsTo(a, b, p) == s)
      && (forall p :: p in Crossings(wire1, wire2) ==> StepsTo(a, b, p) in steps)
    ensures |picked| == |steps|
    ensures forall i, j :: 0 <= i < j < |picked| ==> picked[i] != picked[j]
    ensures forall p :: p in picked <==> p in Crossings(wire1, wire2)
    ensures forall j :: 0 <= j < |steps| ==>
      steps[j] == StepsTo(Walk(Origin, wire1), Walk(Origin, wire2), picked[j])
  {
    var points1 := WirePoints(wire1);
    var points2 := WirePoints(wire2);
    var intersections := Intersections(points1, points2);
    steps, picked := StepsOfEach(points1, points2, intersections);
    EachStepsHasCrossing(points1, points2, intersections, picked, steps);
    EachCrossingHasSteps(points1, points2, intersections, picked, steps);
  }

  /** The loop of `total_steps_to_intersections` over the crossings `both`
      of the point lists `a` and `b`, in any order: one entry per crossing,
      in the order `picked`. */
  method StepsOfEach(a: seq<Point>, b: seq<Point>, both: set<Point>) returns (steps: seq<nat>, ghost picked: seq<Point>)
    requires forall p :: p in both ==> p in a && p in b
    ensures |steps| == |picked| == |both|
    ensures forall i, j :: 0 <= i < j < |picked| ==> picked[i] != picked[j]
    ensures forall p :: p in picked <==> p in both
    ensures forall j :: 0 <= j < |steps| ==> steps[j] == StepsTo(a, b, picked[j])
  {
    steps := [];
    picked := [];
    var remaining := both;
    while remaining != {}
      invariant remaining <= both
      invariant |steps| == |picked| && |steps| + |remaining| == |both|
      invariant forall j :: 0 <= j < |picked| ==> picked[j] in both && steps[j] == StepsTo(a, b, picked[j])
      invariant forall j :: 0 <= j < |picked| ==> picked[j] !in remaining
      invariant forall i, j :: 0 <= i < j < |picked| ==> picked[i] != picked[j]
      invariant forall p :: p in both && p !in remaining ==> p in picked
      decreases remaining
    {
      var intersection :| intersection in remaining;
      remaining := remaining - {intersection};
      steps := steps + [FirstIndex(a, intersection) + FirstIndex(b, intersection) + 2];
      picked := picked + [intersection];
    }
  }

  /** Steps recorded for every picked crossing cover every crossing. */
  lemma EachCrossingHasSteps(a: seq<Point>, b: seq<Point>, both: set<Point>, picked: seq<Point>, steps: seq<nat>)
    requires forall p :: p in both ==> p in a && p in b
    requires |steps| == |picked| && forall p :: p in both ==> p in picked
    requires forall j :: 0 <= j < |picked| ==> picked[j] in both && steps[j] == StepsTo(a, b, picked[j])
    ensures forall p :: p in both ==> StepsTo(a, b, p) in steps
  {
    forall p | p in both
      ensures StepsTo(a, b, p) in steps
    {
      var j :| 0 <= j < |picked| && picked[j] == p;
      assert steps[j] == StepsTo(a, b, p);
    }
  }

  /** Steps recorded one per picked crossing each belong to a crossing. */
  lemma EachStepsHasCrossing(a: seq<Point>, b: seq<Point>, both: set<Point>, picked: seq<Point>, steps: seq<nat>)
    requires forall p :: p in both ==> p in a && p in b
    requires |steps| == |picked|
    requires forall j :: 0 <= j < |picked| ==> picked[j] in both && steps[j] == StepsTo(a, b, picked[j])
    ensures forall s :: s in steps ==> exists p :: p in both && StepsTo(a, b, p) == s
  {
    forall s | s in steps
      ensures exists p :: p in both && StepsTo(a, b, p) == s
    {
      var j :| 0 <= j < |steps| && steps[j] == s;
      assert picked[j] in both && StepsTo(a, b, picked[j]) == s;
    }
  }

  /** `Iterator::min` on a non-empty sequence. */
  function MinOf(s: seq<nat>): (m: nat)
    requires |s| > 0
    ensures m in s && forall x :: x in s ==> m <= x
    decreases |s|
  {
    if |s| == 1 then s[0]
    else
      var rest := MinOf(s[1..]);
      assert forall x :: x in s[1..] ==> rest <= x;
      assert forall x :: x in s ==> x == s[0] || x in s[1..];
      if s[0] <= rest then s[0] else rest
  }

  /** `lowest_steps_to_intersection` on parsed wires: the fewest combined
      steps to any crossing; no crossing is fatal. */
  method LowestStepsToIntersection(wire1: seq<Direction>, wire2: seq<Direction>) returns (r: Result<nat>)
    ensures var a, b := Walk(Origin, wire1), Walk(Origin, wire2);
      && (r.Err? <==> Crossings(wire1, wire2) == {})
      && (r.Ok? ==> exists p :: p in Crossings(wire1, wire2) && StepsTo(a, b, p) == r.value)
      && (r.Ok? ==> forall p :: p in Crossings(wire1, wire2) ==> r.value <= StepsTo(a, b, p))
  {
    var steps;
    ghost var picked;
    steps, picked := TotalStepsToIntersections(wire1, wire2);
    if |steps| == 0 {
      return Err(NoIntersection);
    }
    r := Ok(MinOf(steps));
  }
}
