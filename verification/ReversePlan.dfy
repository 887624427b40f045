/** The reverse-plan handshake: the goal adapter samples a straight segment into a plan, and
    the safety gate decides, from the plan alone, whether it is straight. */
module ReversePlan {
  import opened Numbers

  const LENGTH_EPSILON: real := 0.001

  datatype StraightLimits = StraightLimits(
    minLength: real, maxLateral: real, maxHeadingSpan: real, maxLengthRatio: real)

  // The length of the line through the points.
  function PathLength(m: Maths, points: seq<Point>): real {
    if |points| < 2 then 0.0
    else PathLength(m, points[..|points| - 1]) + m.Distance(points[|points| - 2], points[|points| - 1])
  }

  // ----- The adapter's side -----

  function SampleCount(distance: real, spacing: real): int
    requires spacing > 0.0
  {
    MaxInt(3, Ceil(distance / spacing) + 1)
  }

  function Lerp(a: Point, b: Point, ratio: real): Point {
    Point(a.x + ratio * (b.x - a.x), a.y + ratio * (b.y - a.y))
  }

  function StraightPath(m: Maths, start: Point, target: Point): (path: seq<Point>)
    ensures |path| >= 3
  {
    var n := SampleCount(m.Distance(start, target), 0.05);
    seq(n, i requires 0 <= i < n => Lerp(start, target, i as real / (n - 1) as real))
  }

  method MakeStraightPath(m: Maths, start: Point, target: Point) returns (path: seq<Point>)
    ensures path == StraightPath(m, start, target)
  {
    var samples := SampleCount(m.Distance(start, target), 0.05);
    path := [];
    for index := 0 to samples
      invariant path == StraightPath(m, start, target)[..index]
    {
      var ratio := index as real / (samples - 1) as real;
      path := path + [Lerp(start, target, ratio)];
    }
  }

  // ----- The gate's side -----

  datatype Leg = Leg(length: real, heading: real)

  // Drops every sample closer than a centimetre to the last one kept.
  function Thin(m: Maths, poses: seq<Point>): seq<Point> {
    if |poses| == 0 then []
    else
      var kept, p := Thin(m, poses[..|poses| - 1]), poses[|poses| - 1];
      if |kept| == 0 || m.Distance(kept[|kept| - 1], p) >= 0.01 then kept + [p] else kept
  }

  function Legs(m: Maths, points: seq<Point>): seq<Leg> {
    if |points| < 2 then []
    else
      var n := |points|;
      var a, b := points[n - 2], points[n - 1];
      var length := m.Distance(a, b);
      Legs(m, points[..n - 1])
      + (if length < 0.000001 then [] else [Leg(length, m.Heading(a, b))])
  }

  function TotalLength(legs: seq<Leg>): real {
    if |legs| == 0 then 0.0 else TotalLength(legs[..|legs| - 1]) + legs[|legs| - 1].length
  }

  function MaxOf(s: seq<real>): real
    requires |s| > 0
  {
    if |s| == 1 then s[0] else Max(MaxOf(s[..|s| - 1]), s[|s| - 1])
  }

  function MinOf(s: seq<real>): real
    requires |s| > 0
  {
    if |s| == 1 then s[0] else Min(MinOf(s[..|s| - 1]), s[|s| - 1])
  }

  function LateralError(start: Point, chord: Point, chordLength: real, p: Point): real
    requires chordLength > 0.0
  {
    Abs(chord.x * (start.y - p.y) - (start.x - p.x) * chord.y) / chordLength
  }

  function Laterals(start: Point, chord: Point, chordLength: real, points: seq<Point>): (r: seq<real>)
    requires chordLength > 0.0
    ensures |r| == |points|
    ensures forall i :: 0 <= i < |r| ==> r[i] == LateralError(start, chord, chordLength, points[i])
  {
    seq(|points|, i requires 0 <= i < |points| => LateralError(start, chord, chordLength, points[i]))
  }

  // Headings relative to the first one.
  function Turns(m: Maths, legs: seq<Leg>): (r: seq<real>)
    ensures |r| == |legs|
    ensures forall i :: 0 <= i < |r| ==> r[i] == m.wrap(legs[i].heading - legs[0].heading)
  {
    seq(|legs|, i requires 0 <= i < |legs| => m.wrap(legs[i].heading - legs[0].heading))
  }

  predicate IsStraight(m: Maths, lim: StraightLimits, points: seq<Point>, legs: seq<Leg>)
    requires |points| >= 2 && |legs| > 0
  {
    var start, end := points[0], points[|points| - 1];
    var chord := Point(end.x - start.x, end.y - start.y);
    var chordLength := m.hypot(chord.x, chord.y);
    chordLength >= 0.000001
    && MaxOf(Laterals(start, chord, chordLength, points)) <= lim.maxLateral
    && MaxOf(Turns(m, legs)) - MinOf(Turns(m, legs)) <= lim.maxHeadingSpan
    && TotalLength(legs) / chordLength <= lim.maxLengthRatio
  }

  predicate Classified(m: Maths, lim: StraightLimits, poses: seq<Point>)
  {
    var points := Thin(m, poses);
    var legs := Legs(m, points);
    && |points| >= 2
    && TotalLength(legs) + LENGTH_EPSILON >= lim.minLength
    && |legs| > 0
    && IsStraight(m, lim, points, legs)
  }

  method ThinPlan(m: Maths, poses: seq<Point>) returns (points: seq<Point>)
    ensures points == Thin(m, poses)
  {
    points := [];
    for i := 0 to |poses|
      invariant points == Thin(m, poses[..i])
    {
      assert poses[..i + 1][..i] == poses[..i];
      if |points| == 0 || m.Distance(points[|points| - 1], poses[i]) >= 0.01 {
        points := points + [poses[i]];
      }
    }
    assert poses[..|poses|] == poses;
  }

  method MeasureLegs(m: Maths, points: seq<Point>) returns (legs: seq<Leg>)
    requires |points| >= 1
    ensures legs == Legs(m, points)
  {
    legs := [];
    for i := 0 to |points| - 1
      invariant legs == Legs(m, points[..i + 1])
    {
      assert points[..i + 2][..i + 1] == points[..i + 1];
      var length := m.Distance(points[i], points[i + 1]);
      if length >= 0.000001 {
        legs := legs + [Leg(length, m.Heading(points[i], points[i + 1]))];
      }
    }
    assert points[..|points|] == points;
  }

  method ClassifyPlan(m: Maths, lim: StraightLimits, poses: seq<Point>) returns (straight: bool)
    ensures straight == Classified(m, lim, poses)
  {
    var points := ThinPlan(m, poses);
    if |points| < 2 {
      return false;
    }
    var legs := MeasureLegs(m, points);
    if TotalLength(legs) + LENGTH_EPSILON < lim.minLength || |legs| == 0 {
      return false;
    }
    straight := IsStraight(m, lim, points, legs);
  }

  // ----- What one side makes of the other -----

  lemma {:induction false} CeilBounds(x: real)
    ensures x <= Ceil(x) as real < x + 1.0
  {
  }

  lemma {:induction false} LerpStep(a: Point, b: Point, i: nat, n: nat)
    requires n > 0
    ensures var (p, q) := (Lerp(a, b, i as real / n as real), Lerp(a, b, (i + 1) as real / n as real));
            q.x - p.x == (b.x - a.x) / n as real && q.y - p.y == (b.y - a.y) / n as real
  {
    var k := n as real;
    assert (i + 1) as real / k - i as real / k == 1.0 / k;
    assert (b.x - a.x) * (1.0 / k) == (b.x - a.x) / k && (b.y - a.y) * (1.0 / k) == (b.y - a.y) / k;
    assert ((i + 1) as real / k) * (b.x - a.x) - (i as real / k) * (b.x - a.x) == (1.0 / k) * (b.x - a.x);
    assert ((i + 1) as real / k) * (b.y - a.y) - (i as real / k) * (b.y - a.y) == (1.0 / k) * (b.y - a.y);
  }

  lemma {:induction false} ScaledHypot(m: Maths, dx: real, dy: real, k: real)
    requires m.Valid() && k > 0.0
    ensures m.hypot(dx / k, dy / k) == m.hypot(dx, dy) / k
  {
    var j := 1.0 / k;
    HypotTimes(m, dx, dy, j);
    assert dx * j == dx / k && dy * j == dy / k && m.hypot(dx, dy) * j == m.hypot(dx, dy) / k;
  }

  lemma {:induction false} ThinKeepsSpaced(m: Maths, pts: seq<Point>, dx: real, dy: real)
    requires EvenlySpaced(pts, dx, dy) && m.hypot(dx, dy) >= 0.01
    ensures Thin(m, pts) == pts
  {
    if |pts| > 0 {
      var init, n := pts[..|pts| - 1], |pts| - 1;
      EvenInit(pts, dx, dy);
      ThinKeepsSpaced(m, init, dx, dy);
      if n > 0 { assert StepIs(pts, n, dx, dy); }
    }
  }

  predicate StepIs(pts: seq<Point>, i: int, dx: real, dy: real)
    requires 0 < i < |pts|
  {
    pts[i].x - pts[i - 1].x == dx && pts[i].y - pts[i - 1].y == dy
  }

  // Consecutive points of an evenly spaced line differ by the same vector.
  ghost predicate EvenlySpaced(pts: seq<Point>, dx: real, dy: real) {
    forall i :: 0 < i < |pts| ==> StepIs(pts, i, dx, dy)
  }

  lemma {:induction false} EvenInit(pts: seq<Point>, dx: real, dy: real)
    requires |pts| > 0 && EvenlySpaced(pts, dx, dy)
    ensures EvenlySpaced(pts[..|pts| - 1], dx, dy)
  {
    var init := pts[..|pts| - 1];
    forall i | 0 < i < |init| ensures StepIs(init, i, dx, dy) {
      assert StepIs(pts, i, dx, dy);
    }
  }

  lemma {:induction false} LegsOfEvenLine(m: Maths, pts: seq<Point>, dx: real, dy: real)
    requires |pts| >= 1 && EvenlySpaced(pts, dx, dy) && m.hypot(dx, dy) >= 0.01
    ensures |Legs(m, pts)| == |pts| - 1
    ensures forall i :: 0 <= i < |pts| - 1 ==> Legs(m, pts)[i] == Leg(m.hypot(dx, dy), m.atan2(dy, dx))
    ensures TotalLength(Legs(m, pts)) == (|pts| - 1) as real * m.hypot(dx, dy)
  {
    if |pts| > 1 {
      var init := pts[..|pts| - 1];
      EvenInit(pts, dx, dy);
      LegsOfEvenLine(m, init, dx, dy);
      assert StepIs(pts, |pts| - 1, dx, dy);
      var legs := Legs(m, pts);
      assert legs[..|legs| - 1] == Legs(m, init);
    }
  }

  lemma {:induction false} ConstantExtremes(s: seq<real>, c: real)
    requires |s| > 0 && forall i :: 0 <= i < |s| ==> s[i] == c
    ensures MaxOf(s) == c && MinOf(s) == c
  {
    if |s| > 1 { ConstantExtremes(s[..|s| - 1], c); }
  }

  lemma {:induction false} StraightPathShape(m: Maths, start: Point, target: Point)
    requires m.Valid()
    ensures var path := StraightPath(m, start, target);
            var k := (|path| - 1) as real;
            && path[0] == start && path[|path| - 1] == target
            && EvenlySpaced(path, (target.x - start.x) / k, (target.y - start.y) / k)
  {
    var path := StraightPath(m, start, target);
    var n := |path| - 1;
    Quotients(n as real);
    var (dx, dy) := ((target.x - start.x) / n as real, (target.y - start.y) / n as real);
    forall i | 0 < i < |path| ensures StepIs(path, i, dx, dy) {
      LerpStep(start, target, i - 1, n);
    }
  }

  lemma {:induction false} SpacingWide(m: Maths, start: Point, target: Point)
    requires m.Valid()
    ensures m.Distance(start, target) >= 0.02 ==>
            m.Distance(start, target) / (|StraightPath(m, start, target)| - 1) as real >= 0.01
  {
    var d := m.Distance(start, target);
    var k := (|StraightPath(m, start, target)| - 1) as real;
    CeilBounds(d / 0.05);
    if d >= 0.02 {
      assert k <= Max(2.0, d / 0.05 + 1.0);
      assert 0.01 * k <= d;
      DivideOrder(0.01 * k, d, k);
      assert 0.01 * k / k == 0.01;
    }
  }

  // Every sample is kept, and the legs are all alike and add up to `d`.
  ghost predicate PerfectLegs(m: Maths, path: seq<Point>, d: real) {
    var legs := Legs(m, path);
    && Thin(m, path) == path && |legs| == |path| - 1
    && (forall i :: 0 <= i < |legs| ==> legs[i] == legs[0])
    && TotalLength(legs) == d
  }

  // A line of `d` sampled evenly, at least a centimetre apart.
  lemma {:induction false} EvenPathLegs(m: Maths, path: seq<Point>, dx: real, dy: real, k: real, d: real)
    requires |path| >= 2 && k == (|path| - 1) as real
    requires EvenlySpaced(path, dx, dy) && m.hypot(dx, dy) * k == d && m.hypot(dx, dy) >= 0.01
    ensures PerfectLegs(m, path, d)
  {
    ThinKeepsSpaced(m, path, dx, dy);
    LegsOfEvenLine(m, path, dx, dy);
  }

  lemma {:induction false} SpacedPlanLegs(m: Maths, start: Point, target: Point)
    requires m.Valid()
    ensures m.Distance(start, target) >= 0.02 ==>
            PerfectLegs(m, StraightPath(m, start, target), m.Distance(start, target))
  {
    hide StraightPath, PerfectLegs;
    var path := StraightPath(m, start, target);
    var d, k := m.Distance(start, target), (|path| - 1) as real;
    var (dx, dy) := ((target.x - start.x) / k, (target.y - start.y) / k);
    StraightPathShape(m, start, target);
    SpacingWide(m, start, target);
    ScaledHypot(m, target.x - start.x, target.y - start.y, k);
    if d >= 0.02 {
      assert d / k * k == d;
      EvenPathLegs(m, path, dx, dy, k, d);
    }
  }

  // The three tolerances admit a perfectly straight line.
  predicate Tolerant(lim: StraightLimits) {
    lim.maxLateral >= 0.0 && lim.maxHeadingSpan >= 0.0 && lim.maxLengthRatio >= 1.0
  }

  lemma {:induction false} TurnsVanish(m: Maths, legs: seq<Leg>)
    requires m.Valid() && |legs| > 0 && forall i :: 0 <= i < |legs| ==> legs[i] == legs[0]
    ensures MaxOf(Turns(m, legs)) == 0.0 && MinOf(Turns(m, legs)) == 0.0
  {
    WrapZero(m);
    ConstantExtremes(Turns(m, legs), 0.0);
  }

  predicate OnLine(start: Point, target: Point, p: Point, ratio: real) { p == Lerp(start, target, ratio) }

  ghost predicate AllOnLine(start: Point, target: Point, points: seq<Point>) {
    forall p :: p in points ==> exists ratio: real :: OnLine(start, target, p, ratio)
  }

  lemma {:induction false} LateralsVanish(m: Maths, start: Point, target: Point, points: seq<Point>)
    requires |points| > 0 && m.Distance(start, target) > 0.0 && AllOnLine(start, target, points)
    ensures var chord := Point(target.x - start.x, target.y - start.y);
            MaxOf(Laterals(start, chord, m.Distance(start, target), points)) == 0.0
  {
    var chord, d := Point(target.x - start.x, target.y - start.y), m.Distance(start, target);
    forall i | 0 <= i < |points| ensures LateralError(start, chord, d, points[i]) == 0.0 {
      assert points[i] in points;
      var ratio: real :| OnLine(start, target, points[i], ratio);
      assert Point(start.x + chord.x, start.y + chord.y) == target;
      OnTheChord(start, chord, d, ratio);
    }
    ConstantExtremes(Laterals(start, chord, d, points), 0.0);
  }

  lemma {:induction false} OnTheChord(start: Point, chord: Point, length: real, ratio: real)
    requires length > 0.0
    ensures LateralError(start, chord, length,
                         Lerp(start, Point(start.x + chord.x, start.y + chord.y), ratio)) == 0.0
  {
    assert chord.x * (-(ratio * chord.y)) - (-(ratio * chord.x)) * chord.y == 0.0;
    assert 0.0 / length == 0.0;
  }

  // The gate's measures of a perfect line: no lateral error, no turn, ratio one.
  lemma {:induction false} PerfectLineVerdict(m: Maths, lim: StraightLimits, points: seq<Point>, legs: seq<Leg>)
    requires m.Valid() && |points| >= 2 && |legs| > 0 && AllOnLine(points[0], points[|points| - 1], points)
    requires m.Distance(points[0], points[|points| - 1]) >= 0.01
    requires TotalLength(legs) == m.Distance(points[0], points[|points| - 1])
    requires forall i :: 0 <= i < |legs| ==> legs[i] == legs[0]
    ensures IsStraight(m, lim, points, legs) <==> Tolerant(lim)
  {
    hide Maths.Valid, MaxOf, MinOf, Turns, Laterals, AllOnLine, TotalLength;
    LateralsVanish(m, points[0], points[|points| - 1], points);
    TurnsVanish(m, legs);
    Quotients(m.Distance(points[0], points[|points| - 1]));
  }

  // Three samples, the second within a centimetre of the first, keep at most their two ends.
  lemma {:induction false} ThreeSamplesThinned(m: Maths, path: seq<Point>)
    requires |path| == 3
    ensures m.Distance(path[0], path[1]) < 0.01 ==>
            Thin(m, path) == if m.Distance(path[0], path[2]) >= 0.01 then [path[0], path[2]] else [path[0]]
  {
    assert path[..1] == [path[0]] && path[..2] == [path[0], path[1]];
    assert path[..2][..1] == path[..1] && path[..1][..0] == [];
    assert Thin(m, path[..1]) == [path[0]];
  }

  lemma {:induction false} TwoPointLegs(m: Maths, a: Point, b: Point)
    ensures m.Distance(a, b) >= 0.01 ==>
            Legs(m, [a, b]) == [Leg(m.Distance(a, b), m.Heading(a, b))] && TotalLength(Legs(m, [a, b])) == m.Distance(a, b)
  {
    assert [a, b][..1] == [a];
    if m.Distance(a, b) >= 0.01 {
      assert Legs(m, [a]) == [];
      assert Legs(m, [a, b])[..0] == [];
    }
  }

  lemma {:induction false} ShortSegmentHasThree(m: Maths, start: Point, target: Point)
    ensures m.Distance(start, target) < 0.02 ==> |StraightPath(m, start, target)| == 3
  {
    CeilBounds(m.Distance(start, target) / 0.05);
  }

  // A segment under two centimetres keeps at most its two ends.
  lemma {:induction false} ShortPlanThinned(m: Maths, start: Point, target: Point)
    requires m.Valid()
    ensures m.Distance(start, target) < 0.02 ==>
            Thin(m, StraightPath(m, start, target)) ==
            if m.Distance(start, target) >= 0.01 then [start, target] else [start]
  {
    hide Thin, StraightPath;
    var path, d := StraightPath(m, start, target), m.Distance(start, target);
    ShortSegmentHasThree(m, start, target);
    if d < 0.02 {
      StraightPathShape(m, start, target);
      ScaledHypot(m, target.x - start.x, target.y - start.y, 2.0);
      assert StepIs(path, 1, (target.x - start.x) / 2.0, (target.y - start.y) / 2.0);
      ThreeSamplesThinned(m, path);
    }
  }

  lemma {:induction false} StraightPathOnLine(m: Maths, start: Point, target: Point)
    ensures AllOnLine(start, target, StraightPath(m, start, target))
  {
    hide Lerp;
    var path := StraightPath(m, start, target);
    forall p | p in path ensures exists ratio: real :: OnLine(start, target, p, ratio) {
      var i :| 0 <= i < |path| && path[i] == p;
      assert OnLine(start, target, p, i as real / (|path| - 1) as real);
    }
  }

  lemma {:induction false} EndsOnLine(a: Point, b: Point)
    ensures AllOnLine(a, b, [a, b])
  {
    assert OnLine(a, b, a, 0.0) && OnLine(a, b, b, 1.0);
  }

  /** The handshake on one plan: whatever the pose, the target and the gate's limits, the gate accepts
      the adapter's sampled segment exactly when its limits admit a straight line at all and the
      segment is a centimetre long and meets the minimum length. */
  lemma {:induction false} StraightPlanAcceptedIff(m: Maths, lim: StraightLimits, start: Point, target: Point)
    requires m.Valid()
    ensures Classified(m, lim, StraightPath(m, start, target)) <==>
            Tolerant(lim) && m.Distance(start, target) >= 0.01
            && m.Distance(start, target) + LENGTH_EPSILON >= lim.minLength
  {
    hide Maths.Valid, Thin, Legs, IsStraight, StraightPath, Tolerant, AllOnLine;
    var path, d := StraightPath(m, start, target), m.Distance(start, target);
    if d >= 0.02 {
      SpacedPlanLegs(m, start, target);
      StraightPathShape(m, start, target);
      StraightPathOnLine(m, start, target);
      PerfectLineVerdict(m, lim, path, Legs(m, path));
    } else {
      ShortPlanThinned(m, start, target);
      if d >= 0.01 {
        TwoPointLegs(m, start, target);
        EndsOnLine(start, target);
        PerfectLineVerdict(m, lim, [start, target], Legs(m, [start, target]));
      }
    }
  }

  /** A micro-reverse endpoint, `distance` behind a pose with heading (c, s), lies exactly that
      far away. */
  lemma {:induction false} MicroReverseEndpoint(m: Maths, start: Point, c: real, s: real, distance: real)
    requires m.Valid() && c * c + s * s == 1.0 && distance >= 0.0
    ensures m.Distance(start, Point(start.x - distance * c, start.y - distance * s)) == distance
  {
    var end := Point(start.x - distance * c, start.y - distance * s);
    var (x, y) := (-c, -s);
    assert x * x == c * c && y * y == s * s;
    HypotIs(m, x, y, 1.0);
    HypotTimes(m, x, y, distance);
    assert end.x - start.x == x * distance && end.y - start.y == y * distance;
  }
}
