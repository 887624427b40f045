/** What the gate's straightness verdict means for any plan, in terms of the plan's geometry. */
module StraightRoutes {
  import opened Numbers
  import opened ReversePlan

  // ----- The thinned plan -----

  // Neighbouring points are at least a centimetre apart.
  ghost predicate Spread(m: Maths, points: seq<Point>) {
    forall i :: 0 < i < |points| ==> m.Distance(points[i - 1], points[i]) >= 0.01
  }

  // A pose is the kept point itself or lies within a centimetre of it.
  predicate Represents(m: Maths, q: Point, p: Point) { q == p || m.Distance(q, p) < 0.01 }

  ghost predicate Covers(m: Maths, points: seq<Point>, poses: seq<Point>) {
    forall p :: p in poses ==> exists q :: q in points && Represents(m, q, p)
  }

  lemma {:induction false} CoversMore(m: Maths, kept: seq<Point>, points: seq<Point>, poses: seq<Point>, p: Point, near: Point)
    requires Covers(m, kept, poses) && (forall q :: q in kept ==> q in points)
    requires near in points && Represents(m, near, p)
    ensures Covers(m, points, poses + [p])
  {
    hide Represents;
    forall x | x in poses + [p] ensures exists q :: q in points && Represents(m, q, x) {
      if x in poses {
        var q :| q in kept && Represents(m, q, x);
        assert q in points;
      }
    }
  }

  /** Thinning keeps poses of the plan, the first one among them, a centimetre or more apart, and drops
      only poses within a centimetre of a kept one. */
  lemma {:induction false} ThinnedPlan(m: Maths, poses: seq<Point>)
    ensures var points := Thin(m, poses);
      && (|poses| > 0 ==> |points| > 0 && points[0] == poses[0])
      && (forall p :: p in points ==> p in poses)
      && Spread(m, points) && Covers(m, points, poses)
  {
    hide Covers;
    if |poses| == 0 {
      NothingToCover(m, []);
    } else {
      var n := |poses| - 1;
      var init, p := poses[..n], poses[n];
      var kept, points := Thin(m, init), Thin(m, poses);
      ThinnedPlan(m, init);
      assert poses == init + [p];
      assert Thin(m, []) == [];
      var q := if |points| == |kept| then kept[|kept| - 1] else p;
      assert q in points && Represents(m, q, p);
      CoversMore(m, kept, points, init, p, q);
    }
  }

  lemma {:induction false} NothingToCover(m: Maths, points: seq<Point>)
    ensures Covers(m, points, [])
  {
  }

  // ----- Its legs -----

  // No leg of a spread route is short enough to be skipped.
  lemma {:induction false} LegsOfRoute(m: Maths, points: seq<Point>)
    requires Spread(m, points)
    ensures |Legs(m, points)| == if |points| < 2 then 0 else |points| - 1
    ensures forall i :: 0 <= i < |Legs(m, points)| ==> Legs(m, points)[i].heading == m.Heading(points[i], points[i + 1])
    ensures TotalLength(Legs(m, points)) == PathLength(m, points)
  {
    if |points| >= 2 {
      var n := |points| - 1;
      var init, legs := points[..n], Legs(m, points);
      LegsOfRoute(m, init);
      assert m.Distance(points[n - 1], points[n]) >= 0.01;
      assert legs[..|legs| - 1] == Legs(m, init);
    }
  }

  // ----- Distance from a line -----

  // Point p lies within r of the line through a and b.
  ghost predicate NearLine(m: Maths, a: Point, b: Point, p: Point, r: real) {
    exists t: real :: WithinOf(m, Lerp(a, b, t), p, r)
  }

  predicate WithinOf(m: Maths, q: Point, p: Point, r: real) { m.Distance(q, p) <= r }

  lemma {:induction false} Lagrange(a: real, b: real, x: real, y: real)
    ensures (b * x - a * y) * (b * x - a * y) + (a * x + b * y) * (a * x + b * y) == (a * a + b * b) * (x * x + y * y)
  {
    var (p, q, u, v) := (b * x, a * y, a * x, b * y);
    assert (p - q) * (p - q) == p * p - 2.0 * (p * q) + q * q;
    assert (u + v) * (u + v) == u * u + 2.0 * (u * v) + v * v;
    assert p * q == u * v;
    SquareOfProduct(b, x);
    SquareOfProduct(a, y);
    SquareOfProduct(a, x);
    SquareOfProduct(b, y);
    assert (a * a + b * b) * (x * x + y * y) == (a * a) * (x * x) + (a * a) * (y * y) + (b * b) * (x * x) + (b * b) * (y * y);
  }

  // The cross product of a chord of length l with a vector of length d is at most l * d, and exactly
  // that when the two are perpendicular.
  lemma {:induction false} CrossBound(a: real, b: real, x: real, y: real, l: real, d: real)
    requires l >= 0.0 && d >= 0.0 && l * l == a * a + b * b && d * d == x * x + y * y
    ensures Abs(b * x - a * y) <= l * d
    ensures a * x + b * y == 0.0 ==> Abs(b * x - a * y) == l * d
  {
    var (cross, dot) := (b * x - a * y, a * x + b * y);
    Lagrange(a, b, x, y);
    SquareOfProduct(l, d);
    ProductOrder(0.0, d, l);
    assert Abs(cross) * Abs(cross) == cross * cross;
    assert dot * dot >= 0.0;
    SquareOrder(Abs(cross), l * d);
    if dot == 0.0 { RootUnique(Abs(cross), l * d); }
  }

  // The gate's lateral error is a cross product over the chord length; moving the point along the
  // chord changes nothing.
  lemma {:induction false} CrossFromFoot(a: real, b: real, x: real, y: real, t: real)
    ensures b * (x - t * a) - a * (y - t * b) == b * x - a * y
    ensures a * (x - t * a) + b * (y - t * b) == (a * x + b * y) - t * (a * a + b * b)
  {
    assert b * (x - t * a) == b * x - b * (t * a) && a * (y - t * b) == a * y - a * (t * b);
    assert a * (x - t * a) == a * x - a * (t * a) && b * (y - t * b) == b * y - b * (t * b);
    assert t * (a * a + b * b) == t * (a * a) + t * (b * b);
  }

  // The gate's lateral error in terms of the offset (x, y) from the start of a chord (a, b).
  function OffsetError(a: real, b: real, x: real, y: real, l: real): real
    requires l > 0.0
  {
    Abs(a * (-y) - (-x) * b) / l
  }

  lemma {:induction false} LateralFromFoot(a: real, b: real, x: real, y: real, l: real, d: real, t: real)
    requires l > 0.0 && d >= 0.0 && l * l == a * a + b * b
    requires d * d == (x - t * a) * (x - t * a) + (y - t * b) * (y - t * b)
    ensures OffsetError(a, b, x, y, l) <= d
    ensures t * (l * l) == a * x + b * y ==> OffsetError(a, b, x, y, l) == d
  {
    CrossFromFoot(a, b, x, y, t);
    CrossBound(a, b, x - t * a, y - t * b, l, d);
    CrossOverLength(a, b, x, y, l, d);
  }

  lemma {:induction false} HypotSquare(m: Maths, dx: real, dy: real)
    requires m.Valid()
    ensures m.hypot(dx, dy) >= 0.0 && m.hypot(dx, dy) * m.hypot(dx, dy) == dx * dx + dy * dy
  {
  }

  lemma {:induction false} LateralByOffset(start: Point, chord: Point, l: real, p: Point, x: real, y: real)
    requires l > 0.0 && x == p.x - start.x && y == p.y - start.y
    ensures LateralError(start, chord, l, p) == OffsetError(chord.x, chord.y, x, y, l)
  {
    assert start.y - p.y == -y && start.x - p.x == -x;
  }

  lemma {:induction false} FootDistance(m: Maths, start: Point, end: Point, p: Point, t: real, u: real, v: real)
    requires u == (p.x - start.x) - t * (end.x - start.x) && v == (p.y - start.y) - t * (end.y - start.y)
    ensures m.Distance(Lerp(start, end, t), p) == m.hypot(u, v)
  {
    var q := Lerp(start, end, t);
    assert p.x - q.x == u && p.y - q.y == v;
  }

  lemma {:induction false} LateralIsDistance(m: Maths, start: Point, end: Point, chord: Point, l: real, p: Point, t: real)
    requires m.Valid() && chord == Point(end.x - start.x, end.y - start.y) && l == m.Distance(start, end) > 0.0
    ensures LateralError(start, chord, l, p) <= m.Distance(Lerp(start, end, t), p)
    ensures t * (l * l) == chord.x * (p.x - start.x) + chord.y * (p.y - start.y) ==>
            LateralError(start, chord, l, p) == m.Distance(Lerp(start, end, t), p)
  {
    hide Maths.Valid, LateralError, Lerp, OffsetError;
    var (a, b) := (chord.x, chord.y);
    var (x, y) := (p.x - start.x, p.y - start.y);
    var (u, v) := (x - t * a, y - t * b);
    var (d, error) := (m.hypot(u, v), LateralError(start, chord, l, p));
    HypotSquare(m, a, b);
    HypotSquare(m, u, v);
    FootDistance(m, start, end, p, t, u, v);
    assert error <= d && (t * (l * l) == a * x + b * y ==> error == d) by {
      LateralByOffset(start, chord, l, p, x, y);
      LateralFromFoot(a, b, x, y, l, d, t);
    }
  }

  lemma {:induction false} CrossOverLength(a: real, b: real, x: real, y: real, l: real, d: real)
    requires l > 0.0 && Abs(b * x - a * y) <= l * d
    ensures Abs(a * (-y) - (-x) * b) / l <= d
    ensures Abs(b * x - a * y) == l * d ==> Abs(a * (-y) - (-x) * b) / l == d
  {
    assert a * (-y) - (-x) * b == b * x - a * y;
    assert l * d / l == d;
    DivideOrder(Abs(b * x - a * y), l * d, l);
  }

  // Where along a chord of length l the foot of a perpendicular falls.
  function Foot(dot: real, l: real): (t: real)
    requires l > 0.0
    ensures t * (l * l) == dot
  {
    assert l * l > 0.0;
    dot / (l * l)
  }

  /** The lateral error that the gate compares with its limit is the distance from the line through the
      first and the last kept point. */
  lemma {:induction false} LateralMeans(m: Maths, start: Point, end: Point, p: Point, r: real)
    requires m.Valid()
    ensures m.Distance(start, end) > 0.0 ==>
      (LateralError(start, Point(end.x - start.x, end.y - start.y), m.Distance(start, end), p) <= r
       <==> NearLine(m, start, end, p, r))
  {
    hide LateralError, Maths.Valid, Lerp;
    var (chord, l) := (Point(end.x - start.x, end.y - start.y), m.Distance(start, end));
    if l > 0.0 {
      if LateralError(start, chord, l, p) <= r {
        var dot := chord.x * (p.x - start.x) + chord.y * (p.y - start.y);
        var t := Foot(dot, l);
        LateralIsDistance(m, start, end, chord, l, p, t);
        assert WithinOf(m, Lerp(start, end, t), p, r);
      }
      if NearLine(m, start, end, p, r) {
        var t: real :| WithinOf(m, Lerp(start, end, t), p, r);
        LateralIsDistance(m, start, end, chord, l, p, t);
      }
    }
  }

  // ----- The verdict -----

  // The heading of leg i relative to the first one.
  function Bearing(m: Maths, points: seq<Point>, i: int): real
    requires 0 <= i < |points| - 1
  {
    m.wrap(m.Heading(points[i], points[i + 1]) - m.Heading(points[0], points[1]))
  }

  ghost predicate BearingsWithin(m: Maths, points: seq<Point>, span: real) {
    forall i, j :: 0 <= i < |points| - 1 && 0 <= j < |points| - 1 ==> Bearing(m, points, i) - Bearing(m, points, j) <= span
  }

  ghost predicate AllNearLine(m: Maths, a: Point, b: Point, points: seq<Point>, r: real) {
    forall p :: p in points ==> NearLine(m, a, b, p, r)
  }

  // A route with two distinct ends, long enough and no longer than the ratio allows, that stays near
  // the line through its ends and whose legs point nearly the same way.
  ghost predicate StraightRoute(m: Maths, lim: StraightLimits, points: seq<Point>) {
    && |points| >= 2
    && var (a, b) := (points[0], points[|points| - 1]);
    && m.Distance(a, b) >= 0.000001
    && lim.minLength - LENGTH_EPSILON <= PathLength(m, points) <= lim.maxLengthRatio * m.Distance(a, b)
    && AllNearLine(m, a, b, points, lim.maxLateral)
    && BearingsWithin(m, points, lim.maxHeadingSpan)
  }

  lemma {:induction false} ExtremesBound(s: seq<real>)
    requires |s| > 0
    ensures forall i :: 0 <= i < |s| ==> MinOf(s) <= s[i] <= MaxOf(s)
    ensures MinOf(s) in s && MaxOf(s) in s
  {
    if |s| > 1 { ExtremesBound(s[..|s| - 1]); }
  }

  lemma {:induction false} RatioBound(length: real, chord: real, ratio: real)
    requires chord > 0.0
    ensures length / chord <= ratio <==> length <= ratio * chord
  {
    var q := length / chord;
    assert q * chord == length;
    ProductSign(ratio - q, chord);
    assert (ratio - q) * chord == ratio * chord - q * chord;
  }

  lemma {:induction false} LateralsBound(m: Maths, points: seq<Point>, r: real)
    requires m.Valid() && |points| >= 2
    ensures var (a, b) := (points[0], points[|points| - 1]);
      m.Distance(a, b) > 0.0 ==>
        (MaxOf(Laterals(a, Point(b.x - a.x, b.y - a.y), m.Distance(a, b), points)) <= r <==> AllNearLine(m, a, b, points, r))
  {
    hide Maths.Valid, NearLine, LateralError, MaxOf;
    var (a, b) := (points[0], points[|points| - 1]);
    if m.Distance(a, b) > 0.0 {
      var errors := Laterals(a, Point(b.x - a.x, b.y - a.y), m.Distance(a, b), points);
      ExtremesBound(errors);
      forall i | 0 <= i < |points| ensures errors[i] <= r <==> NearLine(m, a, b, points[i], r) {
        LateralMeans(m, a, b, points[i], r);
      }
    }
  }

  lemma {:induction false} TurnsBound(m: Maths, points: seq<Point>, span: real)
    requires |points| >= 2 && Spread(m, points)
    ensures |Legs(m, points)| > 0
    ensures MaxOf(Turns(m, Legs(m, points))) - MinOf(Turns(m, Legs(m, points))) <= span <==> BearingsWithin(m, points, span)
  {
    hide Legs, Spread, MaxOf, MinOf;
    LegsOfRoute(m, points);
    var turns := Turns(m, Legs(m, points));
    ExtremesBound(turns);
    forall i | 0 <= i < |turns| ensures turns[i] == Bearing(m, points, i) { }
  }

  /** The verdict, exactly, for any plan and any limits: the gate takes a plan for straight if and only
      if its kept points form a straight route. */
  lemma {:induction false} ClassifiedExactly(m: Maths, lim: StraightLimits, poses: seq<Point>)
    requires m.Valid()
    ensures Classified(m, lim, poses) <==> StraightRoute(m, lim, Thin(m, poses))
  {
    hide Maths.Valid, Thin, Legs, Turns, Laterals, MaxOf, MinOf, Spread, PathLength, TotalLength, AllNearLine, BearingsWithin;
    var points := Thin(m, poses);
    ThinnedPlan(m, poses);
    if |points| >= 2 {
      LegsOfRoute(m, points);
      TurnsBound(m, points, lim.maxHeadingSpan);
      LateralsBound(m, points, lim.maxLateral);
      var chord := m.Distance(points[0], points[|points| - 1]);
      if chord >= 0.000001 { RatioBound(PathLength(m, points), chord, lim.maxLengthRatio); }
    }
  }

  lemma {:induction false} Triangle(m: Maths, p: Point, q: Point, r: Point)
    requires m.Valid()
    ensures m.Distance(p, r) <= m.Distance(p, q) + m.Distance(q, r)
  {
    hide Maths.Valid;
    var (a, b, x, y) := (q.x - p.x, q.y - p.y, r.x - q.x, r.y - q.y);
    assert r.x - p.x == a + x && r.y - p.y == b + y;
    HypotTriangle(m, a, b, x, y);
  }

  lemma {:induction false} HypotTriangle(m: Maths, a: real, b: real, x: real, y: real)
    requires m.Valid()
    ensures m.hypot(a + x, b + y) <= m.hypot(a, b) + m.hypot(x, y)
  {
    hide Maths.Valid;
    HypotSquare(m, a, b);
    HypotSquare(m, x, y);
    HypotSquare(m, a + x, b + y);
    TriangleSquares(a, b, x, y, m.hypot(a, b), m.hypot(x, y), m.hypot(a + x, b + y));
  }

  lemma {:induction false} TriangleSquares(a: real, b: real, x: real, y: real, l: real, d: real, e: real)
    requires l >= 0.0 && d >= 0.0 && e >= 0.0
    requires l * l == a * a + b * b && d * d == x * x + y * y && e * e == (a + x) * (a + x) + (b + y) * (b + y)
    ensures e <= l + d
  {
    CrossBound(a, b, y, -x, l, d);
    assert b * y - a * (-x) == a * x + b * y;
    assert (a + x) * (a + x) == a * a + 2.0 * (a * x) + x * x && (b + y) * (b + y) == b * b + 2.0 * (b * y) + y * y;
    assert (l + d) * (l + d) == l * l + 2.0 * (l * d) + d * d;
    SquareOrder(e, l + d);
  }

  // All poses lie within the lateral limit and a centimetre of the line through a and b.
  ghost predicate Narrow(m: Maths, lim: StraightLimits, poses: seq<Point>, a: Point, b: Point) {
    AllNearLine(m, a, b, poses, lim.maxLateral + 0.01)
  }

  /** So every pose of a plan that passes, whether kept or dropped, lies within the lateral limit and a
      centimetre of one line. */
  lemma {:induction false} PassedPlanIsNarrow(m: Maths, lim: StraightLimits, poses: seq<Point>)
    requires m.Valid()
    ensures Classified(m, lim, poses) ==> exists a, b :: Narrow(m, lim, poses, a, b)
  {
    hide Maths.Valid, Classified, Thin, Spread, PathLength, BearingsWithin, Lerp;
    if Classified(m, lim, poses) {
      var points := Thin(m, poses);
      ClassifiedExactly(m, lim, poses);
      ThinnedPlan(m, poses);
      var (a, b) := (points[0], points[|points| - 1]);
      forall p | p in poses ensures NearLine(m, a, b, p, lim.maxLateral + 0.01) {
        var q :| q in points && Represents(m, q, p);
        assert NearLine(m, a, b, q, lim.maxLateral);
        var t: real :| WithinOf(m, Lerp(a, b, t), q, lim.maxLateral);
        Triangle(m, Lerp(a, b, t), q, p);
        assert WithinOf(m, Lerp(a, b, t), p, lim.maxLateral + 0.01);
      }
      assert Narrow(m, lim, poses, a, b);
    }
  }

  lemma {:induction false} PathAtLeastChord(m: Maths, points: seq<Point>)
    requires m.Valid() && |points| > 0
    ensures PathLength(m, points) >= m.Distance(points[0], points[|points| - 1])
  {
    hide Maths.Valid;
    var n := |points| - 1;
    if n == 0 {
      HypotIs(m, 0.0, 0.0, 0.0);
    } else {
      PathAtLeastChord(m, points[..n]);
      Triangle(m, points[0], points[n - 1], points[n]);
    }
  }

  lemma {:induction false} DistanceNonNegative(m: Maths, a: Point, b: Point)
    requires m.Valid()
    ensures m.Distance(a, b) >= 0.0
  {
  }

  lemma {:induction false} BearingsApart(m: Maths, points: seq<Point>, i: int, j: int, span: real)
    requires 0 <= i < |points| - 1 && 0 <= j < |points| - 1 && BearingsWithin(m, points, span)
    ensures Bearing(m, points, i) - Bearing(m, points, j) <= span
  {
  }

  /** Limits that accept any plan at all admit a straight line. */
  lemma {:induction false} AcceptingIsTolerant(m: Maths, lim: StraightLimits, points: seq<Point>)
    requires m.Valid() && StraightRoute(m, lim, points)
    ensures Tolerant(lim)
  {
    hide Maths.Valid, PathLength, Lerp;
    var (a, b) := (points[0], points[|points| - 1]);
    assert NearLine(m, a, b, a, lim.maxLateral) by { assert a in points; }
    var t: real :| WithinOf(m, Lerp(a, b, t), a, lim.maxLateral);
    DistanceNonNegative(m, Lerp(a, b, t), a);
    BearingsApart(m, points, 0, 0, lim.maxHeadingSpan);
    PathAtLeastChord(m, points);
    RatioBound(m.Distance(a, b), m.Distance(a, b), lim.maxLengthRatio);
    Quotients(m.Distance(a, b));
  }
}
