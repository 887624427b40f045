/** The last-centimetre correction: when the chassis has drifted past its target, a short straight
    reverse is chosen only if it lands inside the strict position circle. */
module PositionCorrection {
  import opened Numbers
  import opened ReversePlan

  datatype Limits = Limits(
    tolerance: real, forwardAlignment: real, reverseEnabled: bool, minReverse: real, maxReverse: real,
    lateralMargin: real, reverseAlignment: real)

  /** What is measured: the distance to the target, and the angle from the heading to it with its
      cosine and sine; `backward` is the angle from the reversed heading. */
  datatype Offset = Offset(distance: real, alignment: real, cos: real, sin: real, backward: real)

  datatype Mode = Forward | MicroReverse | AlignedMicroReverse | SegmentedForward

  function BackwardProjection(o: Offset): real { -o.distance * o.cos }

  function ReverseCommand(l: Limits, o: Offset): real { Max(l.minReverse, BackwardProjection(o)) }

  function PredictedError(m: Maths, l: Limits, o: Offset): real {
    m.hypot(Abs(o.distance * o.sin), ReverseCommand(l, o) - BackwardProjection(o))
  }

  function StrictLimit(l: Limits): real { Max(0.0, l.tolerance - Max(0.0, l.lateralMargin)) }

  function ChooseFinalPositionCorrection(m: Maths, l: Limits, o: Offset): (Mode, real) {
    if Abs(o.alignment) <= l.forwardAlignment then (Forward, o.distance)
    else if l.reverseEnabled && BackwardProjection(o) > 0.0 && ReverseCommand(l, o) <= l.maxReverse
            && PredictedError(m, l, o) <= StrictLimit(l) then (MicroReverse, ReverseCommand(l, o))
    else if l.reverseEnabled && l.minReverse <= o.distance <= l.maxReverse && Abs(o.backward) <= l.reverseAlignment
    then (AlignedMicroReverse, o.distance)
    else (SegmentedForward, o.distance)
  }

  // ----- Where the reverse ends -----

  // The point `r` behind a pose whose heading is the direction (c, s).
  function Behind(at: Point, c: real, s: real, r: real): Point { Point(at.x - r * c, at.y - r * s) }

  // The point at (u, v) in the frame of that pose.
  function Ahead(at: Point, c: real, s: real, u: real, v: real): Point {
    Point(at.x + u * c - v * s, at.y + u * s + v * c)
  }

  lemma {:induction false} RotatedSquare(c: real, s: real, p: real, q: real)
    requires c * c + s * s == 1.0
    ensures (p * c - q * s) * (p * c - q * s) + (p * s + q * c) * (p * s + q * c) == p * p + q * q
  {
    var (x, y) := (p * c - q * s, p * s + q * c);
    assert x * x + y * y == (p * p + q * q) * (c * c + s * s);
  }

  lemma {:induction false} DistanceInFrame(m: Maths, a: Point, b: Point, c: real, s: real, p: real, q: real)
    requires m.Valid() && c * c + s * s == 1.0
    requires b.x - a.x == p * c - q * s && b.y - a.y == p * s + q * c
    ensures m.Distance(a, b) == m.hypot(p, q)
  {
    RotatedSquare(c, s, p, q);
    HypotIs(m, b.x - a.x, b.y - a.y, m.hypot(p, q));
  }

  // After reversing by r, the target is as far away as (r + u, v) is long.
  lemma {:induction false} DistanceAfterReverse(m: Maths, at: Point, c: real, s: real, u: real, v: real, r: real)
    requires m.Valid() && c * c + s * s == 1.0
    ensures m.Distance(Behind(at, c, s, r), Ahead(at, c, s, u, v)) == m.hypot(r + u, v)
  {
    hide Behind, Ahead, Maths.Valid, Maths.Distance;
    var (a, b) := (Behind(at, c, s, r), Ahead(at, c, s, u, v));
    LegsAfterReverse(at, c, s, u, v, r);
    DistanceInFrame(m, a, b, c, s, r + u, v);
  }

  lemma {:induction false} LegsAfterReverse(at: Point, c: real, s: real, u: real, v: real, r: real)
    ensures var (a, b) := (Behind(at, c, s, r), Ahead(at, c, s, u, v));
            b.x - a.x == (r + u) * c - v * s && b.y - a.y == (r + u) * s + v * c
  {
    Distribute(r, u, c);
    Distribute(r, u, s);
  }

  lemma {:induction false} HypotFlip(m: Maths, x: real, y: real)
    requires m.Valid()
    ensures m.hypot(Abs(y), x) == m.hypot(x, y)
  {
    assert Abs(y) * Abs(y) == y * y;
    HypotIs(m, Abs(y), x, m.hypot(x, y));
  }

  lemma {:induction false} AbsSquareOrder(x: real, z: real)
    requires Abs(x) <= Abs(z)
    ensures x * x <= z * z
  {
    ProductOrder(Abs(x), Abs(z), Abs(x));
    ProductOrder(Abs(x), Abs(z), Abs(z));
  }

  lemma {:induction false} HypotOrder(m: Maths, x: real, z: real, y: real)
    requires m.Valid() && Abs(x) <= Abs(z)
    ensures m.hypot(x, y) <= m.hypot(z, y)
  {
    AbsSquareOrder(x, z);
    SquareOrder(m.hypot(x, y), m.hypot(z, y));
  }

  // Reversing by the command leaves the predicted error, and no permitted distance leaves less.
  lemma {:induction false} ReverseLeaves(m: Maths, at: Point, c: real, s: real, u: real, v: real, least: real, other: real)
    requires m.Valid() && c * c + s * s == 1.0 && other >= least
    ensures var r := Max(least, -u);
      && m.Distance(Behind(at, c, s, r), Ahead(at, c, s, u, v)) == m.hypot(Abs(v), r + u)
      && m.Distance(Behind(at, c, s, r), Ahead(at, c, s, u, v)) <= m.Distance(Behind(at, c, s, other), Ahead(at, c, s, u, v))
  {
    hide Behind, Ahead;
    var r := Max(least, -u);
    DistanceAfterReverse(m, at, c, s, u, v, r);
    DistanceAfterReverse(m, at, c, s, u, v, other);
    HypotFlip(m, r + u, v);
    HypotOrder(m, r + u, other + u, v);
  }

  lemma {:induction false} BackwardIs(o: Offset)
    ensures BackwardProjection(o) == -(o.distance * o.cos)
  {
  }

  lemma {:induction false} PredictedIs(m: Maths, l: Limits, o: Offset, u: real)
    requires BackwardProjection(o) == -u
    ensures PredictedError(m, l, o) == m.hypot(Abs(o.distance * o.sin), ReverseCommand(l, o) + u)
    ensures ReverseCommand(l, o) == Max(l.minReverse, -u)
  {
    hide BackwardProjection;
    assert ReverseCommand(l, o) - BackwardProjection(o) == ReverseCommand(l, o) + u;
  }

  /** A chosen micro reverse lands inside the strict circle: driven straight back from any position
      and heading, it ends at a measured distance from the target that is within the tolerance
      less the margin, and no other permitted reverse distance ends closer. */
  lemma {:induction false} MicroReverseLands(m: Maths, l: Limits, o: Offset, at: Point, c: real, s: real, other: real)
    requires m.Valid() && c * c + s * s == 1.0 && l.tolerance >= 0.0
    requires ChooseFinalPositionCorrection(m, l, o).0 == MicroReverse && other >= l.minReverse
    ensures var r := ChooseFinalPositionCorrection(m, l, o).1;
            var target := Ahead(at, c, s, o.distance * o.cos, o.distance * o.sin);
            && l.minReverse <= r <= l.maxReverse
            && m.Distance(Behind(at, c, s, r), target) <= StrictLimit(l) <= l.tolerance
            && m.Distance(Behind(at, c, s, r), target) <= m.Distance(Behind(at, c, s, other), target)
  {
    hide Behind, Ahead, BackwardProjection, PredictedError, ReverseCommand;
    BackwardIs(o);
    var u := o.distance * o.cos;
    PredictedIs(m, l, o, u);
    ReverseLeaves(m, at, c, s, o.distance * o.cos, o.distance * o.sin, l.minReverse, other);
  }

  // Driven straight back by r, which the limits permit, the robot comes to stand inside the strict circle.
  predicate Lands(m: Maths, l: Limits, at: Point, c: real, s: real, target: Point, r: real) {
    l.minReverse <= r <= l.maxReverse && m.Distance(Behind(at, c, s, r), target) <= StrictLimit(l)
  }

  // How far the target lies ahead and to the left.
  function Forwards(o: Offset): real { o.distance * o.cos }

  function Sideways(o: Offset): real { o.distance * o.sin }

  function Target(o: Offset, at: Point, c: real, s: real): Point { Ahead(at, c, s, Forwards(o), Sideways(o)) }

  lemma {:induction false} TargetIs(o: Offset, at: Point, c: real, s: real)
    ensures Target(o, at, c, s) == Ahead(at, c, s, Forwards(o), Sideways(o))
  {
  }

  // The target lies behind, no farther back than may be reversed, and some permitted reverse lands.
  ghost predicate MicroReverseFits(m: Maths, l: Limits, o: Offset, at: Point, c: real, s: real) {
    && l.reverseEnabled && -l.maxReverse <= Forwards(o) < 0.0
    && exists r: real :: Lands(m, l, at, c, s, Target(o, at, c, s), r)
  }

  // The target lies at (u, v) in the frame of the robot.
  lemma {:induction false} CommandLands(m: Maths, l: Limits, at: Point, c: real, s: real, u: real, v: real)
    requires m.Valid() && c * c + s * s == 1.0
    ensures var (r, target) := (Max(l.minReverse, -u), Ahead(at, c, s, u, v));
      && (r <= l.maxReverse && m.hypot(Abs(v), r + u) <= StrictLimit(l) <==> Lands(m, l, at, c, s, target, r))
      && (-u <= l.maxReverse && (exists other: real :: Lands(m, l, at, c, s, target, other)) <==>
          Lands(m, l, at, c, s, target, r))
  {
    hide Behind, Ahead, StrictLimit, Maths.Valid;
    var (r, target) := (Max(l.minReverse, -u), Ahead(at, c, s, u, v));
    ReverseLeaves(m, at, c, s, u, v, l.minReverse, l.minReverse);
    if -u <= l.maxReverse && exists other: real :: Lands(m, l, at, c, s, target, other) {
      var other: real :| Lands(m, l, at, c, s, target, other);
      ReverseLeaves(m, at, c, s, u, v, l.minReverse, other);
    }
  }

  // The robot may turn its back to the target and reverse all the way.
  predicate AlignedFits(l: Limits, o: Offset) {
    l.reverseEnabled && l.minReverse <= o.distance <= l.maxReverse && Abs(o.backward) <= l.reverseAlignment
  }

  /** Every answer, from any position and heading: forward exactly when the target is nearly ahead; otherwise the micro
      reverse exactly when the target lies behind within reach and some permitted reverse lands inside the strict
      circle; otherwise the aligned reverse exactly when it is permitted; otherwise segments forward. */
  lemma {:induction false} CorrectionExactly(m: Maths, l: Limits, o: Offset, at: Point, c: real, s: real)
    requires m.Valid() && c * c + s * s == 1.0
    ensures var (mode, r) := ChooseFinalPositionCorrection(m, l, o);
      && mode == (if Abs(o.alignment) <= l.forwardAlignment then Forward
                  else if MicroReverseFits(m, l, o, at, c, s) then MicroReverse
                  else if AlignedFits(l, o) then AlignedMicroReverse
                  else SegmentedForward)
      && (mode != MicroReverse ==> r == o.distance)
      && (mode == MicroReverse ==> Lands(m, l, at, c, s, Target(o, at, c, s), r))
  {
    hide Target, Forwards, Sideways, Lands, BackwardProjection, PredictedError, ReverseCommand, StrictLimit, Maths.Valid;
    CommandIs(m, l, o);
    TargetIs(o, at, c, s);
    CommandLands(m, l, at, c, s, Forwards(o), Sideways(o));
  }

  lemma {:induction false} CommandIs(m: Maths, l: Limits, o: Offset)
    ensures BackwardProjection(o) == -Forwards(o) && ReverseCommand(l, o) == Max(l.minReverse, -Forwards(o))
    ensures PredictedError(m, l, o) == m.hypot(Abs(Sideways(o)), Max(l.minReverse, -Forwards(o)) + Forwards(o))
  {
    BackwardIs(o);
    PredictedIs(m, l, o, o.distance * o.cos);
  }

  /** Its plan passes the safety gate's straightness test exactly when the gate's limits admit a
      straight line and the distance is a centimetre and meets the gate's minimum, from any position
      and heading. */
  lemma {:induction false} MicroReversePlanAccepted(m: Maths, lim: StraightLimits, at: Point, c: real, s: real, r: real)
    requires m.Valid() && c * c + s * s == 1.0 && r >= 0.0
    ensures Classified(m, lim, StraightPath(m, at, Behind(at, c, s, r))) <==>
            Tolerant(lim) && r >= 0.01 && r + LENGTH_EPSILON >= lim.minLength
  {
    MicroReverseEndpoint(m, at, c, s, r);
    StraightPlanAcceptedIff(m, lim, at, Behind(at, c, s, r));
  }
}
