/** What one `tick` may publish, in any state whatever. */
module GateOutput {
  import opened Numbers
  import opened GateModel

  lemma {:induction false} SaturateMagnitude(x: real, limit: real)
    ensures Abs(Saturate(x, limit)) == if limit >= 0.0 then Min(Abs(x), limit) else -limit
    ensures limit >= 0.0 ==> (Saturate(x, limit) > 0.0 ==> x > 0.0) && (Saturate(x, limit) < 0.0 ==> x < 0.0)
  {
  }

  // ----- The speed profile -----

  // The approach limit on its own: a ramp over the approach distance, flat outside it.
  function ApproachLimit(c: Config, remaining: Reading): real
    requires c.approachDistance > 0.0
  {
    if !remaining.Finite? || remaining.v >= c.approachDistance then c.maxLinear
    else if remaining.v <= 0.0 then c.approachLinear
    else Ramp(c.approachLinear, c.maxLinear, Ratio(remaining.v, c.approachDistance))
  }

  // One path is no longer than another; only finite lengths and +infinity are ordered.
  predicate NoFurther(a: Reading, b: Reading) {
    b.PosInf? || (a.Finite? && b.Finite? && a.v <= b.v)
  }

  lemma {:induction false} RampOrder(low: real, high: real, p: real, q: real)
    requires low <= high && 0.0 <= p <= q <= 1.0
    ensures Ramp(low, high, 0.0) == low && Ramp(low, high, 1.0) == high
    ensures low <= Ramp(low, high, p) <= Ramp(low, high, q) <= high
  {
    ProductOrder(0.0, p, high - low);
    ProductOrder(p, q, high - low);
    ProductOrder(q, 1.0, high - low);
  }

  // How far into the approach zone a remaining path is, as a clamped fraction.
  function Fraction(c: Config, remaining: real): real
    requires c.approachDistance > 0.0
  {
    Max(0.0, Min(1.0, Ratio(remaining, c.approachDistance)))
  }

  lemma {:induction false} FractionOrder(c: Config, a: real, b: real)
    requires c.approachDistance > 0.0 && a <= b
    ensures 0.0 <= Fraction(c, a) <= Fraction(c, b) <= 1.0
    ensures a <= 0.0 ==> Fraction(c, a) == 0.0
    ensures b >= c.approachDistance ==> Fraction(c, b) == 1.0
    ensures 0.0 <= a <= c.approachDistance ==> Fraction(c, a) == Ratio(a, c.approachDistance)
  {
    hide Ratio;
    var d := c.approachDistance;
    RatioEnds(d);
    RatioOrder(a, b, d);
    if a <= 0.0 { RatioOrder(a, 0.0, d); } else { RatioOrder(0.0, a, d); }
    if b >= d { RatioOrder(d, b, d); }
    if a <= d { RatioOrder(a, d, d); }
  }

  lemma {:induction false} ApproachIsRamp(c: Config, x: real)
    requires c.Accepted()
    ensures ApproachLimit(c, Finite(x)) == Ramp(c.approachLinear, c.maxLinear, Fraction(c, x))
  {
    hide Ratio;
    FractionOrder(c, x, x);
    RampOrder(c.approachLinear, c.maxLinear, 0.0, 1.0);
  }

  /** The profile is the lower of a start limit, which depends on the distance travelled, and
      an approach limit, which depends on the path remaining; it stays between the approach
      minimum and the cruise speed. */
  lemma {:induction false} ProfileIsMinimum(c: Config, traveled: real, remaining: Reading)
    requires c.Accepted()
    ensures SpeedProfile(c, traveled, remaining) == Min(StartLimit(c, traveled), ApproachLimit(c, remaining))
    ensures 0.0 < c.approachLinear <= SpeedProfile(c, traveled, remaining) <= c.maxLinear
  {
    hide Ratio, Ramp;
    if remaining.Finite? && remaining.v <= c.approachDistance {
      ApproachIsRamp(c, remaining.v);
      FractionOrder(c, remaining.v, remaining.v);
      RampOrder(c.approachLinear, c.maxLinear, Fraction(c, remaining.v), 1.0);
    }
  }

  lemma {:induction false} ApproachMonotone(c: Config, r1: Reading, r2: Reading)
    requires c.Accepted() && NoFurther(r1, r2)
    ensures ApproachLimit(c, r1) <= ApproachLimit(c, r2)
  {
    if r1.Finite? {
      ApproachIsRamp(c, r1.v);
      if r2.Finite? {
        ApproachIsRamp(c, r2.v);
        FractionOrder(c, r1.v, r2.v);
        RampOrder(c.approachLinear, c.maxLinear, Fraction(c, r1.v), Fraction(c, r2.v));
      } else {
        FractionOrder(c, r1.v, r1.v);
        RampOrder(c.approachLinear, c.maxLinear, Fraction(c, r1.v), 1.0);
      }
    }
  }

  /** Neither more distance travelled nor a longer remaining path ever lowers the cap. */
  lemma {:induction false} ProfileMonotone(c: Config, t1: real, r1: Reading, t2: real, r2: Reading)
    requires c.Accepted() && t1 <= t2 && NoFurther(r1, r2)
    ensures SpeedProfile(c, t1, r1) <= SpeedProfile(c, t2, r2)
  {
    ProfileIsMinimum(c, t1, r1);
    ProfileIsMinimum(c, t2, r2);
    ApproachMonotone(c, r1, r2);
  }

  lemma {:induction false} CapPositive(c: Config, g: Goal, recovering: bool)
    requires c.Accepted()
    ensures 0.0 < CurrentCap(c, g, recovering) <= c.maxLinear
    ensures c.profileEnabled && g.active ==> CurrentCap(c, g, recovering) <= SpeedProfile(c, g.traveled, g.remaining)
    ensures c.profileEnabled && g.active && recovering ==> CurrentCap(c, g, recovering) <= c.degradedMaxLinear
  {
    ProfileIsMinimum(c, g.traveled, g.remaining);
  }

  // ----- Bounds of the output -----

  lemma {:induction false} ScaleInUnit(c: Config, r: Rear, now: real)
    ensures 0.0 <= ReverseScale(c, r, now) <= 1.0
    ensures ReverseScale(c, r, now) > 0.0 ==> RearReverseAllowed(c, r, now)
  {
  }

  lemma {:induction false} Negated(x: real, k: real)
    ensures -x * k == -(x * k)
  {
  }

  lemma {:induction false} Shrinks(x: real, k: real)
    requires 0.0 <= k <= 1.0
    ensures Abs(x * k) <= Abs(x) && (x >= 0.0 ==> x * k >= 0.0) && (x <= 0.0 ==> x * k <= 0.0)
  {
    if x >= 0.0 {
      ProductOrder(0.0, x, k);
      ProductOrder(k, 1.0, x);
    } else {
      ProductOrder(x, 0.0, k);
      ProductOrder(k, 1.0, -x);
      Negated(x, k);
    }
  }

  lemma {:induction false} LimitedLinearBounds(c: Config, x: real, scale: real, cap: real)
    requires c.maxLinear > 0.0 && 0.0 <= scale <= 1.0 && cap > 0.0
    ensures var y := LimitedLinear(c, x, scale, cap);
            && (y > 0.0 ==> x > 0.0) && (y < 0.0 ==> x < 0.0)
            && Abs(y) <= Abs(x) && Abs(y) <= c.maxLinear
            && (c.profileEnabled ==> Abs(y) <= cap)
            && (y < -0.001 ==> scale > 0.0 && Abs(y) <= c.maxLinear * scale)
  {
    SaturateMagnitude(x, c.maxLinear);
    var clamped := Saturate(x, c.maxLinear);
    Shrinks(clamped, scale);
    ProductOrder(Abs(clamped), c.maxLinear, scale);
    if clamped < -0.001 {
      assert Abs(clamped) * scale == -(clamped * scale);
    }
  }

  // What shaping keeps of a twist: the whole linear speed or none of it, and a turn within
  // the bound that goes with it.
  predicate ShapedWithin(c: Config, linear: real, out: Twist) {
    if Abs(out.linear) < c.minLinearForTurn then out.linear == 0.0 && Abs(out.angular) <= c.maxSpinAngular
    else out.linear == linear && Abs(out.angular) <= Abs(TurnLimit(c, linear))
  }

  lemma {:induction false} ShapedBounds(c: Config, linear: real, angular: real)
    requires c.maxSpinAngular >= 0.0
    ensures ShapedWithin(c, linear, Shaped(c, linear, angular))
    ensures Shaped(c, linear, angular).linear in [linear, 0.0]
  {
    SaturateMagnitude(angular, c.maxSpinAngular);
    SaturateMagnitude(angular, TurnLimit(c, linear));
  }

  // A linear speed that follows the command: its direction, no faster than asked, than the
  // chassis limit or than the cap in force.
  predicate Follows(c: Config, linear: real, x: real, cap: real) {
    && (linear > 0.0 ==> x > 0.0) && (linear < 0.0 ==> x < 0.0)
    && Abs(linear) <= Abs(x) && Abs(linear) <= c.maxLinear
    && (c.profileEnabled ==> Abs(linear) <= cap)
  }

  predicate Bounded(c: Config, s: State, out: Twist, cmd: Command) {
    && Follows(c, out.linear, cmd.x, CurrentCap(c, s.goal, s.recovery.mode))
    && ShapedWithin(c, out.linear, out)
  }

  lemma {:induction false} IntendedLinear(c: Config, s: State, now: real)
    requires c.Accepted() && s.commands.last.Some?
    ensures var y, scale := Intended(c, s, now).linear, ReverseScale(c, s.rear, now);
            && Follows(c, y, s.commands.last.value.x, CurrentCap(c, s.goal, s.recovery.mode))
            && (y < -0.001 ==> scale > 0.0 && Abs(y) <= c.maxLinear * scale)
  {
    hide SpeedProfile, ReverseScale;
    ScaleInUnit(c, s.rear, now);
    CapPositive(c, s.goal, s.recovery.mode);
    LimitedLinearBounds(c, s.commands.last.value.x, ReverseScale(c, s.rear, now),
                        CurrentCap(c, s.goal, s.recovery.mode));
  }

  lemma {:induction false} FollowsZero(c: Config, linear: real, x: real, cap: real)
    requires Follows(c, linear, x, cap) && cap >= 0.0
    ensures Follows(c, 0.0, x, cap)
  {
  }

  /** Every nonzero output follows the command: same linear direction, never faster than
      asked, than the chassis limit or than the speed profile, and turning within the
      in-place bound or the curvature bound. */
  lemma {:induction false} OutputBounds(c: Config, s: State, clk: Clock)
    requires c.Accepted() && Output(c, s, clk) != STOP
    ensures s.commands.last.Some? && Bounded(c, s, Output(c, s, clk), s.commands.last.value)
  {
    OutputIsShaped(c, s, clk);
    var t := Intended(c, s, clk.ros);
    IntendedLinear(c, s, clk.ros);
    ShapedBounds(c, t.linear, t.angular);
    CapPositive(c, s.goal, s.recovery.mode);
    FollowsZero(c, t.linear, s.commands.last.value.x, CurrentCap(c, s.goal, s.recovery.mode));
  }

  lemma {:induction false} OutputIsShaped(c: Config, s: State, clk: Clock)
    requires Output(c, s, clk) != STOP
    ensures s.commands.last.Some?
    ensures var t := Intended(c, s, clk.ros); Output(c, s, clk) == Shaped(c, t.linear, t.angular)
  {
  }

  // ----- Reversing -----

  // The taper bound of one sensor reading that is finite and not the vehicle itself.
  predicate WithinTaper(c: Config, v: Reading, speed: real)
    requires c.reverseLimits.clear > c.reverseLimits.stop
  {
    v.Finite? && !IsSelfEcho(c, v) ==>
      speed <= c.maxLinear * TaperRatio(c, v.v)
  }

  lemma {:induction false} TaperOrder(top: real, scale: real, ratio: real)
    requires top >= 0.0 && scale <= ratio
    ensures top * scale <= top * ratio
  {
    ProductOrder(scale, ratio, top);
  }

  lemma {:induction false} ScaleBelowRatio(c: Config, r: Rear, now: real, v: Reading)
    requires c.Accepted() && c.taperEnabled && (v == r.left.range || v == r.right.range)
    requires ReverseScale(c, r, now) > 0.0 && v.Finite? && !IsSelfEcho(c, v)
    ensures ReverseScale(c, r, now) <= TaperRatio(c, v.v)
  {
    hide TaperRatio;
  }

  lemma {:induction false} TaperBound(c: Config, r: Rear, now: real, v: Reading, speed: real)
    requires c.Accepted() && c.taperEnabled && (v == r.left.range || v == r.right.range)
    ensures ReverseScale(c, r, now) > 0.0 && speed <= c.maxLinear * ReverseScale(c, r, now) ==> WithinTaper(c, v, speed)
  {
    hide TaperRatio, ReverseScale;
    if ReverseScale(c, r, now) > 0.0 && v.Finite? && !IsSelfEcho(c, v) {
      ScaleBelowRatio(c, r, now, v);
      TaperOrder(c.maxLinear, ReverseScale(c, r, now), TaperRatio(c, v.v));
    }
  }

  /** Reversing needs the rear: whatever latches the reason consulted, a negative output
      speed means both rear sensors are enabled, healthy, fresh and unblocked in the reverse
      latches, and with the taper on it is bounded by each finite reading. */
  lemma {:induction false} NegativeSpeedNeedsRear(c: Config, s: State, clk: Clock)
    requires c.Accepted() && c.minLinearForTurn > 0.001 && Output(c, s, clk).linear < 0.0
    ensures RearReverseAllowed(c, s.rear, clk.ros)
    ensures c.taperEnabled ==> && WithinTaper(c, s.rear.left.range, Abs(Output(c, s, clk).linear))
                               && WithinTaper(c, s.rear.right.range, Abs(Output(c, s, clk).linear))
  {
    hide SpeedProfile, ReverseScale, ReasonFor, Output, Intended;
    OutputIsShaped(c, s, clk);
    ScaleInUnit(c, s.rear, clk.ros);
    IntendedLinear(c, s, clk.ros);
    var t := Intended(c, s, clk.ros);
    ShapedBounds(c, t.linear, t.angular);
    if c.taperEnabled {
      TaperBound(c, s.rear, clk.ros, s.rear.left.range, Abs(t.linear));
      TaperBound(c, s.rear, clk.ros, s.rear.right.range, Abs(t.linear));
    }
  }

  // ----- Turning -----

  // No limit on turning is negative.
  predicate TurnLimitsSane(c: Config) { c.maxAngular >= 0.0 && c.maxCurvature >= 0.0 && c.curvatureSlack >= 0.0 }

  lemma {:induction false} TurnLimitNonNegative(c: Config, linear: real)
    requires TurnLimitsSane(c)
    ensures TurnLimit(c, linear) >= 0.0
  {
    ProductOrder(0.0, Abs(linear), c.maxCurvature);
  }

  // An output never turns more than was asked for.
  lemma {:induction false} TurnFollows(c: Config, s: State, clk: Clock)
    requires c.Accepted() && TurnLimitsSane(c) && Output(c, s, clk) != STOP
    ensures s.commands.last.Some? && Abs(Output(c, s, clk).angular) <= Abs(s.commands.last.value.turn)
  {
    hide ReasonFor, Output, LimitedLinear, TurnLimit, CurrentCap, ReverseScale;
    OutputIsShaped(c, s, clk);
    var t, turn := Intended(c, s, clk.ros), s.commands.last.value.turn;
    SaturateMagnitude(turn, c.maxAngular);
    SaturateMagnitude(Saturate(turn, c.maxAngular), c.degradedMaxAngular);
    TurnLimitNonNegative(c, t.linear);
    SaturateMagnitude(t.angular, TurnLimit(c, t.linear));
    SaturateMagnitude(t.angular, c.maxSpinAngular);
  }

  // One rear sensor is fresh and does not block turning.
  predicate TurnAllowed(c: Config, sensor: Sensor, now: real) {
    !Stale(sensor.time, now, c.sonarTimeout) && !sensor.turnLatch.blocked
  }

  /** Turning needs room behind: with the turn guard on, an output that turns beyond the threshold means healthy,
      fresh rear sensors that are unblocked in the turn latches. */
  lemma {:induction false} TurnNeedsRear(c: Config, s: State, clk: Clock)
    requires c.Accepted() && TurnLimitsSane(c) && c.sonarEnabled && c.turnGuard && Abs(Output(c, s, clk).angular) > 0.001
    ensures s.rear.healthy && !Stale(s.rear.healthTime, clk.ros, c.sonarTimeout)
    ensures TurnAllowed(c, s.rear.left, clk.ros) && TurnAllowed(c, s.rear.right, clk.ros)
  {
    hide Output, Intended, ReversePathReason, Stale;
    TurnFollows(c, s, clk);
    assert ReasonFor(c, s, clk) == Ready by { ReadyWhenMoving(c, s, clk); }
  }

  lemma {:induction false} ReadyWhenMoving(c: Config, s: State, clk: Clock)
    ensures Output(c, s, clk) != STOP ==> ReasonFor(c, s, clk) == Ready
  {
    hide ReasonFor;
  }

  // ----- Exactly what a ready gate publishes, from the command -----

  // How much of a reverse speed one reading leaves, out of `span`.
  function Room(c: Config, v: Reading): real {
    var span := c.reverseLimits.clear - c.reverseLimits.stop;
    match v
    case PosInf => span
    case Finite(x) =>
      if c.selfEchoEnabled && c.selfEchoMin <= x <= c.selfEchoMax then span
      else if x <= c.reverseLimits.stop then 0.0
      else if x >= c.reverseLimits.clear then span
      else x - c.reverseLimits.stop
    case _ => 0.0
  }

  lemma {:induction false} ScaleOfRoom(c: Config, v: Reading)
    requires c.Accepted() && c.reverseLimits.clear - c.reverseLimits.stop > 0.000001
    ensures SensorScale(c, v) * (c.reverseLimits.clear - c.reverseLimits.stop) == Room(c, v)
    ensures 0.0 <= SensorScale(c, v) <= 1.0
  {
    hide TaperRatio;
    if v.Finite? { TaperRatioBounds(c, v.v); }
  }

  lemma {:induction false} TaperRatioBounds(c: Config, v: real)
    requires c.reverseLimits.clear > c.reverseLimits.stop
    ensures var (r, span) := (TaperRatio(c, v), c.reverseLimits.clear - c.reverseLimits.stop);
      && r * span == v - c.reverseLimits.stop
      && (v <= c.reverseLimits.stop ==> r <= 0.0) && (v >= c.reverseLimits.clear ==> r >= 1.0)
      && (c.reverseLimits.stop < v < c.reverseLimits.clear ==> 0.0 < r < 1.0)
  {
    var (r, span) := (TaperRatio(c, v), c.reverseLimits.clear - c.reverseLimits.stop);
    assert r * span == v - c.reverseLimits.stop;
    ProductSign(r, span);
    ProductSign(1.0 - r, span);
    assert (1.0 - r) * span == span - r * span;
  }

  /** The reverse taper, exactly: nothing without both rear sensors enabled, healthy, fresh and unblocked;
      otherwise everything without a taper, and with one the share that the smaller room is of the span. */
  lemma {:induction false} ScaleExactly(c: Config, r: Rear, now: real)
    requires c.Accepted()
    ensures var (scale, span) := (ReverseScale(c, r, now), c.reverseLimits.clear - c.reverseLimits.stop);
      var allowed := && c.sonarEnabled && r.healthy && !Stale(r.healthTime, now, c.sonarTimeout)
                     && !Stale(r.left.time, now, c.sonarTimeout) && !r.left.latch.blocked
                     && !Stale(r.right.time, now, c.sonarTimeout) && !r.right.latch.blocked;
      && (!allowed ==> scale == 0.0)
      && (allowed && !c.taperEnabled ==> scale == 1.0)
      && (allowed && c.taperEnabled && span <= 0.000001 ==> scale == 0.0)
      && (allowed && c.taperEnabled && span > 0.000001 ==>
            scale * span == Min(Room(c, r.left.range), Room(c, r.right.range)))
  {
    hide SensorScale, Room, Stale;
    var span := c.reverseLimits.clear - c.reverseLimits.stop;
    if span > 0.000001 {
      ScaleOfRoom(c, r.left.range);
      ScaleOfRoom(c, r.right.range);
      MinTimes(SensorScale(c, r.left.range), SensorScale(c, r.right.range), span);
    }
  }

  lemma {:induction false} MinTimes(a: real, b: real, k: real)
    requires k > 0.0
    ensures Min(a, b) * k == Min(a * k, b * k)
  {
    if a <= b { ProductOrder(a, b, k); } else { ProductOrder(b, a, k); }
  }

  // The speed limit in force: the start limit without a goal, else the least of the start limit, the approach ramp
  // and, in recovery, the recovery speed.
  function SpeedLimit(c: Config, g: Goal, recovering: bool): real
    requires c.approachDistance > 0.0
  {
    if !g.active then c.startLinear
    else
      var profile := Min(StartLimit(c, g.traveled), ApproachLimit(c, g.remaining));
      if recovering then Min(profile, c.degradedMaxLinear) else profile
  }

  lemma {:induction false} CapExactly(c: Config, g: Goal, recovering: bool)
    requires c.Accepted() && c.profileEnabled
    ensures CurrentCap(c, g, recovering) == SpeedLimit(c, g, recovering)
  {
    hide SpeedProfile, StartLimit, ApproachLimit;
    ProfileIsMinimum(c, g.traveled, g.remaining);
  }

  // The speed that remains of the one asked for.
  function SpeedLeft(c: Config, x: real, scale: real, g: Goal, recovering: bool): real
    requires c.approachDistance > 0.0
  {
    var clamped := Min(Abs(x), c.maxLinear);
    var tapered := if x < 0.0 && clamped > 0.001 then clamped * scale else clamped;
    if c.profileEnabled then Min(tapered, SpeedLimit(c, g, recovering)) else tapered
  }

  // A twist with these magnitudes in the directions of the command.
  predicate Directed(out: Twist, k: Command, speed: real, turn: real) {
    && Abs(out.linear) == speed && (out.linear > 0.0 ==> k.x > 0.0) && (out.linear < 0.0 ==> k.x < 0.0)
    && Abs(out.angular) == turn && (out.angular > 0.0 ==> k.turn > 0.0) && (out.angular < 0.0 ==> k.turn < 0.0)
  }

  // The unshaped speed is what is left of the one asked for.
  lemma {:induction false} SpeedLeftExactly(c: Config, s: State, now: real)
    requires c.Accepted() && s.commands.last.Some?
    ensures var k, y := s.commands.last.value, Intended(c, s, now).linear;
      && Abs(y) == SpeedLeft(c, k.x, ReverseScale(c, s.rear, now), s.goal, s.recovery.mode)
      && (y > 0.0 ==> k.x > 0.0) && (y < 0.0 ==> k.x < 0.0)
  {
    hide CurrentCap, SpeedLimit, ReverseScale, LimitedAngular, LimitedLinear;
    ScaleInUnit(c, s.rear, now);
    CapPositive(c, s.goal, s.recovery.mode);
    if c.profileEnabled { CapExactly(c, s.goal, s.recovery.mode); }
    LimitedMagnitude(c, s.commands.last.value.x, ReverseScale(c, s.rear, now), CurrentCap(c, s.goal, s.recovery.mode));
  }

  lemma {:induction false} LimitedMagnitude(c: Config, x: real, scale: real, cap: real)
    requires c.maxLinear > 0.0 && 0.0 <= scale <= 1.0 && cap > 0.0
    ensures var (y, clamped) := (LimitedLinear(c, x, scale, cap), Min(Abs(x), c.maxLinear));
      var tapered := if x < 0.0 && clamped > 0.001 then clamped * scale else clamped;
      && Abs(y) == (if c.profileEnabled then Min(tapered, cap) else tapered)
      && (y > 0.0 ==> x > 0.0) && (y < 0.0 ==> x < 0.0)
  {
    hide Saturate;
    SaturateMagnitude(x, c.maxLinear);
    var clamped := Saturate(x, c.maxLinear);
    SaturateSign(x, c.maxLinear);
    Shrinks(clamped, scale);
    if clamped < 0.0 { assert clamped * scale == -(Abs(clamped) * scale); }
  }

  lemma {:induction false} SaturateSign(x: real, limit: real)
    requires limit > 0.0
    ensures (Saturate(x, limit) > 0.0 <==> x > 0.0) && (Saturate(x, limit) < 0.0 <==> x < 0.0)
  {
  }

  // The turn that remains of the one asked for within the chassis limit and, in recovery, the recovery limit.
  function TurnLeft(c: Config, turn: real, recovering: bool): real {
    var clamped := Min(Abs(turn), c.maxAngular);
    if recovering then Min(clamped, c.degradedMaxAngular) else clamped
  }

  // ... and then, on the spot, none up to the threshold and the in-place limit above it; otherwise the curvature limit.
  function TurnAt(c: Config, asked: real, speed: real, inPlace: bool): real {
    if !inPlace then Min(asked, Min(c.maxAngular, speed * c.maxCurvature + c.curvatureSlack))
    else if asked <= 0.001 then 0.0 else Min(asked, c.maxSpinAngular)
  }

  lemma {:induction false} TurnLeftExactly(c: Config, turn: real, recovering: bool)
    requires c.maxAngular >= 0.0 && c.degradedMaxAngular >= 0.0
    ensures var a := LimitedAngular(c, turn, recovering);
            Abs(a) == TurnLeft(c, turn, recovering) && (a > 0.0 ==> turn > 0.0) && (a < 0.0 ==> turn < 0.0)
  {
    hide Saturate;
    SaturateMagnitude(turn, c.maxAngular);
    SaturateMagnitude(Saturate(turn, c.maxAngular), c.degradedMaxAngular);
  }

  lemma {:induction false} TurnAtIs(c: Config, asked: real, linear: real)
    ensures TurnAt(c, asked, Abs(linear), false) == Min(asked, TurnLimit(c, linear))
    ensures TurnAt(c, asked, Abs(linear), true) == if asked <= 0.001 then 0.0 else Min(asked, c.maxSpinAngular)
  {
  }

  /** The two-sided clamp shortens a turn, and never turns the other way, exactly when its limit is not negative. */
  lemma {:induction false} ClampsIff(limit: real)
    ensures (forall x: real :: Abs(Saturate(x, limit)) == Min(Abs(x), limit) && x * Saturate(x, limit) >= 0.0) <==>
            limit >= 0.0
  {
    if limit >= 0.0 {
      forall x: real ensures Abs(Saturate(x, limit)) == Min(Abs(x), limit) && x * Saturate(x, limit) >= 0.0 {
        var y := Saturate(x, limit);
        if x >= 0.0 { ProductOrder(0.0, y, x); } else { ProductOrder(0.0, -y, -x); }
      }
    } else {
      assert Abs(Saturate(0.0, limit)) != Min(Abs(0.0), limit);
    }
  }

  lemma {:induction false} ShapedExactly(c: Config, linear: real, angular: real)
    requires TurnLimitsSane(c) && c.maxSpinAngular >= 0.0
    ensures var (out, inPlace) := (Shaped(c, linear, angular), Abs(linear) < c.minLinearForTurn);
      && out.linear == (if inPlace then 0.0 else linear)
      && Abs(out.angular) == TurnAt(c, Abs(angular), Abs(linear), inPlace)
      && (out.angular > 0.0 ==> angular > 0.0) && (out.angular < 0.0 ==> angular < 0.0)
  {
    hide Saturate, TurnLimit, TurnAt;
    TurnLimitNonNegative(c, linear);
    TurnAtIs(c, Abs(angular), linear);
    SaturateMagnitude(angular, TurnLimit(c, linear));
    SaturateMagnitude(angular, c.maxSpinAngular);
  }

  // The twist that the command in force stands for, as magnitudes and directions.
  predicate Exact(c: Config, s: State, now: real, out: Twist)
    requires s.commands.last.Some? && c.approachDistance > 0.0
  {
    var k, mode := s.commands.last.value, s.recovery.mode;
    var left := SpeedLeft(c, k.x, ReverseScale(c, s.rear, now), s.goal, mode);
    var inPlace := left < c.minLinearForTurn;
    Directed(out, k, if inPlace then 0.0 else left, TurnAt(c, TurnLeft(c, k.turn, mode), left, inPlace))
  }

  /** Exactly what a ready gate publishes, for either direction of travel and of turning. The speed is the one asked
      for within the chassis limit, tapered backwards, within the speed limit, or none if that is less than the smallest
      translation. The turn is the one asked for within the chassis limit and, in recovery, the recovery limit; on the
      spot it is none up to the threshold and within the in-place limit above it, otherwise within the curvature limit.
      Neither ever changes direction. */
  lemma {:induction false} OutputExactly(c: Config, s: State, clk: Clock)
    requires c.Accepted() && TurnLimitsSane(c) && Moving(c, s, clk)
    ensures Exact(c, s, clk.ros, Output(c, s, clk))
  {
    hide ReasonFor, Output, CurrentCap, SpeedLeft, TurnLeft, TurnAt, ReverseScale, LimitedLinear, LimitedAngular, Shaped;
    SpeedLeftExactly(c, s, clk.ros);
    OutputIntended(c, s, clk);
    TurnLeftExactly(c, s.commands.last.value.turn, s.recovery.mode);
    var t := Intended(c, s, clk.ros);
    ShapedExactly(c, t.linear, t.angular);
  }

  lemma {:induction false} OutputIntended(c: Config, s: State, clk: Clock)
    requires Moving(c, s, clk)
    ensures var t := Intended(c, s, clk.ros); Output(c, s, clk) == Shaped(c, t.linear, t.angular)
  {
    hide ReasonFor, Shaped, Intended;
  }

  // The plan side of the reverse permission.
  predicate ReverseOpen(c: Config, p: Plans, now: real) {
    !Stale(p.time, now, c.planTimeout) && p.straight && p.confirmations >= c.confirmations
  }

  // A reverse command beyond the guard threshold moves the chassis only on a fresh plan
  // confirmed straight.
  lemma {:induction false} ReverseNeedsStraightPlan(c: Config, s: State, clk: Clock)
    requires c.reverseStraightOnly && Output(c, s, clk) != STOP && s.commands.last.value.x < -0.001
    ensures ReverseOpen(c, s.plans, clk.ros)
    ensures Abs(s.commands.last.value.turn) <= c.maxReverseAngular
  {
  }

  // ----- Exactly when the gate lets a command through -----

  predicate RecoveryWithinLimits(c: Config, r: Recovery) {
    r.mode ==> r.traveled < c.degradedMaxTravel && r.rotated < c.degradedMaxRotation
  }

  predicate LocalizationReady(c: Config, l: Localization, now: real) {
    !Stale(l.time, now, c.localizationTimeout) && l.fitness.Finite? && !l.hysteresis.blocked
  }

  // A reverse command needs a fresh plan, confirmed straight, and next to no turning.
  predicate ReversePermitted(c: Config, k: Commands, p: Plans, now: real) {
    c.reverseStraightOnly && k.last.Some? && k.last.value.x < -0.001 ==>
      Abs(k.last.value.turn) <= c.maxReverseAngular && ReverseOpen(c, p, now)
  }

  predicate RearPermitted(c: Config, k: Commands, r: Rear, now: real) {
    RearGuarded(c, k) ==>
      var turning := Abs(k.last.value.turn) > 0.001;
      && !Stale(r.healthTime, now, c.sonarTimeout) && r.healthy
      && SensorClear(c, r.left, now, turning) && SensorClear(c, r.right, now, turning)
  }

  predicate CommandPermitted(c: Config, s: State, now: real) {
    && !CollisionMonitorBlocks(c, s.commands, now) && !Stale(s.commands.time, now, c.commandTimeout)
    && (SmallSpinRequested(c, s.commands) ==> c.allowSpin && !s.spin.limitReached)
    && ReversePermitted(c, s.commands, s.plans, now) && RearPermitted(c, s.commands, s.rear, now)
  }

  /** The cascade of reasons, as one conjunction: the gate is ready exactly when every link is
      alive, the localization is trusted, no budget is used up and the command itself is
      permitted. */
  lemma {:induction false} ReadyIff(c: Config, s: State, clk: Clock)
    ensures ReasonFor(c, s, clk) == Ready <==>
      && s.armed && OperatorReady(c, s, clk.ros)
      && (c.leaseRequired ==> !Stale(s.goal.leaseTime, clk.ros, c.leaseTimeout) && s.goal.active)
      && ChassisReady(c, s, clk.mono) && LocalizationReady(c, s.loc, clk.ros)
      && !Stale(s.odom.time, clk.ros, c.odomTimeout) && ObstaclesReady(c, s, clk.ros)
      && RecoveryWithinLimits(c, s.recovery) && CommandPermitted(c, s, clk.ros)
  {
    hide Stale, CollisionMonitorBlocks, SmallSpinRequested, RearGuarded, SensorClear;
    ReverseReasonIff(c, s.commands, s.plans, clk.ros);
    RearReasonIff(c, s.commands, s.rear, clk.ros);
    CascadeIff(c, s, clk, ReversePermitted(c, s.commands, s.plans, clk.ros), RearPermitted(c, s.commands, s.rear, clk.ros));
  }

  lemma {:induction false} ReverseReasonIff(c: Config, k: Commands, p: Plans, now: real)
    ensures ReversePathReason(c, k, p, now) == Ready <==> ReversePermitted(c, k, p, now)
  {
    hide Stale;
  }

  lemma {:induction false} RearReasonIff(c: Config, k: Commands, r: Rear, now: real)
    ensures RearReason(c, k, r, now) == Ready <==> RearPermitted(c, k, r, now)
  {
    hide Stale, SensorClear;
  }

  lemma {:induction false} CascadeIff(c: Config, s: State, clk: Clock, reverse: bool, rear: bool)
    requires (ReversePathReason(c, s.commands, s.plans, clk.ros) == Ready) == reverse
    requires (RearReason(c, s.commands, s.rear, clk.ros) == Ready) == rear
    ensures ReasonFor(c, s, clk) == Ready <==>
      && s.armed && OperatorReady(c, s, clk.ros)
      && (c.leaseRequired ==> !Stale(s.goal.leaseTime, clk.ros, c.leaseTimeout) && s.goal.active)
      && ChassisReady(c, s, clk.mono) && LocalizationReady(c, s.loc, clk.ros)
      && !Stale(s.odom.time, clk.ros, c.odomTimeout) && ObstaclesReady(c, s, clk.ros)
      && RecoveryWithinLimits(c, s.recovery)
      && !CollisionMonitorBlocks(c, s.commands, clk.ros) && !Stale(s.commands.time, clk.ros, c.commandTimeout)
      && (SmallSpinRequested(c, s.commands) ==> c.allowSpin && !s.spin.limitReached)
      && reverse && rear
  {
    hide Stale, CollisionMonitorBlocks, SmallSpinRequested, ReversePathReason, RearReason;
  }

  /** A permitted forward command within the limits keeps its speed, and its turn if that is within the
      curvature bound. */
  lemma {:induction false} PermittedCommandPasses(c: Config, s: State, clk: Clock)
    requires c.Accepted() && Moving(c, s, clk)
    requires var x := s.commands.last.value.x;
             && Max(0.0, c.minLinearForTurn) <= x <= c.maxLinear
             && (c.profileEnabled ==> x <= CurrentCap(c, s.goal, s.recovery.mode))
    ensures var k := s.commands.last.value;
      && Output(c, s, clk).linear == k.x
      && (Abs(k.turn) <= TurnLimit(c, k.x) <= c.maxAngular && (s.recovery.mode ==> Abs(k.turn) <= c.degradedMaxAngular)
          ==> Output(c, s, clk).angular == k.turn)
  {
    hide ReasonFor, CurrentCap, ReverseScale, TurnLimit;
  }

  /** A permitted in-place turn within the spin and chassis limits comes out as that bare turn. */
  lemma {:induction false} PermittedTurnPasses(c: Config, s: State, clk: Clock)
    requires c.Accepted() && Moving(c, s, clk)
    requires var k := s.commands.last.value;
             && 0.0 <= k.x < c.minLinearForTurn && 0.001 < Abs(k.turn) <= Min(c.maxAngular, c.maxSpinAngular)
             && (s.recovery.mode ==> Abs(k.turn) <= c.degradedMaxAngular)
    ensures Output(c, s, clk) == Twist(0.0, s.commands.last.value.turn)
  {
    hide ReasonFor, CurrentCap, ReverseScale, TurnLimit;
    CapPositive(c, s.goal, s.recovery.mode);
  }
}
