/** Concrete runs of the gate from its initial state: a healthy start, driving on, and exactly when the gate
    can drive at all. */
module GateRuns {
  import opened Numbers
  import opened Runs
  import opened ReversePlan
  import opened StraightRoutes
  import opened GateModel
  import opened GateOutput
  import opened GateTraces
  import opened GateHistories

  // ----- Building runs -----

  const START: Clock := Clock(0.0, 0.0)
  const ORIGIN: Point := Point(0.0, 0.0)

  // The run `tr`, followed by some events that all arrive at one time.
  function Then(tr: Trace, clk: Clock, es: seq<Event>): Trace {
    if |es| == 0 then tr else Then(tr, clk, Init(es)) + [Timed(clk, Last(es))]
  }

  function Steps(c: Config, s: State, clk: Clock, es: seq<Event>): State {
    if |es| == 0 then s else Step(c, Steps(c, s, clk, Init(es)), clk, Last(es))
  }

  lemma {:induction false} ReachThen(c: Config, tr: Trace, clk: Clock, es: seq<Event>)
    ensures Reach(c, Then(tr, clk, es)) == Steps(c, Reach(c, tr), clk, es)
  {
    hide Step;
    if |es| > 0 {
      ReachThen(c, tr, clk, Init(es));
      assert Init(Then(tr, clk, es)) == Then(tr, clk, Init(es));
    }
  }

  lemma {:induction false} OneStep(c: Config, tr: Trace, clk: Clock, a: Event)
    ensures Reach(c, Then(tr, clk, [a])) == Step(c, Reach(c, tr), clk, a)
  {
    hide Reach, Step, Then;
    ReachThen(c, tr, clk, [a]);
    assert Init([a]) == [];
  }

  lemma {:induction false} TwoSteps(c: Config, tr: Trace, clk: Clock, a: Event, b: Event)
    ensures Reach(c, Then(tr, clk, [a, b])) == Step(c, Step(c, Reach(c, tr), clk, a), clk, b)
  {
    hide Reach, Step, Then;
    ReachThen(c, tr, clk, [a, b]);
    OneStep(c, tr, clk, a);
    ReachThen(c, tr, clk, [a]);
    assert Init([a, b]) == [a];
  }

  lemma {:induction false} ThreeSteps(c: Config, tr: Trace, clk: Clock, a: Event, b: Event, d: Event)
    ensures Reach(c, Then(tr, clk, [a, b, d])) == Step(c, Step(c, Step(c, Reach(c, tr), clk, a), clk, b), clk, d)
  {
    hide Reach, Step, Then;
    ReachThen(c, tr, clk, [a, b, d]);
    TwoSteps(c, tr, clk, a, b);
    ReachThen(c, tr, clk, [a, b]);
    assert Init([a, b, d]) == [a, b];
  }

  // ----- A healthy start -----

  function ChassisFine(c: Config): Event { SystemMessage(0, c.vehicleNormal, c.controlCan) }

  const CLEAR: Sensor := Sensor(Some(0.0), PosInf, Ultrasonic.INITIAL_LATCH, Ultrasonic.INITIAL_LATCH)

  // Every link is alive, the rear is clear and the chassis stands at the origin.
  function LinksRun(c: Config): Trace {
    Then(Then(Then([], START, [Heartbeat(true), ObstacleMessage(Finite(c.maxObstacleAge)), OdomMessage(Pose(ORIGIN, 0.0))]),
              START, [ChassisFine(c), ChassisFine(c), ChassisFine(c)]),
         START, [SonarHealth(true), RangeMessage(true, PosInf), RangeMessage(false, PosInf)])
  }

  function Linked(c: Config, l: Localization): State {
    INITIAL.(
      loc := l,
      odom := Odometry(Some(0.0), Some(Pose(ORIGIN, 0.0))),
      spin := INITIAL.spin.(lastYaw := Some(0.0)),
      chassis := Chassis(Some(0.0), 3, Some(0), Some(c.vehicleNormal), Some(c.controlCan)),
      obstacles := Obstacles(Some(0.0), Finite(c.maxObstacleAge)),
      rear := Rear(Some(0.0), true, CLEAR, CLEAR),
      operator := Operator(Some(0.0), true),
      goal := INITIAL.goal.(lastOdom := Some(ORIGIN)))
  }

  lemma {:induction false} ClearEchoKeeps(l: Ultrasonic.Limits)
    ensures Ultrasonic.Updated(l, Ultrasonic.INITIAL_LATCH, Ultrasonic.Sample(PosInf, 0.0)) == Ultrasonic.INITIAL_LATCH
  {
  }

  lemma {:induction false} LinksReach(c: Config)
    ensures Reach(c, LinksRun(c)) == Linked(c, INITIAL.loc)
  {
    hide Reach, Then, Ultrasonic.Updated, YawStep;
    var first := Then([], START, [Heartbeat(true), ObstacleMessage(Finite(c.maxObstacleAge)), OdomMessage(Pose(ORIGIN, 0.0))]);
    var second := Then(first, START, [ChassisFine(c), ChassisFine(c), ChassisFine(c)]);
    EmptyRun(c);
    ThreeSteps(c, [], START, Heartbeat(true), ObstacleMessage(Finite(c.maxObstacleAge)), OdomMessage(Pose(ORIGIN, 0.0)));
    ThreeSteps(c, first, START, ChassisFine(c), ChassisFine(c), ChassisFine(c));
    ThreeSteps(c, second, START, SonarHealth(true), RangeMessage(true, PosInf), RangeMessage(false, PosInf));
    ClearEchoKeeps(c.reverseLimits);
    ClearEchoKeeps(c.turnLimits);
  }

  lemma {:induction false} EmptyRun(c: Config)
    ensures Reach(c, []) == INITIAL
  {
  }

  // The localization after k perfect samples.
  function Trusted(c: Config, k: nat): Localization {
    if k == 0 then INITIAL.loc
    else Localization(Some(0.0), Finite(0.0),
                      if k >= c.normal.clearSamples then Fitness.Hysteresis(false, None, 0)
                      else Fitness.Hysteresis(true, None, k))
  }

  function Repeat(n: nat, e: Event): seq<Event> { seq(n, _ => e) }

  lemma {:induction false} RepeatInit(n: nat, e: Event)
    requires n > 0
    ensures Init(Repeat(n, e)) == Repeat(n - 1, e) && Last(Repeat(n, e)) == e
  {
  }

  lemma {:induction false} PerfectSample(c: Config, k: nat)
    requires c.Accepted() && k < c.normal.clearSamples
    ensures Step(c, Linked(c, Trusted(c, k)), START, LocalizationMessage(Finite(0.0))) == Linked(c, Trusted(c, k + 1))
  {
    hide Recoverable;
  }

  lemma {:induction false} PerfectSamples(c: Config, k: nat)
    requires c.Accepted() && k <= c.normal.clearSamples
    ensures Steps(c, Linked(c, INITIAL.loc), START, Repeat(k, LocalizationMessage(Finite(0.0)))) == Linked(c, Trusted(c, k))
  {
    hide Step, Linked;
    if k > 0 {
      PerfectSamples(c, k - 1);
      RepeatInit(k, LocalizationMessage(Finite(0.0)));
      PerfectSample(c, k - 1);
    }
  }

  // The parameters let the gate be armed and stay ready.
  predicate Serviceable(c: Config) {
    && c.localizationTimeout >= 0.0 && c.odomTimeout >= 0.0 && c.chassisTimeout >= 0.0
    && c.commandTimeout >= 0.0 && c.obstacleTimeout >= 0.0 && c.sonarTimeout >= 0.0
    && (c.heartbeatRequired ==> c.heartbeatTimeout >= 0.0) && (c.leaseRequired ==> c.leaseTimeout >= 0.0)
  }

  /** A healthy start: the links, as many perfect fitness samples as a release takes, the arm call and a
      goal. */
  function ReadyRun(c: Config): Trace
    requires c.normal.clearSamples >= 0
  {
    Then(Then(LinksRun(c), START, Repeat(c.normal.clearSamples, LocalizationMessage(Finite(0.0)))),
         START, [SetArm(true), GoalLease(true)])
  }

  // Armed and trusted, with a goal, standing at the origin with nothing commanded.
  function Underway(c: Config): State {
    Linked(c, Localization(Some(0.0), Finite(0.0), Fitness.Hysteresis(false, None, 0))).(
      armed := true,
      spin := Spin(false, Some(0.0), Some(ORIGIN), 0.0, false),
      recovery := Recovery(false, false, 0.0, 0.0, Some(0.0), 0),
      goal := Goal(Some(0.0), true, 0.0, Some(ORIGIN), PosInf))
  }

  lemma {:induction false} ReadyReach(c: Config)
    requires c.Accepted() && Serviceable(c)
    ensures Reach(c, ReadyRun(c)) == Underway(c)
  {
    hide Reach, Then, LinksRun, Steps;
    var n := c.normal.clearSamples;
    var before := Then(LinksRun(c), START, Repeat(n, LocalizationMessage(Finite(0.0))));
    LinksReach(c);
    ReachThen(c, LinksRun(c), START, Repeat(n, LocalizationMessage(Finite(0.0))));
    PerfectSamples(c, n);
    TwoSteps(c, before, START, SetArm(true), GoalLease(true));
  }

  // ----- Driving on -----

  function Waypoint(k: nat): Pose { Pose(Point(0.25 * k as real, 0.0), 0.0) }

  function Waypoints(n: nat): seq<Event> { seq(n, i requires 0 <= i < n => OdomMessage(Waypoint(i + 1))) }

  // Underway, k quarter-metre steps further on.
  function Driven(c: Config, k: nat): State {
    var s := Underway(c);
    s.(odom := Odometry(Some(0.0), Some(Waypoint(k))),
       goal := s.goal.(traveled := 0.25 * k as real, lastOdom := Some(Waypoint(k).at)))
  }

  lemma {:induction false} WaypointStep(m: Maths, k: nat)
    requires m.Valid()
    ensures m.Distance(Waypoint(k).at, Waypoint(k + 1).at) == 0.25
    ensures m.Distance(Waypoint(k).at, Waypoint(k).at) == 0.0
  {
    assert 0.25 * (k + 1) as real - 0.25 * k as real == 0.25;
    HypotIs(m, 0.25, 0.0, 0.25);
    HypotIs(m, 0.0, 0.0, 0.0);
  }

  lemma {:induction false} DriveOn(c: Config, k: nat)
    requires c.Accepted()
    ensures Step(c, Driven(c, k), START, OdomMessage(Waypoint(k + 1))) == Driven(c, k + 1)
  {
    hide Maths.Valid;
    WaypointStep(c.maths, k);
  }

  lemma {:induction false} DriveSteps(c: Config, n: nat)
    requires c.Accepted()
    ensures Steps(c, Underway(c), START, Waypoints(n)) == Driven(c, n)
  {
    hide Step, Waypoint;
    if n == 0 {
      StandingStill(c);
    } else {
      DriveSteps(c, n - 1);
      assert Init(Waypoints(n)) == Waypoints(n - 1);
      DriveOn(c, n - 1);
    }
  }

  lemma {:induction false} StandingStill(c: Config)
    ensures Driven(c, 0) == Underway(c)
  {
  }

  // Enough steps to leave the start zone of the speed profile.
  function Enough(c: Config): (n: nat)
    requires c.startDistance > 0.0
    ensures 0.25 * n as real >= c.startDistance
  {
    (c.startDistance * 4.0).Floor + 1
  }

  function DriveRun(c: Config): Trace
    requires c.normal.clearSamples >= 0 && c.startDistance > 0.0
  {
    Then(ReadyRun(c), START, Waypoints(Enough(c)))
  }

  lemma {:induction false} DriveReach(c: Config)
    requires c.Accepted() && Serviceable(c)
    ensures Reach(c, DriveRun(c)) == Driven(c, Enough(c))
  {
    hide Reach, ReadyRun, Then, Steps, Driven, Underway, Waypoints, Enough;
    ReadyReach(c);
    ReachThen(c, ReadyRun(c), START, Waypoints(Enough(c)));
    DriveSteps(c, Enough(c));
  }

  // Out of the start zone and with no plan to the goal, the profile allows the cruise speed.
  lemma {:induction false} CruiseCap(c: Config, g: Goal)
    requires c.Accepted() && g.active && g.traveled >= c.startDistance && g.remaining == PosInf
    ensures c.profileEnabled ==> CurrentCap(c, g, false) == c.maxLinear
  {
  }

  // ----- The gate is alive -----

  // All that the cascade asks of the state except of the command and of the rear.
  predicate InService(c: Config, s: State, clk: Clock) {
    && s.armed && OperatorReady(c, s, clk.ros)
    && (c.leaseRequired ==> !Stale(s.goal.leaseTime, clk.ros, c.leaseTimeout) && s.goal.active)
    && ChassisReady(c, s, clk.mono) && LocalizationReady(c, s.loc, clk.ros)
    && !Stale(s.odom.time, clk.ros, c.odomTimeout) && ObstaclesReady(c, s, clk.ros)
    && RecoveryWithinLimits(c, s.recovery)
  }

  predicate JustCommanded(s: State, clk: Clock, k: Command) {
    s.commands.last == Some(k) && s.commands.time == Some(clk.ros) && s.commands.preTime == None
  }

  lemma {:induction false} ServiceMoves(c: Config, s: State, clk: Clock, k: Command)
    requires InService(c, s, clk) && JustCommanded(s, clk, k) && c.commandTimeout >= 0.0
    requires SmallSpinRequested(c, s.commands) ==> c.allowSpin && !s.spin.limitReached
    requires ReversePermitted(c, s.commands, s.plans, clk.ros) && RearPermitted(c, s.commands, s.rear, clk.ros)
    ensures Moving(c, s, clk)
  {
    hide ReversePermitted, RearPermitted, SmallSpinRequested, ReasonFor, OperatorReady, ChassisReady, LocalizationReady,
         ObstaclesReady, RecoveryWithinLimits;
    ReadyIff(c, s, clk);
  }

  // Both rear sensors are fresh, healthy and unblocked.
  predicate RearClear(c: Config, r: Rear, now: real) {
    && !Stale(r.healthTime, now, c.sonarTimeout) && r.healthy
    && !Stale(r.left.time, now, c.sonarTimeout) && !r.left.latch.blocked && !r.left.turnLatch.blocked
    && !Stale(r.right.time, now, c.sonarTimeout) && !r.right.latch.blocked && !r.right.turnLatch.blocked
  }

  // Nothing in the parameters or the run kept the gate from moving.
  lemma {:induction false} MovingNeedsService(c: Config, tr: Trace, clk: Clock)
    requires Moving(c, Reach(c, tr), clk)
    ensures Serviceable(c)
  {
    hide Reach, RecoveryWithinLimits, ReversePermitted, RearPermitted;
    ReadyIff(c, Reach(c, tr), clk);
    ArmedExactly(c, tr);
    var i :| Latest(tr, ArmCalls, i) && ArmSucceeded(c, tr, i);
  }

  function ForwardRun(c: Config): Trace
    requires c.normal.clearSamples >= 0 && c.startDistance > 0.0
  {
    Then(DriveRun(c), START, [OnCommand(Command(c.maxLinear, 0.0, 0.0))])
  }

  lemma {:induction false} ForwardMoves(c: Config)
    requires c.Accepted() && Serviceable(c) && c.minLinearForTurn <= c.maxLinear
    ensures Output(c, Reach(c, ForwardRun(c)), START).linear == c.maxLinear
  {
    hide Reach, Then, DriveRun, ReasonFor, Output, CurrentCap, Enough;
    var k := Command(c.maxLinear, 0.0, 0.0);
    DriveReach(c);
    OneStep(c, DriveRun(c), START, OnCommand(k));
    var s := Reach(c, ForwardRun(c));
    assert s == Driven(c, Enough(c)).(commands := Commands(Some(k), Some(0.0), None, None));
    assert InService(c, s, START);
    assert RearPermitted(c, s.commands, s.rear, 0.0) by { assert RearClear(c, s.rear, 0.0); }
    ServiceMoves(c, s, START, k);
    CruiseCap(c, s.goal);
    PermittedCommandPasses(c, s, START);
  }

  /** The gate is alive: in some run it drives forward, at the chassis limit even, if and only if no
      timeout in use is negative and the smallest translation is not above that limit. */
  lemma {:induction false} MovesForwardIff(c: Config)
    requires c.Accepted()
    ensures (exists tr, clk :: Output(c, Reach(c, tr), clk).linear > 0.0)
            <==> Serviceable(c) && c.minLinearForTurn <= c.maxLinear
    ensures Serviceable(c) && c.minLinearForTurn <= c.maxLinear ==>
            exists tr, clk :: Output(c, Reach(c, tr), clk).linear == c.maxLinear
  {
    hide Reach, Output, ReasonFor, CurrentCap, ForwardRun;
    if tr, clk :| Output(c, Reach(c, tr), clk).linear > 0.0 {
      OutputBounds(c, Reach(c, tr), clk);
      assert Moving(c, Reach(c, tr), clk) by { StillWhenNotMoving(c, Reach(c, tr), clk); }
      MovingNeedsService(c, tr, clk);
    }
    if Serviceable(c) && c.minLinearForTurn <= c.maxLinear { ForwardMoves(c); }
  }

  lemma {:induction false} StillWhenNotMoving(c: Config, s: State, clk: Clock)
    ensures !Moving(c, s, clk) ==> Output(c, s, clk) == STOP
  {
  }

  // ----- Reversing -----

  // A straight segment long enough for the gate.
  function Segment(c: Config): seq<Point> {
    StraightPath(c.maths, ORIGIN, Point(Max(0.01, c.straight.minLength), 0.0))
  }

  lemma {:induction false} SegmentAccepted(c: Config)
    requires c.maths.Valid() && Tolerant(c.straight)
    ensures Classified(c.maths, c.straight, Segment(c))
  {
    hide Classified;
    var d := Max(0.01, c.straight.minLength);
    HypotIs(c.maths, d, 0.0, d);
    StraightPlanAcceptedIff(c.maths, c.straight, ORIGIN, Point(d, 0.0));
  }

  lemma {:induction false} PlansConfirm(c: Config, s: State, k: nat)
    requires c.maths.Valid() && Tolerant(c.straight) && k <= c.confirmations && s.plans == INITIAL.plans
    ensures Steps(c, s, START, Repeat(k, PlanMessage(Segment(c)))) ==
            s.(plans := if k == 0 then INITIAL.plans else Plans(Some(0.0), true, k))
  {
    hide Classified, Segment;
    if k > 0 {
      PlansConfirm(c, s, k - 1);
      RepeatInit(k, PlanMessage(Segment(c)));
      SegmentAccepted(c);
    }
  }

  // Nothing in the parameters forbids a reverse beyond the guard threshold.
  predicate ReverseServiceable(c: Config) {
    && c.sonarEnabled && (c.taperEnabled ==> c.reverseLimits.clear - c.reverseLimits.stop > 0.000001)
    && (c.reverseStraightOnly ==> c.planTimeout >= 0.0 && Tolerant(c.straight) && c.maxReverseAngular >= 0.0)
  }

  /** A healthy start, out of the start zone, the straight plans that a reverse needs, and the command. */
  function BackwardRun(c: Config): Trace
    requires c.normal.clearSamples >= 0 && c.confirmations >= 0 && c.startDistance > 0.0
  {
    Then(Then(DriveRun(c), START, if c.reverseStraightOnly then Repeat(c.confirmations, PlanMessage(Segment(c))) else []),
         START, [OnCommand(Command(-c.maxLinear, 0.0, 0.0))])
  }

  lemma {:induction false} BackwardReach(c: Config)
    requires c.Accepted() && Serviceable(c) && ReverseServiceable(c)
    ensures Reach(c, BackwardRun(c)) == Driven(c, Enough(c)).(
              plans := if c.reverseStraightOnly then Plans(Some(0.0), true, c.confirmations) else INITIAL.plans,
              commands := Commands(Some(Command(-c.maxLinear, 0.0, 0.0)), Some(0.0), None, None))
  {
    hide Reach, Then, DriveRun, Steps, Segment, Enough, Waypoint, Classified;
    var plans := if c.reverseStraightOnly then Repeat(c.confirmations, PlanMessage(Segment(c))) else [];
    DriveReach(c);
    ReachThen(c, DriveRun(c), START, plans);
    if c.reverseStraightOnly {
      PlansConfirm(c, Driven(c, Enough(c)), c.confirmations);
    } else {
      NoSteps(c, Driven(c, Enough(c)), START);
    }
    OneStep(c, Then(DriveRun(c), START, plans), START, OnCommand(Command(-c.maxLinear, 0.0, 0.0)));
  }

  lemma {:induction false} NoSteps(c: Config, s: State, clk: Clock)
    ensures Steps(c, s, clk, []) == s
  {
  }

  lemma {:induction false} ClearScale(c: Config, r: Rear)
    requires c.Accepted() && c.sonarEnabled && c.sonarTimeout >= 0.0 && r == Rear(Some(0.0), true, CLEAR, CLEAR)
    requires c.taperEnabled ==> c.reverseLimits.clear - c.reverseLimits.stop > 0.000001
    ensures ReverseScale(c, r, 0.0) == 1.0
  {
  }

  lemma {:induction false} BackwardMoves(c: Config)
    requires c.Accepted() && Serviceable(c) && ReverseServiceable(c) && c.minLinearForTurn <= c.maxLinear
    ensures Output(c, Reach(c, BackwardRun(c)), START).linear == -c.maxLinear
  {
    hide Reach, BackwardRun, ReasonFor, CurrentCap, Enough, Waypoint, ReverseScale;
    var k := Command(-c.maxLinear, 0.0, 0.0);
    BackwardReach(c);
    var s := Reach(c, BackwardRun(c));
    assert InService(c, s, START);
    assert RearPermitted(c, s.commands, s.rear, 0.0) by { assert RearClear(c, s.rear, 0.0); }
    ServiceMoves(c, s, START, k);
    CruiseCap(c, s.goal);
    ClearScale(c, s.rear);
  }

  // Below the guard threshold no plan and no rear sensor is asked for.
  lemma {:induction false} CreepMoves(c: Config)
    requires c.Accepted() && Serviceable(c) && c.minLinearForTurn <= 0.001 && c.minLinearForTurn <= c.maxLinear
    ensures exists tr, clk :: Output(c, Reach(c, tr), clk).linear < 0.0
  {
    hide Reach, Then, DriveRun, ReasonFor, CurrentCap, Enough, Waypoint;
    var k := Command(-0.001, 0.0, 0.0);
    var tr := Then(DriveRun(c), START, [OnCommand(k)]);
    DriveReach(c);
    OneStep(c, DriveRun(c), START, OnCommand(k));
    var s := Reach(c, tr);
    assert InService(c, s, START);
    assert RearPermitted(c, s.commands, s.rear, 0.0) by { assert RearClear(c, s.rear, 0.0); }
    ServiceMoves(c, s, START, k);
    CruiseCap(c, s.goal);
    var (scale, cap) := (ReverseScale(c, s.rear, 0.0), CurrentCap(c, s.goal, false));
    assert LimitedLinear(c, -0.001, scale, cap) == -Min(0.001, c.maxLinear);
    assert Output(c, Reach(c, tr), START).linear < 0.0;
  }

  lemma {:induction false} BackwardNeeds(c: Config, tr: Trace, clk: Clock)
    requires c.Accepted() && c.minLinearForTurn > 0.001 && Output(c, Reach(c, tr), clk).linear < 0.0
    ensures ReverseServiceable(c)
  {
    hide Reach, Output, ReasonFor, CurrentCap, StraightRoute, PlansReceived, Stale, Thin, SensorScale;
    var s := Reach(c, tr);
    NegativeSpeedNeedsRear(c, s, clk);
    OutputBounds(c, s, clk);
    if c.taperEnabled { TaperSpan(c, s, clk); }
    if c.reverseStraightOnly {
      ReverseNeedsStraightRoutes(c, tr, clk);
      InputsRemembered(c, tr);
      var i :| Recent(tr, PlanMessages, i, clk, c.planTimeout);
      FreshTimeout(Some(StampOf(PlanMessages, tr[i].clk)), StampOf(PlanMessages, clk), c.planTimeout);
      var plans := PlansReceived(tr);
      assert StraightRoute(c.maths, c.straight, Thin(c.maths, plans[|plans| - 1]));
      AcceptingIsTolerant(c.maths, c.straight, Thin(c.maths, plans[|plans| - 1]));
    }
  }

  lemma {:induction false} FreshTimeout(stamp: Option<real>, now: real, timeout: real)
    requires !Stale(stamp, now, timeout)
    ensures timeout >= 0.0
  {
  }

  // A span that is too narrow tapers everything to nothing.
  lemma {:induction false} TaperSpan(c: Config, s: State, clk: Clock)
    requires c.Accepted() && c.minLinearForTurn > 0.001 && c.taperEnabled && Output(c, s, clk).linear < 0.0
    ensures c.reverseLimits.clear - c.reverseLimits.stop > 0.000001
  {
    hide ReasonFor, CurrentCap, SensorScale, RearReverseAllowed;
    OutputIsShaped(c, s, clk);
    IntendedLinear(c, s, clk.ros);
    var t := Intended(c, s, clk.ros);
    ShapedBounds(c, t.linear, t.angular);
  }

  /** The gate can reverse: in some run it drives backwards if and only if it can drive at all and either
      its smallest translation is not above the guard threshold, or the rear sensors are in use, the taper has
      room, and, where plans are asked for, the limits accept some plan; then it does so at the chassis
      limit. */
  lemma {:induction false} MovesBackwardIff(c: Config)
    requires c.Accepted()
    ensures (exists tr, clk :: Output(c, Reach(c, tr), clk).linear < 0.0)
            <==> && Serviceable(c) && c.minLinearForTurn <= c.maxLinear
                 && (c.minLinearForTurn <= 0.001 || ReverseServiceable(c))
    ensures Serviceable(c) && c.minLinearForTurn <= c.maxLinear && ReverseServiceable(c) ==>
            exists tr, clk :: Output(c, Reach(c, tr), clk).linear == -c.maxLinear
  {
    hide Reach, Output, ReasonFor, CurrentCap, BackwardRun, ReverseServiceable;
    if tr, clk :| Output(c, Reach(c, tr), clk).linear < 0.0 {
      OutputBounds(c, Reach(c, tr), clk);
      StillWhenNotMoving(c, Reach(c, tr), clk);
      MovingNeedsService(c, tr, clk);
      if c.minLinearForTurn > 0.001 { BackwardNeeds(c, tr, clk); }
    }
    if Serviceable(c) && c.minLinearForTurn <= c.maxLinear {
      if ReverseServiceable(c) { BackwardMoves(c); } else if c.minLinearForTurn <= 0.001 { CreepMoves(c); }
    }
  }
}
