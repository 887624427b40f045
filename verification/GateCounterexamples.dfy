/** Concrete runs of the gate in which a property that one would expect of it fails: reversing blind, a
    second recovery of one goal, and turning on the spot with the budget used up. */
module GateCounterexamples {
  import opened Numbers
  import opened Runs
  import opened ReversePlan
  import opened GateModel
  import opened GateOutput
  import opened GateTraces
  import opened GateHistories
  import opened GateBudgets
  import opened GateRuns

  // ----- Reversing blind -----

  // Long enough after the start for every rear reading to be stale.
  function Later(c: Config): Clock { Clock(c.sonarTimeout + 1.0, c.sonarTimeout + 1.0) }

  const CREEP: Command := Command(-0.001, 0.0, 0.0)

  /** Armed with a healthy rear and driven out of the start zone; then everything but the rear sensors is
      heard again, and a reverse of a millimetre per second is commanded. */
  function BlindRun(c: Config): Trace
    requires c.normal.clearSamples >= 0 && c.startDistance > 0.0
  {
    Then(Then(Then(DriveRun(c),
                   Later(c), [Heartbeat(true), ObstacleMessage(Finite(c.maxObstacleAge)), OdomMessage(Waypoint(Enough(c)))]),
              Later(c), [ChassisFine(c), LocalizationPose, GoalLease(true)]),
         Later(c), [OnCommand(CREEP)])
  }

  function Blind(c: Config): State
    requires c.startDistance > 0.0
  {
    var (s, t) := (Driven(c, Enough(c)), Some(Later(c).ros));
    s.(operator := Operator(t, true), obstacles := s.obstacles.(time := t), odom := s.odom.(time := t),
       chassis := s.chassis.(time := t, count := 4), loc := s.loc.(time := t), goal := s.goal.(leaseTime := t),
       commands := Commands(Some(CREEP), t, None, None))
  }

  lemma {:induction false} BlindReach(c: Config)
    requires c.Accepted() && Serviceable(c)
    ensures Reach(c, BlindRun(c)) == Blind(c)
  {
    hide Reach, Then, DriveRun, Enough, Maths.Valid, Waypoint;
    var (clk, age, pose) := (Later(c), ObstacleMessage(Finite(c.maxObstacleAge)), OdomMessage(Waypoint(Enough(c))));
    var first := Then(DriveRun(c), clk, [Heartbeat(true), age, pose]);
    var second := Then(first, clk, [ChassisFine(c), LocalizationPose, GoalLease(true)]);
    DriveReach(c);
    WaypointStep(c.maths, Enough(c));
    WaypointYaw(Enough(c));
    ThreeSteps(c, DriveRun(c), clk, Heartbeat(true), age, pose);
    ThreeSteps(c, first, clk, ChassisFine(c), LocalizationPose, GoalLease(true));
    OneStep(c, second, clk, OnCommand(CREEP));
  }

  lemma {:induction false} WaypointYaw(k: nat)
    ensures Waypoint(k).yaw == 0.0
  {
  }

  lemma {:induction false} BlindReverse(c: Config)
    requires c.Accepted() && Serviceable(c) && c.minLinearForTurn <= 0.001 && c.minLinearForTurn <= c.maxLinear
    ensures Output(c, Blind(c), Later(c)).linear < 0.0 && !RearReverseAllowed(c, Blind(c).rear, Later(c).ros)
  {
    hide ReasonFor, CurrentCap, Enough, Waypoint;
    var (s, clk) := (Blind(c), Later(c));
    assert InService(c, s, clk);
    ServiceMoves(c, s, clk, CREEP);
    CruiseCap(c, s.goal);
    var (scale, cap) := (ReverseScale(c, s.rear, clk.ros), CurrentCap(c, s.goal, false));
    assert LimitedLinear(c, -0.001, scale, cap) == -Min(0.001, c.maxLinear);
  }

  /** Exactly when the rear guard is complete. In all runs every reverse output needs fresh, healthy and
      unblocked rear sensors if and only if the smallest translation that the gate passes is above the
      millimetre per second at which guard and taper begin, or the gate cannot drive at all. */
  lemma {:induction false} RearGuardCompleteIff(c: Config)
    requires c.Accepted()
    ensures (forall tr, clk :: Output(c, Reach(c, tr), clk).linear < 0.0 ==>
                                 RearReverseAllowed(c, Reach(c, tr).rear, clk.ros))
            <==> c.minLinearForTurn > 0.001 || c.minLinearForTurn > c.maxLinear || !Serviceable(c)
  {
    hide Reach, Output, ReasonFor, CurrentCap, RearReverseAllowed, BlindRun, Blind;
    if c.minLinearForTurn > 0.001 || c.minLinearForTurn > c.maxLinear || !Serviceable(c) {
      forall tr, clk | Output(c, Reach(c, tr), clk).linear < 0.0
        ensures RearReverseAllowed(c, Reach(c, tr).rear, clk.ros)
      {
        OutputBounds(c, Reach(c, tr), clk);
        StillWhenNotMoving(c, Reach(c, tr), clk);
        MovingNeedsService(c, tr, clk);
        NegativeSpeedNeedsRear(c, Reach(c, tr), clk);
      }
    } else {
      BlindReach(c);
      BlindReverse(c);
    }
  }

  // ----- A second recovery of one goal -----

  lemma {:induction false} ThenShape(tr: Trace, clk: Clock, es: seq<Event>)
    ensures var run := Then(tr, clk, es);
      && |run| == |tr| + |es| && run[..|tr|] == tr
      && forall i :: |tr| <= i < |run| ==> run[i] == Timed(clk, es[i - |tr|])
  {
    if |es| > 0 { ThenShape(tr, clk, Init(es)); }
  }

  lemma {:induction false} ThenTwice(tr: Trace, clk: Clock, a: seq<Event>, b: seq<Event>)
    ensures Then(Then(tr, clk, a), clk, b) == Then(tr, clk, a + b)
  {
    if |b| == 0 {
      assert a + b == a;
    } else {
      ThenTwice(tr, clk, a, Init(b));
      assert Init(a + b) == a + Init(b);
    }
  }

  lemma {:induction false} ThenPrefix(tr: Trace, clk: Clock, es: seq<Event>, k: nat)
    requires k <= |es|
    ensures |tr| + k <= |Then(tr, clk, es)| && Then(tr, clk, es)[..|tr| + k] == Then(tr, clk, es[..k])
  {
    hide Then;
    assert es == es[..k] + es[k..];
    ThenTwice(tr, clk, es[..k], es[k..]);
    ThenShape(tr, clk, es[..k]);
    ThenShape(Then(tr, clk, es[..k]), clk, es[k..]);
  }

  // A sample without a number blocks at once; it starts nothing.
  lemma {:induction false} FixLost(c: Config, s: State)
    requires !s.recovery.mode
    ensures Step(c, s, START, LocalizationMessage(NaN)) ==
            s.(loc := Localization(Some(0.0), NaN, Fitness.Hysteresis(true, Some(0.0), 0)))
  {
    hide Stale, ModeThresholds, SelectMode;
  }

  // A recoverable gate, one poor sample short of a recovery.
  predicate OnTheBrink(c: Config, s: State) {
    && s.armed && s.goal.active && s.goal.remaining == PosInf && !s.recovery.mode && !s.recovery.attempted
    && s.loc == Localization(Some(0.0), NaN, Fitness.Hysteresis(true, Some(0.0), 0))
  }

  // The worst sample that a recovery accepts.
  function Poor(c: Config): Event { LocalizationMessage(Finite(c.terminal.clear)) }

  lemma {:induction false} PoorSampleStarts(c: Config, s: State)
    requires c.Accepted() && Serviceable(c) && c.degradedEnabled && OnTheBrink(c, s)
    ensures Starts(c, s, START, Poor(c)) && !StartsOnArm(c, s, START, Poor(c))
    ensures Step(c, s, START, Poor(c)) ==
            s.(recovery := Recovery(true, true, 0.0, 0.0, Yaw(s.odom.pose), 0),
               loc := Localization(Some(0.0), Finite(c.terminal.clear),
                                   Fitness.Updated(Fitness.Hysteresis(true, Some(0.0), 0), Finite(c.terminal.clear), 0.0,
                                                   c.terminal.(clearSamples := c.degradedClearSamples))))
  {
    hide Fitness.Updated;
  }

  function RearmEvents(c: Config): seq<Event> {
    [LocalizationMessage(NaN), Poor(c), SetArm(false),
     LocalizationMessage(Finite(0.0)), SetArm(true), LocalizationMessage(NaN), Poor(c)]
  }

  /** A goal loses its localization and starts a recovery; the operator disarms and, on a good sample, arms
      again; the localization is lost once more. */
  function RearmRun(c: Config): Trace
    requires c.normal.clearSamples >= 0
  {
    Then(ReadyRun(c), START, RearmEvents(c))
  }

  lemma {:induction false} RearmFirstHalf(c: Config)
    requires c.Accepted() && Serviceable(c) && c.degradedEnabled
    ensures OnTheBrink(c, Reach(c, Then(ReadyRun(c), START, RearmEvents(c)[..1])))
    ensures var s := Reach(c, Then(ReadyRun(c), START, RearmEvents(c)[..3]));
            && s.loc.time == Some(0.0)
            && s == Underway(c).(armed := false, recovery := INITIAL.recovery, loc := s.loc)
  {
    hide Reach, Then, ReadyRun, Starts, StartsOnArm;
    var es := RearmEvents(c);
    assert es[..1] == [LocalizationMessage(NaN)] && es[..3] == [LocalizationMessage(NaN), Poor(c), SetArm(false)];
    ReadyReach(c);
    OneStep(c, ReadyRun(c), START, es[0]);
    ThreeSteps(c, ReadyRun(c), START, es[0], es[1], es[2]);
    FixLost(c, Underway(c));
    PoorSampleStarts(c, Step(c, Underway(c), START, es[0]));
  }

  lemma {:induction false} RearmSecondHalf(c: Config, s: State)
    requires c.Accepted() && Serviceable(c) && c.degradedEnabled
    requires s.loc.time == Some(0.0) && s == Underway(c).(armed := false, recovery := INITIAL.recovery, loc := s.loc)
    ensures OnTheBrink(c, Step(c, Step(c, Step(c, s, START, LocalizationMessage(Finite(0.0))), START, SetArm(true)),
                               START, LocalizationMessage(NaN)))
  {
    hide Fitness.Updated, Starts, Step;
    var good := s.(loc := Localization(Some(0.0), Finite(0.0),
                                       Fitness.Updated(s.loc.hysteresis, Finite(0.0), 0.0, c.normal)));
    assert Step(c, s, START, LocalizationMessage(Finite(0.0))) == good by { GoodWhileDisarmed(c, s); }
    var armed := ResetSpin(good.(armed := true));
    assert Step(c, good, START, SetArm(true)) == armed by { ArmsAgain(c, good); }
    FixLost(c, armed);
  }

  lemma {:induction false} GoodWhileDisarmed(c: Config, s: State)
    requires !s.armed && !s.recovery.mode && s.goal.remaining == PosInf
    ensures Step(c, s, START, LocalizationMessage(Finite(0.0))) ==
            s.(loc := Localization(Some(0.0), Finite(0.0), Fitness.Updated(s.loc.hysteresis, Finite(0.0), 0.0, c.normal)))
  {
    hide Fitness.Updated;
  }

  lemma {:induction false} ArmsAgain(c: Config, s: State)
    requires c.Accepted() && Serviceable(c) && c.degradedEnabled
    requires s.loc.time == Some(0.0) && s.loc.fitness == Finite(0.0)
    requires s == Underway(c).(armed := false, recovery := INITIAL.recovery, loc := s.loc)
    ensures Step(c, s, START, SetArm(true)) == ResetSpin(s.(armed := true))
  {
  }

  // The gate is on the brink before the second and before the last event.
  lemma {:induction false} RearmBrinks(c: Config)
    requires c.Accepted() && Serviceable(c) && c.degradedEnabled
    ensures OnTheBrink(c, Reach(c, Then(ReadyRun(c), START, RearmEvents(c)[..1])))
    ensures OnTheBrink(c, Reach(c, Then(ReadyRun(c), START, RearmEvents(c)[..6])))
  {
    hide Reach, Then, ReadyRun, Step, OnTheBrink;
    var es := RearmEvents(c);
    var half := Then(ReadyRun(c), START, es[..3]);
    RearmFirstHalf(c);
    assert es[..6] == es[..3] + [es[3], es[4], es[5]];
    ThenTwice(ReadyRun(c), START, es[..3], [es[3], es[4], es[5]]);
    ThreeSteps(c, half, START, es[3], es[4], es[5]);
    RearmSecondHalf(c, Reach(c, half));
  }

  lemma {:induction false} RearmKeepsLease(c: Config)
    ensures |RearmEvents(c)| == 7 && forall e :: e in RearmEvents(c) ==> e != GoalLease(false)
  {
  }

  // Where the events of the run stand, and what stands before them.
  lemma {:induction false} RearmShape(c: Config)
    requires c.Accepted()
    ensures var (tr, m, es) := (RearmRun(c), |ReadyRun(c)|, RearmEvents(c));
      && |tr| == m + 7 && tr[..m] == ReadyRun(c)
      && (forall i :: m <= i < m + 7 ==> tr[i] == Timed(START, es[i - m]) && es[i - m] != GoalLease(false))
      && tr[..m + 1] == Then(ReadyRun(c), START, es[..1]) && tr[..m + 6] == Then(ReadyRun(c), START, es[..6])
  {
    hide Then, ReadyRun, RearmEvents;
    var (tr, m, es) := (RearmRun(c), |ReadyRun(c)|, RearmEvents(c));
    RearmKeepsLease(c);
    ThenShape(ReadyRun(c), START, es);
    ThenPrefix(ReadyRun(c), START, es, 1);
    ThenPrefix(ReadyRun(c), START, es, 6);
    forall i | m <= i < m + 7 ensures tr[i] == Timed(START, es[i - m]) && es[i - m] != GoalLease(false) {
      assert es[i - m] in es;
    }
  }

  /** One goal, two recoveries, and the second not started by an arm call: a disarm in between gives the
      attempt back. */
  lemma {:induction false} SecondRecoveryHappens(c: Config)
    requires c.Accepted() && Serviceable(c) && c.degradedEnabled
    ensures var (tr, m) := (RearmRun(c), |ReadyRun(c)|);
      && |tr| == m + 7 && KeepsGoal(c, tr, m - 1, m + 6)
      && StartsAt(c, tr, m + 1) && StartsAt(c, tr, m + 6)
      && !StartsOnArm(c, Reach(c, tr[..m + 6]), tr[m + 6].clk, tr[m + 6].e)
  {
    hide Reach, Then, ReadyRun, RearmRun, Starts, StartsOnArm, Step, EdgeAt, OnTheBrink;
    var (tr, m, es) := (RearmRun(c), |ReadyRun(c)|, RearmEvents(c));
    RearmShape(c);
    RearmBrinks(c);
    assert tr[m + 1] == Timed(START, Poor(c)) && tr[m + 6] == Timed(START, Poor(c));
    PoorSampleStarts(c, Reach(c, tr[..m + 1]));
    PoorSampleStarts(c, Reach(c, tr[..m + 6]));
    GoalEdgeOfReady(c);
    assert tr[..m - 1] == ReadyRun(c)[..m - 1] && tr[m - 1] == ReadyRun(c)[m - 1];
    SameEdge(c, ReadyRun(c), tr, m - 1);
  }

  lemma {:induction false} SameEdge(c: Config, a: Trace, b: Trace, i: int)
    requires 0 <= i < |a| && i < |b| && a[..i] == b[..i] && a[i] == b[i]
    ensures EdgeAt(c, a, i) == EdgeAt(c, b, i)
  {
  }

  // The last event of the healthy start is the rising edge of the goal.
  lemma {:induction false} GoalEdgeOfReady(c: Config)
    requires c.Accepted()
    ensures |ReadyRun(c)| > 0 && EdgeAt(c, ReadyRun(c), |ReadyRun(c)| - 1)
  {
    hide Reach, LinksRun;
    var n := c.normal.clearSamples;
    var before := Then(LinksRun(c), START, Repeat(n, LocalizationMessage(Finite(0.0))));
    var es := [SetArm(true), GoalLease(true)];
    LinksReach(c);
    ReachThen(c, LinksRun(c), START, Repeat(n, LocalizationMessage(Finite(0.0))));
    PerfectSamples(c, n);
    ThenShape(before, START, es);
    ThenPrefix(before, START, es, 1);
    assert es[..1] == [SetArm(true)];
    OneStep(c, before, START, SetArm(true));
    WritesMission(c, Reach(c, before), START, SetArm(true));
    assert ReadyRun(c)[..|before| + 1] == Then(before, START, [SetArm(true)]);
    assert ReadyRun(c)[|before| + 1] == Timed(START, GoalLease(true));
  }

  // ----- Turning on the spot with the budget used up -----

  // A turn that every angular limit lets through.
  predicate UsableTurn(c: Config, turn: real) {
    0.001 < turn <= c.maxAngular && turn <= c.maxSpinAngular
  }

  function Facing(c: Config, k: nat): Pose { Pose(ORIGIN, if k % 2 == 0 then 0.0 else c.maths.pi / 2.0) }

  function Swings(c: Config, n: nat): seq<Event> { seq(n, i requires 0 <= i < n => OdomMessage(Facing(c, i + 1))) }

  // Quarter turns back and forth that add up to the budget.
  function EnoughSwings(c: Config): (n: nat)
    requires c.maths.pi > 0.0
    ensures n as real * (c.maths.pi / 2.0) >= c.maxSpin
  {
    var quarter := c.maths.pi / 2.0;
    var n := MaxInt(0, Ceil(c.maxSpin / quarter));
    assert c.maxSpin / quarter * quarter == c.maxSpin;
    CeilBounds(c.maxSpin / quarter);
    ProductOrder(c.maxSpin / quarter, n as real, quarter);
    n
  }

  /** A healthy start, a turn on the spot that opens the budget, and odometry that swings on the spot until
      the budget is used up. */
  function SpinRun(c: Config, turn: real): Trace
    requires c.normal.clearSamples >= 0 && c.maths.pi > 0.0
  {
    Then(Then(ReadyRun(c), START, [OnCommand(Command(0.0, 0.0, turn)), Tick]), START, Swings(c, EnoughSwings(c)))
  }

  function Swung(c: Config, turn: real, k: nat): State {
    var spun := k as real * (c.maths.pi / 2.0);
    Underway(c).(
      commands := Commands(Some(Command(0.0, 0.0, turn)), Some(0.0), None, None),
      odom := Odometry(Some(0.0), Some(Facing(c, k))),
      spin := Spin(true, Some(Facing(c, k).yaw), Some(ORIGIN), spun, spun >= c.maxSpin))
  }

  lemma {:induction false} QuarterTurn(m: Maths, d: real)
    requires m.Valid() && (d == m.pi / 2.0 || d == -(m.pi / 2.0))
    ensures Abs(m.wrap(d)) == m.pi / 2.0
  {
    var p := m.pi;
    assert (p - p / 2.0) / (2.0 * p) == 0.25 && (p + p / 2.0) / (2.0 * p) == 0.75;
  }

  lemma {:induction false} NoDistance(m: Maths)
    requires m.Valid()
    ensures m.Distance(ORIGIN, ORIGIN) == 0.0
  {
    HypotIs(m, 0.0, 0.0, 0.0);
  }

  lemma {:induction false} SwingYaw(c: Config, k: nat)
    requires c.maths.Valid()
    ensures YawStep(c, Some(Facing(c, k).yaw), Facing(c, k + 1).yaw) == c.maths.pi / 2.0
  {
    hide Maths.Valid;
    QuarterTurn(c.maths, Facing(c, k + 1).yaw - Facing(c, k).yaw);
  }

  lemma {:induction false} OneMore(k: nat, quarter: real)
    ensures k as real * quarter + quarter == (k + 1) as real * quarter
  {
  }

  lemma {:induction false} FacingAtOrigin(c: Config, k: nat)
    ensures Facing(c, k).at == ORIGIN
  {
  }

  lemma {:induction false} QuarterPositive(c: Config, k: nat)
    requires c.Accepted() && k as real * (c.maths.pi / 2.0) >= c.maxSpin
    ensures (k + 1) as real * (c.maths.pi / 2.0) >= c.maxSpin
  {
    OneMore(k, c.maths.pi / 2.0);
  }

  lemma {:induction false} SwingOn(c: Config, turn: real, k: nat)
    requires c.Accepted() && c.spinResetDistance > 0.0 && c.minLinearForTurn > 0.0 && turn > 0.001
    ensures Step(c, Swung(c, turn, k), START, OdomMessage(Facing(c, k + 1))) == Swung(c, turn, k + 1)
  {
    hide Maths.Valid, YawStep, Facing;
    PiPositive(c);
    NoDistance(c.maths);
    SwingYaw(c, k);
    FacingAtOrigin(c, k);
    FacingAtOrigin(c, k + 1);
    var quarter := c.maths.pi / 2.0;
    OneMore(k, quarter);
    if k as real * quarter >= c.maxSpin { QuarterPositive(c, k); }
  }

  lemma {:induction false} PiPositive(c: Config)
    requires c.Accepted()
    ensures c.maths.Valid() && c.maths.pi > 0.0
  {
  }

  lemma {:induction false} SwingSteps(c: Config, turn: real, n: nat)
    requires c.Accepted() && c.spinResetDistance > 0.0 && c.minLinearForTurn > 0.0 && turn > 0.001
    ensures Steps(c, Swung(c, turn, 0), START, Swings(c, n)) == Swung(c, turn, n)
  {
    hide Step, Swung, Facing;
    if n > 0 {
      SwingSteps(c, turn, n - 1);
      assert Init(Swings(c, n)) == Swings(c, n - 1);
      SwingOn(c, turn, n - 1);
    }
  }

  // A bare turn on the output opens the budget.
  lemma {:induction false} BareTurnOpens(c: Config, s: State, clk: Clock)
    requires c.Accepted() && c.minLinearForTurn > 0.0 && Moving(c, s, clk) && !s.spin.active
    requires BareTurn(Output(c, s, clk))
    ensures OpensSpin(c, s, clk)
  {
    hide ReasonFor, Shaped, LimitedLinear, LimitedAngular, ReverseScale, CurrentCap;
    OutputWhenMoving(c, s, clk);
    var t := Intended(c, s, clk.ros);
    ShapedBareTurn(c, t.linear, t.angular);
  }

  lemma {:induction false} SpinOpens(c: Config, turn: real)
    requires c.Accepted() && Serviceable(c) && c.allowSpin && c.minLinearForTurn > 0.0 && UsableTurn(c, turn)
    ensures var s := Underway(c).(commands := Commands(Some(Command(0.0, 0.0, turn)), Some(0.0), None, None));
            AfterTick(c, s, START) == Swung(c, turn, 0)
  {
    hide ReasonFor, Output, OpensSpin;
    var k := Command(0.0, 0.0, turn);
    var s := Underway(c).(commands := Commands(Some(k), Some(0.0), None, None));
    assert InService(c, s, START);
    assert RearPermitted(c, s.commands, s.rear, 0.0) by { assert RearClear(c, s.rear, 0.0); }
    ServiceMoves(c, s, START, k);
    PermittedTurnPasses(c, s, START);
    BareTurnOpens(c, s, START);
    assert 0 as real * (c.maths.pi / 2.0) == 0.0;
  }

  /** The parameters let the run use the budget up. */
  predicate CanSpin(c: Config, turn: real) {
    c.allowSpin && c.spinResetDistance > 0.0 && c.minLinearForTurn > 0.0 && UsableTurn(c, turn)
  }

  lemma {:induction false} SpinReach(c: Config, turn: real)
    requires c.Accepted() && Serviceable(c) && CanSpin(c, turn)
    ensures Reach(c, SpinRun(c, turn)) == Swung(c, turn, EnoughSwings(c))
    ensures Reach(c, SpinRun(c, turn)).spin.limitReached
  {
    hide Reach, Then, ReadyRun, Swings, Steps, AfterTick;
    var k := OnCommand(Command(0.0, 0.0, turn));
    var turning := Then(ReadyRun(c), START, [k, Tick]);
    ReadyReach(c);
    TwoSteps(c, ReadyRun(c), START, k, Tick);
    SpinOpens(c, turn);
    ReachThen(c, turning, START, Swings(c, EnoughSwings(c)));
    SwingSteps(c, turn, EnoughSwings(c));
  }

  // What a ready gate publishes for a usable turn whose translation is lost.
  lemma {:induction false} LostTranslation(c: Config, s: State, clk: Clock)
    requires c.Accepted() && c.minLinearForTurn > 0.0 && Moving(c, s, clk)
    requires var k, cap := s.commands.last.value, CurrentCap(c, s.goal, s.recovery.mode);
             && UsableTurn(c, k.turn) && (s.recovery.mode ==> k.turn <= c.degradedMaxAngular)
             && (TaperedAway(c, k.x, ReverseScale(c, s.rear, clk.ros)) || CappedAway(c, cap))
    ensures Output(c, s, clk) == Twist(0.0, s.commands.last.value.turn)
  {
    hide ReasonFor, Output, LimitedLinear, ReverseScale, CurrentCap, TaperedAway, CappedAway;
    var (k, mode) := (s.commands.last.value, s.recovery.mode);
    ScaleInUnit(c, s.rear, clk.ros);
    CapPositive(c, s.goal, mode);
    SlowExactly(c, k.x, ReverseScale(c, s.rear, clk.ros), CurrentCap(c, s.goal, mode));
    OutputWhenMoving(c, s, clk);
  }

  // ----- ... lost to the speed profile -----

  /** With the budget used up, a plan that ends where the chassis stands, and a forward command. */
  function CappedRun(c: Config, turn: real): Trace
    requires c.normal.clearSamples >= 0 && c.maths.pi > 0.0
  {
    Then(SpinRun(c, turn), START, [SpeedPlanMessage([ORIGIN, ORIGIN]), OnCommand(Command(c.minLinearForTurn, 0.0, turn))])
  }

  lemma {:induction false} NoPath(m: Maths)
    requires m.Valid()
    ensures PathLength(m, [ORIGIN, ORIGIN]) == 0.0
  {
    NoDistance(m);
    assert [ORIGIN, ORIGIN][..1] == [ORIGIN];
  }

  lemma {:induction false} ArrivalCap(c: Config, g: Goal)
    requires c.Accepted() && c.profileEnabled && g.active && g.traveled < c.startDistance && g.remaining == Finite(0.0)
    ensures CurrentCap(c, g, false) == c.approachLinear
  {
    ProfileIsMinimum(c, g.traveled, g.remaining);
  }

  /** A forward command with a turn comes out as that turn on the spot although the budget is used up, when
      the approach speed is below the smallest translation. */
  lemma {:induction false} CappedTurnHappens(c: Config, turn: real)
    requires c.Accepted() && Serviceable(c) && CanSpin(c, turn)
    requires c.profileEnabled && c.approachLinear < c.minLinearForTurn
    ensures var s := Reach(c, CappedRun(c, turn));
            && s.spin.limitReached && s.commands.last == Some(Command(c.minLinearForTurn, 0.0, turn))
            && Output(c, s, START) == Twist(0.0, turn)
  {
    hide Reach, Then, SpinRun, ReasonFor, Output, CurrentCap, PathLength, EnoughSwings;
    var k := Command(c.minLinearForTurn, 0.0, turn);
    SpinReach(c, turn);
    TwoSteps(c, SpinRun(c, turn), START, SpeedPlanMessage([ORIGIN, ORIGIN]), OnCommand(k));
    NoPath(c.maths);
    var s := Reach(c, CappedRun(c, turn));
    assert InService(c, s, START);
    assert RearPermitted(c, s.commands, s.rear, 0.0) by { assert RearClear(c, s.rear, 0.0); }
    ServiceMoves(c, s, START, k);
    ArrivalCap(c, s.goal);
    LostTranslation(c, s, START);
  }

  // ----- ... lost to the recovery speed -----

  /** With the budget used up, a lost localization, poor samples that recover it, and a forward command. */
  function RecoveringRun(c: Config, turn: real): Trace
    requires c.normal.clearSamples >= 0 && c.degradedClearSamples >= 0 && c.maths.pi > 0.0
  {
    Then(Then(Then(SpinRun(c, turn), START, [LocalizationMessage(NaN)]), START, Repeat(c.degradedClearSamples, Poor(c))),
         START, [OnCommand(Command(c.minLinearForTurn, 0.0, turn))])
  }

  // k poor samples after the localization was lost in state s.
  function Recovering(c: Config, s: State, k: nat): State {
    if k == 0 then s.(loc := Localization(Some(0.0), NaN, Fitness.Hysteresis(true, Some(0.0), 0)))
    else s.(recovery := Recovery(true, true, 0.0, 0.0, Yaw(s.odom.pose), 0),
            loc := Localization(Some(0.0), Finite(c.terminal.clear),
                                if k >= c.degradedClearSamples then Fitness.Hysteresis(false, None, 0)
                                else Fitness.Hysteresis(true, None, k)))
  }

  lemma {:induction false} PoorSample(c: Config, s: State, k: nat)
    requires c.Accepted() && Serviceable(c) && c.degradedEnabled && k < c.degradedClearSamples
    requires OnTheBrink(c, Recovering(c, s, 0))
    ensures Step(c, Recovering(c, s, k), START, Poor(c)) == Recovering(c, s, k + 1)
  {
    hide Stale, Starts, StartsOnArm;
    if k == 0 { PoorSampleStarts(c, Recovering(c, s, 0)); }
  }

  lemma {:induction false} PoorSamples(c: Config, s: State, k: nat)
    requires c.Accepted() && Serviceable(c) && c.degradedEnabled && k <= c.degradedClearSamples
    requires OnTheBrink(c, Recovering(c, s, 0))
    ensures Steps(c, Recovering(c, s, 0), START, Repeat(k, Poor(c))) == Recovering(c, s, k)
  {
    hide Step, Recovering, OnTheBrink;
    if k > 0 {
      PoorSamples(c, s, k - 1);
      RepeatInit(k, Poor(c));
      PoorSample(c, s, k - 1);
    }
  }

  lemma {:induction false} RecoveringReach(c: Config, turn: real)
    requires c.Accepted() && Serviceable(c) && CanSpin(c, turn) && c.degradedEnabled
    ensures Reach(c, RecoveringRun(c, turn)) ==
            Recovering(c, Swung(c, turn, EnoughSwings(c)), c.degradedClearSamples).(
              commands := Commands(Some(Command(c.minLinearForTurn, 0.0, turn)), Some(0.0), None, None))
  {
    hide Reach, Then, SpinRun, Steps, EnoughSwings, Facing;
    var (s, n) := (Swung(c, turn, EnoughSwings(c)), c.degradedClearSamples);
    var lost := Then(SpinRun(c, turn), START, [LocalizationMessage(NaN)]);
    var found := Then(lost, START, Repeat(n, Poor(c)));
    SpinReach(c, turn);
    OneStep(c, SpinRun(c, turn), START, LocalizationMessage(NaN));
    FixLost(c, s);
    ReachThen(c, lost, START, Repeat(n, Poor(c)));
    PoorSamples(c, s, n);
    OneStep(c, found, START, OnCommand(Command(c.minLinearForTurn, 0.0, turn)));
  }

  lemma {:induction false} RecoveryCap(c: Config, g: Goal)
    requires c.Accepted() && c.profileEnabled && g.active && g.traveled < c.startDistance && g.remaining == PosInf
    ensures CurrentCap(c, g, true) == c.degradedMaxLinear
  {
  }

  /** The same during a degraded recovery, when the recovery speed is below the smallest translation. */
  lemma {:induction false} RecoveringTurnHappens(c: Config, turn: real)
    requires c.Accepted() && Serviceable(c) && CanSpin(c, turn)
    requires c.degradedEnabled && c.profileEnabled
    requires c.degradedMaxLinear < c.minLinearForTurn && turn <= c.degradedMaxAngular
    ensures var s := Reach(c, RecoveringRun(c, turn));
            && s.spin.limitReached && s.commands.last == Some(Command(c.minLinearForTurn, 0.0, turn))
            && Output(c, s, START) == Twist(0.0, turn)
  {
    hide Reach, RecoveringRun, ReasonFor, Output, CurrentCap, EnoughSwings, Facing;
    var k := Command(c.minLinearForTurn, 0.0, turn);
    RecoveringReach(c, turn);
    var s := Reach(c, RecoveringRun(c, turn));
    assert InService(c, s, START);
    assert RearPermitted(c, s.commands, s.rear, 0.0) by { assert RearClear(c, s.rear, 0.0); }
    ServiceMoves(c, s, START, k);
    RecoveryCap(c, s.goal);
    LostTranslation(c, s, START);
  }

  // ----- ... lost to the rear taper -----

  // Beyond the turn stop, within the taper.
  function NearRange(c: Config): Reading { Finite((c.turnLimits.stop + c.reverseLimits.clear) / 2.0) }

  /** With the budget used up, as many straight plans as a reverse needs, an obstacle behind that leaves
      room to turn, and a slow reverse command. */
  function TaperedRun(c: Config, turn: real): Trace
    requires c.normal.clearSamples >= 0 && c.confirmations >= 0 && c.maths.pi > 0.0
  {
    Then(Then(SpinRun(c, turn), START, Repeat(c.confirmations, PlanMessage(Segment(c)))),
         START, [RangeMessage(true, NearRange(c)), RangeMessage(false, NearRange(c)),
                 OnCommand(Command(-c.minLinearForTurn, 0.0, turn))])
  }

  lemma {:induction false} NearRangeHarmless(c: Config)
    requires c.Accepted() && c.turnLimits.stop < c.reverseLimits.clear
    ensures Sensed(c, CLEAR, 0.0, NearRange(c)) == CLEAR.(range := NearRange(c)) && !IsSelfEcho(c, NearRange(c))
  {
  }

  lemma {:induction false} NearRangeTapers(c: Config, r: Rear, now: real)
    requires c.Accepted() && c.turnLimits.stop < c.reverseLimits.clear && c.taperEnabled
    requires r.left.range == NearRange(c) && r.right.range == NearRange(c)
    ensures ReverseScale(c, r, now) < 1.0
  {
    hide RearReverseAllowed, TaperRatio;
    var (stop, clear, v) := (c.reverseLimits.stop, c.reverseLimits.clear, NearRange(c).v);
    NearRangeHarmless(c);
    BelowOne(v - stop, clear - stop);
    assert TaperRatio(c, v) < 1.0 by { TaperRatioIs(c, v); }
  }

  lemma {:induction false} TaperRatioIs(c: Config, v: real)
    requires c.reverseLimits.clear != c.reverseLimits.stop
    ensures TaperRatio(c, v) == (v - c.reverseLimits.stop) / (c.reverseLimits.clear - c.reverseLimits.stop)
  {
  }

  lemma {:induction false} BelowOne(x: real, d: real)
    requires x < d && d > 0.0
    ensures x / d < 1.0
  {
    var q := x / d;
    assert q * d == x;
    if q >= 1.0 { ProductOrder(1.0, q, d); }
  }

  function Hemmed(c: Config, turn: real): State
    requires c.maths.pi > 0.0
  {
    var sensor := CLEAR.(range := NearRange(c));
    Swung(c, turn, EnoughSwings(c)).(
      plans := Plans(Some(0.0), true, c.confirmations),
      rear := Rear(Some(0.0), true, sensor, sensor),
      commands := Commands(Some(Command(-c.minLinearForTurn, 0.0, turn)), Some(0.0), None, None))
  }

  lemma {:induction false} TaperedReach(c: Config, turn: real)
    requires c.Accepted() && Serviceable(c) && CanSpin(c, turn)
    requires c.turnLimits.stop < c.reverseLimits.clear && Tolerant(c.straight)
    ensures Reach(c, TaperedRun(c, turn)) == Hemmed(c, turn)
  {
    hide Reach, Then, SpinRun, Steps, Sensed, Segment, EnoughSwings, NearRange, Classified, Facing;
    var (k, near) := (Command(-c.minLinearForTurn, 0.0, turn), NearRange(c));
    var planned := Then(SpinRun(c, turn), START, Repeat(c.confirmations, PlanMessage(Segment(c))));
    SpinReach(c, turn);
    ReachThen(c, SpinRun(c, turn), START, Repeat(c.confirmations, PlanMessage(Segment(c))));
    PlansConfirm(c, Swung(c, turn, EnoughSwings(c)), c.confirmations);
    ThreeSteps(c, planned, START, RangeMessage(true, near), RangeMessage(false, near), OnCommand(k));
    NearRangeHarmless(c);
  }

  lemma {:induction false} HemmedMoves(c: Config, turn: real)
    requires c.Accepted() && Serviceable(c) && CanSpin(c, turn) && c.planTimeout >= 0.0
    requires turn <= c.maxReverseAngular
    ensures Moving(c, Hemmed(c, turn), START)
  {
    hide ReasonFor, EnoughSwings, NearRange, Facing;
    var s := Hemmed(c, turn);
    assert InService(c, s, START);
    assert RearPermitted(c, s.commands, s.rear, 0.0) by { assert RearClear(c, s.rear, 0.0); }
    ServiceMoves(c, s, START, Command(-c.minLinearForTurn, 0.0, turn));
  }

  /** A reverse command with a turn comes out as that turn on the spot although the budget is used up, when
      the taper slows it at all. */
  lemma {:induction false} TaperedTurnHappens(c: Config, turn: real)
    requires c.Accepted() && Serviceable(c) && CanSpin(c, turn) && 0.001 < c.minLinearForTurn <= c.maxLinear
    requires c.taperEnabled && c.turnLimits.stop < c.reverseLimits.clear
    requires Tolerant(c.straight) && turn <= c.maxReverseAngular && c.planTimeout >= 0.0
    ensures var s := Reach(c, TaperedRun(c, turn));
            && s.spin.limitReached && s.commands.last == Some(Command(-c.minLinearForTurn, 0.0, turn))
            && Output(c, s, START) == Twist(0.0, turn)
  {
    hide Reach, TaperedRun, ReasonFor, Moving, Output, CurrentCap, EnoughSwings, NearRange, ReverseScale, CappedAway,
         TaperedAway, Facing;
    var s := Hemmed(c, turn);
    TaperedReach(c, turn);
    HemmedMoves(c, turn);
    NearRangeTapers(c, s.rear, 0.0);
    SlowedAway(c, ReverseScale(c, s.rear, 0.0));
    LostTranslation(c, s, START);
  }

  lemma {:induction false} SlowedAway(c: Config, scale: real)
    requires 0.001 < c.minLinearForTurn <= c.maxLinear && scale < 1.0
    ensures TaperedAway(c, -c.minLinearForTurn, scale)
  {
    var v := c.minLinearForTurn;
    ProductSign(1.0 - scale, v);
    assert (1.0 - scale) * v == v - v * scale;
  }
}
