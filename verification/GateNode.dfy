/** The motion safety gate as the object it is: attributes updated in place by callbacks, each
    method proved against its function in GateModel. The attributes of one concern (the spin
    budget, the recovery, the goal lease, ...) are kept together in one record-valued field. */
module GateNode {
  import opened Numbers
  import opened Ultrasonic
  import opened ReversePlan
  import opened GateModel
  import opened GateTraces
  import opened GateSafety

  class NavMotionSafetyGate {
    const c: Config
    const fitnessHysteresis: Fitness.FitnessHysteresis
    const leftLatch: UltrasonicLatch
    const rightLatch: UltrasonicLatch
    const leftTurnLatch: UltrasonicLatch
    const rightTurnLatch: UltrasonicLatch

    var armed: bool
    var commands: Commands
    var plans: Plans
    var lastLocalizationTime: Option<real>
    var lastFitness: Reading
    var recovery: Recovery
    var odom: Odometry
    var spin: Spin
    var chassis: Chassis
    var obstacles: Obstacles
    var sonarHealthTime: Option<real>
    var sonarHealthy: bool
    var leftTime: Option<real>
    var leftRange: Reading
    var rightTime: Option<real>
    var rightRange: Reading
    var operator: Operator
    var goal: Goal

    /** The run so far: every event that was handled, with its receive times. */
    ghost var history: Trace

    // No two sensors share a latch.
    ghost predicate Wired() {
      && leftLatch != rightLatch && leftLatch != leftTurnLatch && leftLatch != rightTurnLatch
      && rightLatch != leftTurnLatch && rightLatch != rightTurnLatch && leftTurnLatch != rightTurnLatch
    }

    ghost function Value(): State
      reads this, fitnessHysteresis, leftLatch, rightLatch, leftTurnLatch, rightTurnLatch
    {
      State(
        armed, commands, plans,
        Localization(lastLocalizationTime, lastFitness, fitnessHysteresis.Value()),
        recovery, odom, spin, chassis, obstacles,
        Rear(sonarHealthTime, sonarHealthy,
             Sensor(leftTime, leftRange, leftLatch.Value(), leftTurnLatch.Value()),
             Sensor(rightTime, rightRange, rightLatch.Value(), rightTurnLatch.Value())),
        operator, goal)
    }

    /** The attributes are those of the state that the run so far leads to. */
    ghost predicate Valid()
      reads this, fitnessHysteresis, leftLatch, rightLatch, leftTurnLatch, rightTurnLatch
    {
      c.Accepted() && Wired() && Value() == Reach(c, history)
    }

    constructor (config: Config)
      requires config.Accepted()
      ensures Valid() && c == config && history == [] && Value() == INITIAL
      ensures fresh(fitnessHysteresis) && fresh(leftLatch) && fresh(rightLatch)
      ensures fresh(leftTurnLatch) && fresh(rightTurnLatch)
    {
      c := config;
      fitnessHysteresis := new Fitness.FitnessHysteresis();
      leftLatch := new UltrasonicLatch();
      rightLatch := new UltrasonicLatch();
      leftTurnLatch := new UltrasonicLatch();
      rightTurnLatch := new UltrasonicLatch();
      armed := false;
      commands := Commands(None, None, None, None);
      plans := Plans(None, false, 0);
      lastLocalizationTime, lastFitness := None, PosInf;
      recovery := Recovery(false, false, 0.0, 0.0, None, 0);
      odom := Odometry(None, None);
      spin := Spin(false, None, None, 0.0, false);
      chassis := Chassis(None, 0, None, None, None);
      obstacles := Obstacles(None, PosInf);
      sonarHealthTime, sonarHealthy := None, false;
      leftTime, leftRange, rightTime, rightRange := None, NaN, None, NaN;
      operator := Operator(None, false);
      goal := Goal(None, false, 0.0, None, PosInf);
      history := [];
    }

    method OnPlan(now: real, poses: seq<Point>)
      requires Wired()
      modifies this`plans
      ensures Value() == GateModel.OnPlan(c, old(Value()), now, poses)
    {
      var straight := ClassifyPlan(c.maths, c.straight, poses);
      plans := plans.(time := Some(now), straight := straight);
      if straight {
        plans := plans.(confirmations := MinInt(plans.confirmations + 1, c.confirmations));
      } else {
        plans := plans.(confirmations := 0);
      }
    }

    method OnSpeedProfilePlan(poses: seq<Point>)
      requires Wired()
      modifies this`goal
      ensures Value() == OnSpeedPlan(c, old(Value()), poses)
    {
      if |poses| < 2 {
        return;
      }
      var length := 0.0;
      for i := 1 to |poses|
        invariant length == PathLength(c.maths, poses[..i])
      {
        assert poses[..i + 1][..i] == poses[..i];
        length := length + c.maths.Distance(poses[i - 1], poses[i]);
      }
      assert poses[..|poses|] == poses;
      goal := goal.(remaining := Finite(length));
    }

    method StartDegradedRecovery()
      requires Wired()
      modifies this`recovery, fitnessHysteresis
      ensures Value() == StartRecovery(old(Value()))
    {
      recovery := Recovery(true, true, 0.0, 0.0, Yaw(odom.pose), 0);
      fitnessHysteresis.ResetClearCount();
    }

    method StartRecoveryIfEligible(now: real)
      requires Wired()
      modifies this`recovery, fitnessHysteresis
      ensures Value() == if Eligible(c, old(Value()), now) then StartRecovery(old(Value())) else old(Value())
    {
      if c.degradedEnabled && armed && goal.active && !recovery.mode && !recovery.attempted
         && fitnessHysteresis.blocked && lastFitness.Finite? && lastFitness.v <= c.terminal.clear
         && !Stale(lastLocalizationTime, now, c.localizationTimeout) {
        StartDegradedRecovery();
      }
    }

    method OnLocalization(clk: Clock, fitness: Reading)
      requires Wired()
      modifies this`lastLocalizationTime, this`lastFitness, this`recovery, fitnessHysteresis
      ensures var next := GateModel.OnLocalization(c, old(Value()), clk, fitness);
              && lastLocalizationTime == next.loc.time && lastFitness == next.loc.fitness
              && fitnessHysteresis.Value() == next.loc.hysteresis && recovery == next.recovery
    {
      hide Fitness.Updated, Recoverable, RecoveryProgress, ModeThresholds;
      lastLocalizationTime := Some(clk.ros);
      lastFitness := fitness;
      StartRecoveryIfEligible(clk.ros);
      var mode :=
        if goal.active && goal.remaining.Finite? && 0.0 <= goal.remaining.v <= c.terminalDistance then Terminal
        else if recovery.mode && goal.active then DegradedRecovery
        else Normal;
      var limits := ModeThresholds(c, mode);
      fitnessHysteresis.Update(lastFitness, clk.mono, limits.block, limits.clear, limits.hold, limits.clearSamples);
      NoteHealthySample();
    }

    method NoteHealthySample()
      requires Wired()
      modifies this`recovery
      ensures recovery == RecoveryProgress(c, old(recovery), lastFitness)
    {
      if recovery.mode {
        if lastFitness.AtMost(c.normal.clear) {
          recovery := recovery.(healthy := recovery.healthy + 1);
          if recovery.healthy >= c.normal.clearSamples {
            recovery := recovery.(mode := false, traveled := 0.0, rotated := 0.0, lastYaw := None, healthy := 0);
          }
        } else {
          recovery := recovery.(healthy := 0);
        }
      }
    }

    method ResetSmallSpinBudget()
      requires Wired()
      modifies this`spin
      ensures Value() == ResetSpin(old(Value()))
    {
      spin := Spin(false, Yaw(odom.pose), At(odom.pose), 0.0, false);
    }

    method CountSmallSpin(pose: Pose)
      requires Wired() && odom.pose == Some(pose)
      modifies this`spin
      ensures spin == SpinAfterOdom(c, old(spin), SmallSpinRequested(c, commands), pose)
    {
      var requested := commands.last.Some? && Abs(commands.last.value.x) < c.minLinearForTurn
                       && Abs(commands.last.value.turn) > 0.001;
      if spin.active && spin.lastYaw.Some? && requested {
        var turned := Abs(c.maths.wrap(pose.yaw - spin.lastYaw.value));
        spin := spin.(accumulated := spin.accumulated + turned);
        if spin.accumulated >= c.maxSpin {
          spin := spin.(limitReached := true);
        }
      }
      spin := spin.(lastYaw := Some(pose.yaw));
      if spin.active && spin.origin.Some?
         && c.maths.Distance(spin.origin.value, pose.at) >= c.spinResetDistance {
        ResetSmallSpinBudget();
      }
    }

    method CountRecoveryTurn(pose: Pose)
      requires Wired()
      modifies this`recovery
      ensures recovery == RecoveryAfterOdom(c, old(recovery), 0.0, pose)
    {
      if recovery.mode {
        if recovery.lastYaw.Some? {
          var turned := Abs(c.maths.wrap(pose.yaw - recovery.lastYaw.value));
          recovery := recovery.(rotated := recovery.rotated + turned);
        }
        recovery := recovery.(lastYaw := Some(pose.yaw));
      }
    }

    method CountTravel(pose: Pose)
      requires Wired()
      modifies this`goal, this`recovery
      ensures var step := OdomStep(c, old(goal), pose);
              && goal == old(goal).(traveled := old(goal).traveled + step, lastOdom := Some(pose.at))
              && recovery == if old(recovery).mode
                             then old(recovery).(traveled := old(recovery).traveled + step) else old(recovery)
    {
      if goal.active && goal.lastOdom.Some? {
        var step := c.maths.Distance(goal.lastOdom.value, pose.at);
        if step <= 0.25 {
          goal := goal.(traveled := goal.traveled + step);
          if recovery.mode {
            recovery := recovery.(traveled := recovery.traveled + step);
          }
        }
      }
      goal := goal.(lastOdom := Some(pose.at));
    }

    method OnOdom(now: real, pose: Pose)
      requires Wired()
      modifies this`odom, this`recovery, this`goal, this`spin
      ensures var next := GateModel.OnOdom(c, old(Value()), now, pose);
              odom == next.odom && recovery == next.recovery && goal == next.goal && spin == next.spin
    {
      odom := Odometry(Some(now), Some(pose));
      CountRecoveryTurn(pose);
      CountTravel(pose);
      CountSmallSpin(pose);
    }

    method OnSystemState(mono: real, error: int, vehicle: int, control: int)
      requires Wired()
      modifies this`chassis
      ensures Value() == GateModel.OnSystemState(old(Value()), mono, error, vehicle, control)
    {
      chassis := Chassis(Some(mono), chassis.count + 1, Some(error), Some(vehicle), Some(control));
    }

    method OnGoalActive(now: real, active: bool)
      requires Wired()
      modifies this`goal, this`spin, this`recovery, fitnessHysteresis
      ensures var next := GateModel.OnGoalActive(c, old(Value()), now, active);
              && goal == next.goal && spin == next.spin && recovery == next.recovery
              && fitnessHysteresis.Value() == next.loc.hysteresis
    {
      hide Stale;
      goal := goal.(leaseTime := Some(now));
      if active && !goal.active {
        ResetSmallSpinBudget();
        goal := goal.(traveled := 0.0, lastOdom := At(odom.pose), remaining := PosInf);
        recovery := recovery.(attempted := recovery.mode, traveled := 0.0, rotated := 0.0, lastYaw := Yaw(odom.pose));
        if !recovery.mode && c.degradedEnabled && armed && fitnessHysteresis.blocked
           && lastFitness.Finite? && lastFitness.v <= c.terminal.clear
           && !Stale(lastLocalizationTime, now, c.localizationTimeout) {
          StartDegradedRecovery();
        }
      } else if !active {
        recovery := Recovery(false, false, 0.0, 0.0, None, 0);
      }
      goal := goal.(active := active);
    }

    method OnUltrasonicRange(now: real, left: bool, value: Reading)
      requires Wired()
      modifies this`leftTime, this`leftRange, this`rightTime, this`rightRange,
               leftLatch, rightLatch, leftTurnLatch, rightTurnLatch
      ensures Value() == OnRange(c, old(Value()), now, left, value)
    {
      hide Updated, IsSelfEcho;
      if left {
        leftTime, leftRange := Some(now), value;
      } else {
        rightTime, rightRange := Some(now), value;
      }
      if IsSelfEcho(c, value) {
        return;
      }
      var (r, t) := (c.reverseLimits, c.turnLimits);
      if left {
        leftLatch.Update(value, now, r.stop, r.clear, r.hold, r.finiteSamples, r.noEchoSamples);
        leftTurnLatch.Update(value, now, t.stop, t.clear, t.hold, t.finiteSamples, t.noEchoSamples);
      } else {
        rightLatch.Update(value, now, r.stop, r.clear, r.hold, r.finiteSamples, r.noEchoSamples);
        rightTurnLatch.Update(value, now, t.stop, t.clear, t.hold, t.finiteSamples, t.noEchoSamples);
      }
    }

    method ArmPrerequisitesHold(clk: Clock) returns (r: bool)
      requires Wired()
      ensures r == ArmPrerequisites(c, Value(), clk)
    {
      var now := clk.ros;
      r := (c.heartbeatRequired ==> !Stale(operator.time, now, c.heartbeatTimeout) && operator.present)
           && !Stale(chassis.time, clk.mono, c.chassisTimeout) && chassis.count >= 3
           && chassis.error == Some(0) && chassis.vehicle == Some(c.vehicleNormal)
           && chassis.control == Some(c.controlCan)
           && !Stale(lastLocalizationTime, now, c.localizationTimeout) && lastFitness.Finite?
           && (fitnessHysteresis.blocked ==> c.degradedEnabled && lastFitness.v <= c.terminal.clear)
           && !Stale(odom.time, now, c.odomTimeout)
           && !Stale(obstacles.time, now, c.obstacleTimeout) && !obstacles.age.Above(c.maxObstacleAge)
           && !Stale(sonarHealthTime, now, c.sonarTimeout) && sonarHealthy
           && !Stale(leftTime, now, c.sonarTimeout) && !Stale(rightTime, now, c.sonarTimeout);
    }

    method OnSetArm(clk: Clock, requested: bool) returns (success: bool)
      requires Wired()
      modifies this`armed, this`recovery, this`spin, fitnessHysteresis
      ensures Value() == GateModel.OnSetArm(c, old(Value()), clk, requested)
      ensures success == (requested ==> old(ArmPrerequisites(c, Value(), clk)))
    {
      if !requested {
        recovery := Recovery(false, false, 0.0, 0.0, None, 0);
      }
      if requested {
        var prerequisites := ArmPrerequisitesHold(clk);
        if !prerequisites {
          armed := false;
          ResetSmallSpinBudget();
          return false;
        }
        if fitnessHysteresis.blocked && lastFitness.Above(c.maxFitness) {
          StartDegradedRecovery();
        }
      }
      if requested != armed {
        armed := requested;
        ResetSmallSpinBudget();
      }
      return true;
    }

    // ----- The output loop -----

    method Reason(clk: Clock) returns (reason: GateModel.Reason)
      requires Wired()
      ensures reason == ReasonFor(c, Value(), clk)
    {
      hide Stale, ReversePathReason, CollisionMonitorBlocks, SmallSpinRequested;
      var now := clk.ros;
      if !armed { return Disarmed; }
      if c.heartbeatRequired {
        if Stale(operator.time, now, c.heartbeatTimeout) { return StaleHeartbeat; }
        if !operator.present { return OperatorAbsent; }
      }
      if c.leaseRequired {
        if Stale(goal.leaseTime, now, c.leaseTimeout) { return StaleLease; }
        if !goal.active { return NoGoal; }
      }
      if Stale(chassis.time, clk.mono, c.chassisTimeout) { return StaleChassis; }
      if chassis.count < 3 { return ChassisWarming; }
      if chassis.error != Some(0) { return ChassisError; }
      if chassis.vehicle != Some(c.vehicleNormal) { return ChassisNotNormal; }
      if chassis.control != Some(c.controlCan) { return ChassisNotCan; }
      if Stale(lastLocalizationTime, now, c.localizationTimeout) { return StaleLocalization; }
      if Stale(odom.time, now, c.odomTimeout) { return StaleOdometry; }
      if Stale(obstacles.time, now, c.obstacleTimeout) { return StaleObstacles; }
      if obstacles.age.Above(c.maxObstacleAge) { return ObstacleCloudOld; }
      if !lastFitness.Finite? { return InvalidFitness; }
      if fitnessHysteresis.blocked { return BadFitness; }
      if recovery.mode && recovery.traveled >= c.degradedMaxTravel { return RecoveryTravelExhausted; }
      if recovery.mode && recovery.rotated >= c.degradedMaxRotation { return RecoveryRotationExhausted; }
      if CollisionMonitorBlocks(c, commands, now) { return CollisionBlocked; }
      if Stale(commands.time, now, c.commandTimeout) { return StaleCommand; }
      if SmallSpinRequested(c, commands) {
        if !c.allowSpin { return SpinProhibited; }
        if spin.limitReached { return SpinLimit; }
      }
      var reverse := ReversePathReason(c, commands, plans, now);
      if reverse != Ready { return reverse; }
      if RearGuarded(c, commands) {
        var turning := Abs(commands.last.value.turn) > 0.001;
        if Stale(sonarHealthTime, now, c.sonarTimeout) { return StaleSonarHealth; }
        if !sonarHealthy { return SonarUnhealthy; }
        var left := if turning then leftTurnLatch else leftLatch;
        var right := if turning then rightTurnLatch else rightLatch;
        if Stale(leftTime, now, c.sonarTimeout) || left.blocked { return SonarBlocked; }
        if Stale(rightTime, now, c.sonarTimeout) || right.blocked { return SonarBlocked; }
      }
      return Ready;
    }

    method RearReverseSpeedScale(now: real) returns (scale: real)
      requires Wired()
      ensures scale == ReverseScale(c, Value().rear, now)
    {
      var allowed := c.sonarEnabled && sonarHealthy && !Stale(sonarHealthTime, now, c.sonarTimeout)
                     && !Stale(leftTime, now, c.sonarTimeout) && !leftLatch.blocked
                     && !Stale(rightTime, now, c.sonarTimeout) && !rightLatch.blocked;
      if !allowed { return 0.0; }
      if !c.taperEnabled { return 1.0; }
      var span := c.reverseLimits.clear - c.reverseLimits.stop;
      if span <= 0.000001 { return 0.0; }
      scale := 1.0;
      var ranges := [leftRange, rightRange];
      for i := 0 to 2
        invariant scale == if i == 0 then 1.0 else if i == 1 then SensorScale(c, leftRange)
                           else Min(SensorScale(c, leftRange), SensorScale(c, rightRange))
      {
        var value := ranges[i];
        if !IsSelfEcho(c, value) && value != PosInf {
          if !value.Finite? { return 0.0; }
          scale := Min(scale, Max(0.0, Min(1.0, (value.v - c.reverseLimits.stop) / span)));
        }
      }
    }

    method LimitCommand(now: real) returns (linear: real, angular: real)
      requires Wired() && commands.last.Some?
      ensures Twist(linear, angular) == Intended(c, Value(), now)
    {
      var cap := CurrentCap(c, goal, recovery.mode);
      linear := Saturate(commands.last.value.x, c.maxLinear);
      angular := Saturate(commands.last.value.turn, c.maxAngular);
      if recovery.mode {
        angular := Saturate(angular, c.degradedMaxAngular);
      }
      if linear < -0.001 {
        var scale := RearReverseSpeedScale(now);
        linear := linear * scale;
      }
      if c.profileEnabled {
        linear := CopySign(Min(Abs(linear), cap), linear);
      }
    }

    method ShapeCommand(linear: real, angular: real) returns (out: Twist)
      requires Wired()
      modifies this`spin
      ensures out == Shaped(c, linear, angular)
      ensures spin == if !old(spin).active && TurnsInPlace(c, linear, angular)
                      then OpenedSpin(odom.pose) else old(spin)
    {
      if Abs(linear) < c.minLinearForTurn {
        if Abs(angular) <= 0.001 {
          return STOP;
        }
        if !spin.active {
          spin := Spin(true, Yaw(odom.pose), At(odom.pose), 0.0, false);
        }
        return Twist(0.0, Saturate(angular, c.maxSpinAngular));
      }
      var limit := Min(c.maxAngular, Abs(linear) * c.maxCurvature + c.curvatureSlack);
      return Twist(linear, Saturate(angular, limit));
    }

    method Publish(clk: Clock) returns (out: Twist)
      requires Wired()
      modifies this`spin
      ensures out == Output(c, old(Value()), clk)
      ensures spin == AfterTick(c, old(Value()), clk).spin
    {
      var reason := Reason(clk);
      if reason != Ready || commands.last.None? {
        return STOP;
      }
      var linear, angular := LimitCommand(clk.ros);
      out := ShapeCommand(linear, angular);
    }

    // ----- Plain message receipts -----

    method OnCommand(now: real, msg: Command)
      requires Wired()
      modifies this`commands
      ensures commands == old(commands).(last := Some(msg), time := Some(now))
    {
      commands := commands.(last := Some(msg), time := Some(now));
    }

    method OnPreCollisionCommand(now: real, msg: Command)
      requires Wired()
      modifies this`commands
      ensures commands == old(commands).(pre := Some(msg), preTime := Some(now))
    {
      commands := commands.(pre := Some(msg), preTime := Some(now));
    }

    method OnOperatorHeartbeat(now: real, present: bool)
      requires Wired()
      modifies this`operator
      ensures operator == Operator(Some(now), present)
    {
      operator := Operator(Some(now), present);
    }

    method OnUltrasonicHealth(now: real, healthy: bool)
      requires Wired()
      modifies this`sonarHealthTime, this`sonarHealthy
      ensures sonarHealthTime == Some(now) && sonarHealthy == healthy
    {
      sonarHealthTime, sonarHealthy := Some(now), healthy;
    }

    method OnLocalizationPose(now: real)
      requires Wired()
      modifies this`lastLocalizationTime
      ensures lastLocalizationTime == Some(now)
    {
      lastLocalizationTime := Some(now);
    }

    method OnObstacleStatus(now: real, age: Reading)
      requires Wired()
      modifies this`obstacles
      ensures obstacles == Obstacles(Some(now), age)
    {
      obstacles := Obstacles(Some(now), age);
    }

    // Reports that only replace what was last heard.
    method HandleReport(clk: Clock, e: Event)
      requires Wired() && (e.OnCommand? || e.OnPreCollision? || e.LocalizationPose? || e.SystemMessage?
                           || e.ObstacleMessage? || e.SonarHealth? || e.Heartbeat?)
      modifies this`commands, this`lastLocalizationTime, this`chassis, this`obstacles, this`sonarHealthTime,
               this`sonarHealthy, this`operator
      ensures Value() == Step(c, old(Value()), clk, e)
    {
      hide GateModel.OnPlan, OnSpeedPlan, GateModel.OnLocalization, GateModel.OnOdom, GateModel.OnGoalActive, OnRange,
           GateModel.OnSetArm, AfterTick, ArmPrerequisites, Output;
      match e
      case OnCommand(cmd) => OnCommand(clk.ros, cmd);
      case OnPreCollision(cmd) => OnPreCollisionCommand(clk.ros, cmd);
      case LocalizationPose => OnLocalizationPose(clk.ros);
      case SystemMessage(error, vehicle, control) => OnSystemState(clk.mono, error, vehicle, control);
      case ObstacleMessage(age) => OnObstacleStatus(clk.ros, age);
      case SonarHealth(healthy) => OnUltrasonicHealth(clk.ros, healthy);
      case Heartbeat(present) => OnOperatorHeartbeat(clk.ros, present);
    }

    // Plans, localization and odometry.
    method HandleSensing(clk: Clock, e: Event)
      requires Wired() && (e.PlanMessage? || e.SpeedPlanMessage? || e.LocalizationMessage? || e.OdomMessage?)
      modifies this`plans, this`goal, this`lastLocalizationTime, this`lastFitness, this`recovery, this`odom, this`spin,
               fitnessHysteresis
      ensures Value() == Step(c, old(Value()), clk, e)
    {
      hide GateModel.OnPlan, OnSpeedPlan, GateModel.OnLocalization, GateModel.OnOdom, GateModel.OnGoalActive, OnRange,
           GateModel.OnSetArm, AfterTick, ArmPrerequisites, Output;
      StepFrames(c, Value(), clk);
      match e
      case PlanMessage(poses) => OnPlan(clk.ros, poses);
      case SpeedPlanMessage(poses) => OnSpeedProfilePlan(poses);
      case LocalizationMessage(fitness) => OnLocalization(clk, fitness);
      case OdomMessage(pose) => OnOdom(clk.ros, pose);
    }

    // The callback that handles an event takes the attributes to the next state of the model.
    method Dispatch(clk: Clock, e: Event)
      requires Wired()
      modifies this, fitnessHysteresis, leftLatch, rightLatch, leftTurnLatch, rightTurnLatch
      ensures Value() == Step(c, old(Value()), clk, e) && history == old(history)
    {
      hide GateModel.OnPlan, OnSpeedPlan, GateModel.OnLocalization, GateModel.OnOdom, GateModel.OnGoalActive, OnRange,
           GateModel.OnSetArm, AfterTick, ArmPrerequisites, Output;
      StepFrames(c, Value(), clk);
      match e
      case PlanMessage(_) => HandleSensing(clk, e);
      case SpeedPlanMessage(_) => HandleSensing(clk, e);
      case LocalizationMessage(_) => HandleSensing(clk, e);
      case OdomMessage(_) => HandleSensing(clk, e);
      case GoalLease(active) => OnGoalActive(clk.ros, active);
      case RangeMessage(left, range) => OnUltrasonicRange(clk.ros, left, range);
      case SetArm(requested) => var _ := OnSetArm(clk, requested);
      case Tick => var _ := Publish(clk);
      case _ => HandleReport(clk, e);
    }

    // ----- The node over a whole run -----

    /** Whatever event comes, the node moves on to the state of the longer run. */
    method Handle(clk: Clock, e: Event)
      requires Valid()
      modifies this, fitnessHysteresis, leftLatch, rightLatch, leftTurnLatch, rightTurnLatch
      ensures Valid() && history == old(history) + [Timed(clk, e)]
    {
      hide Step, Reach;
      ReachNext(c, history, clk, e);
      Dispatch(clk, e);
      history := history + [Timed(clk, e)];
    }

    /** A tick publishes what the run so far determines, and it is safe with respect to that run: no
        motion on a dead link, on an untrusted localization, blindly backwards, on an unconfirmed
        reverse plan, or beyond a motion budget. */
    method Tick(clk: Clock) returns (out: Twist)
      requires Valid()
      modifies this`spin, this`history
      ensures Valid() && history == old(history) + [Timed(clk, Event.Tick)]
      ensures out == Output(c, Reach(c, old(history)), clk)
      ensures SafeOutput(c, old(history), clk, out)
    {
      hide Reach, Output, SafeOutput, AfterTick;
      OutputIsSafe(c, history, clk);
      ReachNext(c, history, clk, Event.Tick);
      StepFrames(c, Value(), clk);
      out := Publish(clk);
      history := history + [Timed(clk, Event.Tick)];
    }

    /** The node's life: the executor hands it events in any order, with any receive times, and every twist
        that it ever publishes is the one that the run up to then determines, and is safe. */
    method Serve(events: seq<Timed>) returns (published: seq<Option<Twist>>)
      requires Valid()
      modifies this, fitnessHysteresis, leftLatch, rightLatch, leftTurnLatch, rightTurnLatch
      ensures Valid() && history == old(history) + events && |published| == |events|
      ensures forall i :: 0 <= i < |events| ==> Answers(c, old(history) + events[..i], events[i], published[i])
    {
      hide Reach, Answers, SafeOutput;
      published := [];
      ghost var before := history;
      for n := 0 to |events|
        invariant Valid() && history == before + events[..n] && |published| == n
        invariant forall i :: 0 <= i < n ==> Answers(c, before + events[..i], events[i], published[i])
      {
        var (clk, e) := (events[n].clk, events[n].e);
        assert before + events[..n + 1] == before + events[..n] + [events[n]];
        if e.Tick? {
          var out := Tick(clk);
          assert Answers(c, before + events[..n], events[n], Some(out)) by { TickAnswers(c, before + events[..n], clk, out); }
          published := published + [Some(out)];
        } else {
          Handle(clk, e);
          assert Answers(c, before + events[..n], events[n], None) by { SilentAnswers(c, before + events[..n], events[n]); }
          published := published + [None];
        }
      }
      assert events[..|events|] == events;
    }
  }

  // What the node does on one event after a run: a tick publishes the twist that the run determines, which is
  // safe; anything else publishes nothing.
  ghost predicate Answers(c: Config, tr: Trace, x: Timed, published: Option<Twist>) {
    if x.e.Tick? then published == Some(Output(c, Reach(c, tr), x.clk)) && SafeOutput(c, tr, x.clk, published.value)
    else published.None?
  }

  lemma {:induction false} TickAnswers(c: Config, tr: Trace, clk: Clock, out: Twist)
    requires out == Output(c, Reach(c, tr), clk) && SafeOutput(c, tr, clk, out)
    ensures Answers(c, tr, Timed(clk, Event.Tick), Some(out))
  {
  }

  lemma {:induction false} SilentAnswers(c: Config, tr: Trace, x: Timed)
    requires !x.e.Tick?
    ensures Answers(c, tr, x, None)
  {
  }
}
