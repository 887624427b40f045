/** The motion safety gate as a state machine on values: its parameters, its state, one
    function for each callback, and what `tick` publishes. */
module GateModel {
  import opened Numbers
  import opened Ultrasonic
  import Fitness
  import opened ReversePlan

  // ----- Parameters -----

  datatype Direction = Reverse | Forward | Both

  datatype Config = Config(
    maths: Maths,
    // localization
    maxFitness: real, normal: Fitness.Thresholds, terminal: Fitness.Thresholds, terminalDistance: real,
    degradedEnabled: bool, degradedMaxTravel: real, degradedMaxRotation: real,
    degradedMaxLinear: real, degradedMaxAngular: real, degradedClearSamples: int,
    // freshness
    localizationTimeout: real, odomTimeout: real, chassisTimeout: real, commandTimeout: real,
    preCollisionTimeout: real, obstacleTimeout: real, maxObstacleAge: real,
    heartbeatRequired: bool, heartbeatTimeout: real, leaseRequired: bool, leaseTimeout: real,
    // speed and turning
    maxLinear: real, maxAngular: real, profileEnabled: bool, startDistance: real, startLinear: real,
    approachDistance: real, approachLinear: real, minLinearForTurn: real, maxCurvature: real,
    curvatureSlack: real, allowSpin: bool, maxSpin: real, maxSpinAngular: real, spinResetDistance: real,
    // reverse policy
    reverseStraightOnly: bool, maxReverseAngular: real, planTimeout: real, straight: StraightLimits,
    confirmations: int,
    // rear ultrasonics
    sonarEnabled: bool, sonarDirection: Direction, sonarTimeout: real, reverseLimits: Limits,
    turnLimits: Limits, requiredStop: real, selfEchoEnabled: bool, selfEchoMin: real, selfEchoMax: real,
    turnGuard: bool, taperEnabled: bool,
    // chassis codes
    vehicleNormal: int, controlCan: int)
  {
    /** The parameter checks of the node's constructor: it raises unless they hold. */
    ghost predicate Accepted() {
      && maths.Valid()
      && normal.clearSamples >= 1 && degradedClearSamples >= 1 && confirmations >= 1
      && terminal.clearSamples == normal.clearSamples && terminal.hold == normal.hold
      && turnLimits == reverseLimits.(stop := turnLimits.stop, clear := turnLimits.stop)
      && reverseLimits.stop + 0.000001 >= requiredStop
      && reverseLimits.clear > reverseLimits.stop
      && turnLimits.stop > reverseLimits.stop
      && (selfEchoEnabled ==> 0.0 <= selfEchoMin < selfEchoMax <= reverseLimits.stop)
      && 0.0 < approachLinear <= startLinear < maxLinear
      && 0.0 < startDistance < approachDistance
      && 0.0 < maxFitness <= normal.clear < normal.block && normal.hold >= 0.0
      && terminalDistance > 0.0 && normal.block <= terminal.clear < terminal.block
      && degradedMaxTravel > 0.0 && 0.0 < degradedMaxLinear <= startLinear
      && 0.0 < degradedMaxAngular <= maxSpinAngular && 0.0 < degradedMaxRotation <= maxSpin
    }
  }

  // ----- State -----

  datatype Command = Command(x: real, y: real, turn: real)

  datatype Twist = Twist(linear: real, angular: real)

  const STOP: Twist := Twist(0.0, 0.0)

  datatype Commands = Commands(last: Option<Command>, time: Option<real>, pre: Option<Command>, preTime: Option<real>)
  datatype Plans = Plans(time: Option<real>, straight: bool, confirmations: int)
  datatype Localization = Localization(time: Option<real>, fitness: Reading, hysteresis: Fitness.Hysteresis)
  datatype Recovery = Recovery(
    mode: bool, attempted: bool, traveled: real, rotated: real, lastYaw: Option<real>, healthy: int)
  datatype Odometry = Odometry(time: Option<real>, pose: Option<Pose>)
  datatype Spin = Spin(
    active: bool, lastYaw: Option<real>, origin: Option<Point>, accumulated: real, limitReached: bool)
  datatype Chassis = Chassis(time: Option<real>, count: nat, error: Option<int>, vehicle: Option<int>, control: Option<int>)
  datatype Obstacles = Obstacles(time: Option<real>, age: Reading)
  datatype Sensor = Sensor(time: Option<real>, range: Reading, latch: Latch, turnLatch: Latch)
  datatype Rear = Rear(healthTime: Option<real>, healthy: bool, left: Sensor, right: Sensor)
  datatype Operator = Operator(time: Option<real>, present: bool)
  datatype Goal = Goal(leaseTime: Option<real>, active: bool, traveled: real, lastOdom: Option<Point>, remaining: Reading)

  datatype State = State(
    armed: bool, commands: Commands, plans: Plans, loc: Localization, recovery: Recovery, odom: Odometry,
    spin: Spin, chassis: Chassis, obstacles: Obstacles, rear: Rear, operator: Operator, goal: Goal)

  const INITIAL_SENSOR: Sensor := Sensor(None, NaN, INITIAL_LATCH, INITIAL_LATCH)

  const INITIAL: State := State(
    false,
    Commands(None, None, None, None),
    Plans(None, false, 0),
    Localization(None, PosInf, Fitness.INITIAL_HYSTERESIS),
    Recovery(false, false, 0.0, 0.0, None, 0),
    Odometry(None, None),
    Spin(false, None, None, 0.0, false),
    Chassis(None, 0, None, None, None),
    Obstacles(None, PosInf),
    Rear(None, false, INITIAL_SENSOR, INITIAL_SENSOR),
    Operator(None, false),
    Goal(None, false, 0.0, None, PosInf))

  function Yaw(p: Option<Pose>): Option<real> {
    match p case None => None case Some(q) => Some(q.yaw)
  }

  function At(p: Option<Pose>): Option<Point> {
    match p case None => None case Some(q) => Some(q.at)
  }

  // `elapsed(stamp) > timeout`, where a missing stamp is infinitely old.
  predicate Stale(stamp: Option<real>, now: real, timeout: real) {
    stamp.None? || Max(0.0, now - stamp.value) > timeout
  }

  // ----- Callbacks -----

  function OnPlan(c: Config, s: State, now: real, poses: seq<Point>): State
  {
    var straight := Classified(c.maths, c.straight, poses);
    s.(plans := Plans(Some(now), straight,
                      if straight then MinInt(s.plans.confirmations + 1, c.confirmations) else 0))
  }

  function OnSpeedPlan(c: Config, s: State, poses: seq<Point>): State {
    if |poses| < 2 then s
    else s.(goal := s.goal.(remaining := Finite(PathLength(c.maths, poses))))
  }

  datatype ThresholdMode = Terminal | DegradedRecovery | Normal

  function SelectMode(c: Config, g: Goal, recovering: bool): ThresholdMode {
    if g.active && g.remaining.Finite? && 0.0 <= g.remaining.v <= c.terminalDistance then Terminal
    else if recovering && g.active then DegradedRecovery
    else Normal
  }

  // The thresholds in force, with the clear-sample count of the mode.
  function ModeThresholds(c: Config, mode: ThresholdMode): Fitness.Thresholds {
    match mode
    case Terminal => c.terminal
    case DegradedRecovery => c.terminal.(clearSamples := c.degradedClearSamples)
    case Normal => c.normal
  }

  function StartRecovery(s: State): State {
    s.(recovery := Recovery(true, true, 0.0, 0.0, Yaw(s.odom.pose), 0),
       loc := s.loc.(hysteresis := Fitness.Apply(s.loc.hysteresis, Fitness.Restart)))
  }

  predicate Recoverable(c: Config, s: State, now: real) {
    && c.degradedEnabled && s.armed
    && s.loc.hysteresis.blocked
    && s.loc.fitness.Finite? && s.loc.fitness.v <= c.terminal.clear
    && !Stale(s.loc.time, now, c.localizationTimeout)
  }

  predicate Eligible(c: Config, s: State, now: real) {
    s.goal.active && !s.recovery.mode && !s.recovery.attempted && Recoverable(c, s, now)
  }

  // What a sample does to a recovery that is under way: enough strict samples end it.
  function RecoveryProgress(c: Config, r: Recovery, fitness: Reading): Recovery {
    if !r.mode then r
    else if !fitness.AtMost(c.normal.clear) then r.(healthy := 0)
    else if r.healthy + 1 >= c.normal.clearSamples then Recovery(false, r.attempted, 0.0, 0.0, None, 0)
    else r.(healthy := r.healthy + 1)
  }

  function OnLocalization(c: Config, s: State, clk: Clock, fitness: Reading): State {
    var received := s.(loc := s.loc.(time := Some(clk.ros), fitness := fitness));
    var t := if Eligible(c, received, clk.ros) then StartRecovery(received) else received;
    var thresholds := ModeThresholds(c, SelectMode(c, t.goal, t.recovery.mode));
    t.(loc := t.loc.(hysteresis := Fitness.Updated(t.loc.hysteresis, fitness, clk.mono, thresholds)),
       recovery := RecoveryProgress(c, t.recovery, fitness))
  }

  function ResetSpin(s: State): State {
    s.(spin := Spin(false, Yaw(s.odom.pose), At(s.odom.pose), 0.0, false))
  }

  // The command in force asks for a turn on the spot.
  predicate SmallSpinRequested(c: Config, k: Commands) {
    k.last.Some? && Abs(k.last.value.x) < c.minLinearForTurn && Abs(k.last.value.turn) > 0.001
  }

  // The travelled step since the last odometry sample; a jump counts as nothing.
  function OdomStep(c: Config, g: Goal, pose: Pose): real {
    if g.active && g.lastOdom.Some? then
      var step := c.maths.Distance(g.lastOdom.value, pose.at);
      if step <= 0.25 then step else 0.0
    else 0.0
  }

  function YawStep(c: Config, last: Option<real>, yaw: real): real {
    if last.Some? then Abs(c.maths.wrap(yaw - last.value)) else 0.0
  }

  function RecoveryAfterOdom(c: Config, r: Recovery, step: real, pose: Pose): Recovery {
    if !r.mode then r
    else r.(rotated := r.rotated + YawStep(c, r.lastYaw, pose.yaw), lastYaw := Some(pose.yaw),
            traveled := r.traveled + step)
  }

  predicate TranslatedAway(c: Config, spin: Spin, pose: Pose) {
    spin.active && spin.origin.Some? && c.maths.Distance(spin.origin.value, pose.at) >= c.spinResetDistance
  }

  // The budget counts yaw only while it is open and an in-place command is in force, and a
  // translation closes it.
  function SpinAfterOdom(c: Config, spin: Spin, requested: bool, pose: Pose): Spin {
    if TranslatedAway(c, spin, pose) then Spin(false, Some(pose.yaw), Some(pose.at), 0.0, false)
    else if spin.active && spin.lastYaw.Some? && requested then
      var spun := spin.accumulated + YawStep(c, spin.lastYaw, pose.yaw);
      spin.(lastYaw := Some(pose.yaw), accumulated := spun,
            limitReached := spin.limitReached || spun >= c.maxSpin)
    else spin.(lastYaw := Some(pose.yaw))
  }

  function OnOdom(c: Config, s: State, now: real, pose: Pose): State {
    var step := OdomStep(c, s.goal, pose);
    s.(odom := Odometry(Some(now), Some(pose)),
       recovery := RecoveryAfterOdom(c, s.recovery, step, pose),
       goal := s.goal.(traveled := s.goal.traveled + step, lastOdom := Some(pose.at)),
       spin := SpinAfterOdom(c, s.spin, SmallSpinRequested(c, s.commands), pose))
  }

  function OnSystemState(s: State, mono: real, error: int, vehicle: int, control: int): State {
    s.(chassis := Chassis(Some(mono), s.chassis.count + 1, Some(error), Some(vehicle), Some(control)))
  }

  function OnGoalActive(c: Config, s: State, now: real, active: bool): State {
    var leased := s.(goal := s.goal.(leaseTime := Some(now)));
    if active && !s.goal.active then
      var reset := ResetSpin(leased);
      var t := reset.(
        goal := Goal(Some(now), false, 0.0, At(s.odom.pose), PosInf),
        recovery := s.recovery.(attempted := s.recovery.mode, traveled := 0.0, rotated := 0.0,
                                lastYaw := Yaw(s.odom.pose)));
      var u := if !s.recovery.mode && Recoverable(c, t, now) then StartRecovery(t) else t;
      u.(goal := u.goal.(active := true))
    else if !active then
      leased.(goal := leased.goal.(active := false), recovery := Recovery(false, false, 0.0, 0.0, None, 0))
    else leased
  }

  predicate IsSelfEcho(c: Config, v: Reading) {
    c.selfEchoEnabled && v.Finite? && c.selfEchoMin <= v.v <= c.selfEchoMax
  }

  function Sensed(c: Config, sensor: Sensor, now: real, v: Reading): Sensor {
    var t := sensor.(time := Some(now), range := v);
    if IsSelfEcho(c, v) then t
    else t.(latch := Updated(c.reverseLimits, sensor.latch, Sample(v, now)),
            turnLatch := Updated(c.turnLimits, sensor.turnLatch, Sample(v, now)))
  }

  function OnRange(c: Config, s: State, now: real, left: bool, v: Reading): State {
    if left then s.(rear := s.rear.(left := Sensed(c, s.rear.left, now, v)))
    else s.(rear := s.rear.(right := Sensed(c, s.rear.right, now, v)))
  }

  // ----- Arming -----

  predicate ChassisReady(c: Config, s: State, mono: real) {
    && !Stale(s.chassis.time, mono, c.chassisTimeout)
    && s.chassis.count >= 3
    && s.chassis.error == Some(0)
    && s.chassis.vehicle == Some(c.vehicleNormal)
    && s.chassis.control == Some(c.controlCan)
  }

  predicate OperatorReady(c: Config, s: State, now: real) {
    c.heartbeatRequired ==> !Stale(s.operator.time, now, c.heartbeatTimeout) && s.operator.present
  }

  predicate ObstaclesReady(c: Config, s: State, now: real) {
    !Stale(s.obstacles.time, now, c.obstacleTimeout) && !s.obstacles.age.Above(c.maxObstacleAge)
  }

  predicate ArmPrerequisites(c: Config, s: State, clk: Clock) {
    && OperatorReady(c, s, clk.ros)
    && ChassisReady(c, s, clk.mono)
    && !Stale(s.loc.time, clk.ros, c.localizationTimeout)
    && s.loc.fitness.Finite?
    && (s.loc.hysteresis.blocked ==> c.degradedEnabled && s.loc.fitness.v <= c.terminal.clear)
    && !Stale(s.odom.time, clk.ros, c.odomTimeout)
    && ObstaclesReady(c, s, clk.ros)
    && !Stale(s.rear.healthTime, clk.ros, c.sonarTimeout) && s.rear.healthy
    && !Stale(s.rear.left.time, clk.ros, c.sonarTimeout)
    && !Stale(s.rear.right.time, clk.ros, c.sonarTimeout)
  }

  function OnSetArm(c: Config, s: State, clk: Clock, requested: bool): State {
    if !requested then
      var t := s.(recovery := Recovery(false, false, 0.0, 0.0, None, 0));
      if s.armed then ResetSpin(t.(armed := false)) else t
    else if !ArmPrerequisites(c, s, clk) then
      ResetSpin(s.(armed := false))
    else
      var t := if s.loc.hysteresis.blocked && s.loc.fitness.Above(c.maxFitness) then StartRecovery(s) else s;
      if !s.armed then ResetSpin(t.(armed := true)) else t
  }

  // ----- Why motion is blocked -----

  datatype Reason =
    | Ready | Disarmed | StaleHeartbeat | OperatorAbsent | StaleLease | NoGoal | StaleChassis | ChassisWarming
    | ChassisError | ChassisNotNormal | ChassisNotCan | StaleLocalization | StaleOdometry | StaleObstacles
    | ObstacleCloudOld | InvalidFitness | BadFitness | RecoveryTravelExhausted | RecoveryRotationExhausted
    | CollisionBlocked | StaleCommand | SpinProhibited | SpinLimit | ReverseAngular | ReverseStalePlan
    | ReverseCurved | ReverseUnconfirmed | StaleSonarHealth | SonarUnhealthy | SonarBlocked

  function Magnitude(cmd: Option<Command>): real {
    match cmd
    case None => 0.0
    case Some(k) => Max(Max(Abs(k.x), Abs(k.y)), Abs(k.turn))
  }

  predicate CollisionMonitorBlocks(c: Config, k: Commands, now: real) {
    && !Stale(k.preTime, now, c.preCollisionTimeout) && Magnitude(k.pre) > 0.001
    && !(!Stale(k.time, now, c.commandTimeout) && Magnitude(k.last) > 0.001)
  }

  function ReversePathReason(c: Config, k: Commands, p: Plans, now: real): Reason {
    if !c.reverseStraightOnly || k.last.None? || k.last.value.x >= -0.001 then Ready
    else if Abs(k.last.value.turn) > c.maxReverseAngular then ReverseAngular
    else if Stale(p.time, now, c.planTimeout) then ReverseStalePlan
    else if !p.straight then ReverseCurved
    else if p.confirmations < c.confirmations then ReverseUnconfirmed
    else Ready
  }

  // Both rear sectors are always guarded together.
  predicate RearGuarded(c: Config, k: Commands) {
    && c.sonarEnabled && k.last.Some?
    && var cmd := k.last.value;
    || (c.sonarDirection == Reverse && cmd.x < -0.001)
    || (c.sonarDirection == Forward && cmd.x > 0.001)
    || (c.sonarDirection == Both && Abs(cmd.x) > 0.001)
    || (c.turnGuard && Abs(cmd.turn) > 0.001)
  }

  predicate SensorClear(c: Config, sensor: Sensor, now: real, turning: bool) {
    !Stale(sensor.time, now, c.sonarTimeout) && !(if turning then sensor.turnLatch else sensor.latch).blocked
  }

  // A turn consults only the turn latches, even when it also drives backwards.
  function RearReason(c: Config, k: Commands, r: Rear, now: real): Reason {
    if !RearGuarded(c, k) then Ready
    else
      var turning := Abs(k.last.value.turn) > 0.001;
      if Stale(r.healthTime, now, c.sonarTimeout) then StaleSonarHealth
      else if !r.healthy then SonarUnhealthy
      else if !SensorClear(c, r.left, now, turning) || !SensorClear(c, r.right, now, turning) then SonarBlocked
      else Ready
  }

  function ReasonFor(c: Config, s: State, clk: Clock): Reason {
    var now := clk.ros;
    if !s.armed then Disarmed
    else if c.heartbeatRequired && Stale(s.operator.time, now, c.heartbeatTimeout) then StaleHeartbeat
    else if c.heartbeatRequired && !s.operator.present then OperatorAbsent
    else if c.leaseRequired && Stale(s.goal.leaseTime, now, c.leaseTimeout) then StaleLease
    else if c.leaseRequired && !s.goal.active then NoGoal
    else if Stale(s.chassis.time, clk.mono, c.chassisTimeout) then StaleChassis
    else if s.chassis.count < 3 then ChassisWarming
    else if s.chassis.error != Some(0) then ChassisError
    else if s.chassis.vehicle != Some(c.vehicleNormal) then ChassisNotNormal
    else if s.chassis.control != Some(c.controlCan) then ChassisNotCan
    else if Stale(s.loc.time, now, c.localizationTimeout) then StaleLocalization
    else if Stale(s.odom.time, now, c.odomTimeout) then StaleOdometry
    else if Stale(s.obstacles.time, now, c.obstacleTimeout) then StaleObstacles
    else if s.obstacles.age.Above(c.maxObstacleAge) then ObstacleCloudOld
    else if !s.loc.fitness.Finite? then InvalidFitness
    else if s.loc.hysteresis.blocked then BadFitness
    else if s.recovery.mode && s.recovery.traveled >= c.degradedMaxTravel then RecoveryTravelExhausted
    else if s.recovery.mode && s.recovery.rotated >= c.degradedMaxRotation then RecoveryRotationExhausted
    else if CollisionMonitorBlocks(c, s.commands, now) then CollisionBlocked
    else if Stale(s.commands.time, now, c.commandTimeout) then StaleCommand
    else if SmallSpinRequested(c, s.commands) && !c.allowSpin then SpinProhibited
    else if SmallSpinRequested(c, s.commands) && s.spin.limitReached then SpinLimit
    else if ReversePathReason(c, s.commands, s.plans, now) != Ready then ReversePathReason(c, s.commands, s.plans, now)
    else RearReason(c, s.commands, s.rear, now)
  }

  // ----- What tick publishes -----

  function StartLimit(c: Config, traveled: real): real {
    if traveled < c.startDistance then c.startLinear else c.maxLinear
  }

  function Ramp(low: real, high: real, ratio: real): real { low + (high - low) * ratio }

  function SpeedProfile(c: Config, traveled: real, remaining: Reading): real {
    var approaching := remaining.Finite? && remaining.v <= c.approachDistance;
    var ratio := if approaching && c.approachDistance != 0.0
                 then Max(0.0, Min(1.0, Ratio(remaining.v, c.approachDistance))) else 0.0;
    var approachCap := Ramp(c.approachLinear, c.maxLinear, ratio);
    if traveled < c.startDistance && approaching then Min(c.startLinear, approachCap)
    else if traveled < c.startDistance then c.startLinear
    else if approaching then approachCap
    else c.maxLinear
  }

  function CurrentCap(c: Config, g: Goal, recovering: bool): real {
    if !c.profileEnabled || !g.active then c.startLinear
    else
      var cap := SpeedProfile(c, g.traveled, g.remaining);
      if recovering && cap > c.degradedMaxLinear then c.degradedMaxLinear else cap
  }

  predicate SensorAllowed(c: Config, r: Rear, sensor: Sensor, now: real) {
    && c.sonarEnabled && r.healthy && !Stale(r.healthTime, now, c.sonarTimeout)
    && !Stale(sensor.time, now, c.sonarTimeout) && !sensor.latch.blocked
  }

  predicate RearReverseAllowed(c: Config, r: Rear, now: real) {
    SensorAllowed(c, r, r.left, now) && SensorAllowed(c, r, r.right, now)
  }

  // Where a reading lies between the stop and the clear distance.
  function TaperRatio(c: Config, v: real): real
    requires c.reverseLimits.clear != c.reverseLimits.stop
  {
    (v - c.reverseLimits.stop) / (c.reverseLimits.clear - c.reverseLimits.stop)
  }

  function SensorScale(c: Config, v: Reading): real {
    if IsSelfEcho(c, v) || v.PosInf? then 1.0
    else if !v.Finite? then 0.0
    else
      var span := c.reverseLimits.clear - c.reverseLimits.stop;
      if span <= 0.000001 then 0.0 else Max(0.0, Min(1.0, TaperRatio(c, v.v)))
  }

  function ReverseScale(c: Config, r: Rear, now: real): real {
    if !RearReverseAllowed(c, r, now) then 0.0
    else if !c.taperEnabled then 1.0
    else if c.reverseLimits.clear - c.reverseLimits.stop <= 0.000001 then 0.0
    else Min(SensorScale(c, r.left.range), SensorScale(c, r.right.range))
  }

  function LimitedLinear(c: Config, x: real, scale: real, cap: real): real {
    var clamped := Saturate(x, c.maxLinear);
    var tapered := if clamped < -0.001 then clamped * scale else clamped;
    if c.profileEnabled then CopySign(Min(Abs(tapered), cap), tapered) else tapered
  }

  function LimitedAngular(c: Config, turn: real, recovering: bool): real {
    var clamped := Saturate(turn, c.maxAngular);
    if recovering then Saturate(clamped, c.degradedMaxAngular) else clamped
  }

  // The curvature bound on turning at a translation speed.
  function TurnLimit(c: Config, linear: real): real {
    Min(c.maxAngular, Abs(linear) * c.maxCurvature + c.curvatureSlack)
  }

  function Shaped(c: Config, linear: real, angular: real): Twist {
    if Abs(linear) < c.minLinearForTurn then
      Twist(0.0, if Abs(angular) <= 0.001 then 0.0 else Saturate(angular, c.maxSpinAngular))
    else Twist(linear, Saturate(angular, TurnLimit(c, linear)))
  }

  // The unshaped command that a ready tick works on.
  function Intended(c: Config, s: State, now: real): Twist
    requires s.commands.last.Some?
  {
    Twist(LimitedLinear(c, s.commands.last.value.x, ReverseScale(c, s.rear, now), CurrentCap(c, s.goal, s.recovery.mode)),
          LimitedAngular(c, s.commands.last.value.turn, s.recovery.mode))
  }

  predicate Moving(c: Config, s: State, clk: Clock) {
    ReasonFor(c, s, clk) == Ready && s.commands.last.Some?
  }

  function Output(c: Config, s: State, clk: Clock): Twist {
    if !Moving(c, s, clk) then STOP
    else var t := Intended(c, s, clk.ros); Shaped(c, t.linear, t.angular)
  }

  predicate TurnsInPlace(c: Config, linear: real, angular: real) {
    Abs(linear) < c.minLinearForTurn && Abs(angular) > 0.001
  }

  // A tick that turns on the spot opens the spin budget.
  predicate OpensSpin(c: Config, s: State, clk: Clock) {
    Moving(c, s, clk) && !s.spin.active
    && var t := Intended(c, s, clk.ros); TurnsInPlace(c, t.linear, t.angular)
  }

  function OpenedSpin(pose: Option<Pose>): Spin { Spin(true, Yaw(pose), At(pose), 0.0, false) }

  function AfterTick(c: Config, s: State, clk: Clock): State {
    if OpensSpin(c, s, clk) then s.(spin := OpenedSpin(s.odom.pose)) else s
  }

  // ----- Events -----

  datatype Event =
    | OnCommand(cmd: Command)
    | OnPreCollision(cmd: Command)
    | PlanMessage(poses: seq<Point>)
    | SpeedPlanMessage(poses: seq<Point>)
    | LocalizationMessage(fitness: Reading)
    | LocalizationPose
    | OdomMessage(pose: Pose)
    | SystemMessage(error: int, vehicle: int, control: int)
    | ObstacleMessage(age: Reading)
    | SonarHealth(healthy: bool)
    | Heartbeat(present: bool)
    | GoalLease(active: bool)
    | RangeMessage(left: bool, range: Reading)
    | SetArm(requested: bool)
    | Tick

  function Step(c: Config, s: State, clk: Clock, e: Event): State
  {
    match e
    case OnCommand(cmd) => s.(commands := s.commands.(last := Some(cmd), time := Some(clk.ros)))
    case OnPreCollision(cmd) => s.(commands := s.commands.(pre := Some(cmd), preTime := Some(clk.ros)))
    case PlanMessage(poses) => OnPlan(c, s, clk.ros, poses)
    case SpeedPlanMessage(poses) => OnSpeedPlan(c, s, poses)
    case LocalizationMessage(fitness) => OnLocalization(c, s, clk, fitness)
    case LocalizationPose => s.(loc := s.loc.(time := Some(clk.ros)))
    case OdomMessage(pose) => OnOdom(c, s, clk.ros, pose)
    case SystemMessage(error, vehicle, control) => OnSystemState(s, clk.mono, error, vehicle, control)
    case ObstacleMessage(age) => s.(obstacles := Obstacles(Some(clk.ros), age))
    case SonarHealth(healthy) => s.(rear := s.rear.(healthTime := Some(clk.ros), healthy := healthy))
    case Heartbeat(present) => s.(operator := Operator(Some(clk.ros), present))
    case GoalLease(active) => OnGoalActive(c, s, clk.ros, active)
    case RangeMessage(left, range) => OnRange(c, s, clk.ros, left, range)
    case SetArm(requested) => OnSetArm(c, s, clk, requested)
    case Tick => AfterTick(c, s, clk)
  }

  // The parts of the state that each of the larger steps writes.
  lemma {:induction false} StepFrames(c: Config, s: State, clk: Clock)
    ensures forall fitness {:trigger OnLocalization(c, s, clk, fitness)} ::
              var t := OnLocalization(c, s, clk, fitness); t == s.(loc := t.loc, recovery := t.recovery)
    ensures forall pose {:trigger OnOdom(c, s, clk.ros, pose)} ::
              var t := OnOdom(c, s, clk.ros, pose);
              t == s.(odom := t.odom, recovery := t.recovery, goal := t.goal, spin := t.spin)
    ensures forall active {:trigger OnGoalActive(c, s, clk.ros, active)} ::
              var t := OnGoalActive(c, s, clk.ros, active);
              && t == s.(goal := t.goal, spin := t.spin, recovery := t.recovery, loc := t.loc)
              && t.loc == s.loc.(hysteresis := t.loc.hysteresis)
    ensures var t := AfterTick(c, s, clk); t == s.(spin := t.spin)
  {
    hide Fitness.Updated, ModeThresholds, Stale, OpensSpin, SpinAfterOdom, OdomStep, RecoveryAfterOdom, RecoveryProgress;
  }
}
