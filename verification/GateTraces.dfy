/** Whole runs of the gate: what its state remembers of the messages it received, and what
    must have arrived before it lets the chassis move. */
module GateTraces {
  import opened Numbers
  import opened Runs
  import opened Ultrasonic
  import opened ReversePlan
  import opened GateModel
  import opened GateOutput

  datatype Timed = Timed(clk: Clock, e: Event)

  /** A run: any events in any order, with any receive times. */
  type Trace = seq<Timed>

  function Reach(c: Config, tr: Trace): State {
    if |tr| == 0 then INITIAL else Step(c, Reach(c, Init(tr)), Last(tr).clk, Last(tr).e)
  }

  lemma {:induction false} ReachNext(c: Config, tr: Trace, clk: Clock, e: Event)
    ensures Reach(c, tr + [Timed(clk, e)]) == Step(c, Reach(c, tr), clk, e)
  {
    hide Step;
    assert Init(tr + [Timed(clk, e)]) == tr;
  }

  // ----- The last message on a topic -----

  datatype Topic =
    | ArmCalls | Heartbeats | GoalLeases | ChassisStates | OdomPoses | ObstacleClouds | FitnessScores
    | LocalizationUpdates | Cmds | PreCmds | PlanMessages | SonarReports | LeftRanges | RightRanges

  predicate On(t: Topic, e: Event) {
    match t
    case ArmCalls => e.SetArm?
    case Heartbeats => e.Heartbeat?
    case GoalLeases => e.GoalLease?
    case ChassisStates => e.SystemMessage?
    case OdomPoses => e.OdomMessage?
    case ObstacleClouds => e.ObstacleMessage?
    case FitnessScores => e.LocalizationMessage?
    case LocalizationUpdates => e.LocalizationMessage? || e.LocalizationPose?
    case Cmds => e.OnCommand?
    case PreCmds => e.OnPreCollision?
    case PlanMessages => e.PlanMessage?
    case SonarReports => e.SonarHealth?
    case LeftRanges => e.RangeMessage? && e.left
    case RightRanges => e.RangeMessage? && !e.left
  }

  // Message i is the last one on its topic.
  ghost predicate Latest(tr: Trace, t: Topic, i: int) {
    0 <= i < |tr| && On(t, tr[i].e) && forall j :: i < j < |tr| ==> !On(t, tr[j].e)
  }

  function LastOn(tr: Trace, t: Topic): (r: Option<Timed>)
    ensures r.Some? ==> On(t, r.value.e)
  {
    if |tr| == 0 then None else if On(t, Last(tr).e) then Some(Last(tr)) else LastOn(Init(tr), t)
  }

  lemma {:induction false} LastOnIsLatest(tr: Trace, t: Topic)
    ensures LastOn(tr, t).Some? ==> exists i :: Latest(tr, t, i) && tr[i] == LastOn(tr, t).value
    ensures LastOn(tr, t).None? ==> forall i :: 0 <= i < |tr| ==> !On(t, tr[i].e)
  {
    if |tr| > 0 {
      var p := Init(tr);
      LastOnIsLatest(p, t);
      if On(t, Last(tr).e) {
        assert Latest(tr, t, |tr| - 1);
      } else if LastOn(p, t).Some? {
        var i :| Latest(p, t, i) && p[i] == LastOn(p, t).value;
        assert Latest(tr, t, i);
      }
    }
  }

  function CountOn(tr: Trace, t: Topic): nat {
    if |tr| == 0 then 0 else CountOn(Init(tr), t) + (if On(t, Last(tr).e) then 1 else 0)
  }

  // ----- Which message writes which part of the state -----

  lemma {:induction false} WritesLinks(c: Config, s: State, clk: Clock, e: Event)
    ensures var t := Step(c, s, clk, e);
      && t.operator == (if e.Heartbeat? then Operator(Some(clk.ros), e.present) else s.operator)
      && t.chassis == (if e.SystemMessage?
                       then Chassis(Some(clk.mono), s.chassis.count + 1, Some(e.error), Some(e.vehicle), Some(e.control))
                       else s.chassis)
      && t.obstacles == (if e.ObstacleMessage? then Obstacles(Some(clk.ros), e.age) else s.obstacles)
      && t.odom == (if e.OdomMessage? then Odometry(Some(clk.ros), Some(e.pose)) else s.odom)
      && t.commands.last == (if e.OnCommand? then Some(e.cmd) else s.commands.last)
      && t.commands.time == (if e.OnCommand? then Some(clk.ros) else s.commands.time)
      && t.commands.pre == (if e.OnPreCollision? then Some(e.cmd) else s.commands.pre)
      && t.commands.preTime == (if e.OnPreCollision? then Some(clk.ros) else s.commands.preTime)
      && t.plans == (if e.PlanMessage? then OnPlan(c, s, clk.ros, e.poses).plans else s.plans)
  {
    hide Fitness.Updated, Updated, Classified, SelectMode, ModeThresholds, Eligible, Recoverable, ArmPrerequisites,
         OpensSpin, SpinAfterOdom, OdomStep, RecoveryAfterOdom, RecoveryProgress, PathLength;
  }

  lemma {:induction false} WritesMission(c: Config, s: State, clk: Clock, e: Event)
    ensures var t := Step(c, s, clk, e);
      && t.armed == (if e.SetArm? then e.requested && ArmPrerequisites(c, s, clk) else s.armed)
      && t.goal.active == (if e.GoalLease? then e.active else s.goal.active)
      && t.goal.leaseTime == (if e.GoalLease? then Some(clk.ros) else s.goal.leaseTime)
      && t.loc.time == (if e.LocalizationMessage? || e.LocalizationPose? then Some(clk.ros) else s.loc.time)
      && t.loc.fitness == (if e.LocalizationMessage? then e.fitness else s.loc.fitness)
  {
    hide Fitness.Updated, Updated, Classified, SelectMode, ModeThresholds, Eligible, Recoverable, ArmPrerequisites,
         OpensSpin, SpinAfterOdom, OdomStep, RecoveryAfterOdom, RecoveryProgress, PathLength;
  }

  lemma {:induction false} WritesRear(c: Config, s: State, clk: Clock, e: Event)
    ensures var t := Step(c, s, clk, e);
      && t.rear.healthTime == (if e.SonarHealth? then Some(clk.ros) else s.rear.healthTime)
      && t.rear.healthy == (if e.SonarHealth? then e.healthy else s.rear.healthy)
      && t.rear.left == (if e.RangeMessage? && e.left then Sensed(c, s.rear.left, clk.ros, e.range) else s.rear.left)
      && t.rear.right == (if e.RangeMessage? && !e.left then Sensed(c, s.rear.right, clk.ros, e.range) else s.rear.right)
  {
    hide Fitness.Updated, Sensed, Classified, SelectMode, ModeThresholds, Eligible, Recoverable, ArmPrerequisites,
         OpensSpin, SpinAfterOdom, OdomStep, RecoveryAfterOdom, RecoveryProgress, PathLength;
  }

  // ----- Provenance: the state is what the last messages said -----

  function StampOf(t: Topic, clk: Clock): real { if t == ChassisStates then clk.mono else clk.ros }

  function StampOn(tr: Trace, t: Topic): Option<real> {
    match LastOn(tr, t) case None => None case Some(x) => Some(StampOf(t, x.clk))
  }

  lemma {:induction false} LinksRemembered(c: Config, tr: Trace)
    ensures var s := Reach(c, tr);
      && s.operator == (match LastOn(tr, Heartbeats)
                        case None => Operator(None, false)
                        case Some(x) => Operator(Some(x.clk.ros), x.e.present))
      && s.chassis == (match LastOn(tr, ChassisStates)
                       case None => Chassis(None, 0, None, None, None)
                       case Some(x) => Chassis(Some(x.clk.mono), CountOn(tr, ChassisStates), Some(x.e.error),
                                               Some(x.e.vehicle), Some(x.e.control)))
    ensures LastOn(tr, ChassisStates).None? ==> CountOn(tr, ChassisStates) == 0
  {
    hide Step;
    if |tr| > 0 {
      LinksRemembered(c, Init(tr));
      WritesLinks(c, Reach(c, Init(tr)), Last(tr).clk, Last(tr).e);
    }
  }

  lemma {:induction false} InputsRemembered(c: Config, tr: Trace)
    ensures var s := Reach(c, tr);
      && s.obstacles == (match LastOn(tr, ObstacleClouds)
                         case None => Obstacles(None, PosInf)
                         case Some(x) => Obstacles(Some(x.clk.ros), x.e.age))
      && s.odom == (match LastOn(tr, OdomPoses)
                    case None => Odometry(None, None)
                    case Some(x) => Odometry(Some(x.clk.ros), Some(x.e.pose)))
      && s.commands.last == (match LastOn(tr, Cmds) case None => None case Some(x) => Some(x.e.cmd))
      && s.commands.time == StampOn(tr, Cmds)
      && s.commands.pre == (match LastOn(tr, PreCmds) case None => None case Some(x) => Some(x.e.cmd))
      && s.commands.preTime == StampOn(tr, PreCmds)
      && s.plans.time == StampOn(tr, PlanMessages)
  {
    hide Step;
    if |tr| > 0 {
      InputsRemembered(c, Init(tr));
      WritesLinks(c, Reach(c, Init(tr)), Last(tr).clk, Last(tr).e);
    }
  }

  lemma {:induction false} MissionRemembered(c: Config, tr: Trace)
    ensures var s := Reach(c, tr);
      && s.goal.active == (match LastOn(tr, GoalLeases) case None => false case Some(x) => x.e.active)
      && s.goal.leaseTime == StampOn(tr, GoalLeases)
      && s.loc.time == StampOn(tr, LocalizationUpdates)
      && s.loc.fitness == (match LastOn(tr, FitnessScores) case None => PosInf case Some(x) => x.e.fitness)
  {
    hide Step;
    if |tr| > 0 {
      MissionRemembered(c, Init(tr));
      WritesMission(c, Reach(c, Init(tr)), Last(tr).clk, Last(tr).e);
    }
  }

  lemma {:induction false} RearRemembered(c: Config, tr: Trace)
    ensures var s := Reach(c, tr);
      && s.rear.healthTime == StampOn(tr, SonarReports)
      && s.rear.healthy == (match LastOn(tr, SonarReports) case None => false case Some(x) => x.e.healthy)
      && s.rear.left.time == StampOn(tr, LeftRanges)
      && s.rear.left.range == (match LastOn(tr, LeftRanges) case None => NaN case Some(x) => x.e.range)
      && s.rear.right.time == StampOn(tr, RightRanges)
      && s.rear.right.range == (match LastOn(tr, RightRanges) case None => NaN case Some(x) => x.e.range)
  {
    hide Step, Updated;
    if |tr| > 0 {
      RearRemembered(c, Init(tr));
      WritesRear(c, Reach(c, Init(tr)), Last(tr).clk, Last(tr).e);
    }
  }

  // Arm call i asked to arm, and every prerequisite held when it arrived.
  predicate ArmSucceeded(c: Config, tr: Trace, i: int)
    requires 0 <= i < |tr| && tr[i].e.SetArm?
  {
    tr[i].e.requested && ArmPrerequisites(c, Reach(c, tr[..i]), tr[i].clk)
  }

  /** The gate is armed exactly when the last arm call of the run succeeded. */
  lemma {:induction false} ArmedExactly(c: Config, tr: Trace)
    ensures Reach(c, tr).armed <==> exists i :: Latest(tr, ArmCalls, i) && ArmSucceeded(c, tr, i)
  {
    hide Step, ArmPrerequisites;
    if |tr| > 0 {
      var p, n := Init(tr), |tr| - 1;
      ArmedExactly(c, p);
      WritesMission(c, Reach(c, p), tr[n].clk, tr[n].e);
      if tr[n].e.SetArm? {
        assert Latest(tr, ArmCalls, n);
        assert forall i :: Latest(tr, ArmCalls, i) ==> i == n;
      } else {
        forall i ensures Latest(tr, ArmCalls, i) == Latest(p, ArmCalls, i) { }
        forall i | Latest(p, ArmCalls, i) ensures ArmSucceeded(c, tr, i) == ArmSucceeded(c, p, i) {
          assert p[..i] == tr[..i];
        }
      }
    }
  }

  // ----- Fail closed -----

  // Message i is the last one on its topic and arrived within the timeout.
  ghost predicate Recent(tr: Trace, t: Topic, i: int, clk: Clock, timeout: real) {
    Latest(tr, t, i) && !Stale(Some(StampOf(t, tr[i].clk)), StampOf(t, clk), timeout)
  }

  lemma {:induction false} RecentFromStamp(tr: Trace, t: Topic, clk: Clock, timeout: real)
    requires !Stale(StampOn(tr, t), StampOf(t, clk), timeout)
    ensures LastOn(tr, t).Some?
    ensures exists i :: Recent(tr, t, i, clk, timeout) && tr[i] == LastOn(tr, t).value
  {
    LastOnIsLatest(tr, t);
    var i :| Latest(tr, t, i) && tr[i] == LastOn(tr, t).value;
    assert Recent(tr, t, i, clk, timeout);
  }

  // What a ready gate has checked, field by field.
  lemma {:induction false} ReadyState(c: Config, s: State, clk: Clock)
    requires c.heartbeatRequired && c.leaseRequired && Moving(c, s, clk)
    ensures s.armed && s.operator.present && s.goal.active && s.commands.last.Some?
    ensures !Stale(s.operator.time, clk.ros, c.heartbeatTimeout) && !Stale(s.goal.leaseTime, clk.ros, c.leaseTimeout)
    ensures ChassisReady(c, s, clk.mono) && ObstaclesReady(c, s, clk.ros)
    ensures !Stale(s.loc.time, clk.ros, c.localizationTimeout) && s.loc.fitness.Finite? && !s.loc.hysteresis.blocked
    ensures !Stale(s.odom.time, clk.ros, c.odomTimeout) && !Stale(s.commands.time, clk.ros, c.commandTimeout)
  {
  }

  ghost predicate MissionAlive(c: Config, tr: Trace, clk: Clock) {
    && (exists i :: Latest(tr, ArmCalls, i) && ArmSucceeded(c, tr, i))
    && (exists i :: Recent(tr, Heartbeats, i, clk, c.heartbeatTimeout) && tr[i].e.present)
    && (exists i :: Recent(tr, GoalLeases, i, clk, c.leaseTimeout) && tr[i].e.active)
  }

  ghost predicate ChassisAlive(c: Config, tr: Trace, clk: Clock) {
    && CountOn(tr, ChassisStates) >= 3
    && exists i :: && Recent(tr, ChassisStates, i, clk, c.chassisTimeout)
                   && tr[i].e.error == 0 && tr[i].e.vehicle == c.vehicleNormal && tr[i].e.control == c.controlCan
  }

  ghost predicate SensingAlive(c: Config, tr: Trace, clk: Clock) {
    && (exists i :: Recent(tr, OdomPoses, i, clk, c.odomTimeout))
    && (exists i :: Recent(tr, ObstacleClouds, i, clk, c.obstacleTimeout) && !tr[i].e.age.Above(c.maxObstacleAge))
    && (exists i :: Recent(tr, LocalizationUpdates, i, clk, c.localizationTimeout))
    && (exists i :: Latest(tr, FitnessScores, i) && tr[i].e.fitness.Finite?)
  }

  lemma {:induction false} MissionMustBeAlive(c: Config, tr: Trace, clk: Clock)
    requires c.heartbeatRequired && c.leaseRequired && Moving(c, Reach(c, tr), clk)
    ensures MissionAlive(c, tr, clk)
  {
    hide Reach, Moving, Stale, ArmSucceeded;
    ReadyState(c, Reach(c, tr), clk);
    ArmedExactly(c, tr);
    LinksRemembered(c, tr);
    MissionRemembered(c, tr);
    assert Stale(None, clk.ros, c.heartbeatTimeout) by { StaleNone(clk.ros, c.heartbeatTimeout); }
    RecentFromStamp(tr, Heartbeats, clk, c.heartbeatTimeout);
    RecentFromStamp(tr, GoalLeases, clk, c.leaseTimeout);
  }

  lemma {:induction false} StaleNone(now: real, timeout: real)
    ensures Stale(None, now, timeout)
  {
  }

  lemma {:induction false} ChassisMustBeAlive(c: Config, tr: Trace, clk: Clock)
    requires c.heartbeatRequired && c.leaseRequired && Moving(c, Reach(c, tr), clk)
    ensures ChassisAlive(c, tr, clk)
  {
    hide Reach, Moving;
    ReadyState(c, Reach(c, tr), clk);
    LinksRemembered(c, tr);
    RecentFromStamp(tr, ChassisStates, clk, c.chassisTimeout);
  }

  lemma {:induction false} SensingMustBeAlive(c: Config, tr: Trace, clk: Clock)
    requires c.heartbeatRequired && c.leaseRequired && Moving(c, Reach(c, tr), clk)
    ensures SensingAlive(c, tr, clk)
  {
    hide Reach, Moving;
    ReadyState(c, Reach(c, tr), clk);
    InputsRemembered(c, tr);
    MissionRemembered(c, tr);
    RecentFromStamp(tr, OdomPoses, clk, c.odomTimeout);
    RecentFromStamp(tr, ObstacleClouds, clk, c.obstacleTimeout);
    RecentFromStamp(tr, LocalizationUpdates, clk, c.localizationTimeout);
    LastOnIsLatest(tr, FitnessScores);
  }

  ghost predicate FollowsLastCommand(c: Config, tr: Trace, clk: Clock, out: Twist) {
    exists i :: Recent(tr, Cmds, i, clk, c.commandTimeout) && Bounded(c, Reach(c, tr), out, tr[i].e.cmd)
  }

  /** Fail closed, over whole runs: with the heartbeat and the lease required, a nonzero output
      means that the last arm call succeeded, that every required message arrived in time
      with acceptable content, and that the output follows the last command within its
      bounds. */
  lemma {:induction false} FailClosed(c: Config, tr: Trace, clk: Clock)
    requires c.Accepted() && c.heartbeatRequired && c.leaseRequired
    ensures var out := Output(c, Reach(c, tr), clk);
      out != STOP ==>
        && MissionAlive(c, tr, clk) && ChassisAlive(c, tr, clk) && SensingAlive(c, tr, clk)
        && FollowsLastCommand(c, tr, clk, out)
  {
    hide Reach, ReasonFor, Intended, Shaped, Bounded, MissionAlive, ChassisAlive, SensingAlive;
    var s := Reach(c, tr);
    if Output(c, s, clk) != STOP {
      OutputBounds(c, s, clk);
      assert Moving(c, s, clk);
      ReadyState(c, s, clk);
      MissionMustBeAlive(c, tr, clk);
      ChassisMustBeAlive(c, tr, clk);
      SensingMustBeAlive(c, tr, clk);
      InputsRemembered(c, tr);
      RecentFromStamp(tr, Cmds, clk, c.commandTimeout);
    }
  }
}
