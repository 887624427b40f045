/** What the gate decides, read from the messages of the run alone: when it is armed, when a recovery starts, under
    which thresholds a sample is judged, and when a tick moves the chassis. */
module GateEvidence {
  import opened Numbers
  import opened Runs
  import opened Ultrasonic
  import Fitness
  import opened ReversePlan
  import opened GateModel
  import opened GateOutput
  import opened GateTraces
  import opened GateHistories
  import opened GateBudgets

  // ----- The last message on a topic, in time -----

  // Message i is the last one on its topic and no older than the timeout.
  ghost predicate Heard(tr: Trace, t: Topic, i: int, clk: Clock, timeout: real) {
    Latest(tr, t, i) && timeout >= 0.0 && StampOf(t, clk) - StampOf(t, tr[i].clk) <= timeout
  }

  lemma {:induction false} LatestIsLast(tr: Trace, t: Topic, i: int)
    requires Latest(tr, t, i)
    ensures LastOn(tr, t) == Some(tr[i])
  {
    if |tr| > 0 && i < |tr| - 1 { LatestIsLast(Init(tr), t, i); }
  }

  lemma {:induction false} FreshMeans(stamp: Option<real>, now: real, timeout: real)
    ensures !Stale(stamp, now, timeout) <==> stamp.Some? && timeout >= 0.0 && now - stamp.value <= timeout
  {
  }

  // The stamp of a topic is fresh exactly when its last message was heard in time.
  lemma {:induction false} FreshIffHeard(tr: Trace, t: Topic, clk: Clock, timeout: real)
    ensures !Stale(StampOn(tr, t), StampOf(t, clk), timeout) <==> exists i :: Heard(tr, t, i, clk, timeout)
    ensures forall i :: Heard(tr, t, i, clk, timeout) ==> LastOn(tr, t) == Some(tr[i])
  {
    hide Stale;
    FreshMeans(StampOn(tr, t), StampOf(t, clk), timeout);
    LastOnIsLatest(tr, t);
    forall i | Latest(tr, t, i) ensures LastOn(tr, t) == Some(tr[i]) { LatestIsLast(tr, t, i); }
    if LastOn(tr, t).Some? {
      var i :| Latest(tr, t, i) && tr[i] == LastOn(tr, t).value;
      assert Heard(tr, t, i, clk, timeout) <==> timeout >= 0.0 && StampOf(t, clk) - StampOf(t, tr[i].clk) <= timeout;
    }
  }

  // ----- Arming -----

  // The localization has earned its release and not been blocked since.
  ghost predicate Released(c: Config, tr: Trace) { exists n :: Fitness.OpenSince(FitnessHistory(c, tr), n) }

  lemma {:induction false} ReleasedIsOpen(c: Config, tr: Trace)
    ensures Released(c, tr) <==> !Reach(c, tr).loc.hysteresis.blocked
  {
    hide Reach, Fitness.ReleaseEarned;
    var h := FitnessHistory(c, tr);
    HysteresisIsHistory(c, tr);
    assert h[..|h|] == h;
    if !Fitness.Fold(h).blocked { Fitness.OpenNeedsRelease(h); }
    if n :| Fitness.OpenSince(h, n) { assert !Fitness.BlockedBefore(h, |h|); }
  }

  ghost predicate LinksHeard(c: Config, tr: Trace, clk: Clock) {
    && (c.heartbeatRequired ==> exists i :: Heard(tr, Heartbeats, i, clk, c.heartbeatTimeout) && tr[i].e.present)
    && CountOn(tr, ChassisStates) >= 3
    && (exists i :: && Heard(tr, ChassisStates, i, clk, c.chassisTimeout)
                    && tr[i].e.error == 0 && tr[i].e.vehicle == c.vehicleNormal && tr[i].e.control == c.controlCan)
  }

  ghost predicate SensingHeard(c: Config, tr: Trace, clk: Clock) {
    && (exists i :: Heard(tr, LocalizationUpdates, i, clk, c.localizationTimeout))
    && (exists i :: Heard(tr, OdomPoses, i, clk, c.odomTimeout))
    && (exists i :: Heard(tr, ObstacleClouds, i, clk, c.obstacleTimeout)
                    && !tr[i].e.age.PosInf? && (tr[i].e.age.Finite? ==> tr[i].e.age.v <= c.maxObstacleAge))
  }

  // The last fitness is a number, and it is trusted or a recovery may make do with it.
  ghost predicate FitnessUsable(c: Config, tr: Trace) {
    exists i :: && Latest(tr, FitnessScores, i) && tr[i].e.fitness.Finite?
                && (Released(c, tr) || (c.degradedEnabled && tr[i].e.fitness.v <= c.terminal.clear))
  }

  ghost predicate RearHeard(c: Config, tr: Trace, clk: Clock) {
    && (exists i :: Heard(tr, SonarReports, i, clk, c.sonarTimeout) && tr[i].e.healthy)
    && (exists i :: Heard(tr, LeftRanges, i, clk, c.sonarTimeout))
    && (exists i :: Heard(tr, RightRanges, i, clk, c.sonarTimeout))
  }

  /** Everything that arming asks of the messages received. */
  ghost predicate ArmEvidence(c: Config, tr: Trace, clk: Clock) {
    LinksHeard(c, tr, clk) && SensingHeard(c, tr, clk) && FitnessUsable(c, tr) && RearHeard(c, tr, clk)
  }

  lemma {:induction false} LinksAreHeard(c: Config, tr: Trace, clk: Clock)
    ensures OperatorReady(c, Reach(c, tr), clk.ros) && ChassisReady(c, Reach(c, tr), clk.mono) <==> LinksHeard(c, tr, clk)
  {
    hide Reach, Stale, Heard, CountOn;
    LinksRemembered(c, tr);
    FreshIffHeard(tr, Heartbeats, clk, c.heartbeatTimeout);
    FreshIffHeard(tr, ChassisStates, clk, c.chassisTimeout);
  }

  lemma {:induction false} SensingIsHeard(c: Config, tr: Trace, clk: Clock)
    ensures var s := Reach(c, tr);
      var heard := && !Stale(s.loc.time, clk.ros, c.localizationTimeout) && !Stale(s.odom.time, clk.ros, c.odomTimeout)
                   && ObstaclesReady(c, s, clk.ros);
      heard <==> SensingHeard(c, tr, clk)
  {
    hide Reach, Stale, Heard;
    InputsRemembered(c, tr);
    MissionRemembered(c, tr);
    FreshIffHeard(tr, LocalizationUpdates, clk, c.localizationTimeout);
    FreshIffHeard(tr, OdomPoses, clk, c.odomTimeout);
    FreshIffHeard(tr, ObstacleClouds, clk, c.obstacleTimeout);
  }

  lemma {:induction false} FitnessIsUsable(c: Config, tr: Trace)
    ensures var l := Reach(c, tr).loc;
      l.fitness.Finite? && (l.hysteresis.blocked ==> c.degradedEnabled && l.fitness.v <= c.terminal.clear)
      <==> FitnessUsable(c, tr)
  {
    hide Reach, Released;
    MissionRemembered(c, tr);
    ReleasedIsOpen(c, tr);
    LastOnIsLatest(tr, FitnessScores);
    forall i | Latest(tr, FitnessScores, i) ensures LastOn(tr, FitnessScores) == Some(tr[i]) {
      LatestIsLast(tr, FitnessScores, i);
    }
  }

  lemma {:induction false} RearIsHeard(c: Config, tr: Trace, clk: Clock)
    ensures var r := Reach(c, tr).rear;
      var heard := && !Stale(r.healthTime, clk.ros, c.sonarTimeout) && r.healthy
                   && !Stale(r.left.time, clk.ros, c.sonarTimeout) && !Stale(r.right.time, clk.ros, c.sonarTimeout);
      heard <==> RearHeard(c, tr, clk)
  {
    hide Reach, Stale, Heard;
    RearRemembered(c, tr);
    FreshIffHeard(tr, SonarReports, clk, c.sonarTimeout);
    FreshIffHeard(tr, LeftRanges, clk, c.sonarTimeout);
    FreshIffHeard(tr, RightRanges, clk, c.sonarTimeout);
  }

  lemma {:induction false} PrerequisitesAreEvidence(c: Config, tr: Trace, clk: Clock)
    ensures ArmPrerequisites(c, Reach(c, tr), clk) <==> ArmEvidence(c, tr, clk)
  {
    hide Reach, Stale, OperatorReady, ChassisReady, ObstaclesReady, LinksHeard, SensingHeard, FitnessUsable, RearHeard;
    LinksAreHeard(c, tr, clk);
    SensingIsHeard(c, tr, clk);
    FitnessIsUsable(c, tr);
    RearIsHeard(c, tr, clk);
  }

  // The last arm call of the run asked to arm, and the messages received until then allowed it.
  ghost predicate ArmedOnEvidence(c: Config, tr: Trace) {
    exists i :: Latest(tr, ArmCalls, i) && tr[i].e.requested && ArmEvidence(c, tr[..i], tr[i].clk)
  }

  /** The gate is armed exactly when the last arm call of the run asked for it and, when it came, the messages received
      until then met every prerequisite. */
  lemma {:induction false} ArmedByMessages(c: Config, tr: Trace)
    ensures Reach(c, tr).armed <==> ArmedOnEvidence(c, tr)
  {
    hide Reach, ArmPrerequisites, ArmEvidence;
    ArmedExactly(c, tr);
    forall i | Latest(tr, ArmCalls, i)
      ensures ArmSucceeded(c, tr, i) <==> tr[i].e.requested && ArmEvidence(c, tr[..i], tr[i].clk)
    {
      PrerequisitesAreEvidence(c, tr[..i], tr[i].clk);
    }
  }

  // ----- When a recovery starts -----

  // The gate could recover from a localization that scores f: it is armed and not released, and the score is poor
  // but not too poor.
  ghost predicate Poor(c: Config, tr: Trace, f: Reading) {
    c.degradedEnabled && ArmedOnEvidence(c, tr) && !Released(c, tr) && f.Finite? && f.v <= c.terminal.clear
  }

  // A recovery started, or was carried into the goal, and the attempt has not been given back since.
  ghost predicate AttemptSpent(c: Config, tr: Trace) { exists k :: AttemptStands(c, tr, k) }

  ghost predicate StartsOnScore(c: Config, tr: Trace, x: Timed) {
    && x.e.LocalizationMessage? && GoalActive(tr) && !AttemptSpent(c, tr)
    && Poor(c, tr, x.e.fitness) && c.localizationTimeout >= 0.0
  }

  ghost predicate StartsWithGoal(c: Config, tr: Trace, x: Timed) {
    && x.e == GoalLease(true) && !GoalActive(tr) && !Reach(c, tr).recovery.mode
    && (exists i :: Latest(tr, FitnessScores, i) && Poor(c, tr, tr[i].e.fitness))
    && (exists i :: Heard(tr, LocalizationUpdates, i, x.clk, c.localizationTimeout))
  }

  ghost predicate StartsWithArming(c: Config, tr: Trace, x: Timed) {
    && x.e == SetArm(true) && ArmEvidence(c, tr, x.clk) && !Released(c, tr)
    && exists i :: Latest(tr, FitnessScores, i) && tr[i].e.fitness.Finite? && tr[i].e.fitness.v > c.maxFitness
  }

  lemma {:induction false} GoalActiveAgrees(c: Config, tr: Trace)
    ensures Reach(c, tr).goal.active <==> GoalActive(tr)
  {
    hide Reach, LastOn;
    MissionRemembered(c, tr);
  }

  lemma {:induction false} LastScore(c: Config, tr: Trace)
    ensures forall i :: Latest(tr, FitnessScores, i) ==> Reach(c, tr).loc.fitness == tr[i].e.fitness
    ensures Reach(c, tr).loc.fitness.Finite? ==> exists i :: Latest(tr, FitnessScores, i)
  {
    hide Reach;
    MissionRemembered(c, tr);
    LastOnIsLatest(tr, FitnessScores);
    forall i | Latest(tr, FitnessScores, i) ensures LastOn(tr, FitnessScores) == Some(tr[i]) {
      LatestIsLast(tr, FitnessScores, i);
    }
  }

  /** Exactly when an event starts a degraded recovery, from the messages: a poor score under an active goal with the
      attempt unspent, a goal that begins on a poor localization, or an arm call on one above the fitness limit. */
  lemma {:induction false} RecoveryStartsExactly(c: Config, tr: Trace, x: Timed)
    ensures Starts(c, Reach(c, tr), x.clk, x.e) <==>
            StartsOnScore(c, tr, x) || StartsWithGoal(c, tr, x) || StartsWithArming(c, tr, x)
  {
    hide Reach, Stale, ArmPrerequisites, ArmEvidence, ArmedOnEvidence, Released, AttemptSpent, GoalActive, Heard;
    var s := Reach(c, tr);
    GoalActiveAgrees(c, tr);
    ArmedByMessages(c, tr);
    ReleasedIsOpen(c, tr);
    AttemptedExactly(c, tr);
    AttemptSpentIs(c, tr);
    RecoveringIsAttempt(c, tr);
    PrerequisitesAreEvidence(c, tr, x.clk);
    LastScore(c, tr);
    MissionRemembered(c, tr);
    FreshIffHeard(tr, LocalizationUpdates, x.clk, c.localizationTimeout);
    FreshMeans(Some(x.clk.ros), x.clk.ros, c.localizationTimeout);
    if ArmPrerequisites(c, s, x.clk) { ArmingNeedsScore(c, s, x.clk); }
  }

  lemma {:induction false} AttemptSpentIs(c: Config, tr: Trace)
    ensures AttemptSpent(c, tr) <==> exists k :: AttemptStands(c, tr, k)
  {
  }

  lemma {:induction false} ArmingNeedsScore(c: Config, s: State, clk: Clock)
    requires ArmPrerequisites(c, s, clk)
    ensures s.loc.fitness.Finite?
  {
  }

  // ----- Under which thresholds a sample is judged -----

  /** The thresholds of a fitness sample: the terminal ones with an active goal and a short plan since its edge, during a
      recovery of an active goal those with the recovery's sample count, and the normal ones otherwise. */
  lemma {:induction false} ThresholdsExactly(c: Config, tr: Trace, x: Timed)
    requires c.maths.Valid() && x.e.LocalizationMessage?
    ensures Judged(c, Reach(c, tr), x.clk, x.e.fitness) == Fitness.Sample(x.e.fitness, x.clk.mono,
      if GoalActive(tr) && ShortPlanSinceEdge(c, tr) then c.terminal
      else if GoalActive(tr) && (Reach(c, tr).recovery.mode || StartsOnScore(c, tr, x)) then
        Fitness.Thresholds(c.terminal.block, c.terminal.clear, c.terminal.hold, c.degradedClearSamples)
      else c.normal)
  {
    hide Reach, ShortPlanSinceEdge, StartsOnScore, StartsWithGoal, StartsWithArming, GoalActive, Eligible;
    TerminalExactly(c, tr, x.clk, x.e.fitness);
    GoalActiveAgrees(c, tr);
    RecoveryStartsExactly(c, tr, x);
    OnlyByScore(c, tr, x);
  }

  lemma {:induction false} OnlyByScore(c: Config, tr: Trace, x: Timed)
    requires x.e.LocalizationMessage?
    ensures Starts(c, Reach(c, tr), x.clk, x.e) <==> StartsOnFitness(c, Reach(c, tr), x.clk, x.e.fitness)
    ensures !StartsWithGoal(c, tr, x) && !StartsWithArming(c, tr, x)
  {
    hide Reach, Eligible;
  }

  // ----- When a tick moves the chassis -----

  // A recovery that is on has travel and rotation left.
  ghost predicate RecoveryLeft(c: Config, tr: Trace) {
    Reach(c, tr).recovery.mode ==>
      exists k :: && LedgerOpened(c, tr, k)
                  && TravelSince(c, tr, k + 1) < c.degradedMaxTravel && RotationSince(c, tr, k + 1) < c.degradedMaxRotation
  }

  predicate Asks(k: Command) { Abs(k.x) > 0.001 || Abs(k.y) > 0.001 || Abs(k.turn) > 0.001 }

  // The command before the collision monitor asks for motion, and the one behind it does not.
  ghost predicate CollisionSeen(c: Config, tr: Trace, clk: Clock) {
    && (exists i :: Heard(tr, PreCmds, i, clk, c.preCollisionTimeout) && Asks(tr[i].e.cmd))
    && !(exists i :: Heard(tr, Cmds, i, clk, c.commandTimeout) && Asks(tr[i].e.cmd))
  }

  // A turn on the spot is allowed, and what the budget has counted since it was opened is below the limit.
  ghost predicate SpinLeft(c: Config, tr: Trace) {
    TurnAsked(c, tr) ==>
      c.allowSpin && (Reach(c, tr).spin.active ==> exists k :: BudgetOpened(c, tr, k) && SpunSince(c, tr, k + 1) < c.maxSpin)
  }

  // A reverse command beyond the threshold hardly turns and follows confirmed straight plans.
  ghost predicate ReverseAllowed(c: Config, tr: Trace, clk: Clock, k: Command) {
    c.reverseStraightOnly && k.x < -0.001 ==>
      && Abs(k.turn) <= c.maxReverseAngular && LastPlansStraight(c, tr, c.confirmations)
      && exists i :: Heard(tr, PlanMessages, i, clk, c.planTimeout)
  }

  // One rear sensor was heard and its history does not block the motion asked for.
  ghost predicate SectorOpen(c: Config, tr: Trace, ranges: Topic, clk: Clock, turning: bool) {
    && (exists i :: Heard(tr, ranges, i, clk, c.sonarTimeout))
    && !BatchBlocked(if turning then c.turnLimits else c.reverseLimits, RangeHistory(c, tr, ranges == LeftRanges))
  }

  // The rear sensors are consulted for the guarded direction and, with the turn guard, for turns.
  ghost predicate RearOpen(c: Config, tr: Trace, clk: Clock, k: Command) {
    c.sonarEnabled
    && (|| (c.sonarDirection == Reverse && k.x < -0.001) || (c.sonarDirection == Direction.Forward && k.x > 0.001)
        || (c.sonarDirection == Both && Abs(k.x) > 0.001) || (c.turnGuard && Abs(k.turn) > 0.001)) ==>
      && (exists i :: Heard(tr, SonarReports, i, clk, c.sonarTimeout) && tr[i].e.healthy)
      && SectorOpen(c, tr, LeftRanges, clk, Abs(k.turn) > 0.001) && SectorOpen(c, tr, RightRanges, clk, Abs(k.turn) > 0.001)
  }

  ghost predicate MissionHeard(c: Config, tr: Trace, clk: Clock) {
    && ArmedOnEvidence(c, tr) && LinksHeard(c, tr, clk)
    && (c.leaseRequired ==> exists i :: Heard(tr, GoalLeases, i, clk, c.leaseTimeout) && tr[i].e.active)
  }

  ghost predicate LocalizationHeard(c: Config, tr: Trace, clk: Clock) {
    && SensingHeard(c, tr, clk) && Released(c, tr)
    && exists i :: Latest(tr, FitnessScores, i) && tr[i].e.fitness.Finite?
  }

  ghost predicate CommandAllowed(c: Config, tr: Trace, clk: Clock) {
    && !CollisionSeen(c, tr, clk) && SpinLeft(c, tr)
    && exists i :: && Heard(tr, Cmds, i, clk, c.commandTimeout)
                   && ReverseAllowed(c, tr, clk, tr[i].e.cmd) && RearOpen(c, tr, clk, tr[i].e.cmd)
  }

  /** Everything that a tick asks of the messages received before it moves the chassis. */
  ghost predicate MotionEvidence(c: Config, tr: Trace, clk: Clock) {
    MissionHeard(c, tr, clk) && LocalizationHeard(c, tr, clk) && RecoveryLeft(c, tr) && CommandAllowed(c, tr, clk)
  }

  lemma {:induction false} MissionIsHeard(c: Config, tr: Trace, clk: Clock)
    ensures var s := Reach(c, tr);
      var alive := && s.armed && OperatorReady(c, s, clk.ros) && ChassisReady(c, s, clk.mono)
                   && (c.leaseRequired ==> !Stale(s.goal.leaseTime, clk.ros, c.leaseTimeout) && s.goal.active);
      alive <==> MissionHeard(c, tr, clk)
  {
    hide Reach, Stale, OperatorReady, ChassisReady, LinksHeard, ArmedOnEvidence, Heard;
    ArmedByMessages(c, tr);
    LinksAreHeard(c, tr, clk);
    MissionRemembered(c, tr);
    FreshIffHeard(tr, GoalLeases, clk, c.leaseTimeout);
  }

  lemma {:induction false} LocalizationIsHeard(c: Config, tr: Trace, clk: Clock)
    ensures var s := Reach(c, tr);
      var ready := && LocalizationReady(c, s.loc, clk.ros) && !Stale(s.odom.time, clk.ros, c.odomTimeout)
                   && ObstaclesReady(c, s, clk.ros);
      ready <==> LocalizationHeard(c, tr, clk)
  {
    hide Reach, Stale, ObstaclesReady, SensingHeard, Released;
    SensingIsHeard(c, tr, clk);
    ReleasedIsOpen(c, tr);
    LastScore(c, tr);
  }

  lemma {:induction false} RecoveryIsLeft(c: Config, tr: Trace)
    ensures RecoveryWithinLimits(c, Reach(c, tr).recovery) <==> RecoveryLeft(c, tr)
  {
    hide Reach, TravelSince, RotationSince, StartsAt, EdgeAt;
    if Reach(c, tr).recovery.mode {
      RecoveryTotals(c, tr);
      var k :| TotalsSince(c, tr, k, Reach(c, tr).recovery);
      forall j | LedgerOpened(c, tr, j) ensures j == k { }
    }
  }

  lemma {:induction false} CollisionIsSeen(c: Config, tr: Trace, clk: Clock)
    ensures CollisionMonitorBlocks(c, Reach(c, tr).commands, clk.ros) <==> CollisionSeen(c, tr, clk)
  {
    hide Reach, Stale, Heard;
    InputsRemembered(c, tr);
    FreshIffHeard(tr, PreCmds, clk, c.preCollisionTimeout);
    FreshIffHeard(tr, Cmds, clk, c.commandTimeout);
  }

  lemma {:induction false} SpinIsLeft(c: Config, tr: Trace)
    requires c.maxSpin > 0.0
    ensures var s := Reach(c, tr);
      (SmallSpinRequested(c, s.commands) ==> c.allowSpin && !s.spin.limitReached) <==> SpinLeft(c, tr)
  {
    hide Reach, TurnAsked, SmallSpinRequested, SpunSince, ResetsAt, OpensAt;
    TurnAskedAgrees(c, tr);
    SpinLimitExact(c, tr);
    if Reach(c, tr).spin.active {
      SpinTotal(c, tr);
      var k :| SpunFrom(c, tr, k, Reach(c, tr).spin);
      forall j | BudgetOpened(c, tr, j) ensures j == k { }
    }
  }

  lemma {:induction false} ReverseIsAllowed(c: Config, tr: Trace, clk: Clock, k: Command)
    requires c.Accepted() && Reach(c, tr).commands.last == Some(k)
    ensures ReversePermitted(c, Reach(c, tr).commands, Reach(c, tr).plans, clk.ros) <==> ReverseAllowed(c, tr, clk, k)
  {
    hide Reach, Stale, Heard, LastPlansStraight, ReverseOpen;
    ReverseOpenExactly(c, tr, clk.ros);
    FreshIffHeard(tr, PlanMessages, clk, c.planTimeout);
  }

  lemma {:induction false} RearIsOpen(c: Config, tr: Trace, clk: Clock, k: Command)
    requires Reach(c, tr).commands.last == Some(k)
    ensures RearPermitted(c, Reach(c, tr).commands, Reach(c, tr).rear, clk.ros) <==> RearOpen(c, tr, clk, k)
  {
    hide Reach, Stale, Heard, BatchBlocked, RangeHistory, Fold;
    RearRemembered(c, tr);
    LatchesFold(c, tr);
    var (left, right) := (RangeHistory(c, tr, true), RangeHistory(c, tr, false));
    LatchIsBatch(c.reverseLimits, left);
    LatchIsBatch(c.turnLimits, left);
    LatchIsBatch(c.reverseLimits, right);
    LatchIsBatch(c.turnLimits, right);
    FreshIffHeard(tr, SonarReports, clk, c.sonarTimeout);
    FreshIffHeard(tr, LeftRanges, clk, c.sonarTimeout);
    FreshIffHeard(tr, RightRanges, clk, c.sonarTimeout);
  }

  lemma {:induction false} CommandIsAllowed(c: Config, tr: Trace, clk: Clock)
    requires c.Accepted()
    ensures var s := Reach(c, tr);
      CommandPermitted(c, s, clk.ros) && s.commands.last.Some? <==> CommandAllowed(c, tr, clk)
  {
    hide Reach, Stale, Heard, CollisionMonitorBlocks, CollisionSeen, SmallSpinRequested, SpinLeft, ReversePermitted,
         ReverseAllowed, RearPermitted, RearOpen;
    var s := Reach(c, tr);
    CollisionIsSeen(c, tr, clk);
    SpinIsLeft(c, tr);
    InputsRemembered(c, tr);
    FreshIffHeard(tr, Cmds, clk, c.commandTimeout);
    if s.commands.last.Some? {
      ReverseIsAllowed(c, tr, clk, s.commands.last.value);
      RearIsOpen(c, tr, clk, s.commands.last.value);
    }
  }

  /** Exactly when a tick moves the chassis, or would if the command asked for anything: the whole cascade of reasons,
      read from the messages received, in both directions. */
  lemma {:induction false} MovesExactly(c: Config, tr: Trace, clk: Clock)
    requires c.Accepted()
    ensures Moving(c, Reach(c, tr), clk) <==> MotionEvidence(c, tr, clk)
  {
    hide Reach, Stale, OperatorReady, ChassisReady, LocalizationReady, ObstaclesReady, RecoveryWithinLimits, CommandPermitted,
         MissionHeard, LocalizationHeard, RecoveryLeft, CommandAllowed, ReasonFor;
    ReadyIff(c, Reach(c, tr), clk);
    MissionIsHeard(c, tr, clk);
    LocalizationIsHeard(c, tr, clk);
    RecoveryIsLeft(c, tr);
    CommandIsAllowed(c, tr, clk);
  }

  // ----- When the spin budget opens and is reset -----

  /** A tick opens the spin budget exactly when it is closed and the tick publishes a turn on the spot. */
  lemma {:induction false} OpensExactly(c: Config, s: State, clk: Clock)
    requires c.Accepted() && c.minLinearForTurn > 0.0
    ensures OpensSpin(c, s, clk) <==> !s.spin.active && BareTurn(Output(c, s, clk))
  {
    hide ReasonFor, Shaped, LimitedLinear, LimitedAngular, ReverseScale, CurrentCap;
    if Moving(c, s, clk) {
      OutputIntended(c, s, clk);
      var t := Intended(c, s, clk.ros);
      ShapedBareTurn(c, t.linear, t.angular);
    }
  }

  // The chassis has moved the reset distance away from where it stood when the budget was opened.
  ghost predicate MovedAway(c: Config, tr: Trace, pose: Pose) {
    exists k :: && BudgetOpened(c, tr, k) && LastPose(tr[..k]).Some?
                && c.maths.Distance(LastPose(tr[..k]).value.at, pose.at) >= c.spinResetDistance
  }

  /** Exactly what resets the budget: a goal begins, an arm call is refused or changes whether the gate is armed, or the
      chassis has moved away from where the open budget was opened. */
  lemma {:induction false} ResetsExactly(c: Config, tr: Trace, x: Timed)
    ensures ResetsSpin(c, Reach(c, tr), x.clk, x.e) <==>
      || (x.e == GoalLease(true) && !GoalActive(tr))
      || (x.e == SetArm(true) && !(ArmEvidence(c, tr, x.clk) && ArmedOnEvidence(c, tr)))
      || (x.e == SetArm(false) && ArmedOnEvidence(c, tr))
      || (x.e.OdomMessage? && Reach(c, tr).spin.active && MovedAway(c, tr, x.e.pose))
  {
    hide Reach, ArmPrerequisites, ArmEvidence, ArmedOnEvidence, GoalActive, SpunSince, ResetsAt, OpensAt, LastOn;
    GoalActiveAgrees(c, tr);
    ArmedByMessages(c, tr);
    PrerequisitesAreEvidence(c, tr, x.clk);
    if Reach(c, tr).spin.active {
      SpinTotal(c, tr);
      var k :| SpunFrom(c, tr, k, Reach(c, tr).spin);
      forall j | BudgetOpened(c, tr, j) ensures j == k { }
    }
  }
}
