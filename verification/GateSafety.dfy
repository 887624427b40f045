/** What every published twist of every run is safe from, in one predicate. */
module GateSafety {
  import opened Numbers
  import opened GateModel
  import opened GateOutput
  import opened GateTraces
  import opened GateHistories
  import opened GateBudgets
  import opened GateEvidence

  // Every link was alive, and the output follows the last command.
  ghost predicate LinksSafe(c: Config, tr: Trace, clk: Clock, out: Twist) {
    c.heartbeatRequired && c.leaseRequired && out != STOP ==>
      && MissionAlive(c, tr, clk) && ChassisAlive(c, tr, clk) && SensingAlive(c, tr, clk)
      && FollowsLastCommand(c, tr, clk, out)
  }

  // The localization has earned its release and not lost it since.
  ghost predicate LocalizationSafe(c: Config, tr: Trace, out: Twist) {
    out != STOP ==> exists n :: Fitness.OpenSince(FitnessHistory(c, tr), n)
  }

  // Reversing needs the rear sensors, and beyond the guard threshold a confirmed straight plan.
  ghost predicate ReverseSafe(c: Config, tr: Trace, clk: Clock, out: Twist) {
    && (c.minLinearForTurn > 0.001 && out.linear < 0.0 ==>
        && c.sonarEnabled && RearHealthReported(c, tr, clk)
        && RearSafe(c, tr, LeftRanges, clk) && RearSafe(c, tr, RightRanges, clk)
        && (c.taperEnabled ==> && TaperKept(c, tr, LeftRanges, Abs(out.linear))
                               && TaperKept(c, tr, RightRanges, Abs(out.linear))))
    && (c.reverseStraightOnly && out != STOP ==>
        && var last := LastOn(tr, Cmds);
        && last.Some?
        && (last.value.e.cmd.x < -0.001 ==>
            LastPlansStraight(c, tr, c.confirmations) && exists i :: Recent(tr, PlanMessages, i, clk, c.planTimeout)))
  }

  // Turning needs room behind where the turn guard is on.
  ghost predicate TurnGuardSafe(c: Config, tr: Trace, clk: Clock, out: Twist) {
    TurnLimitsSane(c) && c.sonarEnabled && c.turnGuard && Abs(out.angular) > 0.001 ==>
      RearHealthReported(c, tr, clk) && TurnSafe(c, tr, LeftRanges, clk) && TurnSafe(c, tr, RightRanges, clk)
  }

  // Both motion budgets have something left.
  ghost predicate BudgetsSafe(c: Config, tr: Trace, out: Twist) {
    && (Reach(c, tr).recovery.mode && out != STOP ==>
        exists k :: && LedgerOpened(c, tr, k)
                    && TravelSince(c, tr, k + 1) < c.degradedMaxTravel
                    && RotationSince(c, tr, k + 1) < c.degradedMaxRotation)
    && (TurnAsked(c, tr) && Reach(c, tr).spin.active && out != STOP ==>
        exists k :: BudgetOpened(c, tr, k) && SpunSince(c, tr, k + 1) < c.maxSpin)
  }

  // Whether the chassis moves is decided by the messages received; if it does, speed and turn are exactly those that the
  // command in force stands for, in its directions, and if not, it stops.
  ghost predicate OutputExact(c: Config, tr: Trace, clk: Clock, out: Twist) {
    if !MotionEvidence(c, tr, clk) then out == STOP
    else
      && Reach(c, tr).commands.last.Some? && LastOn(tr, Cmds).Some?
      && Reach(c, tr).commands.last.value == LastOn(tr, Cmds).value.e.cmd && c.approachDistance > 0.0
      && (TurnLimitsSane(c) ==> Exact(c, Reach(c, tr), clk.ros, out))
  }

  ghost predicate SafeOutput(c: Config, tr: Trace, clk: Clock, out: Twist) {
    && LinksSafe(c, tr, clk, out) && LocalizationSafe(c, tr, out) && ReverseSafe(c, tr, clk, out)
    && TurnGuardSafe(c, tr, clk, out) && BudgetsSafe(c, tr, out) && OutputExact(c, tr, clk, out)
  }

  lemma {:induction false} OutputIsExact(c: Config, tr: Trace, clk: Clock)
    requires c.Accepted()
    ensures OutputExact(c, tr, clk, Output(c, Reach(c, tr), clk))
  {
    hide Reach, ReasonFor, MotionEvidence, Exact, Intended, Shaped;
    MovesExactly(c, tr, clk);
    InputsRemembered(c, tr);
    if Moving(c, Reach(c, tr), clk) && TurnLimitsSane(c) { OutputExactly(c, Reach(c, tr), clk); }
  }

  /** Whatever the run and the time, what a tick publishes is safe. */
  lemma {:induction false} OutputIsSafe(c: Config, tr: Trace, clk: Clock)
    requires c.Accepted()
    ensures SafeOutput(c, tr, clk, Output(c, Reach(c, tr), clk))
  {
    hide Reach, Output, MissionAlive, ChassisAlive, SensingAlive, FollowsLastCommand, RearHealthReported, RearSafe, TurnSafe,
         TaperKept, OutputExact,
         LastPlansStraight, TurnAsked, LedgerOpened, BudgetOpened, TravelSince, RotationSince, SpunSince;
    if c.heartbeatRequired && c.leaseRequired { FailClosed(c, tr, clk); }
    MotionNeedsRelease(c, tr, clk);
    if c.minLinearForTurn > 0.001 { ReverseOutputNeedsRear(c, tr, clk); }
    if c.reverseStraightOnly { ReverseNeedsStraightRoutes(c, tr, clk); }
    if TurnLimitsSane(c) && c.sonarEnabled && c.turnGuard { TurnOutputNeedsRear(c, tr, clk); }
    OutputIsExact(c, tr, clk);
    RecoveryBudget(c, tr, clk);
    SpinBudget(c, tr, clk);
  }
}
