/** Whole runs of the gate, read through its two motion budgets: the one-shot degraded recovery
    and the in-place spin. */
module GateBudgets {
  import opened Numbers
  import opened Runs
  import opened ReversePlan
  import opened GateModel
  import opened GateOutput
  import opened GateTraces
  import opened GateHistories

  // ----- Odometry memory -----

  function LastPose(tr: Trace): Option<Pose> {
    match LastOn(tr, OdomPoses) case None => None case Some(x) => Some(x.e.pose)
  }

  // The three odometry memories of the state agree with its latest pose.
  predicate Remembers(s: State) {
    && s.goal.lastOdom == At(s.odom.pose) && s.spin.lastYaw == Yaw(s.odom.pose)
    && (s.recovery.mode ==> s.recovery.lastYaw == Yaw(s.odom.pose))
  }

  lemma {:induction false} StepRemembers(c: Config, s: State, clk: Clock, e: Event)
    requires Remembers(s)
    ensures Remembers(Step(c, s, clk, e))
  {
    hide Fitness.Updated, Ultrasonic.Updated, Classified, ModeThresholds, ArmPrerequisites, Stale, Eligible,
         Recoverable, OpensSpin, OdomStep, PathLength, YawStep, TranslatedAway;
  }

  lemma {:induction false} MemoryKept(c: Config, tr: Trace)
    ensures Remembers(Reach(c, tr)) && Reach(c, tr).odom.pose == LastPose(tr)
  {
    hide Step, Remembers;
    if |tr| > 0 {
      MemoryKept(c, Init(tr));
      StepRemembers(c, Reach(c, Init(tr)), Last(tr).clk, Last(tr).e);
      InputsRemembered(c, tr);
    } else {
      InitialRemembers();
    }
  }

  lemma {:induction false} InitialRemembers()
    ensures Remembers(INITIAL)
  {
  }

  // ----- Degraded recovery: what the totals mean -----

  predicate StartsAt(c: Config, tr: Trace, i: int)
    requires 0 <= i < |tr|
  {
    Starts(c, Reach(c, tr[..i]), tr[i].clk, tr[i].e)
  }

  // Event k is the last start of a recovery or rising edge of a goal.
  ghost predicate LedgerOpened(c: Config, tr: Trace, k: int) {
    && 0 <= k < |tr| && (StartsAt(c, tr, k) || EdgeAt(c, tr, k))
    && forall i :: k < i < |tr| ==> !StartsAt(c, tr, i) && !EdgeAt(c, tr, i)
  }

  predicate GoalActive(tr: Trace) { LastOn(tr, GoalLeases).Some? && LastOn(tr, GoalLeases).value.e.active }

  // The turn that the last event of the run reports: the wrapped yaw difference between two
  // successive odometry poses.
  function TurnOn(c: Config, tr: Trace): real
    requires |tr| > 0
  {
    if Last(tr).e.OdomMessage? then YawStep(c, Yaw(LastPose(Init(tr))), Last(tr).e.pose.yaw) else 0.0
  }

  // The travel that it reports, under an active goal; a jump of the odometry counts as nothing.
  function TravelOn(c: Config, tr: Trace): real
    requires |tr| > 0
  {
    var before := LastPose(Init(tr));
    if Last(tr).e.OdomMessage? && GoalActive(Init(tr)) && before.Some? then
      var d := c.maths.Distance(before.value.at, Last(tr).e.pose.at);
      if d <= 0.25 then d else 0.0
    else 0.0
  }

  function RotationSince(c: Config, tr: Trace, k: int): real {
    if |tr| == 0 || |tr| <= k then 0.0 else RotationSince(c, Init(tr), k) + TurnOn(c, tr)
  }

  function TravelSince(c: Config, tr: Trace, k: int): real {
    if |tr| == 0 || |tr| <= k then 0.0 else TravelSince(c, Init(tr), k) + TravelOn(c, tr)
  }

  lemma {:induction false} WritesRecovery(c: Config, s: State, clk: Clock, e: Event)
    ensures var r, t := s.recovery, Step(c, s, clk, e).recovery;
      && (t.mode ==> r.mode || Starts(c, s, clk, e))
      && (t.mode && (Starts(c, s, clk, e) || GoalEdge(s, e)) ==> t.traveled == 0.0 && t.rotated == 0.0)
      && (t.mode && !Starts(c, s, clk, e) && !GoalEdge(s, e) ==>
            if e.OdomMessage?
            then t.traveled == r.traveled + OdomStep(c, s.goal, e.pose)
                 && t.rotated == r.rotated + YawStep(c, r.lastYaw, e.pose.yaw)
            else t.traveled == r.traveled && t.rotated == r.rotated)
  {
    hide Fitness.Updated, Ultrasonic.Updated, Classified, ModeThresholds, ArmPrerequisites, Stale,
         OpensSpin, SpinAfterOdom, OdomStep, PathLength, YawStep;
  }

  lemma {:induction false} PrefixStarts(c: Config, tr: Trace)
    requires |tr| > 0
    ensures forall i :: 0 <= i < |tr| - 1 ==> StartsAt(c, tr, i) == StartsAt(c, Init(tr), i)
    ensures StartsAt(c, tr, |tr| - 1) == Starts(c, Reach(c, Init(tr)), Last(tr).clk, Last(tr).e)
  {
    hide Reach, Starts;
    forall i | 0 <= i < |tr| - 1 ensures StartsAt(c, tr, i) == StartsAt(c, Init(tr), i) {
      assert Init(tr)[..i] == tr[..i];
    }
  }

  // The increments of the state are those of the run.
  lemma {:induction false} IncrementsAgree(c: Config, tr: Trace)
    requires |tr| > 0 && Last(tr).e.OdomMessage?
    ensures var s, pose := Reach(c, Init(tr)), Last(tr).e.pose;
            && OdomStep(c, s.goal, pose) == TravelOn(c, tr)
            && (s.recovery.mode ==> YawStep(c, s.recovery.lastYaw, pose.yaw) == TurnOn(c, tr))
            && YawStep(c, s.spin.lastYaw, pose.yaw) == TurnOn(c, tr)
  {
    hide Reach, LastOn, YawStep;
    MemoryKept(c, Init(tr));
    MissionRemembered(c, Init(tr));
  }

  ghost predicate TotalsSince(c: Config, tr: Trace, k: int, r: Recovery) {
    LedgerOpened(c, tr, k) && r.traveled == TravelSince(c, tr, k + 1) && r.rotated == RotationSince(c, tr, k + 1)
  }

  /** While a recovery is on, its totals are the sums of the odometry increments reported since
      the last start of a recovery or rising edge of a goal. */
  lemma {:induction false} RecoveryTotals(c: Config, tr: Trace)
    requires Reach(c, tr).recovery.mode
    ensures exists k :: TotalsSince(c, tr, k, Reach(c, tr).recovery)
  {
    hide Step, Starts, GoalEdge, StartsAt, EdgeAt, TravelOn, TurnOn;
    var p, n := Init(tr), |tr| - 1;
    var s, clk, e := Reach(c, p), Last(tr).clk, Last(tr).e;
    PrefixStarts(c, tr);
    PrefixEdges(c, tr);
    WritesRecovery(c, s, clk, e);
    if StartsAt(c, tr, n) || EdgeAt(c, tr, n) {
      assert LedgerOpened(c, tr, n);
      assert TotalsSince(c, tr, n, Reach(c, tr).recovery);
    } else {
      RecoveryTotals(c, p);
      var k :| TotalsSince(c, p, k, s.recovery);
      assert LedgerOpened(c, tr, k);
      if e.OdomMessage? { IncrementsAgree(c, tr); } else { NoIncrement(c, tr); }
      assert TotalsSince(c, tr, k, Reach(c, tr).recovery);
    }
  }

  lemma {:induction false} NoIncrement(c: Config, tr: Trace)
    requires |tr| > 0 && !Last(tr).e.OdomMessage?
    ensures TravelOn(c, tr) == 0.0 && TurnOn(c, tr) == 0.0
  {
  }

  /** In recovery, the chassis moves only while both sums are below their limits. */
  lemma {:induction false} RecoveryBudget(c: Config, tr: Trace, clk: Clock)
    ensures Reach(c, tr).recovery.mode && Output(c, Reach(c, tr), clk) != STOP ==>
            exists k :: && LedgerOpened(c, tr, k)
                        && TravelSince(c, tr, k + 1) < c.degradedMaxTravel
                        && RotationSince(c, tr, k + 1) < c.degradedMaxRotation
  {
    hide Reach, Output, LedgerOpened, TravelSince, RotationSince;
    WithinRecoveryLimits(c, Reach(c, tr), clk);
    if Reach(c, tr).recovery.mode {
      RecoveryTotals(c, tr);
      var k :| TotalsSince(c, tr, k, Reach(c, tr).recovery);
    }
  }

  lemma {:induction false} WithinRecoveryLimits(c: Config, s: State, clk: Clock)
    ensures s.recovery.mode && Output(c, s, clk) != STOP ==>
            s.recovery.traveled < c.degradedMaxTravel && s.recovery.rotated < c.degradedMaxRotation
  {
    hide Intended, Shaped, RearReason, ReversePathReason;
  }

  // ----- The distance travelled under a goal -----

  lemma {:induction false} WritesTravel(c: Config, s: State, clk: Clock, e: Event)
    ensures Step(c, s, clk, e).goal.traveled ==
            if GoalEdge(s, e) then 0.0
            else if e.OdomMessage? then s.goal.traveled + OdomStep(c, s.goal, e.pose) else s.goal.traveled
  {
    hide Fitness.Updated, Ultrasonic.Updated, Classified, ModeThresholds, ArmPrerequisites, Stale, Eligible, Recoverable,
         OpensSpin, SpinAfterOdom, OdomStep, PathLength, RecoveryAfterOdom, RecoveryProgress;
  }

  /** The travelled distance that the speed profile sees is the sum of the odometry steps reported
      since the rising edge of the current goal. */
  lemma {:induction false} GoalTravel(c: Config, tr: Trace, g: int)
    requires LastEdge(c, tr, g)
    ensures Reach(c, tr).goal.traveled == TravelSince(c, tr, g + 1)
  {
    hide Step, GoalEdge, EdgeAt, TravelOn;
    var p, n := Init(tr), |tr| - 1;
    var s, clk, e := Reach(c, p), Last(tr).clk, Last(tr).e;
    PrefixEdges(c, tr);
    WritesTravel(c, s, clk, e);
    if g < n {
      assert LastEdge(c, p, g);
      GoalTravel(c, p, g);
      if e.OdomMessage? { IncrementsAgree(c, tr); } else { NoIncrement(c, tr); }
    }
  }

  // ----- Degraded recovery: when it ends -----

  // Event k is the last start of a recovery.
  ghost predicate LastStart(c: Config, tr: Trace, k: int) {
    0 <= k < |tr| && StartsAt(c, tr, k) && forall i :: k < i < |tr| ==> !StartsAt(c, tr, i)
  }

  // How many of the latest fitness messages in a row, from event k on, meet the strict threshold.
  function StrictRun(c: Config, tr: Trace, k: int): nat {
    if |tr| == 0 || |tr| <= k then 0
    else if !Last(tr).e.LocalizationMessage? then StrictRun(c, Init(tr), k)
    else if Last(tr).e.fitness.AtMost(c.normal.clear) then StrictRun(c, Init(tr), k) + 1
    else 0
  }

  predicate CallsOff(e: Event) { e == GoalLease(false) || e == SetArm(false) }

  lemma {:induction false} WritesProgress(c: Config, s: State, clk: Clock, e: Event)
    ensures var r, t, starts := s.recovery, Step(c, s, clk, e).recovery, Starts(c, s, clk, e);
      var run: int := if starts then 0 else r.healthy;
      && t.mode == (&& (r.mode || starts) && !CallsOff(e)
                    && !(e.LocalizationMessage? && e.fitness.AtMost(c.normal.clear) && run + 1 >= c.normal.clearSamples))
      && (t.mode ==> t.healthy == if !e.LocalizationMessage? then run
                                  else if e.fitness.AtMost(c.normal.clear) then run + 1 else 0)
  {
    hide Fitness.Updated, Ultrasonic.Updated, Classified, ModeThresholds, ArmPrerequisites, Stale,
         OpensSpin, SpinAfterOdom, OdomStep, PathLength, YawStep;
  }

  // While a recovery is on, its counter is the strict run since its start.
  lemma {:induction false} ProgressIsRun(c: Config, tr: Trace)
    requires Reach(c, tr).recovery.mode
    ensures exists k :: LastStart(c, tr, k) && Reach(c, tr).recovery.healthy == StrictRun(c, tr, k)
  {
    hide Step, Starts, StartsAt;
    var p, n := Init(tr), |tr| - 1;
    PrefixStarts(c, tr);
    WritesProgress(c, Reach(c, p), Last(tr).clk, Last(tr).e);
    if StartsAt(c, tr, n) {
      assert LastStart(c, tr, n);
      assert StrictRun(c, p, n) == 0;
    } else {
      ProgressIsRun(c, p);
      var k :| LastStart(c, p, k) && Reach(c, p).recovery.healthy == StrictRun(c, p, k);
      assert LastStart(c, tr, k);
    }
  }

  /** A recovery ends exactly when it is called off (the goal is withdrawn or the gate disarmed) or
      when the required number of consecutive strict samples since its start is complete. */
  lemma {:induction false} RecoveryEndsExactly(c: Config, tr: Trace, x: Timed, k: int)
    requires Reach(c, tr).recovery.mode && LastStart(c, tr + [x], k) && k < |tr|
    ensures !Reach(c, tr + [x]).recovery.mode <==>
            CallsOff(x.e)
            || (x.e.LocalizationMessage? && x.e.fitness.AtMost(c.normal.clear)
                && StrictRun(c, tr + [x], k) >= c.normal.clearSamples)
  {
    hide Step, Starts, StartsAt;
    var run := tr + [x];
    assert Init(run) == tr && Last(run) == x;
    PrefixStarts(c, run);
    WritesProgress(c, Reach(c, tr), x.clk, x.e);
    ProgressIsRun(c, tr);
    var j :| LastStart(c, tr, j) && Reach(c, tr).recovery.healthy == StrictRun(c, tr, j);
    assert j == k;
  }

  // ----- Degraded recovery: how often per goal -----

  lemma {:induction false} WritesAttempt(c: Config, s: State, clk: Clock, e: Event)
    ensures Step(c, s, clk, e).recovery.attempted <==>
            || Starts(c, s, clk, e)
            || (!CallsOff(e) && if GoalEdge(s, e) then s.recovery.mode else s.recovery.attempted)
  {
    hide Fitness.Updated, Ultrasonic.Updated, Classified, ModeThresholds, ArmPrerequisites, Stale,
         OpensSpin, SpinAfterOdom, OdomStep, PathLength, YawStep;
  }

  // Event i uses up the attempt of the current goal: a recovery starts, or one is carried into
  // a new goal.
  predicate AttemptGiven(c: Config, tr: Trace, i: int)
    requires 0 <= i < |tr|
  {
    StartsAt(c, tr, i) || (EdgeAt(c, tr, i) && Reach(c, tr[..i]).recovery.mode)
  }

  // Event i gives the attempt back: a goal begins without a recovery, or the goal is withdrawn or
  // the gate disarmed.
  predicate AttemptReturned(c: Config, tr: Trace, i: int)
    requires 0 <= i < |tr|
  {
    CallsOff(tr[i].e) || (EdgeAt(c, tr, i) && !AttemptGiven(c, tr, i))
  }

  ghost predicate AttemptStands(c: Config, tr: Trace, k: int) {
    0 <= k < |tr| && AttemptGiven(c, tr, k) && forall i :: k < i < |tr| ==> !AttemptReturned(c, tr, i)
  }

  lemma {:induction false} PrefixAttempts(c: Config, tr: Trace, n: int)
    requires 0 <= n <= |tr|
    ensures forall i :: 0 <= i < n ==> AttemptGiven(c, tr[..n], i) == AttemptGiven(c, tr, i)
    ensures forall i :: 0 <= i < n ==> AttemptReturned(c, tr[..n], i) == AttemptReturned(c, tr, i)
  {
    hide Reach, Starts, GoalEdge;
    forall i | 0 <= i < n
      ensures AttemptGiven(c, tr[..n], i) == AttemptGiven(c, tr, i)
              && AttemptReturned(c, tr[..n], i) == AttemptReturned(c, tr, i)
    {
      assert tr[..n][..i] == tr[..i];
    }
  }

  lemma {:induction false} AttemptOfStep(c: Config, tr: Trace)
    requires |tr| > 0
    ensures Reach(c, tr).recovery.attempted <==>
            AttemptGiven(c, tr, |tr| - 1)
            || (!AttemptReturned(c, tr, |tr| - 1) && Reach(c, Init(tr)).recovery.attempted)
  {
    hide Step, Starts, GoalEdge;
    WritesAttempt(c, Reach(c, Init(tr)), Last(tr).clk, Last(tr).e);
    NoStartWhenCalledOff(c, Reach(c, Init(tr)), Last(tr).clk, Last(tr).e);
  }

  lemma {:induction false} NoStartWhenCalledOff(c: Config, s: State, clk: Clock, e: Event)
    ensures CallsOff(e) ==> !Starts(c, s, clk, e) && !GoalEdge(s, e)
  {
  }

  /** The attempt flag, exactly: it is set if and only if a recovery has started, or was carried into
      the goal, and the attempt has not been given back since. */
  lemma {:induction false} AttemptedExactly(c: Config, tr: Trace)
    ensures Reach(c, tr).recovery.attempted <==> exists k :: AttemptStands(c, tr, k)
  {
    hide Step, AttemptGiven, AttemptReturned;
    if |tr| > 0 {
      var p, n := Init(tr), |tr| - 1;
      AttemptedExactly(c, p);
      AttemptOfStep(c, tr);
      PrefixAttempts(c, tr, n);
      if AttemptGiven(c, tr, n) {
        assert AttemptStands(c, tr, n);
      } else {
        forall k ensures AttemptStands(c, tr, k) <==> AttemptStands(c, p, k) && !AttemptReturned(c, tr, n) { }
      }
    }
  }

  lemma {:induction false} RecoveringIsAttempt(c: Config, tr: Trace)
    ensures Reach(c, tr).recovery.mode ==> Reach(c, tr).recovery.attempted
  {
    hide Step, Starts, GoalEdge;
    if |tr| > 0 {
      RecoveringIsAttempt(c, Init(tr));
      WritesAttempt(c, Reach(c, Init(tr)), Last(tr).clk, Last(tr).e);
      WritesProgress(c, Reach(c, Init(tr)), Last(tr).clk, Last(tr).e);
    }
  }

  // From event g, a rising edge, to event j the goal stays active.
  ghost predicate KeepsGoal(c: Config, tr: Trace, g: int, j: int) {
    && 0 <= g <= j < |tr| && EdgeAt(c, tr, g)
    && forall i :: g < i <= j ==> tr[i].e != GoalLease(false)
  }

  lemma {:induction false} StaysActive(c: Config, tr: Trace, g: int, j: int, n: int)
    requires KeepsGoal(c, tr, g, j) && g < n <= j + 1
    ensures Reach(c, tr[..n]).goal.active
    decreases n
  {
    hide Step;
    var m := n - 1;
    assert Init(tr[..n]) == tr[..m];
    WritesMission(c, Reach(c, tr[..m]), tr[m].clk, tr[m].e);
    if m > g { StaysActive(c, tr, g, j, m); }
  }

  // Between events g and j a recovery started, or was carried in, and the gate has not been
  // disarmed since.
  ghost predicate Spent(c: Config, tr: Trace, g: int, j: int)
    requires 0 <= g <= j <= |tr|
  {
    exists i :: g <= i < j && AttemptGiven(c, tr, i) && forall k :: i < k < j ==> tr[k].e != SetArm(false)
  }

  // While a goal stays active only a disarm gives the attempt back.
  lemma {:induction false} ReturnedByDisarm(c: Config, tr: Trace, g: int, j: int, k: int)
    requires KeepsGoal(c, tr, g, j) && g < k < j
    ensures AttemptReturned(c, tr, k) <==> tr[k].e == SetArm(false)
  {
    hide Reach;
    StaysActive(c, tr, g, j, k);
  }

  lemma {:induction false} AttemptedIsSpent(c: Config, tr: Trace, g: int, j: int)
    requires KeepsGoal(c, tr, g, j) && g < j
    ensures Reach(c, tr[..j]).recovery.attempted <==> Spent(c, tr, g, j)
  {
    hide Reach, AttemptGiven, EdgeAt;
    AttemptedExactly(c, tr[..j]);
    PrefixAttempts(c, tr, j);
    forall k | g < k < j ensures AttemptReturned(c, tr, k) <==> tr[k].e == SetArm(false) {
      ReturnedByDisarm(c, tr, g, j, k);
    }
    if k :| AttemptStands(c, tr[..j], k) {
      var i := if k < g then g else k;
      assert AttemptGiven(c, tr, i) by { assert k < g ==> !AttemptReturned(c, tr[..j], g); }
      forall m | i < m < j ensures tr[m].e != SetArm(false) { assert !AttemptReturned(c, tr[..j], m); }
    }
    if Spent(c, tr, g, j) {
      var i :| g <= i < j && AttemptGiven(c, tr, i) && forall k :: i < k < j ==> tr[k].e != SetArm(false);
      assert AttemptStands(c, tr[..j], i);
    }
  }

  // The state in which a fitness message is judged eligible: its stamp and value already taken over.
  function Received(s: State, clk: Clock, fitness: Reading): State {
    s.(loc := s.loc.(time := Some(clk.ros), fitness := fitness))
  }

  /** Recoveries of one goal, exactly. While the goal stays active a recovery starts in just two
      ways: by an arm call that succeeds on a blocked localization above the fitness limit, or by a
      fitness message on a recoverable gate, unless a recovery has started (or was carried into the
      goal) and the gate has not been disarmed since. */
  lemma {:induction false} OneRecoveryPerGoal(c: Config, tr: Trace, g: int, j: int)
    requires KeepsGoal(c, tr, g, j) && g < j
    ensures var s, clk, e := Reach(c, tr[..j]), tr[j].clk, tr[j].e;
            StartsAt(c, tr, j) <==>
            || StartsOnArm(c, s, clk, e)
            || (&& e.LocalizationMessage? && Recoverable(c, Received(s, clk, e.fitness), clk.ros)
                && !Spent(c, tr, g, j))
  {
    hide Reach, Spent;
    AttemptedIsSpent(c, tr, g, j);
    StaysActive(c, tr, g, j, j);
    RecoveringIsAttempt(c, tr[..j]);
    StartsUnderGoal(c, Reach(c, tr[..j]), tr[j].clk, tr[j].e);
  }

  lemma {:induction false} StartsUnderGoal(c: Config, s: State, clk: Clock, e: Event)
    requires s.goal.active && (s.recovery.mode ==> s.recovery.attempted)
    ensures Starts(c, s, clk, e) <==>
            || StartsOnArm(c, s, clk, e)
            || (e.LocalizationMessage? && Recoverable(c, Received(s, clk, e.fitness), clk.ros) && !s.recovery.attempted)
  {
  }

  // ----- The spin budget -----

  // An arm call that changes nothing about being armed leaves the budget alone.
  predicate ArmResetsSpin(c: Config, s: State, clk: Clock, requested: bool) {
    if requested then !ArmPrerequisites(c, s, clk) || !s.armed else s.armed
  }

  /** The step resets the spin budget: a goal begins, an arm call is made, or the chassis has
      moved away. */
  predicate ResetsSpin(c: Config, s: State, clk: Clock, e: Event) {
    || GoalEdge(s, e)
    || (e.SetArm? && ArmResetsSpin(c, s, clk, e.requested))
    || (e.OdomMessage? && TranslatedAway(c, s.spin, e.pose))
  }

  predicate OpensSpinNow(c: Config, s: State, clk: Clock, e: Event) { e.Tick? && OpensSpin(c, s, clk) }

  lemma {:induction false} WritesSpin(c: Config, s: State, clk: Clock, e: Event)
    ensures var u, t := s.spin, Step(c, s, clk, e).spin;
      && t.active == (!ResetsSpin(c, s, clk, e) && (u.active || OpensSpinNow(c, s, clk, e)))
      && t.accumulated == (
           if ResetsSpin(c, s, clk, e) || OpensSpinNow(c, s, clk, e) then 0.0
           else if e.OdomMessage? && u.active && SmallSpinRequested(c, s.commands)
           then u.accumulated + YawStep(c, u.lastYaw, e.pose.yaw) else u.accumulated)
      && t.limitReached == (
           if ResetsSpin(c, s, clk, e) || OpensSpinNow(c, s, clk, e) then false
           else if e.OdomMessage? && u.active && u.lastYaw.Some? && SmallSpinRequested(c, s.commands)
           then u.limitReached || u.accumulated + YawStep(c, u.lastYaw, e.pose.yaw) >= c.maxSpin else u.limitReached)
      && (t.active ==> t.origin == if OpensSpinNow(c, s, clk, e) then At(s.odom.pose) else u.origin)
  {
    hide Fitness.Updated, Ultrasonic.Updated, Classified, ModeThresholds, ArmPrerequisites, Stale, Eligible, Recoverable,
         OpensSpin, OdomStep, PathLength, TranslatedAway, SmallSpinRequested, RecoveryAfterOdom, RecoveryProgress;
  }

  lemma {:induction false} YawStepNonNegative(c: Config, last: Option<real>, yaw: real)
    ensures YawStep(c, last, yaw) >= 0.0 && (last.None? ==> YawStep(c, last, yaw) == 0.0)
  {
  }

  /** The limit flag says exactly that the budget is used up, and a closed budget is unused. */
  lemma {:induction false} SpinLimitExact(c: Config, tr: Trace)
    requires c.maxSpin > 0.0
    ensures var u := Reach(c, tr).spin;
            (u.limitReached <==> u.accumulated >= c.maxSpin) && (!u.active ==> u.accumulated == 0.0)
  {
    hide Step, ResetsSpin, OpensSpinNow, SmallSpinRequested, YawStep;
    if |tr| > 0 {
      var s, e := Reach(c, Init(tr)), Last(tr).e;
      SpinLimitExact(c, Init(tr));
      WritesSpin(c, s, Last(tr).clk, e);
      if e.OdomMessage? { YawStepNonNegative(c, s.spin.lastYaw, e.pose.yaw); }
    }
  }

  predicate ResetsAt(c: Config, tr: Trace, i: int)
    requires 0 <= i < |tr|
  {
    ResetsSpin(c, Reach(c, tr[..i]), tr[i].clk, tr[i].e)
  }

  predicate OpensAt(c: Config, tr: Trace, i: int)
    requires 0 <= i < |tr|
  {
    OpensSpinNow(c, Reach(c, tr[..i]), tr[i].clk, tr[i].e)
  }

  // Event k is the tick that opened the budget, and nothing has reset it since.
  ghost predicate BudgetOpened(c: Config, tr: Trace, k: int) {
    0 <= k < |tr| && OpensAt(c, tr, k) && forall i :: k < i < |tr| ==> !ResetsAt(c, tr, i) && !OpensAt(c, tr, i)
  }

  // The last command asks for a turn on the spot.
  predicate TurnAsked(c: Config, tr: Trace) {
    var last := LastOn(tr, Cmds);
    last.Some? && Abs(last.value.e.cmd.x) < c.minLinearForTurn && Abs(last.value.e.cmd.turn) > 0.001
  }

  // The yaw reported since event k while a turn on the spot was asked for.
  function SpunSince(c: Config, tr: Trace, k: int): real {
    if |tr| == 0 || |tr| <= k then 0.0
    else SpunSince(c, Init(tr), k) + (if TurnAsked(c, Init(tr)) then TurnOn(c, tr) else 0.0)
  }

  lemma {:induction false} PrefixSpins(c: Config, tr: Trace)
    requires |tr| > 0
    ensures forall i :: 0 <= i < |tr| - 1 ==>
              ResetsAt(c, tr, i) == ResetsAt(c, Init(tr), i) && OpensAt(c, tr, i) == OpensAt(c, Init(tr), i)
    ensures ResetsAt(c, tr, |tr| - 1) == ResetsSpin(c, Reach(c, Init(tr)), Last(tr).clk, Last(tr).e)
    ensures OpensAt(c, tr, |tr| - 1) == OpensSpinNow(c, Reach(c, Init(tr)), Last(tr).clk, Last(tr).e)
  {
    hide Reach, ResetsSpin, OpensSpinNow;
    forall i | 0 <= i < |tr| - 1
      ensures ResetsAt(c, tr, i) == ResetsAt(c, Init(tr), i) && OpensAt(c, tr, i) == OpensAt(c, Init(tr), i)
    {
      assert Init(tr)[..i] == tr[..i];
    }
  }

  lemma {:induction false} TurnAskedAgrees(c: Config, tr: Trace)
    ensures SmallSpinRequested(c, Reach(c, tr).commands) == TurnAsked(c, tr)
  {
    hide Reach, LastOn;
    InputsRemembered(c, tr);
  }

  lemma {:induction false} OpeningIsFirst(c: Config, s: State, clk: Clock, e: Event)
    requires OpensSpinNow(c, s, clk, e)
    ensures !s.spin.active && !ResetsSpin(c, s, clk, e)
  {
  }

  // The budget was opened by event k, at the pose last reported before it.
  ghost predicate SpunFrom(c: Config, tr: Trace, k: int, u: Spin) {
    BudgetOpened(c, tr, k) && u.accumulated == SpunSince(c, tr, k + 1) && u.origin == At(LastPose(tr[..k]))
  }

  /** While the budget is open, its total is the wrapped yaw reported, under turn-on-the-spot
      commands, since the tick that opened it, nothing has reset it since that tick, and the
      translation that would reset it is measured from the pose at that tick. */
  lemma {:induction false} SpinTotal(c: Config, tr: Trace)
    requires Reach(c, tr).spin.active
    ensures exists k :: SpunFrom(c, tr, k, Reach(c, tr).spin)
  {
    hide Step, ResetsSpin, OpensSpinNow, ResetsAt, OpensAt, SmallSpinRequested, TurnAsked, TurnOn, YawStep;
    var p, n := Init(tr), |tr| - 1;
    var s, clk, e := Reach(c, p), Last(tr).clk, Last(tr).e;
    PrefixSpins(c, tr);
    WritesSpin(c, s, clk, e);
    if OpensAt(c, tr, n) {
      MemoryKept(c, p);
      assert SpunFrom(c, tr, n, Reach(c, tr).spin);
    } else {
      SpinTotal(c, p);
      var k :| SpunFrom(c, p, k, s.spin);
      assert p[..k] == tr[..k];
      TurnAskedAgrees(c, p);
      if e.OdomMessage? { IncrementsAgree(c, tr); } else { NoIncrement(c, tr); }
      assert SpunFrom(c, tr, k, Reach(c, tr).spin);
    }
  }

  /** The budget bounds the turning: while a turn on the spot is asked for, the chassis moves
      only if the yaw spent since the budget was opened is below the limit. */
  lemma {:induction false} SpinBudget(c: Config, tr: Trace, clk: Clock)
    requires c.maxSpin > 0.0
    ensures TurnAsked(c, tr) && Output(c, Reach(c, tr), clk) != STOP && Reach(c, tr).spin.active ==>
              exists k :: BudgetOpened(c, tr, k) && SpunSince(c, tr, k + 1) < c.maxSpin
  {
    hide Reach, Output, BudgetOpened, SpunSince, TurnAsked;
    TurnAskedAgrees(c, tr);
    SpinLimitExact(c, tr);
    if TurnAsked(c, tr) && Reach(c, tr).spin.limitReached { ExhaustedSilences(c, Reach(c, tr), clk); }
    if Reach(c, tr).spin.active {
      SpinTotal(c, tr);
      var k :| SpunFrom(c, tr, k, Reach(c, tr).spin);
    }
  }

  lemma {:induction false} ExhaustedSilences(c: Config, s: State, clk: Clock)
    requires s.spin.limitReached && SmallSpinRequested(c, s.commands)
    ensures Output(c, s, clk) == STOP
  {
    hide Intended, Shaped, RearReason, ReversePathReason;
  }

  /** A used-up budget stays used up exactly until it is reset. */
  lemma {:induction false} ExhaustionEndsExactly(c: Config, tr: Trace, x: Timed)
    requires c.maxSpin > 0.0 && Reach(c, tr).spin.limitReached
    ensures Reach(c, tr + [x]).spin.limitReached <==> !ResetsSpin(c, Reach(c, tr), x.clk, x.e)
  {
    hide Step, ResetsSpin, SmallSpinRequested, YawStep, OpensSpin;
    assert Init(tr + [x]) == tr;
    SpinLimitExact(c, tr);
    if OpensSpinNow(c, Reach(c, tr), x.clk, x.e) { OpeningIsFirst(c, Reach(c, tr), x.clk, x.e); }
    WritesSpin(c, Reach(c, tr), x.clk, x.e);
  }

  /** Once the budget is used up, every tick of every continuation of the run without a reset
      publishes a stop while a turn on the spot is asked for. */
  lemma {:induction false} ExhaustionHolds(c: Config, tr: Trace, k: nat, clk: Clock)
    requires c.maxSpin > 0.0 && k <= |tr| && Reach(c, tr[..k]).spin.limitReached
    requires forall i :: k <= i < |tr| ==> !ResetsAt(c, tr, i)
    ensures Reach(c, tr).spin.limitReached
    ensures TurnAsked(c, tr) ==> Output(c, Reach(c, tr), clk) == STOP
  {
    hide Reach, Output, ResetsSpin, TurnAsked, ResetsAt;
    if k == |tr| {
      assert tr[..k] == tr;
    } else {
      var p := Init(tr);
      assert p[..k] == tr[..k] && p + [Last(tr)] == tr;
      PrefixSpins(c, tr);
      ExhaustionHolds(c, p, k, clk);
      ExhaustionEndsExactly(c, p, Last(tr));
    }
    TurnAskedAgrees(c, tr);
    if TurnAsked(c, tr) { ExhaustedSilences(c, Reach(c, tr), clk); }
  }

  // ----- Turns that the budget does not count -----

  predicate BareTurn(out: Twist) { out.linear == 0.0 && out.angular != 0.0 }

  // The taper brings a reverse command below the smallest translation.
  predicate TaperedAway(c: Config, x: real, scale: real) {
    Saturate(x, c.maxLinear) < -0.001 && Abs(Saturate(x, c.maxLinear)) * scale < c.minLinearForTurn
  }

  predicate CappedAway(c: Config, cap: real) { c.profileEnabled && cap < c.minLinearForTurn }

  // The translation asked for does not survive the chassis limit, the taper and the speed profile.
  predicate TooSlow(c: Config, x: real, scale: real, cap: real) {
    Abs(Saturate(x, c.maxLinear)) < c.minLinearForTurn || TaperedAway(c, x, scale) || CappedAway(c, cap)
  }

  lemma {:induction false} SlowExactly(c: Config, x: real, scale: real, cap: real)
    requires c.maxLinear > 0.0 && 0.0 <= scale <= 1.0 && cap > 0.0 && c.minLinearForTurn > 0.0
    ensures Abs(LimitedLinear(c, x, scale, cap)) < c.minLinearForTurn <==> TooSlow(c, x, scale, cap)
  {
    hide Saturate;
    Shrinks(Saturate(x, c.maxLinear), scale);
    AbsTimes(Saturate(x, c.maxLinear), scale);
  }

  lemma {:induction false} AbsTimes(x: real, k: real)
    requires k >= 0.0
    ensures Abs(x * k) == Abs(x) * k
  {
    Shrinks(x, 0.0);
    if x < 0.0 { assert (-x) * k == -(x * k); }
    ProductOrder(0.0, Abs(x), k);
  }

  // A used-up budget leaves no room for a command that asks for a turn on the spot.
  lemma {:induction false} NotInPlace(c: Config, s: State, clk: Clock)
    requires s.spin.limitReached && Moving(c, s, clk)
    ensures !SmallSpinRequested(c, s.commands)
  {
    hide RearReason, ReversePathReason;
  }

  // The budget counts only where a turn on the spot can be asked for.
  lemma {:induction false} CountingNeedsThreshold(c: Config, tr: Trace)
    requires c.maxSpin > 0.0
    ensures Reach(c, tr).spin.accumulated > 0.0 || Reach(c, tr).spin.limitReached ==> c.minLinearForTurn > 0.0
  {
    hide Step, ResetsSpin, OpensSpinNow, YawStep;
    if |tr| > 0 {
      var s, e := Reach(c, Init(tr)), Last(tr).e;
      CountingNeedsThreshold(c, Init(tr));
      WritesSpin(c, s, Last(tr).clk, e);
    }
  }

  lemma {:induction false} ShapedBareTurn(c: Config, linear: real, angular: real)
    requires c.minLinearForTurn > 0.0 && c.maxSpinAngular > 0.0
    ensures BareTurn(Shaped(c, linear, angular)) <==> Abs(linear) < c.minLinearForTurn && Abs(angular) > 0.001
  {
    hide TurnLimit;
  }

  lemma {:induction false} MovingHasCommand(c: Config, s: State, clk: Clock)
    requires Moving(c, s, clk)
    ensures s.commands.last.Some?
  {
  }

  /** The budget is kept on commands, not on outputs. In every run that has used it up, a turn on the
      spot still comes out exactly when the command turns and its translation does not survive: below
      the smallest translation after the chassis limit, tapered away, or capped away. */
  lemma {:induction false} UncountedTurnExactly(c: Config, tr: Trace, clk: Clock)
    requires c.Accepted()
    ensures var s := Reach(c, tr);
      s.spin.limitReached && Moving(c, s, clk) ==>
        var k, mode := s.commands.last.value, s.recovery.mode;
        BareTurn(Output(c, s, clk)) <==>
          && Abs(LimitedAngular(c, k.turn, mode)) > 0.001
          && TooSlow(c, k.x, ReverseScale(c, s.rear, clk.ros), CurrentCap(c, s.goal, mode))
  {
    hide Reach, Moving, Output, LimitedLinear, LimitedAngular, TooSlow, CurrentCap, ReverseScale, Shaped, BareTurn;
    var s := Reach(c, tr);
    if s.spin.limitReached && Moving(c, s, clk) {
      CountingNeedsThreshold(c, tr);
      MovingHasCommand(c, s, clk);
      var k, mode := s.commands.last.value, s.recovery.mode;
      var scale, cap := ReverseScale(c, s.rear, clk.ros), CurrentCap(c, s.goal, mode);
      ScaleInUnit(c, s.rear, clk.ros);
      CapPositive(c, s.goal, mode);
      SlowExactly(c, k.x, scale, cap);
      ShapedBareTurn(c, LimitedLinear(c, k.x, scale, cap), LimitedAngular(c, k.turn, mode));
      assert Output(c, s, clk) == Shaped(c, LimitedLinear(c, k.x, scale, cap), LimitedAngular(c, k.turn, mode)) by {
        OutputWhenMoving(c, s, clk);
      }
    }
  }

  lemma {:induction false} OutputWhenMoving(c: Config, s: State, clk: Clock)
    requires Moving(c, s, clk)
    ensures var k, mode := s.commands.last.value, s.recovery.mode;
            Output(c, s, clk) == Shaped(c, LimitedLinear(c, k.x, ReverseScale(c, s.rear, clk.ros),
                                                         CurrentCap(c, s.goal, mode)),
                                        LimitedAngular(c, k.turn, mode))
  {
    hide ReasonFor, Shaped, LimitedLinear, LimitedAngular, ReverseScale, CurrentCap;
  }

  lemma {:induction false} WeakTurnVanishes(c: Config, turn: real, recovering: bool)
    requires c.Accepted() && c.maxAngular >= 0.0 && Abs(turn) <= 0.001
    ensures Abs(LimitedAngular(c, turn, recovering)) <= 0.001
  {
    SaturateMagnitude(turn, c.maxAngular);
    SaturateMagnitude(Saturate(turn, c.maxAngular), c.degradedMaxAngular);
  }

  /** Whose turns those are: the command asks for a translation that the gate passes, with a turn,
      and it loses the translation to the taper, to the speed profile, or (when the chassis limit is
      itself below the smallest translation) to the chassis limit. */
  lemma {:induction false} UncountedTurnCauses(c: Config, tr: Trace, clk: Clock)
    requires c.Accepted() && c.maxAngular >= 0.0
    ensures var s := Reach(c, tr);
      s.spin.limitReached && Moving(c, s, clk) ==>
        var k, mode := s.commands.last.value, s.recovery.mode;
        && (BareTurn(Output(c, s, clk)) ==> Abs(k.turn) > 0.001 && Abs(k.x) >= c.minLinearForTurn)
        && (BareTurn(Output(c, s, clk)) <==>
            && Abs(LimitedAngular(c, k.turn, mode)) > 0.001
            && (|| c.maxLinear < c.minLinearForTurn
                || TaperedAway(c, k.x, ReverseScale(c, s.rear, clk.ros))
                || CappedAway(c, CurrentCap(c, s.goal, mode))))
  {
    hide Reach, Moving, Output, LimitedAngular, TaperedAway, CappedAway, CurrentCap, ReverseScale, BareTurn;
    UncountedTurnExactly(c, tr, clk);
    var s := Reach(c, tr);
    if s.spin.limitReached && Moving(c, s, clk) {
      MovingHasCommand(c, s, clk);
      var k := s.commands.last.value;
      NotInPlace(c, s, clk);
      if Abs(k.turn) <= 0.001 { WeakTurnVanishes(c, k.turn, s.recovery.mode); }
      SaturateMagnitude(k.x, c.maxLinear);
    }
  }

  lemma {:induction false} CapPasses(c: Config, g: Goal, recovering: bool)
    requires c.Accepted() && c.minLinearForTurn <= c.approachLinear && c.minLinearForTurn <= c.degradedMaxLinear
    ensures !CappedAway(c, CurrentCap(c, g, recovering)) && c.minLinearForTurn <= c.maxLinear
  {
    hide SpeedProfile;
    ProfileIsMinimum(c, g.traveled, g.remaining);
  }

  /** When the gate passes its own slow speeds, as with the default parameters, only the taper is left:
      the bare turns are exactly the tapered reverse commands with a turn. */
  lemma {:induction false} UncountedTurnIsTaperedReverse(c: Config, tr: Trace, clk: Clock)
    requires c.Accepted() && c.maxAngular >= 0.0
    requires c.minLinearForTurn <= c.approachLinear && c.minLinearForTurn <= c.degradedMaxLinear
    ensures var s := Reach(c, tr);
      s.spin.limitReached && Moving(c, s, clk) ==>
        var k := s.commands.last.value;
        BareTurn(Output(c, s, clk)) <==>
          && Abs(LimitedAngular(c, k.turn, s.recovery.mode)) > 0.001
          && TaperedAway(c, k.x, ReverseScale(c, s.rear, clk.ros))
  {
    hide Reach, Moving, Output, LimitedAngular, TaperedAway, CappedAway, CurrentCap, ReverseScale, BareTurn;
    UncountedTurnCauses(c, tr, clk);
    CapPasses(c, Reach(c, tr).goal, Reach(c, tr).recovery.mode);
  }
}
