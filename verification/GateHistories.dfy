/** Whole runs of the gate, read through its filters: the rear latches, the localization
    hysteresis and the plan confirmations are each a function of the messages received. */
module GateHistories {
  import opened Numbers
  import opened Runs
  import opened Ultrasonic
  import opened ReversePlan
  import opened StraightRoutes
  import opened GateModel
  import opened GateOutput
  import opened GateTraces

  // ----- Rear latches -----

  // The samples of one rear sensor in order of arrival, with self-echoes erased.
  function RangeHistory(c: Config, tr: Trace, left: bool): seq<Sample> {
    if |tr| == 0 then []
    else
      var h, e := RangeHistory(c, Init(tr), left), Last(tr).e;
      if e.RangeMessage? && e.left == left
         && !(c.selfEchoEnabled && e.range.Finite? && c.selfEchoMin <= e.range.v <= c.selfEchoMax)
      then h + [Sample(e.range, Last(tr).clk.ros)] else h
  }

  lemma {:induction false} FoldAppend(l: Limits, h: seq<Sample>, s: Sample)
    ensures Fold(l, h + [s]) == Updated(l, Fold(l, h), s)
  {
    assert (h + [s])[..|h|] == h;
  }

  lemma {:induction false} LatchesFold(c: Config, tr: Trace)
    ensures var r := Reach(c, tr).rear;
      && r.left.latch == Fold(c.reverseLimits, RangeHistory(c, tr, true))
      && r.left.turnLatch == Fold(c.turnLimits, RangeHistory(c, tr, true))
      && r.right.latch == Fold(c.reverseLimits, RangeHistory(c, tr, false))
      && r.right.turnLatch == Fold(c.turnLimits, RangeHistory(c, tr, false))
  {
    hide Step, Updated, Fold;
    if |tr| == 0 {
      EmptyFold(c.reverseLimits);
      EmptyFold(c.turnLimits);
    } else {
      var p, clk, e := Init(tr), Last(tr).clk, Last(tr).e;
      LatchesFold(c, p);
      WritesRear(c, Reach(c, p), clk, e);
      if e.RangeMessage? && !IsSelfEcho(c, e.range) {
        FoldAppend(c.reverseLimits, RangeHistory(c, p, e.left), Sample(e.range, clk.ros));
        FoldAppend(c.turnLimits, RangeHistory(c, p, e.left), Sample(e.range, clk.ros));
      }
    }
  }

  lemma {:induction false} EmptyFold(l: Limits)
    ensures Fold(l, []) == INITIAL_LATCH
  {
  }

  // One rear sensor is fit for reversing, judged from the messages of the run alone.
  ghost predicate RearSafe(c: Config, tr: Trace, ranges: Topic, clk: Clock) {
    && !BatchBlocked(c.reverseLimits, RangeHistory(c, tr, ranges == LeftRanges))
    && exists i :: Recent(tr, ranges, i, clk, c.sonarTimeout)
  }

  // One rear sensor leaves room to turn, judged from the messages of the run alone.
  ghost predicate TurnSafe(c: Config, tr: Trace, ranges: Topic, clk: Clock) {
    && !BatchBlocked(c.turnLimits, RangeHistory(c, tr, ranges == LeftRanges))
    && exists i :: Recent(tr, ranges, i, clk, c.sonarTimeout)
  }

  // The speed is within the taper of the last reading of one rear sensor.
  ghost predicate TaperKept(c: Config, tr: Trace, ranges: Topic, speed: real) {
    && c.reverseLimits.clear > c.reverseLimits.stop
    && exists i :: Latest(tr, ranges, i) && tr[i].e.RangeMessage? && WithinTaper(c, tr[i].e.range, speed)
  }

  // The last health report on the rear sensors is a good one and arrived in time.
  ghost predicate RearHealthReported(c: Config, tr: Trace, clk: Clock) {
    exists i :: Recent(tr, SonarReports, i, clk, c.sonarTimeout) && tr[i].e.healthy
  }

  /** In every run, a reverse output means that both rear sensors were enabled, reported healthy
      and heard from in time, and that neither history blocks: since its last blocking
      sample each has seen a full, long-held run of clear samples. */
  lemma {:induction false} ReverseOutputNeedsRear(c: Config, tr: Trace, clk: Clock)
    requires c.Accepted() && c.minLinearForTurn > 0.001
    ensures Output(c, Reach(c, tr), clk).linear < 0.0 ==> c.sonarEnabled && RearHealthReported(c, tr, clk)
    ensures Output(c, Reach(c, tr), clk).linear < 0.0 ==>
            RearSafe(c, tr, LeftRanges, clk) && RearSafe(c, tr, RightRanges, clk)
    ensures Output(c, Reach(c, tr), clk).linear < 0.0 && c.taperEnabled ==>
            var speed := Abs(Output(c, Reach(c, tr), clk).linear);
            TaperKept(c, tr, LeftRanges, speed) && TaperKept(c, tr, RightRanges, speed)
  {
    hide Reach, Output, ReasonFor, Fold, RangeHistory, BatchBlocked, TaperRatio, WithinTaper;
    if Output(c, Reach(c, tr), clk).linear < 0.0 {
      NegativeSpeedNeedsRear(c, Reach(c, tr), clk);
      RearRemembered(c, tr);
      LatchesFold(c, tr);
      LatchIsBatch(c.reverseLimits, RangeHistory(c, tr, true));
      LatchIsBatch(c.reverseLimits, RangeHistory(c, tr, false));
      RecentFromStamp(tr, SonarReports, clk, c.sonarTimeout);
      RecentFromStamp(tr, LeftRanges, clk, c.sonarTimeout);
      RecentFromStamp(tr, RightRanges, clk, c.sonarTimeout);
    }
  }

  /** In every run, with the turn guard on, an output that turns beyond the threshold means that both rear
      sensors were reported healthy and heard from in time, and that neither history blocks turning. */
  lemma {:induction false} TurnOutputNeedsRear(c: Config, tr: Trace, clk: Clock)
    requires c.Accepted() && TurnLimitsSane(c) && c.sonarEnabled && c.turnGuard
    ensures Abs(Output(c, Reach(c, tr), clk).angular) > 0.001 ==>
            RearHealthReported(c, tr, clk) && TurnSafe(c, tr, LeftRanges, clk) && TurnSafe(c, tr, RightRanges, clk)
  {
    hide Reach, Output, ReasonFor, Fold, RangeHistory, BatchBlocked;
    if Abs(Output(c, Reach(c, tr), clk).angular) > 0.001 {
      TurnNeedsRear(c, Reach(c, tr), clk);
      RearRemembered(c, tr);
      LatchesFold(c, tr);
      LatchIsBatch(c.turnLimits, RangeHistory(c, tr, true));
      LatchIsBatch(c.turnLimits, RangeHistory(c, tr, false));
      RecentFromStamp(tr, SonarReports, clk, c.sonarTimeout);
      RecentFromStamp(tr, LeftRanges, clk, c.sonarTimeout);
      RecentFromStamp(tr, RightRanges, clk, c.sonarTimeout);
    }
  }

  // ----- Localization hysteresis -----

  // The fitness message starts a degraded recovery before it is judged.
  predicate StartsOnFitness(c: Config, s: State, clk: Clock, fitness: Reading) {
    Eligible(c, s.(loc := s.loc.(time := Some(clk.ros), fitness := fitness)), clk.ros)
  }

  predicate GoalEdge(s: State, e: Event) { e.GoalLease? && e.active && !s.goal.active }

  predicate StartsOnEdge(c: Config, s: State, clk: Clock, e: Event) {
    GoalEdge(s, e) && !s.recovery.mode && Recoverable(c, s, clk.ros)
  }

  predicate StartsOnArm(c: Config, s: State, clk: Clock, e: Event) {
    e.SetArm? && e.requested && ArmPrerequisites(c, s, clk)
    && s.loc.hysteresis.blocked && s.loc.fitness.Above(c.maxFitness)
  }

  /** The step starts a degraded recovery. */
  predicate Starts(c: Config, s: State, clk: Clock, e: Event) {
    (e.LocalizationMessage? && StartsOnFitness(c, s, clk, e.fitness))
    || StartsOnEdge(c, s, clk, e) || StartsOnArm(c, s, clk, e)
  }

  // The mode in which a fitness message is judged.
  function ModeAt(c: Config, s: State, clk: Clock, fitness: Reading): ThresholdMode {
    SelectMode(c, s.goal, s.recovery.mode || StartsOnFitness(c, s, clk, fitness))
  }

  function Judged(c: Config, s: State, clk: Clock, fitness: Reading): Fitness.Event {
    Fitness.Sample(fitness, clk.mono, ModeThresholds(c, ModeAt(c, s, clk, fitness)))
  }

  // What one event feeds to the hysteresis.
  function Feed(c: Config, s: State, clk: Clock, e: Event): seq<Fitness.Event> {
    (if Starts(c, s, clk, e) then [Fitness.Restart] else [])
    + (if e.LocalizationMessage? then [Judged(c, s, clk, e.fitness)] else [])
  }

  function FitnessHistory(c: Config, tr: Trace): seq<Fitness.Event> {
    if |tr| == 0 then []
    else FitnessHistory(c, Init(tr)) + Feed(c, Reach(c, Init(tr)), Last(tr).clk, Last(tr).e)
  }

  lemma {:induction false} FitnessFoldAppend(h: seq<Fitness.Event>, e: Fitness.Event)
    ensures Fitness.Fold(h + [e]) == Fitness.Apply(Fitness.Fold(h), e)
  {
    assert (h + [e])[..|h|] == h;
  }

  lemma {:induction false} FitnessFoldAppendAll(h: seq<Fitness.Event>, g: seq<Fitness.Event>)
    requires |g| <= 2
    ensures Fitness.Fold(h + g) ==
            if |g| == 0 then Fitness.Fold(h)
            else if |g| == 1 then Fitness.Apply(Fitness.Fold(h), g[0])
            else Fitness.Apply(Fitness.Apply(Fitness.Fold(h), g[0]), g[1])
  {
    hide Fitness.Fold, Fitness.Apply;
    if |g| == 0 {
      assert h + g == h;
    } else {
      FitnessFoldAppend(h, g[0]);
      if |g| == 1 { assert h + g == h + [g[0]]; }
      else {
        FitnessFoldAppend(h + [g[0]], g[1]);
        assert h + g == h + [g[0]] + [g[1]];
      }
    }
  }

  lemma {:induction false} WritesHysteresis(c: Config, s: State, clk: Clock, e: Event)
    ensures var feed, b := Feed(c, s, clk, e), s.loc.hysteresis;
            Step(c, s, clk, e).loc.hysteresis ==
            if |feed| == 0 then b
            else if |feed| == 1 then Fitness.Apply(b, feed[0])
            else Fitness.Apply(Fitness.Apply(b, feed[0]), feed[1])
  {
    hide Fitness.Updated, Updated, Classified, ModeThresholds, ArmPrerequisites, Stale,
         OpensSpin, SpinAfterOdom, OdomStep, RecoveryAfterOdom, RecoveryProgress, PathLength;
  }

  /** The hysteresis of a run is the fold of its fitness history, so the exact release and
      blocking conditions of `Fitness` hold at every message of every run. */
  lemma {:induction false} HysteresisIsHistory(c: Config, tr: Trace)
    ensures Reach(c, tr).loc.hysteresis == Fitness.Fold(FitnessHistory(c, tr))
  {
    hide Step, Feed, Fitness.Apply;
    if |tr| > 0 {
      var p := Init(tr);
      var s := Reach(c, p);
      HysteresisIsHistory(c, p);
      WritesHysteresis(c, s, Last(tr).clk, Last(tr).e);
      FeedLength(c, s, Last(tr).clk, Last(tr).e);
      FitnessFoldAppendAll(FitnessHistory(c, p), Feed(c, s, Last(tr).clk, Last(tr).e));
    }
  }

  lemma {:induction false} FeedLength(c: Config, s: State, clk: Clock, e: Event)
    ensures |Feed(c, s, clk, e)| <= 2
    ensures e.LocalizationMessage? ==>
            |Feed(c, s, clk, e)| > 0 && Feed(c, s, clk, e)[|Feed(c, s, clk, e)| - 1] == Judged(c, s, clk, e.fitness)
  {
    hide Starts, Judged;
  }

  /** A fitness message releases a blocked gate if and only if it completes the required run of
      consecutive finite samples, each at most the clear threshold in force when it came. */
  lemma {:induction false} GateUnblocksExactly(c: Config, tr: Trace, clk: Clock, fitness: Reading)
    requires Reach(c, tr).loc.hysteresis.blocked
    ensures var run := tr + [Timed(clk, LocalizationMessage(fitness))];
            var h := FitnessHistory(c, run);
            !Reach(c, run).loc.hysteresis.blocked <==>
            |h| > 0 && Fitness.ReleaseEarned(h, |h|, Fitness.Required(Judged(c, Reach(c, tr), clk, fitness).t))
  {
    hide Step, Feed, ModeThresholds, ModeAt, Fitness.ReleaseEarned, Fitness.Apply;
    var s, e := Reach(c, tr), LocalizationMessage(fitness);
    var run := tr + [Timed(clk, e)];
    var (g, h) := (FitnessHistory(c, tr), FitnessHistory(c, run));
    assert Init(run) == tr;
    HysteresisIsHistory(c, tr);
    HysteresisIsHistory(c, run);
    FeedLength(c, s, clk, e);
    JudgedLast(c, s, clk, e, g, h);
    Fitness.UnblocksExactly(h, |h| - 1);
    assert h[..|h|] == h;
  }

  /** A fitness message blocks an open gate if and only if it is not finite, or the unbroken
      over-threshold run that it extends began a full hold time before it. */
  lemma {:induction false} GateBlocksExactly(c: Config, tr: Trace, clk: Clock, fitness: Reading)
    requires !Reach(c, tr).loc.hysteresis.blocked
    ensures var run := tr + [Timed(clk, LocalizationMessage(fitness))];
            var h := FitnessHistory(c, run);
            && |h| > 0 && h[|h| - 1] == Judged(c, Reach(c, tr), clk, fitness)
            && (Reach(c, run).loc.hysteresis.blocked <==>
                !fitness.Finite? || Fitness.HoldExceeded(h, |h|, h[|h| - 1].t.hold))
  {
    hide Step, Feed, ModeThresholds, ModeAt, Fitness.HoldExceeded, Fitness.Apply;
    var s, e := Reach(c, tr), LocalizationMessage(fitness);
    var run := tr + [Timed(clk, e)];
    var (g, h) := (FitnessHistory(c, tr), FitnessHistory(c, run));
    assert Init(run) == tr;
    HysteresisIsHistory(c, tr);
    HysteresisIsHistory(c, run);
    FeedLength(c, s, clk, e);
    JudgedLast(c, s, clk, e, g, h);
    Fitness.BlocksExactly(h, |h| - 1);
    assert h[..|h|] == h;
  }

  // The judged sample ends the history, and whatever precedes it in the same step leaves the
  // hysteresis blocked or open as it was.
  lemma {:induction false} JudgedLast(c: Config, s: State, clk: Clock, e: Event,
                                      g: seq<Fitness.Event>, h: seq<Fitness.Event>)
    requires e.LocalizationMessage? && h == g + Feed(c, s, clk, e)
    ensures |h| > 0 && h[|h| - 1] == Judged(c, s, clk, e.fitness)
    ensures Fitness.BlockedBefore(h, |h| - 1) == Fitness.Fold(g).blocked
  {
    hide Starts, Judged, Fitness.Fold;
    if Starts(c, s, clk, e) {
      assert h[..|h| - 1] == g + [Fitness.Restart];
      FitnessFoldAppend(g, Fitness.Restart);
    } else {
      assert h[..|h| - 1] == g;
    }
  }

  /** The chassis moves only after the localization has earned its release and has not been
      blocked since. */
  lemma {:induction false} MotionNeedsRelease(c: Config, tr: Trace, clk: Clock)
    ensures Output(c, Reach(c, tr), clk) != STOP ==> exists n :: Fitness.OpenSince(FitnessHistory(c, tr), n)
  {
    hide Reach;
    if Output(c, Reach(c, tr), clk) != STOP {
      assert !Reach(c, tr).loc.hysteresis.blocked by { hide Intended, Shaped, RearReason, ReversePathReason; }
      HysteresisIsHistory(c, tr);
      Fitness.OpenNeedsRelease(FitnessHistory(c, tr));
    }
  }

  // ----- Terminal thresholds -----

  // Event i of the run is the rising edge of a goal.
  predicate EdgeAt(c: Config, tr: Trace, i: int)
    requires 0 <= i < |tr|
  {
    GoalEdge(Reach(c, tr[..i]), tr[i].e)
  }

  // The rising edge of the current goal.
  ghost predicate LastEdge(c: Config, tr: Trace, g: int) {
    0 <= g < |tr| && EdgeAt(c, tr, g) && forall i :: g < i < |tr| ==> !EdgeAt(c, tr, i)
  }

  predicate UsableSpeedPlan(e: Event) { e.SpeedPlanMessage? && |e.poses| >= 2 }

  // Event i is the last usable speed plan, and no goal has begun since.
  ghost predicate PlanInForce(c: Config, tr: Trace, i: int) {
    && 0 <= i < |tr| && UsableSpeedPlan(tr[i].e)
    && (forall j :: i < j < |tr| ==> !UsableSpeedPlan(tr[j].e))
    && (forall j :: i <= j < |tr| ==> !EdgeAt(c, tr, j))
  }

  lemma {:induction false} WritesRemaining(c: Config, s: State, clk: Clock, e: Event)
    ensures Step(c, s, clk, e).goal.remaining ==
            if GoalEdge(s, e) then PosInf
            else if UsableSpeedPlan(e) then Finite(PathLength(c.maths, e.poses)) else s.goal.remaining
  {
    hide Fitness.Updated, Updated, Classified, ModeThresholds, ArmPrerequisites, Stale, Eligible, Recoverable,
         OpensSpin, SpinAfterOdom, OdomStep, RecoveryAfterOdom, RecoveryProgress, PathLength;
  }

  lemma {:induction false} PrefixEdges(c: Config, tr: Trace)
    requires |tr| > 0
    ensures forall i :: 0 <= i < |tr| - 1 ==> EdgeAt(c, tr, i) == EdgeAt(c, Init(tr), i)
    ensures EdgeAt(c, tr, |tr| - 1) == GoalEdge(Reach(c, Init(tr)), Last(tr).e)
  {
    hide Reach, GoalEdge;
    forall i | 0 <= i < |tr| - 1 ensures EdgeAt(c, tr, i) == EdgeAt(c, Init(tr), i) {
      assert Init(tr)[..i] == tr[..i];
    }
  }

  lemma {:induction false} ActiveHasEdge(c: Config, tr: Trace)
    requires Reach(c, tr).goal.active
    ensures exists g :: LastEdge(c, tr, g)
  {
    hide Step, EdgeAt;
    var p := Init(tr);
    PrefixEdges(c, tr);
    WritesMission(c, Reach(c, p), Last(tr).clk, Last(tr).e);
    if EdgeAt(c, tr, |tr| - 1) {
      assert LastEdge(c, tr, |tr| - 1);
    } else {
      ActiveHasEdge(c, p);
      var g :| LastEdge(c, p, g);
      assert LastEdge(c, tr, g);
    }
  }

  lemma {:induction false} RemainingHasPlan(c: Config, tr: Trace)
    requires Reach(c, tr).goal.remaining.Finite?
    ensures exists i :: PlanInForce(c, tr, i)
                        && Reach(c, tr).goal.remaining == Finite(PathLength(c.maths, tr[i].e.poses))
  {
    hide Step, EdgeAt, PathLength;
    var p, n := Init(tr), |tr| - 1;
    PrefixEdges(c, tr);
    WritesRemaining(c, Reach(c, p), Last(tr).clk, Last(tr).e);
    if UsableSpeedPlan(tr[n].e) {
      assert PlanInForce(c, tr, n);
    } else {
      RemainingHasPlan(c, p);
      var i :| PlanInForce(c, p, i) && Reach(c, p).goal.remaining == Finite(PathLength(c.maths, p[i].e.poses));
      assert PlanInForce(c, tr, i);
    }
  }

  lemma {:induction false} PlanGivesRemaining(c: Config, tr: Trace, i: int)
    requires PlanInForce(c, tr, i)
    ensures Reach(c, tr).goal.remaining == Finite(PathLength(c.maths, tr[i].e.poses))
  {
    hide Step, EdgeAt, PathLength;
    var p, n := Init(tr), |tr| - 1;
    PrefixEdges(c, tr);
    WritesRemaining(c, Reach(c, p), Last(tr).clk, Last(tr).e);
    if i < n {
      assert PlanInForce(c, p, i);
      PlanGivesRemaining(c, p, i);
    }
  }

  /** The remaining path is finite exactly when a usable speed plan has arrived and no goal has begun
      since, and then it is the length of the last such plan. */
  lemma {:induction false} RemainingExactly(c: Config, tr: Trace)
    ensures Reach(c, tr).goal.remaining.Finite? <==> exists i :: PlanInForce(c, tr, i)
    ensures forall i :: PlanInForce(c, tr, i) ==> Reach(c, tr).goal.remaining == Finite(PathLength(c.maths, tr[i].e.poses))
  {
    hide Reach, PathLength, EdgeAt;
    if Reach(c, tr).goal.remaining.Finite? { RemainingHasPlan(c, tr); }
    forall i | PlanInForce(c, tr, i)
      ensures Reach(c, tr).goal.remaining == Finite(PathLength(c.maths, tr[i].e.poses))
    {
      PlanGivesRemaining(c, tr, i);
    }
  }

  // Since the rising edge of the current goal, the last usable speed plan was a short one.
  ghost predicate ShortPlanSinceEdge(c: Config, tr: Trace) {
    exists g, i :: LastEdge(c, tr, g) && PlanInForce(c, tr, i) && g < i
                   && PathLength(c.maths, tr[i].e.poses) <= c.terminalDistance
  }

  lemma {:induction false} PathLengthNonNegative(m: Maths, poses: seq<Point>)
    requires m.Valid()
    ensures PathLength(m, poses) >= 0.0
  {
    if |poses| >= 2 { PathLengthNonNegative(m, poses[..|poses| - 1]); }
  }

  /** The loose terminal thresholds judge a sample exactly when a goal is active and a short enough
      plan has arrived for it: a plan left over from an earlier goal never loosens them. */
  lemma {:induction false} TerminalExactly(c: Config, tr: Trace, clk: Clock, fitness: Reading)
    requires c.maths.Valid()
    ensures ModeAt(c, Reach(c, tr), clk, fitness) == Terminal <==> Reach(c, tr).goal.active && ShortPlanSinceEdge(c, tr)
  {
    hide Reach, StartsOnFitness, PathLength, EdgeAt;
    var s := Reach(c, tr);
    RemainingExactly(c, tr);
    if ModeAt(c, s, clk, fitness) == Terminal {
      ActiveHasEdge(c, tr);
      var g :| LastEdge(c, tr, g);
      var i :| PlanInForce(c, tr, i);
      assert g < i;
    }
    if ShortPlanSinceEdge(c, tr) {
      var g, i :| LastEdge(c, tr, g) && PlanInForce(c, tr, i) && g < i
                  && PathLength(c.maths, tr[i].e.poses) <= c.terminalDistance;
      PathLengthNonNegative(c.maths, tr[i].e.poses);
    }
  }

  // ----- Plan confirmations -----

  // How many of the latest plan messages in a row were straight.
  function StraightRun(c: Config, tr: Trace): nat {
    if |tr| == 0 then 0
    else if !Last(tr).e.PlanMessage? then StraightRun(c, Init(tr))
    else if Classified(c.maths, c.straight, Last(tr).e.poses) then StraightRun(c, Init(tr)) + 1
    else 0
  }

  lemma {:induction false} PlansCounted(c: Config, tr: Trace)
    requires c.confirmations >= 1
    ensures var p := Reach(c, tr).plans;
            p.confirmations == MinInt(c.confirmations, StraightRun(c, tr)) && (p.straight <==> StraightRun(c, tr) > 0)
  {
    hide Step, Classified;
    if |tr| > 0 {
      PlansCounted(c, Init(tr));
      WritesLinks(c, Reach(c, Init(tr)), Last(tr).clk, Last(tr).e);
    }
  }

  // The plans of the run, in order of arrival.
  function PlansReceived(tr: Trace): seq<seq<Point>> {
    if |tr| == 0 then []
    else PlansReceived(Init(tr)) + (if Last(tr).e.PlanMessage? then [Last(tr).e.poses] else [])
  }

  // The last n plans received are all straight routes.
  ghost predicate LastPlansStraight(c: Config, tr: Trace, n: int) {
    var plans := PlansReceived(tr);
    n <= |plans| && forall k :: 0 <= |plans| - n <= k < |plans| ==> StraightRoute(c.maths, c.straight, Thin(c.maths, plans[k]))
  }

  ghost predicate LastClassified(c: Config, plans: seq<seq<Point>>, n: int) {
    n <= |plans| && forall k :: 0 <= |plans| - n <= k < |plans| ==> Classified(c.maths, c.straight, plans[k])
  }

  lemma {:induction false} LastClassifiedStep(c: Config, plans: seq<seq<Point>>, poses: seq<Point>, n: int)
    requires n >= 1
    ensures LastClassified(c, plans + [poses], n) <==>
            Classified(c.maths, c.straight, poses) && LastClassified(c, plans, n - 1)
  {
    hide Classified;
    var more, m := plans + [poses], |plans|;
    assert more[m] == poses && forall k :: 0 <= k < m ==> more[k] == plans[k];
    if LastClassified(c, more, n) {
      assert Classified(c.maths, c.straight, more[m]);
      forall k | 0 <= m - (n - 1) <= k < m ensures Classified(c.maths, c.straight, plans[k]) {
        assert Classified(c.maths, c.straight, more[k]);
      }
    }
  }

  lemma {:induction false} RunOfStraightPlans(c: Config, tr: Trace, n: int)
    ensures StraightRun(c, tr) >= n <==> LastClassified(c, PlansReceived(tr), n)
  {
    hide Classified;
    if |tr| > 0 {
      var p, e := Init(tr), Last(tr).e;
      if n <= 0 {
        assert LastClassified(c, PlansReceived(tr), n);
      } else if e.PlanMessage? {
        RunOfStraightPlans(c, p, n - 1);
        LastClassifiedStep(c, PlansReceived(p), e.poses, n);
      } else {
        RunOfStraightPlans(c, p, n);
        assert PlansReceived(tr) == PlansReceived(p);
      }
    }
  }

  /** The plan side of the reverse permission, exactly: it is open if and only if the last plan is fresh
      and the required number of latest plans were all straight routes. */
  lemma {:induction false} ReverseOpenExactly(c: Config, tr: Trace, now: real)
    requires c.Accepted()
    ensures ReverseOpen(c, Reach(c, tr).plans, now) <==>
            !Stale(StampOn(tr, PlanMessages), now, c.planTimeout) && LastPlansStraight(c, tr, c.confirmations)
  {
    hide Reach, Classified, StraightRoute, Thin, StraightRun, PlansReceived, Stale;
    PlansCounted(c, tr);
    InputsRemembered(c, tr);
    RunOfStraightPlans(c, tr, c.confirmations);
    var plans := PlansReceived(tr);
    forall k | 0 <= k < |plans|
      ensures Classified(c.maths, c.straight, plans[k]) <==> StraightRoute(c.maths, c.straight, Thin(c.maths, plans[k]))
    {
      ClassifiedExactly(c.maths, c.straight, plans[k]);
    }
  }

  /** In every run, the chassis moves under a reverse command beyond the guard threshold only when the
      required number of latest plans were all straight routes, the last of them came in time, and the
      command hardly turns. */
  lemma {:induction false} ReverseNeedsStraightRoutes(c: Config, tr: Trace, clk: Clock)
    requires c.Accepted() && c.reverseStraightOnly
    ensures Output(c, Reach(c, tr), clk) != STOP ==>
      var last := LastOn(tr, Cmds);
      && last.Some?
      && (last.value.e.cmd.x < -0.001 ==>
          && LastPlansStraight(c, tr, c.confirmations)
          && (exists i :: Recent(tr, PlanMessages, i, clk, c.planTimeout))
          && Abs(last.value.e.cmd.turn) <= c.maxReverseAngular)
  {
    hide Reach, Output, LastPlansStraight, ReverseOpen;
    var s := Reach(c, tr);
    if Output(c, s, clk) != STOP {
      OutputIsShaped(c, s, clk);
      InputsRemembered(c, tr);
      if s.commands.last.value.x < -0.001 {
        ReverseNeedsStraightPlan(c, s, clk);
        ReverseOpenExactly(c, tr, clk.ros);
        RecentFromStamp(tr, PlanMessages, clk, c.planTimeout);
      }
    }
  }

  // After its first k events, the run carries only plans that the adapter sampled from segments
  // that are long enough for the gate.
  ghost predicate OnlyAdapterPlans(c: Config, tr: Trace, k: nat) {
    forall i :: k <= i < |tr| && tr[i].e.PlanMessage? ==> IsAdapterPlan(c, tr[i].e.poses)
  }

  ghost predicate IsAdapterPlan(c: Config, poses: seq<Point>) {
    exists start, target :: poses == StraightPath(c.maths, start, target)
                            && SegmentLongEnough(c, c.maths.Distance(start, target))
  }

  // A segment that the gate can take for a straight plan: a centimetre, and its minimum length.
  predicate SegmentLongEnough(c: Config, d: real) { d >= 0.01 && d + LENGTH_EPSILON >= c.straight.minLength }

  lemma {:induction false} AdapterPlanCounts(c: Config, poses: seq<Point>)
    requires c.maths.Valid() && Tolerant(c.straight) && IsAdapterPlan(c, poses)
    ensures Classified(c.maths, c.straight, poses)
  {
    var start, target :| poses == StraightPath(c.maths, start, target)
                         && SegmentLongEnough(c, c.maths.Distance(start, target));
    StraightPlanAcceptedIff(c.maths, c.straight, start, target);
  }

  lemma {:induction false} AdapterRunCounts(c: Config, tr: Trace, k: nat)
    requires c.maths.Valid() && Tolerant(c.straight) && k <= |tr| && OnlyAdapterPlans(c, tr, k)
    ensures StraightRun(c, tr) == StraightRun(c, tr[..k]) + CountOn(tr[k..], PlanMessages)
  {
    hide Classified, IsAdapterPlan;
    if |tr| > k {
      var p := Init(tr);
      AdapterRunCounts(c, p, k);
      assert p[..k] == tr[..k] && Init(tr[k..]) == p[k..];
      if Last(tr).e.PlanMessage? { AdapterPlanCounts(c, Last(tr).e.poses); }
    } else {
      assert tr[..k] == tr;
    }
  }

  /** The handshake between the two nodes: an empty plan withdraws the reverse permission at
      once, and from there on, while only the adapter's plans arrive, the permission is open
      exactly when the required number of them has arrived and the last one is fresh. */
  lemma {:induction false} ReverseHandshake(c: Config, tr: Trace, k: int, now: real)
    requires c.Accepted() && Tolerant(c.straight)
    requires 0 <= k < |tr| && tr[k].e == PlanMessage([]) && OnlyAdapterPlans(c, tr, k + 1)
    ensures ReverseOpen(c, Reach(c, tr).plans, now) <==>
            !Stale(StampOn(tr, PlanMessages), now, c.planTimeout)
            && CountOn(tr[k + 1..], PlanMessages) >= c.confirmations
  {
    hide Reach, OnlyAdapterPlans, Step;
    PlansCounted(c, tr);
    InputsRemembered(c, tr);
    AdapterRunCounts(c, tr, k + 1);
    assert Last(tr[..k + 1]) == tr[k];
    assert Thin(c.maths, []) == [];
  }
}
