/** The goal adapter: an action server that reserves one goal at a time, drives it through child
    actions, and reports success only on measured arrival. Everything outside it (measured
    poses, child results, the corridor check, cancel requests, exceptions) is arbitrary. */
module GoalAdapter {
  import opened Numbers
  import opened ReversePlan

  // ----- Settings and arrival -----

  datatype Settings = Settings(
    maths: Maths, terminalTolerance: real, finalTolerance: real, minAngle: real, maxStep: real,
    maxFinalAngle: real, confirmations: int, cycles: int, maxCorrection: real,
    directLimit: real, automaticReverse: bool, useApproachRoute: bool, terminalAngle: real,
    turnClearance: bool, terminalHandoff: bool)

  function PositionError(c: Settings, target: Point, at: Pose): real {
    c.maths.Distance(at.at, target)
  }

  function YawError(c: Settings, desired: real, at: Pose): real { c.maths.wrap(desired - at.yaw) }

  /** A measured pose inside the strict position and yaw tolerances. */
  predicate Arrived(c: Settings, goal: Pose, at: Pose) {
    PositionError(c, goal.at, at) <= c.finalTolerance && Abs(YawError(c, goal.yaw, at)) < c.minAngle
  }

  function Confirmations(c: Settings): int { MaxInt(1, c.confirmations) }

  /** The last required measurements all show arrival. */
  predicate Confirmed(c: Settings, goal: Pose, measured: seq<Pose>) {
    var n := Confirmations(c);
    |measured| >= n && forall i :: |measured| - n <= i < |measured| ==> Arrived(c, goal, measured[i])
  }

  // ... and all of them were made after the first `before` ones.
  predicate ConfirmedSince(c: Settings, goal: Pose, measured: seq<Pose>, before: nat) {
    Confirmed(c, goal, measured) && |measured| >= before + Confirmations(c)
  }

  lemma {:induction false} LaterConfirmation(c: Settings, goal: Pose, measured: seq<Pose>, before: nat, later: nat)
    requires before <= later
    ensures ConfirmedSince(c, goal, measured, later) ==> ConfirmedSince(c, goal, measured, before)
  {
  }

  // The last poses measured since, one at least and as many as are asked for, lie within the position tolerance of the
  // goal and point within the smallest angle of its heading.
  ghost predicate StandsThere(c: Settings, goal: Pose, measured: seq<Pose>, before: nat) {
    var n := if c.confirmations >= 1 then c.confirmations else 1;
    && |measured| >= before + n
    && forall i :: |measured| - n <= i < |measured| ==>
         && c.maths.Distance(measured[i].at, goal.at) <= c.finalTolerance
         && -c.minAngle < c.maths.wrap(goal.yaw - measured[i].yaw) < c.minAngle
  }

  lemma {:induction false} ConfirmedStands(c: Settings, goal: Pose, measured: seq<Pose>, before: nat)
    ensures ConfirmedSince(c, goal, measured, before) ==> StandsThere(c, goal, measured, before)
  {
    assert ConfirmedSince(c, goal, measured, before) ==>
      forall i :: |measured| - Confirmations(c) <= i < |measured| ==> Arrived(c, goal, measured[i]);
  }

  datatype RouteMode = Forward | StraightReverse

  function ChooseDirectRouteMode(forwardTurn: real, reverseTurn: real, limit: real, automaticReverse: bool)
    : Option<(RouteMode, real)>
  {
    if !automaticReverse then
      if Abs(forwardTurn) <= limit + 0.000001 then Some((Forward, forwardTurn)) else None
    else if Abs(forwardTurn) <= Abs(reverseTurn) && Abs(forwardTurn) <= limit then Some((Forward, forwardTurn))
    else if Abs(reverseTurn) <= limit then Some((StraightReverse, reverseTurn))
    else None
  }

  predicate ShouldRunTurnClearance(turn: real, minimum: real, bothSidesClear: bool, enabled: bool) {
    enabled && Abs(turn) >= minimum && !bothSidesClear
  }

  predicate FinalApproachIsUseful(directDistance: real, directTurn: real, stagingDistance: real, stagingTurn: real,
                                  approachDistance: real)
  {
    && stagingDistance + approachDistance <= directDistance + Max(0.15, 0.10 * directDistance)
    && Abs(stagingTurn) <= Abs(directTurn) + 0.52
  }

  /** How `execute` has decided to travel. */
  datatype Route = Route(direct: bool, mode: RouteMode, staged: bool, preAlign: bool, alignAfter: bool, turn: real)

  datatype Staging = Staging(at: Point, distance: real)

  // ----- The goal slot -----

  /** The part of the node that `goal_lock` guards. */
  datatype Slot = Slot(active: bool, reserved: bool, sequence: nat, id: Option<nat>)

  const EMPTY_SLOT: Slot := Slot(false, false, 0, None)

  function Reserve(s: Slot): Slot { s.(reserved := true, sequence := s.sequence + 1, id := Some(s.sequence + 1)) }

  function Occupy(s: Slot): Slot { s.(active := true, reserved := false) }

  function Release(s: Slot): Slot { s.(active := false, reserved := false, id := None) }

  predicate Free(s: Slot) { !s.active && !s.reserved }

  // A goal request that passes the other checks is accepted only by a free slot.
  function Requested(s: Slot, admissible: bool): Slot { if admissible && Free(s) then Reserve(s) else s }

  // ----- The action -----

  /** The states of an accepted goal on the action server. A goal that is executing may be asked to
      cancel at any moment; it can be reported canceled only after that. */
  datatype GoalState = Executing | Canceling | Succeeded | Canceled | Aborted

  predicate Open(g: GoalState) { g.Executing? || g.Canceling? }

  /** The result of a call that may raise. */
  datatype Outcome<+T> = Value(value: T) | Raised {
    predicate IsFailure() { Raised? }

    function PropagateFailure<U>(): Outcome<U>
      requires Raised?
    {
      Raised
    }

    function Extract(): T
      requires Value?
    {
      value
    }
  }

  // ----- Published reverse plans -----

  // The plan in force, published n times in a row.
  function Copies(plan: Option<seq<Point>>, n: nat): seq<seq<Point>> {
    if plan.None? then [] else seq(n, _ => plan.value)
  }

  // From one list of published plans to the next, only the plan in force was published, that often at least.
  ghost predicate Republished(before: seq<seq<Point>>, after: seq<seq<Point>>, plan: Option<seq<Point>>, least: nat) {
    exists n: nat :: n >= least && after == before + Copies(plan, n)
  }

  lemma {:induction false} RepublishedBy(before: seq<seq<Point>>, plan: Option<seq<Point>>, n: nat)
    ensures Republished(before, before + Copies(plan, n), plan, 0)
  {
  }

  lemma {:induction false} RepublishedTwice(a: seq<seq<Point>>, b: seq<seq<Point>>, d: seq<seq<Point>>,
                                            plan: Option<seq<Point>>, m: nat, n: nat)
    requires Republished(a, b, plan, m) && Republished(b, d, plan, n)
    ensures Republished(a, d, plan, m + n)
  {
    var i: nat :| i >= m && b == a + Copies(plan, i);
    var j: nat :| j >= n && d == b + Copies(plan, j);
    assert d == a + Copies(plan, i + j);
  }

  // A measured pose inside every tolerance that the way to a success asks about.
  predicate Inside(c: Settings, goal: Pose, at: Pose) {
    Arrived(c, goal, at) && PositionError(c, goal.at, at) <= c.terminalTolerance
    && Abs(YawError(c, goal.yaw, at)) <= c.maxFinalAngle
  }

  datatype ChildStatus = ChildSucceeded | ChildCanceled | ChildOther

  // The direction in which a clear corridor from a pose to the goal is driven, if any may be.
  function DirectChoice(c: Settings, pose: Pose, goal: Pose): Option<(RouteMode, real)> {
    var bearing := c.maths.Heading(pose.at, goal.at);
    ChooseDirectRouteMode(c.maths.wrap(bearing - pose.yaw), c.maths.wrap(c.maths.wrap(bearing + c.maths.pi) - pose.yaw),
                          c.directLimit, c.automaticReverse)
  }

  // The final heading differs too much from the travel bearing to be turned to in one bounded step.
  predicate StagingWanted(c: Settings, pose: Pose, goal: Pose) {
    c.useApproachRoute && Abs(c.maths.wrap(goal.yaw - c.maths.Heading(pose.at, goal.at))) > c.terminalAngle
  }

  function StagingTurn(c: Settings, pose: Pose, s: Staging): real {
    c.maths.wrap(c.maths.Heading(pose.at, s.at) - pose.yaw)
  }

  // Going by way of the staging pose neither lengthens the route nor asks for an unrelated large turn.
  predicate StagingUseful(c: Settings, pose: Pose, goal: Pose, s: Staging) {
    FinalApproachIsUseful(c.maths.Distance(pose.at, goal.at), c.maths.wrap(c.maths.Heading(pose.at, goal.at) - pose.yaw),
                          c.maths.Distance(pose.at, s.at), StagingTurn(c, pose, s), s.distance)
  }

  // The route through a clear corridor, with the staging pose that was found, if any.
  function RouteThrough(c: Settings, pose: Pose, goal: Pose, staging: Option<Staging>): Option<Route> {
    match DirectChoice(c, pose, goal)
    case None => None
    case Some(choice) =>
      if choice.0.StraightReverse? then Some(Route(true, StraightReverse, false, false, false, choice.1))
      else if staging.Some? && StagingUseful(c, pose, goal, staging.value) then
        Some(Route(false, Forward, true, true, true, StagingTurn(c, pose, staging.value)))
      else Some(Route(false, Forward, false, true, true, choice.1))
  }

  // ----- What the node asks the child actions to do -----

  /** What is asked on the way to the goal: a straight lead-in that makes room for a turn, a turn by an angle, a route
      of the planner to the goal or to a staging pose before it, a straight reverse over a distance, and the straight
      segment at the end. */
  datatype Command =
    LeadIn | Turn(angle: real) | PlannerGoal(staged: bool) | ReverseGoal(distance: real) | TerminalDrive

  /** What decides the way: the pose at the beginning, whether the corridor from there is clear, the staging pose that
      was found, the poses after the lead-in and before the reverse, and how the child goal ended. */
  datatype Trip = Trip(start: Option<Pose>, clear: bool, staging: Option<Staging>, leadIn: Option<Pose>,
                       reverseFrom: Option<Pose>, ended: ChildStatus)

  function RouteOf(c: Settings, goal: Pose, t: Trip): Option<Route> {
    if t.clear && t.start.Some? then RouteThrough(c, t.start.value, goal, t.staging)
    else Some(Route(false, Forward, t.staging.Some?, false, t.staging.Some?, 0.0))
  }

  // The turn from a pose to the bearing of the goal.
  function TurnTowards(c: Settings, pose: Pose, goal: Pose): real {
    c.maths.wrap(c.maths.Heading(pose.at, goal.at) - pose.yaw)
  }

  function Alignment(c: Settings, goal: Pose, route: Route, leadIn: Option<Pose>): seq<Command> {
    if route.direct then [Turn(route.turn)]
    else if !route.preAlign then []
    else if leadIn.Some? then [LeadIn, Turn(TurnTowards(c, leadIn.value, goal))]
    else [Turn(route.turn)]
  }

  function Ending(staged: bool, ended: ChildStatus): seq<Command> {
    if ended.ChildCanceled? || (ended.ChildSucceeded? && staged) then [TerminalDrive] else []
  }

  function Course(c: Settings, goal: Pose, route: Route, from: Option<Pose>, ended: ChildStatus): seq<Command> {
    if !route.direct then [PlannerGoal(route.staged)] + Ending(route.staged, ended)
    else if from.Some? then [ReverseGoal(PositionError(c, goal.at, from.value))]
    else []
  }

  // Everything asked on a way without a refusal, up to the final convergence.
  function Itinerary(c: Settings, goal: Pose, route: Route, t: Trip): seq<Command> {
    Alignment(c, goal, route, t.leadIn) + Course(c, goal, route, t.reverseFrom, t.ended)
  }

  // The two turns that a clear corridor asks for: to its direction, and to the direction opposite to it.
  function TurnAhead(c: Settings, pose: Pose, goal: Pose): real {
    c.maths.wrap(c.maths.Heading(pose.at, goal.at) - pose.yaw)
  }

  function TurnBack(c: Settings, pose: Pose, goal: Pose): real {
    c.maths.wrap(c.maths.wrap(c.maths.Heading(pose.at, goal.at) + c.maths.pi) - pose.yaw)
  }

  // Going by way of the staging pose is at most 15 centimetres or a tenth longer and turns at most 0.52 rad more.
  predicate WorthStaging(c: Settings, pose: Pose, goal: Pose, s: Staging) {
    var (direct, detour) := (c.maths.Distance(pose.at, goal.at), c.maths.Distance(pose.at, s.at) + s.distance);
    && (detour <= direct + 0.15 || detour <= 1.10 * direct)
    && Abs(TurnTowards(c, pose, Pose(s.at, 0.0))) <= Abs(TurnAhead(c, pose, goal)) + 0.52
  }

  lemma {:induction false} WorthExactly(c: Settings, pose: Pose, goal: Pose, s: Staging)
    ensures StagingUseful(c, pose, goal, s) <==> WorthStaging(c, pose, goal, s)
  {
  }

  // The direction of a clear corridor: forward within the limit, and not if the turn to reverse is smaller.
  predicate DrivesForward(c: Settings, pose: Pose, goal: Pose) {
    if c.automaticReverse then Abs(TurnAhead(c, pose, goal)) <= Min(c.directLimit, Abs(TurnBack(c, pose, goal)))
    else Abs(TurnAhead(c, pose, goal)) <= c.directLimit + 0.000001
  }

  predicate DrivesBackward(c: Settings, pose: Pose, goal: Pose) {
    c.automaticReverse && !DrivesForward(c, pose, goal) && Abs(TurnBack(c, pose, goal)) <= c.directLimit
  }

  lemma {:induction false} DirectionExactly(c: Settings, pose: Pose, goal: Pose)
    ensures DirectChoice(c, pose, goal) ==
            if DrivesForward(c, pose, goal) then Some((Forward, TurnAhead(c, pose, goal)))
            else if DrivesBackward(c, pose, goal) then Some((StraightReverse, TurnBack(c, pose, goal)))
            else None
  {
  }

  function Approach(c: Settings, pose: Pose, turn: real, goal: Pose, leadIn: Option<Pose>): seq<Command> {
    if leadIn.Some? then [LeadIn, Turn(TurnAhead(c, leadIn.value, goal))] else [Turn(turn)]
  }

  /** What is asked for on the way, case by case. Without a clear corridor the planner is asked at once. Through a clear
      one, the robot turns its back to the goal and reverses the distance left; or it turns to the goal, or to a staging
      pose that is worth it, and asks the planner. A lead-in always ends with a turn to the goal itself. */
  lemma {:induction false} ItineraryExactly(c: Settings, goal: Pose, t: Trip)
    requires t.clear ==> t.start.Some?
    ensures var route := RouteOf(c, goal, t);
      if !t.clear then
        && route.Some?
        && Itinerary(c, goal, route.value, t) == [PlannerGoal(t.staging.Some?)] + Ending(t.staging.Some?, t.ended)
      else
        var pose := t.start.value;
        if DrivesForward(c, pose, goal) then
          var staged := t.staging.Some? && WorthStaging(c, pose, goal, t.staging.value);
          var turn := if staged then TurnTowards(c, pose, Pose(t.staging.value.at, 0.0)) else TurnAhead(c, pose, goal);
          && route.Some?
          && Itinerary(c, goal, route.value, t) ==
             Approach(c, pose, turn, goal, t.leadIn) + ([PlannerGoal(staged)] + Ending(staged, t.ended))
        else if DrivesBackward(c, pose, goal) then
          && route.Some?
          && (t.reverseFrom.Some? ==>
                Itinerary(c, goal, route.value, t) ==
                [Turn(TurnBack(c, pose, goal)), ReverseGoal(c.maths.Distance(t.reverseFrom.value.at, goal.at))])
        else route.None?
  {
    hide DirectChoice, DrivesForward, DrivesBackward, StagingUseful, WorthStaging, Ending;
    if t.clear {
      DirectionExactly(c, t.start.value, goal);
      if t.staging.Some? { WorthExactly(c, t.start.value, goal, t.staging.value); }
    }
  }

  // Only more was asked for, and no reverse.
  ghost predicate AsksForward(before: seq<Command>, after: seq<Command>) {
    before <= after && forall i :: |before| <= i < |after| ==> !after[i].ReverseGoal?
  }

  // Only more was asked for, and a reverse only if a clear corridor is to be driven in reverse.
  ghost predicate ReversesByChoice(c: Settings, goal: Pose, t: Option<Trip>, before: seq<Command>, after: seq<Command>) {
    && before <= after
    && (!AsksForward(before, after) ==>
          && t.Some? && t.value.clear && t.value.start.Some?
          && DirectChoice(c, t.value.start.value, goal).Some?
          && DirectChoice(c, t.value.start.value, goal).value.0 == StraightReverse)
  }

  // ----- What happens around the node -----

  /** What has happened so far: mishaps, answers that stood in the way of the goal, measured poses, and how many of
      them had been measured when the last drive ended. */
  datatype Record = Record(mishaps: nat, refusals: nat, measured: seq<Pose>, settled: nat)

  ghost predicate Later(a: Record, b: Record) {
    && a.mishaps <= b.mishaps && a.refusals <= b.refusals && a.measured <= b.measured
    && (a.settled <= |a.measured| ==> b.settled <= |b.measured|)
  }

  // Every pose measured since is inside, or every such pose after the last drive.
  ghost predicate NeverLeft(c: Settings, goal: Pose, a: Record, b: Record) {
    forall i :: |a.measured| <= i < |b.measured| ==> Inside(c, goal, b.measured[i])
  }

  ghost predicate Rests(c: Settings, goal: Pose, a: Record, b: Record) {
    forall i :: |a.measured| <= i < |b.measured| && b.settled <= i ==> Inside(c, goal, b.measured[i])
  }

  // The pose, if any, is one of those measured since the first ones.
  ghost predicate MeasuredIn(measured: seq<Pose>, count: nat, pose: Option<Pose>) {
    pose.Some? ==> exists i :: count <= i < |measured| && measured[i] == pose.value
  }

  lemma {:induction false} MeasuredLater(a: seq<Pose>, b: seq<Pose>, count: nat, pose: Option<Pose>)
    requires MeasuredIn(a, count, pose) && a <= b
    ensures MeasuredIn(b, count, pose)
  {
    if pose.Some? {
      var i :| count <= i < |a| && a[i] == pose.value;
      assert b[i] == a[i];
    }
  }

  lemma {:induction false} OnlyPosesMatter(c: Settings, goal: Pose, a: Record, b: Record, d: Record)
    requires a.measured == b.measured
    ensures Rests(c, goal, a, d) <==> Rests(c, goal, b, d)
    ensures NeverLeft(c, goal, a, d) <==> NeverLeft(c, goal, b, d)
    ensures NeverLeft(c, goal, a, d) ==> Rests(c, goal, a, d)
  {
    hide Inside;
  }

  lemma {:induction false} DirectIsChosen(c: Settings, pose: Pose, goal: Pose, staging: Option<Staging>)
    ensures var route := RouteThrough(c, pose, goal, staging);
      route.Some? && route.value.direct ==>
        DirectChoice(c, pose, goal).Some? && DirectChoice(c, pose, goal).value.0 == StraightReverse
  {
    hide DirectChoice, StagingUseful, StagingTurn;
  }

  // Nothing went wrong since, every pose measured after the last drive is inside all tolerances, and no answer stood
  // in the way.
  ghost predicate Fair(c: Settings, goal: Pose, a: Record, b: Record) {
    && a.settled <= |a.measured| && a.mishaps == b.mishaps && a.refusals == b.refusals && Rests(c, goal, a, b)
  }

  // ... or no pose measured was ever outside.
  ghost predicate Smooth(c: Settings, goal: Pose, a: Record, b: Record) {
    && a.settled <= |a.measured| && a.mishaps == b.mishaps && Rests(c, goal, a, b)
    && (a.refusals == b.refusals || NeverLeft(c, goal, a, b))
  }

  // What is smooth since some moment is smooth since every later one.
  lemma {:induction false} SmoothSince(c: Settings, goal: Pose, a: Record, b: Record, d: Record)
    requires Later(a, b) && Later(b, d)
    ensures Smooth(c, goal, a, d) ==> Smooth(c, goal, b, d) && a.mishaps == b.mishaps
    ensures Fair(c, goal, a, d) ==>
      Fair(c, goal, b, d) && Smooth(c, goal, b, d) && a.refusals == b.refusals && a.mishaps == b.mishaps
  {
    hide Inside;
  }

  // As long as no drive is made, a time that was not smooth does not become smooth; and it never does so without a
  // pose that is outside.
  lemma {:induction false} SmoothBefore(c: Settings, goal: Pose, a: Record, b: Record, d: Record)
    requires Later(a, b) && Later(b, d)
    ensures Smooth(c, goal, a, d) && (b.settled == d.settled || NeverLeft(c, goal, a, d)) ==> Smooth(c, goal, a, b)
  {
    hide Inside;
    assert forall i :: 0 <= i < |b.measured| ==> b.measured[i] == d.measured[i];
  }

  // A pose that was outside must be followed by a drive and by no refusal.
  lemma {:induction false} OutsideBefore(c: Settings, goal: Pose, a: Record, b: Record, d: Record)
    requires Later(a, b) && Later(b, d) && |a.measured| < |b.measured|
    requires !Inside(c, goal, b.measured[|b.measured| - 1])
    ensures Smooth(c, goal, a, d) ==> a.refusals == d.refusals && d.settled >= |b.measured|
  {
    hide Inside;
    assert b.measured[|b.measured| - 1] == d.measured[|b.measured| - 1];
  }

  // A pose measured just now that is outside has not been followed by a drive yet.
  lemma {:induction false} OutsideNow(c: Settings, goal: Pose, a: Record, d: Record)
    requires Later(a, d) && |a.measured| < |d.measured|
    requires a.settled <= |a.measured| ==> d.settled < |d.measured|
    requires !Inside(c, goal, d.measured[|d.measured| - 1])
    ensures !Smooth(c, goal, a, d)
  {
    hide Inside;
  }

  class AlignedNavGoalAdapter {
    const c: Settings
    var motionArmed: bool
    var motionReady: bool
    var slot: Slot
    var motionAuthorized: bool
    var alignmentCompleted: bool
    var progressAbort: bool
    var handoffEnabled: bool
    var handoffRequested: bool
    var reversePlan: Option<seq<Point>>
    var handle: GoalState
    // What the node has done: poses it measured, reports it made on its goal, leases and
    // reverse plans it published.
    ghost var measured: seq<Pose>
    ghost var reports: seq<GoalState>
    ghost var leases: seq<bool>
    ghost var plans: seq<seq<Point>>
    // The reverse plans that had been published when the last child goal was sent.
    ghost var plansAtSend: seq<seq<Point>>
    // What went wrong around it: pose lookups without an answer, and those together with exceptions, cancel
    // requests and waits for the first costmap that ended without one.
    ghost var misses: nat
    ghost var mishaps: nat
    // Answers that stood in the way of the goal: no action server, a child goal refused or cancelled without a
    // handoff, a drive that failed, a clear corridor that leaves no direction that may be driven.
    ghost var refusals: nat
    // How many poses had been measured when the last drive ended.
    ghost var settled: nat
    // What it asked of the child actions on the way to the goal.
    ghost var commands: seq<Command>

    constructor (settings: Settings)
      ensures c == settings && slot == EMPTY_SLOT
    {
      c := settings;
      motionArmed, motionReady, motionAuthorized := false, false, false;
      slot := EMPTY_SLOT;
      alignmentCompleted, progressAbort, handoffEnabled, handoffRequested := false, false, false, false;
      reversePlan := None;
      handle := Aborted;
      measured, reports, leases, plans, plansAtSend := [], [], [], [], [];
      misses, mishaps, refusals, settled, commands := 0, 0, 0, 0, [];
    }

    method OnGoal(frame: string) returns (accepted: bool)
      modifies this`slot, this`motionAuthorized, this`leases
      ensures accepted == (motionArmed && motionReady && (frame == "" || frame == "map") && Free(old(slot)))
      ensures slot == Requested(old(slot), motionArmed && motionReady && (frame == "" || frame == "map"))
      ensures accepted ==> !motionAuthorized && leases == old(leases) + [false]
      ensures !accepted ==> motionAuthorized == old(motionAuthorized) && leases == old(leases)
    {
      if !motionArmed || !motionReady || (frame != "" && frame != "map") {
        return false;
      }
      if slot.active || slot.reserved {
        return false;
      }
      slot := slot.(sequence := slot.sequence + 1);
      slot := slot.(id := Some(slot.sequence), reserved := true);
      motionAuthorized := false;
      PublishGoalActiveLease();
      return true;
    }

    method PublishGoalActiveLease()
      modifies this`leases
      ensures leases == old(leases) + [slot.active]
    {
      leases := leases + [slot.active];
    }

    method SetMotionAuthorized(authorized: bool)
      modifies this`motionAuthorized, this`leases
      ensures motionAuthorized == authorized && leases == old(leases) + [slot.active]
    {
      motionAuthorized := authorized;
      PublishGoalActiveLease();
    }

    method PublishDirectReversePlan()
      modifies this`plans
      ensures plans == if reversePlan.Some? then old(plans) + [reversePlan.value] else old(plans)
    {
      if reversePlan.Some? {
        plans := plans + [reversePlan.value];
      }
    }

    // The timer that keeps the plan fresh: it may fire any number of times.
    method ReversePlanTimer()
      modifies this`plans
      ensures Republished(old(plans), plans, reversePlan, 0)
    {
      ghost var n: nat := *;
      RepublishedBy(plans, reversePlan, n);
      plans := plans + Copies(reversePlan, n);
    }

    method ClearDirectReversePlan()
      modifies this`plans
      ensures plans == old(plans) + [[]]
    {
      plans := plans + [[]];
    }

    // ----- The environment -----

    ghost function Seen(): Record
      reads this`mishaps, this`refusals, this`measured, this`settled
    {
      Record(mishaps, refusals, measured, settled)
    }

    // Since an earlier moment the record only grew, and without a mishap no cancellation came.
    ghost predicate GrewFrom(earlier: Record, handleThen: GoalState)
      reads this`mishaps, this`refusals, this`measured, this`settled, this`handle
    {
      OnlyGrew(earlier, handleThen) && (Open(handleThen) ==> Open(handle))
    }

    ghost predicate OnlyGrew(earlier: Record, handleThen: GoalState)
      reads this`mishaps, this`refusals, this`measured, this`settled, this`handle
    {
      && Later(earlier, Seen())
      && (mishaps == earlier.mishaps && handleThen == Executing && Open(handle) ==> handle == Executing)
    }

    // Time has passed: mishaps and refusals only grew, and without a mishap no cancellation came.
    ghost predicate Waited(mishapsThen: nat, refusalsThen: nat, handleThen: GoalState)
      reads this`mishaps, this`refusals, this`handle
    {
      && mishapsThen <= mishaps && refusalsThen <= refusals && (Open(handleThen) ==> Open(handle))
      && (mishaps == mishapsThen && handleThen == Executing ==> handle == Executing)
    }

    // Time passes: a cancel request may arrive.
    method Await()
      modifies this`handle, this`mishaps
      ensures || (handle == old(handle) && mishaps == old(mishaps))
              || (&& old(handle) == Executing && handle == Canceling
                  && mishaps == old(mishaps) + 1)
    {
      var requested: bool := *;
      if requested && handle == Executing {
        handle := Canceling;
        mishaps := mishaps + 1;
      }
    }

    // A call into the surroundings that may raise.
    method Call() returns (r: Outcome<()>)
      modifies this`handle, this`mishaps
      ensures Waited(old(mishaps), old(refusals), old(handle))
      ensures r.Raised? ==> mishaps > old(mishaps)
    {
      Await();
      var raised: bool := *;
      if raised {
        mishaps := mishaps + 1;
        return Raised;
      }
      return Value(());
    }

    method CancelRequested() returns (r: bool)
      modifies this`handle, this`mishaps
      ensures Waited(old(mishaps), old(refusals), old(handle))
      ensures || (handle == old(handle) && mishaps == old(mishaps))
              || (old(handle) == Executing && handle == Canceling && mishaps == old(mishaps) + 1)
      ensures r == (handle == Canceling)
    {
      Await();
      r := handle == Canceling;
    }

    method CurrentBasePose() returns (r: Outcome<Option<Pose>>)
      modifies this`handle, this`mishaps, this`measured, this`misses
      ensures GrewFrom(old(Seen()), old(handle))
      ensures measured == if r.Value? && r.value.Some? then old(measured) + [r.value.value] else old(measured)
      ensures misses == old(misses) + (if r == Value(None) then 1 else 0)
      ensures r.Raised? || r == Value(None) ==> mishaps > old(mishaps)
    {
      var _ :- Call();
      var pose: Option<Pose> := *;
      if pose.Some? {
        measured := measured + [pose.value];
      } else {
        misses, mishaps := misses + 1, mishaps + 1;
        pose := None;
      }
      return Value(pose);
    }

    // A child action, or a drive made of child actions: it may take any time, measure any poses,
    // publish what it likes, be cancelled, fail or raise.
    method RunChild() returns (r: Outcome<bool>)
      modifies this`handle, this`mishaps, this`measured, this`misses, this`refusals, this`settled,
               this`motionAuthorized, this`leases, this`plans, this`reversePlan,
               this`progressAbort, this`handoffRequested
      ensures GrewFrom(old(Seen()), old(handle))
      ensures r.Raised? ==> mishaps > old(mishaps)
      ensures r.Value? ==> refusals == old(refusals) + (if r.value then 0 else 1) && settled == |measured|
    {
      ghost var more: seq<Pose> := *;
      ghost var failed: int := *;
      measured := measured + more;
      settled := |measured|;
      if failed > 0 {
        misses, mishaps := misses + failed, mishaps + failed;
      }
      leases, plans, reversePlan := *, *, *;
      motionAuthorized, progressAbort, handoffRequested := *, *, *;
      var _ :- Call();
      var succeeded: bool := *;
      refusals := refusals + (if succeeded then 0 else 1);
      return Value(succeeded);
    }

    // A child action that is part of the way to the goal.
    method Drive(ghost what: Command) returns (r: Outcome<bool>)
      modifies this`handle, this`mishaps, this`measured, this`misses, this`refusals, this`settled, this`commands,
               this`motionAuthorized, this`leases, this`plans, this`reversePlan,
               this`progressAbort, this`handoffRequested
      ensures GrewFrom(old(Seen()), old(handle)) && commands == old(commands) + [what]
      ensures r.Raised? ==> mishaps > old(mishaps)
      ensures r.Value? ==> refusals == old(refusals) + (if r.value then 0 else 1) && settled == |measured|
    {
      commands := commands + [what];
      r := RunChild();
    }

    // Whether an action server is there.
    method ServerReady() returns (r: Outcome<bool>)
      modifies this`handle, this`mishaps, this`refusals
      ensures Waited(old(mishaps), old(refusals), old(handle))
      ensures if r.Value? then refusals == old(refusals) + (if r.value then 0 else 1) else mishaps > old(mishaps)
    {
      var _ :- Call();
      var ready: bool := *;
      refusals := refusals + (if ready then 0 else 1);
      return Value(ready);
    }

    // Whether it accepts a child goal; the timer may publish the reverse plan meanwhile.
    method SendChildGoal(ghost what: Command) returns (r: Outcome<bool>)
      modifies this`handle, this`mishaps, this`refusals, this`commands, this`plansAtSend, this`plans
      ensures Waited(old(mishaps), old(refusals), old(handle))
      ensures if r.Value? then refusals == old(refusals) + (if r.value then 0 else 1) else mishaps > old(mishaps)
      ensures plansAtSend == old(plans) && Republished(plansAtSend, plans, reversePlan, 0)
      ensures commands == old(commands) + [what]
    {
      commands := commands + [what];
      plansAtSend := plans;
      ReversePlanTimer();
      var _ :- Call();
      var accepted: bool := *;
      refusals := refusals + (if accepted then 0 else 1);
      return Value(accepted);
    }

    // The child goal was cancelled, and not in order to hand over to the terminal drive.
    ghost predicate Stopped(status: ChildStatus)
      reads this`progressAbort, this`handoffRequested
    {
      status.ChildCanceled? && (progressAbort || !handoffRequested)
    }

    // Meanwhile the feedback and the timers may publish leases, and the reverse plan in force.
    method ChildResult() returns (r: Outcome<ChildStatus>)
      modifies this`handle, this`mishaps, this`refusals, this`settled, this`motionAuthorized, this`leases, this`plans,
               this`progressAbort, this`handoffRequested
      ensures Waited(old(mishaps), old(refusals), old(handle))
      ensures r.Raised? ==> mishaps > old(mishaps) && settled == old(settled)
      ensures r.Value? ==> settled == |measured| && refusals == old(refusals) + (if Stopped(r.value) then 1 else 0)
      ensures Republished(old(plans), plans, reversePlan, 0)
    {
      ReversePlanTimer();
      leases := *;
      motionAuthorized, progressAbort, handoffRequested := *, *, *;
      var _ :- Call();
      var status: ChildStatus := *;
      refusals := refusals + (if Stopped(status) then 1 else 0);
      settled := |measured|;
      return Value(status);
    }

    method CorridorIsClear(start: Pose, goal: Pose) returns (r: Outcome<bool>)
      modifies this`handle, this`mishaps, this`refusals
      ensures Waited(old(mishaps), old(refusals), old(handle))
      ensures r.Raised? ==> mishaps > old(mishaps)
      ensures r.Value? ==>
        refusals == old(refusals) + (if r.value && DirectChoice(c, start, goal).None? then 1 else 0)
    {
      var _ :- Call();
      var clear: bool := *;
      refusals := refusals + (if clear && DirectChoice(c, start, goal).None? then 1 else 0);
      return Value(clear);
    }

    // ----- Reports on the goal -----

    method Succeed()
      requires Open(handle)
      modifies this`handle, this`reports
      ensures handle == Succeeded && reports == old(reports) + [Succeeded]
    {
      handle, reports := Succeeded, reports + [Succeeded];
    }

    method Abort()
      requires Open(handle)
      modifies this`handle, this`reports
      ensures handle == Aborted && reports == old(reports) + [Aborted]
    {
      handle, reports := Aborted, reports + [Aborted];
    }

    // Reporting a cancellation that nobody requested raises.
    method ReportCanceled() returns (r: Outcome<()>)
      requires Open(handle)
      modifies this`handle, this`reports
      ensures if old(handle) == Canceling then r == Value(()) && handle == Canceled && reports == old(reports) + [Canceled]
              else r == Raised && handle == old(handle) && reports == old(reports)
    {
      if handle != Canceling {
        return Raised;
      }
      handle, reports := Canceled, reports + [Canceled];
      return Value(());
    }

    // A step failed: canceled if that was asked for, aborted otherwise.
    method FinishFailed()
      requires Open(handle)
      modifies this`handle, this`mishaps, this`reports
      ensures (handle == Canceled || handle == Aborted) && reports == old(reports) + [handle]
      ensures handle == Aborted <==> old(handle) == Executing && mishaps == old(mishaps)
      ensures OnlyGrew(old(Seen()), old(handle))
    {
      var canceled := CancelRequested();
      if canceled {
        var _ := ReportCanceled();
      } else {
        Abort();
      }
    }

    // ----- Arrival -----

    /** True only if the last required measurements, all made here, show arrival; false only on a lookup
        without an answer, or on a measurement outside the tolerances. */
    method ConfirmFinalPose(goal: Pose) returns (r: Outcome<bool>)
      requires Open(handle)
      modifies this`handle, this`mishaps, this`measured, this`misses
      ensures GrewFrom(old(Seen()), old(handle))
      ensures r == Value(true) ==> ConfirmedSince(c, goal, measured, |old(measured)|) && misses == old(misses)
      ensures r == Value(false) ==>
        || misses > old(misses)
        || (|measured| > |old(measured)| && !Arrived(c, goal, measured[|measured| - 1]))
      ensures Smooth(c, goal, old(Seen()), Seen()) ==> r == Value(true)
    {
      var confirmations := MaxInt(1, c.confirmations);
      for sample := 0 to confirmations
        invariant GrewFrom(old(Seen()), old(handle)) && misses == old(misses)
        invariant |measured| >= |old(measured)| + sample
        invariant forall i :: |measured| - sample <= i < |measured| ==> Arrived(c, goal, measured[i])
      {
        var pose :- CurrentBasePose();
        if pose.None? {
          return Value(false);
        }
        var positionError := c.maths.Distance(pose.value.at, goal.at);
        var yawError := c.maths.wrap(goal.yaw - pose.value.yaw);
        if positionError > c.finalTolerance || Abs(yawError) >= c.minAngle {
          assert !Arrived(c, goal, measured[|measured| - 1]);
          return Value(false);
        }
      }
      return Value(true);
    }

    // One pass of the alignment loop: `None` means that it goes on.
    method AlignOnce(goal: Pose) returns (r: Outcome<Option<bool>>)
      requires Open(handle)
      modifies this`handle, this`mishaps, this`measured, this`misses, this`refusals, this`settled,
               this`motionAuthorized, this`leases, this`plans, this`reversePlan,
               this`progressAbort, this`handoffRequested, this`alignmentCompleted
      ensures GrewFrom(old(Seen()), old(handle))
      ensures r == Value(Some(true)) ==> ConfirmedSince(c, goal, measured, |old(measured)|)
      ensures old(handle) == Executing && Smooth(c, goal, old(Seen()), Seen()) ==>
                r == Value(Some(true)) || (r.Value? && r.value.None?)
    {
      hide ConfirmedSince, Rests, NeverLeft;
      var canceled := CancelRequested();
      if canceled {
        return Value(Some(false));
      }
      var pose :- CurrentBasePose();
      if pose.None? {
        return Value(Some(false));
      }
      var residual := c.maths.wrap(goal.yaw - pose.value.yaw);
      if Abs(residual) < c.minAngle {
        if c.maths.Distance(pose.value.at, goal.at) > c.finalTolerance {
          OutsideNow(c, goal, old(Seen()), Seen());
          return Value(Some(false));
        }
        ghost var before := Seen();
        var confirmation := ConfirmFinalPose(goal);
        SmoothSince(c, goal, old(Seen()), before, Seen());
        LaterConfirmation(c, goal, measured, |old(measured)|, |before.measured|);
        var confirmed :- confirmation;
        if !confirmed {
          return Value(None);
        }
        alignmentCompleted := true;
        return Value(Some(true));
      }
      ghost var outside := Seen();
      var turn := RunChild();
      OutsideBefore(c, goal, old(Seen()), outside, Seen());
      var turned :- turn;
      if !turned {
        return Value(Some(false));
      }
      return Value(None);
    }

    // A last look after all the steps.
    method CheckAligned(goal: Pose) returns (r: Outcome<bool>)
      requires Open(handle)
      modifies this`handle, this`mishaps, this`measured, this`misses, this`refusals, this`settled,
               this`motionAuthorized, this`leases, this`plans, this`reversePlan,
               this`progressAbort, this`handoffRequested, this`alignmentCompleted
      ensures GrewFrom(old(Seen()), old(handle))
      ensures r == Value(true) ==> ConfirmedSince(c, goal, measured, |old(measured)|)
      ensures old(handle) == Executing && Smooth(c, goal, old(Seen()), Seen()) ==> r == Value(true)
    {
      hide ConfirmedSince, Rests, NeverLeft;
      var pose :- CurrentBasePose();
      if pose.None? {
        return Value(false);
      }
      if Abs(c.maths.wrap(goal.yaw - pose.value.yaw)) < c.minAngle
         && c.maths.Distance(pose.value.at, goal.at) <= c.finalTolerance {
        ghost var before := Seen();
        var confirmation := ConfirmFinalPose(goal);
        SmoothSince(c, goal, old(Seen()), before, Seen());
        LaterConfirmation(c, goal, measured, |old(measured)|, |before.measured|);
        var confirmed :- confirmation;
        if !confirmed {
          return Value(false);
        }
        alignmentCompleted := true;
        return Value(true);
      }
      OutsideNow(c, goal, old(Seen()), Seen());
      return Value(false);
    }

    method RunFinalAlignment(goal: Pose) returns (r: Outcome<bool>)
      requires Open(handle)
      modifies this`handle, this`mishaps, this`measured, this`misses, this`refusals, this`settled,
               this`motionAuthorized, this`leases, this`plans, this`reversePlan,
               this`progressAbort, this`handoffRequested, this`alignmentCompleted
      ensures GrewFrom(old(Seen()), old(handle))
      ensures r == Value(true) && !old(alignmentCompleted) ==> ConfirmedSince(c, goal, measured, |old(measured)|)
      ensures old(handle) == Executing && c.maxStep != 0.0 && Smooth(c, goal, old(Seen()), Seen()) ==>
                r == Value(true)
    {
      hide ConfirmedSince, Rests, NeverLeft;
      if alignmentCompleted {
        return Value(true);
      }
      var pose :- CurrentBasePose();
      if pose.None? {
        return Value(false);
      }
      var initialTurn := c.maths.wrap(goal.yaw - pose.value.yaw);
      if Abs(initialTurn) > c.maxFinalAngle {
        OutsideNow(c, goal, old(Seen()), Seen());
        return Value(false);
      }
      if c.maxStep == 0.0 {
        return Raised;  // the number of steps is a quotient by the step limit
      }
      var plannedSteps := MaxInt(1, Ceil(Abs(initialTurn) / c.maxStep));
      for stepIndex := 0 to plannedSteps + 2
        invariant GrewFrom(old(Seen()), old(handle))
      {
        ghost var before := Seen();
        var step := AlignOnce(goal);
        SmoothSince(c, goal, old(Seen()), before, Seen());
        LaterConfirmation(c, goal, measured, |old(measured)|, |before.measured|);
        var aligned :- step;
        if aligned.Some? {
          return Value(aligned.value);
        }
      }
      ghost var stepped := Seen();
      r := CheckAligned(goal);
      SmoothSince(c, goal, old(Seen()), stepped, Seen());
      LaterConfirmation(c, goal, measured, |old(measured)|, |stepped.measured|);
    }

    method RunFinalPositionCorrection() returns (r: Outcome<bool>)
      requires Open(handle)
      modifies this`handle, this`mishaps, this`measured, this`misses, this`refusals, this`settled,
               this`motionAuthorized, this`leases, this`plans, this`reversePlan,
               this`progressAbort, this`handoffRequested
      ensures GrewFrom(old(Seen()), old(handle))
      ensures r.Raised? ==> mishaps > old(mishaps)
      ensures r == Value(true) ==> settled == |measured| && refusals == old(refusals)
      ensures r == Value(false) ==> mishaps > old(mishaps) || refusals > old(refusals)
    {
      var pose :- CurrentBasePose();
      if pose.None? {
        return Value(false);
      }
      r := RunChild();
    }

    // One cycle of the convergence: `None` means that a correction was driven and another cycle follows.
    method ConvergeOnce(goal: Pose, last: bool) returns (r: Outcome<Option<bool>>)
      requires Open(handle)
      modifies this`handle, this`mishaps, this`measured, this`misses, this`refusals, this`settled,
               this`motionAuthorized, this`leases, this`plans, this`reversePlan,
               this`progressAbort, this`handoffRequested, this`alignmentCompleted
      ensures GrewFrom(old(Seen()), old(handle))
      ensures r == Value(Some(true)) ==> ConfirmedSince(c, goal, measured, |old(measured)|)
      ensures old(handle) == Executing && c.maxStep != 0.0 && Smooth(c, goal, old(Seen()), Seen()) ==>
                r == Value(Some(true)) || (r.Value? && r.value.None? && !last)
    {
      hide ConfirmedSince, Rests, NeverLeft;
      alignmentCompleted := false;
      var entryPose :- CurrentBasePose();
      if entryPose.None? {
        return Value(Some(false));
      }
      ghost var before := Seen();
      var entryError := c.maths.Distance(entryPose.value.at, goal.at);
      if entryError > c.terminalTolerance {
        assert !Inside(c, goal, before.measured[|before.measured| - 1]);
        OutsideNow(c, goal, old(Seen()), before);
        if last || entryError > c.maxCorrection {
          return Value(Some(false));
        }
        var correction := RunFinalPositionCorrection();
        OutsideBefore(c, goal, old(Seen()), before, Seen());
        var corrected :- correction;
        return Value(if corrected then None else Some(false));
      }
      var alignment := RunFinalAlignment(goal);
      SmoothSince(c, goal, old(Seen()), before, Seen());
      LaterConfirmation(c, goal, measured, |old(measured)|, |before.measured|);
      var aligned :- alignment;
      if aligned {
        return Value(Some(true));
      }
      ghost var misaligned := Seen();
      r := AfterMisalignment(goal, last);
      SmoothBefore(c, goal, old(Seen()), misaligned, Seen());
    }

    // Whether a position correction follows an alignment that failed.
    method AfterMisalignment(goal: Pose, last: bool) returns (r: Outcome<Option<bool>>)
      requires Open(handle)
      modifies this`handle, this`mishaps, this`measured, this`misses, this`refusals, this`settled,
               this`motionAuthorized, this`leases, this`plans, this`reversePlan,
               this`progressAbort, this`handoffRequested
      ensures GrewFrom(old(Seen()), old(handle))
      ensures r.Raised? ==> mishaps > old(mishaps)
      ensures r.Value? && r.value.None? ==> !last
      ensures r.Value? && r.value.Some? ==>
        !r.value.value && (mishaps > old(mishaps) || settled == old(settled) || refusals > old(refusals))
    {
      var canceled := CancelRequested();
      if canceled {
        return Value(Some(false));
      }
      var pose :- CurrentBasePose();
      if pose.None? {
        return Value(Some(false));
      }
      var positionError := c.maths.Distance(pose.value.at, goal.at);
      if positionError <= c.finalTolerance || last || positionError > c.maxCorrection {
        return Value(Some(false));
      }
      var corrected :- RunFinalPositionCorrection();
      return Value(if corrected then None else Some(false));
    }

    method ConvergeFinalPose(goal: Pose) returns (r: Outcome<bool>)
      requires Open(handle)
      modifies this`handle, this`mishaps, this`measured, this`misses, this`refusals, this`settled,
               this`motionAuthorized, this`leases, this`plans, this`reversePlan,
               this`progressAbort, this`handoffRequested, this`alignmentCompleted
      ensures GrewFrom(old(Seen()), old(handle))
      ensures r == Value(true) ==> ConfirmedSince(c, goal, measured, |old(measured)|)
      ensures old(handle) == Executing && c.maxStep != 0.0 && Smooth(c, goal, old(Seen()), Seen()) ==>
                r == Value(true)
    {
      hide ConfirmedSince;
      var corrections := MaxInt(0, c.cycles);
      for cycle := 0 to corrections + 1
        invariant GrewFrom(old(Seen()), old(handle))
        invariant cycle == corrections + 1 && c.maxStep != 0.0 && old(handle) == Executing ==>
                    !Smooth(c, goal, old(Seen()), Seen())
      {
        ghost var before := Seen();
        var result := ConvergeOnce(goal, cycle >= corrections);
        SmoothSince(c, goal, old(Seen()), before, Seen());
        LaterConfirmation(c, goal, measured, |old(measured)|, |before.measured|);
        var converged :- result;
        if converged.Some? {
          return Value(converged.value);
        }
      }
      return Value(false);
    }

    // ----- One goal, from start to finish -----

    ghost predicate Finished(goal: Pose, before: nat, done: seq<GoalState>)
      reads this`handle, this`reports, this`measured
    {
      && !Open(handle) && reports == done + [handle]
      && (handle == Succeeded ==> ConfirmedSince(c, goal, measured, before))
    }

    ghost predicate Ongoing(before: nat, done: seq<GoalState>)
      reads this`handle, this`reports, this`measured
    {
      Open(handle) && reports == done && |measured| >= before
    }

    // Success only after the pose has converged; otherwise canceled or aborted.
    method FinishByConverging(goal: Pose, ghost before: nat) returns (r: Outcome<()>)
      requires Ongoing(before, reports)
      modifies this`handle, this`mishaps, this`measured, this`misses, this`refusals, this`settled,
               this`motionAuthorized, this`leases, this`plans, this`reversePlan,
               this`progressAbort, this`handoffRequested, this`alignmentCompleted, this`reports
      ensures r.Value? ==> Finished(goal, before, old(reports))
      ensures r.Raised? ==> Ongoing(before, old(reports))
      ensures OnlyGrew(old(Seen()), old(handle))
      ensures old(handle) == Executing && c.maxStep != 0.0 && Smooth(c, goal, old(Seen()), Seen()) ==>
                r.Value? && handle == Succeeded
    {
      var converged :- ConvergeFinalPose(goal);
      if !converged {
        FinishFailed();
        r := Value(());
      } else {
        Succeed();
        r := Value(());
      }
    }

    // A terminal drive, then convergence.
    method FinishByTerminalDrive(goal: Pose, ghost before: nat) returns (r: Outcome<()>)
      requires Ongoing(before, reports)
      modifies this`handle, this`mishaps, this`measured, this`misses, this`refusals, this`settled, this`commands,
               this`motionAuthorized, this`leases, this`plans, this`reversePlan,
               this`progressAbort, this`handoffRequested, this`alignmentCompleted, this`reports
      ensures OnlyGrew(old(Seen()), old(handle))
      ensures r.Value? ==> Finished(goal, before, old(reports))
      ensures r.Raised? ==> Ongoing(before, old(reports))
      ensures old(handle) == Executing && c.maxStep != 0.0 && Fair(c, goal, old(Seen()), Seen()) ==>
                r.Value? && handle == Succeeded
      ensures commands == old(commands) + [TerminalDrive]
    {
      var driven :- Drive(TerminalDrive);
      if !driven {
        FinishFailed();
        r := Value(());
      } else {
        r := FinishByConverging(goal, before);
      }
    }

    method FinishIfPositionReached(goal: Pose, ghost before: nat) returns (r: Outcome<bool>)
      requires Ongoing(before, reports)
      modifies this`handle, this`mishaps, this`measured, this`misses, this`refusals, this`settled,
               this`motionAuthorized, this`leases, this`plans, this`reversePlan,
               this`progressAbort, this`handoffRequested, this`alignmentCompleted, this`reports
      ensures OnlyGrew(old(Seen()), old(handle))
      ensures r == Value(true) ==> Finished(goal, before, old(reports))
      ensures r != Value(true) ==> Ongoing(before, old(reports))
      ensures old(handle) == Executing && c.maxStep != 0.0 && Smooth(c, goal, old(Seen()), Seen()) ==>
                r == Value(true) && handle == Succeeded
    {
      var pose :- CurrentBasePose();
      if pose.None? {
        return Value(false);
      }
      if c.maths.Distance(pose.value.at, goal.at) > c.terminalTolerance {
        assert !Inside(c, goal, measured[|measured| - 1]);
        return Value(false);
      }
      ghost var near := Seen();
      var finished := FinishByConverging(goal, before);
      SmoothSince(c, goal, old(Seen()), near, Seen());
      var _ :- finished;
      return Value(true);
    }

    // The plan of a reverse drive goes out twice at once, and the timer may repeat it.
    method AnnounceReverse(path: seq<Point>)
      modifies this`plans, this`reversePlan
      ensures reversePlan == Some(path) && Republished(old(plans), plans, Some(path), 2)
    {
      reversePlan := Some(path);
      PublishDirectReversePlan();
      ghost var once := plans;
      assert once == old(plans) + Copies(reversePlan, 1);
      ReversePlanTimer();
      ghost var repeats := plans;
      PublishDirectReversePlan();
      assert plans == repeats + Copies(reversePlan, 1);
      RepublishedTwice(old(plans), once, repeats, reversePlan, 1, 0);
      RepublishedTwice(old(plans), repeats, plans, reversePlan, 1, 1);
    }

    // Announces the reverse drive and sends its child goal.
    method SendReverse(goal: Pose, start: Pose) returns (r: Outcome<bool>)
      requires Open(handle)
      modifies this`handle, this`mishaps, this`refusals, this`commands, this`plans, this`reversePlan, this`plansAtSend
      ensures reversePlan == Some(StraightPath(c.maths, start.at, goal.at))
      ensures Republished(old(plans), plansAtSend, reversePlan, 2) && Republished(plansAtSend, plans, reversePlan, 0)
      ensures commands == old(commands) + [ReverseGoal(PositionError(c, goal.at, start))]
      ensures Waited(old(mishaps), old(refusals), old(handle))
      ensures if r.Value? then refusals == old(refusals) + (if r.value then 0 else 1) else mishaps > old(mishaps)
    {
      hide StraightPath, Republished, Copies;
      var path := MakeStraightPath(c.maths, start.at, goal.at);
      AnnounceReverse(path);
      r := SendChildGoal(ReverseGoal(c.maths.Distance(start.at, goal.at)));
    }

    /** The checked reverse drive. By the time the child goal is sent, the sampled segment has been
        published at least twice and nothing else has; until the drive is over only the timer
        repeats it, and then it is withdrawn. `None` means that the drive was refused. */
    method DriveStraightReverse(goal: Pose, start: Pose) returns (r: Outcome<Option<ChildStatus>>)
      requires Open(handle)
      modifies this`handle, this`mishaps, this`refusals, this`settled, this`commands,
               this`motionAuthorized, this`leases, this`plans,
               this`reversePlan, this`progressAbort, this`handoffRequested, this`plansAtSend
      ensures var path := Some(StraightPath(c.maths, start.at, goal.at));
        && Republished(old(plans), plansAtSend, path, 2)
        && (r == Value(None) || r.Raised? ==> reversePlan == path && Republished(plansAtSend, plans, path, 0))
        && (r.Value? && r.value.Some? ==> reversePlan.None? && |plans| > 0 && plans[|plans| - 1] == []
                                          && Republished(plansAtSend, plans[..|plans| - 1], path, 0))
      ensures Waited(old(mishaps), old(refusals), old(handle))
      ensures r.Raised? ==> mishaps > old(mishaps) && settled == old(settled)
      ensures r == Value(None) ==> refusals > old(refusals) && settled == old(settled)
      ensures r.Value? && r.value.Some? ==>
        settled == |measured| && refusals == old(refusals) + (if Stopped(r.value.value) then 1 else 0)
      ensures commands == old(commands) + [ReverseGoal(PositionError(c, goal.at, start))]
    {
      hide StraightPath, Republished, Copies, Stopped;
      var accepted :- SendReverse(goal, start);
      if !accepted {
        return Value(None);
      }
      SetMotionAuthorized(false);
      ghost var sent := plans;
      var result := ChildResult();
      RepublishedTwice(plansAtSend, sent, plans, reversePlan, 0, 0);
      var status :- result;
      SetMotionAuthorized(false);
      reversePlan := None;
      ghost var repeated := plans;
      ClearDirectReversePlan();
      assert plans[..|plans| - 1] == repeated;
      return Value(Some(status));
    }

    // Where the reverse drive has stopped must be near the goal.
    method ConvergeWhereStopped(goal: Pose, ghost before: nat) returns (r: Outcome<()>)
      requires Ongoing(before, reports)
      modifies this`handle, this`mishaps, this`measured, this`misses, this`refusals, this`settled,
               this`motionAuthorized, this`leases, this`plans, this`reversePlan,
               this`progressAbort, this`handoffRequested, this`alignmentCompleted, this`reports
      ensures OnlyGrew(old(Seen()), old(handle))
      ensures r.Value? ==> Finished(goal, before, old(reports))
      ensures r.Raised? ==> Ongoing(before, old(reports))
      ensures old(handle) == Executing && c.maxStep != 0.0 && Smooth(c, goal, old(Seen()), Seen()) ==>
                r.Value? && handle == Succeeded
    {
      hide Confirmed;
      var stopped :- CurrentBasePose();
      if stopped.None? {
        Abort();
        return Value(());
      }
      if c.maths.Distance(stopped.value.at, goal.at) > c.terminalTolerance {
        assert !Inside(c, goal, measured[|measured| - 1]);
        Abort();
        return Value(());
      }
      ghost var near := Seen();
      r := FinishByConverging(goal, before);
      SmoothSince(c, goal, old(Seen()), near, Seen());
    }

    // What follows the end of the reverse drive.
    method FinishReverse(goal: Pose, status: ChildStatus, ghost before: nat) returns (r: Outcome<()>)
      requires Ongoing(before, reports)
      modifies this`handle, this`mishaps, this`measured, this`misses, this`refusals, this`settled,
               this`motionAuthorized, this`leases, this`plans, this`reversePlan,
               this`progressAbort, this`handoffRequested, this`alignmentCompleted, this`reports
      ensures OnlyGrew(old(Seen()), old(handle))
      ensures r.Value? ==> Finished(goal, before, old(reports))
      ensures r.Raised? ==> Ongoing(before, old(reports))
      ensures !old(Stopped(status)) ==>
                (old(handle) == Executing && c.maxStep != 0.0 && Smooth(c, goal, old(Seen()), Seen()) ==>
                   r.Value? && handle == Succeeded)
    {
      hide Confirmed, Rests;
      var canceled := CancelRequested();
      ghost var going := Seen();
      if canceled {
        r := ReportCanceled();
      } else if status.ChildCanceled? && progressAbort {
        Abort();
        r := Value(());
      } else {
        r := ConvergeWhereStopped(goal, before);
      }
      SmoothSince(c, goal, old(Seen()), going, Seen());
    }

    // The reverse drive from where the robot stands; `None` means that none was made.
    method ReverseFromHere(goal: Pose) returns (r: Outcome<Option<ChildStatus>>, ghost start: Option<Pose>)
      requires Open(handle)
      modifies this`handle, this`mishaps, this`measured, this`misses, this`refusals, this`settled, this`commands,
               this`motionAuthorized, this`leases, this`plans, this`reversePlan,
               this`progressAbort, this`handoffRequested, this`plansAtSend
      ensures GrewFrom(old(Seen()), old(handle))
      ensures MeasuredIn(measured, |old(measured)|, start)
      ensures r.Raised? ==> mishaps > old(mishaps)
      ensures r == Value(None) ==> refusals > old(refusals) || mishaps > old(mishaps)
      ensures r.Value? && r.value.Some? ==>
        && start.Some? && commands == old(commands) + [ReverseGoal(PositionError(c, goal.at, start.value))]
        && settled == |measured| && refusals == old(refusals) + (if Stopped(r.value.value) then 1 else 0)
      ensures old(commands) <= commands
    {
      hide StraightPath, Republished;
      start := None;
      var ready :- ServerReady();
      if !ready {
        r := Value(None);
        return;
      }
      var pose :- CurrentBasePose();
      if pose.None? {
        r := Value(None);
        return;
      }
      start := pose;
      assert measured[|measured| - 1] == pose.value;
      r := DriveStraightReverse(goal, pose.value);
    }

    method RunStraightReverse(goal: Pose, ghost before: nat) returns (r: Outcome<()>, ghost start: Option<Pose>)
      requires Ongoing(before, reports)
      modifies this`handle, this`mishaps, this`measured, this`misses, this`refusals, this`settled, this`commands,
               this`motionAuthorized, this`leases, this`plans, this`reversePlan,
               this`progressAbort, this`handoffRequested, this`alignmentCompleted, this`reports, this`plansAtSend
      ensures OnlyGrew(old(Seen()), old(handle))
      ensures r.Value? ==> Finished(goal, before, old(reports))
      ensures r.Raised? ==> Ongoing(before, old(reports))
      ensures old(handle) == Executing && c.maxStep != 0.0 && Fair(c, goal, old(Seen()), Seen()) ==>
                r.Value? && handle == Succeeded
      ensures mishaps == old(mishaps) && refusals == old(refusals) ==>
                start.Some? && commands == old(commands) + [ReverseGoal(PositionError(c, goal.at, start.value))]
      ensures MeasuredIn(measured, |old(measured)|, start)
      ensures old(commands) <= commands
    {
      hide Confirmed, Rests;
      start := None;
      var driven, from :- ReverseFromHere(goal);
      start := from;
      if driven.None? {
        Abort();
        r := Value(());
        return;
      }
      ghost var ended := Seen();
      r := FinishReverse(goal, driven.value, before);
      MeasuredLater(ended.measured, measured, |old(measured)|, start);
      SmoothSince(c, goal, old(Seen()), ended, Seen());
    }

    // The child goal failed, but it may have arrived nevertheless.
    method FinishOrAbort(goal: Pose, ghost before: nat) returns (r: Outcome<()>)
      requires Ongoing(before, reports)
      modifies this`handle, this`mishaps, this`measured, this`misses, this`refusals, this`settled,
               this`motionAuthorized, this`leases, this`plans, this`reversePlan,
               this`progressAbort, this`handoffRequested, this`alignmentCompleted, this`reports
      ensures OnlyGrew(old(Seen()), old(handle))
      ensures r.Value? ==> Finished(goal, before, old(reports))
      ensures r.Raised? ==> Ongoing(before, old(reports))
      ensures old(handle) == Executing && c.maxStep != 0.0 && Smooth(c, goal, old(Seen()), Seen()) ==>
                r.Value? && handle == Succeeded
    {
      hide Confirmed, Smooth;
      var finished :- FinishIfPositionReached(goal, before);
      if !finished {
        Abort();
      }
      r := Value(());
    }

    // What follows the end of the child goal.
    method FinishRoute(goal: Pose, route: Route, status: ChildStatus, ghost before: nat)
      returns (r: Outcome<()>)
      requires Ongoing(before, reports)
      modifies this`handle, this`mishaps, this`measured, this`misses, this`refusals, this`settled, this`commands,
               this`motionAuthorized, this`leases, this`plans, this`reversePlan,
               this`progressAbort, this`handoffRequested, this`alignmentCompleted, this`reports
      ensures OnlyGrew(old(Seen()), old(handle))
      ensures r.Value? && (route.direct || route.alignAfter) ==> Finished(goal, before, old(reports))
      ensures r.Raised? ==> Ongoing(before, old(reports))
      ensures !old(Stopped(status)) ==>
                (old(handle) == Executing && c.maxStep != 0.0 && Fair(c, goal, old(Seen()), Seen()) ==>
                   r.Value? && handle == Succeeded)
      ensures !old(Stopped(status)) ==>
                (old(handle) == Executing && mishaps == old(mishaps) && refusals == old(refusals) ==>
                   commands == old(commands) + Ending(route.staged, status))
      ensures commands == old(commands) || commands == old(commands) + [TerminalDrive]
    {
      hide Confirmed;
      var canceled := CancelRequested();
      ghost var going := Seen();
      if canceled {
        r := ReportCanceled();
      } else if status.ChildCanceled? && progressAbort {
        Abort();
        r := Value(());
      } else if status.ChildCanceled? && handoffRequested {
        r := FinishByTerminalDrive(goal, before);
      } else if status.ChildCanceled? {
        r := ReportCanceled();
      } else if status.ChildSucceeded? {
        if route.staged {
          r := FinishByTerminalDrive(goal, before);
        } else if route.direct || route.alignAfter {
          r := FinishByConverging(goal, before);
        } else {
          Succeed();
          r := Value(());
        }
      } else {
        r := FinishOrAbort(goal, before);
      }
      SmoothSince(c, goal, old(Seen()), going, Seen());
    }

    // The child goal that the planner drives; `None` means that it was refused.
    method DriveByPlanner(staged: bool) returns (r: Outcome<Option<ChildStatus>>)
      requires Open(handle)
      modifies this`handle, this`mishaps, this`refusals, this`settled, this`commands,
               this`motionAuthorized, this`leases, this`plans,
               this`progressAbort, this`handoffRequested, this`plansAtSend
      ensures Waited(old(mishaps), old(refusals), old(handle))
      ensures r.Raised? ==> mishaps > old(mishaps) && settled == old(settled)
      ensures r == Value(None) ==> refusals > old(refusals) && settled == old(settled)
      ensures r.Value? && r.value.Some? ==>
        settled == |measured| && refusals == old(refusals) + (if Stopped(r.value.value) then 1 else 0)
      ensures commands == old(commands) || commands == old(commands) + [PlannerGoal(staged)]
      ensures r.Value? && r.value.Some? ==> commands == old(commands) + [PlannerGoal(staged)]
    {
      hide Republished, Copies;
      var ready :- ServerReady();
      if !ready {
        return Value(None);
      }
      var accepted :- SendChildGoal(PlannerGoal(staged));
      if !accepted {
        return Value(None);
      }
      SetMotionAuthorized(false);
      var status :- ChildResult();
      SetMotionAuthorized(false);
      return Value(Some(status));
    }

    method RunPlannedRoute(goal: Pose, route: Route, ghost before: nat)
      returns (r: Outcome<()>, ghost ended: ChildStatus)
      requires Ongoing(before, reports)
      modifies this`handle, this`mishaps, this`measured, this`misses, this`refusals, this`settled, this`commands,
               this`motionAuthorized, this`leases, this`plans, this`reversePlan,
               this`progressAbort, this`handoffRequested, this`alignmentCompleted, this`reports, this`plansAtSend
      ensures OnlyGrew(old(Seen()), old(handle))
      ensures r.Value? && (route.direct || route.alignAfter) ==> Finished(goal, before, old(reports))
      ensures r.Raised? ==> Ongoing(before, old(reports))
      ensures old(handle) == Executing && c.maxStep != 0.0 && Fair(c, goal, old(Seen()), Seen()) ==>
                r.Value? && handle == Succeeded
      ensures mishaps == old(mishaps) && refusals == old(refusals) && old(handle) == Executing ==>
                commands == old(commands) + [PlannerGoal(route.staged)] + Ending(route.staged, ended)
      ensures AsksForward(old(commands), commands)
    {
      hide Confirmed, Rests;
      ended := ChildOther;
      var driven :- DriveByPlanner(route.staged);
      if driven.None? {
        Abort();
        r := Value(());
        return;
      }
      ended := driven.value;
      ghost var arrived := Seen();
      r := FinishRoute(goal, route, driven.value, before);
      SmoothSince(c, goal, old(Seen()), arrived, Seen());
    }

    // A checked staging pose in front of the target, if one is found.
    method SelectApproachPose() returns (r: Outcome<Option<Staging>>)
      modifies this`handle, this`mishaps
      ensures Waited(old(mishaps), old(refusals), old(handle))
      ensures r.Raised? ==> mishaps > old(mishaps)
    {
      var _ :- Call();
      var staging: Option<Staging> := *;
      return Value(staging);
    }

    /** Chooses the route; `None` means that the goal was aborted, which happens exactly when the corridor is
        clear and no permitted direction can be turned to. A clear corridor is driven in the chosen
        direction, in reverse without any staging; forward, a staging pose is looked for only when the final
        heading asks for it and used only when it is useful. Without a clear corridor the planner leads
        forward, by way of a staging pose if one is found. */
    method PlanRoute(goal: Pose, base: Option<Pose>)
      returns (r: Outcome<Option<Route>>, ghost clear: bool, ghost staging: Option<Staging>)
      requires Open(handle)
      modifies this`handle, this`mishaps, this`refusals, this`reports
      ensures mishaps >= old(mishaps) && refusals >= old(refusals)
      ensures r != Value(None) ==> Waited(old(mishaps), old(refusals), old(handle)) && reports == old(reports)
      ensures r == Value(None) ==> handle == Aborted && reports == old(reports) + [Aborted]
      ensures clear ==> base.Some?
      ensures r.Value? ==> r.value == (if clear then RouteThrough(c, base.value, goal, staging)
                                       else Some(Route(false, Forward, staging.Some?, false, staging.Some?, 0.0)))
      ensures clear && staging.Some? ==> StagingWanted(c, base.value, goal)
      ensures !c.useApproachRoute ==> staging.None?
      ensures r.Value? && r.value.Some? && r.value.value.direct ==>
                && clear && base.Some? && c.automaticReverse
                && !r.value.value.preAlign && r.value.value.mode.StraightReverse?
      ensures mishaps == old(mishaps) && base.Some? && refusals == old(refusals) ==>
                r.Value? && r.value.Some?
    {
      hide FinalApproachIsUseful;
      clear, staging := false, None;
      var corridorClear := false;
      if base.Some? {
        corridorClear :- CorridorIsClear(base.value, goal);
      }
      clear := corridorClear;
      if !corridorClear {
        var selected := None;
        if c.useApproachRoute {
          selected :- SelectApproachPose();
        }
        staging := selected;
        r := Value(Some(Route(false, Forward, selected.Some?, false, selected.Some?, 0.0)));
        return;
      }
      var m, pose := c.maths, base.value;
      var bearing := m.Heading(pose.at, goal.at);
      var forwardTurn := m.wrap(bearing - pose.yaw);
      var reverseHeading := m.wrap(bearing + m.pi);
      var reverseTurn := m.wrap(reverseHeading - pose.yaw);
      var choice := ChooseDirectRouteMode(forwardTurn, reverseTurn, c.directLimit, c.automaticReverse);
      if choice.None? {
        Abort();
        r := Value(None);
        return;
      }
      var (mode, turn) := choice.value;
      if mode.StraightReverse? {
        r := Value(Some(Route(true, StraightReverse, false, false, false, turn)));
        return;
      }
      var selected := None;
      if c.useApproachRoute && Abs(m.wrap(goal.yaw - bearing)) > c.terminalAngle {
        selected :- SelectApproachPose();
      }
      staging := selected;
      if selected.Some? {
        var stagingTurn := m.wrap(m.Heading(pose.at, selected.value.at) - pose.yaw);
        if FinalApproachIsUseful(m.Distance(pose.at, goal.at), forwardTurn, m.Distance(pose.at, selected.value.at),
                                 stagingTurn, selected.value.distance) {
          r := Value(Some(Route(false, Forward, true, true, true, stagingTurn)));
          return;
        }
      }
      r := Value(Some(Route(false, Forward, false, true, true, turn)));
    }

    // Makes room for a large turn beside an obstacle, and takes the turn anew; `None` means that the goal was
    // finished here.
    method ClearTurn(goal: Pose, route: Route, ghost before: nat)
      returns (r: Outcome<Option<real>>, ghost leadIn: Option<Pose>)
      requires Ongoing(before, reports)
      modifies this`handle, this`mishaps, this`measured, this`misses, this`refusals, this`settled, this`commands,
               this`motionAuthorized, this`leases, this`plans, this`reversePlan,
               this`progressAbort, this`handoffRequested, this`reports
      ensures OnlyGrew(old(Seen()), old(handle))
      ensures r == Value(None) ==> Finished(goal, before, old(reports)) && handle != Succeeded
      ensures r != Value(None) ==> Ongoing(before, old(reports))
      ensures mishaps == old(mishaps) && refusals == old(refusals) ==> r.Value? && r.value.Some?
      ensures MeasuredIn(measured, |old(measured)|, leadIn) && (leadIn.Some? ==> route.preAlign)
      ensures commands == old(commands) || commands == old(commands) + [LeadIn]
      ensures commands != old(commands) ==> route.preAlign && c.turnClearance && Abs(route.turn) >= c.minAngle
      ensures r.Value? && r.value.Some? ==>
        && commands == old(commands) + (if leadIn.Some? then [LeadIn] else [])
        && r.value.value == (if leadIn.Some? then TurnTowards(c, leadIn.value, goal) else route.turn)
    {
      var turn := route.turn;
      leadIn := None;
      var bothSidesClear: bool := *;
      if route.preAlign && ShouldRunTurnClearance(turn, c.minAngle, bothSidesClear, c.turnClearance) {
        var cleared :- Drive(LeadIn);
        if !cleared {
          FinishFailed();
          r := Value(None);
          return;
        }
        var refreshed :- CurrentBasePose();
        if refreshed.None? {
          Abort();
          r := Value(None);
          return;
        }
        leadIn := refreshed;
        assert measured[|measured| - 1] == refreshed.value;
        turn := c.maths.wrap(c.maths.Heading(refreshed.value.at, goal.at) - refreshed.value.yaw);
      }
      r := Value(Some(turn));
    }

    // The turn before a reverse: when it is blocked, the forward-only planner takes over.
    method TurnForReverse(route: Route, ghost before: nat) returns (r: Outcome<Option<Route>>)
      requires Ongoing(before, reports)
      modifies this`handle, this`mishaps, this`measured, this`misses, this`refusals, this`settled, this`commands,
               this`motionAuthorized, this`leases, this`plans, this`reversePlan,
               this`progressAbort, this`handoffRequested, this`reports
      ensures OnlyGrew(old(Seen()), old(handle)) && commands == old(commands) + [Turn(route.turn)]
      ensures r == Value(None) ==> handle == Canceled && reports == old(reports) + [handle]
      ensures r != Value(None) ==> Ongoing(before, old(reports))
      ensures r.Value? && r.value.Some? ==> r.value.value == if refusals == old(refusals) then route
                else Route(false, Forward, route.staged, false, route.alignAfter, 0.0)
      ensures mishaps == old(mishaps) && refusals == old(refusals) ==> r.Value? && r.value.Some?
    {
      var turned :- Drive(Turn(route.turn));
      if turned {
        return Value(Some(route));
      }
      var canceled := CancelRequested();
      if canceled {
        var _ := ReportCanceled();
        return Value(None);
      }
      return Value(Some(Route(false, Forward, route.staged, false, route.alignAfter, 0.0)));
    }

    // Turns towards the route; `None` means that the goal was finished here.
    method PreAlign(goal: Pose, route: Route, ghost before: nat)
      returns (r: Outcome<Option<Route>>, ghost leadIn: Option<Pose>)
      requires Ongoing(before, reports)
      requires route.direct ==> !route.preAlign
      modifies this`handle, this`mishaps, this`measured, this`misses, this`refusals, this`settled, this`commands,
               this`motionAuthorized, this`leases, this`plans, this`reversePlan,
               this`progressAbort, this`handoffRequested, this`reports
      ensures OnlyGrew(old(Seen()), old(handle))
      ensures r == Value(None) ==> Finished(goal, before, old(reports)) && handle != Succeeded
      ensures r != Value(None) ==> Ongoing(before, old(reports))
      ensures r.Value? && r.value.Some? && r.value.value.direct ==> r.value.value == route
      ensures r.Value? && r.value.Some? && route.direct && !r.value.value.direct ==> r.value.value.mode.Forward?
      ensures r.Value? && r.value.Some? && !route.direct ==> r.value.value.mode == route.mode
      ensures mishaps == old(mishaps) && refusals == old(refusals) ==> r.Value? && r.value.Some?
      ensures MeasuredIn(measured, |old(measured)|, leadIn)
      ensures AsksForward(old(commands), commands)
      ensures mishaps == old(mishaps) && refusals == old(refusals) ==>
        && r.Value? && r.value.Some? && r.value.value == route.(turn := r.value.value.turn)
        && commands == old(commands) + Alignment(c, goal, route, leadIn)
    {
      hide Confirmed;
      leadIn := None;
      var cleared, poseAfter :- ClearTurn(goal, route, before);
      leadIn := poseAfter;
      if cleared.None? {
        r := Value(None);
        return;
      }
      var turn := cleared.value;
      if route.preAlign {
        var turned :- Drive(Turn(turn));
        if !turned {
          FinishFailed();
          r := Value(None);
          return;
        }
      }
      if route.direct {
        r := TurnForReverse(route, before);
        return;
      }
      r := Value(Some(route.(turn := turn)));
    }

    // The route itself, after the turns.
    method Follow(goal: Pose, chosen: Route, ghost before: nat)
      returns (r: Outcome<()>, ghost from: Option<Pose>, ghost ended: ChildStatus)
      requires Ongoing(before, reports)
      requires chosen.direct ==> chosen.mode.StraightReverse?
      modifies this`handle, this`mishaps, this`measured, this`misses, this`refusals, this`settled, this`commands,
               this`motionAuthorized, this`leases, this`plans, this`reversePlan,
               this`progressAbort, this`handoffRequested, this`handoffEnabled, this`alignmentCompleted, this`reports,
               this`plansAtSend
      ensures OnlyGrew(old(Seen()), old(handle)) && MeasuredIn(measured, |old(measured)|, from)
      ensures old(commands) <= commands && (!chosen.direct ==> AsksForward(old(commands), commands))
      ensures r.Value? ==> Finished(goal, before, old(reports))
      ensures r.Raised? ==> Ongoing(before, old(reports))
      ensures old(handle) == Executing && c.maxStep != 0.0 && Fair(c, goal, old(Seen()), Seen()) ==>
                r.Value? && handle == Succeeded
      ensures mishaps == old(mishaps) && refusals == old(refusals) && old(handle) == Executing ==>
                commands == old(commands) + Course(c, goal, chosen, from, ended)
    {
      hide Confirmed;
      from, ended := None, ChildOther;
      var route := chosen;
      if !(route.direct && route.mode.StraightReverse?) {
        handoffEnabled := c.terminalHandoff;
        route := route.(alignAfter := true);
      }
      if route.direct && route.mode.StraightReverse? {
        r, from := RunStraightReverse(goal, before);
      } else {
        r, ended := RunPlannedRoute(goal, route, before);
      }
    }

    // The turns and the route itself.
    method TravelAlong(goal: Pose, route: Route, ghost before: nat)
      returns (r: Outcome<()>, ghost leadIn: Option<Pose>, ghost from: Option<Pose>, ghost ended: ChildStatus)
      requires Ongoing(before, reports)
      requires route.direct ==> !route.preAlign && route.mode.StraightReverse?
      modifies this`handle, this`mishaps, this`measured, this`misses, this`refusals, this`settled, this`commands,
               this`motionAuthorized, this`leases, this`plans, this`reversePlan,
               this`progressAbort, this`handoffRequested, this`handoffEnabled, this`alignmentCompleted, this`reports,
               this`plansAtSend
      ensures OnlyGrew(old(Seen()), old(handle))
      ensures MeasuredIn(measured, |old(measured)|, leadIn) && MeasuredIn(measured, |old(measured)|, from)
      ensures r.Value? ==> Finished(goal, before, old(reports))
      ensures r.Raised? ==> Ongoing(before, old(reports))
      ensures old(handle) == Executing && c.maxStep != 0.0 && Fair(c, goal, old(Seen()), Seen()) ==>
                r.Value? && handle == Succeeded
      ensures mishaps == old(mishaps) && refusals == old(refusals) && old(handle) == Executing ==>
                commands == old(commands) + Alignment(c, goal, route, leadIn) + Course(c, goal, route, from, ended)
      ensures old(commands) <= commands && (!route.direct ==> AsksForward(old(commands), commands))
    {
      hide Confirmed, Rests, Alignment, Ending;
      leadIn, from, ended := None, None, ChildOther;
      var aligned, lead :- PreAlign(goal, route, before);
      leadIn := lead;
      if aligned.None? {
        r := Value(());
        return;
      }
      ghost var turned := Seen();
      r, from, ended := Follow(goal, aligned.value, before);
      MeasuredLater(turned.measured, measured, |old(measured)|, leadIn);
      SmoothSince(c, goal, old(Seen()), turned, Seen());
    }

    // The way to a goal that was not reached already.
    method Travel(goal: Pose, base: Option<Pose>, ghost before: nat)
      returns (r: Outcome<()>, ghost trip: Trip)
      requires Ongoing(before, reports)
      modifies this`handle, this`mishaps, this`measured, this`misses, this`refusals, this`settled, this`commands,
               this`motionAuthorized, this`leases, this`plans, this`reversePlan,
               this`progressAbort, this`handoffRequested, this`handoffEnabled, this`alignmentCompleted, this`reports,
               this`plansAtSend
      ensures OnlyGrew(old(Seen()), old(handle))
      ensures r.Value? ==> Finished(goal, before, old(reports))
      ensures r.Raised? ==> Ongoing(before, old(reports))
      ensures old(handle) == Executing && c.maxStep != 0.0 && base.Some? && Fair(c, goal, old(Seen()), Seen()) ==>
                r.Value? && handle == Succeeded
      ensures trip.start == base && (trip.clear ==> base.Some?)
      ensures trip.clear && trip.staging.Some? ==> StagingWanted(c, base.value, goal)
      ensures old(handle) == Executing && base.Some? && mishaps == old(mishaps) && refusals == old(refusals) ==>
        var route := RouteOf(c, goal, trip);
        route.Some? && commands == old(commands) + Itinerary(c, goal, route.value, trip)
      ensures MeasuredIn(measured, |old(measured)|, trip.leadIn)
      ensures MeasuredIn(measured, |old(measured)|, trip.reverseFrom)
      ensures ReversesByChoice(c, goal, Some(trip), old(commands), commands)
    {
      hide Confirmed, Rests, Alignment, Course, RouteThrough, DirectChoice, StagingWanted;
      trip := Trip(base, false, None, None, None, ChildOther);
      var planned, clear, staging :- PlanRoute(goal, base);
      trip := trip.(clear := clear, staging := staging);
      if planned.None? {
        r := Value(());
        return;
      }
      if clear { DirectIsChosen(c, base.value, goal, staging); }
      ghost var leadIn, from, ended;
      ghost var chosen := Seen();
      r, leadIn, from, ended := TravelAlong(goal, planned.value, before);
      trip := trip.(leadIn := leadIn, reverseFrom := from, ended := ended);
      SmoothSince(c, goal, old(Seen()), chosen, Seen());
      ghost var turns := Alignment(c, goal, planned.value, leadIn);
      ghost var course := Course(c, goal, planned.value, from, ended);
      assert old(commands) + turns + course == old(commands) + (turns + course);
    }

    // Near the goal at first there is nothing to ask for; otherwise the whole way is asked for.
    ghost predicate Travelled(goal: Pose, first: Pose, trip: Option<Trip>, before: seq<Command>, after: seq<Command>) {
      if PositionError(c, goal.at, first) <= c.terminalTolerance then after == before
      else
        && trip.Some? && trip.value.start == Some(first)
        && (trip.value.clear && trip.value.staging.Some? ==> StagingWanted(c, first, goal))
        && var route := RouteOf(c, goal, trip.value);
           route.Some? && after == before + Itinerary(c, goal, route.value, trip.value)
    }

    // The body of `execute` inside its exception handler.
    method Attempt(goal: Pose, ghost before: nat)
      returns (r: Outcome<()>, ghost trip: Option<Trip>)
      requires Ongoing(before, reports)
      modifies this`handle, this`mishaps, this`measured, this`misses, this`refusals, this`settled, this`commands,
               this`motionAuthorized, this`leases, this`plans, this`reversePlan,
               this`progressAbort, this`handoffRequested, this`handoffEnabled, this`alignmentCompleted, this`reports,
               this`plansAtSend
      ensures r.Value? ==> Finished(goal, before, old(reports))
      ensures r.Raised? ==> Ongoing(before, old(reports))
      ensures old(handle) == Executing && c.maxStep != 0.0 && Smooth(c, goal, old(Seen()), Seen()) ==>
                r.Value? && handle == Succeeded
      ensures old(handle) == Executing && mishaps == old(mishaps) ==> |measured| > |old(measured)|
      ensures old(handle) == Executing && mishaps == old(mishaps) && refusals == old(refusals) ==>
                Travelled(goal, measured[|old(measured)|], trip, old(commands), commands)
      ensures ReversesByChoice(c, goal, trip, old(commands), commands)
    {
      hide Confirmed;
      trip := None;
      var mapArrived: bool := *;
      if !mapArrived {
        mishaps := mishaps + 1;
        Abort();
        r := Value(());
        return;
      }
      var base :- CurrentBasePose();
      ghost var entered := Seen();
      if base.Some? && c.maths.Distance(base.value.at, goal.at) <= c.terminalTolerance {
        r := FinishByConverging(goal, before);
      } else {
        assert base.Some? ==> !Inside(c, goal, entered.measured[|entered.measured| - 1]);
        ghost var made;
        r, made := Travel(goal, base, before);
        trip := Some(made);
      }
      SmoothSince(c, goal, old(Seen()), entered, Seen());
    }

    // The two sections of `execute` under `goal_lock`.
    method Begin()
      modifies this`slot, this`motionAuthorized, this`leases
      ensures slot == Occupy(old(slot)) && !motionAuthorized && leases == old(leases) + [true]
    {
      slot := slot.(active := true, reserved := false);
      motionAuthorized := false;
      PublishGoalActiveLease();
    }

    method End()
      modifies this`slot, this`motionAuthorized, this`leases
      ensures slot == Release(old(slot)) && !motionAuthorized && leases == old(leases) + [false]
    {
      slot := slot.(active := false, reserved := false, id := None);
      motionAuthorized := false;
      PublishGoalActiveLease();
    }

    method Reset()
      modifies this`reversePlan, this`plans, this`progressAbort, this`handoffEnabled, this`handoffRequested,
               this`alignmentCompleted
    {
      reversePlan := None;
      ClearDirectReversePlan();
      progressAbort, handoffEnabled, handoffRequested, alignmentCompleted := false, false, false, false;
    }

    method Finally()
      modifies this`reversePlan, this`plans, this`handoffEnabled, this`handoffRequested, this`slot,
               this`motionAuthorized, this`leases
      ensures slot == Release(old(slot)) && !motionAuthorized && leases == old(leases) + [false]
      ensures reversePlan.None? && plans == old(plans) + [[]] && !handoffEnabled && !handoffRequested
    {
      reversePlan := None;
      ClearDirectReversePlan();
      handoffEnabled, handoffRequested := false, false;
      End();
    }

    // The body of `execute` with its exception handler.
    method Run(goal: Pose) returns (ghost trip: Option<Trip>)
      requires Open(handle)
      modifies this`handle, this`mishaps, this`measured, this`misses, this`refusals, this`settled, this`commands,
               this`motionAuthorized, this`leases, this`plans, this`reversePlan,
               this`progressAbort, this`handoffRequested, this`handoffEnabled, this`alignmentCompleted, this`reports,
               this`plansAtSend
      ensures !Open(handle) && reports == old(reports) + [handle]
      ensures handle == Succeeded ==> ConfirmedSince(c, goal, measured, |old(measured)|)
      ensures handle == Succeeded ==> StandsThere(c, goal, measured, |old(measured)|)
      ensures old(handle) == Executing && c.maxStep != 0.0 && mishaps == old(mishaps) ==>
                (Rests(c, goal, old(Seen()), Seen()) && refusals == old(refusals) ==> handle == Succeeded)
                && (NeverLeft(c, goal, old(Seen()), Seen()) ==> handle == Succeeded)
      ensures old(handle) == Executing && mishaps == old(mishaps) && refusals == old(refusals) ==>
        && |measured| > |old(measured)|
        && Travelled(goal, measured[|old(measured)|], trip, old(commands), commands)
      ensures ReversesByChoice(c, goal, trip, old(commands), commands)
    {
      hide Confirmed, StandsThere, Rests, NeverLeft, Travelled;
      settled := |measured|;  // no drive has been made for this goal
      ghost var begun := Seen();
      var r;
      r, trip := Attempt(goal, |measured|);
      OnlyPosesMatter(c, goal, old(Seen()), begun, Seen());
      ConfirmedStands(c, goal, measured, |old(measured)|);
      if r.Raised? {
        Abort();
      }
    }

    /** One accepted goal, whatever the environment does and wherever it raises: exactly one report
        is made on it, a success is reported only if the last required measurements, all made for
        this goal, show arrival, and afterwards the slot is free, the lease is withdrawn and the
        reverse plan is cleared. When nothing goes wrong, it does succeed: the surroundings refuse nothing
        and every pose measured after the last drive is inside all tolerances, or no pose measured is ever
        outside. And unless something is refused, exactly the way to the goal is asked for. */
    method Execute(goal: Pose) returns (ghost trip: Option<Trip>)
      requires Open(handle)
      modifies this
      ensures motionArmed == old(motionArmed) && motionReady == old(motionReady)
      ensures !Open(handle) && reports == old(reports) + [handle]
      ensures handle == Succeeded ==> ConfirmedSince(c, goal, measured, |old(measured)|)
      ensures handle == Succeeded ==> StandsThere(c, goal, measured, |old(measured)|)
      ensures old(handle) == Executing && c.maxStep != 0.0 && mishaps == old(mishaps) ==>
                (Rests(c, goal, old(Seen()), Seen()) && refusals == old(refusals) ==> handle == Succeeded)
                && (NeverLeft(c, goal, old(Seen()), Seen()) ==> handle == Succeeded)
      ensures old(handle) == Executing && mishaps == old(mishaps) && refusals == old(refusals) ==>
        && |measured| > |old(measured)|
        && Travelled(goal, measured[|old(measured)|], trip, old(commands), commands)
      ensures ReversesByChoice(c, goal, trip, old(commands), commands)
      ensures slot == Release(Occupy(old(slot))) && Free(slot) && slot.id.None? && !motionAuthorized
      ensures |leases| > 0 && leases[|leases| - 1] == false
      ensures reversePlan.None? && |plans| > 0 && plans[|plans| - 1] == []
      ensures !handoffEnabled && !handoffRequested
    {
      hide ConfirmedSince, StandsThere, Rests, NeverLeft, Travelled;
      Begin();
      Reset();
      trip := Run(goal);
      Finally();
    }
  }

  // ----- Every interleaving of requests and executions -----

  /** A goal request, the start of the execution of an accepted goal, or the end of one. */
  datatype Event = Request(admissible: bool) | Start | Finish

  function SlotAfter(tr: seq<Event>): Slot {
    if |tr| == 0 then EMPTY_SLOT
    else
      var s := SlotAfter(tr[..|tr| - 1]);
      match tr[|tr| - 1]
      case Request(admissible) => Requested(s, admissible)
      case Start => Occupy(s)
      case Finish => Release(s)
  }

  predicate AcceptedLast(tr: seq<Event>) {
    && |tr| > 0 && tr[|tr| - 1].Request? && tr[|tr| - 1].admissible && Free(SlotAfter(tr[..|tr| - 1]))
  }

  function AcceptedGoals(tr: seq<Event>): nat {
    if |tr| == 0 then 0 else AcceptedGoals(tr[..|tr| - 1]) + (if AcceptedLast(tr) then 1 else 0)
  }

  function Count(tr: seq<Event>, e: Event): nat {
    if |tr| == 0 then 0 else Count(tr[..|tr| - 1], e) + (if tr[|tr| - 1] == e then 1 else 0)
  }

  // The action server starts each accepted goal at most once and finishes only started ones.
  ghost predicate Legal(tr: seq<Event>) {
    |tr| == 0
    || var p := tr[..|tr| - 1];
       && Legal(p)
       && (tr[|tr| - 1] == Start ==> Count(p, Start) < AcceptedGoals(p))
       && (tr[|tr| - 1] == Finish ==> Count(p, Finish) < Count(p, Start))
  }

  /** At most one goal is reserved or active, under every interleaving: the flags say exactly
      whether an accepted goal is still waiting or running, so a goal is accepted only when
      every earlier one has finished, and the goal number counts the accepted goals. */
  lemma {:induction false} OneGoalAtATime(tr: seq<Event>)
    requires Legal(tr)
    ensures var s := SlotAfter(tr);
      && !(s.active && s.reserved)
      && AcceptedGoals(tr) - Count(tr, Start) == (if s.reserved then 1 else 0)
      && Count(tr, Start) - Count(tr, Finish) == (if s.active then 1 else 0)
      && s.sequence == AcceptedGoals(tr) && (s.id == if Free(s) then None else Some(s.sequence))
    ensures AcceptedLast(tr) ==> AcceptedGoals(tr) == Count(tr, Finish) + 1
  {
    if |tr| > 0 {
      OneGoalAtATime(tr[..|tr| - 1]);
    }
  }

  // ----- The direct route -----

  /** A direct route is refused exactly when no permitted direction can be turned to within the
      limit, and otherwise takes the permitted direction with the smaller turn. */
  lemma {:induction false} DirectRouteLeastTurn(forwardTurn: real, reverseTurn: real, limit: real, automaticReverse: bool)
    ensures var choice := ChooseDirectRouteMode(forwardTurn, reverseTurn, limit, automaticReverse);
      && (automaticReverse ==>
            && (choice.None? <==> Abs(forwardTurn) > limit && Abs(reverseTurn) > limit)
            && (choice.Some? ==> Abs(choice.value.1) == Min(Abs(forwardTurn), Abs(reverseTurn)) <= limit))
      && (!automaticReverse ==>
            && (choice.None? <==> Abs(forwardTurn) > limit + 0.000001)
            && (choice.Some? ==> choice.value == (Forward, forwardTurn)))
      && (choice.Some? ==> choice.value.1 == if choice.value.0.Forward? then forwardTurn else reverseTurn)
  {
  }
}
