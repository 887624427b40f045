# Verified models of the robot navigation stack

This project models the decision logic of a ROS 2 navigation stack for a skid-steer robot and
proves properties of it in Dafny 4.11. `dafny verify dfyconfig.toml` checks everything.

## What is modelled

**The motion safety gate** decides, fifty times a second, what reaches the chassis.
`UltrasonicLatch.dfy` and `FitnessHysteresis.dfy` hold its two filters as the classes they are, with
what they mean for whole sample histories. `GateModel.dfy` is the gate as a state machine on values,
one function for each callback; `GateNode.dfy` is the node itself, attributes updated in place, each
method proved against that machine; the object carries its whole run as ghost history, and every
published twist is proved safe with respect to it. `GateOutput.dfy` says what one tick may publish in
any state. `GateTraces.dfy`, `GateHistories.dfy` and `GateBudgets.dfy` speak of whole runs: any events
in any order with any receive times; `GateEvidence.dfy` says from the messages alone when the gate is
armed, recovers and moves, and `GateSafety.dfy` sums them up. `GateRuns.dfy` and
`GateCounterexamples.dfy` hold concrete runs from the initial state.

**The goal protocol.** `GoalBridge.dfy` turns operator clicks into action goals against a server that
answers at any time in any way; `GoalClicks.dfy` says what each click, answer and timer does, told from
what was sent and what finished; `GoalOrder.dfy` says in which order goals are sent and which are lost. `GoalAdapter.dfy` executes one goal at a time; measured poses, child
results, cancel requests and exceptions are arbitrary, and the goal handle follows the states of a
ROS 2 action goal (executing or canceling, then exactly one of succeeded, canceled, aborted).
`ReversePlan.dfy` and `ReverseDrive.dfy` join the two nodes: the plan that the adapter samples, the
verdict of the gate, and the handshake on a whole drive; `StraightRoutes.dfy` says what that verdict
means geometrically for any plan.
`PositionCorrection.dfy` is the geometry of the last-centimetre reverse.

**Grids, voxels and buffers.** `OccupancyGrids.dfy`, `Paths.dfy`, `CostmapSearch.dfy` and
`Corridor.dfy` cover the costmap searches and the corridor check, `VoxelComponents.dfy` the
clustering, `PcdRewrite.dfy` the in-place rewrite of a point cloud file, `FloorLevelling.dfy` that
rewrite with the levelling rotation, and `CloudFilter.dfy` the two paths of the obstacle-cloud filter.

**Rigid motions.** `Quaternions.dfy`, `RotationMatrices.dfy` and `FloorRotation.dfy` work over the
reals. The only fact taken as given is that a square root is non-negative and squares back; it is a
hypothesis (`IsSqrt`), as are the properties of the planar distance and of angle wrapping in `Maths`.

## What the proofs found

- A reverse output needs the rear sensors in every run exactly when the smallest translation that the
  gate passes is above 0.001 m/s, or the gate cannot drive at all. Otherwise a run that arms with a
  healthy rear, lets the rear sensors go stale and commands 0.001 m/s reverses blind
  (`RearGuardCompleteIff`).
- The spin budget is kept on commands, not on outputs. With it used up, a turn on the spot still comes
  out exactly when the command turns and its translation is lost: to the rear taper, to the speed cap,
  or to a chassis limit below the smallest translation (`UncountedTurnExactly`, `UncountedTurnCauses`).
  Runs from the initial state show the taper, the approach cap and the recovery cap
  (`TaperedTurnHappens`, `CappedTurnHappens`, `RecoveringTurnHappens`). With a smallest translation at
  or below the approach and recovery speeds, as in the default parameters, only the taper is left
  (`UncountedTurnIsTaperedReverse`).
- The assignment at `scripts/nav_motion_safety_gate.py:796` writes an attribute that nothing reads; it
  never matters (`HoldTimerIrrelevantWhileBlocked`).
- One degraded recovery per goal does not hold: an arm call that succeeds on a blocked localization
  above the fitness limit starts another one, and a disarm gives the attempt back, so that after arming
  again a fitness message starts another one too. `OneRecoveryPerGoal` is the exact condition for a
  start, `SecondRecoveryHappens` a run with two.
- The newest goal does not always win at the bridge. A click in the pause before a waiting goal is
  dispatched is sent at once and the older goal follows it: goals are sent in order of arrival exactly
  when no goal is sent after it was overtaken in this way (`SentInOrderIff`, `StaleIffOvertaken`; runs in
  `WaitingGoalOvertaken`, `OlderGoalRunsLater`). And the retry of a refused goal takes the place of a
  waiting one, which is then the newer one exactly when it was never overtaken (`NewerLostIff`,
  `QueuedGoalKeptIff`; a run in `NewerGoalLost`).
- `canceled()` is reported at `scripts/aligned_nav_goal_adapter.py:3078-3080` although nobody may have
  asked for it; the report then raises and the exception handler aborts the goal, so there is still
  exactly one report (`Execute`).
- After a lead-in the robot turns towards the goal itself, even when the way leads by a staging pose
  (`scripts/aligned_nav_goal_adapter.py:2763-2770`, `ItineraryExactly`).
- The gate accepts the adapter's sampled plan exactly when its tolerances admit a line and the segment
  is a centimetre long and meets the minimum length: below a centimetre the thinning leaves one point
  (`StraightPlanAcceptedIff`).

## Model

| member | source | states |
|---|---|---|
| Ultrasonic.UltrasonicLatch.Update | scripts/nav_motion_safety_gate.py:51-95 | one sample takes the latch attributes, in place, to the next state of the latch machine |
| Ultrasonic.FoldMatches | scripts/nav_motion_safety_gate.py:42-95 | after any history the attributes are what the history alone determines: the last blocking sample, its time, and the length of the evidence run that ends the history |
| Ultrasonic.LatchIsBatch | scripts/nav_motion_safety_gate.py:42-95 | the online latch is blocked exactly when some sample blocked and no run of the required number of consecutive same-kind clear samples lies wholly after the last blocking one and at least the hold time after it |
| Ultrasonic.ReadingsExactly | scripts/nav_motion_safety_gate.py:58-80 | a reading fails to block exactly when it is above the stop distance or says that there is no echo, and is evidence for clearing exactly when it says that or lies at the clear distance or beyond |
| Ultrasonic.RequiredExactly | scripts/nav_motion_safety_gate.py:54-57 | at least one sample of evidence is needed, and for missing echoes never fewer than for echoes |
| Fitness.FitnessHysteresis.Update | scripts/nav_motion_safety_gate.py:98-136 | one fitness sample takes the hysteresis attributes to the next state, with the thresholds of that sample |
| Fitness.FitnessHysteresis.ResetClearCount | scripts/nav_motion_safety_gate.py:793-797 | a recovery start zeroes the clear count and leaves the hold timer alone |
| Fitness.FoldTracks | scripts/nav_motion_safety_gate.py:98-136 | after any history, under changing thresholds, the clear count is the length of the final good run and the hold timer is the first sample of the final over-threshold run |
| Fitness.UnblocksExactly | scripts/nav_motion_safety_gate.py:106-124 | a blocked hysteresis unblocks on a sample if and only if the required number of consecutive finite samples ends there, each at most the clear threshold then in force |
| Fitness.BlocksExactly | scripts/nav_motion_safety_gate.py:106-136 | an open hysteresis blocks on a sample if and only if it is not finite or it extends an unbroken over-threshold run that began a full hold time earlier |
| Fitness.OpenNeedsRelease | scripts/nav_motion_safety_gate.py:98-136 | since the hysteresis starts blocked, it is open only after a release was earned and nothing blocked since |
| Fitness.HoldTimerIrrelevantWhileBlocked | scripts/nav_motion_safety_gate.py:785-804 | the write to a misspelt attribute at line 796 cannot matter: whatever the hold timer holds at a recovery start, every later blocked flag and clear count is the same |
| ReversePlan.MakeStraightPath | scripts/aligned_nav_goal_adapter.py:775-798 | the sampling loop yields the evenly spaced points from start to target, at least three |
| ReversePlan.ThinPlan | scripts/nav_motion_safety_gate.py:682-688 | keeps the poses that are a centimetre or more from the last one kept |
| ReversePlan.MeasureLegs | scripts/nav_motion_safety_gate.py:692-702 | the lengths and headings of the legs of at least a micrometre |
| ReversePlan.ClassifyPlan | scripts/nav_motion_safety_gate.py:681-737 | the straightness verdict on any plan |
| StraightRoutes.ThinnedPlan | scripts/nav_motion_safety_gate.py:682-688 | thinning keeps poses of the plan a centimetre or more apart and drops only poses within a centimetre of a kept one |
| StraightRoutes.LateralMeans | scripts/nav_motion_safety_gate.py:718-722 | the lateral error is the distance from the line through the first and the last kept point |
| StraightRoutes.ClassifiedExactly | scripts/nav_motion_safety_gate.py:681-737 | any plan is classified as straight if and only if its kept points stay within the lateral limit of that line, all leg headings differ by at most the span, and the length lies between the minimum and the ratio times the chord |
| StraightRoutes.AcceptingIsTolerant | scripts/nav_motion_safety_gate.py:681-737 | limits that accept any plan at all admit a straight line |
| StraightRoutes.PassedPlanIsNarrow | scripts/nav_motion_safety_gate.py:681-737 | every pose of a plan that passes, kept or dropped, lies within the lateral limit and a centimetre of one line |
| ReversePlan.StraightPathShape | scripts/aligned_nav_goal_adapter.py:775-798 | the sampled path begins at the start, ends at the target and steps by one constant vector |
| ReversePlan.SpacedPlanLegs | scripts/nav_motion_safety_gate.py:681-737 | on a sampled segment of two centimetres or more no sample is thinned, all legs are alike and they add up to the segment |
| ReversePlan.StraightPlanAcceptedIff | scripts/nav_motion_safety_gate.py:681-737 | whatever the pose, the target and the limits, the gate classifies the adapter's sampled segment as straight exactly when the tolerances admit a line, and the segment is a centimetre long and meets the minimum length |
| ReversePlan.MicroReverseEndpoint | scripts/aligned_nav_goal_adapter.py:1604-1610 | the endpoint computed from a heading lies exactly the commanded distance away |
| GateNode.NavMotionSafetyGate.constructor | scripts/nav_motion_safety_gate.py:192-634 | the node starts disarmed, blocked and with nothing received, with an empty run behind it |
| GateNode.NavMotionSafetyGate.OnPlan | scripts/nav_motion_safety_gate.py:756-767 | a straight plan raises the confirmation count up to the required one, any other plan zeroes it |
| GateNode.NavMotionSafetyGate.OnSpeedProfilePlan | scripts/nav_motion_safety_gate.py:770-783 | a plan of two poses or more sets the remaining path to its length; a shorter one changes nothing |
| GateNode.NavMotionSafetyGate.StartDegradedRecovery | scripts/nav_motion_safety_gate.py:785-804 | the recovery starts attempted, with zero totals, at the current yaw |
| GateNode.NavMotionSafetyGate.StartRecoveryIfEligible | scripts/nav_motion_safety_gate.py:806-834 | starts a recovery exactly under the eligibility condition |
| GateNode.NavMotionSafetyGate.OnLocalization | scripts/nav_motion_safety_gate.py:820-899 | stamp, fitness, recovery start, hysteresis under the thresholds in force, and recovery progress, in that order |
| GateNode.NavMotionSafetyGate.OnOdom | scripts/nav_motion_safety_gate.py:914-968 | odometry, recovery totals, goal travel and spin budget after a pose |
| GateNode.NavMotionSafetyGate.OnGoalActive | scripts/nav_motion_safety_gate.py:993-1036 | the lease, and on a rising edge the reset of spin, travel, remaining path and recovery, with a possible recovery start |
| GateNode.NavMotionSafetyGate.OnUltrasonicRange | scripts/nav_motion_safety_gate.py:1038-1076 | time and range always; both latches of the sensor unless the reading is the vehicle itself |
| GateNode.NavMotionSafetyGate.OnSetArm | scripts/nav_motion_safety_gate.py:1286-1321 | arming only under every prerequisite, refusal disarms, disarming ends a recovery, and each change resets the spin budget |
| GateNode.NavMotionSafetyGate.Reason | scripts/nav_motion_safety_gate.py:1333-1496 | the first reason, in the cascade's order, that blocks motion |
| GateNode.NavMotionSafetyGate.RearReverseSpeedScale | scripts/nav_motion_safety_gate.py:1155-1180 | zero unless both rear sensors allow reversing, otherwise the smaller taper of the two readings |
| GateNode.NavMotionSafetyGate.Publish | scripts/nav_motion_safety_gate.py:1674-1728 | the published twist and the opening of the spin budget |
| GateNode.NavMotionSafetyGate.Tick | scripts/nav_motion_safety_gate.py:1333-1728 | after every sequence of events, the published twist is the one that the run so far determines, and it is safe with respect to that run: links alive, release earned, rear and plan there for a reverse, budgets not used up |
| GateNode.NavMotionSafetyGate.Handle | scripts/nav_motion_safety_gate.py:635-1728 | whatever the event, attributes, latches and hysteresis stay those of the state that the lengthened run leads to |
| GateNode.NavMotionSafetyGate.Serve | scripts/nav_motion_safety_gate.py:1731-1738 | over a whole life of the node, every twist it publishes is the one that the run up to then determines, and is safe |
| GateSafety.OutputIsSafe | scripts/nav_motion_safety_gate.py:1333-1728 | whatever the run and the time, the output of a tick meets every safety condition at once |
| GateOutput.ProfileIsMinimum | scripts/nav_motion_safety_gate.py:145-164 | the profile is the lower of a start limit of the travelled distance and an approach ramp of the remaining path, and stays between the approach minimum and the cruise speed |
| GateOutput.ProfileMonotone | scripts/nav_motion_safety_gate.py:145-164 | more travel or a longer remaining path never lowers the cap |
| GateOutput.CapPositive | scripts/nav_motion_safety_gate.py:1526-1543 | the cap in force is positive, at most the profile, and at most the recovery speed during a recovery |
| GateOutput.OutputBounds | scripts/nav_motion_safety_gate.py:1674-1728 | every nonzero output keeps the command's linear direction and is bounded by the command, the chassis, the profile and the curvature or in-place limit |
| GateOutput.NegativeSpeedNeedsRear | scripts/nav_motion_safety_gate.py:1108-1179 | a negative output speed implies both rear sensors enabled, healthy, fresh and unblocked in the reverse latches even when only the turn latches were consulted, and the taper bound for each finite reading |
| GateRuns.MovesForwardIff | scripts/nav_motion_safety_gate.py:1333-1728 | some run drives forward, at the chassis limit even, if and only if no timeout in use is negative and the smallest translation is not above that limit |
| GateRuns.MovesBackwardIff | scripts/nav_motion_safety_gate.py:1155-1728 | some run drives backwards if and only if the gate can drive at all and either the smallest translation is not above the guard threshold, or the rear sensors are in use, the taper has room and the plan limits accept some plan; then also at the chassis limit |
| GateRuns.MovingNeedsService | scripts/nav_motion_safety_gate.py:1238-1496 | a run that moves implies that no timeout in use is negative |
| GateCounterexamples.RearGuardCompleteIff | scripts/nav_motion_safety_gate.py:1695-1706 | in all runs every reverse output has fresh, healthy and unblocked rear sensors if and only if the smallest translation is above a millimetre per second or the gate cannot drive at all; otherwise a concrete run reverses with stale sensors |
| GateHistories.ReverseOpenExactly | scripts/nav_motion_safety_gate.py:1212-1236 | in every run the plan side of the reverse permission is open if and only if the last plan is fresh and the required number of latest plans were all straight routes |
| GateHistories.ReverseNeedsStraightRoutes | scripts/nav_motion_safety_gate.py:1212-1236 | in every run the chassis moves under a reverse command beyond the guard threshold only when the last required plans were all straight routes, the last came in time, and the command turns within the limit |
| GateOutput.ReadyIff | scripts/nav_motion_safety_gate.py:1333-1496 | the cascade of reasons is ready exactly when one conjunction of conditions holds |
| GateOutput.PermittedCommandPasses | scripts/nav_motion_safety_gate.py:1688-1728 | a permitted forward command within the limits keeps its speed, and its turn within the curvature bound |
| GateOutput.PermittedTurnPasses | scripts/nav_motion_safety_gate.py:1688-1728 | a permitted in-place turn within the limits is published as that turn |
| GateOutput.OutputExactly | scripts/nav_motion_safety_gate.py:1674-1718 | in every moving state the published speed and turn have the signs of the command, and their magnitudes are exactly the least of the commanded one and the limits that apply: chassis, rear taper and profile for the speed; chassis, recovery and then the in-place or the curvature limit for the turn |
| GateOutput.ScaleExactly | scripts/nav_motion_safety_gate.py:1155-1180 | the rear taper is zero exactly when a rear condition fails, one without the taper, and otherwise the smaller share of the way from the stop to the clear distance |
| GateOutput.CapExactly | scripts/nav_motion_safety_gate.py:1526-1543 | the cap in force is exactly the least of the start limit, the approach ramp and, in a recovery, the recovery speed |
| GateOutput.ClampsIff | scripts/nav_motion_safety_gate.py:1688-1727 | a two-sided clamp never enlarges a value exactly when its limit is not negative |
| GateTraces.LinksRemembered | scripts/nav_motion_safety_gate.py:970-991 | in every run the operator and chassis state is that of the last such message, and the chassis count is the number of messages |
| GateTraces.InputsRemembered | scripts/nav_motion_safety_gate.py:635-968 | likewise for obstacles, odometry, command and plan time |
| GateTraces.MissionRemembered | scripts/nav_motion_safety_gate.py:820-1036 | likewise for the goal lease and the localization |
| GateTraces.RearRemembered | scripts/nav_motion_safety_gate.py:985-1060 | likewise for the rear sensor health, times and ranges |
| GateTraces.ArmedExactly | scripts/nav_motion_safety_gate.py:1286-1321 | the gate is armed exactly when the last arm call of the run succeeded under every prerequisite |
| GateEvidence.ArmedByMessages | scripts/nav_motion_safety_gate.py:1238-1321 | in every run the gate is armed if and only if the last arm call asked for it and, at that moment, the last heartbeat, chassis, localization, odometry, obstacle, sonar health and range messages were each recent and good, and the localization had earned its release or may be recovered |
| GateEvidence.RecoveryStartsExactly | scripts/nav_motion_safety_gate.py:785-1321 | in every run an event starts a recovery exactly when it is a poor but usable score of an armed gate with an active goal and the attempt unspent, the first message of a goal on such a score, or an arm call that succeeds on one above the fitness limit |
| GateEvidence.ThresholdsExactly | scripts/nav_motion_safety_gate.py:167-188 | the numbers by which a score is judged: the terminal ones near the end of an active goal, those with the recovery's sample count in a recovery, and the normal ones otherwise |
| GateEvidence.MovesExactly | scripts/nav_motion_safety_gate.py:1333-1496 | in every run and at every moment the gate moves exactly when the messages of the run, their times and their contents, meet every condition of the cascade |
| GateEvidence.OpensExactly | scripts/nav_motion_safety_gate.py:1701-1714 | a tick opens the spin budget exactly when it moves on a bare turn with the budget closed |
| GateEvidence.ResetsExactly | scripts/nav_motion_safety_gate.py:906-968 | a pose resets the spin budget exactly when it lies the reset distance or more from where the open budget began |
| GateTraces.FailClosed | scripts/nav_motion_safety_gate.py:1333-1728 | with lease and heartbeat required, a nonzero output implies that the last arm call succeeded, that every required message arrived in time with acceptable content, and that the output follows the last command within its bounds |
| GateHistories.LatchesFold | scripts/nav_motion_safety_gate.py:1038-1076 | in every run each latch is the fold of its sensor's samples with self-echoes erased |
| GateHistories.ReverseOutputNeedsRear | scripts/nav_motion_safety_gate.py:1108-1179 | in every run a reverse output implies healthy, fresh rear sensors whose histories do not block, and with the taper on a speed within the taper of each last reading |
| GateOutput.TurnNeedsRear | scripts/nav_motion_safety_gate.py:1437-1496 | with the turn guard on and no negative turn limit, an output that turns beyond the threshold needs healthy, fresh rear sensors unblocked in the turn latches |
| GateHistories.TurnOutputNeedsRear | scripts/nav_motion_safety_gate.py:1437-1496 | in every run the same, with the latches read from the range histories |
| GateHistories.HysteresisIsHistory | scripts/nav_motion_safety_gate.py:820-865 | in every run the hysteresis is the fold of its fitness history, each sample with the thresholds of its mode |
| GateHistories.GateUnblocksExactly | scripts/nav_motion_safety_gate.py:820-865 | a fitness message releases the gate if and only if it completes the required run of samples |
| GateHistories.GateBlocksExactly | scripts/nav_motion_safety_gate.py:820-865 | a fitness message blocks the gate if and only if it is not finite or extends a full over-threshold hold |
| GateHistories.MotionNeedsRelease | scripts/nav_motion_safety_gate.py:1369-1388 | the chassis moves only after a release was earned and not since revoked |
| GateHistories.TerminalExactly | scripts/nav_motion_safety_gate.py:167-188 | the terminal thresholds judge a sample if and only if a goal is active and a short enough plan arrived after its rising edge |
| GateHistories.RemainingExactly | scripts/nav_motion_safety_gate.py:770-783 | the remaining path is finite exactly when a usable speed plan arrived with no goal begun since, and then it is the length of the last one |
| GateHistories.PlansCounted | scripts/nav_motion_safety_gate.py:756-767 | the confirmation count is the number of straight plans in a row, capped at the required one |
| GateHistories.ReverseHandshake | scripts/nav_motion_safety_gate.py:756-767 | after an empty plan, while only the adapter's plans arrive, the reverse permission is open exactly when the required number of them has arrived and the last one is fresh |
| GateBudgets.MemoryKept | scripts/nav_motion_safety_gate.py:914-1016 | the three odometry memories always agree with the last pose |
| GateBudgets.GoalTravel | scripts/nav_motion_safety_gate.py:932-943 | the travelled distance that the profile sees is the sum of the odometry steps since the goal's rising edge |
| GateBudgets.RecoveryEndsExactly | scripts/nav_motion_safety_gate.py:886-899 | a recovery ends exactly when it is called off or the required number of consecutive strict samples since its start is complete |
| GateBudgets.RecoveryTotals | scripts/nav_motion_safety_gate.py:886-943 | during a recovery the travelled and rotated totals are the sums of the odometry increments since the last start or rising edge |
| GateBudgets.RecoveryBudget | scripts/nav_motion_safety_gate.py:1389-1404 | in recovery the chassis moves only while both sums are below their limits |
| GateBudgets.AttemptedExactly | scripts/nav_motion_safety_gate.py:785-1036 | the attempt flag is set if and only if a recovery started, or was carried into a goal, and the attempt was not given back since |
| GateBudgets.OneRecoveryPerGoal | scripts/nav_motion_safety_gate.py:806-834 | while a goal stays active a recovery starts exactly by an arm call that succeeds on a blocked localization above the fitness limit, or by a fitness message on a recoverable gate with no recovery started or carried in since the last disarm |
| GateCounterexamples.SecondRecoveryHappens | scripts/nav_motion_safety_gate.py:1286-1321 | a concrete run in which a disarm lets a fitness message start a second recovery of the same goal |
| GateBudgets.SpinLimitExact | scripts/nav_motion_safety_gate.py:906-968 | the limit flag holds exactly when the total has reached the limit, and a closed budget is unused |
| GateBudgets.SpinTotal | scripts/nav_motion_safety_gate.py:914-968 | the total of an open budget is the wrapped yaw reported under in-place commands since the tick that opened it, with no reset since and the reset distance measured from there |
| GateBudgets.SpinBudget | scripts/nav_motion_safety_gate.py:1410-1418 | under an in-place command the chassis moves only while that sum is below the limit |
| GateBudgets.ExhaustionEndsExactly | scripts/nav_motion_safety_gate.py:906-968 | one event ends an exhausted budget if and only if it resets the budget |
| GateBudgets.ExhaustionHolds | scripts/nav_motion_safety_gate.py:1410-1418 | after exhaustion every tick under an in-place command publishes a stop, in every continuation without a reset |
| GateBudgets.UncountedTurnExactly | scripts/nav_motion_safety_gate.py:1674-1718 | in every run with the budget used up and for all accepted parameters, a tick that moves publishes a bare turn if and only if the limited turn exceeds the threshold and the translation asked for is below the smallest one after chassis limit, taper and cap |
| GateBudgets.UncountedTurnCauses | scripts/nav_motion_safety_gate.py:1674-1718 | such a command asks for a turn and for a translation that would pass, and the bare turn comes out exactly when that translation is lost to the chassis limit, the rear taper or the speed cap |
| GateBudgets.UncountedTurnIsTaperedReverse | scripts/nav_motion_safety_gate.py:1674-1718 | when the smallest translation is at most the approach and the recovery speed, those bare turns are exactly the tapered reverse commands with a turn |
| GateCounterexamples.TaperedTurnHappens | scripts/nav_motion_safety_gate.py:1695-1718 | a concrete run from the start in which a reverse command, slowed by the taper, comes out as a bare turn with the budget used up |
| GateCounterexamples.CappedTurnHappens | scripts/nav_motion_safety_gate.py:1696-1718 | a concrete run in which a forward command does, when the approach speed is below the smallest translation |
| GateCounterexamples.RecoveringTurnHappens | scripts/nav_motion_safety_gate.py:1530-1543 | a concrete run in which a forward command does during a degraded recovery, when the recovery speed is below the smallest translation |
| GoalBridge.RvizGoalPoseBridge.OnGoalPose | scripts/rviz_goal_pose_bridge.py:215-275 | age, order, frame, orientation and duplicate filters, then queue, refusal or submission |
| GoalBridge.RvizGoalPoseBridge.DispatchQueuedGoal | scripts/rviz_goal_pose_bridge.py:146-161 | the queued goal is submitted when nothing is in flight, it is due and the server is ready |
| GoalBridge.RvizGoalPoseBridge.SubmitGoal | scripts/rviz_goal_pose_bridge.py:277-312 | sends the goal and records it as current, or queues it when the server is not ready |
| GoalBridge.RvizGoalPoseBridge.OnGoalResponse | scripts/rviz_goal_pose_bridge.py:314-347 | acceptance, or a retry of the failed goal within the limit |
| GoalBridge.RvizGoalPoseBridge.OnGoalResult | scripts/rviz_goal_pose_bridge.py:349-373 | the goal is finished, its signature remembered and the queued goal scheduled |
| GoalBridge.OneInFlight | scripts/rviz_goal_pose_bridge.py:135-373 | in every run in which the server answers only what it was sent, at most one goal is unanswered or running, the flags say which, and the queued goal never has the signature of the one in flight |
| GoalBridge.SendsOnlyWhenIdle | scripts/rviz_goal_pose_bridge.py:146-161 | a goal is sent only when nothing is unanswered or running |
| GoalBridge.RepeatIsDropped | scripts/rviz_goal_pose_bridge.py:240-246 | a repeat of the goal in flight sends and cancels nothing and changes only the time of the newest sample |
| GoalBridge.CancelsOnlyForANewGoal | scripts/rviz_goal_pose_bridge.py:262-268 | a running goal is cancelled exactly by an admitted goal, which is then queued and has another signature |
| GoalBridge.SendsBounded | scripts/rviz_goal_pose_bridge.py:277-347 | no message is sent more than the retry limit plus one times, and the retry counters are exact |
| GoalOrder.QueuedGoalKeptIff | scripts/rviz_goal_pose_bridge.py:314-338 | a queued goal leaves the queue exactly when it is sent, replaced by a newer one, or overwritten by the retry of an older one |
| GoalOrder.StaleIffOvertaken | scripts/rviz_goal_pose_bridge.py:262-275 | in every legal run with distinct messages a goal that waits or is in flight is older than some goal already sent if and only if a newer click was sent over it while it waited |
| GoalOrder.SentInOrderIff | scripts/rviz_goal_pose_bridge.py:146-161 | goals are sent in the order in which they arrived if and only if no goal is sent after it was overtaken |
| GoalOrder.NewerLostIff | scripts/rviz_goal_pose_bridge.py:314-338 | when the retry of a failed goal takes the place of a waiting one, the one lost is the newer exactly when it was never overtaken |
| GoalOrder.WaitingGoalOvertaken | scripts/rviz_goal_pose_bridge.py:262-275 | a concrete legal run without any refusal in which a waiting goal is overtaken and sent last |
| GoalOrder.NewerGoalLost | scripts/rviz_goal_pose_bridge.py:314-338 | a concrete run in which the newer goal is overwritten without ever being sent |
| GoalOrder.OlderGoalRunsLater | scripts/rviz_goal_pose_bridge.py:314-373 | a concrete run in which an older goal is sent after a newer one has finished |
| GoalClicks.NearestExactly | scripts/rviz_goal_pose_bridge.py:173-183 | rounding gives the nearest integer, and the even one of two that are as near |
| GoalClicks.SignaturesExactly | scripts/rviz_goal_pose_bridge.py:173-183 | two goals have the same signature exactly when all seven coordinates agree to four decimals |
| GoalClicks.ClicksRemembered | scripts/rviz_goal_pose_bridge.py:277-355 | in every run the bridge remembers the goal sent last and the goal finished last with their times, the goal in flight is the one sent last, and the newest sample is the newest recent one |
| GoalClicks.ClickExactly | scripts/rviz_goal_pose_bridge.py:215-275 | in every run, from what was sent and what finished: a click does nothing unless it is recent, in order, in the frame, oriented and repeats none of the goal in flight, the waiting one, the last finished one and the last sent one within the window; otherwise it is sent when the bridge is idle and the server ready, and waits, cancelling the goal that runs, when it is not idle |
| GoalClicks.IdleClickSentIff | scripts/rviz_goal_pose_bridge.py:215-275 | with the bridge idle and the server ready, a click is sent if and only if it is wanted in that sense |
| GoalClicks.CooldownHolds | scripts/rviz_goal_pose_bridge.py:247-261 | a click like the goal finished last or sent last, within the window of it, sends, cancels and queues nothing |
| GoalClicks.FailureRetriesIff | scripts/rviz_goal_pose_bridge.py:314-338 | a goal that failed waits again exactly when it was not sent more often than the retry limit, for the handoff delay, and takes the queue |
| GoalClicks.ResultFrees | scripts/rviz_goal_pose_bridge.py:349-373 | a result frees the bridge and puts a waiting goal off by the handoff delay |
| GoalClicks.TimerExactly | scripts/rviz_goal_pose_bridge.py:146-161 | the timer sends the waiting goal exactly when nothing is in flight, its time has come and the server is ready |
| GoalAdapter.AlignedNavGoalAdapter.OnGoal | scripts/aligned_nav_goal_adapter.py:2012-2051 | a goal is accepted exactly when armed, ready, in the map frame and the slot is free, and then reserves it |
| GoalAdapter.AlignedNavGoalAdapter.ConfirmFinalPose | scripts/aligned_nav_goal_adapter.py:1500-1536 | true only if the last required measurements, all made here, are inside both tolerances; false only on a pose outside them or not measurable |
| GoalAdapter.AlignedNavGoalAdapter.RunFinalAlignment | scripts/aligned_nav_goal_adapter.py:1371-1498 | true, when not already done, only after such a confirmation |
| GoalAdapter.AlignedNavGoalAdapter.ConvergeFinalPose | scripts/aligned_nav_goal_adapter.py:1765-1851 | true only after such a confirmation, through every cycle of corrections |
| GoalAdapter.AlignedNavGoalAdapter.FinishIfPositionReached | scripts/aligned_nav_goal_adapter.py:1853-1896 | reports on the goal exactly when it says so, and a success only after such a confirmation |
| GoalAdapter.AlignedNavGoalAdapter.PlanRoute | scripts/aligned_nav_goal_adapter.py:2525-2736 | aborts exactly when the corridor is clear and no permitted direction can be turned to; a clear corridor is driven in the chosen direction, forward by way of a staging pose only when the final heading asks for one and the pose found is useful, with the turn that goes with it; anything else goes forward, staged exactly when a pose is found |
| GoalAdapter.AlignedNavGoalAdapter.DriveStraightReverse | scripts/aligned_nav_goal_adapter.py:2860-2908 | when the child goal is sent the sampled segment has been published at least twice and nothing else since the drive began; afterwards only the timer repeats it until it is withdrawn |
| ReverseDrive.DriveOpensGate | scripts/aligned_nav_goal_adapter.py:2865-2875 | if the plans the gate receives after a withdrawal are n copies of that segment, its reverse permission is open exactly when n meets the confirmations and the last copy is fresh |
| ReverseDrive.WithdrawalCloses | scripts/aligned_nav_goal_adapter.py:809-813 | the withdrawal closes the permission at once |
| GoalAdapter.AlignedNavGoalAdapter.RunStraightReverse | scripts/aligned_nav_goal_adapter.py:2847-2971 | exactly one report unless it raises, a success only after confirmation, and success whenever nothing is refused and every pose after the last drive is inside all tolerances; the distance reversed is that from a pose measured here |
| GoalAdapter.AlignedNavGoalAdapter.RunPlannedRoute | scripts/aligned_nav_goal_adapter.py:2973-3143 | exactly one report unless it raises, a success only after confirmation whenever alignment was asked for, and success whenever nothing is refused and every pose after the last drive is inside all tolerances |
| GoalAdapter.AlignedNavGoalAdapter.Execute | scripts/aligned_nav_goal_adapter.py:2429-3166 | for any measurements, child results, cancellations and exceptions: exactly one report on the goal, success only if the last required measurements of this goal show arrival, and afterwards the slot is free, the lease withdrawn and the reverse plan cleared; and it does succeed when nothing goes wrong, no answer of the surroundings stands in the way and every pose after the last drive is inside all tolerances, or when no pose is ever outside; without a refusal exactly the way to the goal is asked for, and in no case is a reverse asked for unless a clear corridor is to be driven so |
| GoalAdapter.AlignedNavGoalAdapter.PreAlign | scripts/aligned_nav_goal_adapter.py:2738-2815 | the turns before the route: the lead-in with a turn taken anew, or the planned turn; a blocked turn to reverse leads back to the planner |
| GoalAdapter.AlignedNavGoalAdapter.TravelAlong | scripts/aligned_nav_goal_adapter.py:2738-3143 | turns, route and ending in that order, and success whenever nothing is refused and every pose after the last drive is inside all tolerances |
| GoalAdapter.ItineraryExactly | scripts/aligned_nav_goal_adapter.py:2525-3021 | what is asked for, case by case: the planner at once without a clear corridor; through one a turn away from the goal and a reverse over the distance left, or a turn to the goal or to a staging pose that is worth it and the planner |
| GoalAdapter.DirectionExactly | scripts/aligned_nav_goal_adapter.py:43-62 | a clear corridor is driven forward when the turn ahead is permitted and not larger than the turn back, in reverse when only that turn is permitted, and otherwise not at all |
| GoalAdapter.WorthExactly | scripts/aligned_nav_goal_adapter.py:194-205 | a staging pose is used exactly when the detour is at most 15 centimetres or a tenth longer and its turn at most 0.52 rad larger |
| GoalAdapter.ConfirmedStands | scripts/aligned_nav_goal_adapter.py:1500-1536 | confirmed means: the last poses measured since, one at least and as many as asked for, lie within the position tolerance and point within the smallest angle |
| GoalAdapter.OneGoalAtATime | scripts/aligned_nav_goal_adapter.py:2033-2044 | under every interleaving at most one goal is reserved or active, and a goal is accepted only when every earlier one has finished |
| GoalAdapter.DirectRouteLeastTurn | scripts/aligned_nav_goal_adapter.py:43-62 | a direct route is refused exactly when no permitted direction can be turned to within the limit, and otherwise takes the permitted direction with the smaller turn |
| PositionCorrection.MicroReverseLands | scripts/aligned_nav_goal_adapter.py:137-176 | a chosen micro reverse ends within the tolerance less the margin, from any position and heading, and no other permitted distance ends closer |
| PositionCorrection.CorrectionExactly | scripts/aligned_nav_goal_adapter.py:137-176 | every answer: forward exactly when the target is nearly ahead, otherwise the micro reverse exactly when the target lies behind within reach and some permitted reverse lands inside the strict circle, otherwise the aligned reverse exactly when permitted, otherwise segments |
| PositionCorrection.MicroReversePlanAccepted | scripts/aligned_nav_goal_adapter.py:1604-1625 | its plan passes the gate exactly when the tolerances admit a line and the distance is a centimetre and meets the gate's minimum |
| Corridor.CorridorIsClear | scripts/aligned_nav_goal_adapter.py:2302-2315 | true exactly when every sampled cell is free, and then the cells form a chain from start to goal |
| Corridor.ClearCorridorIsChain | scripts/aligned_nav_goal_adapter.py:2291-2315 | consecutive sampled cells differ by at most one row and one column, from the start cell to the goal cell, all in the grid with a cost between zero and the maximum |
| OccupancyGrids.CellExactly | scripts/aligned_nav_goal_adapter.py:2291-2297 | a point lies in a cell exactly when it is between the cell's lower left corner, included, and its upper right one, excluded |
| OccupancyGrids.RowsAreRead | scripts/aligned_nav_goal_adapter.py:2291-2300 | the data are rows of cells from the bottom up, each from left to right: the cost at a cell is the one its row has there, and no cell outside has one |
| CostmapSearch.Connected | scripts/inspect_nav_goal_costmap.py:136-154 | true exactly when a chain of passable in-grid 4-neighbours joins start to goal; when false the count is the size of the reachable region |
| CostmapSearch.NearestPassable | scripts/inspect_nav_goal_costmap.py:77-92 | the nearest passable cell of the window, the first in scan order among equals |
| CostmapSearch.BlockedComponent | scripts/inspect_nav_goal_costmap.py:112-133 | size and bounding box of the 8-connected blocked region, exact when the region is smaller than the limit; otherwise a count from the limit to seven above it and a box whose sides touch the region |
| CostmapSearch.SearchEnds | scripts/inspect_nav_goal_costmap.py:136-154 | when the queue runs dry the cells met are exactly the region reachable from the start |
| CostmapSearch.StepsExactly | scripts/inspect_nav_goal_costmap.py:71-74 | the steps of the searches: to a cell that shares a side and is unknown or costs less than 99, or to one that shares a side or a corner and costs 99 or more |
| VoxelComponents.Grow | scripts/analyze_livox_self_returns.py:34-44 | one pass takes exactly the component of its seed out of the remaining voxels |
| VoxelComponents.ConnectedComponents | scripts/analyze_livox_self_returns.py:23-46 | duplicate-free, disjoint lists that cover the input, each connected, no two touching, sizes never increasing |
| Quaternions.RotateByProduct | scripts/fastlio_chassis_odometry.py:26-51 | rotating by a product is rotating twice |
| Quaternions.CrossFormAgreesIff | scripts/nav_tf_direct_relay.py:42-51 | the relay's cross-product rotation is the quaternion product form exactly on the unit quaternions |
| Quaternions.ComposeWorldBaseInverts | scripts/fastlio_chassis_odometry.py:66-86 | composing the result with the mounting pose gives back the lidar pose; it fails exactly when an orientation cannot be normalized |
| RotationMatrices.MatrixIsRotation | scripts/map_odom_tf_bridge.py:18-33 | the matrix of every quaternion is orthonormal with determinant one |
| RotationMatrices.UnitRoundTrip | scripts/map_odom_tf_bridge.py:36-63 | from the matrix of a unit quaternion each branch returns that quaternion or its opposite, by the sign of the pivot |
| RotationMatrices.RoundTrip | scripts/map_odom_tf_bridge.py:18-63 | matrix and back is the quaternion over its norm up to sign, with no zero divisor in any branch, and the matrix is unchanged |
| FloorRotation.TurnsExactly | scripts/level_binary_pcd.py:22-56 | away from the parallel and the reversed direction the matrix is a rotation that turns the source exactly onto the target |
| FloorRotation.RotationFromToCorrect | scripts/level_binary_pcd.py:15-63 | errors exactly on a zero vector or a reversal; otherwise a rotation, exact outside the near-parallel branch and within the stated gap inside it |
| PcdRewrite.FieldLayout | scripts/level_binary_pcd.py:82-94 | the offset of every field, later fields of a name winning, and the record size |
| PcdRewrite.FieldsTile | scripts/level_binary_pcd.py:82-94 | whatever the counts, every byte of a record belongs to exactly one field and every field lies in the record |
| PcdRewrite.FloatFieldsApart | scripts/level_binary_pcd.py:82-103 | two float fields of different names never overlap and lie inside the record |
| PcdRewrite.PlanIsSound | scripts/level_binary_pcd.py:139-145 | for every header, the words that the loop rewrites lie inside the record and never overlap |
| PcdRewrite.PlanExactly | scripts/level_binary_pcd.py:97-145 | the words that are rewritten, from the header alone: the last fields named x, y and z, and the three normal components exactly when all are listed |
| PcdRewrite.TurnRecords | scripts/level_binary_pcd.py:147-159 | in place, every point and every normal is turned and every other byte, trailing ones included, is unchanged |
| FloorLevelling.LevelFloor | scripts/level_binary_pcd.py:106-159 | refused with the buffer untouched exactly when the normal is zero or upside down or the payload does not fit its header; otherwise every point and normal is rotated by one rotation that takes the floor normal upright, and no other byte changes |
| FloorLevelling.RotateKeepsDot | scripts/level_binary_pcd.py:55-59 | a rotation keeps every dot product |
| FloorLevelling.LevelledHeight | scripts/level_binary_pcd.py:22-59 | after levelling, the height of a point is what it measured along the floor normal |
| PcdRewrite.LevelCloud | scripts/level_binary_pcd.py:124-159 | refusal leaves the payload untouched; otherwise the whole payload is levelled |
| CloudFilter.FilterByRows | scripts/nav_obstacle_cloud_republisher.py:248-287 | the row-stepped path yields the joined records of the points kept |
| CloudFilter.KeptRecord | scripts/nav_obstacle_cloud_republisher.py:248-283 | a kept record is a finite point off the chassis with its base-frame coordinates in the coordinate words and every other byte as in the message |
| CloudFilter.RecordKeptIff | scripts/nav_obstacle_cloud_republisher.py:251-281 | a record is kept if and only if its coordinate words lie in the buffer, all three are finite and the point lies outside the closed chassis box, and then it is the message's record with the base coordinates written in |
| CloudFilter.OutputIsFiltered | scripts/nav_obstacle_cloud_republisher.py:248-287 | the output is the kept ones of the points 0, stride, 2 * stride, ... below width * height, in order, each read at the start of its row plus its column |
| CloudFilter.PutInFlat | scripts/nav_obstacle_cloud_republisher.py:236-247 | a write through a strided view changes one coordinate of one record |
| CloudFilter.FilterContiguous | scripts/nav_obstacle_cloud_republisher.py:209-247 | the vectorised path yields the same records, byte for byte and in the same order, for any stride and offsets inside a record |
| CloudFilter.FilterCloud | scripts/nav_obstacle_cloud_republisher.py:202-287 | whichever branch the guard takes, the output is that of the row-stepped path: the kept points among every stride-th, in order |

## Left out

- Transport, executors, quality of service, transforms and timers: messages and results arrive in any order with any content, and each callback is one atomic step that reads the clocks once. The adapter's lease is read under its lock and published outside it; that race is not part of this model.
- Floating-point rounding and overflow: distances, angles and speeds are reals. Ranges and fitness values may be infinite or not a number, commands and odometry are finite.
- Status texts, logging, markers and the published diagnostics; the obstacle status arrives with its age already read from the text.
- The minimum and maximum range attributes of the ultrasonic messages, which only the status text shows.
- The drives made of child actions (terminal drive, micro reverse, segmented spin, turn clearance): they may take any time, measure any poses and return any result, since the source puts no bound on their recursion.
- GoalAdapter.AlignedNavGoalAdapter.PlanRoute: the corridor check and the search for a staging pose give any answer, which the contract names; `Corridor` models the check itself.
- GoalAdapter.AlignedNavGoalAdapter.DriveStraightReverse: how often the half-second timer repeats the plan is arbitrary, also while a refusal is awaited, because elapsed time is not part of this model.
- The feedback callbacks of the adapter: what they set (progress abort, terminal handoff, motion authorization) is arbitrary after each wait, and the poses that they measure are not counted.
- The wait for the first costmap in `execute`: it ends with or without a map.
- The goal inbox file of the bridge: it leads to the same goal callback with an explicit creation time.
- PcdRewrite.LevelCloud: parsing of the header text is not part of this model; sizes and counts are taken as non-negative numbers.
- FloorLevelling.LevelFloor: how four bytes hold a coordinate is a given pair of functions, which may round but always unpacks to a real number; negative sizes and counts are excluded as for `LevelCloud`.
- CloudFilter.FilterContiguous: both paths compute a point with the same exact arithmetic; the test injection and the output header are not part of this model.
- GateOutput.OutputExactly: the limits on turning are taken as non-negative; the node does not check them, and a negative limit turns the two-sided clamp into a fixed turn (`ClampsIff`).
- GoalAdapter.AlignedNavGoalAdapter.Execute: what is asked of the child actions is recorded as the kind of request with its turn or distance; the poses in a planner goal, the speeds and the time allowances are not part of this model.
- Roll-pitch-yaw conversions, map rotation estimation and the remaining nodes and diagnostics, which would add only simpler members.
