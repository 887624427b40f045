/** Which clicks the bridge takes, told from what happened alone: what was sent last, what finished last, when, and
    how old the samples were. */
module GoalClicks {
  import opened Numbers
  import opened Runs
  import opened GoalBridge

  // ----- Two goals that count as the same -----

  // The integer nearest to x: never more than one half away, and even when two integers are that near.
  predicate NearestTo(x: real, n: int) {
    && -0.5 <= x - n as real <= 0.5
    && (x - n as real == 0.5 || n as real - x == 0.5 ==> n % 2 == 0)
  }

  lemma {:induction false} NearestExactly(x: real, n: int)
    ensures RoundHalfEven(x) == n <==> NearestTo(x, n)
  {
    var low := x.Floor;
    if NearestTo(x, n) {
      assert n == low || n == low + 1;
      assert low % 2 == 0 <==> (low + 1) % 2 != 0;
    }
  }

  ghost predicate SameNearest(a: real, b: real) { exists n: int :: NearestTo(a, n) && NearestTo(b, n) }

  // Two readings with the same four decimals: the same infinity, or finite with the same multiple of 1/10000 nearest.
  ghost predicate SameDecimals(u: Reading, v: Reading) {
    if u.Finite? && v.Finite? then SameNearest(u.v * 10000.0, v.v * 10000.0) else u == v && u != NaN
  }

  ghost predicate SameGoal(a: Goal, b: Goal) {
    && SameDecimals(a.x, b.x) && SameDecimals(a.y, b.y) && SameDecimals(a.z, b.z)
    && SameDecimals(a.qx, b.qx) && SameDecimals(a.qy, b.qy) && SameDecimals(a.qz, b.qz) && SameDecimals(a.qw, b.qw)
  }

  lemma {:induction false} DecimalsExactly(u: Reading, v: Reading)
    ensures Same(Round4(u), Round4(v)) <==> SameDecimals(u, v)
  {
    hide RoundHalfEven, NearestTo;
    if u.Finite? && v.Finite? {
      var (a, b) := (RoundHalfEven(u.v * 10000.0), RoundHalfEven(v.v * 10000.0));
      NearestExactly(u.v * 10000.0, a);
      NearestExactly(v.v * 10000.0, b);
      if SameDecimals(u, v) {
        var n: int :| NearestTo(u.v * 10000.0, n) && NearestTo(v.v * 10000.0, n);
        NearestExactly(u.v * 10000.0, n);
        NearestExactly(v.v * 10000.0, n);
      }
      DecimalsDiffer(a, b);
    }
  }

  lemma {:induction false} DecimalsDiffer(a: int, b: int)
    ensures a as real / 10000.0 == b as real / 10000.0 <==> a == b
  {
  }

  /** Two goals have the same signature exactly when all seven coordinates agree to four decimals; a goal with a
      coordinate that is not a number is like no other. */
  lemma {:induction false} SignaturesExactly(a: Goal, b: Goal)
    ensures SameSignature(SignatureOf(a), SignatureOf(b)) <==> SameGoal(a, b)
  {
    hide Same, Round4, SameDecimals;
    DecimalsExactly(a.x, b.x);
    DecimalsExactly(a.y, b.y);
    DecimalsExactly(a.z, b.z);
    DecimalsExactly(a.qx, b.qx);
    DecimalsExactly(a.qy, b.qy);
    DecimalsExactly(a.qz, b.qz);
    DecimalsExactly(a.qw, b.qw);
  }

  // ----- What has happened -----

  // A goal, and a reading of the clock.
  datatype Mark = Mark(goal: Goal, at: real)

  // The last goal that was sent, and when.
  function LastSend(p: Params, tr: Run): Option<Mark> {
    if |tr| == 0 then None
    else
      var effects := LastEffects(p, tr);
      if |effects| > 0 && effects[0].Sent? then Some(Mark(effects[0].goal, Last(tr).env.now)) else LastSend(p, Init(tr))
  }

  // The last goal whose result came back, and when: at a result the goal sent last is the one that ran.
  function LastFinish(p: Params, tr: Run): Option<Mark> {
    if |tr| == 0 then None
    else if Last(tr).e.GoalResult? && LastSend(p, Init(tr)).Some? then
      Some(Mark(LastSend(p, Init(tr)).value.goal, Last(tr).env.now))
    else LastFinish(p, Init(tr))
  }

  // When a sample was made: the inbox says so, or else the message's stamp, or else it is taken to be new.
  function MadeAt(x: Arrival): int
    requires x.e.GoalPose?
  {
    match x.e.source
    case Some(t) => t
    case None => if x.e.stamp > 0 then x.e.stamp else x.env.wall
  }

  // The sample's age in nanoseconds is between minus five seconds and the maximum.
  predicate RecentSample(p: Params, x: Arrival)
    requires x.e.GoalPose?
  {
    var age := x.env.wall - MadeAt(x);
    age >= -5000000000 && age as real <= p.maxAge * 1000000000.0
  }

  // When the newest recent sample of the run was made, or 0.
  function NewestSample(p: Params, tr: Run): int {
    if |tr| == 0 then 0
    else
      var before := NewestSample(p, Init(tr));
      if Last(tr).e.GoalPose? && RecentSample(p, Last(tr)) && MadeAt(Last(tr)) > before then MadeAt(Last(tr)) else before
  }

  // A goal was sent and its result has not come.
  predicate Busy(p: Params, tr: Run) { Unanswered(p, tr) > 0 || Running(tr) > 0 }

  ghost predicate Like(m: Goal, mark: Option<Mark>) { mark.Some? && SameGoal(m, mark.value.goal) }

  ghost predicate LikeWithin(p: Params, m: Goal, mark: Option<Mark>, now: real) {
    Like(m, mark) && now - mark.value.at < p.duplicateWindow
  }

  // The goal repeats the one in flight, the one that waits, the one that finished last or the one sent last.
  ghost predicate Repeats(p: Params, tr: Run, m: Goal, now: real) {
    || (Busy(p, tr) && Like(m, LastSend(p, tr)))
    || (Reach(p, tr).queuedGoal.Some? && SameGoal(m, Reach(p, tr).queuedGoal.value))
    || LikeWithin(p, m, LastFinish(p, tr), now)
    || LikeWithin(p, m, LastSend(p, tr), now)
  }

  // The four components are finite and the quaternion's norm is at least one half.
  predicate Oriented(m: Goal) {
    && m.qx.Finite? && m.qy.Finite? && m.qz.Finite? && m.qw.Finite?
    && 4.0 * (m.qx.v * m.qx.v + m.qy.v * m.qy.v + m.qz.v * m.qz.v + m.qw.v * m.qw.v) >= 1.0
  }

  // A click that is worth taking.
  ghost predicate Wanted(p: Params, tr: Run, x: Arrival)
    requires x.e.GoalPose?
  {
    && RecentSample(p, x)
    && (NewestSample(p, tr) > 0 ==> MadeAt(x) >= NewestSample(p, tr))
    && x.e.frame == p.requiredFrame
    && Oriented(x.e.goal)
    && !Repeats(p, tr, x.e.goal, x.env.now)
  }

  // ----- The bridge remembers it -----

  ghost predicate Holds(signature: Option<Signature>, at: real, mark: Option<Mark>) {
    match mark
    case None => signature.None?
    case Some(m) => signature == Some(SignatureOf(m.goal)) && at == m.at
  }

  // The attributes hold what the run says.
  ghost predicate Remembers(p: Params, tr: Run, s: State) {
    && Holds(s.lastSignature, s.lastReceived, LastSend(p, tr))
    && Holds(s.lastFinishedSignature, s.lastFinishedAt, LastFinish(p, tr))
    && (InFlight(s) ==> LastSend(p, tr).Some? && s.currentGoal == Some(LastSend(p, tr).value.goal))
    && s.latestSource == NewestSample(p, tr)
  }

  lemma {:induction false} TimelyExactly(p: Params, s: State, x: Arrival)
    requires x.e.GoalPose?
    ensures Created(x.env, x.e.stamp, x.e.source) == MadeAt(x)
    ensures Timely(p, s, x.env, MadeAt(x)) <==> RecentSample(p, x) && (s.latestSource > 0 ==> MadeAt(x) >= s.latestSource)
  {
  }

  /** The two cooldowns and the sample filter rest on the run: the bridge remembers the goal sent last and the goal
      finished last with their times, the goal in flight is the one sent last, and the newest sample is the newest
      recent one, taken or not. */
  lemma {:induction false} ClicksRemembered(p: Params, tr: Run)
    requires Legal(p, tr)
    ensures Remembers(p, tr, Reach(p, tr))
  {
    hide SignatureOf, SameSignature, Unanswered, Running, Coherent;
    if |tr| > 0 {
      var q, s, x := Init(tr), Reach(p, Init(tr)), Last(tr);
      ClicksRemembered(p, q);
      OneInFlight(p, q);
      RemembersStep(p, tr);
    }
  }

  lemma {:induction false} RemembersStep(p: Params, tr: Run)
    requires |tr| > 0 && Coherent(Reach(p, Init(tr))) && Enabled(Reach(p, Init(tr)), Last(tr).e)
    requires Remembers(p, Init(tr), Reach(p, Init(tr)))
    ensures Remembers(p, tr, Reach(p, tr))
  {
    hide SignatureOf, SameSignature, Duplicate, ValidOrientation, Timely, RecentSample, MadeAt;
    if Last(tr).e.GoalPose? { TimelyExactly(p, Reach(p, Init(tr)), Last(tr)); }
  }

  // ----- What a click does -----

  // The handoff delay from now, and at least a fifth of a second.
  function DelayedTo(p: Params, x: Arrival): Option<real> {
    Some(x.env.now + (if p.handoffDelay > 0.2 then p.handoffDelay else 0.2))
  }

  // The goal waits, to be tried for the first time once the handoff delay has passed.
  predicate NowWaits(p: Params, t: State, x: Arrival)
    requires x.e.GoalPose?
  {
    && t.queuedGoal == Some(x.e.goal) && t.queuedRetryCount == 0
    && t.queuedDispatchAt == DelayedTo(p, x)
  }

  // But for the newest sample and what waits, nothing has changed.
  predicate OnlyQueueChanged(s: State, t: State) {
    t == s.(latestSource := t.latestSource, queuedGoal := t.queuedGoal, queuedSignature := t.queuedSignature,
            queuedRetryCount := t.queuedRetryCount, queuedDispatchAt := t.queuedDispatchAt)
  }

  lemma {:induction false} RepeatsExactly(p: Params, tr: Run, m: Goal, now: real)
    requires Coherent(Reach(p, tr)) && Remembers(p, tr, Reach(p, tr))
    requires Busy(p, tr) <==> InFlight(Reach(p, tr))
    ensures Duplicate(p, Reach(p, tr), now, SignatureOf(m)) <==> Repeats(p, tr, m, now)
  {
    hide SignatureOf, SameSignature, SameGoal, Reach, LastSend, LastFinish, NewestSample, Unanswered, Running;
    var s := Reach(p, tr);
    if s.queuedGoal.Some? { SignaturesExactly(m, s.queuedGoal.value); }
    if LastSend(p, tr).Some? { SignaturesExactly(m, LastSend(p, tr).value.goal); }
    if LastFinish(p, tr).Some? { SignaturesExactly(m, LastFinish(p, tr).value.goal); }
  }

  lemma {:induction false} WantedExactly(p: Params, tr: Run, x: Arrival)
    requires Legal(p, tr) && x.e.GoalPose?
    ensures var s := Reach(p, tr);
      Wanted(p, tr, x) <==> Timely(p, s, x.env, MadeAt(x)) && Admissible(p, s, x.env.now, x.e.goal, x.e.frame)
    ensures Busy(p, tr) <==> InFlight(Reach(p, tr))
  {
    hide SignatureOf, Duplicate, Repeats, Reach, Timely, RecentSample, MadeAt, LastSend, LastFinish, NewestSample;
    OneInFlight(p, tr);
    ClicksRemembered(p, tr);
    TimelyExactly(p, Reach(p, tr), x);
    RepeatsExactly(p, tr, x.e.goal, x.env.now);
  }

  /** What a click does, in every run, from the run alone. A click that is not wanted does nothing but count as a
      sample: it is not sent, nothing is cancelled and nothing is queued. A wanted click is sent, if nothing is in
      flight and the server is ready; while a goal is in flight it waits, and cancels the goal that runs. */
  lemma {:induction false} ClickExactly(p: Params, tr: Run, x: Arrival)
    requires Legal(p, tr) && x.e.GoalPose?
    ensures var (s, t, effects) := (Reach(p, tr), Reach(p, tr + [x]), LastEffects(p, tr + [x]));
      && t.latestSource == NewestSample(p, tr + [x])
      && (if !Wanted(p, tr, x) || (!Busy(p, tr) && !x.env.ready) then
            effects == [] && t == s.(latestSource := t.latestSource)
          else if Busy(p, tr) then
            effects == (if Running(tr) > 0 then [Cancelled] else []) && NowWaits(p, t, x) && OnlyQueueChanged(s, t)
          else if x.env.submitReady then
            effects == [Sent(x.e.goal)] && t.pending && t.currentGoal == Some(x.e.goal) && t.queuedGoal == s.queuedGoal
          else effects == [] && NowWaits(p, t, x) && OnlyQueueChanged(s, t))
  {
    hide Admissible, Wanted, Reach, Step, Timely, MadeAt, LastSend, LastFinish, NewestSample, Legal, Unanswered;
    assert Init(tr + [x]) == tr && Last(tr + [x]) == x;
    OneInFlight(p, tr);
    WantedExactly(p, tr, x);
    TimelyExactly(p, Reach(p, tr), x);
    ClickStep(p, Reach(p, tr), x);
    ReachStep(p, tr, x);
    LegalAfterClick(p, tr, x);
    ClicksRemembered(p, tr + [x]);
  }

  lemma {:induction false} ClickStep(p: Params, s: State, x: Arrival)
    requires x.e.GoalPose?
    ensures var (o, created) := (Step(p, s, x.env, x.e), Created(x.env, x.e.stamp, x.e.source));
      var taken := Timely(p, s, x.env, created) && Admissible(p, s, x.env.now, x.e.goal, x.e.frame);
      if !taken || (!InFlight(s) && !x.env.ready) then
        o.effects == [] && o.state == s.(latestSource := o.state.latestSource)
      else if InFlight(s) then
        o.effects == (if s.active then [Cancelled] else []) && NowWaits(p, o.state, x) && OnlyQueueChanged(s, o.state)
      else if x.env.submitReady then
        && o.effects == [Sent(x.e.goal)] && o.state.pending && o.state.currentGoal == Some(x.e.goal)
        && o.state.queuedGoal == s.queuedGoal
      else o.effects == [] && NowWaits(p, o.state, x) && OnlyQueueChanged(s, o.state)
  {
    hide SignatureOf, SameSignature, ValidOrientation, Timely, Created;
  }

  lemma {:induction false} LegalAfterClick(p: Params, tr: Run, x: Arrival)
    requires Legal(p, tr) && x.e.GoalPose?
    ensures Legal(p, tr + [x])
  {
    assert Init(tr + [x]) == tr && Last(tr + [x]) == x;
  }

  /** With the bridge idle and the server ready, a click is sent exactly when it is wanted. */
  lemma {:induction false} IdleClickSentIff(p: Params, tr: Run, x: Arrival)
    requires Legal(p, tr) && x.e.GoalPose? && !Busy(p, tr) && x.env.ready && x.env.submitReady
    ensures LastEffects(p, tr + [x]) == [Sent(x.e.goal)] <==> Wanted(p, tr, x)
  {
    hide Wanted, Reach, LastEffects;
    ClickExactly(p, tr, x);
  }

  /** The cooldowns: a click like the goal that finished last, or the goal that was sent last, and within the window
      of it, neither sends, cancels nor queues anything. */
  lemma {:induction false} CooldownHolds(p: Params, tr: Run, x: Arrival)
    requires Legal(p, tr) && x.e.GoalPose?
    requires LikeWithin(p, x.e.goal, LastFinish(p, tr), x.env.now) || LikeWithin(p, x.e.goal, LastSend(p, tr), x.env.now)
    ensures LastEffects(p, tr + [x]) == []
    ensures var s, t := Reach(p, tr), Reach(p, tr + [x]); t == s.(latestSource := t.latestSource)
  {
    hide LikeWithin, Reach, LastEffects, LastSend, LastFinish;
    ClickExactly(p, tr, x);
  }

  // ----- What an answer, a result and the timer do -----

  /** A goal that failed or was rejected waits again exactly as long as it has not been sent more often than the
      retry limit, and then it takes the queue; otherwise what waits is left alone. */
  lemma {:induction false} FailureRetriesIff(p: Params, tr: Run, x: Arrival)
    requires Legal(p, tr) && DistinctMessages(tr) && Unanswered(p, tr) > 0
    requires x.e.GoalResponse? && !x.e.answer.Accepted?
    ensures LastSend(p, tr).Some? && LastEffects(p, tr + [x]) == [] && !InFlight(Reach(p, tr + [x]))
    ensures var (s, t, m) := (Reach(p, tr), Reach(p, tr + [x]), LastSend(p, tr).value.goal);
      if SendsOf(p, tr, m.id) <= p.retryLimit then
        && t.queuedGoal == Some(m) && t.queuedRetryCount == SendsOf(p, tr, m.id)
        && t.queuedDispatchAt == DelayedTo(p, x)
      else t.queuedGoal == s.queuedGoal && t.queuedDispatchAt == s.queuedDispatchAt
  {
    hide SignatureOf, SameSignature, Reach, Unanswered, Running, Legal, LastSend, LastFinish, NewestSample, SendsOf,
      Arrived, DistinctMessages;
    assert Init(tr + [x]) == tr && Last(tr + [x]) == x;
    OneInFlight(p, tr);
    ClicksRemembered(p, tr);
    SendsBounded(p, tr);
    ReachStep(p, tr, x);
  }

  /** When a result comes nothing is in flight any more, and what waits is put off by the handoff delay. */
  lemma {:induction false} ResultFrees(p: Params, tr: Run, x: Arrival)
    requires Legal(p, tr) && Running(tr) > 0 && x.e.GoalResult?
    ensures LastEffects(p, tr + [x]) == [] && !InFlight(Reach(p, tr + [x]))
    ensures var (s, t) := (Reach(p, tr), Reach(p, tr + [x]));
      && t.queuedGoal == s.queuedGoal && t.queuedSignature == s.queuedSignature && t.queuedRetryCount == s.queuedRetryCount
      && (s.queuedGoal.Some? ==> t.queuedDispatchAt == DelayedTo(p, x))
  {
    hide Reach, Unanswered, Running, Legal;
    assert Init(tr + [x]) == tr && Last(tr + [x]) == x;
    OneInFlight(p, tr);
    ReachStep(p, tr, x);
  }

  /** The timer sends the goal that waits exactly when nothing is in flight, its time has come and the server is
      ready; while the server is not ready it tries again half a second later, and otherwise it does nothing. */
  lemma {:induction false} TimerExactly(p: Params, tr: Run, x: Arrival)
    requires Legal(p, tr) && x.e.DispatchTimer?
    ensures var (s, t, effects) := (Reach(p, tr), Reach(p, tr + [x]), LastEffects(p, tr + [x]));
      if s.queuedGoal.None? || Busy(p, tr) || s.queuedDispatchAt.None? || x.env.now < s.queuedDispatchAt.value then
        effects == [] && t == s
      else if !x.env.ready then effects == [] && t == s.(queuedDispatchAt := Some(x.env.now + 0.5))
      else if !x.env.submitReady then
        && effects == [] && t.queuedGoal == s.queuedGoal && t.queuedRetryCount == s.queuedRetryCount
        && t.queuedDispatchAt == DelayedTo(p, x)
      else
        && effects == [Sent(s.queuedGoal.value)] && t.pending && t.currentGoal == s.queuedGoal
        && t.currentRetryCount == s.queuedRetryCount && t.queuedGoal.None?
  {
    hide SignatureOf, SameSignature, Reach, Unanswered, Running, Legal;
    assert Init(tr + [x]) == tr && Last(tr + [x]) == x;
    OneInFlight(p, tr);
    ReachStep(p, tr, x);
  }
}
