/** Does the newest goal win? In which order the bridge sends goals, when a goal that waits is lost, and the
    runs in which an older goal gets the better of a newer one. */
module GoalOrder {
  import opened Numbers
  import opened Runs
  import opened GoalBridge

  // ----- When a waiting goal leaves the queue -----

  // A newer goal takes the place of the queued one.
  predicate Replaces(p: Params, s: State, x: Arrival) {
    && x.e.GoalPose? && Timely(p, s, x.env, Created(x.env, x.e.stamp, x.e.source))
    && Admissible(p, s, x.env.now, x.e.goal, x.e.frame)
    && (InFlight(s) || (x.env.ready && !x.env.submitReady))
  }

  // The queued goal is sent.
  predicate Sends(s: State, x: Arrival) { x.e.DispatchTimer? && Due(s, x.env.now) && x.env.ready && x.env.submitReady }

  // An older goal that failed goes back to the queue, on top of the queued one.
  predicate Overwrites(p: Params, s: State, x: Arrival) { x.e.GoalResponse? && !x.e.answer.Accepted? && Retries(p, s) }

  /** Exactly when a queued goal leaves the queue: it is sent, a newer goal takes its place, or the
      older goal in flight fails with retries left and overwrites it. */
  lemma {:induction false} QueuedGoalKeptIff(p: Params, tr: Run, x: Arrival)
    requires Legal(p, tr + [x]) && DistinctMessages(tr + [x]) && Reach(p, tr).queuedGoal.Some?
    ensures Reach(p, tr + [x]).queuedGoal == Reach(p, tr).queuedGoal <==>
            var s := Reach(p, tr); !Sends(s, x) && !Replaces(p, s, x) && !Overwrites(p, s, x)
  {
    hide Reach, Step, SendsOf, Timely;
    var run := tr + [x];
    assert Init(run) == tr && Last(run) == x;
    assert DistinctMessages(tr) by {
      forall i, j | 0 <= i < j < |tr| && tr[i].e.GoalPose? && tr[j].e.GoalPose?
        ensures tr[i].e.goal.id != tr[j].e.goal.id { assert run[i] == tr[i] && run[j] == tr[j]; }
    }
    OneInFlight(p, tr);
    SendsBounded(p, tr);
    ReachStep(p, tr, x);
    if x.e.GoalPose? { FreshOnArrival(run); }
    QueuedStepKept(p, Reach(p, tr), x);
  }

  lemma {:induction false} QueuedStepKept(p: Params, s: State, x: Arrival)
    requires Coherent(s) && Enabled(s, x.e) && s.queuedGoal.Some?
    requires InFlight(s) ==> s.currentGoal != s.queuedGoal
    requires x.e.GoalPose? ==> Some(x.e.goal) != s.queuedGoal
    ensures Step(p, s, x.env, x.e).state.queuedGoal == s.queuedGoal <==>
            !Sends(s, x) && !Replaces(p, s, x) && !Overwrites(p, s, x)
  {
    hide SignatureOf, SameSignature, ValidOrientation, Timely;
  }

  // ----- In which order goals are sent -----

  // A newer goal is sent at once although one is waiting, and the waiting one stays in the queue.
  predicate Overtakes(p: Params, s: State, x: Arrival) {
    && x.e.GoalPose? && Timely(p, s, x.env, Created(x.env, x.e.stamp, x.e.source))
    && Admissible(p, s, x.env.now, x.e.goal, x.e.frame)
    && !InFlight(s) && s.queuedGoal.Some? && x.env.ready && x.env.submitReady
  }

  predicate Waits(s: State, id: nat) { s.queuedGoal.Some? && s.queuedGoal.value.id == id }

  predicate Flies(s: State, id: nat) { InFlight(s) && s.currentGoal.Some? && s.currentGoal.value.id == id }

  // A message was overtaken, at some event of the run, while it waited.
  predicate Overtaken(p: Params, tr: Run, id: nat) {
    |tr| > 0
    && (Overtaken(p, Init(tr), id) || (Waits(Reach(p, Init(tr)), id) && Overtakes(p, Reach(p, Init(tr)), Last(tr))))
  }

  predicate Brings(x: Arrival, id: nat) { x.e.GoalPose? && x.e.goal.id == id }

  // Message a arrived after message b.
  ghost predicate Newer(tr: Run, a: nat, b: nat) {
    exists i, j :: 0 <= i < j < |tr| && Brings(tr[i], b) && Brings(tr[j], a)
  }

  // A message newer than this one has been sent already.
  ghost predicate NewerSent(p: Params, tr: Run, id: nat) { exists m: nat :: SendsOf(p, tr, m) > 0 && Newer(tr, m, id) }

  lemma {:induction false} NewerGrows(tr: Run, a: nat, b: nat)
    requires |tr| > 0
    ensures Newer(tr, a, b) <==> Newer(Init(tr), a, b) || (Brings(Last(tr), a) && Arrived(Init(tr), b))
  {
    var q, n := Init(tr), |tr| - 1;
    if Newer(tr, a, b) {
      var i, j :| 0 <= i < j < |tr| && Brings(tr[i], b) && Brings(tr[j], a);
      assert Brings(q[i], b);
      if j < n { assert Brings(q[j], a); } else { assert q[i].e.goal.id == b; }
    }
    if Newer(q, a, b) {
      var i, j :| 0 <= i < j < |q| && Brings(q[i], b) && Brings(q[j], a);
      assert Brings(tr[i], b) && Brings(tr[j], a);
    }
    if Brings(Last(tr), a) && Arrived(q, b) {
      var i :| 0 <= i < |q| && q[i].e.GoalPose? && q[i].e.goal.id == b;
      assert Brings(tr[i], b) && Brings(tr[n], a);
    }
  }

  lemma {:induction false} NeverNewerThanItself(tr: Run, id: nat)
    requires DistinctMessages(tr)
    ensures !Newer(tr, id, id)
  {
  }

  lemma {:induction false} NewerIsOrder(tr: Run, a: nat, b: nat)
    requires DistinctMessages(tr) && Arrived(tr, a) && Arrived(tr, b) && a != b
    ensures Newer(tr, a, b) <==> !Newer(tr, b, a)
  {
    var i :| 0 <= i < |tr| && tr[i].e.GoalPose? && tr[i].e.goal.id == a;
    var j :| 0 <= j < |tr| && tr[j].e.GoalPose? && tr[j].e.goal.id == b;
    assert Brings(tr[i], a) && Brings(tr[j], b);
  }

  lemma {:induction false} DistinctBefore(tr: Run)
    requires |tr| > 0 && DistinctMessages(tr)
    ensures DistinctMessages(Init(tr))
  {
    forall i, j | 0 <= i < j < |tr| - 1 && tr[i].e.GoalPose? && tr[j].e.GoalPose?
      ensures Init(tr)[i].e.goal.id != Init(tr)[j].e.goal.id { }
  }

  // Whatever waits or flies has arrived, and what flies has been sent.
  lemma {:induction false} HeldArrived(p: Params, tr: Run, id: nat)
    requires Legal(p, tr) && DistinctMessages(tr)
    ensures Waits(Reach(p, tr), id) || Flies(Reach(p, tr), id) ==> Arrived(tr, id)
    ensures Flies(Reach(p, tr), id) ==> SendsOf(p, tr, id) > 0 && !Waits(Reach(p, tr), id)
  {
    hide Reach, SendsOf, Arrived, Legal;
    OneInFlight(p, tr);
    SendsBounded(p, tr);
    CountsAreNatural(p, tr);
  }

  // The retry count of the goal in flight is not negative.
  lemma {:induction false} CountsAreNatural(p: Params, tr: Run)
    requires Legal(p, tr)
    ensures var s := Reach(p, tr);
            (InFlight(s) ==> s.currentRetryCount >= 0) && (s.queuedGoal.Some? ==> s.queuedRetryCount >= 0)
  {
    hide Step, Legal, Coherent;
    if |tr| > 0 {
      assert Legal(p, Init(tr)) && Enabled(Reach(p, Init(tr)), Last(tr).e) by { LegalStep(p, tr); }
      CountsAreNatural(p, Init(tr));
      OneInFlight(p, Init(tr));
      OneInFlight(p, tr);
      StepProvenance(p, Reach(p, Init(tr)), Last(tr).env, Last(tr).e);
      if InFlight(Reach(p, tr)) { CoherentFlight(Reach(p, tr)); }
    }
  }

  lemma {:induction false} CoherentFlight(s: State)
    requires Coherent(s) && InFlight(s)
    ensures s.currentGoal.Some?
  {
  }

  lemma {:induction false} LegalStep(p: Params, tr: Run)
    requires |tr| > 0
    ensures Legal(p, tr) <==> Legal(p, Init(tr)) && Enabled(Reach(p, Init(tr)), Last(tr).e)
  {
    hide Reach, Unanswered, Running;
    if Legal(p, Init(tr)) { OneInFlight(p, Init(tr)); }
  }

  lemma {:induction false} OvertakenArrived(p: Params, tr: Run, id: nat)
    requires Legal(p, tr) && DistinctMessages(tr) && Overtaken(p, tr, id)
    ensures Arrived(tr, id)
  {
    hide Reach, Overtakes, Waits, Arrived, Legal;
    LegalStep(p, tr);
    DistinctBefore(tr);
    if Overtaken(p, Init(tr), id) { OvertakenArrived(p, Init(tr), id); } else { HeldArrived(p, Init(tr), id); }
    ArrivedGrows(tr, id);
  }

  predicate Holds(s: State, id: nat) { Waits(s, id) || Flies(s, id) }

  // What a step does to the messages held: it sends at most one, which then flies; it keeps, moves or drops the
  // others; and a click is the only way in.
  lemma {:induction false} StepMoves(p: Params, s: State, x: Arrival, id: nat)
    requires Coherent(s) && Enabled(s, x.e)
    ensures var o := Step(p, s, x.env, x.e);
      && (Holds(o.state, id) ==> Holds(s, id) || Brings(x, id))
      && (SendsIn(o.effects, id) > 0 ==> SendsIn(o.effects, id) == 1 && Flies(o.state, id) && !InFlight(s))
      && (SendsIn(o.effects, id) > 0 ==> (x.e.DispatchTimer? && Waits(s, id) && o.state.queuedGoal.None?)
                                         || (Brings(x, id) && o.state.queuedGoal == s.queuedGoal))
  {
    hide SignatureOf, SameSignature, ValidOrientation, Timely, Duplicate, SendsIn;
    StepProvenance(p, s, x.env, x.e);
    CountSmall(p, s, x.env, x.e);
    OneEffect(Step(p, s, x.env, x.e).effects);
  }

  // A click that is sent while another goal waits overtakes it, and nothing else does.
  lemma {:induction false} OvertakingSends(p: Params, s: State, x: Arrival)
    ensures Overtakes(p, s, x) <==> && x.e.GoalPose? && s.queuedGoal.Some?
                                    && SendsIn(Step(p, s, x.env, x.e).effects, x.e.goal.id) > 0
  {
    hide SignatureOf, SameSignature, ValidOrientation, Timely, SendsIn;
    CountSmall(p, s, x.env, x.e);
    OneEffect(Step(p, s, x.env, x.e).effects);
  }

  lemma {:induction false} OneEffect(effects: seq<Effect>)
    ensures |effects| == 0 ==> CountSent(effects) == 0 && forall m: nat :: SendsIn(effects, m) == 0
    ensures |effects| == 1 ==>
              forall m: nat :: SendsIn(effects, m) == (if effects[0].Sent? && effects[0].goal.id == m then 1 else 0)
    ensures |effects| == 1 ==> CountSent(effects) == (if effects[0].Sent? then 1 else 0)
  {
    if |effects| == 1 {
      assert effects[..0] == [];
      assert forall m: nat :: SendsIn([], m) == 0;
    }
  }

  // A newer message reaches the server while this one is held: it was sent before, or it overtakes now.
  lemma {:induction false} NewerSentStep(p: Params, tr: Run, id: nat, m: nat)
    requires |tr| > 0 && Legal(p, tr) && DistinctMessages(tr) && Holds(Reach(p, Init(tr)), id)
    requires SendsOf(p, tr, m) > 0 && Newer(tr, m, id)
    ensures || (SendsOf(p, Init(tr), m) > 0 && Newer(Init(tr), m, id))
            || (Waits(Reach(p, Init(tr)), id) && Overtakes(p, Reach(p, Init(tr)), Last(tr)))
  {
    hide Reach, Step, Arrived, Legal, Overtakes, SendsIn, Coherent, Newer;
    var q, x, s := Init(tr), Last(tr), Reach(p, Init(tr));
    LegalStep(p, tr);
    DistinctBefore(tr);
    OneInFlight(p, q);
    SendsBounded(p, q);
    StepMoves(p, s, x, m);
    NewerGrows(tr, m, id);
    if x.e.GoalPose? { FreshOnArrival(tr); }
    NeverNewerThanItself(q, m);
    OvertakingSends(p, s, x);
    if Newer(q, m, id) { NewerArrived(q, m, id); }
  }

  lemma {:induction false} NewerArrived(tr: Run, a: nat, b: nat)
    requires Newer(tr, a, b)
    ensures Arrived(tr, a) && Arrived(tr, b)
  {
    var i, j :| 0 <= i < j < |tr| && Brings(tr[i], b) && Brings(tr[j], a);
    assert tr[i].e.goal.id == b && tr[j].e.goal.id == a;
  }

  /** Stale goals, exactly. In every legal run with distinct messages, a goal that waits (or is in flight) is
      older than some goal already sent if and only if it was overtaken while it waited. */
  lemma {:induction false} StaleIffOvertaken(p: Params, tr: Run, id: nat)
    requires Legal(p, tr) && DistinctMessages(tr) && Holds(Reach(p, tr), id)
    ensures NewerSent(p, tr, id) <==> Overtaken(p, tr, id)
  {
    hide Step, Arrived, Legal, Overtakes, SendsIn, Coherent, Newer;
    if |tr| > 0 {
      var q, x, s := Init(tr), Last(tr), Reach(p, Init(tr));
      LegalStep(p, tr);
      DistinctBefore(tr);
      OneInFlight(p, q);
      StepMoves(p, s, x, id);
      if Brings(x, id) {
        FreshOnArrival(tr);
        FreshIsNotStale(p, tr, id);
      } else {
        StaleIffOvertaken(p, q, id);
        if NewerSent(p, tr, id) {
          var m: nat :| SendsOf(p, tr, m) > 0 && Newer(tr, m, id);
          NewerSentStep(p, tr, id, m);
        }
        if Overtaken(p, q, id) {
          var m: nat :| SendsOf(p, q, m) > 0 && Newer(q, m, id);
          NewerGrows(tr, m, id);
          assert SendsOf(p, tr, m) > 0;
        } else if Waits(s, id) && Overtakes(p, s, x) {
          OvertakingIsNewer(p, tr, id);
        }
      }
    }
  }

  lemma {:induction false} FreshIsNotStale(p: Params, tr: Run, id: nat)
    requires |tr| > 0 && Legal(p, tr) && DistinctMessages(tr) && Brings(Last(tr), id) && !Arrived(Init(tr), id)
    ensures !NewerSent(p, tr, id) && !Overtaken(p, tr, id)
  {
    hide Reach, Step, Arrived, Legal, Overtakes, SendsOf, Newer, Waits;
    LegalStep(p, tr);
    DistinctBefore(tr);
    HeldArrived(p, Init(tr), id);
    if Overtaken(p, Init(tr), id) { OvertakenArrived(p, Init(tr), id); }
    forall m: nat ensures !Newer(tr, m, id) {
      NewerGrows(tr, m, id);
      if Newer(Init(tr), m, id) { NewerArrived(Init(tr), m, id); }
    }
  }

  lemma {:induction false} OvertakingIsNewer(p: Params, tr: Run, id: nat)
    requires |tr| > 0 && Legal(p, tr) && DistinctMessages(tr)
    requires Waits(Reach(p, Init(tr)), id) && Overtakes(p, Reach(p, Init(tr)), Last(tr))
    ensures SendsOf(p, tr, Last(tr).e.goal.id) > 0 && Newer(tr, Last(tr).e.goal.id, id)
    ensures NewerSent(p, tr, id)
  {
    hide Reach, Step, Arrived, Legal, Overtakes, SendsIn, Newer, Waits;
    LegalStep(p, tr);
    DistinctBefore(tr);
    HeldArrived(p, Init(tr), id);
    OvertakingSends(p, Reach(p, Init(tr)), Last(tr));
    NewerGrows(tr, Last(tr).e.goal.id, id);
  }

  // Event k sends the message.
  ghost predicate SendsAt(p: Params, tr: Run, k: int, id: nat) {
    0 <= k < |tr| && SendsIn(Step(p, Reach(p, tr[..k]), tr[k].env, tr[k].e).effects, id) > 0
  }

  // Event k overtakes the waiting message.
  ghost predicate OvertakenAt(p: Params, tr: Run, k: int, id: nat) {
    0 <= k < |tr| && Waits(Reach(p, tr[..k]), id) && Overtakes(p, Reach(p, tr[..k]), tr[k])
  }

  lemma {:induction false} LegalPrefix(p: Params, tr: Run, n: int)
    requires Legal(p, tr) && DistinctMessages(tr) && 0 <= n <= |tr|
    ensures Legal(p, tr[..n]) && DistinctMessages(tr[..n])
    ensures n < |tr| ==> Enabled(Reach(p, tr[..n]), tr[n].e)
  {
    hide Reach, Unanswered, Running;
    if n == |tr| {
      assert tr[..n] == tr;
    } else {
      LegalStep(p, tr);
      DistinctBefore(tr);
      LegalPrefix(p, Init(tr), n);
      assert Init(tr)[..n] == tr[..n];
    }
  }

  lemma {:induction false} OvertakenSomewhere(p: Params, tr: Run, id: nat)
    ensures Overtaken(p, tr, id) <==> exists k :: OvertakenAt(p, tr, k, id)
  {
    hide Reach, Overtakes, Waits;
    if |tr| > 0 {
      var q, n := Init(tr), |tr| - 1;
      OvertakenSomewhere(p, q, id);
      assert tr[..n] == q;
      forall k | 0 <= k < n ensures OvertakenAt(p, tr, k, id) == OvertakenAt(p, q, k, id) { assert tr[..k] == q[..k]; }
      if k :| OvertakenAt(p, q, k, id) { assert OvertakenAt(p, tr, k, id); }
      if k :| OvertakenAt(p, tr, k, id) { assert k < n ==> OvertakenAt(p, q, k, id); }
      assert OvertakenAt(p, tr, n, id) <==> Waits(Reach(p, q), id) && Overtakes(p, Reach(p, q), Last(tr));
    }
  }

  lemma {:induction false} SentSomewhere(p: Params, tr: Run, id: nat)
    ensures SendsOf(p, tr, id) > 0 <==> exists k :: SendsAt(p, tr, k, id)
  {
    hide Reach, Step, SendsIn;
    if |tr| > 0 {
      var q, n := Init(tr), |tr| - 1;
      SentSomewhere(p, q, id);
      assert tr[..n] == q;
      forall k | 0 <= k < n ensures SendsAt(p, tr, k, id) == SendsAt(p, q, k, id) { assert tr[..k] == q[..k]; }
      if k :| SendsAt(p, q, k, id) { assert SendsAt(p, tr, k, id); }
      if k :| SendsAt(p, tr, k, id) { assert k < n ==> SendsAt(p, q, k, id); }
      assert SendsAt(p, tr, n, id) <==> SendsIn(LastEffects(p, tr), id) > 0;
    }
  }

  // Two sends in the wrong order of arrival.
  ghost predicate Inverted(p: Params, tr: Run, i: int, j: int, a: nat, b: nat) {
    i < j && SendsAt(p, tr, i, a) && SendsAt(p, tr, j, b) && Newer(tr, a, b)
  }

  lemma {:induction false} NewerInPrefix(tr: Run, n: int, a: nat, b: nat)
    requires 0 <= n <= |tr| && DistinctMessages(tr)
    ensures Newer(tr[..n], a, b) ==> Newer(tr, a, b)
    ensures Newer(tr, a, b) && Arrived(tr[..n], a) ==> Newer(tr[..n], a, b)
  {
    var q := tr[..n];
    if Newer(q, a, b) {
      var i, j :| 0 <= i < j < |q| && Brings(q[i], b) && Brings(q[j], a);
      assert Brings(tr[i], b) && Brings(tr[j], a);
    }
    if Newer(tr, a, b) && Arrived(q, a) {
      var i, j :| 0 <= i < j < |tr| && Brings(tr[i], b) && Brings(tr[j], a);
      var k :| 0 <= k < |q| && q[k].e.GoalPose? && q[k].e.goal.id == a;
      assert tr[k] == q[k] && k == j;
      assert Brings(q[i], b) && Brings(q[j], a);
    }
  }

  lemma {:induction false} SendsAtPrefix(p: Params, tr: Run, n: int, k: int, id: nat)
    requires 0 <= k < n <= |tr|
    ensures SendsAt(p, tr[..n], k, id) == SendsAt(p, tr, k, id)
  {
    assert tr[..n][..k] == tr[..k];
  }

  lemma {:induction false} NotBroughtAgain(tr: Run, j: int, id: nat)
    requires DistinctMessages(tr) && 0 <= j < |tr| && Arrived(tr[..j], id)
    ensures !Brings(tr[j], id)
  {
    var i :| 0 <= i < j && tr[..j][i].e.GoalPose? && tr[..j][i].e.goal.id == id;
    assert tr[i] == tr[..j][i];
  }

  // The later one of an inverted pair of sends was overtaken before it went out.
  lemma {:induction false} InvertedIsOvertaken(p: Params, tr: Run, i: int, j: int, a: nat, b: nat)
    requires Legal(p, tr) && DistinctMessages(tr) && Inverted(p, tr, i, j, a, b)
    ensures exists k :: k < j && OvertakenAt(p, tr, k, b)
  {
    hide Reach, Step, Arrived, Legal, Overtakes, SendsIn, SendsOf, Coherent, Newer, Waits;
    var q := tr[..j];
    LegalPrefix(p, tr, j);
    SendsAtPrefix(p, tr, j, i, a);
    SentSomewhere(p, q, a);
    SendsBounded(p, q);
    assert Arrived(q, a);
    NewerInPrefix(tr, j, a, b);
    OneInFlight(p, q);
    StepMoves(p, Reach(p, q), tr[j], b);
    NewerArrived(q, a, b);
    NotBroughtAgain(tr, j, b);
    StaleIffOvertaken(p, q, b);
    OvertakenSomewhere(p, q, b);
    var k :| OvertakenAt(p, q, k, b);
    assert q[..k] == tr[..k];
    assert OvertakenAt(p, tr, k, b);
  }

  lemma {:induction false} OvertakenIsInverted(p: Params, tr: Run, k: int, j: int, b: nat)
    requires Legal(p, tr) && DistinctMessages(tr) && k < j && OvertakenAt(p, tr, k, b) && SendsAt(p, tr, j, b)
    ensures exists a :: Inverted(p, tr, k, j, a, b)
  {
    hide Reach, Step, Legal, Overtakes, SendsIn, Newer, Waits;
    var q := tr[..k + 1];
    LegalPrefix(p, tr, k + 1);
    assert Init(q) == tr[..k] && Last(q) == tr[k];
    OvertakingSends(p, Reach(p, tr[..k]), tr[k]);
    OvertakingIsNewer(p, q, b);
    NewerInPrefix(tr, k + 1, tr[k].e.goal.id, b);
    assert Inverted(p, tr, k, j, tr[k].e.goal.id, b);
  }

  /** The order of sends, exactly: in a legal run with distinct messages goals are sent in the order in which they
      arrived if and only if no goal is sent after it was overtaken. */
  lemma {:induction false} SentInOrderIff(p: Params, tr: Run)
    requires Legal(p, tr) && DistinctMessages(tr)
    ensures (forall i, j, a, b :: !Inverted(p, tr, i, j, a, b))
            <==> forall k, j, b :: k < j && OvertakenAt(p, tr, k, b) ==> !SendsAt(p, tr, j, b)
  {
    hide Reach, Legal, OvertakenAt, SendsAt, Newer;
    forall i, j, a, b | Inverted(p, tr, i, j, a, b)
      ensures exists k :: k < j && OvertakenAt(p, tr, k, b) && SendsAt(p, tr, j, b)
    {
      InvertedIsOvertaken(p, tr, i, j, a, b);
    }
    forall k, j, b | k < j && OvertakenAt(p, tr, k, b) && SendsAt(p, tr, j, b)
      ensures exists a :: Inverted(p, tr, k, j, a, b)
    {
      OvertakenIsInverted(p, tr, k, j, b);
    }
  }

  // ----- Which goal an overwriting loses -----

  // What flies while an overtaken goal waits is newer than it.
  lemma {:induction false} FlyingIsNewer(p: Params, tr: Run, c: nat, w: nat)
    requires Legal(p, tr) && DistinctMessages(tr)
    requires Flies(Reach(p, tr), c) && Waits(Reach(p, tr), w) && Overtaken(p, tr, w)
    ensures Newer(tr, c, w)
  {
    hide Step, Arrived, Legal, Overtakes, SendsIn, Coherent, Newer;
    if |tr| > 0 {
      var q, x, s := Init(tr), Last(tr), Reach(p, Init(tr));
      LegalStep(p, tr);
      DistinctBefore(tr);
      OneInFlight(p, q);
      StepMoves(p, s, x, c);
      StepMoves(p, s, x, w);
      if Brings(x, w) { FreshOnArrival(tr); FreshIsNotStale(p, tr, w); }
      StepKeepsPair(p, s, x, c, w);
      NewerGrows(tr, c, w);
      if Waits(s, w) && Flies(s, c) {
        OvertakesWhenIdle(p, s, x);
        FlyingIsNewer(p, q, c, w);
      } else {
        HeldArrived(p, q, w);
      }
    }
  }

  // A flying and a waiting goal were both so before, or the flying one came by a click over the waiting one.
  lemma {:induction false} StepKeepsPair(p: Params, s: State, x: Arrival, c: nat, w: nat)
    requires Coherent(s) && Enabled(s, x.e)
    requires var t := Step(p, s, x.env, x.e).state; Flies(t, c) && Waits(t, w) && !Brings(x, w)
    ensures Waits(s, w) && (Flies(s, c) || Brings(x, c))
  {
    hide SignatureOf, SameSignature, ValidOrientation, Timely, Duplicate;
  }

  lemma {:induction false} OvertakesWhenIdle(p: Params, s: State, x: Arrival)
    ensures Overtakes(p, s, x) ==> !InFlight(s)
  {
  }

  /** Which goal is lost when a failed goal goes back to the queue on top of a waiting one: it is the newer of the two
      exactly when it was never overtaken. */
  lemma {:induction false} NewerLostIff(p: Params, tr: Run, x: Arrival, c: nat, w: nat)
    requires Legal(p, tr + [x]) && DistinctMessages(tr + [x]) && Overwrites(p, Reach(p, tr), x)
    requires Flies(Reach(p, tr), c) && Waits(Reach(p, tr), w)
    ensures Waits(Reach(p, tr + [x]), c)
    ensures Newer(tr, w, c) <==> !Overtaken(p, tr, w)
  {
    hide Reach, Step, Arrived, Legal, SendsOf, SendsIn, Newer, Overtaken;
    assert Init(tr + [x]) == tr && Last(tr + [x]) == x;
    LegalStep(p, tr + [x]);
    DistinctBefore(tr + [x]);
    ReachStep(p, tr, x);
    assert Waits(Step(p, Reach(p, tr), x.env, x.e).state, c) by { OverwritingRequeues(p, Reach(p, tr), x, c); }
    HeldArrived(p, tr, c);
    HeldArrived(p, tr, w);
    NewerIsOrder(tr, w, c);
    StaleIffOvertaken(p, tr, w);
    if Overtaken(p, tr, w) { FlyingIsNewer(p, tr, c, w); }
  }

  lemma {:induction false} OverwritingRequeues(p: Params, s: State, x: Arrival, c: nat)
    requires Overwrites(p, s, x) && Flies(s, c)
    ensures Waits(Step(p, s, x.env, x.e).state, c)
  {
  }

  // ----- Concrete runs -----

  const ORIGIN: Goal := Goal(0, Finite(0.0), Finite(0.0), Finite(0.0), Finite(0.0), Finite(0.0), Finite(0.0), Finite(1.0))
  const AHEAD: Goal := ORIGIN.(id := 1, x := Finite(1.0))
  const BEYOND: Goal := ORIGIN.(id := 2, x := Finite(2.0))

  const QUIET: Env := Env(0.0, 1, true, true)
  const RESULT: Arrival := Arrival(QUIET, GoalResult)

  function Click(p: Params, m: Goal): Arrival { Arrival(QUIET, GoalPose(m, p.requiredFrame, 1, None)) }

  function Answered(answer: Answer): Arrival { Arrival(QUIET, GoalResponse(answer)) }

  // The timer fires when a goal queued at the start is due.
  function DispatchDue(p: Params): Arrival { Arrival(QUIET.(now := Handoff(p)), DispatchTimer) }

  lemma {:induction false} GoalsDiffer()
    ensures forall a, b :: a in [ORIGIN, AHEAD, BEYOND] && b in [ORIGIN, AHEAD, BEYOND] && a != b ==>
              !SameSignature(SignatureOf(a), SignatureOf(b))
    ensures ValidOrientation(ORIGIN) && ValidOrientation(AHEAD) && ValidOrientation(BEYOND)
  {
    assert SignatureOf(ORIGIN).x == Finite(0.0) && SignatureOf(AHEAD).x == Finite(1.0) && SignatureOf(BEYOND).x == Finite(2.0);
  }

  // One more event of a legal run.
  lemma {:induction false} Extend(p: Params, tr: Run, x: Arrival)
    requires Legal(p, tr) && Enabled(Reach(p, tr), x.e)
    ensures var run, o := tr + [x], Step(p, Reach(p, tr), x.env, x.e);
            Legal(p, run) && Reach(p, run) == o.state && LastEffects(p, run) == o.effects
  {
    hide Step, Unanswered, Running;
    assert Init(tr + [x]) == tr;
    LegalStep(p, tr + [x]);
    ReachStep(p, tr, x);
  }

  lemma {:induction false} FirstClick(p: Params)
    requires p.maxAge >= 0.0
    ensures var run, o := [Click(p, ORIGIN)], Submit(p, INITIAL.(latestSource := 1), QUIET, ORIGIN, 0);
            Legal(p, run) && Reach(p, run) == o.state && LastEffects(p, run) == o.effects
  {
    hide SignatureOf, SameSignature, ValidOrientation;
    GoalsDiffer();
    assert Reach(p, []) == INITIAL;
    Extend(p, [], Click(p, ORIGIN));
    assert [] + [Click(p, ORIGIN)] == [Click(p, ORIGIN)];
  }

  /** The newest goal does not always win: a second click while the first goal is unanswered is
      queued without a cancellation, and if the server then refuses the first goal, its retry
      overwrites the second one, which was never sent. */
  lemma {:induction false} NewerGoalLost(p: Params)
    requires p.retryLimit >= 1 && p.maxAge >= 0.0
    ensures var before := [Click(p, ORIGIN), Click(p, AHEAD)];
      && Legal(p, before + [Answered(Rejected)])
      && Reach(p, before).queuedGoal == Some(AHEAD) && LastEffects(p, before) == []
      && Reach(p, before + [Answered(Rejected)]).queuedGoal == Some(ORIGIN)
      && !InFlight(Reach(p, before + [Answered(Rejected)]))
  {
    hide SignatureOf, SameSignature, ValidOrientation, Reach, Legal, LastEffects;
    var first := [Click(p, ORIGIN)];
    FirstClick(p);
    GoalsDiffer();
    var before := [Click(p, ORIGIN), Click(p, AHEAD)];
    assert before == first + [Click(p, AHEAD)];
    Extend(p, first, Click(p, AHEAD));
    Extend(p, before, Answered(Rejected));
  }

  /** Nor does an older goal always lose: a refused goal waits in the queue, is overtaken there by a newer
      one that is sent, runs and finishes, and is then sent after it. */
  lemma {:induction false} OlderGoalRunsLater(p: Params)
    requires p.retryLimit >= 1 && p.maxAge >= 0.0
    ensures var newer := [Click(p, ORIGIN), Answered(Rejected), Click(p, AHEAD)];
            var all := newer + [Answered(Accepted)] + [RESULT] + [DispatchDue(p)];
            Legal(p, all) && LastEffects(p, newer) == [Sent(AHEAD)] && LastEffects(p, all) == [Sent(ORIGIN)]
  {
    hide SignatureOf, SameSignature, ValidOrientation, Reach, Legal, LastEffects;
    var first := [Click(p, ORIGIN)];
    FirstClick(p);
    GoalsDiffer();
    var refused := first + [Answered(Rejected)];
    Extend(p, first, Answered(Rejected));
    var newer := [Click(p, ORIGIN), Answered(Rejected), Click(p, AHEAD)];
    assert newer == refused + [Click(p, AHEAD)];
    Extend(p, refused, Click(p, AHEAD));
    Extend(p, newer, Answered(Accepted));
    Extend(p, newer + [Answered(Accepted)], RESULT);
    Extend(p, newer + [Answered(Accepted)] + [RESULT], DispatchDue(p));
  }

  /** It needs neither a refusal nor an overwritten goal: a click in the pause between a result and the dispatch
      of the waiting goal is sent at once, and the older goal follows it. */
  lemma {:induction false} WaitingGoalOvertaken(p: Params)
    requires p.maxAge >= 0.0
    ensures var waiting := [Click(p, ORIGIN)] + [Answered(Accepted)] + [Click(p, AHEAD)] + [RESULT];
            var newer := waiting + [Click(p, BEYOND)];
            var all := newer + [Answered(Accepted)] + [RESULT] + [DispatchDue(p)];
      && Legal(p, all) && DistinctMessages(all)
      && Waits(Reach(p, waiting), AHEAD.id) && Overtakes(p, Reach(p, waiting), Click(p, BEYOND))
      && LastEffects(p, newer) == [Sent(BEYOND)] && LastEffects(p, all) == [Sent(AHEAD)]
  {
    hide SignatureOf, SameSignature, ValidOrientation, Reach, Legal, LastEffects;
    var first := [Click(p, ORIGIN)];
    FirstClick(p);
    GoalsDiffer();
    Extend(p, first, Answered(Accepted));
    var running := first + [Answered(Accepted)];
    Extend(p, running, Click(p, AHEAD));
    Extend(p, running + [Click(p, AHEAD)], RESULT);
    var waiting := running + [Click(p, AHEAD)] + [RESULT];
    Extend(p, waiting, Click(p, BEYOND));
    var newer := waiting + [Click(p, BEYOND)];
    Extend(p, newer, Answered(Accepted));
    Extend(p, newer + [Answered(Accepted)], RESULT);
    Extend(p, newer + [Answered(Accepted)] + [RESULT], DispatchDue(p));
  }
}
