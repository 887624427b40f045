/** The goal bridge: it turns operator clicks into action goals, and deduplicates, queues and
    retries them. The action server answers at any time, in any way. */
module GoalBridge {
  import opened Numbers
  import opened Runs

  /** A received goal message. `id` tells one message object from another; the other fields are
      its coordinates. */
  datatype Goal = Goal(id: nat, x: Reading, y: Reading, z: Reading, qx: Reading, qy: Reading, qz: Reading, qw: Reading)

  datatype Signature = Signature(x: Reading, y: Reading, z: Reading, qx: Reading, qy: Reading, qz: Reading, qw: Reading)

  datatype Params = Params(requiredFrame: string, duplicateWindow: real, maxAge: real, handoffDelay: real, retryLimit: int)

  // ----- Signatures -----

  // Nearest integer, ties to the even one.
  function RoundHalfEven(x: real): int {
    var (low, rest) := (x.Floor, x - x.Floor as real);
    if rest < 0.5 || (rest == 0.5 && low % 2 == 0) then low else low + 1
  }

  function Round4(v: Reading): Reading {
    match v
    case Finite(x) => Finite(RoundHalfEven(x * 10000.0) as real / 10000.0)
    case _ => v
  }

  function SignatureOf(m: Goal): Signature {
    Signature(Round4(m.x), Round4(m.y), Round4(m.z), Round4(m.qx), Round4(m.qy), Round4(m.qz), Round4(m.qw))
  }

  // Equality of coordinates: not-a-number differs from everything.
  predicate Same(a: Reading, b: Reading) { a == b && a != NaN }

  predicate SameSignature(a: Signature, b: Signature) {
    && Same(a.x, b.x) && Same(a.y, b.y) && Same(a.z, b.z)
    && Same(a.qx, b.qx) && Same(a.qy, b.qy) && Same(a.qz, b.qz) && Same(a.qw, b.qw)
  }

  predicate Matches(sig: Signature, known: Option<Signature>) { known.Some? && SameSignature(sig, known.value) }

  // The quaternion's norm is finite and at least one half.
  predicate ValidOrientation(m: Goal) {
    && m.qx.Finite? && m.qy.Finite? && m.qz.Finite? && m.qw.Finite?
    && m.qx.v * m.qx.v + m.qy.v * m.qy.v + m.qz.v * m.qz.v + m.qw.v * m.qw.v >= 0.25
  }

  // ----- State and steps -----

  datatype State = State(
    pending: bool, active: bool, sequence: nat,
    lastSignature: Option<Signature>, lastReceived: real,
    currentSignature: Option<Signature>, queuedSignature: Option<Signature>,
    lastFinishedSignature: Option<Signature>, lastFinishedAt: real,
    queuedGoal: Option<Goal>, queuedDispatchAt: Option<real>, queuedRetryCount: int,
    currentGoal: Option<Goal>, currentRetryCount: int, latestSource: int)

  const INITIAL: State := State(false, false, 0, None, 0.0, None, None, None, 0.0, None, None, 0, None, 0, 0)

  /** What a callback asks of the action server. */
  datatype Effect = Sent(goal: Goal) | Cancelled

  datatype Outcome = Outcome(state: State, effects: seq<Effect>)

  /** What a callback reads from outside: the clocks, and the two answers about whether the
      action server is ready, the callback's own and the one of `submit_goal`. */
  datatype Env = Env(now: real, wall: int, ready: bool, submitReady: bool)

  /** How the action server answers a goal: an error, a rejection or an acceptance. */
  datatype Answer = SendError | Rejected | Accepted

  datatype Event =
    | GoalPose(goal: Goal, frame: string, stamp: int, source: Option<int>)
    | DispatchTimer
    | GoalResponse(answer: Answer)
    | GoalResult

  function Handoff(p: Params): real { Max(p.handoffDelay, 0.2) }

  function Queue(p: Params, s: State, now: real, m: Goal, sig: Option<Signature>, retry: int): State {
    s.(queuedGoal := Some(m), queuedSignature := sig, queuedRetryCount := retry,
       queuedDispatchAt := Some(now + Handoff(p)))
  }

  function Submit(p: Params, s: State, env: Env, m: Goal, retry: int): Outcome {
    if !env.submitReady then Outcome(Queue(p, s, env.now, m, Some(SignatureOf(m)), retry), [])
    else Outcome(s.(sequence := s.sequence + 1, lastSignature := Some(SignatureOf(m)), lastReceived := env.now,
                    currentSignature := Some(SignatureOf(m)), currentGoal := Some(m), currentRetryCount := retry,
                    pending := true),
                 [Sent(m)])
  }

  predicate InFlight(s: State) { s.pending || s.active }

  predicate Duplicate(p: Params, s: State, now: real, sig: Signature) {
    || (InFlight(s) && Matches(sig, s.currentSignature))
    || (s.queuedGoal.Some? && Matches(sig, s.queuedSignature))
    || (Matches(sig, s.lastFinishedSignature) && now - s.lastFinishedAt < p.duplicateWindow)
    || (Matches(sig, s.lastSignature) && now - s.lastReceived < p.duplicateWindow)
  }

  function Created(env: Env, stamp: int, source: Option<int>): int {
    if source.Some? then source.value else if stamp > 0 then stamp else env.wall
  }

  // The sample is neither too old, nor from the future, nor older than one already seen.
  predicate Timely(p: Params, s: State, env: Env, created: int) {
    var age := (env.wall - created) as real / 1000000000.0;
    -5.0 <= age <= p.maxAge && !(s.latestSource > 0 && created < s.latestSource)
  }

  predicate Admissible(p: Params, s: State, now: real, m: Goal, frame: string) {
    frame == p.requiredFrame && ValidOrientation(m) && !Duplicate(p, s, now, SignatureOf(m))
  }

  function Admit(p: Params, s: State, env: Env, m: Goal): Outcome {
    if InFlight(s) then
      Outcome(Queue(p, s, env.now, m, Some(SignatureOf(m)), 0), if s.active then [Cancelled] else [])
    else if !env.ready then Outcome(s, [])
    else Submit(p, s, env, m, 0)
  }

  function PoseStep(p: Params, s: State, env: Env, m: Goal, frame: string, stamp: int, source: Option<int>): Outcome {
    var created := Created(env, stamp, source);
    if !Timely(p, s, env, created) then Outcome(s, [])
    else
      var t := s.(latestSource := MaxInt(s.latestSource, created));
      if !Admissible(p, t, env.now, m, frame) then Outcome(t, [])
      else Admit(p, t, env, m)
  }

  predicate Due(s: State, now: real) {
    s.queuedGoal.Some? && !InFlight(s) && s.queuedDispatchAt.Some? && now >= s.queuedDispatchAt.value
  }

  function DispatchStep(p: Params, s: State, env: Env): Outcome {
    if !Due(s, env.now) then Outcome(s, [])
    else if !env.ready then Outcome(s.(queuedDispatchAt := Some(env.now + 0.5)), [])
    else Submit(p, s.(queuedGoal := None, queuedSignature := None, queuedDispatchAt := None), env,
                s.queuedGoal.value, s.queuedRetryCount)
  }

  // A failed goal with retries left goes back to the queue.
  predicate Retries(p: Params, s: State) { s.currentGoal.Some? && s.currentRetryCount + 1 <= p.retryLimit }

  function ResponseStep(p: Params, s: State, env: Env, answer: Answer): State {
    if answer.Accepted? then s.(pending := false, active := true)
    else
      var t := s.(pending := false, currentSignature := None, currentGoal := None);
      if Retries(p, s) then Queue(p, t, env.now, s.currentGoal.value, s.currentSignature, s.currentRetryCount + 1) else t
  }

  function ResultStep(p: Params, s: State, env: Env): State {
    s.(active := false, currentGoal := None, currentRetryCount := 0, currentSignature := None,
       lastFinishedSignature := if s.currentSignature.Some? then s.currentSignature else s.lastFinishedSignature,
       lastFinishedAt := if s.currentSignature.Some? then env.now else s.lastFinishedAt,
       queuedDispatchAt := if s.queuedGoal.Some? then Some(env.now + Handoff(p)) else s.queuedDispatchAt)
  }

  function Step(p: Params, s: State, env: Env, e: Event): Outcome {
    match e
    case GoalPose(goal, frame, stamp, source) => PoseStep(p, s, env, goal, frame, stamp, source)
    case DispatchTimer => DispatchStep(p, s, env)
    case GoalResponse(answer) => Outcome(ResponseStep(p, s, env, answer), [])
    case GoalResult => Outcome(ResultStep(p, s, env), [])
  }

  // ----- The node -----

  class RvizGoalPoseBridge {
    const p: Params
    var pending: bool
    var active: bool
    var sequence: nat
    var lastSignature: Option<Signature>
    var lastReceived: real
    var currentSignature: Option<Signature>
    var queuedSignature: Option<Signature>
    var lastFinishedSignature: Option<Signature>
    var lastFinishedAt: real
    var queuedGoal: Option<Goal>
    var queuedDispatchAt: Option<real>
    var queuedRetryCount: int
    var currentGoal: Option<Goal>
    var currentRetryCount: int
    var latestSource: int

    constructor (params: Params)
      ensures p == params && Value() == INITIAL
    {
      p := params;
      pending, active, sequence := false, false, 0;
      lastSignature, lastReceived, lastFinishedSignature, lastFinishedAt := None, 0.0, None, 0.0;
      currentSignature, queuedSignature := None, None;
      queuedGoal, queuedDispatchAt, queuedRetryCount := None, None, 0;
      currentGoal, currentRetryCount, latestSource := None, 0, 0;
    }

    ghost function Value(): State
      reads this
    {
      State(pending, active, sequence, lastSignature, lastReceived, currentSignature, queuedSignature,
            lastFinishedSignature, lastFinishedAt, queuedGoal, queuedDispatchAt, queuedRetryCount,
            currentGoal, currentRetryCount, latestSource)
    }

    method QueueGoal(now: real, message: Goal, signature: Option<Signature>, retryCount: int)
      modifies this
      ensures Value() == Queue(p, old(Value()), now, message, signature, retryCount)
    {
      queuedGoal, queuedSignature, queuedRetryCount := Some(message), signature, retryCount;
      queuedDispatchAt := Some(now + Max(p.handoffDelay, 0.2));
    }

    method SubmitGoal(env: Env, message: Goal, retryCount: int) returns (effects: seq<Effect>)
      modifies this
      ensures Outcome(Value(), effects) == Submit(p, old(Value()), env, message, retryCount)
    {
      var signature := SignatureOf(message);
      if !env.submitReady {
        QueueGoal(env.now, message, Some(signature), retryCount);
        return [];
      }
      sequence := sequence + 1;
      lastSignature, lastReceived := Some(signature), env.now;
      currentSignature, currentGoal, currentRetryCount := Some(signature), Some(message), retryCount;
      pending := true;
      return [Sent(message)];
    }

    method DispatchQueuedGoal(env: Env) returns (effects: seq<Effect>)
      modifies this
      ensures Outcome(Value(), effects) == DispatchStep(p, old(Value()), env)
    {
      if queuedGoal.None? || pending || active || queuedDispatchAt.None? || env.now < queuedDispatchAt.value {
        return [];
      }
      if !env.ready {
        queuedDispatchAt := Some(env.now + 0.5);
        return [];
      }
      var message, retryCount := queuedGoal.value, queuedRetryCount;
      queuedGoal, queuedSignature, queuedDispatchAt := None, None, None;
      effects := SubmitGoal(env, message, retryCount);
    }

    method OnGoalPose(env: Env, message: Goal, frame: string, stamp: int, source: Option<int>)
      returns (effects: seq<Effect>)
      modifies this
      ensures Outcome(Value(), effects) == PoseStep(p, old(Value()), env, message, frame, stamp, source)
    {
      hide SignatureOf, ValidOrientation, Admit, Duplicate;
      var created := Created(env, stamp, source);
      var age := (env.wall - created) as real / 1000000000.0;
      if age > p.maxAge || age < -5.0 { return []; }
      if latestSource > 0 && created < latestSource { return []; }
      latestSource := MaxInt(latestSource, created);
      if frame != p.requiredFrame { return []; }
      if !ValidOrientation(message) { return []; }
      var signature := SignatureOf(message);
      var duplicate := IsDuplicate(env.now, signature);
      if duplicate { return []; }
      effects := AdmitGoal(env, message, signature);
    }

    // The four duplicate filters.
    method IsDuplicate(now: real, signature: Signature) returns (duplicate: bool)
      ensures duplicate == Duplicate(p, Value(), now, signature)
    {
      hide SameSignature;
      if (pending || active) && Matches(signature, currentSignature) { return true; }
      if queuedGoal.Some? && Matches(signature, queuedSignature) { return true; }
      if Matches(signature, lastFinishedSignature) && now - lastFinishedAt < p.duplicateWindow { return true; }
      if Matches(signature, lastSignature) && now - lastReceived < p.duplicateWindow { return true; }
      return false;
    }

    // An admitted goal replaces the one in flight or is sent at once.
    method AdmitGoal(env: Env, message: Goal, signature: Signature) returns (effects: seq<Effect>)
      requires signature == SignatureOf(message)
      modifies this
      ensures Outcome(Value(), effects) == Admit(p, old(Value()), env, message)
    {
      hide Submit, SignatureOf;
      if pending || active {
        QueueGoal(env.now, message, Some(signature), 0);
        return if active then [Cancelled] else [];
      }
      if !env.ready { return []; }
      effects := SubmitGoal(env, message, 0);
    }

    method OnGoalResponse(env: Env, answer: Answer)
      modifies this
      ensures Value() == ResponseStep(p, old(Value()), env, answer)
    {
      pending := false;
      if answer.Accepted? {
        active := true;
        return;
      }
      var failedMessage, failedSignature, retryCount := currentGoal, currentSignature, currentRetryCount + 1;
      currentSignature, currentGoal := None, None;
      if failedMessage.Some? && retryCount <= p.retryLimit {
        QueueGoal(env.now, failedMessage.value, failedSignature, retryCount);
      }
    }

    method OnGoalResult(env: Env)
      modifies this
      ensures Value() == ResultStep(p, old(Value()), env)
    {
      active, currentGoal, currentRetryCount := false, None, 0;
      var finishedSignature := currentSignature;
      currentSignature := None;
      if finishedSignature.Some? {
        lastFinishedSignature, lastFinishedAt := finishedSignature, env.now;
      }
      if queuedGoal.Some? {
        queuedDispatchAt := Some(env.now + Max(p.handoffDelay, 0.2));
      }
    }
  }

  // ----- Runs -----

  datatype Arrival = Arrival(env: Env, e: Event)

  type Run = seq<Arrival>

  function Reach(p: Params, tr: Run): State {
    if |tr| == 0 then INITIAL else Step(p, Reach(p, Init(tr)), Last(tr).env, Last(tr).e).state
  }

  // What the last event of the run asks of the action server.
  function LastEffects(p: Params, tr: Run): seq<Effect>
    requires |tr| > 0
  {
    Step(p, Reach(p, Init(tr)), Last(tr).env, Last(tr).e).effects
  }

  function CountSent(effects: seq<Effect>): nat {
    if |effects| == 0 then 0
    else CountSent(effects[..|effects| - 1]) + (if effects[|effects| - 1].Sent? then 1 else 0)
  }

  // Goals sent and not answered yet.
  function Unanswered(p: Params, tr: Run): int {
    if |tr| == 0 then 0
    else Unanswered(p, Init(tr)) + CountSent(LastEffects(p, tr)) - (if Last(tr).e.GoalResponse? then 1 else 0)
  }

  // Goals accepted by the server whose result has not come back yet.
  function Running(tr: Run): int {
    if |tr| == 0 then 0
    else Running(Init(tr)) + (if Last(tr).e == GoalResponse(Accepted) then 1 else 0)
                           - (if Last(tr).e.GoalResult? then 1 else 0)
  }

  // The server answers only goals that were sent, and finishes only goals that it accepted.
  ghost predicate Legal(p: Params, tr: Run) {
    |tr| == 0
    || (&& Legal(p, Init(tr))
        && (Last(tr).e.GoalResponse? ==> Unanswered(p, Init(tr)) > 0)
        && (Last(tr).e.GoalResult? ==> Running(Init(tr)) > 0))
  }

  predicate Enabled(s: State, e: Event) { (e.GoalResponse? ==> s.pending) && (e.GoalResult? ==> s.active) }

  // ----- One goal at a time -----

  // What the flags, the queue and the current goal have to do with each other.
  predicate Coherent(s: State) {
    && !(s.pending && s.active)
    && (InFlight(s) ==> s.currentGoal.Some? && s.currentSignature == Some(SignatureOf(s.currentGoal.value)))
    && (!InFlight(s) ==> s.currentGoal.None? && s.currentSignature.None?)
    && (s.queuedGoal.Some? ==>
          s.queuedSignature == Some(SignatureOf(s.queuedGoal.value)) && s.queuedDispatchAt.Some?)
    && (InFlight(s) && s.queuedGoal.Some? ==>
          !SameSignature(SignatureOf(s.queuedGoal.value), SignatureOf(s.currentGoal.value)))
  }

  lemma {:induction false} SameSymmetric(a: Signature, b: Signature)
    ensures SameSignature(a, b) == SameSignature(b, a)
  {
  }

  lemma {:induction false} StepCoherent(p: Params, s: State, env: Env, e: Event)
    requires Coherent(s) && Enabled(s, e)
    ensures Coherent(Step(p, s, env, e).state)
  {
    hide SignatureOf, SameSignature, ValidOrientation, Timely;
    if e.GoalPose? && s.queuedGoal.Some? {
      SameSymmetric(SignatureOf(e.goal), SignatureOf(s.queuedGoal.value));
    }
  }

  lemma {:induction false} StepFlags(p: Params, s: State, env: Env, e: Event)
    requires Coherent(s) && Enabled(s, e)
    ensures var o := Step(p, s, env, e);
      && CountSent(o.effects) == (if o.state.pending && !s.pending then 1 else 0)
      && (CountSent(o.effects) > 0 ==> !InFlight(s))
      && (if e.GoalResponse? then !o.state.pending && o.state.active == (e.answer == Accepted)
          else if e.GoalResult? then !o.state.active && o.state.pending == s.pending
          else o.state.active == s.active && (s.pending ==> o.state.pending))
  {
    hide SignatureOf, SameSignature, ValidOrientation, Timely, Duplicate;
    CountSmall(p, s, env, e);
  }

  lemma {:induction false} CountSmall(p: Params, s: State, env: Env, e: Event)
    ensures var effects := Step(p, s, env, e).effects;
            |effects| <= 1 && CountSent(effects) == (if |effects| == 1 && effects[0].Sent? then 1 else 0)
  {
    hide SignatureOf, SameSignature, ValidOrientation, Timely, Duplicate;
    assert CountSent([]) == 0;
    forall x: Effect ensures CountSent([x]) == if x.Sent? then 1 else 0 {
      assert [x][..0] == [];
    }
  }

  /** One goal at a time: in every run in which the server answers only what it was sent, at
      most one goal is unanswered or running, the bridge's two flags say which, and the
      queued goal never has the signature of the one in flight. */
  lemma {:induction false} OneInFlight(p: Params, tr: Run)
    requires Legal(p, tr)
    ensures Coherent(Reach(p, tr))
    ensures Unanswered(p, tr) == (if Reach(p, tr).pending then 1 else 0)
    ensures Running(tr) == (if Reach(p, tr).active then 1 else 0)
  {
    hide Step, SignatureOf, SameSignature, CountSent;
    if |tr| > 0 {
      var q, s := Init(tr), Reach(p, Init(tr));
      OneInFlight(p, q);
      assert Enabled(s, Last(tr).e);
      StepCoherent(p, s, Last(tr).env, Last(tr).e);
      StepFlags(p, s, Last(tr).env, Last(tr).e);
    } else {
      assert Coherent(INITIAL);
    }
  }

  /** A goal is sent only when nothing is in flight. */
  lemma {:induction false} SendsOnlyWhenIdle(p: Params, tr: Run)
    requires Legal(p, tr) && |tr| > 0 && CountSent(LastEffects(p, tr)) > 0
    ensures Unanswered(p, Init(tr)) == 0 && Running(Init(tr)) == 0 && CountSent(LastEffects(p, tr)) == 1
  {
    hide Step, CountSent;
    OneInFlight(p, Init(tr));
    StepFlags(p, Reach(p, Init(tr)), Last(tr).env, Last(tr).e);
  }

  // ----- Duplicates and cancellations -----

  function CurrentSignature(s: State): Option<Signature> {
    match s.currentGoal case None => None case Some(m) => Some(SignatureOf(m))
  }

  /** A repeat of the goal in flight is dropped: nothing is sent or cancelled, and nothing but the
      time of the newest sample changes. */
  lemma {:induction false} RepeatIsDropped(p: Params, tr: Run, x: Arrival)
    requires Legal(p, tr) && x.e.GoalPose? && InFlight(Reach(p, tr))
    requires Matches(SignatureOf(x.e.goal), CurrentSignature(Reach(p, tr)))
    ensures LastEffects(p, tr + [x]) == []
    ensures var s := Reach(p, tr); Reach(p, tr + [x]) == s.(latestSource := Reach(p, tr + [x]).latestSource)
  {
    hide SignatureOf, SameSignature, ValidOrientation, Timely, Reach;
    OneInFlight(p, tr);
    assert Init(tr + [x]) == tr;
    ReachStep(p, tr, x);
  }

  lemma {:induction false} ReachStep(p: Params, tr: Run, x: Arrival)
    ensures Reach(p, tr + [x]) == Step(p, Reach(p, tr), x.env, x.e).state
  {
    hide Step;
    assert Init(tr + [x]) == tr;
  }

  /** A running goal is cancelled exactly by an admitted goal, which is then the queued one and has
      another signature. */
  lemma {:induction false} CancelsOnlyForANewGoal(p: Params, tr: Run, x: Arrival)
    requires Legal(p, tr)
    ensures var s, t := Reach(p, tr), Reach(p, tr + [x]);
      Cancelled in LastEffects(p, tr + [x]) <==>
      && s.active && x.e.GoalPose?
      && Timely(p, s, x.env, Created(x.env, x.e.stamp, x.e.source)) && Admissible(p, s, x.env.now, x.e.goal, x.e.frame)
    ensures Cancelled in LastEffects(p, tr + [x]) ==>
      var s, t := Reach(p, tr), Reach(p, tr + [x]);
      && t.queuedGoal == Some(x.e.goal) && t.queuedRetryCount == 0
      && !Matches(SignatureOf(x.e.goal), CurrentSignature(s))
  {
    hide SignatureOf, SameSignature, ValidOrientation, Timely, Reach;
    OneInFlight(p, tr);
    assert Init(tr + [x]) == tr;
    ReachStep(p, tr, x);
  }

  // ----- How often a goal is sent -----

  // Messages are distinct objects: no message arrives twice.
  predicate DistinctMessages(tr: Run) {
    forall i, j :: 0 <= i < j < |tr| && tr[i].e.GoalPose? && tr[j].e.GoalPose? ==> tr[i].e.goal.id != tr[j].e.goal.id
  }

  ghost predicate Arrived(tr: Run, id: nat) {
    exists i :: 0 <= i < |tr| && tr[i].e.GoalPose? && tr[i].e.goal.id == id
  }

  function SendsIn(effects: seq<Effect>, id: nat): nat {
    if |effects| == 0 then 0
    else SendsIn(effects[..|effects| - 1], id)
         + (if effects[|effects| - 1].Sent? && effects[|effects| - 1].goal.id == id then 1 else 0)
  }

  // How many times the run has sent a message to the action server.
  function SendsOf(p: Params, tr: Run, id: nat): nat {
    if |tr| == 0 then 0 else SendsOf(p, Init(tr), id) + SendsIn(LastEffects(p, tr), id)
  }

  function MaxRetries(p: Params): int { MaxInt(0, p.retryLimit) }

  // The retry counters of the goals held count their sends.
  ghost predicate Counted(p: Params, tr: Run, s: State) {
    && (InFlight(s) && s.currentGoal.Some? ==>
          && Arrived(tr, s.currentGoal.value.id) && s.currentRetryCount <= MaxRetries(p)
          && SendsOf(p, tr, s.currentGoal.value.id) == s.currentRetryCount + 1)
    && (s.queuedGoal.Some? ==>
          && Arrived(tr, s.queuedGoal.value.id) && s.queuedRetryCount <= MaxRetries(p)
          && SendsOf(p, tr, s.queuedGoal.value.id) == s.queuedRetryCount)
    && (InFlight(s) && s.currentGoal.Some? && s.queuedGoal.Some? ==> s.currentGoal.value.id != s.queuedGoal.value.id)
  }

  // Where the goals held after a step come from.
  predicate CurrentComesFrom(s: State, e: Event, t: State) {
    InFlight(t) && t.currentGoal.Some? ==>
      || (InFlight(s) && t.currentGoal == s.currentGoal && t.currentRetryCount == s.currentRetryCount)
      || (!InFlight(s) && t.pending && e.GoalPose? && t.currentGoal == Some(e.goal) && t.currentRetryCount == 0)
      || (!InFlight(s) && t.pending && e.DispatchTimer? && s.queuedGoal.Some? && t.currentGoal == s.queuedGoal
          && t.currentRetryCount == s.queuedRetryCount
          && t.queuedGoal.None?)
  }

  predicate QueuedComesFrom(p: Params, s: State, e: Event, t: State) {
    t.queuedGoal.Some? ==>
      || (t.queuedGoal == s.queuedGoal && t.queuedRetryCount == s.queuedRetryCount)
      || (e.GoalPose? && t.queuedGoal == Some(e.goal) && t.queuedRetryCount == 0 && (InFlight(t) ==> InFlight(s)))
      || (e.GoalResponse? && InFlight(s) && s.currentGoal.Some? && t.queuedGoal == s.currentGoal
          && t.queuedRetryCount == s.currentRetryCount + 1 && t.queuedRetryCount <= p.retryLimit && !InFlight(t))
  }

  lemma {:induction false} StepProvenance(p: Params, s: State, env: Env, e: Event)
    requires Coherent(s) && Enabled(s, e)
    ensures var o := Step(p, s, env, e);
      && CurrentComesFrom(s, e, o.state) && QueuedComesFrom(p, s, e, o.state)
      && forall id: nat :: SendsIn(o.effects, id) ==
           (if o.state.pending && !InFlight(s) && o.state.currentGoal.Some? && o.state.currentGoal.value.id == id
            then 1 else 0)
  {
    hide SignatureOf, SameSignature, ValidOrientation, Timely, Duplicate;
    CountSmall(p, s, env, e);
    forall x: Effect, id: nat ensures SendsIn([x], id) == (if x.Sent? && x.goal.id == id then 1 else 0) {
      assert [x][..0] == [];
    }
    assert forall id: nat :: SendsIn([], id) == 0;
  }

  lemma {:induction false} ArrivedGrows(tr: Run, id: nat)
    requires |tr| > 0
    ensures Arrived(tr, id) <==> Arrived(Init(tr), id) || (Last(tr).e.GoalPose? && Last(tr).e.goal.id == id)
  {
    if Arrived(Init(tr), id) {
      var i :| 0 <= i < |tr| - 1 && tr[i].e.GoalPose? && tr[i].e.goal.id == id;
      assert tr[i].e.goal.id == id;
    }
    if Arrived(tr, id) {
      var i :| 0 <= i < |tr| && tr[i].e.GoalPose? && tr[i].e.goal.id == id;
      if i < |tr| - 1 { assert Init(tr)[i].e.goal.id == id; }
    }
  }

  lemma {:induction false} FreshOnArrival(tr: Run)
    requires |tr| > 0 && DistinctMessages(tr) && Last(tr).e.GoalPose?
    ensures !Arrived(Init(tr), Last(tr).e.goal.id)
  {
  }

  /** Bounded retries: whatever the server answers and however clicks interleave, no message is
      sent more than the retry limit plus one times, and the retry counters are exact. */
  lemma {:induction false} SendsBounded(p: Params, tr: Run)
    requires Legal(p, tr) && DistinctMessages(tr)
    ensures Counted(p, tr, Reach(p, tr))
    ensures forall id: nat :: SendsOf(p, tr, id) <= MaxRetries(p) + 1
    ensures forall id: nat :: !Arrived(tr, id) ==> SendsOf(p, tr, id) == 0
  {
    hide Step, SendsIn, Arrived, Coherent;
    if |tr| > 0 {
      var q, s, e := Init(tr), Reach(p, Init(tr)), Last(tr).e;
      SendsBounded(p, q);
      OneInFlight(p, q);
      OneInFlight(p, tr);
      StepProvenance(p, s, Last(tr).env, e);
      forall id: nat ensures Arrived(tr, id) <==> Arrived(q, id) || (e.GoalPose? && e.goal.id == id) {
        ArrivedGrows(tr, id);
      }
      if e.GoalPose? { FreshOnArrival(tr); }
    }
  }
}
