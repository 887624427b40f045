/** Hysteresis on the localization fitness score: block only on sustained poor fitness,
    recover only on a stable run, with thresholds that may differ from sample to sample. */
module Fitness {
  import opened Numbers

  datatype Hysteresis = Hysteresis(blocked: bool, badSince: Option<real>, clearCount: nat)

  const INITIAL_HYSTERESIS: Hysteresis := Hysteresis(true, None, 0)

  datatype Thresholds = Thresholds(block: real, clear: real, hold: real, clearSamples: int)

  /** What happens to the hysteresis: a sample judged by the thresholds then in force, or a
      recovery start, which zeroes the clear count. The source also means to reset the hold
      timer there, but assigns a field that nothing reads. */
  datatype Event = Sample(value: Reading, time: real, t: Thresholds) | Restart

  function Required(t: Thresholds): int { MaxInt(1, t.clearSamples) }

  function Updated(s: Hysteresis, value: Reading, now: real, t: Thresholds): Hysteresis {
    if !value.Finite? then Hysteresis(true, Some(now), 0)
    else if s.blocked then
      if value.v <= t.clear then
        if s.clearCount + 1 >= Required(t) then Hysteresis(false, None, 0)
        else Hysteresis(true, None, s.clearCount + 1)
      else Hysteresis(true, None, 0)
    else if value.v <= t.block then Hysteresis(false, None, 0)
    else if s.badSince.None? then Hysteresis(false, Some(now), 0)
    else Hysteresis(now - s.badSince.value >= t.hold, s.badSince, 0)
  }

  function Apply(s: Hysteresis, e: Event): Hysteresis {
    match e
    case Sample(value, time, t) => Updated(s, value, time, t)
    case Restart => s.(clearCount := 0)
  }

  class FitnessHysteresis {
    var blocked: bool
    var badSinceSec: Option<real>
    var clearCount: nat

    constructor ()
      ensures Value() == INITIAL_HYSTERESIS
    {
      blocked, badSinceSec, clearCount := true, None, 0;
    }

    ghost function Value(): Hysteresis
      reads this
    {
      Hysteresis(blocked, badSinceSec, clearCount)
    }

    method Update(value: Reading, nowSec: real, blockThreshold: real, clearThreshold: real,
                  badHoldSec: real, clearSamples: int)
      modifies this
      ensures Value() == Updated(old(Value()), value, nowSec,
                                 Thresholds(blockThreshold, clearThreshold, badHoldSec, clearSamples))
    {
      var requiredSamples := MaxInt(1, clearSamples);
      if !value.Finite? {
        blocked, badSinceSec, clearCount := true, Some(nowSec), 0;
        return;
      }
      if blocked {
        badSinceSec := None;
        if value.v <= clearThreshold {
          clearCount := clearCount + 1;
          if clearCount >= requiredSamples {
            blocked, clearCount := false, 0;
          }
        } else {
          clearCount := 0;
        }
        return;
      }
      clearCount := 0;
      if value.v <= blockThreshold {
        badSinceSec := None;
        return;
      }
      if badSinceSec.None? {
        badSinceSec := Some(nowSec);
        return;
      }
      if nowSec - badSinceSec.value >= badHoldSec {
        blocked, clearCount := true, 0;
      }
    }

    method ResetClearCount()
      modifies this
      ensures Value() == Apply(old(Value()), Restart)
    {
      clearCount := 0;
    }
  }

  // At least one sample, and otherwise as many as the thresholds ask for.
  lemma {:induction false} RequiredExactly(t: Thresholds)
    ensures Required(t) == (if t.clearSamples >= 1 then t.clearSamples else 1)
  {
  }

  // ----- Whole histories -----

  function Fold(h: seq<Event>): Hysteresis {
    if |h| == 0 then INITIAL_HYSTERESIS else Apply(Fold(h[..|h| - 1]), h[|h| - 1])
  }

  // Whether the hysteresis blocks just before event i is processed.
  predicate BlockedBefore(h: seq<Event>, i: int)
    requires 0 <= i <= |h|
  {
    Fold(h[..i]).blocked
  }

  predicate Good(e: Event) { e.Sample? && e.value.Finite? && e.value.v <= e.t.clear }

  predicate Bad(e: Event) { e.Sample? && e.value.Finite? && e.value.v > e.t.block }

  // Events j..n-1 are all good samples taken while blocked.
  ghost predicate ClearRun(h: seq<Event>, j: int, n: int) {
    0 <= j <= n <= |h| && forall k :: j <= k < n ==> Good(h[k]) && BlockedBefore(h, k)
  }

  // An unbroken over-threshold run fills j..n-1, starting with the sample at j.
  ghost predicate BadRun(h: seq<Event>, j: int, n: int) {
    0 <= j < n <= |h| && h[j].Sample?
    && forall k :: j <= k < n ==> !BlockedBefore(h, k) && (h[k].Restart? || Bad(h[k]))
  }

  ghost predicate FirstBad(h: seq<Event>, j: int, n: int) {
    BadRun(h, j, n) && forall i :: BadRun(h, i, n) ==> j <= i
  }

  ghost predicate Tracks(h: seq<Event>, s: Hysteresis) {
    if s.blocked then
      ClearRun(h, |h| - s.clearCount, |h|) && forall j :: ClearRun(h, j, |h|) ==> |h| - s.clearCount <= j
    else
      s.clearCount == 0
      && (s.badSince.None? ==> forall j :: !BadRun(h, j, |h|))
      && (s.badSince.Some? ==> exists j :: FirstBad(h, j, |h|) && s.badSince.value == h[j].time)
  }

  lemma {:induction false} PrefixesAgree(h: seq<Event>, n: int)
    requires 0 <= n <= |h|
    ensures forall k :: 0 <= k <= n ==> h[..n][..k] == h[..k]
  {
  }

  // Runs over a prefix are runs over the whole history, and the other way round.
  lemma {:induction false} RunsInPrefix(h: seq<Event>, n: int, j: int)
    requires 0 <= n <= |h|
    ensures ClearRun(h[..n], j, n) == ClearRun(h, j, n)
    ensures BadRun(h[..n], j, n) == BadRun(h, j, n)
  {
    PrefixesAgree(h, n);
    forall k | 0 <= k <= n ensures BlockedBefore(h[..n], k) == BlockedBefore(h, k) { }
  }

  lemma {:induction false} FirstBadInPrefix(h: seq<Event>, n: int, j: int)
    requires 0 <= n <= |h|
    ensures FirstBad(h[..n], j, n) == FirstBad(h, j, n)
  {
    forall i ensures BadRun(h[..n], i, n) == BadRun(h, i, n) { RunsInPrefix(h, n, i); }
  }

  // The state, read against runs of the whole history instead of the prefix.
  lemma {:induction false} TracksPrefix(h: seq<Event>, n: int, s: Hysteresis)
    requires 0 <= n <= |h| && Tracks(h[..n], s)
    ensures s.blocked ==> ClearRun(h, n - s.clearCount, n)
    ensures s.blocked ==> forall j :: ClearRun(h, j, n) ==> n - s.clearCount <= j
    ensures !s.blocked && s.badSince.None? ==> forall j :: !BadRun(h, j, n)
    ensures !s.blocked && s.badSince.Some? ==>
              exists j :: FirstBad(h, j, n) && s.badSince.value == h[j].time
  {
    if s.blocked {
      RunsInPrefix(h, n, n - s.clearCount);
    }
    forall j ensures ClearRun(h[..n], j, n) == ClearRun(h, j, n) && BadRun(h[..n], j, n) == BadRun(h, j, n) {
      RunsInPrefix(h, n, j);
    }
    if !s.blocked && s.badSince.Some? {
      var j :| FirstBad(h[..n], j, n) && s.badSince.value == h[..n][j].time;
      FirstBadInPrefix(h, n, j);
    }
  }

  lemma {:induction false} FirstBadStep(h: seq<Event>, j: int, n: int, m: int)
    requires 0 <= n < |h| && m == n + 1 && FirstBad(h, j, n) && BadRun(h, j, m)
    ensures FirstBad(h, j, m)
  {
    forall i | BadRun(h, i, m) ensures j <= i {
      if i < n { assert BadRun(h, i, n); }
    }
  }

  lemma {:induction false} FoldTracks(h: seq<Event>)
    ensures Tracks(h, Fold(h))
  {
    if |h| > 0 {
      var n := |h| - 1;
      FoldTracks(h[..n]);
      TracksPrefix(h, n, Fold(h[..n]));
      assert h[..n + 1] == h;
      if BlockedBefore(h, n) {
        if Fold(h).blocked { ClearRunStep(h, n); } else { NoBadRunAfterBlock(h, n, |h|); }
      } else if !Fold(h).blocked {
        BadRunStep(h, n, |h|, Fold(h[..n]));
      } else {
        assert forall j :: ClearRun(h, j, |h|) && j <= n ==> BlockedBefore(h, n);
      }
    }
  }

  lemma {:induction false} NoBadRunAfterBlock(h: seq<Event>, n: int, m: int)
    requires 0 <= n < |h| && m == n + 1 && BlockedBefore(h, n)
    ensures forall j :: !BadRun(h, j, m)
  {
  }

  lemma {:induction false} ClearRunStep(h: seq<Event>, n: int)
    requires n == |h| - 1 >= 0
    requires var s := Fold(h[..n]); s.blocked && ClearRun(h, n - s.clearCount, n)
                                    && forall j :: ClearRun(h, j, n) ==> n - s.clearCount <= j
    requires Fold(h).blocked
    ensures Tracks(h, Fold(h))
  {
    var s := Fold(h[..n]);
    if Good(h[n]) {
      assert ClearRun(h, n - s.clearCount, |h|);
    }
    forall j | ClearRun(h, j, |h|) ensures |h| - Fold(h).clearCount <= j {
      if j <= n {
        assert ClearRun(h, j, n);
        assert Good(h[n]);
      }
    }
  }

  lemma {:induction false} BadRunStep(h: seq<Event>, n: int, m: int, s: Hysteresis)
    requires 0 <= n < |h| && m == n + 1 && !BlockedBefore(h, n)
    requires !s.blocked && !Apply(s, h[n]).blocked
    requires s.badSince.None? ==> forall j :: !BadRun(h, j, n)
    requires s.badSince.Some? ==> exists j :: FirstBad(h, j, n) && s.badSince.value == h[j].time
    ensures var next := Apply(s, h[n]);
            && (next.badSince.None? ==> forall j :: !BadRun(h, j, m))
            && (next.badSince.Some? ==> exists j :: FirstBad(h, j, m) && next.badSince.value == h[j].time)
  {
    hide Fold;
    if !(h[n].Restart? || Bad(h[n])) {
      assert forall j :: !BadRun(h, j, m);
    } else if s.badSince.Some? {
      var j :| FirstBad(h, j, n) && s.badSince.value == h[j].time;
      assert BadRun(h, j, m);
      FirstBadStep(h, j, n, m);
    } else {
      forall j | BadRun(h, j, m) && j < n ensures BadRun(h, j, n) { }
      if Bad(h[n]) {
        assert BadRun(h, n, m);
        assert FirstBad(h, n, m);
      }
    }
  }

  // A run of at least `count` good samples taken while blocked ends just before n.
  ghost predicate ReleaseEarned(h: seq<Event>, n: int, count: int) {
    exists j :: ClearRun(h, j, n) && n - j >= count
  }

  // The unbroken over-threshold run that ends just before n began at an earlier sample,
  // at least `hold` before the last one.
  ghost predicate HoldExceeded(h: seq<Event>, n: int, hold: real)
    requires 1 <= n <= |h| && h[n - 1].Sample?
  {
    exists j :: FirstBad(h, j, n) && j < n - 1 && h[n - 1].time - h[j].time >= hold
  }

  /** Release, exactly: a blocked hysteresis unblocks on event i if and only if the required
      number of consecutive finite samples ends there, each at most the clear threshold
      then in force and all taken while blocked. */
  lemma {:induction false} UnblocksExactly(h: seq<Event>, i: int)
    requires 0 <= i < |h| && BlockedBefore(h, i)
    ensures !BlockedBefore(h, i + 1) <==>
            h[i].Sample? && ReleaseEarned(h, i + 1, Required(h[i].t))
  {
    var s := Fold(h[..i]);
    FoldTracks(h[..i]);
    TracksPrefix(h, i, s);
    assert h[..i + 1][..i] == h[..i];
    if Good(h[i]) {
      assert ClearRun(h, i - s.clearCount, i + 1);
    }
    var n := i + 1;
    forall j | ClearRun(h, j, n) && j <= i ensures i - s.clearCount <= j && Good(h[i]) {
      assert ClearRun(h, j, i);
    }
  }

  /** Blocking, exactly: an open hysteresis blocks on event i if and only if the sample is not
      finite, or an unbroken over-threshold run that began at an earlier sample reaches i
      and has lasted the hold time then in force. */
  lemma {:induction false} BlocksExactly(h: seq<Event>, i: int)
    requires 0 <= i < |h| && !BlockedBefore(h, i)
    ensures BlockedBefore(h, i + 1) <==>
            h[i].Sample? && (!h[i].value.Finite? || HoldExceeded(h, i + 1, h[i].t.hold))
  {
    var s := Fold(h[..i]);
    FoldTracks(h[..i]);
    TracksPrefix(h, i, s);
    assert h[..i + 1][..i] == h[..i];
    var n := i + 1;
    if s.badSince.Some? && Bad(h[i]) {
      var j :| FirstBad(h, j, i) && s.badSince.value == h[j].time;
      assert BadRun(h, j, n);
      FirstBadStep(h, j, i, n);
      assert forall k :: FirstBad(h, k, n) ==> k == j;
    }
    forall j | FirstBad(h, j, n) && j < i ensures BadRun(h, j, i) { }
  }

  // The required run of good samples ends with event n-1, and nothing has blocked since.
  ghost predicate OpenSince(h: seq<Event>, n: int) {
    && 1 <= n <= |h| && h[n - 1].Sample? && ReleaseEarned(h, n, Required(h[n - 1].t))
    && forall k :: n <= k <= |h| ==> !BlockedBefore(h, k)
  }

  /** The hysteresis starts blocked, so it is open only after some release was earned. */
  lemma {:induction false} OpenNeedsRelease(h: seq<Event>)
    requires !Fold(h).blocked
    ensures exists n :: OpenSince(h, n)
  {
    var p, m := h[..|h| - 1], |h| - 1;
    assert h[..|h|] == h;
    PrefixesAgree(h, m);
    if BlockedBefore(h, m) {
      UnblocksExactly(h, m);
      assert OpenSince(h, |h|);
    } else {
      OpenNeedsRelease(p);
      var n :| OpenSince(p, n);
      ReleaseInPrefix(h, m, n, Required(h[n - 1].t));
      forall k | n <= k <= |h| ensures !BlockedBefore(h, k) {
        if k <= m { assert !BlockedBefore(p, k); }
      }
      assert OpenSince(h, n);
    }
  }

  lemma {:induction false} ReleaseInPrefix(h: seq<Event>, m: int, n: int, count: int)
    requires 0 <= n <= m <= |h| && ReleaseEarned(h[..m], n, count)
    ensures ReleaseEarned(h, n, count)
  {
    var j :| ClearRun(h[..m], j, n) && n - j >= count;
    assert h[..m][..n] == h[..n];
    RunsInPrefix(h[..m], n, j);
    RunsInPrefix(h, n, j);
  }

  function FoldFrom(s: Hysteresis, h: seq<Event>): Hysteresis
    decreases |h|
  {
    if |h| == 0 then s else FoldFrom(Apply(s, h[0]), h[1..])
  }

  /** The hold timer that a recovery start leaves untouched can never matter: recovery starts
      only while blocked, and from a blocked state the next sample overwrites the timer. */
  lemma {:induction false} HoldTimerIrrelevantWhileBlocked(s: Hysteresis, timer: Option<real>, rest: seq<Event>)
    requires s.blocked && |rest| > 0
    ensures var other := s.(badSince := timer);
            FoldFrom(s, rest).blocked == FoldFrom(other, rest).blocked
            && FoldFrom(s, rest).clearCount == FoldFrom(other, rest).clearCount
    decreases |rest|
  {
    if |rest| > 1 && rest[0].Restart? {
      HoldTimerIrrelevantWhileBlocked(Apply(s, Restart), timer, rest[1..]);
    }
  }
}
