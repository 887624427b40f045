/** The fail-safe hysteresis of one intermittent ultrasonic sensor, and what it means
    for a whole sample history. */
module Ultrasonic {
  import opened Numbers

  datatype Kind = NoKind | NoEcho | Echo

  datatype Latch = Latch(blocked: bool, lastBlocked: Reading, clearCount: nat, clearKind: Kind)

  const INITIAL_LATCH: Latch := Latch(false, NegInf, 0, NoKind)

  /** Parameters of `update`; the two sample counts are as the caller passes them. */
  datatype Limits = Limits(stop: real, clear: real, hold: real, finiteSamples: int, noEchoSamples: int)

  datatype Sample = Sample(value: Reading, time: real)

  predicate Blocks(l: Limits, v: Reading) {
    match v
    case Finite(x) => x <= l.stop
    case PosInf => false
    case NegInf => true
    case NaN => true
  }

  // What a sample says in favour of clearing; NoKind for the band between stop and clear.
  function ClearKind(l: Limits, v: Reading): Kind {
    match v
    case Finite(x) => if x <= l.stop then NoKind else if x >= l.clear then Echo else NoKind
    case PosInf => NoEcho
    case _ => NoKind
  }

  function Required(l: Limits, k: Kind): int {
    var finite := MaxInt(1, l.finiteSamples);
    if k == NoEcho then MaxInt(finite, l.noEchoSamples) else finite
  }

  // `now - lastBlocked < hold`
  predicate Held(l: Limits, lastBlocked: Reading, now: real) {
    match lastBlocked
    case Finite(t) => now - t < l.hold
    case NegInf => false
    case PosInf => true
    case NaN => false
  }

  function Updated(l: Limits, latch: Latch, s: Sample): Latch {
    if Blocks(l, s.value) then Latch(true, Finite(s.time), 0, NoKind)
    else
      var kind := ClearKind(l, s.value);
      if kind == NoKind then latch.(clearCount := 0, clearKind := NoKind)
      else if !latch.blocked then latch
      else if Held(l, latch.lastBlocked, s.time) then latch.(clearCount := 0, clearKind := NoKind)
      else
        var count := (if latch.clearKind == kind then latch.clearCount else 0) + 1;
        if count >= Required(l, kind)
        then latch.(blocked := false, clearCount := 0, clearKind := NoKind)
        else latch.(clearCount := count, clearKind := kind)
  }

  class UltrasonicLatch {
    var blocked: bool
    var lastBlockedSec: Reading
    var clearCount: nat
    var clearKind: Kind

    constructor ()
      ensures Value() == INITIAL_LATCH
    {
      blocked, lastBlockedSec, clearCount, clearKind := false, NegInf, 0, NoKind;
    }

    ghost function Value(): Latch
      reads this
    {
      Latch(blocked, lastBlockedSec, clearCount, clearKind)
    }

    method Update(value: Reading, nowSec: real, stopDistance: real, clearDistance: real,
                  holdSec: real, finiteClearSamples: int, noEchoClearSamples: int)
      modifies this
      ensures Value() == Updated(
        Limits(stopDistance, clearDistance, holdSec, finiteClearSamples, noEchoClearSamples),
        old(Value()), Sample(value, nowSec))
    {
      var finiteSamples := MaxInt(1, finiteClearSamples);
      var noEchoSamples := MaxInt(finiteSamples, noEchoClearSamples);
      var kind, requiredSamples;
      if !value.Finite? {
        if value != PosInf {
          blocked, lastBlockedSec, clearCount, clearKind := true, Finite(nowSec), 0, NoKind;
          return;
        }
        kind, requiredSamples := NoEcho, noEchoSamples;
      } else if value.v <= stopDistance {
        blocked, lastBlockedSec, clearCount, clearKind := true, Finite(nowSec), 0, NoKind;
        return;
      } else if value.v >= clearDistance {
        kind, requiredSamples := Echo, finiteSamples;
      } else {
        clearCount, clearKind := 0, NoKind;
        return;
      }
      if !blocked {
        return;
      }
      var limits := Limits(stopDistance, clearDistance, holdSec, finiteClearSamples, noEchoClearSamples);
      if Held(limits, lastBlockedSec, nowSec) {
        clearCount, clearKind := 0, NoKind;
        return;
      }
      if clearKind != kind {
        clearCount, clearKind := 0, kind;
      }
      clearCount := clearCount + 1;
      if clearCount >= requiredSamples {
        blocked, clearCount, clearKind := false, 0, NoKind;
      }
    }
  }

  /** What a reading says: only one above the stop distance, or no echo at all, does not block; no echo, or a distance
      from the clear distance on, is evidence for clearing. */
  lemma {:induction false} ReadingsExactly(l: Limits, v: Reading)
    ensures !Blocks(l, v) <==> v == PosInf || (v.Finite? && v.v > l.stop)
    ensures ClearKind(l, v) == NoEcho <==> v == PosInf
    ensures ClearKind(l, v) == Echo <==> v.Finite? && v.v > l.stop && v.v >= l.clear
  {
  }

  /** How much evidence is needed: at least one reading, and for missing echoes never less than for echoes. */
  lemma {:induction false} RequiredExactly(l: Limits)
    ensures Required(l, Echo) == (if l.finiteSamples >= 1 then l.finiteSamples else 1)
    ensures Required(l, NoEcho) == (if l.noEchoSamples >= Required(l, Echo) then l.noEchoSamples else Required(l, Echo))
  {
  }

  // ----- Whole histories -----

  function Fold(l: Limits, h: seq<Sample>): Latch {
    if |h| == 0 then INITIAL_LATCH else Updated(l, Fold(l, h[..|h| - 1]), h[|h| - 1])
  }

  // Sample b blocks and nothing after it does.
  ghost predicate LastBlocking(l: Limits, h: seq<Sample>, b: int) {
    0 <= b < |h| && Blocks(l, h[b].value) && forall i :: b < i < |h| ==> !Blocks(l, h[i].value)
  }

  // Sample i is evidence of the given kind, at least the hold time after sample b.
  predicate Evidence(l: Limits, h: seq<Sample>, b: int, i: int, k: Kind)
    requires 0 <= b < |h|
  {
    0 <= i < |h| && k != NoKind && ClearKind(l, h[i].value) == k && h[i].time - h[b].time >= l.hold
  }

  // A run of the required number of consecutive same-kind clear samples, all of it
  // after b and held long enough after b, starts at i.
  ghost predicate ReleasedBy(l: Limits, h: seq<Sample>, b: int, i: int, k: Kind)
    requires 0 <= b < |h|
  {
    b < i && k != NoKind && i + Required(l, k) <= |h|
    && forall j :: i <= j < i + Required(l, k) ==> Evidence(l, h, b, j, k)
  }

  ghost predicate Released(l: Limits, h: seq<Sample>, b: int)
    requires 0 <= b < |h|
  {
    exists i, k :: ReleasedBy(l, h, b, i, k)
  }

  /** Blocked, stated over the history alone: some sample blocked, and no releasing run
      follows the last one that did. */
  ghost predicate BatchBlocked(l: Limits, h: seq<Sample>) {
    exists b :: LastBlocking(l, h, b) && !Released(l, h, b)
  }

  ghost predicate Idle(l: Limits, h: seq<Sample>, b: int, i: int)
    requires 0 <= b < |h|
  {
    forall k :: !Evidence(l, h, b, i, k)
  }

  // The latch's counter is the length of the evidence run at the end of the history.
  ghost predicate Counting(l: Limits, h: seq<Sample>, b: int, latch: Latch)
    requires 0 <= b < |h|
  {
    var n := |h| - latch.clearCount;
    && b < n
    && (latch.clearKind == NoKind ==> latch.clearCount == 0 && (n - 1 > b ==> Idle(l, h, b, n - 1)))
    && (latch.clearKind != NoKind ==> 1 <= latch.clearCount < Required(l, latch.clearKind))
    && (forall j :: n <= j < |h| ==> Evidence(l, h, b, j, latch.clearKind))
    && (n - 1 > b ==> !Evidence(l, h, b, n - 1, latch.clearKind))
  }

  ghost predicate Matches(l: Limits, h: seq<Sample>, latch: Latch) {
    && (latch.blocked ==>
        exists b :: LastBlocking(l, h, b) && latch.lastBlocked == Finite(h[b].time)
                    && !Released(l, h, b) && Counting(l, h, b, latch))
    && (!latch.blocked ==>
          && latch.clearCount == 0 && latch.clearKind == NoKind
          && (forall b :: LastBlocking(l, h, b) ==> Released(l, h, b) && latch.lastBlocked == Finite(h[b].time))
          && ((forall i :: 0 <= i < |h| ==> !Blocks(l, h[i].value)) ==> latch.lastBlocked == NegInf))
  }

  lemma {:induction false} LastBlockingUnique(l: Limits, h: seq<Sample>, b: int, c: int)
    requires LastBlocking(l, h, b) && LastBlocking(l, h, c)
    ensures b == c
  {
  }

  // A releasing run survives more samples, as long as none of them blocks.
  lemma {:induction false} ReleasedExtends(l: Limits, h: seq<Sample>, s: Sample, b: int)
    requires 0 <= b < |h| && Released(l, h, b)
    ensures Released(l, h + [s], b)
  {
    var i, k :| ReleasedBy(l, h, b, i, k);
    forall j | i <= j < i + Required(l, k) ensures Evidence(l, h + [s], b, j, k) {
      assert Evidence(l, h, b, j, k);
    }
    assert ReleasedBy(l, h + [s], b, i, k);
  }

  lemma {:induction false} MatchesBlocked(l: Limits, h: seq<Sample>, latch: Latch, s: Sample, b: int)
    requires latch.blocked && LastBlocking(l, h, b) && latch.lastBlocked == Finite(h[b].time)
    requires !Released(l, h, b) && Counting(l, h, b, latch)
    requires !Blocks(l, s.value)
    ensures Matches(l, h + [s], Updated(l, latch, s))
  {
    var g := h + [s];
    var next := Updated(l, latch, s);
    var n := |h| - latch.clearCount;
    assert LastBlocking(l, g, b);
    forall j, k | 0 <= j < |h| ensures Evidence(l, g, b, j, k) == Evidence(l, h, b, j, k) { }
    var kind := ClearKind(l, s.value);
    var counted := (if latch.clearKind == kind then latch.clearCount else 0) + 1;
    assert counted == 1 && |h| - 1 > b ==> !Evidence(l, h, b, |h| - 1, kind) by {
      if latch.clearKind == NoKind && |h| - 1 > b { assert Idle(l, h, b, |h| - 1); }
      if latch.clearKind != NoKind { assert Evidence(l, h, b, |h| - 1, latch.clearKind); }
    }
    if !next.blocked {
      assert kind != NoKind && counted >= Required(l, kind);
      var i := |g| - Required(l, kind);
      assert ReleasedBy(l, g, b, i, kind);
      forall c | LastBlocking(l, g, c) ensures Released(l, g, c) { LastBlockingUnique(l, g, b, c); }
    } else {
      forall i, k ensures !ReleasedBy(l, g, b, i, k) {
        if b < i && k != NoKind && i + Required(l, k) < |g| {
          assert !ReleasedBy(l, h, b, i, k);
          var j :| i <= j < i + Required(l, k) && !Evidence(l, h, b, j, k);
          assert !Evidence(l, g, b, j, k);
        } else if b < i && i + Required(l, k) == |g| && Evidence(l, g, b, |h|, k) {
          var m := |h| - counted;  // the sample just before the run that s extends
          assert i <= m && !Evidence(l, g, b, m, k);
        }
      }
      assert Counting(l, g, b, next);
    }
  }

  lemma {:induction false} FoldMatches(l: Limits, h: seq<Sample>)
    ensures Matches(l, h, Fold(l, h))
  {
    if |h| > 0 {
      var p, s := h[..|h| - 1], h[|h| - 1];
      FoldMatches(l, p);
      assert h == p + [s];
      var latch, next := Fold(l, p), Fold(l, h);
      if Blocks(l, s.value) {
        assert LastBlocking(l, h, |h| - 1);
        assert Counting(l, h, |h| - 1, next);
      } else if latch.blocked {
        var b :| LastBlocking(l, p, b) && latch.lastBlocked == Finite(p[b].time)
                 && !Released(l, p, b) && Counting(l, p, b, latch);
        MatchesBlocked(l, p, latch, s, b);
      } else {
        forall b | LastBlocking(l, h, b) ensures Released(l, h, b) {
          assert LastBlocking(l, p, b);
          ReleasedExtends(l, p, s, b);
        }
      }
    }
  }

  /** The online latch agrees with the batch reading of the history, for every history
      and every limits, whether or not the sample times are ordered. */
  lemma {:induction false} LatchIsBatch(l: Limits, h: seq<Sample>)
    ensures Fold(l, h).blocked <==> BatchBlocked(l, h)
  {
    FoldMatches(l, h);
    if BatchBlocked(l, h) {
      var b :| LastBlocking(l, h, b) && !Released(l, h, b);
    }
  }
}
