/** Paths under a step relation, shared by the grid searches and the voxel clustering. */
module Paths {

  predicate StepAt<T>(step: (T, T) -> bool, p: seq<T>, i: int)
    requires 0 < i < |p|
  {
    step(p[i - 1], p[i])
  }

  ghost predicate IsPath<T(!new)>(step: (T, T) -> bool, p: seq<T>) {
    |p| > 0 && forall i :: 0 < i < |p| ==> StepAt(step, p, i)
  }

  ghost predicate Joins<T(!new)>(step: (T, T) -> bool, p: seq<T>, a: T, b: T) {
    IsPath(step, p) && p[0] == a && p[|p| - 1] == b
  }

  /** A chain of steps leads from a to b. */
  ghost predicate Reaches<T(!new)>(step: (T, T) -> bool, a: T, b: T) {
    exists p :: Joins(step, p, a, b)
  }

  lemma {:induction false} ReachesItself<T(!new)>(step: (T, T) -> bool, a: T)
    ensures Reaches(step, a, a)
  {
    assert Joins(step, [a], a, a);
  }

  lemma {:induction false} ReachesNext<T(!new)>(step: (T, T) -> bool, a: T, b: T, c: T)
    requires Reaches(step, a, b) && step(b, c)
    ensures Reaches(step, a, c)
  {
    var p :| Joins(step, p, a, b);
    var q := p + [c];
    forall i | 0 < i < |q| ensures StepAt(step, q, i) {
      if i < |p| { assert StepAt(step, p, i); }
    }
    assert Joins(step, q, a, c);
  }

  ghost predicate ClosedUnder<T(!new)>(step: (T, T) -> bool, s: set<T>) {
    forall x, y :: x in s && step(x, y) ==> y in s
  }

  // A closed set that contains the start of a path contains all of it.
  lemma {:induction false} ClosedContains<T(!new)>(step: (T, T) -> bool, s: set<T>, p: seq<T>, n: nat)
    requires ClosedUnder(step, s) && IsPath(step, p) && p[0] in s && n < |p|
    ensures p[n] in s
  {
    if n > 0 {
      ClosedContains(step, s, p, n - 1);
      assert StepAt(step, p, n);
    }
  }

  lemma {:induction false} ReachedIsContained<T(!new)>(step: (T, T) -> bool, s: set<T>, a: T, b: T)
    requires ClosedUnder(step, s) && a in s && Reaches(step, a, b)
    ensures b in s
  {
    var p :| Joins(step, p, a, b);
    ClosedContains(step, s, p, |p| - 1);
  }

  lemma {:induction false} ReachesFurther<T(!new)>(step: (T, T) -> bool, a: T, p: seq<T>)
    requires IsPath(step, p) && Reaches(step, a, p[0])
    ensures Reaches(step, a, p[|p| - 1])
    decreases |p|
  {
    if |p| > 1 {
      var init, n := p[..|p| - 1], |p| - 1;
      forall i | 0 < i < |init| ensures StepAt(step, init, i) { assert StepAt(step, p, i); }
      ReachesFurther(step, a, init);
      assert StepAt(step, p, n);
      ReachesNext(step, a, p[n - 1], p[n]);
    }
  }

  lemma {:induction false} ReachesThrough<T(!new)>(step: (T, T) -> bool, a: T, b: T, c: T)
    requires Reaches(step, a, b) && Reaches(step, b, c)
    ensures Reaches(step, a, c)
  {
    var p :| Joins(step, p, b, c);
    ReachesFurther(step, a, p);
  }

  ghost predicate IsSymmetric<T(!new)>(step: (T, T) -> bool) {
    forall x, y :: step(x, y) ==> step(y, x)
  }

  lemma {:induction false} ReachesBack<T(!new)>(step: (T, T) -> bool, p: seq<T>)
    requires IsSymmetric(step) && IsPath(step, p)
    ensures Reaches(step, p[|p| - 1], p[0])
    decreases |p|
  {
    if |p| == 1 {
      ReachesItself(step, p[0]);
    } else {
      var init, n := p[..|p| - 1], |p| - 1;
      forall i | 0 < i < |init| ensures StepAt(step, init, i) { assert StepAt(step, p, i); }
      ReachesBack(step, init);
      assert StepAt(step, p, n);
      ReachesItself(step, p[n]);
      ReachesNext(step, p[n], p[n], p[n - 1]);
      ReachesThrough(step, p[n], p[n - 1], p[0]);
    }
  }

  lemma {:induction false} ReachesReversed<T(!new)>(step: (T, T) -> bool, a: T, b: T)
    requires IsSymmetric(step) && Reaches(step, a, b)
    ensures Reaches(step, b, a)
  {
    var p :| Joins(step, p, a, b);
    ReachesBack(step, p);
  }
}
