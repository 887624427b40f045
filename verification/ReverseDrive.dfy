/** The two nodes together on one reverse drive: what the goal adapter publishes is what the safety gate
    asks for. */
module ReverseDrive {
  import opened Numbers
  import opened Runs
  import opened ReversePlan
  import GoalAdapter
  import opened GateModel
  import opened GateOutput
  import opened GateTraces
  import opened GateHistories

  lemma {:induction false} CopiesInit(p: seq<Point>, n: nat)
    requires n > 0
    ensures Init(GoalAdapter.Copies(Some(p), n)) == GoalAdapter.Copies(Some(p), n - 1)
    ensures Last(GoalAdapter.Copies(Some(p), n)) == p
  {
  }

  // A stretch of the run that carries n copies of one plan and no other.
  lemma {:induction false} OnlyCopies(tr: Trace, p: seq<Point>, n: nat)
    requires PlansReceived(tr) == GoalAdapter.Copies(Some(p), n)
    ensures CountOn(tr, PlanMessages) == n
    ensures forall i :: 0 <= i < |tr| && tr[i].e.PlanMessage? ==> tr[i].e.poses == p
  {
    if |tr| > 0 {
      var q, e := Init(tr), Last(tr).e;
      if e.PlanMessage? {
        assert Last(PlansReceived(tr)) == e.poses && Init(PlansReceived(tr)) == PlansReceived(q);
        assert n == |PlansReceived(tr)| > 0;
        CopiesInit(p, n);
        OnlyCopies(q, p, n - 1);
      } else {
        assert PlansReceived(tr) == PlansReceived(q);
        OnlyCopies(q, p, n);
      }
    }
  }

  /** The handshake on a whole drive. The adapter withdraws its plan at the start of a goal; if the plans that
      the gate receives from then on are the n copies of the sampled segment that the adapter published, the
      reverse permission is open exactly when n meets the required confirmations and the last copy is fresh.
      Two copies, which go out before the drive is commanded, meet up to two confirmations. */
  lemma {:induction false} DriveOpensGate(c: Config, tr: Trace, k: int, start: Point, target: Point, n: nat, now: real)
    requires c.Accepted() && Tolerant(c.straight) && SegmentLongEnough(c, c.maths.Distance(start, target))
    requires 0 <= k < |tr| && tr[k].e == PlanMessage([])
    requires PlansReceived(tr[k + 1..]) == GoalAdapter.Copies(Some(StraightPath(c.maths, start, target)), n)
    ensures ReverseOpen(c, Reach(c, tr).plans, now) <==>
            n >= c.confirmations && !Stale(StampOn(tr, PlanMessages), now, c.planTimeout)
  {
    hide Reach, ReverseOpen, StraightPath, SegmentLongEnough, GoalAdapter.Copies, PlansReceived, CountOn;
    var path, rest := StraightPath(c.maths, start, target), tr[k + 1..];
    OnlyCopies(rest, path, n);
    forall i | k + 1 <= i < |tr| && tr[i].e.PlanMessage? ensures IsAdapterPlan(c, tr[i].e.poses) {
      assert rest[i - (k + 1)] == tr[i];
    }
    ReverseHandshake(c, tr, k, now);
  }

  /** And the withdrawal at the end of the drive closes it at once. */
  lemma {:induction false} WithdrawalCloses(c: Config, tr: Trace, clk: Clock, now: real)
    requires c.Accepted()
    ensures !ReverseOpen(c, Reach(c, tr + [Timed(clk, PlanMessage([]))]).plans, now)
  {
    hide Reach, Step;
    ReachNext(c, tr, clk, PlanMessage([]));
    WritesLinks(c, Reach(c, tr), clk, PlanMessage([]));
    assert Thin(c.maths, []) == [];
  }
}
