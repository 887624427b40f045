/** Searches on the global costmap: reachability, the nearest passable cell, and the extent of a
    blocked region. */
module CostmapSearch {
  import opened Numbers
  import opened OccupancyGrids
  import opened Paths

  predicate Passable(cost: Option<int>) { cost.Some? && (cost.value == -1 || cost.value < 99) }

  // An out-of-grid cell counts as free here.
  predicate Blocked(cost: Option<int>) { cost.Some? && cost.value >= 99 }

  function FourNeighbours(c: Cell): seq<Cell> {
    [Cell(c.x - 1, c.y), Cell(c.x + 1, c.y), Cell(c.x, c.y - 1), Cell(c.x, c.y + 1)]
  }

  function EightNeighbours(c: Cell): seq<Cell> {
    FourNeighbours(c)
    + [Cell(c.x - 1, c.y - 1), Cell(c.x - 1, c.y + 1), Cell(c.x + 1, c.y - 1), Cell(c.x + 1, c.y + 1)]
  }

  // One step of the search: to a 4-neighbour that is in the grid and passable.
  ghost function PassableStep(g: Grid): (Cell, Cell) -> bool
    requires g.Valid()
  {
    (a: Cell, b: Cell) => b in FourNeighbours(a) && Passable(CostAt(g, b))
  }

  // To an 8-neighbour that is blocked.
  ghost function BlockedStep(g: Grid): (Cell, Cell) -> bool
    requires g.Valid()
  {
    (a: Cell, b: Cell) => b in EightNeighbours(a) && Blocked(CostAt(g, b))
  }

  /** The two kinds of steps: to a cell that shares a side and is unknown or costs less than 99, or to one that shares
      a side or a corner and costs 99 or more; in both cases the cell is in the grid. */
  lemma {:induction false} StepsExactly(g: Grid, a: Cell, b: Cell)
    requires g.Valid()
    ensures PassableStep(g)(a, b) <==>
      && ((b.x == a.x && (b.y == a.y - 1 || b.y == a.y + 1)) || (b.y == a.y && (b.x == a.x - 1 || b.x == a.x + 1)))
      && InGrid(g, b) && (CostAt(g, b) == Some(-1) || CostAt(g, b).value <= 98)
    ensures BlockedStep(g)(a, b) <==>
      b != a && -1 <= b.x - a.x <= 1 && -1 <= b.y - a.y <= 1 && InGrid(g, b) && CostAt(g, b).value >= 99
  {
    hide CostAt, InGrid, Grid.Valid;
    CostInGrid(g, b);
    assert b == Cell(b.x, b.y);
  }

  function Cells(g: Grid): set<Cell> {
    set x, y | 0 <= x < g.width && 0 <= y < g.height :: Cell(x, y)
  }

  lemma {:induction false} InCells(g: Grid, c: Cell)
    ensures c in Cells(g) <==> InGrid(g, c)
  {
    assert c == Cell(c.x, c.y);
  }

  /** All cells that a chain of steps reaches from the start; the start may lie anywhere. */
  ghost function Region(g: Grid, step: (Cell, Cell) -> bool, start: Cell): set<Cell> {
    set c | c in Cells(g) + {start} && Reaches(step, start, c)
  }

  // What a breadth-first search has established when `seen` is what it has met and `queue` what
  // it has still to expand.
  ghost predicate Searching(g: Grid, step: (Cell, Cell) -> bool, start: Cell, seen: set<Cell>, queue: seq<Cell>) {
    && start in seen && seen <= Cells(g) + {start}
    && (forall c :: c in seen ==> Reaches(step, start, c))
    && (forall c :: c in queue ==> c in seen)
    && forall c, d :: c in seen && c !in queue && step(c, d) ==> d in seen
  }

  lemma {:induction false} SearchStarts(g: Grid, step: (Cell, Cell) -> bool, start: Cell)
    ensures Searching(g, step, start, {start}, [start])
  {
    ReachesItself(step, start);
  }

  lemma {:induction false} SearchEnds(g: Grid, step: (Cell, Cell) -> bool, start: Cell, seen: set<Cell>)
    requires Searching(g, step, start, seen, [])
    ensures seen == Region(g, step, start)
    ensures forall c :: Reaches(step, start, c) ==> c in seen
  {
    assert ClosedUnder(step, seen);
    forall c | Reaches(step, start, c) ensures c in seen {
      ReachedIsContained(step, seen, start, c);
    }
  }

  // The neighbours of `point` are being added: those before index k are done.
  ghost predicate Expanding(g: Grid, step: (Cell, Cell) -> bool, start: Cell, seen: set<Cell>, queue: seq<Cell>,
                            point: Cell, nexts: seq<Cell>, k: int)
  {
    && 0 <= k <= |nexts| && point in seen
    && start in seen && seen <= Cells(g) + {start}
    && (forall c :: c in seen ==> Reaches(step, start, c))
    && (forall c :: c in queue ==> c in seen)
    && (forall c, d :: c in seen && c !in queue && c != point && step(c, d) ==> d in seen)
    && forall i :: 0 <= i < k && step(point, nexts[i]) ==> nexts[i] in seen
  }

  lemma {:induction false} ExpandingStarts(g: Grid, step: (Cell, Cell) -> bool, start: Cell,
                                           seen: set<Cell>, queue: seq<Cell>, nexts: seq<Cell>)
    requires |queue| > 0 && Searching(g, step, start, seen, queue)
    ensures Expanding(g, step, start, seen, queue[1..], queue[0], nexts, 0)
  {
    assert queue == [queue[0]] + queue[1..];
  }

  lemma {:induction false} ExpandingAdds(g: Grid, step: (Cell, Cell) -> bool, start: Cell, seen: set<Cell>, queue: seq<Cell>,
                                         point: Cell, nexts: seq<Cell>, k: int)
    requires Expanding(g, step, start, seen, queue, point, nexts, k) && k < |nexts|
    requires step(point, nexts[k]) && nexts[k] in Cells(g)
    ensures Expanding(g, step, start, seen + {nexts[k]}, queue + [nexts[k]], point, nexts, k + 1)
  {
    ReachesNext(step, start, point, nexts[k]);
  }

  lemma {:induction false} ExpandingSkips(g: Grid, step: (Cell, Cell) -> bool, start: Cell,
                                          seen: set<Cell>, queue: seq<Cell>, point: Cell, nexts: seq<Cell>, k: int)
    requires Expanding(g, step, start, seen, queue, point, nexts, k) && k < |nexts|
    requires !step(point, nexts[k]) || nexts[k] in seen
    ensures Expanding(g, step, start, seen, queue, point, nexts, k + 1)
  {
  }

  lemma {:induction false} ExpandingEnds(g: Grid, step: (Cell, Cell) -> bool, start: Cell, seen: set<Cell>, queue: seq<Cell>,
                                         point: Cell, nexts: seq<Cell>)
    requires Expanding(g, step, start, seen, queue, point, nexts, |nexts|)
    requires forall d :: step(point, d) ==> d in nexts
    ensures Searching(g, step, start, seen, queue)
  {
  }

  lemma {:induction false} Shrinks(universe: set<Cell>, a: set<Cell>, b: set<Cell>)
    requires a < b <= universe
    ensures |universe - b| < |universe - a|
  {
    var x :| x in b && x !in a;
    assert universe - b <= universe - a - {x};
    SubsetSize(universe - b, universe - a - {x});
  }

  lemma {:induction false} SubsetSize<T>(a: set<T>, b: set<T>)
    requires a <= b
    ensures |a| <= |b|
  {
    assert b == a + (b - a);
  }

  /** Reachability: true exactly when a chain of passable in-grid 4-neighbours joins start to goal;
      and when it is false, the count is the size of the whole region reachable from the
      start. Terminates on every grid, from any start. */
  method Connected(g: Grid, start: Option<Cell>, goal: Option<Cell>) returns (found: bool, count: nat)
    requires g.Valid()
    ensures found <==> start.Some? && goal.Some? && Reaches(PassableStep(g), start.value, goal.value)
    ensures !found ==> count == if start.Some? && goal.Some? then |Region(g, PassableStep(g), start.value)| else 0
  {
    if start.None? || goal.None? {
      return false, 0;
    }
    ghost var step := PassableStep(g);
    var queue, seen := [start.value], {start.value};
    SearchStarts(g, step, start.value);
    while |queue| > 0
      invariant Searching(g, step, start.value, seen, queue)
      invariant goal.value in seen ==> goal.value in queue
      decreases |Cells(g) + {start.value} - seen|, |queue|
    {
      var point := queue[0];
      if point == goal.value {
        return true, |seen|;
      }
      var nexts := FourNeighbours(point);
      ghost var (seen0, universe) := (seen, Cells(g) + {start.value});
      ExpandingStarts(g, step, start.value, seen, queue, nexts);
      assert goal.value in seen ==> goal.value in queue[1..] by { assert queue == [point] + queue[1..]; }
      queue := queue[1..];
      ghost var rest := |queue|;
      for k := 0 to |nexts|
        invariant Expanding(g, step, start.value, seen, queue, point, nexts, k)
        invariant goal.value in seen ==> goal.value in queue
        invariant seen0 <= seen && (seen == seen0 ==> |queue| == rest)
      {
        var next := nexts[k];
        InCells(g, next);
        if InGrid(g, next) && next !in seen && Passable(CostAt(g, next)) {
          ExpandingAdds(g, step, start.value, seen, queue, point, nexts, k);
          seen := seen + {next};
          queue := queue + [next];
        } else {
          ExpandingSkips(g, step, start.value, seen, queue, point, nexts, k);
        }
      }
      ExpandingEnds(g, step, start.value, seen, queue, point, nexts);
      if seen != seen0 { Shrinks(universe, seen0, seen); }
    }
    assert queue == [];
    SearchEnds(g, step, start.value, seen);
    return false, |seen|;
  }

  // ----- The nearest passable cell -----

  predicate InWindow(start: Cell, radius: int, c: Cell) {
    start.x - radius <= c.x <= start.x + radius && start.y - radius <= c.y <= start.y + radius
  }

  function SquaredDistance(a: Cell, b: Cell): int { (b.x - a.x) * (b.x - a.x) + (b.y - a.y) * (b.y - a.y) }

  // Scan order: row by row, each row from left to right.
  predicate ScannedBefore(a: Cell, b: Cell) { a.y < b.y || (a.y == b.y && a.x < b.x) }

  // Nearer, or as near and scanned first.
  predicate Preferred(start: Cell, a: Cell, b: Cell) {
    SquaredDistance(start, a) < SquaredDistance(start, b)
    || (SquaredDistance(start, a) == SquaredDistance(start, b) && ScannedBefore(a, b))
  }

  predicate Candidate(g: Grid, start: Cell, radius: int, c: Cell)
    requires g.Valid()
  {
    InWindow(start, radius, c) && Passable(CostAt(g, c))
  }

  // The preferred candidate among those scanned before the cell `next`.
  ghost predicate BestBefore(g: Grid, start: Cell, radius: int, best: Option<Cell>, next: Cell)
    requires g.Valid()
  {
    && (best.Some? ==> Candidate(g, start, radius, best.value) && ScannedBefore(best.value, next))
    && forall c :: Candidate(g, start, radius, c) && ScannedBefore(c, next) ==>
         best.Some? && (c == best.value || Preferred(start, best.value, c))
  }

  lemma {:induction false} BestAfterCell(g: Grid, start: Cell, radius: int, best: Option<Cell>, point: Cell, next: Cell)
    requires g.Valid() && BestBefore(g, start, radius, best, point) && InWindow(start, radius, point)
    requires next == Cell(point.x + 1, point.y)
    ensures if !Passable(CostAt(g, point))
               || (best.Some? && SquaredDistance(start, point) >= SquaredDistance(start, best.value))
            then BestBefore(g, start, radius, best, next) else BestBefore(g, start, radius, Some(point), next)
  {
    hide SquaredDistance;
    forall c | Candidate(g, start, radius, c) && ScannedBefore(c, next) ensures c == point || ScannedBefore(c, point) {
      assert c == Cell(c.x, c.y);
    }
  }

  lemma {:induction false} BestAfterRow(g: Grid, start: Cell, radius: int, best: Option<Cell>, row: int)
    requires g.Valid() && BestBefore(g, start, radius, best, Cell(start.x + radius + 1, row))
    ensures BestBefore(g, start, radius, best, Cell(start.x - radius, row + 1))
  {
    hide SquaredDistance;
  }

  /** The nearest passable cell of the window, the first in scan order among equals; the start
      itself, whatever the radius, when it is passable; none only when there is none. */
  method NearestPassable(g: Grid, start: Cell, radius: int) returns (best: Option<Cell>)
    requires g.Valid()
    ensures best.Some? ==> Passable(CostAt(g, best.value))
    ensures Passable(CostAt(g, start)) ==> best == Some(start)
    ensures !Passable(CostAt(g, start)) ==>
      && (best.Some? ==> Candidate(g, start, radius, best.value))
      && forall c :: Candidate(g, start, radius, c) ==>
           best.Some? && (c == best.value || Preferred(start, best.value, c))
  {
    hide SquaredDistance;
    if Passable(CostAt(g, start)) {
      return Some(start);
    }
    best := None;
    var bestSquared := 0;
    var dy := -radius;
    while dy <= radius
      invariant radius >= 0 ==> dy <= radius + 1
      invariant BestBefore(g, start, radius, best, Cell(start.x - radius, start.y + dy))
      invariant best.Some? ==> bestSquared == SquaredDistance(start, best.value)
    {
      var dx := -radius;
      while dx <= radius
        invariant dx <= radius + 1
        invariant BestBefore(g, start, radius, best, Cell(start.x + dx, start.y + dy))
        invariant best.Some? ==> bestSquared == SquaredDistance(start, best.value)
      {
        var point := Cell(start.x + dx, start.y + dy);
        BestAfterCell(g, start, radius, best, point, Cell(point.x + 1, point.y));
        if Passable(CostAt(g, point)) {
          var squared := dx * dx + dy * dy;
          SquaredOffset(start, dx, dy);
          if best.None? || squared < bestSquared {
            best, bestSquared := Some(point), squared;
          }
        }
        dx := dx + 1;
      }
      BestAfterRow(g, start, radius, best, start.y + dy);
      dy := dy + 1;
    }
  }

  lemma {:induction false} SquaredOffset(start: Cell, dx: int, dy: int)
    ensures SquaredDistance(start, Cell(start.x + dx, start.y + dy)) == dx * dx + dy * dy
  {
  }

  // ----- The extent of a blocked region -----

  datatype Box = Box(minX: int, minY: int, maxX: int, maxY: int)

  predicate Inside(b: Box, c: Cell) { b.minX <= c.x <= b.maxX && b.minY <= c.y <= b.maxY }

  // Every side of the box is met by a cell of the set.
  ghost predicate Tight(b: Box, s: set<Cell>) {
    && (exists c :: c in s && c.x == b.minX) && (exists c :: c in s && c.x == b.maxX)
    && (exists c :: c in s && c.y == b.minY) && (exists c :: c in s && c.y == b.maxY)
  }

  function Extended(b: Box, c: Cell): Box {
    Box(MinInt(b.minX, c.x), MinInt(b.minY, c.y), MaxInt(b.maxX, c.x), MaxInt(b.maxY, c.y))
  }

  lemma {:induction false} BoxStarts(c: Cell)
    ensures Covers(Box(c.x, c.y, c.x, c.y), {c}, [c]) && Tight(Box(c.x, c.y, c.x, c.y), {c})
  {
  }

  lemma {:induction false} ExtendedTight(b: Box, s: set<Cell>, c: Cell)
    requires Tight(b, s) && c in s
    ensures Tight(Extended(b, c), s)
  {
  }


  // Cells that have been met but may still lie outside the box are waiting in the queue.
  ghost predicate Covers(b: Box, seen: set<Cell>, queue: seq<Cell>) {
    forall c :: c in seen && c !in queue ==> Inside(b, c)
  }

  lemma {:induction false} BoxAfterAdding(b: Box, seen: set<Cell>, queue: seq<Cell>, next: Cell)
    requires Covers(b, seen, queue) && Tight(b, seen)
    ensures Covers(b, seen + {next}, queue + [next]) && Tight(b, seen + {next})
  {
    forall c | c in seen + {next} && c !in queue + [next] ensures Inside(b, c) {
      assert next in queue + [next];
    }
  }

  // What the loop needs to know of a search in progress.
  lemma {:induction false} SearchBounds(g: Grid, step: (Cell, Cell) -> bool, start: Cell, seen: set<Cell>, queue: seq<Cell>)
    requires Searching(g, step, start, seen, queue)
    ensures seen <= Cells(g) + {start} && seen <= Region(g, step, start) && (|queue| > 0 ==> queue[0] in seen)
  {
  }

  lemma {:induction false} TightInMore(b: Box, s: set<Cell>, t: set<Cell>)
    requires Tight(b, s) && s <= t
    ensures Tight(b, t)
  {
  }

  lemma {:induction false} BoxAtEnd(b: Box, seen: set<Cell>)
    requires Covers(b, seen, [])
    ensures forall c :: c in seen ==> Inside(b, c)
  {
  }

  // Takes the head of the queue and adds its blocked 8-neighbours.
  method ExpandBlocked(g: Grid, ghost start: Cell, seenBefore: set<Cell>, queueBefore: seq<Cell>, ghost box: Box)
    returns (seen: set<Cell>, queue: seq<Cell>)
    requires g.Valid() && |queueBefore| > 0 && Searching(g, BlockedStep(g), start, seenBefore, queueBefore)
    requires Covers(box, seenBefore, queueBefore[1..]) && Tight(box, seenBefore)
    ensures Searching(g, BlockedStep(g), start, seen, queue)
    ensures Covers(box, seen, queue) && Tight(box, seen)
    ensures seenBefore <= seen && (seen == seenBefore ==> |queue| == |queueBefore| - 1)
    ensures |seen| <= |seenBefore| + 8
  {
    hide Searching, Expanding, Covers, Tight, Cells, CostAt;
    ghost var step := BlockedStep(g);
    var point := queueBefore[0];
    var nexts := EightNeighbours(point);
    ExpandingStarts(g, step, start, seenBefore, queueBefore, nexts);
    seen, queue := seenBefore, queueBefore[1..];
    for k := 0 to |nexts|
      invariant Expanding(g, step, start, seen, queue, point, nexts, k)
      invariant Covers(box, seen, queue) && Tight(box, seen)
      invariant seenBefore <= seen && (seen == seenBefore ==> |queue| == |queueBefore| - 1)
      invariant |seen| <= |seenBefore| + k
    {
      var next := nexts[k];
      if next !in seen && Blocked(CostAt(g, next)) {
        BlockedInGrid(g, next);
        ExpandingAdds(g, step, start, seen, queue, point, nexts, k);
        BoxAfterAdding(box, seen, queue, next);
        seen := seen + {next};
        queue := queue + [next];
      } else {
        ExpandingSkips(g, step, start, seen, queue, point, nexts, k);
      }
    }
    ExpandingEnds(g, step, start, seen, queue, point, nexts);
  }

  lemma {:induction false} BlockedInGrid(g: Grid, c: Cell)
    requires g.Valid()
    ensures Blocked(CostAt(g, c)) ==> c in Cells(g)
  {
    InCells(g, c);
  }

  /** The size and the bounding box of the 8-connected blocked region of the seed: exact whenever the region
      is smaller than the limit. Otherwise the search stops within eight cells of the limit, with a box
      whose four sides touch the region. */
  method BlockedComponent(g: Grid, seed: Option<Cell>, limit: int) returns (r: Option<(nat, Box)>)
    requires g.Valid()
    ensures r.Some? <==> seed.Some? && Blocked(CostAt(g, seed.value))
    ensures r.Some? ==>
      var (region, count, box) := (Region(g, BlockedStep(g), seed.value), r.value.0, r.value.1);
      && Tight(box, region) && MinInt(limit, |region|) <= count <= MinInt(|region|, MaxInt(1, limit + 7))
      && (|region| < limit ==> count == |region| && forall c :: c in region ==> Inside(box, c))
  {
    if seed.None? || !Blocked(CostAt(g, seed.value)) {
      return None;
    }
    hide Searching, Expanding, Covers, Tight, Inside, Cells, Region, Reaches, CostAt;
    BoxStarts(seed.value);
    ghost var (step, start) := (BlockedStep(g), seed.value);
    var queue, seen := [seed.value], {seed.value};
    var box := Box(seed.value.x, seed.value.y, seed.value.x, seed.value.y);
    SearchStarts(g, step, start);
    while |queue| > 0 && |seen| < limit
      invariant Searching(g, step, start, seen, queue)
      invariant Covers(box, seen, queue) && Tight(box, seen) && |seen| <= MaxInt(1, limit + 7)
      decreases |Cells(g) + {start} - seen|, |queue|
    {
      SearchBounds(g, step, start, seen, queue);
      var point := queue[0];
      ghost var seen0 := seen;
      box := ExtendedBox(box, point, seen, queue);
      seen, queue := ExpandBlocked(g, start, seen, queue, box);
      SearchBounds(g, step, start, seen, queue);
      if seen != seen0 { Shrinks(Cells(g) + {start}, seen0, seen); }
    }
    SearchBounds(g, step, start, seen, queue);
    SubsetSize(seen, Region(g, step, start));
    TightInMore(box, seen, Region(g, step, start));
    if |seen| < limit {
      assert queue == [];
      SearchEnds(g, step, start, seen);
      BoxAtEnd(box, seen);
    }
    return Some((|seen|, box));
  }

  // The box takes in the point at the head of the queue.
  method ExtendedBox(box: Box, point: Cell, ghost seen: set<Cell>, ghost queue: seq<Cell>) returns (b: Box)
    requires |queue| > 0 && point == queue[0] && point in seen
    requires Covers(box, seen, queue) && Tight(box, seen)
    ensures b == Extended(box, point)
    ensures Covers(b, seen, queue[1..]) && Tight(b, seen)
  {
    b := Extended(box, point);
    ExtendedTight(box, seen, point);
    assert queue == [point] + queue[1..];
  }
}
