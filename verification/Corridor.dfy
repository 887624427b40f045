/** The goal adapter's corridor check: it samples a segment on the costmap, one sample a cell. */
module Corridor {
  import opened Numbers
  import opened OccupancyGrids
  import opened ReversePlan

  function GridCost(g: Grid, p: Point): Option<int>
    requires g.Valid()
  {
    CostAt(g, CellOf(g, p))
  }

  predicate Free(g: Grid, maximumCost: int, c: Cell)
    requires g.Valid()
  {
    var cost := CostAt(g, c);
    cost.Some? && 0 <= cost.value <= maximumCost
  }

  function Samples(g: Grid, m: Maths, start: Point, goal: Point): (n: int)
    requires g.Valid()
    ensures n >= 2
  {
    MaxInt(2, Ceil(m.Distance(start, goal) / g.resolution) + 1)
  }

  function SampleAt(start: Point, goal: Point, n: int, i: int): Point
    requires n >= 2
  {
    Lerp(start, goal, i as real / (n - 1) as real)
  }

  predicate Touching(a: Cell, b: Cell) { -1 <= b.x - a.x <= 1 && -1 <= b.y - a.y <= 1 }

  predicate TouchingAt(cells: seq<Cell>, i: int)
    requires 0 < i < |cells|
  {
    Touching(cells[i - 1], cells[i])
  }

  // A chain of free cells from a to b, each touching the next.
  ghost predicate FreeChain(g: Grid, maximumCost: int, cells: seq<Cell>, a: Cell, b: Cell)
    requires g.Valid()
  {
    && |cells| > 0 && cells[0] == a && cells[|cells| - 1] == b
    && (forall i :: 0 <= i < |cells| ==> Free(g, maximumCost, cells[i]))
    && forall i :: 0 < i < |cells| ==> TouchingAt(cells, i)
  }

  function SampledCells(g: Grid, m: Maths, start: Point, goal: Point): (cells: seq<Cell>)
    requires g.Valid()
    ensures |cells| == Samples(g, m, start, goal)
  {
    var n := Samples(g, m, start, goal);
    seq(n, i requires 0 <= i < n => CellOf(g, SampleAt(start, goal, n, i)))
  }

  // ----- Why one sample a cell is enough -----

  lemma {:induction false} FloorsTouch(x: real, y: real)
    requires -1.0 <= y - x <= 1.0
    ensures -1 <= y.Floor - x.Floor <= 1
  {
  }

  lemma {:induction false} ScaledStep(from: real, to: real, origin: real, resolution: real)
    requires resolution > 0.0 && Abs(to - from) <= resolution
    ensures -1.0 <= (to - origin) / resolution - (from - origin) / resolution <= 1.0
  {
    Quotients(resolution);
    DivideOrder(to - from, resolution, resolution);
    DivideOrder(-resolution, to - from, resolution);
    QuotientDifference(0.0, resolution, resolution);
    QuotientDifference(to - origin, from - origin, resolution);
    assert (to - origin) - (from - origin) == to - from && 0.0 - resolution == -resolution;
  }

  lemma {:induction false} StepsTouch(g: Grid, a: Point, b: Point)
    requires g.Valid() && Abs(b.x - a.x) <= g.resolution && Abs(b.y - a.y) <= g.resolution
    ensures Touching(CellOf(g, a), CellOf(g, b))
  {
    ScaledStep(a.x, b.x, g.origin.x, g.resolution);
    ScaledStep(a.y, b.y, g.origin.y, g.resolution);
    FloorsTouch((a.x - g.origin.x) / g.resolution, (b.x - g.origin.x) / g.resolution);
    FloorsTouch((a.y - g.origin.y) / g.resolution, (b.y - g.origin.y) / g.resolution);
  }

  lemma {:induction false} LegWithinHypot(m: Maths, dx: real, dy: real)
    requires m.Valid()
    ensures Abs(dx) <= m.hypot(dx, dy) && Abs(dy) <= m.hypot(dx, dy)
  {
    assert Abs(dx) * Abs(dx) == dx * dx && Abs(dy) * Abs(dy) == dy * dy && dx * dx >= 0.0 && dy * dy >= 0.0;
    SquareOrder(Abs(dx), m.hypot(dx, dy));
    SquareOrder(Abs(dy), m.hypot(dx, dy));
  }

  // Splitting a length d into enough parts makes each part at most the resolution.
  lemma {:induction false} EnoughParts(d: real, k: real, resolution: real)
    requires d >= 0.0 && resolution > 0.0 && k >= 1.0 && k >= d / resolution
    ensures d / k <= resolution
  {
    assert d / resolution * resolution == d;
    ProductOrder(d / resolution, k, resolution);
    DivideOrder(d, k * resolution, k);
    assert k * resolution / k == resolution;
  }

  lemma {:induction false} PartWithin(x: real, d: real, k: real, limit: real)
    requires k >= 1.0 && Abs(x) <= d && d / k <= limit
    ensures Abs(x / k) <= limit
  {
    DivideOrder(x, d, k);
    DivideOrder(-x, d, k);
    assert (-x) / k == -(x / k);
  }

  lemma {:induction false} SamplesAreClose(g: Grid, m: Maths, start: Point, goal: Point, i: nat)
    requires g.Valid() && m.Valid() && i + 1 < Samples(g, m, start, goal)
    ensures var n := Samples(g, m, start, goal);
            var (a, b) := (SampleAt(start, goal, n, i), SampleAt(start, goal, n, i + 1));
            Abs(b.x - a.x) <= g.resolution && Abs(b.y - a.y) <= g.resolution
  {
    var n, d := Samples(g, m, start, goal), m.Distance(start, goal);
    var k := (n - 1) as real;
    CeilBounds(d / g.resolution);
    EnoughParts(d, k, g.resolution);
    LegWithinHypot(m, goal.x - start.x, goal.y - start.y);
    LerpStep(start, goal, i, n - 1);
    PartWithin(goal.x - start.x, d, k, g.resolution);
    PartWithin(goal.y - start.y, d, k, g.resolution);
  }

  lemma {:induction false} EndSamples(start: Point, goal: Point, n: int)
    requires n >= 2
    ensures SampleAt(start, goal, n, 0) == start && SampleAt(start, goal, n, n - 1) == goal
  {
    Quotients((n - 1) as real);
    assert 0 as real == 0.0;
  }

  /** A clear corridor is a chain of cells: from the cell of the start to the cell of the goal,
      consecutive cells differ by at most one row and one column, and all of them are in the
      grid with a cost between zero and the maximum. */
  lemma {:induction false} ClearCorridorIsChain(g: Grid, m: Maths, maximumCost: int, start: Point, goal: Point)
    requires g.Valid() && m.Valid()
    requires forall i :: 0 <= i < |SampledCells(g, m, start, goal)| ==>
               Free(g, maximumCost, SampledCells(g, m, start, goal)[i])
    ensures FreeChain(g, maximumCost, SampledCells(g, m, start, goal), CellOf(g, start), CellOf(g, goal))
  {
    hide SampleAt, Samples, CostAt, CellOf;
    var cells, n := SampledCells(g, m, start, goal), Samples(g, m, start, goal);
    EndSamples(start, goal, n);
    forall i | 0 < i < |cells| ensures TouchingAt(cells, i) {
      SamplesAreClose(g, m, start, goal, i - 1);
      StepsTouch(g, SampleAt(start, goal, n, i - 1), SampleAt(start, goal, n, i));
    }
  }

  /** The check itself: true exactly when every sampled cell is free, which makes a chain. */
  method CorridorIsClear(g: Option<Grid>, m: Maths, maximumCost: int, start: Point, goal: Point) returns (clear: bool)
    requires m.Valid() && (g.Some? ==> g.value.Valid())
    ensures clear <==>
            g.Some? && forall i :: 0 <= i < |SampledCells(g.value, m, start, goal)| ==>
                         Free(g.value, maximumCost, SampledCells(g.value, m, start, goal)[i])
    ensures clear ==> FreeChain(g.value, maximumCost, SampledCells(g.value, m, start, goal),
                                CellOf(g.value, start), CellOf(g.value, goal))
    ensures clear ==> forall i :: 0 <= i < |SampledCells(g.value, m, start, goal)| ==>
              var cost := CostAt(g.value, SampledCells(g.value, m, start, goal)[i]);
              cost.Some? && 0 <= cost.value <= maximumCost
  {
    hide FreeChain;
    if g.None? {
      return false;
    }
    var samples := Samples(g.value, m, start, goal);
    for index := 0 to samples
      invariant forall i :: 0 <= i < index ==> Free(g.value, maximumCost, SampledCells(g.value, m, start, goal)[i])
    {
      var ratio := index as real / (samples - 1) as real;
      var cost := GridCost(g.value, Lerp(start, goal, ratio));
      assert SampledCells(g.value, m, start, goal)[index] == CellOf(g.value, Lerp(start, goal, ratio));
      if cost.None? || cost.value < 0 || cost.value > maximumCost {
        return false;
      }
    }
    ClearCorridorIsChain(g.value, m, maximumCost, start, goal);
    return true;
  }
}
