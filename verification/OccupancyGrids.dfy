/** Occupancy grids, as the goal adapter and the costmap inspector read them. */
module OccupancyGrids {
  import opened Numbers

  datatype Cell = Cell(x: int, y: int)

  datatype Grid = Grid(origin: Point, resolution: real, width: nat, height: nat, data: seq<int>) {
    predicate Valid() { resolution > 0.0 && |data| == width * height }
  }

  predicate InGrid(g: Grid, c: Cell) { 0 <= c.x < g.width && 0 <= c.y < g.height }

  function CellOf(g: Grid, p: Point): Cell
    requires g.Valid()
  {
    Cell(((p.x - g.origin.x) / g.resolution).Floor, ((p.y - g.origin.y) / g.resolution).Floor)
  }

  lemma {:induction false} IndexInData(width: nat, height: nat, x: nat, y: nat)
    requires x < width && y < height
    ensures 0 <= y * width + x < width * height
  {
    var rest: nat := height - 1 - y;
    assert height == y + rest + 1;
    assert width * height == y * width + rest * width + width;
  }

  function CostAt(g: Grid, c: Cell): Option<int>
    requires g.Valid()
  {
    if InGrid(g, c) then
      IndexInData(g.width, g.height, c.x, c.y);
      Some(g.data[c.y * g.width + c.x])
    else None
  }

  lemma {:induction false} CostInGrid(g: Grid, c: Cell)
    requires g.Valid()
    ensures CostAt(g, c).Some? <==> InGrid(g, c)
  {
  }

  /** A point lies in a cell exactly when it is between the cell's lower left corner, which belongs to the cell, and
      its upper right one, which does not; cell (0, 0) has its corner at the origin. */
  lemma {:induction false} CellExactly(g: Grid, p: Point, c: Cell)
    requires g.Valid()
    ensures CellOf(g, p) == c <==>
      && g.origin.x + c.x as real * g.resolution <= p.x < g.origin.x + (c.x + 1) as real * g.resolution
      && g.origin.y + c.y as real * g.resolution <= p.y < g.origin.y + (c.y + 1) as real * g.resolution
  {
    FloorExactly(p.x - g.origin.x, g.resolution, c.x);
    FloorExactly(p.y - g.origin.y, g.resolution, c.y);
  }

  function Times(a: real, b: real): real { a * b }

  lemma {:induction false} FloorExactly(offset: real, size: real, n: int)
    requires size > 0.0
    ensures (offset / size).Floor == n <==> Times(n as real, size) <= offset < Times((n + 1) as real, size)
  {
    QuotientTimes(offset, size);
    FloorScaled(offset / size, offset, size, n);
  }

  lemma {:induction false} FloorScaled(q: real, offset: real, size: real, n: int)
    requires size > 0.0 && offset == Times(q, size)
    ensures q.Floor == n <==> Times(n as real, size) <= offset < Times((n + 1) as real, size)
  {
    hide Times;
    FloorIs(q, n);
    Between(q, size, n as real, (n + 1) as real);
  }

  lemma {:induction false} QuotientTimes(x: real, d: real)
    requires d != 0.0
    ensures Times(x / d, d) == x
  {
  }

  lemma {:induction false} Between(q: real, size: real, a: real, b: real)
    requires size > 0.0
    ensures a <= q < b <==> Times(a, size) <= Times(q, size) < Times(b, size)
  {
    hide Times;
    TimesOrder(a, q, size);
    TimesOrder(b, q, size);
  }

  lemma {:induction false} TimesOrder(a: real, b: real, k: real)
    requires k > 0.0
    ensures a <= b <==> Times(a, k) <= Times(b, k)
  {
    if a <= b { ProductOrder(a, b, k); } else { StrictProduct(b, a, k); }
  }

  lemma {:induction false} FloorIs(q: real, n: int)
    ensures q.Floor == n <==> n as real <= q < (n + 1) as real
  {
  }

  lemma {:induction false} StrictProduct(a: real, b: real, k: real)
    requires a < b && k > 0.0
    ensures a * k < b * k
  {
    assert (b - a) * k > 0.0;
  }

  // Rows of cells, one after the other.
  function Flatten(rows: seq<seq<int>>): seq<int> {
    if |rows| == 0 then [] else Flatten(rows[..|rows| - 1]) + rows[|rows| - 1]
  }

  lemma {:induction false} FlattenAt(rows: seq<seq<int>>, width: nat, x: nat, y: nat)
    requires (forall row :: row in rows ==> |row| == width) && x < width && y < |rows|
    ensures |Flatten(rows)| == width * |rows| && y * width + x < width * |rows|
    ensures Flatten(rows)[y * width + x] == rows[y][x]
  {
    var n := |rows| - 1;
    FlattenLength(rows[..n], width);
    assert rows[n] in rows;
    if y < n {
      FlattenAt(rows[..n], width, x, y);
    }
    OneMore(width, n);
  }

  lemma {:induction false} FlattenLength(rows: seq<seq<int>>, width: nat)
    requires forall row :: row in rows ==> |row| == width
    ensures |Flatten(rows)| == width * |rows|
  {
    if |rows| > 0 {
      FlattenLength(rows[..|rows| - 1], width);
      assert rows[|rows| - 1] in rows;
      OneMore(width, |rows| - 1);
    }
  }

  lemma {:induction false} OneMore(width: nat, n: nat)
    ensures width * (n + 1) == width * n + width == n * width + width
  {
  }

  /** The data are the rows from the bottom up, each from left to right: the cost at a cell is the one its row has
      there, and no cell outside the grid has a cost. */
  lemma {:induction false} RowsAreRead(rows: seq<seq<int>>, width: nat, origin: Point, resolution: real, c: Cell)
    requires resolution > 0.0 && forall row :: row in rows ==> |row| == width
    ensures |Flatten(rows)| == width * |rows|
    ensures CostAt(Grid(origin, resolution, width, |rows|, Flatten(rows)), c) ==
            if 0 <= c.y < |rows| && 0 <= c.x < width then Some(rows[c.y][c.x]) else None
  {
    FlattenLength(rows, width);
    if 0 <= c.y < |rows| && 0 <= c.x < width { FlattenAt(rows, width, c.x, c.y); }
  }
}
