/** Numbers shared by every model: extended readings, real helpers, wrapped angles. */
module Numbers {

  datatype Option<+T> = None | Some(value: T)

  /** A floating-point input as the nodes see it: a finite value, an infinity, or not a number. */
  datatype Reading = Finite(v: real) | PosInf | NegInf | NaN {
    // `this <= limit`, with the usual rule that no comparison with NaN holds.
    predicate AtMost(limit: real) {
      match this
      case Finite(x) => x <= limit
      case NegInf => true
      case _ => false
    }

    // `this > limit`.
    predicate Above(limit: real) {
      match this
      case Finite(x) => x > limit
      case PosInf => true
      case _ => false
    }
  }

  /** A receive time on each of the two clocks that the nodes read. */
  datatype Clock = Clock(ros: real, mono: real)

  datatype Point = Point(x: real, y: real)

  datatype Pose = Pose(at: Point, yaw: real)

  function Abs(x: real): real { if x < 0.0 then -x else x }

  function Min(a: real, b: real): real { if b < a then b else a }

  function Max(a: real, b: real): real { if b > a then b else a }

  function MaxInt(a: int, b: int): int { if b > a then b else a }

  function MinInt(a: int, b: int): int { if b < a then b else a }

  function Saturate(x: real, limit: real): real { Max(-limit, Min(limit, x)) }

  function CopySign(magnitude: real, sign: real): real {
    if sign < 0.0 then -Abs(magnitude) else Abs(magnitude)
  }

  function Ceil(x: real): int { -((-x).Floor) }

  // The square root is the one operation taken as given: it is a function that is
  // non-negative and squares back.
  ghost predicate IsSqrt(f: real -> real) {
    forall x: real :: x >= 0.0 ==> f(x) >= 0.0 && f(x) * f(x) == x
  }

  lemma {:induction false} NonZeroProduct(d: real, s: real)
    requires d != 0.0 && s > 0.0
    ensures d * s != 0.0
  {
  }

  lemma {:induction false} FactorsNonZero(a: real, b: real)
    requires a * b != 0.0
    ensures a != 0.0 && b != 0.0
  {
  }

  lemma {:induction false} ProductSign(a: real, b: real)
    requires b > 0.0
    ensures a * b >= 0.0 <==> a >= 0.0
    ensures a * b > 0.0 <==> a > 0.0
  {
  }

  lemma {:induction false} ProductOrder(a: real, b: real, k: real)
    requires a <= b && k >= 0.0
    ensures k * a <= k * b && a * k <= b * k
  {
    assert (b - a) * k >= 0.0;
  }

  lemma {:induction false} DivideOrder(x: real, y: real, d: real)
    requires x <= y && d > 0.0
    ensures x / d <= y / d
  {
    var (p, q) := (x / d, y / d);
    assert p * d == x && q * d == y;
    assert (q - p) * d == q * d - p * d;
    ProductSign(q - p, d);
  }

  lemma {:induction false} Quotients(d: real)
    requires d != 0.0
    ensures 0.0 / d == 0.0 && d / d == 1.0
  {
  }

  function Ratio(x: real, d: real): real
    requires d != 0.0
  {
    x / d
  }

  lemma {:induction false} RatioOrder(x: real, y: real, d: real)
    requires x <= y && d > 0.0
    ensures Ratio(x, d) <= Ratio(y, d)
  {
    DivideOrder(x, y, d);
  }

  lemma {:induction false} RatioEnds(d: real)
    requires d != 0.0
    ensures Ratio(0.0, d) == 0.0 && Ratio(d, d) == 1.0
  {
    Quotients(d);
  }

  lemma {:induction false} CancelFactor(x: real, y: real, d: real)
    requires d != 0.0 && x * d == y * d
    ensures x == y
  {
    assert x * d / d == x && y * d / d == y;
  }

  lemma {:induction false} QuotientDifference(a: real, b: real, d: real)
    requires d != 0.0
    ensures a / d - b / d == (a - b) / d
  {
    var (p, q, r) := (a / d, b / d, (a - b) / d);
    assert p * d == a && q * d == b && r * d == a - b;
    assert (p - q) * d == p * d - q * d;
    CancelFactor(p - q, r, d);
  }

  lemma {:induction false} RootUnique(a: real, b: real)
    requires a >= 0.0 && b >= 0.0 && a * a == b * b
    ensures a == b
  {
    if a != b { NonZeroProduct(a - b, a + b); }
  }

  lemma {:induction false} StrictSquareOrder(a: real, b: real)
    requires 0.0 <= a < b
    ensures a * a < b * b
  {
    var d := b - a;
    assert b == a + d;
    assert b * b == a * a + 2.0 * (a * d) + d * d;
    assert d * d > 0.0 && a * d >= 0.0;
  }

  lemma {:induction false} SquareOrder(a: real, b: real)
    requires a >= 0.0 && b >= 0.0 && a * a <= b * b
    ensures a <= b
  {
    if a > b { StrictSquareOrder(b, a); }
  }

  lemma {:induction false} SqrtIs(f: real -> real, x: real, r: real)
    requires IsSqrt(f) && r >= 0.0 && r * r == x
    ensures f(x) == r
  {
    assert x >= 0.0;
    RootUnique(f(x), r);
  }

  lemma {:induction false} SquareOfProduct(a: real, b: real)
    ensures (a * b) * (a * b) == (a * a) * (b * b)
  {
  }

  lemma {:induction false} Distribute(a: real, b: real, c: real)
    ensures (a + b) * c == a * c + b * c
  {
  }

  lemma {:induction false} ScaleBounds(low: real, x: real, high: real, scale: real)
    requires low <= x < high && scale > 0.0
    ensures low * scale <= x * scale < high * scale
  {
    assert (x - low) * scale >= 0.0 && (high - x) * scale > 0.0;
  }

  /** The angle equivalent to `a` that lies in (-pi, pi], i.e. atan2(sin a, cos a). */
  function Wrap(a: real, pi: real): (r: real)
    requires pi > 0.0
    ensures -pi < r <= pi
  {
    var turns := ((pi - a) / (2.0 * pi)).Floor as real;
    assert turns <= (pi - a) / (2.0 * pi) < turns + 1.0;
    assert (pi - a) / (2.0 * pi) * (2.0 * pi) == pi - a;
    ScaleBounds(turns, (pi - a) / (2.0 * pi), turns + 1.0, 2.0 * pi);
    a + turns * (2.0 * pi)
  }

  /** The real functions that the nodes take from their maths library. */
  datatype Maths = Maths(hypot: (real, real) -> real, atan2: (real, real) -> real, wrap: real -> real, pi: real) {
    ghost predicate Valid() {
      && pi > 0.0
      && (forall a: real :: wrap(a) == Wrap(a, pi))
      && forall dx: real, dy: real ::
           hypot(dx, dy) >= 0.0 && hypot(dx, dy) * hypot(dx, dy) == dx * dx + dy * dy
    }

    function Distance(a: Point, b: Point): real { hypot(b.x - a.x, b.y - a.y) }

    function Heading(a: Point, b: Point): real { atan2(b.y - a.y, b.x - a.x) }
  }

  lemma {:induction false} HypotIs(m: Maths, dx: real, dy: real, r: real)
    requires m.Valid() && r >= 0.0 && r * r == dx * dx + dy * dy
    ensures m.hypot(dx, dy) == r
  {
    RootUnique(m.hypot(dx, dy), r);
  }

  lemma {:induction false} HypotTimes(m: Maths, dx: real, dy: real, k: real)
    requires m.Valid() && k >= 0.0
    ensures m.hypot(dx * k, dy * k) == m.hypot(dx, dy) * k
  {
    var d := m.hypot(dx, dy);
    SquareOfProduct(dx, k);
    SquareOfProduct(dy, k);
    SquareOfProduct(d, k);
    Distribute(dx * dx, dy * dy, k * k);
    HypotIs(m, dx * k, dy * k, d * k);
  }

  lemma {:induction false} WrapZero(m: Maths)
    requires m.Valid()
    ensures m.wrap(0.0) == 0.0
  {
    assert m.pi / (2.0 * m.pi) == 0.5;
  }
}
