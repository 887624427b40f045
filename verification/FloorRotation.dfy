/** The rotation that levels a floor: it turns a measured normal onto a target direction. */
module FloorRotation {
  import opened Numbers
  import opened Quaternions
  import opened RotationMatrices

  const TINY: real := 0.000000000001

  function SquaredLength(v: Vec): real { v.x * v.x + v.y * v.y + v.z * v.z }

  function NormalizeVec(sqrt: real -> real, v: Vec): Option<Vec> {
    var length := sqrt(SquaredLength(v));
    if length <= TINY then None else Some(Vec(v.x / length, v.y / length, v.z / length))
  }

  datatype Result = Turn(matrix: Mat) | ZeroNormal | Reversal

  // The axis-angle matrix around the axis v / sine.
  function AxisAngle(v: Vec, sine: real, cosine: real): Mat
    requires sine != 0.0
  {
    var (kx, ky, kz) := (v.x / sine, v.y / sine, v.z / sine);
    var d := 1.0 - cosine;
    Mat(cosine + Entry(kx, kx, d), Entry(kx, ky, d) - kz * sine, Entry(kx, kz, d) + ky * sine,
        Entry(ky, kx, d) + kz * sine, cosine + Entry(ky, ky, d), Entry(ky, kz, d) - kx * sine,
        Entry(kz, kx, d) - ky * sine, Entry(kz, ky, d) + kx * sine, cosine + Entry(kz, kz, d))
  }

  function RotationBetween(sqrt: real -> real, s: Vec, t: Vec): Result {
    var v := Cross(s, t);
    var sine := sqrt(SquaredLength(v));
    var cosine := Max(-1.0, Min(1.0, Dot(s, t)));
    if sine <= TINY then if cosine > 0.0 then Turn(IDENTITY) else Reversal
    else Turn(AxisAngle(v, sine, cosine))
  }

  function RotationFromTo(sqrt: real -> real, source: Vec, target: Vec): Result {
    var s, t := NormalizeVec(sqrt, source), NormalizeVec(sqrt, target);
    if s.None? || t.None? then ZeroNormal else RotationBetween(sqrt, s.value, t.value)
  }

  function Rotate(m: Mat, v: Vec): Vec {
    Vec(m.m00 * v.x + m.m01 * v.y + m.m02 * v.z,
        m.m10 * v.x + m.m11 * v.y + m.m12 * v.z,
        m.m20 * v.x + m.m21 * v.y + m.m22 * v.z)
  }

  // ----- Sine and cosine of the angle between two unit vectors -----

  function Square(x: real): real { x * x }

  lemma {:induction false} Lagrange(s: Vec, t: Vec, v: Vec, c: real, a: real, b: real)
    requires v.x == s.y * t.z - s.z * t.y && v.y == s.z * t.x - s.x * t.z && v.z == s.x * t.y - s.y * t.x
    requires c == s.x * t.x + s.y * t.y + s.z * t.z
    requires a == s.x * s.x + s.y * s.y + s.z * s.z && b == t.x * t.x + t.y * t.y + t.z * t.z
    ensures v.x * v.x + v.y * v.y + v.z * v.z == a * b - c * c
  {
  }

  lemma {:induction false} LengthNonNegative(v: Vec)
    ensures SquaredLength(v) >= 0.0
  {
    SquareNonNegative(v.x);
    SquareNonNegative(v.y);
    SquareNonNegative(v.z);
  }

  lemma {:induction false} LagrangeOfVectors(s: Vec, t: Vec)
    ensures SquaredLength(Cross(s, t)) == SquaredLength(s) * SquaredLength(t) - Square(Dot(s, t))
  {
    Lagrange(s, t, Cross(s, t), Dot(s, t), SquaredLength(s), SquaredLength(t));
  }

  lemma {:induction false} CrossLength(s: Vec, t: Vec)
    requires SquaredLength(s) == 1.0 && SquaredLength(t) == 1.0
    ensures SquaredLength(Cross(s, t)) == 1.0 - Square(Dot(s, t)) >= 0.0
  {
    hide SquaredLength, Cross, Dot, Square;
    LagrangeOfVectors(s, t);
    LengthNonNegative(Cross(s, t));
  }

  lemma {:induction false} SquareOfRoot(sqrt: real -> real, x: real)
    requires IsSqrt(sqrt) && x >= 0.0
    ensures sqrt(x) >= 0.0 && Square(sqrt(x)) == x
  {
  }

  lemma {:induction false} SineAndCosine(sqrt: real -> real, s: Vec, t: Vec)
    requires IsSqrt(sqrt) && SquaredLength(s) == 1.0 && SquaredLength(t) == 1.0
    ensures var (sine, c) := (sqrt(SquaredLength(Cross(s, t))), Dot(s, t));
            sine >= 0.0 && Square(sine) == 1.0 - Square(c) && -1.0 <= c <= 1.0 && Max(-1.0, Min(1.0, c)) == c
  {
    hide SquaredLength, Cross, Dot, Square, IsSqrt;
    CrossLength(s, t);
    SquareOfRoot(sqrt, SquaredLength(Cross(s, t)));
    WithinOne(Dot(s, t));
  }

  lemma {:induction false} WithinOne(c: real)
    requires Square(c) <= 1.0
    ensures -1.0 <= c <= 1.0
  {
    if c > 1.0 { StrictSquareOrder(1.0, c); }
    if c < -1.0 { StrictSquareOrder(1.0, -c); }
  }

  // ----- The axis-angle matrix is the matrix of a quaternion -----

  // The quaternion 1 + s.t + s x t, which turns s towards t.
  function HalfWay(s: Vec, t: Vec): Quat {
    var v := Cross(s, t);
    Quat(v.x, v.y, v.z, 1.0 + Dot(s, t))
  }

  lemma {:induction false} AxisEntry(a: real, b: real, sine: real, c: real, k: real)
    requires sine != 0.0 && k * (1.0 + c) == 1.0 && sine * sine == 1.0 - c * c
    ensures Entry(a / sine, b / sine, 1.0 - c) == Entry(a, b, k) == Entry(b, a, k)
  {
    var (p, q) := (a / sine, b / sine);
    assert p * sine == a && q * sine == b;
    ScaleByParts(p, q, sine, c, k, a, b);
  }

  lemma {:induction false} ScaleByParts(p: real, q: real, sine: real, c: real, k: real, a: real, b: real)
    requires p * sine == a && q * sine == b && k * (1.0 + c) == 1.0 && sine * sine == 1.0 - c * c
    ensures p * q * (1.0 - c) == a * b * k
  {
    assert a * b == p * q * (sine * sine);
    assert sine * sine == (1.0 - c) * (1.0 + c);
    assert p * q * ((1.0 - c) * (1.0 + c)) * k == p * q * (1.0 - c) * (k * (1.0 + c));
  }

  // A component of the axis, times the sine.
  lemma {:induction false} AxisTimesSine(a: real, sine: real, c: real, k: real)
    requires sine != 0.0 && k * (1.0 + c) == 1.0
    ensures a / sine * sine == a && Entry(1.0 + c, a, k) == a
  {
    assert (1.0 + c) * a * k == a * (k * (1.0 + c));
  }

  lemma {:induction false} DiagonalEntry(c: real, k: real, x: real, y: real, z: real)
    requires k * (1.0 + c) == 1.0 && x * x + y * y + z * z == 1.0 - c * c
    ensures c + Entry(x, x, k) == 1.0 - Entry(y, y, k) - Entry(z, z, k)
  {
    assert (x * x + y * y + z * z) * k == x * x * k + y * y * k + z * z * k;
    assert (1.0 - c * c) * k == (1.0 - c) * (k * (1.0 + c));
  }

  lemma {:induction false} AxisAngleIsScaled(s: Vec, t: Vec, sine: real, k: real)
    requires SquaredLength(s) == 1.0 && SquaredLength(t) == 1.0
    requires sine != 0.0 && Square(sine) == 1.0 - Square(Dot(s, t)) && k * (1.0 + Dot(s, t)) == 1.0
    ensures AxisAngle(Cross(s, t), sine, Dot(s, t)) == ScaledMatrix(HalfWay(s, t), k)
  {
    hide Cross, Dot, Entry, AxisAngle, ScaledMatrix;
    var (v, c) := (Cross(s, t), Dot(s, t));
    CrossLength(s, t);
    AxisEntries(v, sine, c, k, AxisAngle(v, sine, c));
    QuatEntries(v, c, k, ScaledMatrix(HalfWay(s, t), k));
    Diagonals(v, c, k);
  }

  lemma {:induction false} Diagonals(v: Vec, c: real, k: real)
    requires k * (1.0 + c) == 1.0 && SquaredLength(v) == 1.0 - c * c
    ensures c + Entry(v.x, v.x, k) == 1.0 - Entry(v.y, v.y, k) - Entry(v.z, v.z, k)
    ensures c + Entry(v.y, v.y, k) == 1.0 - Entry(v.x, v.x, k) - Entry(v.z, v.z, k)
    ensures c + Entry(v.z, v.z, k) == 1.0 - Entry(v.x, v.x, k) - Entry(v.y, v.y, k)
  {
    hide Entry;
    DiagonalEntry(c, k, v.x, v.y, v.z);
  }

  // The same matrix, written with the components of v and the factor k.
  predicate EntriesAre(m: Mat, v: Vec, c: real, k: real) {
    && m.m01 == Entry(v.x, v.y, k) - v.z && m.m02 == Entry(v.x, v.z, k) + v.y
    && m.m10 == Entry(v.x, v.y, k) + v.z && m.m12 == Entry(v.y, v.z, k) - v.x
    && m.m20 == Entry(v.x, v.z, k) - v.y && m.m21 == Entry(v.y, v.z, k) + v.x
  }

  lemma {:induction false} AxisEntries(v: Vec, sine: real, c: real, k: real, m: Mat)
    requires sine != 0.0 && k * (1.0 + c) == 1.0 && sine * sine == 1.0 - c * c && m == AxisAngle(v, sine, c)
    ensures EntriesAre(m, v, c, k)
    ensures m.m00 == c + Entry(v.x, v.x, k) && m.m11 == c + Entry(v.y, v.y, k) && m.m22 == c + Entry(v.z, v.z, k)
  {
    hide Entry;
    AxisTimesSine(v.x, sine, c, k);
    AxisTimesSine(v.y, sine, c, k);
    AxisTimesSine(v.z, sine, c, k);
    AxisEntry(v.x, v.x, sine, c, k);
    AxisEntry(v.y, v.y, sine, c, k);
    AxisEntry(v.z, v.z, sine, c, k);
    AxisEntry(v.x, v.y, sine, c, k);
    AxisEntry(v.y, v.x, sine, c, k);
    AxisEntry(v.x, v.z, sine, c, k);
    AxisEntry(v.z, v.x, sine, c, k);
    AxisEntry(v.y, v.z, sine, c, k);
    AxisEntry(v.z, v.y, sine, c, k);
  }

  lemma {:induction false} QuatEntries(v: Vec, c: real, k: real, m: Mat)
    requires k * (1.0 + c) == 1.0 && m == ScaledMatrix(Quat(v.x, v.y, v.z, 1.0 + c), k)
    ensures EntriesAre(m, v, c, k)
    ensures m.m00 == 1.0 - Entry(v.y, v.y, k) - Entry(v.z, v.z, k)
    ensures m.m11 == 1.0 - Entry(v.x, v.x, k) - Entry(v.z, v.z, k)
    ensures m.m22 == 1.0 - Entry(v.x, v.x, k) - Entry(v.y, v.y, k)
  {
    hide Entry;
    AxisTimesSine(v.x, 1.0, c, k);
    AxisTimesSine(v.y, 1.0, c, k);
    AxisTimesSine(v.z, 1.0, c, k);
  }

  lemma {:induction false} HalfWayNorm(s: Vec, t: Vec)
    requires SquaredLength(s) == 1.0 && SquaredLength(t) == 1.0
    ensures Norm2(HalfWay(s, t)) == 2.0 * (1.0 + Dot(s, t))
  {
    hide Cross, Dot;
    var (v, c) := (Cross(s, t), Dot(s, t));
    CrossLength(s, t);
    assert (1.0 + c) * (1.0 + c) == 1.0 + 2.0 * c + c * c;
  }

  // ----- It turns the source onto the target -----

  lemma {:induction false} VectorTripleX(s: Vec, t: Vec, v: Vec, c: real, n: real)
    requires v.y == s.z * t.x - s.x * t.z && v.z == s.x * t.y - s.y * t.x
    requires c == s.x * t.x + s.y * t.y + s.z * t.z && n == s.x * s.x + s.y * s.y + s.z * s.z
    ensures v.y * s.z - v.z * s.y == n * t.x - c * s.x
  {
  }

  lemma {:induction false} VectorTripleBack(s: Vec, t: Vec, v: Vec, c: real, n: real)
    requires v.y == s.z * t.x - s.x * t.z && v.z == s.x * t.y - s.y * t.x
    requires c == s.x * t.x + s.y * t.y + s.z * t.z && n == t.x * t.x + t.y * t.y + t.z * t.z
    ensures t.y * v.z - t.z * v.y == n * s.x - c * t.x
  {
  }

  lemma {:induction false} CrossIsPerpendicular(s: Vec, t: Vec, v: Vec)
    requires v.x == s.y * t.z - s.z * t.y && v.y == s.z * t.x - s.x * t.z && v.z == s.x * t.y - s.y * t.x
    ensures v.x * s.x + v.y * s.y + v.z * s.z == 0.0 && t.x * v.x + t.y * v.y + t.z * v.z == 0.0
  {
  }

  lemma {:induction false} TripleFirst(s: Vec, t: Vec)
    requires SquaredLength(s) == 1.0
    ensures Cross(s, t).y * s.z - Cross(s, t).z * s.y == t.x - Dot(s, t) * s.x
  {
    VectorTripleX(s, t, Cross(s, t), Dot(s, t), 1.0);
  }

  lemma {:induction false} TripleFirstBack(s: Vec, t: Vec)
    requires SquaredLength(t) == 1.0
    ensures t.y * Cross(s, t).z - t.z * Cross(s, t).y == s.x - Dot(s, t) * t.x
  {
    VectorTripleBack(s, t, Cross(s, t), Dot(s, t), 1.0);
  }

  // The first components of q s and t q: both are those of s + t.
  lemma {:induction false} TurnsFirst(s: Vec, t: Vec)
    requires SquaredLength(s) == 1.0 && SquaredLength(t) == 1.0
    ensures var q := HalfWay(s, t);
      && q.w * s.x + q.y * s.z - q.z * s.y == s.x + t.x && t.x * q.w + t.y * q.z - t.z * q.y == s.x + t.x
  {
    hide Cross, Dot, SquaredLength;
    TripleFirst(s, t);
    TripleFirstBack(s, t);
    Distribute(1.0, Dot(s, t), s.x);
    Distribute(1.0, Dot(s, t), t.x);
  }

  lemma {:induction false} HalfWayTurned(s: Vec, t: Vec)
    ensures HalfWay(TurnedVec(s), TurnedVec(t)) == Turned(HalfWay(s, t))
    ensures SquaredLength(TurnedVec(s)) == SquaredLength(s) && SquaredLength(TurnedVec(t)) == SquaredLength(t)
  {
  }

  lemma {:induction false} HalfWayReal(s: Vec, t: Vec)
    ensures var q := HalfWay(s, t);
      q.x * s.x + q.y * s.y + q.z * s.z == 0.0 && t.x * q.x + t.y * q.y + t.z * q.z == 0.0
  {
    CrossIsPerpendicular(s, t, Cross(s, t));
  }

  lemma {:induction false} PureOnLeft(v: Vec, q: Quat)
    ensures var m := Mul(Pure(v), q);
      && m.x == v.x * q.w + v.y * q.z - v.z * q.y && m.y == v.y * q.w + v.z * q.x - v.x * q.z
      && m.z == v.z * q.w + v.x * q.y - v.y * q.x && m.w == -(v.x * q.x) - v.y * q.y - v.z * q.z
  {
  }

  // q s == t q.
  lemma {:induction false} HalfWayTurns(s: Vec, t: Vec)
    requires SquaredLength(s) == 1.0 && SquaredLength(t) == 1.0
    ensures Mul(HalfWay(s, t), Pure(s)) == Mul(Pure(t), HalfWay(s, t))
  {
    hide Mul, HalfWay, SquaredLength, Pure;
    var (q, s1, t1) := (HalfWay(s, t), TurnedVec(s), TurnedVec(t));
    PureComponents(q, s);
    PureOnLeft(t, q);
    TurnsFirst(s, t);
    HalfWayTurned(s, t);
    TurnsFirst(s1, t1);
    HalfWayTurned(s1, t1);
    TurnsFirst(TurnedVec(s1), TurnedVec(t1));
    HalfWayReal(s, t);
  }

  lemma {:induction false} ScaledTerm(a: real, b: real, k: real, n: real)
    requires n == b * k
    ensures a * n == a * b * k
  {
  }

  lemma {:induction false} ScaledSum(p: real, q: real, r: real, s: real, k: real)
    ensures (p + q + r - s) * k == p * k + q * k + r * k - s * k
    ensures (p - q - r - s) * k == p * k - q * k - r * k - s * k
  {
  }

  lemma {:induction false} ScaledFactor(l: Quat, r: Quat, k: real, n: Quat)
    requires n.x == r.x * k && n.y == r.y * k && n.z == r.z * k && n.w == r.w * k
    ensures l.w * n.x + l.x * n.w + l.y * n.z - l.z * n.y == (l.w * r.x + l.x * r.w + l.y * r.z - l.z * r.y) * k
    ensures l.w * n.y - l.x * n.z + l.y * n.w + l.z * n.x == (l.w * r.y - l.x * r.z + l.y * r.w + l.z * r.x) * k
    ensures l.w * n.z + l.x * n.y - l.y * n.x + l.z * n.w == (l.w * r.z + l.x * r.y - l.y * r.x + l.z * r.w) * k
    ensures l.w * n.w - l.x * n.x - l.y * n.y - l.z * n.z == (l.w * r.w - l.x * r.x - l.y * r.y - l.z * r.z) * k
  {
    ScaledTerm(l.w, r.x, k, n.x);
    ScaledTerm(l.x, r.w, k, n.w);
    ScaledTerm(l.y, r.z, k, n.z);
    ScaledTerm(l.z, r.y, k, n.y);
    ScaledSum(l.w * r.x, l.x * r.w, l.y * r.z, l.z * r.y, k);
    ScaledTerm(l.w, r.y, k, n.y);
    ScaledTerm(l.x, r.z, k, n.z);
    ScaledTerm(l.y, r.w, k, n.w);
    ScaledTerm(l.z, r.x, k, n.x);
    ScaledSum(l.w * r.y, l.y * r.w, l.z * r.x, l.x * r.z, k);
    ScaledTerm(l.w, r.z, k, n.z);
    ScaledTerm(l.x, r.y, k, n.y);
    ScaledTerm(l.y, r.x, k, n.x);
    ScaledTerm(l.z, r.w, k, n.w);
    ScaledSum(l.w * r.z, l.x * r.y, l.z * r.w, l.y * r.x, k);
    ScaledTerm(l.w, r.w, k, n.w);
    ScaledTerm(l.x, r.x, k, n.x);
    ScaledTerm(l.y, r.y, k, n.y);
    ScaledTerm(l.z, r.z, k, n.z);
    ScaledSum(l.w * r.w, l.x * r.x, l.y * r.y, l.z * r.z, k);
  }

  lemma {:induction false} ScaledRight(l: Quat, r: Quat, k: real)
    ensures Mul(l, Scaled(r, k)) == Scaled(Mul(l, r), k)
  {
    hide Mul, Scaled;
    Components(l, r);
    Components(l, Scaled(r, k));
    ScaledIs(r, k);
    ScaledIs(Mul(l, r), k);
    ScaledFactor(l, r, k, Scaled(r, k));
  }

  lemma {:induction false} ScaledIs(q: Quat, k: real)
    ensures var n := Scaled(q, k); n.x == q.x * k && n.y == q.y * k && n.z == q.z * k && n.w == q.w * k
  {
  }

  lemma {:induction false} ScaledLeft(l: Quat, r: Quat, k: real)
    ensures Mul(Scaled(l, k), r) == Scaled(Mul(l, r), k)
  {
    hide Mul;
    ConjOfMul(l, r);
    ConjOfMul(Scaled(l, k), r);
    ConjScaled(l, k);
    ScaledRight(Conj(r), Conj(l), k);
    ConjScaled(Mul(l, r), k);
    ConjTwice(Mul(Scaled(l, k), r));
    ConjTwice(Scaled(Mul(l, r), k));
  }

  lemma {:induction false} ConjScaled(q: Quat, k: real)
    ensures Conj(Scaled(q, k)) == Scaled(Conj(q), k)
  {
  }

  lemma {:induction false} ConjTwice(q: Quat)
    ensures Conj(Conj(q)) == q
  {
  }

  // A unit quaternion with u s == t u rotates s to t.
  lemma {:induction false} IntertwinerRotates(u: Quat, s: Vec, t: Vec)
    requires Norm2(u) == 1.0 && Mul(u, Pure(s)) == Mul(Pure(t), u)
    ensures RotateVector(u, s) == t
  {
    hide Mul, Conj, Norm2;
    ConjInverts(u);
    MulAssociative(Pure(t), u, Conj(u));
    OneIsUnit(Pure(t));
  }

  // The matrix of u, applied to a vector, is the cross-product form of the rotation by u.
  lemma {:induction false} RowTimes(u: Quat, v: Vec, a: real, b: real, c: real, ty: real, tz: real)
    requires a == 1.0 - 2.0 * (u.y * u.y) - 2.0 * (u.z * u.z)
    requires b == 2.0 * (u.x * u.y) - 2.0 * (u.w * u.z) && c == 2.0 * (u.x * u.z) + 2.0 * (u.w * u.y)
    requires ty == 2.0 * (u.z * v.x - u.x * v.z) && tz == 2.0 * (u.x * v.y - u.y * v.x)
    ensures a * v.x + b * v.y + c * v.z == v.x + u.w * (2.0 * (u.y * v.z - u.z * v.y)) + u.y * tz - u.z * ty
  {
  }

  lemma {:induction false} UnitEntries(u: Quat)
    ensures var m := UnitMatrix(u);
      && m.m00 == 1.0 - 2.0 * (u.y * u.y) - 2.0 * (u.z * u.z)
      && m.m01 == 2.0 * (u.x * u.y) - 2.0 * (u.w * u.z) && m.m02 == 2.0 * (u.x * u.z) + 2.0 * (u.w * u.y)
      && m.m10 == 2.0 * (u.x * u.y) + 2.0 * (u.w * u.z) && m.m12 == 2.0 * (u.y * u.z) - 2.0 * (u.w * u.x)
      && m.m11 == 1.0 - 2.0 * (u.z * u.z) - 2.0 * (u.x * u.x)
      && m.m20 == 2.0 * (u.x * u.z) - 2.0 * (u.w * u.y) && m.m21 == 2.0 * (u.y * u.z) + 2.0 * (u.w * u.x)
      && m.m22 == 1.0 - 2.0 * (u.x * u.x) - 2.0 * (u.y * u.y)
  {
  }

  lemma {:induction false} RotateFirstRow(u: Quat, v: Vec)
    ensures Rotate(UnitMatrix(u), v).x == RotateByCross(u, v).x
  {
    hide UnitMatrix;
    UnitEntries(u);
    var m := UnitMatrix(u);
    RowTimes(u, v, m.m00, m.m01, m.m02, 2.0 * (u.z * v.x - u.x * v.z), 2.0 * (u.x * v.y - u.y * v.x));
  }

  lemma {:induction false} TurnedEntries(u: Quat)
    ensures var (m, n) := (UnitMatrix(u), UnitMatrix(Turned(u)));
      && n.m00 == m.m11 && n.m01 == m.m12 && n.m02 == m.m10
      && n.m10 == m.m21 && n.m11 == m.m22 && n.m12 == m.m20
      && n.m20 == m.m01 && n.m21 == m.m02 && n.m22 == m.m00
  {
    hide UnitMatrix;
    UnitEntries(u);
    UnitEntries(Turned(u));
  }

  lemma {:induction false} RotateTurned(u: Quat, v: Vec)
    ensures Rotate(UnitMatrix(Turned(u)), TurnedVec(v)) == TurnedVec(Rotate(UnitMatrix(u), v))
  {
    hide UnitMatrix;
    TurnedEntries(u);
  }

  lemma {:induction false} RotateByMatrix(u: Quat, v: Vec)
    requires Norm2(u) == 1.0
    ensures Rotate(UnitMatrix(u), v) == RotateVector(u, v)
  {
    hide Rotate, UnitMatrix, RotateByCross, RotateVector, Norm2;
    RotateFirstRow(u, v);
    RotateTurned(u, v);
    TurnedRotation(u, v);
    RotateFirstRow(Turned(u), TurnedVec(v));
    RotateTurned(Turned(u), TurnedVec(v));
    TurnedRotation(Turned(u), TurnedVec(v));
    RotateFirstRow(Turned(Turned(u)), TurnedVec(TurnedVec(v)));
    CrossFormAgreesIff(u);
  }

  // ----- The main results -----

  lemma {:induction false} PositiveRoot(sqrt: real -> real, n: real)
    requires IsSqrt(sqrt) && n > 0.0
    ensures sqrt(n) > 0.0
  {
    FactorsNonZero(sqrt(n), sqrt(n));
  }

  lemma {:induction false} AwayFromReversal(sine: real, c: real)
    requires sine > 0.0 && sine * sine == 1.0 - c * c && -1.0 <= c
    ensures 1.0 + c > 0.0
  {
    if c == -1.0 {
      SquareOf(c, -1.0);
      StrictSquareOrder(0.0, sine);
    }
  }

  lemma {:induction false} SquareOf(c: real, d: real)
    requires c == d
    ensures c * c == d * d
  {
  }

  lemma {:induction false} InverseIsDoubleScale(n: real, c: real, r: real)
    requires n == 2.0 * (1.0 + c) && n > 0.0 && r != 0.0 && r * r == n
    ensures 1.0 / (1.0 + c) * (1.0 + c) == 1.0 && 1.0 / (1.0 + c) == 2.0 * (1.0 / r * (1.0 / r))
  {
    DoubleScale(n, r);
    var (k, d) := (1.0 / (1.0 + c), 1.0 + c);
    assert k * d == 1.0;
    assert 2.0 / n * n == 2.0 && k * n == 2.0 * (k * d);
    CancelFactor(2.0 / n, k, n);
  }

  // Away from the parallel and the opposite direction, the axis-angle matrix is the matrix of a
  // unit quaternion that turns s onto t.
  lemma {:induction false} TurnIsUnit(sqrt: real -> real, s: Vec, t: Vec, sine: real) returns (u: Quat)
    requires IsSqrt(sqrt) && SquaredLength(s) == 1.0 && SquaredLength(t) == 1.0
    requires sine > 0.0 && Square(sine) == 1.0 - Square(Dot(s, t)) && -1.0 <= Dot(s, t)
    ensures Norm2(u) == 1.0 && AxisAngle(Cross(s, t), sine, Dot(s, t)) == UnitMatrix(u)
    ensures Mul(u, Pure(s)) == Mul(Pure(t), u)
  {
    hide SquaredLength, Dot, Cross, Norm2, Mul, HalfWay, AxisAngle, ScaledMatrix, UnitMatrix, Scaled, Pure;
    var (c, q) := (Dot(s, t), HalfWay(s, t));
    HalfWayNorm(s, t);
    AwayFromReversal(sine, c);
    var n := Norm2(q);
    PositiveRoot(sqrt, n);
    var r := sqrt(n);
    InverseIsDoubleScale(n, c, r);
    u := Scaled(q, 1.0 / r);
    ScaledNorm(q, 1.0 / r);
    UnitScale(n, r);
    AxisAngleIsScaled(s, t, sine, 1.0 / (1.0 + c));
    MatrixOfScaled(q, 1.0 / (1.0 + c), 1.0 / r);
    HalfWayTurns(s, t);
    ScaledLeft(q, Pure(s), 1.0 / r);
    ScaledRight(Pure(t), q, 1.0 / r);
  }

  lemma {:induction false} NormalizeVecIsUnit(sqrt: real -> real, v: Vec)
    requires IsSqrt(sqrt) && NormalizeVec(sqrt, v).Some?
    ensures SquaredLength(NormalizeVec(sqrt, v).value) == 1.0
  {
    var n, r := SquaredLength(v), sqrt(SquaredLength(v));
    SquareNonNegative(v.x);
    SquareNonNegative(v.y);
    SquareNonNegative(v.z);
    var k := 1.0 / r;
    UnitScale(n, r);
    DivideIsScale(Pure(v), r);
    ScaledNorm(Pure(v), k);
  }

  /** Between unit vectors, away from the parallel and the reversed direction, the matrix is
      orthonormal with determinant one and turns the source exactly onto the target. */
  lemma {:induction false} TurnsExactly(sqrt: real -> real, s: Vec, t: Vec)
    requires IsSqrt(sqrt) && SquaredLength(s) == 1.0 && SquaredLength(t) == 1.0
    requires sqrt(SquaredLength(Cross(s, t))) > TINY
    ensures var r := RotationBetween(sqrt, s, t); r.Turn? && IsRotation(r.matrix) && Rotate(r.matrix, s) == t
  {
    hide SquaredLength, Dot, Cross, Norm2, Mul, AxisAngle, UnitMatrix, RightHanded, Rotate, RotateVector, Square;
    SineAndCosine(sqrt, s, t);
    var u := TurnIsUnit(sqrt, s, t, sqrt(SquaredLength(Cross(s, t))));
    ConjInverts(u);
    UnitMatrixRightHanded(u);
    UnitMatrixRightHanded(Conj(u));
    TransposeIsConjugate(u);
    IntertwinerRotates(u, s, t);
    RotateByMatrix(u, s);
  }

  function SquaredGap(a: Vec, b: Vec): real {
    (a.x - b.x) * (a.x - b.x) + (a.y - b.y) * (a.y - b.y) + (a.z - b.z) * (a.z - b.z)
  }

  lemma {:induction false} GapFromDot(s: Vec, t: Vec)
    requires SquaredLength(s) == 1.0 && SquaredLength(t) == 1.0
    ensures SquaredGap(s, t) == 2.0 - 2.0 * Dot(s, t)
  {
  }

  lemma {:induction false} SquareBelow(c: real)
    requires 0.0 < c <= 1.0
    ensures Square(c) <= c
  {
    var d := 1.0 - c;
    assert c * (c + d) == c * c + c * d;
    ProductSign(d, c);
  }

  lemma {:induction false} SineBelow(sine: real)
    requires 0.0 <= sine <= TINY
    ensures Square(sine) <= Square(TINY)
  {
    if sine < TINY { StrictSquareOrder(sine, TINY); }
  }

  lemma {:induction false} NearParallel(s: Vec, t: Vec, sine: real)
    requires SquaredLength(s) == 1.0 && SquaredLength(t) == 1.0
    requires 0.0 <= sine <= TINY && Square(sine) == 1.0 - Square(Dot(s, t)) && 0.0 < Dot(s, t) <= 1.0
    ensures SquaredGap(s, t) <= 2.0 * Square(TINY)
  {
    hide SquaredLength, Dot, SquaredGap, Square;
    GapFromDot(s, t);
    SquareBelow(Dot(s, t));
    SineBelow(sine);
  }

  lemma {:induction false} IdentityRotates(v: Vec)
    ensures Rotate(IDENTITY, v) == v
  {
  }

  /** What the levelling rotation is, for every source and target: an error exactly on a zero
      vector or a reversal; otherwise an orthonormal matrix of determinant one that turns the
      normalized source exactly onto the normalized target, or, when the two are already
      parallel up to the threshold, leaves it within the square root of two thresholds. */
  lemma {:induction false} RotationFromToCorrect(sqrt: real -> real, source: Vec, target: Vec)
    requires IsSqrt(sqrt)
    ensures var (s, t) := (NormalizeVec(sqrt, source), NormalizeVec(sqrt, target));
            var r := RotationFromTo(sqrt, source, target);
      && (r.ZeroNormal? <==> s.None? || t.None?)
      && (s.Some? && t.Some? ==>
            var sine := sqrt(SquaredLength(Cross(s.value, t.value)));
            && (r.Reversal? <==> sine <= TINY && Dot(s.value, t.value) <= 0.0)
            && (r.Turn? ==> IsRotation(r.matrix))
            && (r.Turn? && sine > TINY ==> Rotate(r.matrix, s.value) == t.value)
            && (r.Turn? && sine <= TINY ==> SquaredGap(Rotate(r.matrix, s.value), t.value) <= 2.0 * Square(TINY)))
  {
    hide SquaredLength, Dot, Cross, Norm2, AxisAngle, RightHanded, Rotate, NormalizeVec, SquaredGap, Square;
    var (a, b) := (NormalizeVec(sqrt, source), NormalizeVec(sqrt, target));
    if a.Some? && b.Some? {
      var (s, t) := (a.value, b.value);
      NormalizeVecIsUnit(sqrt, source);
      NormalizeVecIsUnit(sqrt, target);
      SineAndCosine(sqrt, s, t);
      var sine := sqrt(SquaredLength(Cross(s, t)));
      IdentityRotates(s);
      IdentityIsRotation();
      if sine > TINY {
        TurnsExactly(sqrt, s, t);
      } else if Dot(s, t) > 0.0 {
        NearParallel(s, t, sine);
      }
    }
  }
}
