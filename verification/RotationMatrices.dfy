/** Rotation matrices of quaternions, and the way back. */
module RotationMatrices {
  import opened Numbers
  import opened Quaternions

  datatype Mat = Mat(m00: real, m01: real, m02: real, m10: real, m11: real, m12: real, m20: real, m21: real, m22: real)

  const IDENTITY: Mat := Mat(1.0, 0.0, 0.0, 0.0, 1.0, 0.0, 0.0, 0.0, 1.0)

  const MIN_SQUARE: real := 0.000000000001

  // The matrix made of the doubled products of the components.
  function MatrixOf(xx: real, yy: real, zz: real, xy: real, xz: real, yz: real, wx: real, wy: real, wz: real): Mat {
    Mat(1.0 - yy - zz, xy - wz, xz + wy,
        xy + wz, 1.0 - xx - zz, yz - wx,
        xz - wy, yz + wx, 1.0 - xx - yy)
  }

  function Entry(a: real, b: real, s: real): real { a * b * s }

  function ScaledMatrix(q: Quat, s: real): Mat {
    MatrixOf(Entry(q.x, q.x, s), Entry(q.y, q.y, s), Entry(q.z, q.z, s),
             Entry(q.x, q.y, s), Entry(q.x, q.z, s), Entry(q.y, q.z, s),
             Entry(q.w, q.x, s), Entry(q.w, q.y, s), Entry(q.w, q.z, s))
  }

  function QuatToMatrix(q: Quat): Mat {
    var n := Norm2(q);
    if n < MIN_SQUARE then IDENTITY
    else
      ScaledMatrix(q, 2.0 / n)
  }

  // None stands for a zero divisor.
  function DivideAll(q: Quat, d: real): Option<Quat> {
    if d == 0.0 then None else Some(Quat(q.x / d, q.y / d, q.z / d, q.w / d))
  }

  function Quotient(a: real, s: real): real { if s == 0.0 then 0.0 else a / s }

  datatype Pivot = W | X | Y | Z

  function ChoosePivot(m: Mat): Pivot {
    if m.m00 + m.m11 + m.m22 > 0.0 then W
    else if m.m00 >= m.m11 && m.m00 >= m.m22 then X
    else if m.m11 >= m.m22 then Y
    else Z
  }

  // Four times the square of the pivot component, on a rotation matrix.
  function PivotTerm(m: Mat, p: Pivot): real {
    match p
    case W => m.m00 + m.m11 + m.m22 + 1.0
    case X => 1.0 + m.m00 - m.m11 - m.m22
    case Y => 1.0 + m.m11 - m.m00 - m.m22
    case Z => 1.0 + m.m22 - m.m00 - m.m11
  }

  function FromPivot(m: Mat, p: Pivot, s: real): Quat {
    match p
    case W => Quat(Quotient(m.m21 - m.m12, s), Quotient(m.m02 - m.m20, s), Quotient(m.m10 - m.m01, s), 0.25 * s)
    case X => Quat(0.25 * s, Quotient(m.m01 + m.m10, s), Quotient(m.m02 + m.m20, s), Quotient(m.m21 - m.m12, s))
    case Y => Quat(Quotient(m.m01 + m.m10, s), 0.25 * s, Quotient(m.m12 + m.m21, s), Quotient(m.m02 - m.m20, s))
    case Z => Quat(Quotient(m.m02 + m.m20, s), Quotient(m.m12 + m.m21, s), 0.25 * s, Quotient(m.m10 - m.m01, s))
  }

  function MatrixToQuat(sqrt: real -> real, m: Mat): Option<Quat> {
    var p := ChoosePivot(m);
    var s := sqrt(PivotTerm(m, p)) * 2.0;
    if s == 0.0 then None
    else
      var q := FromPivot(m, p, s);
      DivideAll(q, sqrt(Norm2(q)))
  }

  // ----- The matrix of a unit quaternion -----

  function UnitMatrix(u: Quat): Mat { ScaledMatrix(u, 2.0) }

  lemma {:induction false} EntryScale(a: real, b: real, c: real, d: real, k: real, s: real)
    requires s == 2.0 * (k * k) && c == a * k && d == b * k
    ensures Entry(a, b, s) == Entry(c, d, 2.0)
  {
  }

  lemma {:induction false} DoubleScale(n: real, r: real)
    requires r != 0.0 && r * r == n && n != 0.0
    ensures 2.0 / n == 2.0 * (1.0 / r * (1.0 / r))
  {
    UnitScale(n, r);
    var h := 1.0 / r * (1.0 / r);
    assert n * h == 1.0;
    assert 2.0 / n * n == 2.0 && 2.0 * h * n == 2.0 * (n * h);
    CancelFactor(2.0 / n, 2.0 * h, n);
  }

  lemma {:induction false} MatrixOfScaled(q: Quat, s: real, k: real)
    requires s == 2.0 * (k * k)
    ensures ScaledMatrix(q, s) == UnitMatrix(Scaled(q, k))
  {
    hide Entry, MatrixOf;
    var u := Scaled(q, k);
    EntryScale(q.x, q.x, u.x, u.x, k, s);
    EntryScale(q.y, q.y, u.y, u.y, k, s);
    EntryScale(q.z, q.z, u.z, u.z, k, s);
    EntryScale(q.x, q.y, u.x, u.y, k, s);
    EntryScale(q.x, q.z, u.x, u.z, k, s);
    EntryScale(q.y, q.z, u.y, u.z, k, s);
    EntryScale(q.w, q.x, u.w, u.x, k, s);
    EntryScale(q.w, q.y, u.w, u.y, k, s);
    EntryScale(q.w, q.z, u.w, u.z, k, s);
  }

  // A quaternion and its unit have the same matrix.
  lemma {:induction false} MatrixOfUnit(sqrt: real -> real, q: Quat) returns (u: Quat)
    requires IsSqrt(sqrt) && Norm2(q) >= MIN_SQUARE
    ensures Norm2(u) == 1.0 && QuatToMatrix(q) == UnitMatrix(u)
    ensures DivideAll(q, sqrt(Norm2(q))) == Some(u)
  {
    hide Norm2, UnitMatrix, ScaledMatrix;
    var n, r := Norm2(q), sqrt(Norm2(q));
    assert r != 0.0;
    u := Scaled(q, 1.0 / r);
    ScaledNorm(q, 1.0 / r);
    UnitScale(n, r);
    DoubleScale(n, r);
    MatrixOfScaled(q, 2.0 / n, 1.0 / r);
    DivideIsScale(q, r);
  }

  // ----- The matrix is a rotation -----

  function Dot(a: Vec, b: Vec): real { a.x * b.x + a.y * b.y + a.z * b.z }

  function Cross(a: Vec, b: Vec): Vec { Vec(a.y * b.z - a.z * b.y, a.z * b.x - a.x * b.z, a.x * b.y - a.y * b.x) }

  function Column(m: Mat, i: int): Vec
    requires 0 <= i < 3
  {
    if i == 0 then Vec(m.m00, m.m10, m.m20) else if i == 1 then Vec(m.m01, m.m11, m.m21) else Vec(m.m02, m.m12, m.m22)
  }

  function Transposed(m: Mat): Mat { Mat(m.m00, m.m10, m.m20, m.m01, m.m11, m.m21, m.m02, m.m12, m.m22) }

  // Perpendicular unit columns, the third one being the cross product of the first two.
  predicate RightHanded(m: Mat) {
    var (a, b, c) := (Column(m, 0), Column(m, 1), Column(m, 2));
    && Dot(a, a) == 1.0 && Dot(b, b) == 1.0 && Dot(c, c) == 1.0
    && Dot(a, b) == 0.0 && Dot(b, c) == 0.0 && Dot(c, a) == 0.0
    && Cross(a, b) == c
  }

  /** An orthonormal matrix of determinant one. */
  predicate IsRotation(m: Mat) { RightHanded(m) && RightHanded(Transposed(m)) }

  const E0: Vec := Vec(1.0, 0.0, 0.0)
  const E1: Vec := Vec(0.0, 1.0, 0.0)
  const E2: Vec := Vec(0.0, 0.0, 1.0)

  lemma {:induction false} ColumnsAreRotated(u: Quat)
    ensures Column(UnitMatrix(u), 0) == RotateByCross(u, E0)
    ensures Column(UnitMatrix(u), 1) == RotateByCross(u, E1)
    ensures Column(UnitMatrix(u), 2) == RotateByCross(u, E2)
  {
  }

  lemma {:induction false} PureProduct(a: Vec, b: Vec)
    ensures Mul(Pure(a), Pure(b)) == Quat(Cross(a, b).x, Cross(a, b).y, Cross(a, b).z, -Dot(a, b))
  {
    hide Mul;
    Components(Pure(a), Pure(b));
  }

  // The product of two rotated vectors is the rotated product.
  lemma {:induction false} ProductOfRotated(u: Quat, a: Vec, b: Vec)
    requires Norm2(u) == 1.0
    ensures Mul(Pure(RotateVector(u, a)), Pure(RotateVector(u, b))) == Mul(Mul(u, Mul(Pure(a), Pure(b))), Conj(u))
  {
    hide Mul, Conj, Norm2, RotateVector, Pure;
    SandwichIsPure(u, a);
    SandwichIsPure(u, b);
    var (p, q) := (Pure(a), Pure(b));
    ConjInverts(u);
    calc {
      Mul(Mul(Mul(u, p), Conj(u)), Mul(Mul(u, q), Conj(u)));
      { MulAssociative(Mul(Mul(u, p), Conj(u)), Mul(u, q), Conj(u)); }
      Mul(Mul(Mul(Mul(u, p), Conj(u)), Mul(u, q)), Conj(u));
      { MulAssociative(Mul(u, p), Conj(u), Mul(u, q)); MulAssociative(Conj(u), u, q); OneIsUnit(q); }
      Mul(Mul(Mul(u, p), q), Conj(u));
      { MulAssociative(u, p, q); }
      Mul(Mul(u, Mul(p, q)), Conj(u));
    }
  }

  lemma {:induction false} RotatedLength(u: Quat, a: Vec)
    requires Norm2(u) == 1.0 && Dot(a, a) == 1.0 && Cross(a, a) == Vec(0.0, 0.0, 0.0)
    ensures Dot(RotateVector(u, a), RotateVector(u, a)) == 1.0
  {
    hide Mul, Conj, Norm2, RotateVector, Dot, Cross;
    ProductOfRotated(u, a, a);
    PureProduct(a, a);
    PureProduct(RotateVector(u, a), RotateVector(u, a));
    RealPartOfConjugation(u, Mul(Pure(a), Pure(a)));
  }

  lemma {:induction false} RotatedPair(u: Quat, a: Vec, b: Vec, c: Vec)
    requires Norm2(u) == 1.0 && Dot(a, b) == 0.0 && Cross(a, b) == c
    ensures Dot(RotateVector(u, a), RotateVector(u, b)) == 0.0
    ensures Cross(RotateVector(u, a), RotateVector(u, b)) == RotateVector(u, c)
  {
    hide Mul, Conj, Norm2, RotateVector, Dot, Cross;
    ProductOfRotated(u, a, b);
    PureProduct(a, b);
    PureProduct(RotateVector(u, a), RotateVector(u, b));
    SandwichIsPure(u, c);
  }

  // Products of vectors with known components.
  lemma {:induction false} ProductsOf(a: Vec, b: Vec, x: real, y: real, z: real, p: real, q: real, r: real)
    requires a == Vec(x, y, z) && b == Vec(p, q, r)
    ensures Dot(a, b) == x * p + y * q + z * r
    ensures Cross(a, b) == Vec(y * r - z * q, z * p - x * r, x * q - y * p)
  {
  }

  lemma {:induction false} AxesAreRightHanded()
    ensures Dot(E0, E0) == 1.0 && Dot(E1, E1) == 1.0 && Dot(E2, E2) == 1.0
    ensures Dot(E0, E1) == 0.0 && Dot(E1, E2) == 0.0 && Dot(E2, E0) == 0.0
    ensures Cross(E0, E1) == E2 && Cross(E1, E2) == E0 && Cross(E2, E0) == E1
    ensures Cross(E0, E0) == Cross(E1, E1) == Cross(E2, E2) == Vec(0.0, 0.0, 0.0)
  {
    hide Dot, Cross;
    ProductsOf(E0, E0, 1.0, 0.0, 0.0, 1.0, 0.0, 0.0);
    ProductsOf(E1, E1, 0.0, 1.0, 0.0, 0.0, 1.0, 0.0);
    ProductsOf(E2, E2, 0.0, 0.0, 1.0, 0.0, 0.0, 1.0);
    ProductsOf(E0, E1, 1.0, 0.0, 0.0, 0.0, 1.0, 0.0);
    ProductsOf(E1, E2, 0.0, 1.0, 0.0, 0.0, 0.0, 1.0);
    ProductsOf(E2, E0, 0.0, 0.0, 1.0, 1.0, 0.0, 0.0);
  }

  lemma {:induction false} UnitMatrixRightHanded(u: Quat)
    requires Norm2(u) == 1.0
    ensures RightHanded(UnitMatrix(u))
  {
    hide Norm2, RotateVector, RotateByCross, Dot, Cross, UnitMatrix;
    ColumnsAreRotated(u);
    CrossFormAgreesIff(u);
    AxesAreRightHanded();
    RotatedLength(u, E0);
    RotatedLength(u, E1);
    RotatedLength(u, E2);
    RotatedPair(u, E0, E1, E2);
    RotatedPair(u, E1, E2, E0);
    RotatedPair(u, E2, E0, E1);
  }

  lemma {:induction false} TransposeIsConjugate(u: Quat)
    ensures Transposed(UnitMatrix(u)) == UnitMatrix(Conj(u))
  {
  }

  lemma {:induction false} IdentityOfOne()
    ensures UnitMatrix(ONE) == IDENTITY && Norm2(ONE) == 1.0
  {
  }

  lemma {:induction false} IdentityIsRotation()
    ensures IsRotation(IDENTITY)
  {
    hide UnitMatrix, RightHanded, Norm2;
    IdentityOfOne();
    ConjInverts(ONE);
    UnitMatrixRightHanded(ONE);
    UnitMatrixRightHanded(Conj(ONE));
    TransposeIsConjugate(ONE);
  }

  lemma {:induction false} TinyGivesIdentity(q: Quat)
    requires Norm2(q) < MIN_SQUARE
    ensures QuatToMatrix(q) == IDENTITY
  {
  }

  /** The matrix of every quaternion, nearly zero ones included, is orthonormal with determinant
      one. */
  lemma {:induction false} MatrixIsRotation(sqrt: real -> real, q: Quat)
    requires IsSqrt(sqrt)
    ensures IsRotation(QuatToMatrix(q))
  {
    hide Norm2, UnitMatrix, RightHanded, QuatToMatrix;
    IdentityOfOne();
    var u := ONE;
    if Norm2(q) >= MIN_SQUARE { u := MatrixOfUnit(sqrt, q); } else { TinyGivesIdentity(q); }
    ConjInverts(u);
    UnitMatrixRightHanded(u);
    UnitMatrixRightHanded(Conj(u));
    TransposeIsConjugate(u);
  }

  // ----- And back -----

  function PivotOf(u: Quat, p: Pivot): real {
    match p case W => u.w case X => u.x case Y => u.y case Z => u.z
  }

  // The unit quaternion whose pivot component is positive.
  function Signed(u: Quat, pivot: real): Quat { if pivot >= 0.0 then u else Negated(u) }

  lemma {:induction false} PivotSquares(u: Quat)
    requires Norm2(u) == 1.0
    ensures forall p :: PivotTerm(UnitMatrix(u), p) == 4.0 * (PivotOf(u, p) * PivotOf(u, p))
  {
  }

  lemma {:induction false} Diagonal(u: Quat)
    ensures var m := UnitMatrix(u);
      && m.m00 == 1.0 - 2.0 * (u.y * u.y) - 2.0 * (u.z * u.z)
      && m.m11 == 1.0 - 2.0 * (u.x * u.x) - 2.0 * (u.z * u.z)
      && m.m22 == 1.0 - 2.0 * (u.x * u.x) - 2.0 * (u.y * u.y)
  {
  }

  lemma {:induction false} PivotPositive(m: Mat, x2: real, y2: real, z2: real, w2: real)
    requires x2 >= 0.0 && y2 >= 0.0 && z2 >= 0.0 && w2 >= 0.0 && x2 + y2 + z2 + w2 == 1.0
    requires m.m00 == 1.0 - 2.0 * y2 - 2.0 * z2 && m.m11 == 1.0 - 2.0 * x2 - 2.0 * z2 && m.m22 == 1.0 - 2.0 * x2 - 2.0 * y2
    ensures match ChoosePivot(m) case W => w2 > 0.0 case X => x2 > 0.0 case Y => y2 > 0.0 case Z => z2 > 0.0
  {
  }

  // The chosen pivot is never zero.
  lemma {:induction false} PivotNonZero(u: Quat)
    requires Norm2(u) == 1.0
    ensures PivotOf(u, ChoosePivot(UnitMatrix(u))) != 0.0
  {
    hide UnitMatrix, ChoosePivot;
    Diagonal(u);
    SquareNonNegative(u.x);
    SquareNonNegative(u.y);
    SquareNonNegative(u.z);
    SquareNonNegative(u.w);
    PivotPositive(UnitMatrix(u), u.x * u.x, u.y * u.y, u.z * u.z, u.w * u.w);
  }

  lemma {:induction false} SquareNonNegative(x: real)
    ensures x * x >= 0.0 && (x * x > 0.0 ==> x != 0.0)
  {
  }

  lemma {:induction false} PivotRoot(sqrt: real -> real, t: real, p: real)
    requires IsSqrt(sqrt) && t == 4.0 * (p * p)
    ensures sqrt(t) * 2.0 == 4.0 * Abs(p)
  {
    var d := 2.0 * Abs(p);
    assert Abs(p) * Abs(p) == p * p;
    assert d * d == t;
    SqrtIs(sqrt, t, d);
  }

  lemma {:induction false} PivotRatio(p: real, x: real, a: real)
    requires p != 0.0 && a == 4.0 * (p * x)
    ensures Quotient(a, 4.0 * Abs(p)) == if p >= 0.0 then x else -x
  {
    var (d, r) := (4.0 * Abs(p), if p >= 0.0 then x else -x);
    assert r * d == a;
    assert a / d * d == a;
    CancelFactor(a / d, r, d);
  }

  lemma {:induction false} Numerators(u: Quat)
    ensures var m := UnitMatrix(u);
      && m.m21 - m.m12 == 4.0 * (u.w * u.x) && m.m02 - m.m20 == 4.0 * (u.w * u.y) && m.m10 - m.m01 == 4.0 * (u.w * u.z)
      && m.m01 + m.m10 == 4.0 * (u.x * u.y) && m.m02 + m.m20 == 4.0 * (u.x * u.z) && m.m12 + m.m21 == 4.0 * (u.y * u.z)
  {
  }

  lemma {:induction false} FromPivotIsSigned(u: Quat, p: Pivot)
    requires PivotOf(u, p) != 0.0
    ensures FromPivot(UnitMatrix(u), p, 4.0 * Abs(PivotOf(u, p))) == Signed(u, PivotOf(u, p))
  {
    hide UnitMatrix, Quotient;
    var m := UnitMatrix(u);
    Numerators(u);
    match p
    case W =>
      PivotRatio(u.w, u.x, m.m21 - m.m12);
      PivotRatio(u.w, u.y, m.m02 - m.m20);
      PivotRatio(u.w, u.z, m.m10 - m.m01);
    case X =>
      PivotRatio(u.x, u.y, m.m01 + m.m10);
      PivotRatio(u.x, u.z, m.m02 + m.m20);
      PivotRatio(u.x, u.w, m.m21 - m.m12);
    case Y =>
      PivotRatio(u.y, u.x, m.m01 + m.m10);
      PivotRatio(u.y, u.z, m.m12 + m.m21);
      PivotRatio(u.y, u.w, m.m02 - m.m20);
    case Z =>
      PivotRatio(u.z, u.x, m.m02 + m.m20);
      PivotRatio(u.z, u.y, m.m12 + m.m21);
      PivotRatio(u.z, u.w, m.m10 - m.m01);
  }

  lemma {:induction false} SignedIsUnit(u: Quat, pivot: real)
    requires Norm2(u) == 1.0
    ensures Norm2(Signed(u, pivot)) == 1.0
  {
  }

  lemma {:induction false} DivideByOne(sqrt: real -> real, q: Quat)
    requires IsSqrt(sqrt) && Norm2(q) == 1.0
    ensures DivideAll(q, sqrt(Norm2(q))) == Some(q)
  {
    hide Norm2;
    SqrtIs(sqrt, 1.0, 1.0);
  }

  lemma {:induction false} UnitRoundTrip(sqrt: real -> real, u: Quat)
    requires IsSqrt(sqrt) && Norm2(u) == 1.0
    ensures MatrixToQuat(sqrt, UnitMatrix(u)) == Some(Signed(u, PivotOf(u, ChoosePivot(UnitMatrix(u)))))
  {
    hide UnitMatrix, Norm2, ChoosePivot, PivotTerm, PivotOf, FromPivot, Signed, DivideAll;
    var m := UnitMatrix(u);
    var p := ChoosePivot(m);
    var pivot := PivotOf(u, p);
    PivotSquares(u);
    PivotNonZero(u);
    PivotRoot(sqrt, PivotTerm(m, p), pivot);
    FromPivotIsSigned(u, p);
    SignedIsUnit(u, pivot);
    DivideByOne(sqrt, Signed(u, pivot));
  }

  /** The round trip: through all four branches, with no zero divisor, the quaternion of the matrix
      of a quaternion is that quaternion divided by its norm, or the opposite; and the matrix of
      the result is the matrix again. */
  lemma {:induction false} RoundTrip(sqrt: real -> real, q: Quat)
    requires IsSqrt(sqrt) && Norm2(q) >= MIN_SQUARE
    ensures var (r, u) := (MatrixToQuat(sqrt, QuatToMatrix(q)), DivideAll(q, sqrt(Norm2(q))));
            && r.Some? && u.Some? && (r.value == u.value || r.value == Negated(u.value))
            && QuatToMatrix(r.value) == QuatToMatrix(q)
  {
    hide Norm2, UnitMatrix, QuatToMatrix, MatrixToQuat, DivideAll;
    var u := MatrixOfUnit(sqrt, q);
    UnitRoundTrip(sqrt, u);
    var s := Signed(u, PivotOf(u, ChoosePivot(UnitMatrix(u))));
    SignedIsUnit(u, PivotOf(u, ChoosePivot(UnitMatrix(u))));
    UnitKeepsMatrix(s);
    SignedKeepsMatrix(u, PivotOf(u, ChoosePivot(UnitMatrix(u))));
  }

  lemma {:induction false} UnitKeepsMatrix(u: Quat)
    requires Norm2(u) == 1.0
    ensures QuatToMatrix(u) == UnitMatrix(u)
  {
    hide Norm2;
    MatrixOfScaled(u, 2.0, 1.0);
    assert Scaled(u, 1.0) == u;
  }

  lemma {:induction false} SignedKeepsMatrix(u: Quat, pivot: real)
    ensures UnitMatrix(Signed(u, pivot)) == UnitMatrix(u)
  {
  }
}
