/** Rigid-motion algebra over the reals: quaternion products, composition of poses, and the
    round trip between quaternions and rotation matrices. */
module Quaternions {
  import opened Numbers

  datatype Quat = Quat(x: real, y: real, z: real, w: real)

  datatype Vec = Vec(x: real, y: real, z: real)

  const ONE: Quat := Quat(0.0, 0.0, 0.0, 1.0)

  function Norm2(q: Quat): real { q.x * q.x + q.y * q.y + q.z * q.z + q.w * q.w }

  function Mul(l: Quat, r: Quat): Quat {
    Quat(l.w * r.x + l.x * r.w + l.y * r.z - l.z * r.y,
         l.w * r.y - l.x * r.z + l.y * r.w + l.z * r.x,
         l.w * r.z + l.x * r.y - l.y * r.x + l.z * r.w,
         l.w * r.w - l.x * r.x - l.y * r.y - l.z * r.z)
  }

  function Conj(q: Quat): Quat { Quat(-q.x, -q.y, -q.z, q.w) }

  function Negated(q: Quat): Quat { Quat(-q.x, -q.y, -q.z, -q.w) }

  function Scaled(q: Quat, k: real): Quat { Quat(q.x * k, q.y * k, q.z * k, q.w * k) }

  function Pure(v: Vec): Quat { Quat(v.x, v.y, v.z, 0.0) }

  function Sum(a: Vec, b: Vec): Vec { Vec(a.x + b.x, a.y + b.y, a.z + b.z) }

  function Opposite(v: Vec): Vec { Vec(-v.x, -v.y, -v.z) }

  function Sandwich(q: Quat, v: Vec): Quat { Mul(Mul(q, Pure(v)), Conj(q)) }

  // Rotation as the product q v q*.
  function RotateVector(q: Quat, v: Vec): Vec {
    var r := Sandwich(q, v);
    Vec(r.x, r.y, r.z)
  }

  // Rotation by two cross products, as the relay computes it.
  function RotateByCross(q: Quat, v: Vec): Vec {
    var tx := 2.0 * (q.y * v.z - q.z * v.y);
    var ty := 2.0 * (q.z * v.x - q.x * v.z);
    var tz := 2.0 * (q.x * v.y - q.y * v.x);
    Vec(v.x + q.w * tx + q.y * tz - q.z * ty,
        v.y + q.w * ty + q.z * tx - q.x * tz,
        v.z + q.w * tz + q.x * ty - q.y * tx)
  }

  const MIN_NORM: real := 0.000000000001

  // None stands for the error on a zero-length quaternion.
  function Normalize(sqrt: real -> real, q: Quat): Option<Quat> {
    var norm := sqrt(Norm2(q));
    if norm < MIN_NORM then None else Some(Quat(q.x / norm, q.y / norm, q.z / norm, q.w / norm))
  }

  datatype Motion = Motion(at: Vec, rotation: Quat)

  // The pose of a frame given in another frame.
  function Compose(outer: Motion, inner: Motion): Motion {
    Motion(Sum(outer.at, RotateVector(outer.rotation, inner.at)), Mul(outer.rotation, inner.rotation))
  }

  function ComposeWorldBase(sqrt: real -> real, worldLidar: Motion, baseLidar: Motion): Option<Motion> {
    var w, b := Normalize(sqrt, worldLidar.rotation), Normalize(sqrt, baseLidar.rotation);
    if w.None? || b.None? then None
    else
      var lidarBase := Conj(b.value);
      var lidarBaseAt := RotateVector(lidarBase, Opposite(baseLidar.at));
      var worldBase := Normalize(sqrt, Mul(w.value, lidarBase));
      if worldBase.None? then None
      else Some(Motion(Sum(worldLidar.at, RotateVector(w.value, lidarBaseAt)), worldBase.value))
  }

  // ----- Quaternion algebra -----

  // Polynomial identities are proved one component at a time, on explicit components; the other
  // two imaginary components follow by turning the axes.

  lemma {:induction false} Components(l: Quat, r: Quat)
    ensures Mul(l, r).x == l.w * r.x + l.x * r.w + l.y * r.z - l.z * r.y
    ensures Mul(l, r).y == l.w * r.y - l.x * r.z + l.y * r.w + l.z * r.x
    ensures Mul(l, r).z == l.w * r.z + l.x * r.y - l.y * r.x + l.z * r.w
    ensures Mul(l, r).w == l.w * r.w - l.x * r.x - l.y * r.y - l.z * r.z
  {
  }

  function Turned(q: Quat): Quat { Quat(q.y, q.z, q.x, q.w) }

  lemma {:induction false} AssociativeX(a: Quat, b: Quat, c: Quat, m: Quat, n: Quat)
    requires m.x == a.w * b.x + a.x * b.w + a.y * b.z - a.z * b.y
    requires m.y == a.w * b.y - a.x * b.z + a.y * b.w + a.z * b.x
    requires m.z == a.w * b.z + a.x * b.y - a.y * b.x + a.z * b.w
    requires m.w == a.w * b.w - a.x * b.x - a.y * b.y - a.z * b.z
    requires n.x == b.w * c.x + b.x * c.w + b.y * c.z - b.z * c.y
    requires n.y == b.w * c.y - b.x * c.z + b.y * c.w + b.z * c.x
    requires n.z == b.w * c.z + b.x * c.y - b.y * c.x + b.z * c.w
    requires n.w == b.w * c.w - b.x * c.x - b.y * c.y - b.z * c.z
    ensures m.w * c.x + m.x * c.w + m.y * c.z - m.z * c.y == a.w * n.x + a.x * n.w + a.y * n.z - a.z * n.y
  {
  }

  lemma {:induction false} AssociativeW(a: Quat, b: Quat, c: Quat, m: Quat, n: Quat)
    requires m.x == a.w * b.x + a.x * b.w + a.y * b.z - a.z * b.y
    requires m.y == a.w * b.y - a.x * b.z + a.y * b.w + a.z * b.x
    requires m.z == a.w * b.z + a.x * b.y - a.y * b.x + a.z * b.w
    requires m.w == a.w * b.w - a.x * b.x - a.y * b.y - a.z * b.z
    requires n.x == b.w * c.x + b.x * c.w + b.y * c.z - b.z * c.y
    requires n.y == b.w * c.y - b.x * c.z + b.y * c.w + b.z * c.x
    requires n.z == b.w * c.z + b.x * c.y - b.y * c.x + b.z * c.w
    requires n.w == b.w * c.w - b.x * c.x - b.y * c.y - b.z * c.z
    ensures m.w * c.w - m.x * c.x - m.y * c.y - m.z * c.z == a.w * n.w - a.x * n.x - a.y * n.y - a.z * n.z
  {
  }

  lemma {:induction false} TurnedProduct(a: Quat, b: Quat)
    ensures Mul(Turned(a), Turned(b)) == Turned(Mul(a, b))
  {
    hide Mul;
    Components(a, b);
    Components(Turned(a), Turned(b));
  }

  lemma {:induction false} MulAssociativeX(a: Quat, b: Quat, c: Quat)
    ensures Mul(Mul(a, b), c).x == Mul(a, Mul(b, c)).x
  {
    hide Mul;
    var (m, n) := (Mul(a, b), Mul(b, c));
    Components(a, b);
    Components(b, c);
    Components(m, c);
    Components(a, n);
    AssociativeX(a, b, c, m, n);
  }

  lemma {:induction false} MulAssociativeW(a: Quat, b: Quat, c: Quat)
    ensures Mul(Mul(a, b), c).w == Mul(a, Mul(b, c)).w
  {
    hide Mul;
    var (m, n) := (Mul(a, b), Mul(b, c));
    Components(a, b);
    Components(b, c);
    Components(m, c);
    Components(a, n);
    AssociativeW(a, b, c, m, n);
  }

  lemma {:induction false} MulAssociativeTurned(a: Quat, b: Quat, c: Quat)
    ensures Turned(Mul(Mul(a, b), c)).x == Turned(Mul(a, Mul(b, c))).x
  {
    hide Mul, Turned;
    TurnedProduct(a, b);
    TurnedProduct(b, c);
    TurnedProduct(Mul(a, b), c);
    TurnedProduct(a, Mul(b, c));
    MulAssociativeX(Turned(a), Turned(b), Turned(c));
  }

  lemma {:induction false} MulAssociative(a: Quat, b: Quat, c: Quat)
    ensures Mul(Mul(a, b), c) == Mul(a, Mul(b, c))
  {
    hide Mul;
    MulAssociativeX(a, b, c);
    MulAssociativeTurned(a, b, c);
    TurnedProduct(a, b);
    TurnedProduct(b, c);
    TurnedProduct(Mul(a, b), c);
    TurnedProduct(a, Mul(b, c));
    MulAssociativeTurned(Turned(a), Turned(b), Turned(c));
    MulAssociativeW(a, b, c);
  }

  lemma {:induction false} ConjugateX(a: Quat, b: Quat, p: Quat, q: Quat)
    requires p.x == -a.x && p.y == -a.y && p.z == -a.z && p.w == a.w
    requires q.x == -b.x && q.y == -b.y && q.z == -b.z && q.w == b.w
    ensures q.w * p.x + q.x * p.w + q.y * p.z - q.z * p.y == -(a.w * b.x + a.x * b.w + a.y * b.z - a.z * b.y)
    ensures q.w * p.w - q.x * p.x - q.y * p.y - q.z * p.z == a.w * b.w - a.x * b.x - a.y * b.y - a.z * b.z
  {
  }

  lemma {:induction false} ConjOfMul(a: Quat, b: Quat)
    ensures Conj(Mul(a, b)) == Mul(Conj(b), Conj(a))
  {
    hide Mul;
    Components(a, b);
    Components(Conj(b), Conj(a));
    ConjugateX(a, b, Conj(a), Conj(b));
    ConjugateX(Turned(a), Turned(b), Turned(Conj(a)), Turned(Conj(b)));
    ConjugateX(Turned(Turned(a)), Turned(Turned(b)), Turned(Turned(Conj(a))), Turned(Turned(Conj(b))));
  }

  lemma {:induction false} ConjInverts(q: Quat)
    requires Norm2(q) == 1.0
    ensures Mul(q, Conj(q)) == ONE && Mul(Conj(q), q) == ONE && Norm2(Conj(q)) == 1.0
  {
  }

  lemma {:induction false} OneIsUnit(q: Quat)
    ensures Mul(q, ONE) == q && Mul(ONE, q) == q
  {
  }

  lemma {:induction false} InverseGivesNorm(q: Quat)
    requires Mul(q, Conj(q)) == ONE
    ensures Norm2(q) == 1.0
  {
  }

  // A product of unit quaternions is a unit quaternion.
  lemma {:induction false} UnitProduct(a: Quat, b: Quat)
    requires Norm2(a) == 1.0 && Norm2(b) == 1.0
    ensures Norm2(Mul(a, b)) == 1.0
  {
    hide Mul, Conj, Norm2;
    ConjOfMul(a, b);
    ConjInverts(a);
    ConjInverts(b);
    calc {
      Mul(Mul(a, b), Mul(Conj(b), Conj(a)));
      { MulAssociative(Mul(a, b), Conj(b), Conj(a)); }
      Mul(Mul(Mul(a, b), Conj(b)), Conj(a));
      { MulAssociative(a, b, Conj(b)); OneIsUnit(a); }
      ONE;
    }
    InverseGivesNorm(Mul(a, b));
  }

  // The real part of q v q* is the real part of v, times the squared norm.
  lemma {:induction false} SandwichRealPart(q: Quat, v: Quat, m: Quat, n: real)
    requires m.x == q.w * v.x + q.x * v.w + q.y * v.z - q.z * v.y
    requires m.y == q.w * v.y - q.x * v.z + q.y * v.w + q.z * v.x
    requires m.z == q.w * v.z + q.x * v.y - q.y * v.x + q.z * v.w
    requires m.w == q.w * v.w - q.x * v.x - q.y * v.y - q.z * v.z
    requires n == q.x * q.x + q.y * q.y + q.z * q.z + q.w * q.w
    ensures m.w * q.w + m.x * q.x + m.y * q.y + m.z * q.z == n * v.w
  {
  }

  lemma {:induction false} ConjugateOnRight(m: Quat, q: Quat, p: Quat)
    requires p.x == -q.x && p.y == -q.y && p.z == -q.z && p.w == q.w
    ensures m.w * p.w - m.x * p.x - m.y * p.y - m.z * p.z == m.w * q.w + m.x * q.x + m.y * q.y + m.z * q.z
    ensures m.w * p.x + m.x * p.w + m.y * p.z - m.z * p.y == -(m.w * q.x) + m.x * q.w - m.y * q.z + m.z * q.y
  {
  }

  lemma {:induction false} RealPartOfConjugation(q: Quat, v: Quat)
    ensures Mul(Mul(q, v), Conj(q)).w == Norm2(q) * v.w
  {
    hide Mul;
    var m := Mul(q, v);
    Components(q, v);
    Components(m, Conj(q));
    ConjugateOnRight(m, q, Conj(q));
    SandwichRealPart(q, v, m, Norm2(q));
  }

  lemma {:induction false} SandwichIsPure(q: Quat, v: Vec)
    ensures Sandwich(q, v) == Pure(RotateVector(q, v))
  {
    hide Mul, Norm2, Conj;
    RealPartOfConjugation(q, Pure(v));
  }

  lemma {:induction false} NegatedFactor(l: Quat, r: Quat, n: Quat)
    requires n.x == -r.x && n.y == -r.y && n.z == -r.z && n.w == -r.w
    ensures l.w * n.x + l.x * n.w + l.y * n.z - l.z * n.y == -(l.w * r.x + l.x * r.w + l.y * r.z - l.z * r.y)
    ensures l.w * n.y - l.x * n.z + l.y * n.w + l.z * n.x == -(l.w * r.y - l.x * r.z + l.y * r.w + l.z * r.x)
    ensures l.w * n.z + l.x * n.y - l.y * n.x + l.z * n.w == -(l.w * r.z + l.x * r.y - l.y * r.x + l.z * r.w)
    ensures l.w * n.w - l.x * n.x - l.y * n.y - l.z * n.z == -(l.w * r.w - l.x * r.x - l.y * r.y - l.z * r.z)
  {
  }

  lemma {:induction false} NegatedRight(l: Quat, r: Quat)
    ensures Mul(l, Negated(r)) == Negated(Mul(l, r))
  {
    hide Mul;
    Components(l, r);
    Components(l, Negated(r));
    NegatedFactor(l, r, Negated(r));
  }

  lemma {:induction false} NegatedLeft(l: Quat, r: Quat)
    ensures Mul(Negated(l), r) == Negated(Mul(l, r))
  {
    hide Mul;
    ConjOfMul(l, r);
    ConjOfMul(Negated(l), r);
    assert Conj(Negated(l)) == Negated(Conj(l));
    NegatedRight(Conj(r), Conj(l));
    assert Conj(Mul(Negated(l), r)) == Negated(Conj(Mul(l, r))) == Conj(Negated(Mul(l, r)));
  }

  // Rotation is odd: it takes opposite vectors to opposite vectors.
  lemma {:induction false} RotateOpposite(q: Quat, v: Vec)
    ensures RotateVector(q, Opposite(v)) == Opposite(RotateVector(q, v))
  {
    hide Mul;
    assert Pure(Opposite(v)) == Negated(Pure(v));
    NegatedRight(q, Pure(v));
    NegatedLeft(Mul(q, Pure(v)), Conj(q));
  }

  /** Rotating by a product is rotating twice. */
  lemma {:induction false} RotateByProduct(a: Quat, b: Quat, v: Vec)
    ensures RotateVector(Mul(a, b), v) == RotateVector(a, RotateVector(b, v))
  {
    hide Mul, Conj;
    SandwichIsPure(b, v);
    ConjOfMul(a, b);
    var p := Pure(v);
    calc {
      Sandwich(Mul(a, b), v);
      Mul(Mul(Mul(a, b), p), Mul(Conj(b), Conj(a)));
      { MulAssociative(a, b, p); }
      Mul(Mul(a, Mul(b, p)), Mul(Conj(b), Conj(a)));
      { MulAssociative(Mul(a, Mul(b, p)), Conj(b), Conj(a)); }
      Mul(Mul(Mul(a, Mul(b, p)), Conj(b)), Conj(a));
      { MulAssociative(a, Mul(b, p), Conj(b)); }
      Mul(Mul(a, Mul(Mul(b, p), Conj(b))), Conj(a));
    }
  }

  // ----- The two forms of a rotation -----

  // The first component of m q*.
  function TimesConjugateX(m: Quat, q: Quat): real { -(m.w * q.x) + m.x * q.w - m.y * q.z + m.z * q.y }

  lemma {:induction false} RotatedIsProduct(q: Quat, v: Vec)
    ensures RotateVector(q, v).x == TimesConjugateX(Mul(q, Pure(v)), q)
  {
    hide Mul;
    var m := Mul(q, Pure(v));
    Components(m, Conj(q));
    ConjugateOnRight(m, q, Conj(q));
  }

  lemma {:induction false} CrossFormX(q: Quat, v: Vec, m: Quat, n: real, ty: real, tz: real)
    requires m.x == q.w * v.x + q.y * v.z - q.z * v.y
    requires m.y == q.w * v.y - q.x * v.z + q.z * v.x
    requires m.z == q.w * v.z + q.x * v.y - q.y * v.x
    requires m.w == -(q.x * v.x) - q.y * v.y - q.z * v.z
    requires n == q.x * q.x + q.y * q.y + q.z * q.z + q.w * q.w
    requires ty == 2.0 * (q.z * v.x - q.x * v.z) && tz == 2.0 * (q.x * v.y - q.y * v.x)
    ensures -(m.w * q.x) + m.x * q.w - m.y * q.z + m.z * q.y ==
            v.x + q.w * (2.0 * (q.y * v.z - q.z * v.y)) + q.y * tz - q.z * ty + (n - 1.0) * v.x
  {
  }

  lemma {:induction false} PureComponents(q: Quat, v: Vec)
    ensures var m := Mul(q, Pure(v));
      && m.x == q.w * v.x + q.y * v.z - q.z * v.y && m.y == q.w * v.y - q.x * v.z + q.z * v.x
      && m.z == q.w * v.z + q.x * v.y - q.y * v.x && m.w == -(q.x * v.x) - q.y * v.y - q.z * v.z
  {
  }

  lemma {:induction false} ProductIsCross(q: Quat, v: Vec)
    ensures TimesConjugateX(Mul(q, Pure(v)), q) == RotateByCross(q, v).x + (Norm2(q) - 1.0) * v.x
  {
    hide Mul, TimesConjugateX, RotateByCross, Norm2;
    var (m, ty, tz) := (Mul(q, Pure(v)), 2.0 * (q.z * v.x - q.x * v.z), 2.0 * (q.x * v.y - q.y * v.x));
    PureComponents(q, v);
    NormIs(q);
    TimesConjugateIs(m, q);
    CrossIs(q, v);
    CrossFormX(q, v, m, Norm2(q), ty, tz);
  }

  lemma {:induction false} NormIs(q: Quat)
    ensures Norm2(q) == q.x * q.x + q.y * q.y + q.z * q.z + q.w * q.w
  {
  }

  lemma {:induction false} TimesConjugateIs(m: Quat, q: Quat)
    ensures TimesConjugateX(m, q) == -(m.w * q.x) + m.x * q.w - m.y * q.z + m.z * q.y
  {
  }

  lemma {:induction false} CrossIs(q: Quat, v: Vec)
    ensures RotateByCross(q, v).x == v.x + q.w * (2.0 * (q.y * v.z - q.z * v.y)) + q.y * (2.0 * (q.x * v.y - q.y * v.x))
                                     - q.z * (2.0 * (q.z * v.x - q.x * v.z))
  {
  }

  lemma {:induction false} RotatedX(q: Quat, v: Vec)
    ensures RotateVector(q, v).x == RotateByCross(q, v).x + (Norm2(q) - 1.0) * v.x
  {
    hide Mul, RotateVector, RotateByCross, Norm2, TimesConjugateX;
    RotatedIsProduct(q, v);
    ProductIsCross(q, v);
  }

  function TurnedVec(v: Vec): Vec { Vec(v.y, v.z, v.x) }

  lemma {:induction false} TurnedRotation(q: Quat, v: Vec)
    ensures RotateVector(Turned(q), TurnedVec(v)) == TurnedVec(RotateVector(q, v))
    ensures RotateByCross(Turned(q), TurnedVec(v)) == TurnedVec(RotateByCross(q, v))
    ensures Norm2(Turned(q)) == Norm2(q)
  {
    hide Mul;
    TurnedProduct(q, Pure(v));
    TurnedProduct(Mul(q, Pure(v)), Conj(q));
    assert Turned(Pure(v)) == Pure(TurnedVec(v)) && Turned(Conj(q)) == Conj(Turned(q));
  }

  // The product form differs from the cross-product form by a multiple of the vector, which the
  // squared norm decides.
  lemma {:induction false} CrossForm(q: Quat, v: Vec)
    ensures var (r, d) := (RotateByCross(q, v), Norm2(q) - 1.0);
            RotateVector(q, v) == Vec(r.x + d * v.x, r.y + d * v.y, r.z + d * v.z)
  {
    hide RotateVector, RotateByCross, Norm2;
    RotatedX(q, v);
    TurnedRotation(q, v);
    RotatedX(Turned(q), TurnedVec(v));
    TurnedRotation(Turned(q), TurnedVec(v));
    RotatedX(Turned(Turned(q)), TurnedVec(TurnedVec(v)));
  }

  /** The relay's cross-product rotation is the quaternion product form exactly on the unit
      quaternions. */
  lemma {:induction false} CrossFormAgreesIff(q: Quat)
    ensures (forall v: Vec :: RotateByCross(q, v) == RotateVector(q, v)) <==> Norm2(q) == 1.0
  {
    hide RotateByCross, RotateVector, Norm2;
    if Norm2(q) == 1.0 {
      forall v: Vec ensures RotateByCross(q, v) == RotateVector(q, v) { CrossForm(q, v); }
    } else {
      CrossForm(q, Vec(1.0, 0.0, 0.0));
    }
  }

  // ----- Normalization -----

  lemma {:induction false} ScaledNorm(q: Quat, k: real)
    ensures Norm2(Scaled(q, k)) == Norm2(q) * (k * k)
  {
  }

  lemma {:induction false} UnitScale(n: real, r: real)
    requires r != 0.0 && r * r == n
    ensures n * (1.0 / r * (1.0 / r)) == 1.0
  {
    var k := 1.0 / r;
    assert r * k == 1.0;
    SquareOfProduct(r, k);
  }

  lemma {:induction false} DivideIsScale(q: Quat, r: real)
    requires r != 0.0
    ensures Quat(q.x / r, q.y / r, q.z / r, q.w / r) == Scaled(q, 1.0 / r)
  {
  }

  lemma {:induction false} NormalizeIsUnit(sqrt: real -> real, q: Quat)
    requires IsSqrt(sqrt) && Normalize(sqrt, q).Some?
    ensures Norm2(Normalize(sqrt, q).value) == 1.0
  {
    hide Norm2;
    var r := sqrt(Norm2(q));
    NormNonNegative(q);
    DivideIsScale(q, r);
    ScaledNorm(q, 1.0 / r);
    UnitScale(Norm2(q), r);
  }

  lemma {:induction false} NormNonNegative(q: Quat)
    ensures Norm2(q) >= 0.0
  {
    assert q.x * q.x >= 0.0 && q.y * q.y >= 0.0 && q.z * q.z >= 0.0 && q.w * q.w >= 0.0;
  }

  lemma {:induction false} NormalizeUnit(sqrt: real -> real, q: Quat)
    requires IsSqrt(sqrt) && Norm2(q) == 1.0
    ensures Normalize(sqrt, q) == Some(q)
  {
    hide Norm2;
    SqrtIs(sqrt, 1.0, 1.0);
  }

  // ----- World, base and lidar -----

  /** `compose_world_base` undoes the mounting transform: composing its result with the pose of the
      lidar on the base gives back the pose of the lidar in the world, for all positions and all
      orientations that can be normalized; and it fails only when one of them cannot. */
  lemma {:induction false} ComposeWorldBaseInverts(sqrt: real -> real, worldLidar: Motion, baseLidar: Motion)
    requires IsSqrt(sqrt)
    ensures var (w, b) := (Normalize(sqrt, worldLidar.rotation), Normalize(sqrt, baseLidar.rotation));
            var r := ComposeWorldBase(sqrt, worldLidar, baseLidar);
            && (r.Some? <==> w.Some? && b.Some?)
            && (r.Some? ==> Norm2(r.value.rotation) == 1.0
                            && Compose(r.value, Motion(baseLidar.at, b.value)) == Motion(worldLidar.at, w.value))
  {
    hide Norm2, Mul, Conj, RotateVector, Normalize;
    var (wn, bn) := (Normalize(sqrt, worldLidar.rotation), Normalize(sqrt, baseLidar.rotation));
    if wn.Some? && bn.Some? {
      var (w, b, p) := (wn.value, bn.value, baseLidar.at);
      NormalizeIsUnit(sqrt, worldLidar.rotation);
      NormalizeIsUnit(sqrt, baseLidar.rotation);
      ConjInverts(b);
      UnitProduct(w, Conj(b));
      NormalizeUnit(sqrt, Mul(w, Conj(b)));
      MulAssociative(w, Conj(b), b);
      OneIsUnit(w);
      RotateByProduct(w, Conj(b), p);
      RotateOpposite(Conj(b), p);
      RotateOpposite(w, RotateVector(Conj(b), p));
    }
  }
}
