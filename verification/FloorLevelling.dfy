/** Levelling a point cloud: the byte rewrite and the rotation together. */
module FloorLevelling {
  import opened Numbers
  import opened Quaternions
  import opened RotationMatrices
  import opened FloorRotation
  import opened PcdRewrite

  // The upright direction that a floor is levelled to.
  const UP: Vec := Vec(0.0, 0.0, 1.0)

  /** How a coordinate is unpacked from four bytes and packed again; packing may round. */
  datatype Codec = Codec(unpack: Word -> real, pack: real -> Word) {
    function Unpacked(t: Triple): Vec { Vec(unpack(t.x), unpack(t.y), unpack(t.z)) }

    function Packed(v: Vec): Triple { Triple(pack(v.x), pack(v.y), pack(v.z)) }

    // What packing leaves of a vector.
    function Rounded(v: Vec): Vec { Vec(unpack(pack(v.x)), unpack(pack(v.y)), unpack(pack(v.z))) }
  }

  function TurnBy(codec: Codec, m: Mat): Triple -> Triple {
    (t: Triple) => codec.Packed(Rotate(m, codec.Unpacked(t)))
  }

  // The vector that three words of record i hold.
  function VectorOf(codec: Codec, d: seq<bv8>, stride: nat, i: nat, o: Offsets): Vec
    requires InBuffer(Start(stride, i), o, |d|)
  {
    codec.Unpacked(TripleAt(d, Start(stride, i), o))
  }

  // ----- What a rotation keeps -----

  function Combined(x: real, y: real, z: real, a: Vec, b: Vec, c: Vec): Vec {
    Vec(x * a.x + y * b.x + z * c.x, x * a.y + y * b.y + z * c.y, x * a.z + y * b.z + z * c.z)
  }

  lemma {:induction false} SumTimes(x: real, y: real, z: real, a: real, b: real, c: real, w: real)
    ensures (x * a + y * b + z * c) * w == x * (a * w) + y * (b * w) + z * (c * w)
  {
    assert (x * a + y * b + z * c) * w == (x * a) * w + (y * b) * w + (z * c) * w;
  }

  lemma {:induction false} DotCombined(x: real, y: real, z: real, a: Vec, b: Vec, c: Vec, w: Vec)
    ensures Dot(Combined(x, y, z, a, b, c), w) == x * Dot(a, w) + y * Dot(b, w) + z * Dot(c, w)
  {
    SumTimes(x, y, z, a.x, b.x, c.x, w.x);
    SumTimes(x, y, z, a.y, b.y, c.y, w.y);
    SumTimes(x, y, z, a.z, b.z, c.z, w.z);
    ScaledDot(x, a, w);
    ScaledDot(y, b, w);
    ScaledDot(z, c, w);
  }

  lemma {:induction false} ScaledDot(x: real, a: Vec, w: Vec)
    ensures x * Dot(a, w) == x * (a.x * w.x) + x * (a.y * w.y) + x * (a.z * w.z)
  {
  }

  lemma {:induction false} DotSymmetric(a: Vec, b: Vec)
    ensures Dot(a, b) == Dot(b, a)
  {
  }

  lemma {:induction false} RotateCombines(m: Mat, v: Vec)
    ensures Rotate(m, v) == Combined(v.x, v.y, v.z, Column(m, 0), Column(m, 1), Column(m, 2))
  {
  }

  /** A rotation keeps every dot product, hence lengths, distances and angles. */
  lemma {:induction false} RotateKeepsDot(m: Mat, v: Vec, w: Vec)
    requires IsRotation(m)
    ensures Dot(Rotate(m, v), Rotate(m, w)) == Dot(v, w)
  {
    hide Dot, Rotate, Combined, Column, Cross;
    var (a, b, c) := (Column(m, 0), Column(m, 1), Column(m, 2));
    RotateCombines(m, v);
    RotateCombines(m, w);
    DotCombined(v.x, v.y, v.z, a, b, c, Rotate(m, w));
    AlongColumn(m, w, a);
    AlongColumn(m, w, b);
    AlongColumn(m, w, c);
    DotSymmetric(a, b);
    DotSymmetric(b, c);
    DotSymmetric(c, a);
    DotIs(v, w);
  }

  lemma {:induction false} DotIs(v: Vec, w: Vec)
    ensures Dot(v, w) == v.x * w.x + v.y * w.y + v.z * w.z
  {
  }

  lemma {:induction false} AlongColumn(m: Mat, w: Vec, a: Vec)
    ensures Dot(a, Rotate(m, w)) == w.x * Dot(a, Column(m, 0)) + w.y * Dot(a, Column(m, 1)) + w.z * Dot(a, Column(m, 2))
  {
    hide Dot, Rotate, Combined, Column;
    RotateCombines(m, w);
    DotSymmetric(a, Rotate(m, w));
    DotCombined(w.x, w.y, w.z, Column(m, 0), Column(m, 1), Column(m, 2), a);
    DotSymmetric(Column(m, 0), a);
    DotSymmetric(Column(m, 1), a);
    DotSymmetric(Column(m, 2), a);
  }

  lemma {:induction false} DotUp(v: Vec)
    ensures Dot(v, UP) == v.z
  {
  }

  /** After levelling, the height of a point is what it measured along the floor normal. */
  lemma {:induction false} LevelledHeight(m: Mat, normal: Vec, v: Vec)
    requires IsRotation(m) && Rotate(m, normal) == UP
    ensures Rotate(m, v).z == Dot(v, normal)
  {
    hide Rotate, IsRotation;
    RotateKeepsDot(m, v, normal);
    DotUp(Rotate(m, v));
  }

  // ----- The program -----

  // Every record's point, and its normal where there is one, is the rotation of what it was, as far
  // as packing keeps it.
  ghost predicate VectorsTurned(codec: Codec, m: Mat, plan: Plan, was: seq<bv8>, now: seq<bv8>, count: nat)
    requires plan.Sound()
  {
    forall i: nat :: i < count ==>
      && VectorTurned(codec, m, plan.stride, plan.points, was, now, i)
      && (plan.normals.Some? ==> VectorTurned(codec, m, plan.stride, plan.normals.value, was, now, i))
  }

  ghost predicate VectorTurned(codec: Codec, m: Mat, stride: nat, o: Offsets, was: seq<bv8>, now: seq<bv8>, i: nat) {
    && |was| == |now| && InBuffer(Start(stride, i), o, |was|)
    && VectorOf(codec, now, stride, i, o) == codec.Rounded(Rotate(m, VectorOf(codec, was, stride, i, o)))
  }

  lemma {:induction false} TurnByRounds(codec: Codec, m: Mat, t: Triple)
    ensures codec.Unpacked(TurnBy(codec, m)(t)) == codec.Rounded(Rotate(m, codec.Unpacked(t)))
  {
  }

  lemma {:induction false} LevelledVectors(codec: Codec, m: Mat, plan: Plan, was: seq<bv8>, now: seq<bv8>, count: nat)
    requires plan.Sound() && Levelled(plan, TurnBy(codec, m), was, now, count)
    ensures VectorsTurned(codec, m, plan, was, now, count)
  {
    hide Start, TripleAt, TurnBy, Rotate, Touched;
    forall i: nat | i < count
      ensures VectorTurned(codec, m, plan.stride, plan.points, was, now, i)
      ensures plan.normals.Some? ==> VectorTurned(codec, m, plan.stride, plan.normals.value, was, now, i)
    {
      var start := Start(plan.stride, i);
      assert TurnedAt(plan, TurnBy(codec, m), was, now, start);
      TurnByRounds(codec, m, TripleAt(was, start, plan.points));
      if plan.normals.Some? { TurnByRounds(codec, m, TripleAt(was, start, plan.normals.value)); }
    }
  }

  /** The whole levelling of a payload by a measured floor normal. It is refused, with the buffer untouched,
      exactly when the normal is zero or upside down, or the payload does not fit its header. Otherwise
      every point and every normal has been rotated by one proper rotation that takes the normalized floor
      normal upright (exactly, unless the two were parallel up to the threshold), and no byte outside their
      words has changed. */
  method LevelFloor(sqrt: real -> real, codec: Codec, normal: Vec, h: Header, pointCount: int, data: array<bv8>)
    returns (ok: bool, ghost table: map<string, Field>, ghost stride: int)
    requires IsSqrt(sqrt)
    requires h.Consistent() ==> h.NonNegative()
    modifies data
    ensures RotationFromTo(sqrt, normal, UP).Turn? && h.Consistent() ==> LaidOut(h, table, stride) && stride >= 0
    ensures ok <==> RotationFromTo(sqrt, normal, UP).Turn? && h.Consistent() && data.Length >= pointCount * stride
                    && PlanFrom(table, stride).Some?
    ensures !ok ==> data[..] == old(data[..])
    ensures ok ==>
      var (m, plan) := (RotationFromTo(sqrt, normal, UP).matrix, PlanFrom(table, stride).value);
      && plan.Sound() && IsRotation(m) && NormalizeVec(sqrt, normal).Some?
      && Upright(sqrt, m, NormalizeVec(sqrt, normal).value)
      && VectorsTurned(codec, m, plan, old(data[..]), data[..], MaxInt(0, pointCount))
      && (forall p :: 0 <= p < data.Length && !Touched(plan, MaxInt(0, pointCount), p) ==> data[p] == old(data[p]))
  {
    hide RotationFromTo, PlanFrom, Levelled, VectorsTurned, Touched, Plan.Sound, IsRotation, LaidOut, NormalizeVec,
         Upright;
    var turn := RotationFromTo(sqrt, normal, UP);
    if !turn.Turn? {
      table, stride := map[], 0;
      return false, table, stride;
    }
    UprightMatrix(sqrt, normal);
    ghost var was := data[..];
    ok, table, stride := LevelCloud(h, pointCount, data, TurnBy(codec, turn.matrix));
    if ok {
      var plan := PlanFrom(table, stride).value;
      LevelledVectors(codec, turn.matrix, plan, was, data[..], MaxInt(0, pointCount));
      LevelledElsewhere(plan, TurnBy(codec, turn.matrix), was, data[..], MaxInt(0, pointCount));
    }
  }

  // The unit normal s ends upright, or was upright already up to the threshold and stays so.
  predicate Upright(sqrt: real -> real, m: Mat, s: Vec) {
    if sqrt(SquaredLength(Cross(s, UP))) > TINY then Rotate(m, s) == UP
    else SquaredGap(Rotate(m, s), UP) <= 2.0 * Square(TINY)
  }

  lemma {:induction false} UpIsUnit(sqrt: real -> real)
    requires IsSqrt(sqrt)
    ensures NormalizeVec(sqrt, UP) == Some(UP)
  {
    SqrtIs(sqrt, 1.0, 1.0);
  }

  lemma {:induction false} UprightMatrix(sqrt: real -> real, normal: Vec)
    requires IsSqrt(sqrt)
    ensures var r := RotationFromTo(sqrt, normal, UP);
            r.Turn? ==> IsRotation(r.matrix) && NormalizeVec(sqrt, normal).Some?
                        && Upright(sqrt, r.matrix, NormalizeVec(sqrt, normal).value)
  {
    hide RotationFromTo, NormalizeVec, IsRotation, Rotate, SquaredGap, SquaredLength, Cross, Dot, Square, IsSqrt;
    UpIsUnit(sqrt);
    RotationFromToCorrect(sqrt, normal, UP);
  }

  lemma {:induction false} LevelledElsewhere(plan: Plan, turn: Triple -> Triple, was: seq<bv8>, now: seq<bv8>, count: nat)
    requires plan.Sound() && Levelled(plan, turn, was, now, count)
    ensures |was| == |now| && forall p :: 0 <= p < |was| && !Touched(plan, count, p) ==> now[p] == was[p]
  {
    hide Touched, TurnedAt;
  }
}
