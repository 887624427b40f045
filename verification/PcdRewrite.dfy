/** Levelling a binary point cloud in place: the field layout of its header, and the loop that
    turns the position and the normal of every record inside the byte buffer. */
module PcdRewrite {
  import opened Numbers

  // ----- Field layout -----

  /** Where a field lies in a record, and its declared element size, kind and count. */
  datatype Field = Field(offset: int, size: int, kind: string, count: int)

  // The header's parallel lists.
  datatype Header = Header(names: seq<string>, sizes: seq<int>, kinds: seq<string>, counts: seq<int>) {
    predicate Consistent() { |names| == |sizes| == |kinds| == |counts| }

    predicate NonNegative()
      requires Consistent()
    {
      forall i :: 0 <= i < |names| ==> sizes[i] >= 0 && counts[i] >= 0
    }
  }

  function OffsetOf(h: Header, n: int): int
    requires h.Consistent() && 0 <= n <= |h.names|
  {
    if n == 0 then 0 else OffsetOf(h, n - 1) + h.sizes[n - 1] * h.counts[n - 1]
  }

  function FieldAt(h: Header, i: int): Field
    requires h.Consistent() && 0 <= i < |h.names|
  {
    Field(OffsetOf(h, i), h.sizes[i], h.kinds[i], h.counts[i])
  }

  // Field i is the last one of its name among the first n.
  predicate LastOfName(h: Header, n: int, i: int)
    requires h.Consistent() && 0 <= n <= |h.names|
  {
    0 <= i < n && forall j :: i < j < n ==> h.names[j] != h.names[i]
  }

  // The table lists every name among the first n fields, with its last field.
  ghost predicate TableOf(h: Header, n: int, table: map<string, Field>)
    requires h.Consistent() && 0 <= n <= |h.names|
  {
    && (forall i :: 0 <= i < n ==> h.names[i] in table)
    && forall name :: name in table ==> exists i :: LastOfName(h, n, i) && h.names[i] == name && table[name] == FieldAt(h, i)
  }

  method FieldLayout(h: Header) returns (r: Option<(map<string, Field>, int)>)
    ensures r.Some? <==> h.Consistent()
    ensures r.Some? ==> TableOf(h, |h.names|, r.value.0) && r.value.1 == OffsetOf(h, |h.names|)
  {
    if !(|h.names| == |h.sizes| == |h.kinds| == |h.counts|) {
      return None;
    }
    var offsets: map<string, Field> := map[];
    var offset := 0;
    for i := 0 to |h.names|
      invariant offset == OffsetOf(h, i) && TableOf(h, i, offsets)
    {
      var entry := Field(offset, h.sizes[i], h.kinds[i], h.counts[i]);
      TableExtends(h, i, offsets, entry);
      offsets := offsets[h.names[i] := entry];
      offset := offset + h.sizes[i] * h.counts[i];
    }
    return Some((offsets, offset));
  }

  lemma {:induction false} TableExtends(h: Header, n: int, table: map<string, Field>, entry: Field)
    requires h.Consistent() && 0 <= n < |h.names| && TableOf(h, n, table) && entry == FieldAt(h, n)
    ensures TableOf(h, n + 1, table[h.names[n] := entry])
  {
    hide FieldAt;
    var next := table[h.names[n] := entry];
    forall name | name in next
      ensures exists i :: LastOfName(h, n + 1, i) && h.names[i] == name && next[name] == FieldAt(h, i)
    {
      if name == h.names[n] {
        assert LastOfName(h, n + 1, n);
      } else {
        var i :| LastOfName(h, n, i) && h.names[i] == name && table[name] == FieldAt(h, i);
        assert LastOfName(h, n + 1, i);
      }
    }
  }

  // The offset of a field that must be one 4-byte float.
  function FloatOffset(table: map<string, Field>, name: string): Option<int> {
    if name in table && table[name].size == 4 && table[name].kind == "F" && table[name].count == 1
    then Some(table[name].offset) else None
  }

  lemma {:induction false} OffsetsGrow(h: Header, i: int, n: int)
    requires h.Consistent() && h.NonNegative() && 0 <= i <= n <= |h.names|
    ensures 0 <= OffsetOf(h, i) <= OffsetOf(h, n)
    decreases n
  {
    if i < n {
      OffsetsGrow(h, i, n - 1);
    } else if n > 0 {
      OffsetsGrow(h, n - 1, n - 1);
    }
    if n > 0 { assert h.sizes[n - 1] * h.counts[n - 1] >= 0; }
  }

  lemma {:induction false} FloatIsFourBytes(h: Header, i: int)
    requires h.Consistent() && 0 <= i < |h.names| && h.sizes[i] == 4 && h.counts[i] == 1
    ensures OffsetOf(h, i + 1) == OffsetOf(h, i) + 4
  {
  }

  // The header field behind a float offset.
  lemma {:induction false} FloatField(h: Header, table: map<string, Field>, name: string) returns (i: int)
    requires h.Consistent() && h.NonNegative() && TableOf(h, |h.names|, table) && FloatOffset(table, name).Some?
    ensures 0 <= i < |h.names| && h.names[i] == name && FloatOffset(table, name) == Some(OffsetOf(h, i))
    ensures 0 <= OffsetOf(h, i) && OffsetOf(h, i) + 4 == OffsetOf(h, i + 1) <= OffsetOf(h, |h.names|)
  {
    hide OffsetOf;
    i :| LastOfName(h, |h.names|, i) && h.names[i] == name && table[name] == FieldAt(h, i);
    FloatIsFourBytes(h, i);
    OffsetsGrow(h, i, i);
    OffsetsGrow(h, i + 1, |h.names|);
  }

  /** Two float fields of different names never overlap, and each lies inside the record. */
  lemma {:induction false} FloatFieldsApart(h: Header, table: map<string, Field>, a: string, b: string)
    requires h.Consistent() && h.NonNegative() && TableOf(h, |h.names|, table)
    requires a != b && FloatOffset(table, a).Some? && FloatOffset(table, b).Some?
    ensures var (p, q) := (FloatOffset(table, a).value, FloatOffset(table, b).value);
            && 0 <= p && p + 4 <= OffsetOf(h, |h.names|) && 0 <= q && q + 4 <= OffsetOf(h, |h.names|)
            && (p + 4 <= q || q + 4 <= p)
  {
    hide OffsetOf, TableOf, FloatOffset;
    var i := FloatField(h, table, a);
    var j := FloatField(h, table, b);
    if i < j { OffsetsGrow(h, i + 1, j); } else { OffsetsGrow(h, j + 1, i); }
  }

  // Byte b of a record belongs to field i, all of whose elements lie one after the other.
  predicate Occupies(h: Header, i: int, b: int)
    requires h.Consistent() && 0 <= i < |h.names|
  {
    OffsetOf(h, i) <= b < OffsetOf(h, i) + h.sizes[i] * h.counts[i]
  }

  lemma {:induction false} ByteHasField(h: Header, n: int, b: int) returns (i: int)
    requires h.Consistent() && 0 <= n <= |h.names| && 0 <= b < OffsetOf(h, n)
    ensures 0 <= i < n && Occupies(h, i, b)
  {
    if b < OffsetOf(h, n - 1) {
      i := ByteHasField(h, n - 1, b);
    } else {
      i := n - 1;
    }
  }

  /** The fields tile the record, whatever their counts: a byte lies in the record exactly when it belongs to a field,
      and it belongs to no other field. */
  lemma {:induction false} FieldsTile(h: Header, b: int)
    requires h.Consistent() && h.NonNegative()
    ensures 0 <= b < OffsetOf(h, |h.names|) <==> exists i :: 0 <= i < |h.names| && Occupies(h, i, b)
    ensures forall i, j :: 0 <= i < |h.names| && 0 <= j < |h.names| && Occupies(h, i, b) && Occupies(h, j, b) ==> i == j
  {
    if 0 <= b < OffsetOf(h, |h.names|) { var _ := ByteHasField(h, |h.names|, b); }
    forall i | 0 <= i < |h.names| && Occupies(h, i, b)
      ensures 0 <= b < OffsetOf(h, |h.names|)
      ensures forall j :: i < j < |h.names| ==> !Occupies(h, j, b)
    {
      OffsetsGrow(h, 0, i);
      OffsetsGrow(h, i + 1, |h.names|);
      forall j | i < j < |h.names| ensures !Occupies(h, j, b) { OffsetsGrow(h, i + 1, j); }
    }
  }

  // ----- Records -----

  /** Four bytes, as they stand in the buffer. */
  datatype Word = Word(b0: bv8, b1: bv8, b2: bv8, b3: bv8)

  datatype Triple = Triple(x: Word, y: Word, z: Word)

  datatype Offsets = Offsets(x: int, y: int, z: int)

  function WordAt(d: seq<bv8>, p: int): Word
    requires 0 <= p && p + 4 <= |d|
  {
    Word(d[p], d[p + 1], d[p + 2], d[p + 3])
  }

  predicate Fits(o: Offsets, stride: nat) {
    0 <= o.x && o.x + 4 <= stride && 0 <= o.y && o.y + 4 <= stride && 0 <= o.z && o.z + 4 <= stride
  }

  predicate Clear(a: int, b: int) { a + 4 <= b || b + 4 <= a }

  predicate SelfApart(o: Offsets) { Clear(o.x, o.y) && Clear(o.x, o.z) && Clear(o.y, o.z) }

  predicate MutuallyApart(o: Offsets, q: Offsets) {
    && Clear(o.x, q.x) && Clear(o.x, q.y) && Clear(o.x, q.z)
    && Clear(o.y, q.x) && Clear(o.y, q.y) && Clear(o.y, q.z)
    && Clear(o.z, q.x) && Clear(o.z, q.y) && Clear(o.z, q.z)
  }

  predicate InBuffer(start: int, o: Offsets, length: int) {
    && 0 <= start + o.x && start + o.x + 4 <= length && 0 <= start + o.y && start + o.y + 4 <= length
    && 0 <= start + o.z && start + o.z + 4 <= length
  }

  function TripleAt(d: seq<bv8>, start: int, o: Offsets): Triple
    requires InBuffer(start, o, |d|)
  {
    Triple(WordAt(d, start + o.x), WordAt(d, start + o.y), WordAt(d, start + o.z))
  }

  // Byte p of a record belongs to one of the three words.
  predicate InWords(o: Offsets, p: int) { o.x <= p < o.x + 4 || o.y <= p < o.y + 4 || o.z <= p < o.z + 4 }

  method PutWord(data: array<bv8>, p: nat, w: Word)
    requires p + 4 <= data.Length
    modifies data
    ensures WordAt(data[..], p) == w
    ensures forall i :: 0 <= i < data.Length && !(p <= i < p + 4) ==> data[i] == old(data[i])
  {
    data[p], data[p + 1], data[p + 2], data[p + 3] := w.b0, w.b1, w.b2, w.b3;
  }

  // Nothing changes outside three words of the record.
  ghost predicate SameOutside(was: seq<bv8>, now: seq<bv8>, start: int, o: Offsets) {
    |was| == |now| && forall i :: 0 <= i < |was| && !InWords(o, i - start) ==> now[i] == was[i]
  }

  // Rewrites three words of one record; `turn` unpacks them, rotates and packs again.
  method TurnWords(data: array<bv8>, start: nat, o: Offsets, turn: Triple -> Triple)
    requires InBuffer(start, o, data.Length) && SelfApart(o)
    modifies data
    ensures TripleAt(data[..], start, o) == turn(TripleAt(old(data[..]), start, o))
    ensures SameOutside(old(data[..]), data[..], start, o)
  {
    var turned := turn(TripleAt(data[..], start, o));
    PutWord(data, start + o.x, turned.x);
    PutWord(data, start + o.y, turned.y);
    PutWord(data, start + o.z, turned.z);
  }

  lemma {:induction false} TripleKept(was: seq<bv8>, now: seq<bv8>, start: nat, o: Offsets, q: Offsets)
    requires SameOutside(was, now, start, o) && MutuallyApart(o, q)
    requires InBuffer(start, q, |was|)
    ensures TripleAt(now, start, q) == TripleAt(was, start, q)
  {
  }

  // ----- The whole buffer -----

  datatype Plan = Plan(stride: nat, points: Offsets, normals: Option<Offsets>) {
    predicate Sound() {
      && Fits(points, stride) && SelfApart(points)
      && (normals.Some? ==> Fits(normals.value, stride) && SelfApart(normals.value) && MutuallyApart(points, normals.value))
    }
  }

  function Start(stride: nat, i: nat): nat { i * stride }

  lemma {:induction false} StartsApart(stride: nat, i: nat, j: nat)
    requires i < j
    ensures Start(stride, i) + stride <= Start(stride, j)
  {
    var rest: nat := j - i - 1;
    assert j * stride == i * stride + stride + rest * stride;
  }

  predicate Rewritten(plan: Plan, p: int) {
    InWords(plan.points, p) || (plan.normals.Some? && InWords(plan.normals.value, p))
  }

  // The record that starts at a byte has its point and its normal turned.
  ghost predicate TurnedAt(plan: Plan, turn: Triple -> Triple, was: seq<bv8>, now: seq<bv8>, start: nat)
    requires plan.Sound()
  {
    && |was| == |now| && start + plan.stride <= |was|
    && TripleAt(now, start, plan.points) == turn(TripleAt(was, start, plan.points))
    && (plan.normals.Some? ==>
          TripleAt(now, start, plan.normals.value) == turn(TripleAt(was, start, plan.normals.value)))
  }

  // Byte p belongs to a rewritten word of one of the first n records.
  ghost predicate Touched(plan: Plan, n: nat, p: int) {
    exists i: nat :: i < n && Rewritten(plan, p - Start(plan.stride, i))
  }

  /** Every one of the first `count` records turned, every other byte as it was. */
  ghost predicate Levelled(plan: Plan, turn: Triple -> Triple, was: seq<bv8>, now: seq<bv8>, count: nat)
    requires plan.Sound()
  {
    && |was| == |now|
    && (forall i: nat :: i < count ==> TurnedAt(plan, turn, was, now, Start(plan.stride, i)))
    && (forall p :: 0 <= p < |was| && !Touched(plan, count, p) ==> now[p] == was[p])
  }

  lemma {:induction false} ApartSymmetric(o: Offsets, q: Offsets)
    ensures MutuallyApart(o, q) == MutuallyApart(q, o)
  {
  }

  // Nothing changes outside the rewritten words of one record.
  ghost predicate SameElsewhere(plan: Plan, was: seq<bv8>, now: seq<bv8>, start: int) {
    |was| == |now| && forall i :: 0 <= i < |was| && !Rewritten(plan, i - start) ==> now[i] == was[i]
  }

  method TurnRecord(data: array<bv8>, start: nat, plan: Plan, turn: Triple -> Triple)
    requires plan.Sound() && start + plan.stride <= data.Length
    modifies data
    ensures TurnedAt(plan, turn, old(data[..]), data[..], start)
    ensures SameElsewhere(plan, old(data[..]), data[..], start)
  {
    hide TripleAt, InWords, MutuallyApart;
    ghost var was := data[..];
    TurnWords(data, start, plan.points, turn);
    if plan.normals.Some? {
      ghost var middle := data[..];
      TurnWords(data, start, plan.normals.value, turn);
      TripleKept(was, middle, start, plan.points, plan.normals.value);
      ApartSymmetric(plan.points, plan.normals.value);
      TripleKept(middle, data[..], start, plan.normals.value, plan.points);
    }
  }

  lemma {:induction false} TripleFromBytes(a: seq<bv8>, b: seq<bv8>, start: nat, stride: nat, o: Offsets)
    requires |a| == |b| && Fits(o, stride) && start + stride <= |a|
    requires forall p :: start <= p < start + stride ==> a[p] == b[p]
    ensures TripleAt(a, start, o) == TripleAt(b, start, o)
  {
  }

  // A record is read and written by its own bytes alone.
  lemma {:induction false} TurnedFromBytes(plan: Plan, turn: Triple -> Triple, was: seq<bv8>, now: seq<bv8>,
                                           was1: seq<bv8>, now1: seq<bv8>, start: nat)
    requires plan.Sound() && TurnedAt(plan, turn, was, now, start) && |was1| == |was| && |now1| == |now|
    requires forall p :: start <= p < start + plan.stride ==> was1[p] == was[p] && now1[p] == now[p]
    ensures TurnedAt(plan, turn, was1, now1, start)
  {
    hide TripleAt;
    TripleFromBytes(was, was1, start, plan.stride, plan.points);
    TripleFromBytes(now, now1, start, plan.stride, plan.points);
    if plan.normals.Some? {
      TripleFromBytes(was, was1, start, plan.stride, plan.normals.value);
      TripleFromBytes(now, now1, start, plan.stride, plan.normals.value);
    }
  }

  lemma {:induction false} RewrittenIsInside(plan: Plan, p: int)
    requires plan.Sound() && Rewritten(plan, p)
    ensures 0 <= p < plan.stride
  {
  }

  lemma {:induction false} TouchedGrows(plan: Plan, n: nat, p: int)
    ensures Touched(plan, n + 1, p) <==> Touched(plan, n, p) || Rewritten(plan, p - Start(plan.stride, n))
  {
    if Touched(plan, n + 1, p) {
      var i: nat :| i < n + 1 && Rewritten(plan, p - Start(plan.stride, i));
    }
  }

  // One more record: what was done before stays done.
  lemma {:induction false} LevelledExtends(plan: Plan, turn: Triple -> Triple,
                                           was: seq<bv8>, mid: seq<bv8>, now: seq<bv8>, n: nat)
    requires plan.Sound() && Levelled(plan, turn, was, mid, n) && Start(plan.stride, n) + plan.stride <= |was|
    requires TurnedAt(plan, turn, mid, now, Start(plan.stride, n))
    requires SameElsewhere(plan, mid, now, Start(plan.stride, n))
    ensures Levelled(plan, turn, was, now, n + 1)
  {
    hide Rewritten, Start, TripleAt, Touched;
    var start := Start(plan.stride, n);
    forall p | 0 <= p < |was| && !Touched(plan, n + 1, p) ensures now[p] == was[p] { TouchedGrows(plan, n, p); }
    forall p | start <= p < start + plan.stride ensures mid[p] == was[p] { NotTouchedYet(plan, n, p); }
    TurnedFromBytes(plan, turn, mid, now, was, now, start);
    forall i: nat | i < n ensures TurnedAt(plan, turn, was, now, Start(plan.stride, i)) {
      StartsApart(plan.stride, i, n);
      var s := Start(plan.stride, i);
      forall p | s <= p < s + plan.stride ensures now[p] == mid[p] {
        if Rewritten(plan, p - start) { RewrittenIsInside(plan, p - start); }
      }
      TurnedFromBytes(plan, turn, was, mid, was, now, s);
    }
  }

  lemma {:induction false} NotTouchedYet(plan: Plan, n: nat, p: int)
    requires plan.Sound() && Start(plan.stride, n) <= p
    ensures !Touched(plan, n, p)
  {
    hide Rewritten, Start;
    forall i: nat | i < n ensures !Rewritten(plan, p - Start(plan.stride, i)) {
      StartsApart(plan.stride, i, n);
      if Rewritten(plan, p - Start(plan.stride, i)) { RewrittenIsInside(plan, p - Start(plan.stride, i)); }
    }
  }

  /** The rewrite loop: in place, record after record, it turns every point and every normal and
      leaves every other byte as it was, the bytes after the last record included. */
  method TurnRecords(data: array<bv8>, count: nat, plan: Plan, turn: Triple -> Triple)
    requires plan.Sound() && Start(plan.stride, count) <= data.Length
    modifies data
    ensures Levelled(plan, turn, old(data[..]), data[..], count)
  {
    hide Start, Rewritten, TripleAt;
    ghost var was := data[..];
    NothingTurned(plan, turn, was);
    for index := 0 to count
      invariant Levelled(plan, turn, was, data[..], index)
    {
      ghost var mid := data[..];
      StartsApart(plan.stride, index, count);
      var start := Start(plan.stride, index);
      TurnRecord(data, start, plan, turn);
      LevelledExtends(plan, turn, was, mid, data[..], index);
    }
  }

  lemma {:induction false} NothingTurned(plan: Plan, turn: Triple -> Triple, was: seq<bv8>)
    requires plan.Sound()
    ensures Levelled(plan, turn, was, was, 0)
  {
  }

  // ----- The program -----

  function ThreeFloats(table: map<string, Field>, x: string, y: string, z: string): Option<Offsets> {
    var (a, b, c) := (FloatOffset(table, x), FloatOffset(table, y), FloatOffset(table, z));
    if a.Some? && b.Some? && c.Some? then Some(Offsets(a.value, b.value, c.value)) else None
  }

  predicate HasNormals(table: map<string, Field>) {
    "normal_x" in table && "normal_y" in table && "normal_z" in table
  }

  // None when a required field is missing or is not a scalar float; normals are optional.
  function PlanFrom(table: map<string, Field>, stride: nat): Option<Plan> {
    var points := ThreeFloats(table, "x", "y", "z");
    var normals := ThreeFloats(table, "normal_x", "normal_y", "normal_z");
    if points.None? then None
    else if !HasNormals(table) then Some(Plan(stride, points.value, None))
    else if normals.None? then None
    else Some(Plan(stride, points.value, normals))
  }

  lemma {:induction false} NamesDiffer()
    ensures "x" != "y" && "x" != "z" && "y" != "z"
    ensures "normal_x" != "normal_y" && "normal_x" != "normal_z" && "normal_y" != "normal_z"
    ensures forall a, b :: a in ["x", "y", "z"] && b in ["normal_x", "normal_y", "normal_z"] ==> a != b
  {
    assert "normal_x"[7] == 'x' && "normal_y"[7] == 'y' && "normal_z"[7] == 'z';
    assert "x"[0] == 'x' && "y"[0] == 'y' && "z"[0] == 'z';
  }

  lemma {:induction false} ThreeFloatsFit(h: Header, table: map<string, Field>, x: string, y: string, z: string)
    requires h.Consistent() && h.NonNegative() && TableOf(h, |h.names|, table) && OffsetOf(h, |h.names|) >= 0
    requires x != y && x != z && y != z && ThreeFloats(table, x, y, z).Some?
    ensures Fits(ThreeFloats(table, x, y, z).value, OffsetOf(h, |h.names|)) && SelfApart(ThreeFloats(table, x, y, z).value)
  {
    hide TableOf, FloatOffset, OffsetOf;
    FloatFieldsApart(h, table, x, y);
    FloatFieldsApart(h, table, x, z);
    FloatFieldsApart(h, table, y, z);
  }

  lemma {:induction false} ThreeFloatsApart(h: Header, table: map<string, Field>, x: string, y: string, z: string,
                                            a: string, b: string, c: string)
    requires h.Consistent() && h.NonNegative() && TableOf(h, |h.names|, table)
    requires forall p, q :: p in [x, y, z] && q in [a, b, c] ==> p != q
    requires ThreeFloats(table, x, y, z).Some? && ThreeFloats(table, a, b, c).Some?
    ensures MutuallyApart(ThreeFloats(table, x, y, z).value, ThreeFloats(table, a, b, c).value)
  {
    hide TableOf, FloatOffset, OffsetOf;
    forall p, q | p in [x, y, z] && q in [a, b, c]
      ensures FloatOffset(table, p).Some? && FloatOffset(table, q).Some?
              && Clear(FloatOffset(table, p).value, FloatOffset(table, q).value)
    {
      FloatFieldsApart(h, table, p, q);
    }
    assert x in [x, y, z] && y in [x, y, z] && z in [x, y, z];
    assert a in [a, b, c] && b in [a, b, c] && c in [a, b, c];
  }

  /** Whatever the header lists and in whatever order, the words that the loop rewrites lie inside
      the record and never overlap. */
  lemma {:induction false} PlanIsSound(h: Header, table: map<string, Field>)
    requires h.Consistent() && h.NonNegative() && TableOf(h, |h.names|, table) && OffsetOf(h, |h.names|) >= 0
    requires PlanFrom(table, OffsetOf(h, |h.names|)).Some?
    ensures PlanFrom(table, OffsetOf(h, |h.names|)).value.Sound()
  {
    hide TableOf, OffsetOf, ThreeFloats, Fits, SelfApart, MutuallyApart;
    NamesDiffer();
    ThreeFloatsFit(h, table, "x", "y", "z");
    if HasNormals(table) {
      ThreeFloatsFit(h, table, "normal_x", "normal_y", "normal_z");
      ThreeFloatsApart(h, table, "x", "y", "z", "normal_x", "normal_y", "normal_z");
    }
  }

  // The table and the stride of a consistent header, as the layout loop finds them.
  ghost predicate LaidOut(h: Header, table: map<string, Field>, stride: int) {
    h.Consistent() && TableOf(h, |h.names|, table) && stride == OffsetOf(h, |h.names|)
  }

  // The last field of that name is one 4-byte float at byte p of the record.
  ghost predicate FloatNamed(h: Header, name: string, p: int)
    requires h.Consistent()
  {
    exists i :: LastOfName(h, |h.names|, i) && h.names[i] == name && h.sizes[i] == 4 && h.kinds[i] == "F"
                && h.counts[i] == 1 && OffsetOf(h, i) == p
  }

  lemma {:induction false} LastIsUnique(h: Header, i: int, j: int)
    requires h.Consistent() && LastOfName(h, |h.names|, i) && LastOfName(h, |h.names|, j) && h.names[i] == h.names[j]
    ensures i == j
  {
  }

  lemma {:induction false} FloatOffsetExactly(h: Header, table: map<string, Field>, name: string, p: int)
    requires h.Consistent() && TableOf(h, |h.names|, table)
    ensures FloatOffset(table, name) == Some(p) <==> FloatNamed(h, name, p)
  {
    hide OffsetOf;
    if name in table {
      var i :| LastOfName(h, |h.names|, i) && h.names[i] == name && table[name] == FieldAt(h, i);
      forall j | LastOfName(h, |h.names|, j) && h.names[j] == name ensures j == i { LastIsUnique(h, i, j); }
    }
  }

  lemma {:induction false} ListedIffNamed(h: Header, table: map<string, Field>, name: string)
    requires h.Consistent() && TableOf(h, |h.names|, table)
    ensures name in table <==> name in h.names
  {
    if name in h.names {
      var i :| 0 <= i < |h.names| && h.names[i] == name;
    }
  }

  ghost predicate NamedOffsets(h: Header, x: string, y: string, z: string, o: Offsets)
    requires h.Consistent()
  {
    FloatNamed(h, x, o.x) && FloatNamed(h, y, o.y) && FloatNamed(h, z, o.z)
  }

  lemma {:induction false} ThreeFloatsExactly(h: Header, table: map<string, Field>, x: string, y: string, z: string,
                                              o: Offsets)
    requires h.Consistent() && TableOf(h, |h.names|, table)
    ensures ThreeFloats(table, x, y, z) == Some(o) <==> NamedOffsets(h, x, y, z, o)
  {
    hide FloatOffset, FloatNamed, TableOf;
    FloatOffsetExactly(h, table, x, o.x);
    FloatOffsetExactly(h, table, y, o.y);
    FloatOffsetExactly(h, table, z, o.z);
  }

  /** Which words are rewritten, from the header alone: x, y and z must be scalar floats, the last field of each name;
      when all three normal components are listed they must be scalar floats too and are rewritten as well, and
      otherwise no normal is. */
  lemma {:induction false} PlanExactly(h: Header, table: map<string, Field>, stride: nat, plan: Plan)
    requires LaidOut(h, table, stride)
    ensures PlanFrom(table, stride) == Some(plan) <==>
      && plan.stride == stride && NamedOffsets(h, "x", "y", "z", plan.points)
      && (if "normal_x" in h.names && "normal_y" in h.names && "normal_z" in h.names
          then plan.normals.Some? && NamedOffsets(h, "normal_x", "normal_y", "normal_z", plan.normals.value)
          else plan.normals.None?)
  {
    hide ThreeFloats, NamedOffsets, TableOf, OffsetOf;
    ListedIffNamed(h, table, "normal_x");
    ListedIffNamed(h, table, "normal_y");
    ListedIffNamed(h, table, "normal_z");
    ThreeFloatsExactly(h, table, "x", "y", "z", plan.points);
    if plan.normals.Some? { ThreeFloatsExactly(h, table, "normal_x", "normal_y", "normal_z", plan.normals.value); }
  }

  /** The whole rewrite of a payload: refused, with the buffer untouched, when the header is
      inconsistent, a field is unfit or the payload is truncated; otherwise levelled. */
  method LevelCloud(h: Header, pointCount: int, data: array<bv8>, turn: Triple -> Triple)
    returns (ok: bool, ghost table: map<string, Field>, ghost stride: int)
    requires h.Consistent() ==> h.NonNegative()
    modifies data
    ensures h.Consistent() ==> LaidOut(h, table, stride) && stride >= 0
    ensures ok <==> h.Consistent() && data.Length >= pointCount * stride && PlanFrom(table, stride).Some?
    ensures !ok ==> data[..] == old(data[..])
    ensures ok ==> var plan := PlanFrom(table, stride).value;
              plan.Sound() && Levelled(plan, turn, old(data[..]), data[..], MaxInt(0, pointCount))
  {
    hide OffsetOf, TableOf, PlanFrom, Levelled, Plan.Sound;
    var layout := FieldLayout(h);
    if layout.None? {
      table, stride := map[], 0;
      return false, table, stride;
    }
    var (offsets, recordSize) := layout.value;
    table, stride := offsets, recordSize;
    OffsetsGrow(h, |h.names|, |h.names|);
    if data.Length < pointCount * recordSize {
      return false, table, stride;
    }
    var plan := PlanFrom(offsets, recordSize);
    if plan.None? {
      return false, table, stride;
    }
    PlanIsSound(h, offsets);
    PlanKeepsStride(offsets, recordSize);
    TurnRecords(data, MaxInt(0, pointCount), plan.value, turn);
    return true, table, stride;
  }

  lemma {:induction false} PlanKeepsStride(table: map<string, Field>, stride: nat)
    requires PlanFrom(table, stride).Some?
    ensures PlanFrom(table, stride).value.stride == stride
  {
  }
}
