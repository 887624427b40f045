/** The obstacle-cloud filter: the vectorised path for contiguous clouds against the row-stepped
    path, byte for byte. */
module CloudFilter {
  import opened Numbers
  import opened PcdRewrite

  /** A point cloud message: `height` rows of `width` records of `pointStep` bytes, the rows
      `rowStep` bytes apart. */
  datatype Cloud = Cloud(width: nat, height: nat, pointStep: nat, rowStep: nat, data: seq<bv8>)

  datatype Coordinates = Coordinates(x: real, y: real, z: real)

  /** How points are read, moved to the base frame, tested against the chassis and written. */
  datatype Filter = Filter(
    decode: Word -> Reading, encode: real -> Word, toBase: Coordinates -> Coordinates,
    minX: real, maxX: real, halfWidth: real, minZ: real, maxZ: real, pointStride: nat, offsets: Offsets)

  function Count(c: Cloud): nat { c.width * c.height }

  predicate Contiguous(c: Cloud) { c.rowStep == c.width * c.pointStep && |c.data| >= Count(c) * c.pointStep }

  // ----- One point -----

  predicate OnChassis(f: Filter, p: Coordinates) {
    f.minX <= p.x <= f.maxX && Abs(p.y) <= f.halfWidth && f.minZ <= p.z <= f.maxZ
  }

  // The base-frame coordinates of a point that is finite; the rest is never used.
  function BasePoint(f: Filter, x: Reading, y: Reading, z: Reading): Coordinates {
    if x.Finite? && y.Finite? && z.Finite? then f.toBase(Coordinates(x.v, y.v, z.v)) else Coordinates(0.0, 0.0, 0.0)
  }

  predicate Keep(f: Filter, x: Reading, y: Reading, z: Reading) {
    x.Finite? && y.Finite? && z.Finite? && !OnChassis(f, BasePoint(f, x, y, z))
  }

  function Put(s: seq<bv8>, p: int, w: Word): (r: seq<bv8>)
    requires 0 <= p && p + 4 <= |s|
    ensures |r| == |s|
  {
    s[p := w.b0][p + 1 := w.b1][p + 2 := w.b2][p + 3 := w.b3]
  }

  // The three coordinates are written one after the other, in this order.
  function Written(f: Filter, record: seq<bv8>, p: Coordinates): (r: seq<bv8>)
    requires InBuffer(0, f.offsets, |record|)
    ensures |r| == |record|
  {
    Put(Put(Put(record, f.offsets.x, f.encode(p.x)), f.offsets.y, f.encode(p.y)), f.offsets.z, f.encode(p.z))
  }

  // ----- The row-stepped path -----

  function RowStart(c: Cloud, index: nat): nat
    requires c.width > 0
  {
    index / c.width * c.rowStep + index % c.width * c.pointStep
  }

  // The filtered record of the point that starts at a byte; None when it is out of the buffer, not
  // finite or on the chassis.
  function RecordFrom(f: Filter, c: Cloud, start: nat): Option<seq<bv8>>
    requires Fits(f.offsets, c.pointStep)
  {
    if !InBuffer(start, f.offsets, |c.data|) then None
    else
      var x := f.decode(WordAt(c.data, start + f.offsets.x));
      var y := f.decode(WordAt(c.data, start + f.offsets.y));
      var z := f.decode(WordAt(c.data, start + f.offsets.z));
      if !Keep(f, x, y, z) then None
      else Some(Written(f, c.data[start..MinInt(start + c.pointStep, |c.data|)], BasePoint(f, x, y, z)))
  }

  lemma {:induction false} PutReads(s: seq<bv8>, p: int, w: Word, q: int)
    requires 0 <= p && p + 4 <= |s| && 0 <= q && q + 4 <= |s|
    ensures WordAt(Put(s, p, w), p) == w
    ensures Clear(p, q) ==> WordAt(Put(s, p, w), q) == WordAt(s, q)
    ensures forall i :: 0 <= i < |s| && !(p <= i < p + 4) ==> Put(s, p, w)[i] == s[i]
  {
  }

  /** What a kept record is: a point inside the buffer, finite and off the chassis, with its
      base-frame coordinates in the three coordinate words and every other byte as in the
      message, whenever those words do not overlap. */
  lemma {:induction false} KeptRecord(f: Filter, c: Cloud, start: nat)
    requires Fits(f.offsets, c.pointStep) && SelfApart(f.offsets)
    ensures var r := RecordFrom(f, c, start);
      r.Some? ==>
        && InBuffer(start, f.offsets, |c.data|) && InBuffer(0, f.offsets, |r.value|)
        && var x := f.decode(WordAt(c.data, start + f.offsets.x));
        var y := f.decode(WordAt(c.data, start + f.offsets.y));
        var z := f.decode(WordAt(c.data, start + f.offsets.z));
        && x.Finite? && y.Finite? && z.Finite?
        && var base := f.toBase(Coordinates(x.v, y.v, z.v));
        && !OnChassis(f, base)
        && TripleAt(r.value, 0, f.offsets) == Triple(f.encode(base.x), f.encode(base.y), f.encode(base.z))
        && start + |r.value| <= |c.data|
        && forall i :: 0 <= i < |r.value| && !InWords(f.offsets, i) ==> r.value[i] == c.data[start + i]
  {
    hide WordAt, Put, OnChassis;
    if RecordFrom(f, c, start).Some? {
      var x := f.decode(WordAt(c.data, start + f.offsets.x));
      var y := f.decode(WordAt(c.data, start + f.offsets.y));
      var z := f.decode(WordAt(c.data, start + f.offsets.z));
      WrittenReads(f, c.data[start..MinInt(start + c.pointStep, |c.data|)], BasePoint(f, x, y, z));
    }
  }

  lemma {:induction false} WrittenReads(f: Filter, record: seq<bv8>, p: Coordinates)
    requires InBuffer(0, f.offsets, |record|) && SelfApart(f.offsets)
    ensures TripleAt(Written(f, record, p), 0, f.offsets) == Triple(f.encode(p.x), f.encode(p.y), f.encode(p.z))
    ensures forall i :: 0 <= i < |record| && !InWords(f.offsets, i) ==> Written(f, record, p)[i] == record[i]
  {
    hide WordAt, Put;
    var o := f.offsets;
    var a := Put(record, o.x, f.encode(p.x));
    var b := Put(a, o.y, f.encode(p.y));
    PutReads(record, o.x, f.encode(p.x), o.x);
    PutReads(a, o.y, f.encode(p.y), o.x);
    PutReads(b, o.z, f.encode(p.z), o.x);
    PutReads(b, o.z, f.encode(p.z), o.y);
  }

  // The records kept from point `index` on, one point in every `pointStride`.
  function RowRecords(f: Filter, c: Cloud, index: nat): seq<seq<bv8>>
    requires Fits(f.offsets, c.pointStep) && f.pointStride > 0
    decreases Count(c) - index
  {
    if index >= Count(c) then []
    else
      WidthPositive(c);
      var r := RecordFrom(f, c, RowStart(c, index));
      (if r.Some? then [r.value] else []) + RowRecords(f, c, index + f.pointStride)
  }

  lemma {:induction false} WidthPositive(c: Cloud)
    requires Count(c) > 0
    ensures c.width > 0
  {
  }

  // The records one after the other.
  function Flat(records: seq<seq<bv8>>): seq<bv8> {
    if |records| == 0 then [] else Flat(records[..|records| - 1]) + records[|records| - 1]
  }

  // What is left from point `index` on is its record, if kept, and what is left after it.
  lemma {:induction false} RowRecordsStep(f: Filter, c: Cloud, index: nat)
    requires Fits(f.offsets, c.pointStep) && f.pointStride > 0 && index < Count(c)
    ensures c.width > 0
    ensures var r := RecordFrom(f, c, RowStart(c, index));
            RowRecords(f, c, index) == (if r.Some? then [r.value] else []) + RowRecords(f, c, index + f.pointStride)
  {
    hide RecordFrom, RowStart;
    WidthPositive(c);
  }

  method FilterRecord(f: Filter, c: Cloud, start: nat) returns (r: Option<seq<bv8>>)
    requires Fits(f.offsets, c.pointStep)
    ensures r == RecordFrom(f, c, start)
  {
    hide Put, WordAt, OnChassis;
    if !InBuffer(start, f.offsets, |c.data|) {
      return None;
    }
    var x := f.decode(WordAt(c.data, start + f.offsets.x));
    var y := f.decode(WordAt(c.data, start + f.offsets.y));
    var z := f.decode(WordAt(c.data, start + f.offsets.z));
    if !(x.Finite? && y.Finite? && z.Finite?) {
      return None;
    }
    var base := f.toBase(Coordinates(x.v, y.v, z.v));
    if OnChassis(f, base) {
      return None;
    }
    var record := c.data[start..MinInt(start + c.pointStep, |c.data|)];
    record := Put(record, f.offsets.x, f.encode(base.x));
    record := Put(record, f.offsets.y, f.encode(base.y));
    record := Put(record, f.offsets.z, f.encode(base.z));
    return Some(record);
  }

  method FilterByRows(f: Filter, c: Cloud) returns (output: seq<bv8>, count: nat)
    requires Fits(f.offsets, c.pointStep) && f.pointStride > 0
    ensures output == Flat(RowRecords(f, c, 0)) && count == |RowRecords(f, c, 0)|
  {
    hide RecordFrom, RowRecords, RowStart, Count, Flat;
    var kept: seq<seq<bv8>> := [];
    var index := 0;
    while index < Count(c)
      invariant kept + RowRecords(f, c, index) == RowRecords(f, c, 0)
    {
      RowRecordsStep(f, c, index);
      var start := RowStart(c, index);
      var r := FilterRecord(f, c, start);
      if r.Some? {
        kept := kept + [r.value];
      }
      index := index + f.pointStride;
    }
    NoRowsLeft(f, c, index);
    assert kept + [] == kept;
    return Flat(kept), |kept|;
  }

  lemma {:induction false} NoRowsLeft(f: Filter, c: Cloud, index: nat)
    requires Fits(f.offsets, c.pointStep) && f.pointStride > 0 && index >= Count(c)
    ensures RowRecords(f, c, index) == []
  {
  }

  // ----- The contiguous path -----

  // The point numbers that are looked at, from `index` on.
  function Indices(index: nat, count: nat, stride: nat): seq<nat>
    requires stride > 0
    decreases count - index
  {
    if index >= count then [] else [index] + Indices(index + stride, count, stride)
  }

  // A strided view of one coordinate, read at the given points.
  function Column(f: Filter, c: Cloud, offset: int, indices: seq<nat>): (r: seq<Reading>)
    requires 0 <= offset && offset + 4 <= c.pointStep && InCloud(c, indices)
    ensures |r| == |indices|
  {
    seq(|indices|, i requires 0 <= i < |indices| =>
      RecordInData(c, indices[i]);
      f.decode(WordAt(c.data, indices[i] * c.pointStep + offset)))
  }

  predicate InCloud(c: Cloud, indices: seq<nat>) {
    |c.data| >= Count(c) * c.pointStep && forall i :: 0 <= i < |indices| ==> indices[i] < Count(c)
  }

  lemma {:induction false} RecordInData(c: Cloud, index: nat)
    requires |c.data| >= Count(c) * c.pointStep && index < Count(c)
    ensures index * c.pointStep + c.pointStep <= |c.data|
  {
    StartsApart(c.pointStep, index, Count(c));
  }

  // The elements whose mask is set, as boolean indexing selects them.
  function Masked<T>(s: seq<T>, mask: seq<bool>): seq<T>
    requires |s| == |mask|
  {
    if |s| == 0 then [] else (if mask[0] then [s[0]] else []) + Masked(s[1..], mask[1..])
  }

  function RecordAt(c: Cloud, index: nat): (r: seq<bv8>)
    requires |c.data| >= Count(c) * c.pointStep && index < Count(c)
    ensures |r| == c.pointStep
  {
    RecordInData(c, index);
    c.data[index * c.pointStep..index * c.pointStep + c.pointStep]
  }

  function RecordsAt(c: Cloud, indices: seq<nat>): (r: seq<seq<bv8>>)
    requires InCloud(c, indices)
    ensures |r| == |indices| && forall i :: 0 <= i < |r| ==> |r[i]| == c.pointStep
  {
    seq(|indices|, i requires 0 <= i < |indices| => RecordAt(c, indices[i]))
  }

  predicate Uniform(records: seq<seq<bv8>>, step: nat) { forall i :: 0 <= i < |records| ==> |records[i]| == step }

  lemma {:induction false} FlatLength(records: seq<seq<bv8>>, step: nat)
    requires Uniform(records, step)
    ensures |Flat(records)| == Start(step, |records|)
  {
    if |records| > 0 {
      var n := |records| - 1;
      FlatLength(records[..n], step);
      assert Start(step, n + 1) == Start(step, n) + step;
    }
  }

  // Writing a word into the joined records writes it into one of them.
  lemma {:induction false} PutInFlat(records: seq<seq<bv8>>, step: nat, k: nat, p: nat, w: Word)
    requires Uniform(records, step) && k < |records| && p + 4 <= step
    ensures Start(step, k) + p + 4 <= |Flat(records)|
    ensures Put(Flat(records), Start(step, k) + p, w) == Flat(records[k := Put(records[k], p, w)])
    decreases |records|
  {
    hide Start;
    var n := |records| - 1;
    var (init, last) := (records[..n], records[n]);
    FlatLength(records, step);
    FlatLength(init, step);
    StartsApart(step, k, |records|);
    var changed := records[k := Put(records[k], p, w)];
    if k == n {
      assert changed[..n] == init;
    } else {
      PutInFlat(init, step, k, p, w);
      assert changed[..n] == init[k := Put(init[k], p, w)] && changed[n] == last;
    }
  }

  // Records i of `records`, their words at one offset replaced by the given ones below k.
  ghost predicate WrittenBelow(records: seq<seq<bv8>>, now: seq<seq<bv8>>, p: nat, words: seq<Word>, k: int, step: nat)
    requires |records| == |now| == |words| && Uniform(records, step) && p + 4 <= step
  {
    && Uniform(now, step)
    && forall i :: 0 <= i < |records| ==> now[i] == if i < k then Put(records[i], p, words[i]) else records[i]
  }

  // Assigns one coordinate of every record through a strided view of the output buffer.
  method WriteColumn(output: array<bv8>, step: nat, p: nat, words: seq<Word>, ghost records: seq<seq<bv8>>)
    returns (ghost after: seq<seq<bv8>>)
    requires |records| == |words| && Uniform(records, step) && p + 4 <= step && output[..] == Flat(records)
    modifies output
    ensures |after| == |records| && output[..] == Flat(after) && WrittenBelow(records, after, p, words, |records|, step)
  {
    hide Flat, Start, Put;
    after := records;
    for k := 0 to |words|
      invariant |after| == |records| && output[..] == Flat(after)
      invariant WrittenBelow(records, after, p, words, k, step)
    {
      PutInFlat(after, step, k, p, words[k]);
      PutInPlace(output, Start(step, k) + p, words[k]);
      after := after[k := Put(after[k], p, words[k])];
    }
  }

  method PutInPlace(output: array<bv8>, p: nat, w: Word)
    requires p + 4 <= output.Length
    modifies output
    ensures output[..] == Put(old(output[..]), p, w)
  {
    output[p], output[p + 1], output[p + 2], output[p + 3] := w.b0, w.b1, w.b2, w.b3;
  }

  // ----- Both paths give the same records -----

  lemma {:induction false} RowStartIsFlat(c: Cloud, index: nat)
    requires c.width > 0 && c.rowStep == c.width * c.pointStep
    ensures RowStart(c, index) == Start(c.pointStep, index)
  {
    var (row, column, step) := (index / c.width, index % c.width, c.pointStep);
    assert index == row * c.width + column;
    RegroupRow(row, column, c.width, step);
  }

  lemma {:induction false} RegroupRow(row: int, column: int, width: int, step: int)
    ensures row * (width * step) + column * step == (row * width + column) * step
  {
  }

  // The records kept among the given points, each at its place in the joined buffer.
  function FlatRecords(f: Filter, c: Cloud, indices: seq<nat>): seq<seq<bv8>>
    requires Fits(f.offsets, c.pointStep)
  {
    if |indices| == 0 then []
    else
      var r := RecordFrom(f, c, Start(c.pointStep, indices[0]));
      (if r.Some? then [r.value] else []) + FlatRecords(f, c, indices[1..])
  }

  lemma {:induction false} RowsAreFlat(f: Filter, c: Cloud, index: nat)
    requires Fits(f.offsets, c.pointStep) && f.pointStride > 0 && c.rowStep == c.width * c.pointStep
    ensures RowRecords(f, c, index) == FlatRecords(f, c, Indices(index, Count(c), f.pointStride))
    decreases Count(c) - index
  {
    hide RecordFrom, RowStart, Start, Count;
    if index >= Count(c) {
      NoRowsLeft(f, c, index);
    } else {
      RowRecordsStep(f, c, index);
      RowStartIsFlat(c, index);
      RowsAreFlat(f, c, index + f.pointStride);
      var indices := Indices(index, Count(c), f.pointStride);
      assert indices[1..] == Indices(index + f.pointStride, Count(c), f.pointStride);
    }
  }

  lemma {:induction false} IndicesInCloud(c: Cloud, index: nat, stride: nat)
    requires stride > 0 && |c.data| >= Count(c) * c.pointStep
    ensures InCloud(c, Indices(index, Count(c), stride))
    decreases Count(c) - index
  {
    hide Count;
    if index < Count(c) { IndicesInCloud(c, index + stride, stride); }
  }

  // What the arrays of the vectorised path say about point i.
  ghost predicate Describes(f: Filter, c: Cloud, index: nat, keep: bool, base: Coordinates)
    requires Fits(f.offsets, c.pointStep) && |c.data| >= Count(c) * c.pointStep && index < Count(c)
  {
    var r := RecordFrom(f, c, Start(c.pointStep, index));
    r.Some? == keep && (keep ==> r.value == Written(f, RecordAt(c, index), base))
  }

  ghost predicate AllDescribed(f: Filter, c: Cloud, indices: seq<nat>, mask: seq<bool>, base: seq<Coordinates>)
    requires Fits(f.offsets, c.pointStep) && InCloud(c, indices)
  {
    |indices| == |mask| == |base| && forall i :: 0 <= i < |indices| ==> Describes(f, c, indices[i], mask[i], base[i])
  }

  lemma {:induction false} MaskedAgree(f: Filter, c: Cloud, indices: seq<nat>, mask: seq<bool>, base: seq<Coordinates>)
    requires Fits(f.offsets, c.pointStep) && InCloud(c, indices) && AllDescribed(f, c, indices, mask, base)
    ensures |Masked(indices, mask)| == |Masked(base, mask)| == |FlatRecords(f, c, indices)|
    ensures InCloud(c, Masked(indices, mask))
    ensures forall k :: 0 <= k < |Masked(base, mask)| ==>
              FlatRecords(f, c, indices)[k] == Written(f, RecordAt(c, Masked(indices, mask)[k]), Masked(base, mask)[k])
  {
    hide RecordFrom, Written, Start, Count, RecordAt, InBuffer, Fits;
    if |indices| > 0 {
      assert Describes(f, c, indices[0], mask[0], base[0]);
      MaskedAgree(f, c, indices[1..], mask[1..], base[1..]);
    }
  }

  // The record of a point of a contiguous cloud, read from the arrays.
  lemma {:induction false} PointDescribed(f: Filter, c: Cloud, index: nat, x: Reading, y: Reading, z: Reading)
    requires Fits(f.offsets, c.pointStep) && |c.data| >= Count(c) * c.pointStep && index < Count(c)
    requires InBuffer(Start(c.pointStep, index), f.offsets, |c.data|)
    requires x == f.decode(WordAt(c.data, Start(c.pointStep, index) + f.offsets.x))
    requires y == f.decode(WordAt(c.data, Start(c.pointStep, index) + f.offsets.y))
    requires z == f.decode(WordAt(c.data, Start(c.pointStep, index) + f.offsets.z))
    ensures Describes(f, c, index, Keep(f, x, y, z), BasePoint(f, x, y, z))
  {
    hide Written, WordAt, Keep, BasePoint, Count;
    RecordInData(c, index);
  }

  lemma {:induction false} WrittenInTurn(f: Filter, step: nat, records: seq<seq<bv8>>, base: seq<Coordinates>,
                                         a: seq<seq<bv8>>, b: seq<seq<bv8>>, r: seq<seq<bv8>>)
    requires Fits(f.offsets, step) && Uniform(records, step)
    requires |records| == |base| == |a| == |b| == |r|
    requires WrittenBelow(records, a, f.offsets.x, Words(f, base, 0), |records|, step)
    requires WrittenBelow(a, b, f.offsets.y, Words(f, base, 1), |records|, step)
    requires WrittenBelow(b, r, f.offsets.z, Words(f, base, 2), |records|, step)
    ensures forall k :: 0 <= k < |records| ==> r[k] == Written(f, records[k], base[k])
  {
    hide Put;
  }

  // One coordinate of every selected point, encoded.
  function Words(f: Filter, base: seq<Coordinates>, axis: int): (r: seq<Word>)
    ensures |r| == |base|
  {
    seq(|base|, i requires 0 <= i < |base| =>
      f.encode(if axis == 0 then base[i].x else if axis == 1 then base[i].y else base[i].z))
  }

  method WriteCoordinates(f: Filter, step: nat, output: array<bv8>, base: seq<Coordinates>, ghost records: seq<seq<bv8>>)
    returns (ghost after: seq<seq<bv8>>)
    requires Fits(f.offsets, step) && Uniform(records, step) && |records| == |base| && output[..] == Flat(records)
    modifies output
    ensures |after| == |records| && output[..] == Flat(after)
    ensures forall k :: 0 <= k < |records| ==> after[k] == Written(f, records[k], base[k])
  {
    hide Flat, Put, Written, Words;
    ghost var a := WriteColumn(output, step, f.offsets.x, Words(f, base, 0), records);
    ghost var b := WriteColumn(output, step, f.offsets.y, Words(f, base, 1), a);
    after := WriteColumn(output, step, f.offsets.z, Words(f, base, 2), b);
    WrittenInTurn(f, step, records, base, a, b, after);
  }

  /** The vectorised path, column by column over strided views, yields exactly the records of the
      row-stepped path, in the same order and byte for byte, for any stride and for any offsets
      inside a record, overlapping ones included. */
  method FilterContiguous(f: Filter, c: Cloud) returns (output: seq<bv8>, count: nat)
    requires Fits(f.offsets, c.pointStep) && f.pointStride > 0 && Contiguous(c)
    ensures output == Flat(RowRecords(f, c, 0)) && count == |RowRecords(f, c, 0)|
  {
    hide RecordFrom, RowRecords, Flat, Start, Count, Keep, BasePoint, Written, FlatRecords, Indices;
    IndicesInCloud(c, 0, f.pointStride);
    var indices := Indices(0, Count(c), f.pointStride);
    var n := |indices|;
    var xs := Column(f, c, f.offsets.x, indices);
    var ys := Column(f, c, f.offsets.y, indices);
    var zs := Column(f, c, f.offsets.z, indices);
    var base := seq(n, i requires 0 <= i < n => BasePoint(f, xs[i], ys[i], zs[i]));
    var mask := seq(n, i requires 0 <= i < n => Keep(f, xs[i], ys[i], zs[i]));
    forall i | 0 <= i < n ensures Describes(f, c, indices[i], mask[i], base[i]) {
      RecordInData(c, indices[i]);
      ColumnsAt(f, c, indices, i, xs, ys, zs);
    }
    var selected := Masked(indices, mask);
    MaskedAgree(f, c, indices, mask, base);
    var records := RecordsAt(c, selected);
    var bytes := Flat(records);
    var buffer := new bv8[|bytes|](i requires 0 <= i < |bytes| => bytes[i]);
    assert buffer[..] == bytes;
    ghost var after := WriteCoordinates(f, c.pointStep, buffer, Masked(base, mask), records);
    RowsAreFlat(f, c, 0);
    assert after == FlatRecords(f, c, indices);
    return buffer[..], |selected|;
  }

  lemma {:induction false} ColumnsAt(f: Filter, c: Cloud, indices: seq<nat>, i: nat,
                                     xs: seq<Reading>, ys: seq<Reading>, zs: seq<Reading>)
    requires Fits(f.offsets, c.pointStep) && InCloud(c, indices) && i < |indices|
    requires xs == Column(f, c, f.offsets.x, indices)
    requires ys == Column(f, c, f.offsets.y, indices)
    requires zs == Column(f, c, f.offsets.z, indices)
    ensures Describes(f, c, indices[i], Keep(f, xs[i], ys[i], zs[i]), BasePoint(f, xs[i], ys[i], zs[i]))
  {
    hide RecordFrom, Keep, BasePoint, Written, Count;
    RecordInData(c, indices[i]);
    PointDescribed(f, c, indices[i], xs[i], ys[i], zs[i]);
  }

  // ----- What the output is -----

  function PointIndex(c: Cloud, row: nat, column: nat): nat { row * c.width + column }

  function PointStart(c: Cloud, row: nat, column: nat): nat { row * c.rowStep + column * c.pointStep }

  // The point at a byte is kept: its three words are in the buffer and finite, and it lies outside the closed
  // chassis box.
  predicate KeptAt(f: Filter, c: Cloud, start: nat)
    requires Fits(f.offsets, c.pointStep)
  {
    && start + f.offsets.x + 4 <= |c.data| && start + f.offsets.y + 4 <= |c.data| && start + f.offsets.z + 4 <= |c.data|
    && var x := f.decode(WordAt(c.data, start + f.offsets.x));
    var y := f.decode(WordAt(c.data, start + f.offsets.y));
    var z := f.decode(WordAt(c.data, start + f.offsets.z));
    && x.Finite? && y.Finite? && z.Finite?
    && var p := f.toBase(Coordinates(x.v, y.v, z.v));
    p.x < f.minX || f.maxX < p.x || p.y < -f.halfWidth || f.halfWidth < p.y || p.z < f.minZ || f.maxZ < p.z
  }

  // What the filter makes of such a point: its base-frame coordinates in the three words, every other byte as in
  // the message, the whole record as far as the buffer goes.
  predicate RecordOf(f: Filter, c: Cloud, start: nat, record: seq<bv8>)
    requires Fits(f.offsets, c.pointStep) && KeptAt(f, c, start)
  {
    && |record| == MinInt(c.pointStep, |c.data| - start)
    && (forall i :: 0 <= i < |record| && !InWords(f.offsets, i) ==> record[i] == c.data[start + i])
    && (SelfApart(f.offsets) ==>
          var x := f.decode(WordAt(c.data, start + f.offsets.x)).v;
          var y := f.decode(WordAt(c.data, start + f.offsets.y)).v;
          var z := f.decode(WordAt(c.data, start + f.offsets.z)).v;
          var p := f.toBase(Coordinates(x, y, z));
          && WordAt(record, f.offsets.x) == f.encode(p.x) && WordAt(record, f.offsets.y) == f.encode(p.y)
          && WordAt(record, f.offsets.z) == f.encode(p.z))
  }

  /** A point is dropped exactly when one of its words leaves the buffer, a coordinate is not finite, or it lies in
      the closed chassis box; otherwise its record is what it should be. */
  lemma {:induction false} RecordKeptIff(f: Filter, c: Cloud, start: nat)
    requires Fits(f.offsets, c.pointStep)
    ensures RecordFrom(f, c, start).Some? <==> KeptAt(f, c, start)
    ensures KeptAt(f, c, start) ==> RecordOf(f, c, start, RecordFrom(f, c, start).value)
  {
    hide WordAt, Put;
    if KeptAt(f, c, start) {
      var x := f.decode(WordAt(c.data, start + f.offsets.x));
      var y := f.decode(WordAt(c.data, start + f.offsets.y));
      var z := f.decode(WordAt(c.data, start + f.offsets.z));
      var record := c.data[start..MinInt(start + c.pointStep, |c.data|)];
      OtherBytesKept(f, record, BasePoint(f, x, y, z));
      if SelfApart(f.offsets) { WrittenReads(f, record, BasePoint(f, x, y, z)); }
    }
  }

  lemma {:induction false} OtherBytesKept(f: Filter, record: seq<bv8>, p: Coordinates)
    requires InBuffer(0, f.offsets, |record|)
    ensures forall i :: 0 <= i < |record| && !InWords(f.offsets, i) ==> Written(f, record, p)[i] == record[i]
  {
    hide WordAt;
  }

  // The point numbers kept from `index` on.
  function KeptFrom(f: Filter, c: Cloud, index: nat): seq<nat>
    requires Fits(f.offsets, c.pointStep) && f.pointStride > 0
    decreases Count(c) - index
  {
    if index >= Count(c) then []
    else
      WidthPositive(c);
      (if RecordFrom(f, c, RowStart(c, index)).Some? then [index] else []) + KeptFrom(f, c, index + f.pointStride)
  }

  predicate Increasing(ks: seq<nat>) { forall i, j :: 0 <= i < j < |ks| ==> ks[i] < ks[j] }

  lemma {:induction false} IncreasingCons(k: nat, ks: seq<nat>)
    requires Increasing(ks) && forall i :: i in ks ==> k < i
    ensures Increasing([k] + ks)
  {
    forall i, j | 0 <= i < j < |[k] + ks| ensures ([k] + ks)[i] < ([k] + ks)[j] { assert ([k] + ks)[j] in ks; }
  }

  lemma {:induction false} NextMultiple(k: int, index: int, stride: int)
    requires stride > 0 && k > index
    ensures (k - index) % stride == 0 <==> k >= index + stride && (k - (index + stride)) % stride == 0
  {
    var d := k - index;
    assert d % stride == (d - stride) % stride by { SameRemainder(d, stride); }
    if d < stride { assert d % stride == d; }
  }

  lemma {:induction false} SameRemainder(d: int, stride: int)
    requires stride > 0
    ensures d % stride == (d - stride) % stride
  {
    var (q, r) := (d / stride, d % stride);
    assert d - stride == (q - 1) * stride + r;
    RemainderIs(d - stride, q - 1, r, stride);
  }

  lemma {:induction false} SameQuotient(p: int, t: int, q: int, r: int, stride: int)
    requires 0 <= r < stride && 0 <= t < stride && p * stride + t == q * stride + r
    ensures p == q && t == r
  {
    var gap := p - q;
    assert gap * stride == p * stride - q * stride;
  }

  lemma {:induction false} RemainderIs(d: int, q: int, r: int, stride: int)
    requires 0 <= r < stride && d == q * stride + r
    ensures d % stride == r && d / stride == q
  {
    SameQuotient(d / stride, d % stride, q, r, stride);
  }

  lemma {:induction false} KeptFromMeans(f: Filter, c: Cloud, index: nat)
    requires Fits(f.offsets, c.pointStep) && f.pointStride > 0
    ensures var ks, records := KeptFrom(f, c, index), RowRecords(f, c, index);
      && |ks| == |records| && Increasing(ks)
      && (forall k :: k in ks ==> c.width > 0 && index <= k < Count(c))
      && (forall i :: 0 <= i < |ks| ==> RecordFrom(f, c, RowStart(c, ks[i])) == Some(records[i]))
    decreases Count(c) - index
  {
    hide RecordFrom, RowStart, Count;
    if index >= Count(c) {
      NoRowsLeft(f, c, index);
    } else {
      RowRecordsStep(f, c, index);
      KeptFromMeans(f, c, index + f.pointStride);
      var rest := KeptFrom(f, c, index + f.pointStride);
      forall k | k in rest ensures index < k { }
      IncreasingCons(index, rest);
    }
  }

  lemma {:induction false} KeptFromAll(f: Filter, c: Cloud, index: nat, k: nat)
    requires Fits(f.offsets, c.pointStep) && f.pointStride > 0 && c.width > 0
    ensures k in KeptFrom(f, c, index) <==>
            index <= k < Count(c) && (k - index) % f.pointStride == 0 && RecordFrom(f, c, RowStart(c, k)).Some?
    decreases Count(c) - index
  {
    hide RecordFrom, RowStart, Count;
    if index < Count(c) {
      KeptFromAll(f, c, index + f.pointStride, k);
      if k > index { NextMultiple(k, index, f.pointStride); }
    }
  }

  lemma {:induction false} StartOfPoint(c: Cloud, row: nat, column: nat)
    requires column < c.width
    ensures RowStart(c, PointIndex(c, row, column)) == PointStart(c, row, column)
    ensures row < c.height <==> PointIndex(c, row, column) < Count(c)
  {
    RemainderIs(PointIndex(c, row, column), row, column, c.width);
    RowBelow(row, column, c.width, c.height);
  }

  lemma {:induction false} RowBelow(row: nat, column: nat, width: nat, height: nat)
    requires column < width
    ensures row < height <==> row * width + column < width * height
  {
    if row < height { StartsApart(width, row, height); } else if height < row { StartsApart(width, height, row); }
  }

  // The points kept: in order, exactly those on the stride that are to be kept, read row by row.
  ghost predicate Selects(f: Filter, c: Cloud, ks: seq<nat>)
    requires Fits(f.offsets, c.pointStep) && f.pointStride > 0
  {
    && Increasing(ks) && (forall k :: k in ks ==> k < c.width * c.height)
    && forall row: nat, column: nat :: row < c.height && column < c.width ==>
         (PointIndex(c, row, column) in ks <==>
          PointIndex(c, row, column) % f.pointStride == 0 && KeptAt(f, c, PointStart(c, row, column)))
  }

  // Record i is that of point ks[i].
  ghost predicate RecordsOf(f: Filter, c: Cloud, ks: seq<nat>, records: seq<seq<bv8>>)
    requires Fits(f.offsets, c.pointStep)
  {
    && |ks| == |records|
    && forall i, row: nat, column: nat ::
         0 <= i < |ks| && column < c.width && ks[i] == PointIndex(c, row, column) ==>
           KeptAt(f, c, PointStart(c, row, column)) && RecordOf(f, c, PointStart(c, row, column), records[i])
  }

  ghost predicate Filtered(f: Filter, c: Cloud, output: seq<bv8>, count: nat)
    requires Fits(f.offsets, c.pointStep) && f.pointStride > 0
  {
    exists ks, records :: Selects(f, c, ks) && RecordsOf(f, c, ks, records) && output == Flat(records) && count == |ks|
  }

  /** The output, from the message alone: of the points on the stride, row by row, exactly those inside the buffer,
      finite and off the chassis, each as its rewritten record. */
  lemma {:induction false} OutputIsFiltered(f: Filter, c: Cloud)
    requires Fits(f.offsets, c.pointStep) && f.pointStride > 0
    ensures Filtered(f, c, Flat(RowRecords(f, c, 0)), |RowRecords(f, c, 0)|)
  {
    hide RecordFrom, RowStart, Flat, KeptAt, RecordOf, PointIndex, PointStart;
    var ks, records := KeptFrom(f, c, 0), RowRecords(f, c, 0);
    KeptFromMeans(f, c, 0);
    forall row: nat, column: nat | row < c.height && column < c.width
      ensures PointIndex(c, row, column) in ks <==>
              PointIndex(c, row, column) % f.pointStride == 0 && KeptAt(f, c, PointStart(c, row, column))
    {
      StartOfPoint(c, row, column);
      KeptFromAll(f, c, 0, PointIndex(c, row, column));
      RecordKeptIff(f, c, PointStart(c, row, column));
    }
    forall i, row: nat, column: nat | 0 <= i < |ks| && column < c.width && ks[i] == PointIndex(c, row, column)
      ensures KeptAt(f, c, PointStart(c, row, column)) && RecordOf(f, c, PointStart(c, row, column), records[i])
    {
      StartOfPoint(c, row, column);
      RecordKeptIff(f, c, PointStart(c, row, column));
    }
    assert Selects(f, c, ks) && RecordsOf(f, c, ks, records);
  }

  /** Whichever path the cloud takes, the output is that of the row-stepped one, and it is the filtered cloud. */
  method FilterCloud(f: Filter, c: Cloud) returns (output: seq<bv8>, count: nat)
    requires Fits(f.offsets, c.pointStep) && f.pointStride > 0
    ensures output == Flat(RowRecords(f, c, 0)) && count == |RowRecords(f, c, 0)|
    ensures Filtered(f, c, output, count)
  {
    hide Flat, RowRecords, Filtered;
    OutputIsFiltered(f, c);
    if Contiguous(c) && Count(c) > 0 {
      output, count := FilterContiguous(f, c);
    } else {
      output, count := FilterByRows(f, c);
    }
  }
}
