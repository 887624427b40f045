/** The 26-neighbour components of a set of occupied voxels. */
module VoxelComponents {
  import opened Paths

  datatype Voxel = Voxel(x: int, y: int, z: int)

  // The 27 offsets in the order of the three nested loops over -1, 0, 1.
  function Offset(i: int): Voxel
    requires 0 <= i < 27
  {
    Voxel(i / 9 - 1, i / 3 % 3 - 1, i % 3 - 1)
  }

  const NO_OFFSET: Voxel := Voxel(0, 0, 0)

  function Plus(a: Voxel, d: Voxel): Voxel { Voxel(a.x + d.x, a.y + d.y, a.z + d.z) }

  /** Two different voxels that touch by a face, an edge or a corner. */
  predicate Adjacent(a: Voxel, b: Voxel) {
    a != b && -1 <= b.x - a.x <= 1 && -1 <= b.y - a.y <= 1 && -1 <= b.z - a.z <= 1
  }

  lemma {:induction false} OffsetsAreNeighbours(a: Voxel, i: int)
    requires 0 <= i < 27
    ensures Offset(i) != NO_OFFSET <==> Adjacent(a, Plus(a, Offset(i)))
  {
  }

  lemma {:induction false} NeighbourHasOffset(a: Voxel, b: Voxel) returns (i: int)
    requires Adjacent(a, b)
    ensures 0 <= i < 27 && Plus(a, Offset(i)) == b && Offset(i) != NO_OFFSET
  {
    i := (b.x - a.x + 1) * 9 + (b.y - a.y + 1) * 3 + (b.z - a.z + 1);
  }

  function Elements(c: seq<Voxel>): set<Voxel> { set v | v in c }

  predicate Distinct(c: seq<Voxel>) { forall i, j :: 0 <= i < j < |c| ==> c[i] != c[j] }

  // A step between touching voxels of a set.
  ghost function StepIn(s: set<Voxel>): (Voxel, Voxel) -> bool {
    (a: Voxel, b: Voxel) => a in s && b in s && Adjacent(a, b)
  }

  /** Every two voxels of the set are joined by touching voxels of the set. */
  ghost predicate Connected(s: set<Voxel>) {
    forall a, b :: a in s && b in s ==> Reaches(StepIn(s), a, b)
  }

  ghost predicate Apart(s: set<Voxel>, t: set<Voxel>) {
    forall a, b :: a in s && b in t ==> a != b && !Adjacent(a, b)
  }

  ghost predicate IsComponent(c: seq<Voxel>) { |c| > 0 && Distinct(c) && Connected(Elements(c)) }

  /** Separate connected lists, each present once, that make up a set. */
  ghost predicate Partition(cs: seq<seq<Voxel>>, s: set<Voxel>) {
    && (forall c :: c in cs ==> IsComponent(c) && Elements(c) <= s && multiset(cs)[c] == 1)
    && (forall v :: v in s ==> exists c :: c in cs && v in c)
    && (forall c, d :: c in cs && d in cs && c != d ==> Apart(Elements(c), Elements(d)))
  }

  predicate SizesDescend(cs: seq<seq<Voxel>>) { forall i, j :: 0 <= i < j < |cs| ==> |cs[i]| >= |cs[j]| }

  // ----- Growing one component -----

  // The component so far, what is left of the input, and the part of the component whose
  // neighbours have still to be looked at.
  ghost predicate Growing(seed: Voxel, component: seq<Voxel>, queue: seq<Voxel>, remaining: set<Voxel>) {
    && seed in component && Distinct(component) && Elements(component) !! remaining
    && (forall v :: v in queue ==> v in component)
    && (forall v :: v in component ==> Reaches(StepIn(Elements(component)), seed, v))
    && forall a, b :: a in component && a !in queue && b in remaining ==> !Adjacent(a, b)
  }

  // The same while the neighbours of `current` are being taken, those before offset k are done.
  ghost predicate Taking(seed: Voxel, component: seq<Voxel>, queue: seq<Voxel>, remaining: set<Voxel>,
                         current: Voxel, k: int)
  {
    && 0 <= k <= 27 && current in component
    && seed in component && Distinct(component) && Elements(component) !! remaining
    && (forall v :: v in queue ==> v in component)
    && (forall v :: v in component ==> Reaches(StepIn(Elements(component)), seed, v))
    && (forall a, b :: a in component && a !in queue && a != current && b in remaining ==> !Adjacent(a, b))
    && forall i :: 0 <= i < k && Offset(i) != NO_OFFSET ==> Plus(current, Offset(i)) !in remaining
  }

  lemma {:induction false} ReachesInLarger(s: set<Voxel>, t: set<Voxel>, a: Voxel, b: Voxel)
    requires s <= t && Reaches(StepIn(s), a, b)
    ensures Reaches(StepIn(t), a, b)
  {
    var p :| Joins(StepIn(s), p, a, b);
    forall i | 0 < i < |p| ensures StepAt(StepIn(t), p, i) { assert StepAt(StepIn(s), p, i); }
    assert Joins(StepIn(t), p, a, b);
  }

  lemma {:induction false} GrowingStarts(seed: Voxel, remaining: set<Voxel>)
    requires seed !in remaining
    ensures Growing(seed, [seed], [seed], remaining)
  {
    ReachesItself(StepIn(Elements([seed])), seed);
  }

  lemma {:induction false} TakingStarts(seed: Voxel, component: seq<Voxel>, queue: seq<Voxel>, remaining: set<Voxel>)
    requires |queue| > 0 && Growing(seed, component, queue, remaining)
    ensures Taking(seed, component, queue[1..], remaining, queue[0], 0)
  {
    hide Reaches;
    assert queue == [queue[0]] + queue[1..];
  }

  lemma {:induction false} TakingAdds(seed: Voxel, component: seq<Voxel>, queue: seq<Voxel>, remaining: set<Voxel>,
                                      current: Voxel, k: int, neighbour: Voxel)
    requires k < 27 && Taking(seed, component, queue, remaining, current, k) && Offset(k) != NO_OFFSET
    requires neighbour == Plus(current, Offset(k)) && neighbour in remaining
    ensures Taking(seed, component + [neighbour], queue + [neighbour], remaining - {neighbour}, current, k + 1)
  {
    hide Reaches;
    var grown := component + [neighbour];
    var (s, t) := (Elements(component), Elements(grown));
    assert t == s + {neighbour};
    assert neighbour in grown;
    OffsetsAreNeighbours(current, k);
    forall v | v in component ensures Reaches(StepIn(t), seed, v) { ReachesInLarger(s, t, seed, v); }
    ReachesNext(StepIn(t), seed, current, neighbour);
  }

  lemma {:induction false} TakingSkips(seed: Voxel, component: seq<Voxel>, queue: seq<Voxel>, remaining: set<Voxel>,
                                       current: Voxel, k: int)
    requires k < 27 && Taking(seed, component, queue, remaining, current, k)
    requires Offset(k) == NO_OFFSET || Plus(current, Offset(k)) !in remaining
    ensures Taking(seed, component, queue, remaining, current, k + 1)
  {
    hide Reaches, Offset;
  }

  lemma {:induction false} TakingEnds(seed: Voxel, component: seq<Voxel>, queue: seq<Voxel>, remaining: set<Voxel>,
                                      current: Voxel)
    requires Taking(seed, component, queue, remaining, current, 27)
    ensures Growing(seed, component, queue, remaining)
  {
    hide Reaches, Offset, Adjacent, Plus;
    forall b | b in remaining ensures !Adjacent(current, b) {
      if Adjacent(current, b) {
        var i := NeighbourHasOffset(current, b);
        assert false;
      }
    }
  }

  lemma {:induction false} GrownIsComponent(seed: Voxel, component: seq<Voxel>, remaining: set<Voxel>)
    requires Growing(seed, component, [], remaining)
    ensures IsComponent(component) && Apart(Elements(component), remaining) && seed in component
  {
    hide Reaches;
    var s := Elements(component);
    assert IsSymmetric(StepIn(s));
    forall a, b | a in s && b in s ensures Reaches(StepIn(s), a, b) {
      ReachesReversed(StepIn(s), seed, a);
      ReachesThrough(StepIn(s), a, seed, b);
    }
  }

  // A voxel taken moves from what remains to the component.
  lemma {:induction false} TakenMoves(component: seq<Voxel>, remaining: set<Voxel>, v: Voxel)
    requires v in remaining
    ensures Elements(component + [v]) + (remaining - {v}) == Elements(component) + remaining
  {
    assert Elements(component + [v]) == Elements(component) + {v};
  }

  lemma {:induction false} ElementsOfOne(v: Voxel)
    ensures Elements([v]) == {v}
  {
  }

  /** Takes the whole component of the seed out of the remaining voxels. */
  method Grow(seed: Voxel, voxels: set<Voxel>) returns (component: seq<Voxel>, remaining: set<Voxel>)
    requires seed !in voxels
    ensures seed in component && IsComponent(component) && Apart(Elements(component), remaining)
    ensures Elements(component) + remaining == voxels + {seed} && Elements(component) !! remaining
  {
    hide Growing, Taking, Reaches, IsComponent, Apart, Offset, Plus, Elements;
    ElementsOfOne(seed);
    component, remaining := [seed], voxels;
    var queue := [seed];
    GrowingStarts(seed, remaining);
    while |queue| > 0
      invariant Growing(seed, component, queue, remaining)
      invariant Elements(component) + remaining == voxels + {seed}
      decreases |remaining|, |queue|
    {
      var current := queue[0];
      TakingStarts(seed, component, queue, remaining);
      ghost var (before, waiting) := (remaining, |queue|);
      queue := queue[1..];
      for k := 0 to 27
        invariant Taking(seed, component, queue, remaining, current, k)
        invariant Elements(component) + remaining == voxels + {seed}
        invariant remaining <= before && (remaining == before ==> |queue| == waiting - 1)
      {
        var delta := Offset(k);
        if delta != NO_OFFSET && Plus(current, delta) in remaining {
          var neighbour := Plus(current, delta);
          TakingAdds(seed, component, queue, remaining, current, k, neighbour);
          TakenMoves(component, remaining, neighbour);
          remaining := remaining - {neighbour};
          component, queue := component + [neighbour], queue + [neighbour];
        } else {
          TakingSkips(seed, component, queue, remaining, current, k);
        }
      }
      TakingEnds(seed, component, queue, remaining, current);
      if remaining != before { ProperSubsetSize(remaining, before); }
    }
    assert queue == [];
    GrownIsComponent(seed, component, remaining);
    GrowingDisjoint(seed, component, queue, remaining);
  }

  lemma {:induction false} GrowingDisjoint(seed: Voxel, component: seq<Voxel>, queue: seq<Voxel>, remaining: set<Voxel>)
    requires Growing(seed, component, queue, remaining)
    ensures Elements(component) !! remaining
  {
  }

  lemma {:induction false} ProperSubsetSize(a: set<Voxel>, b: set<Voxel>)
    requires a < b
    ensures |a| < |b|
  {
    var x :| x in b && x !in a;
    assert b == a + {x} + (b - a - {x});
  }

  // ----- All components, largest first -----

  // Python's stable descending sort, as insertion after everything at least as long.
  function InsertBySize(cs: seq<seq<Voxel>>, c: seq<Voxel>): (r: seq<seq<Voxel>>)
    ensures multiset(r) == multiset(cs) + multiset{c}
  {
    if |cs| == 0 then [c]
    else if |cs[|cs| - 1]| >= |c| then cs + [c]
    else
      assert cs == cs[..|cs| - 1] + [cs[|cs| - 1]];
      InsertBySize(cs[..|cs| - 1], c) + [cs[|cs| - 1]]
  }

  function SortBySize(cs: seq<seq<Voxel>>): (r: seq<seq<Voxel>>)
    ensures multiset(r) == multiset(cs)
  {
    if |cs| == 0 then []
    else
      assert cs == cs[..|cs| - 1] + [cs[|cs| - 1]];
      InsertBySize(SortBySize(cs[..|cs| - 1]), cs[|cs| - 1])
  }

  lemma {:induction false} InsertBounded(cs: seq<seq<Voxel>>, c: seq<Voxel>, low: nat)
    requires |c| >= low && forall i :: 0 <= i < |cs| ==> |cs[i]| >= low
    ensures forall i :: 0 <= i < |InsertBySize(cs, c)| ==> |InsertBySize(cs, c)[i]| >= low
  {
    if |cs| > 0 && |cs[|cs| - 1]| < |c| { InsertBounded(cs[..|cs| - 1], c, low); }
  }

  lemma {:induction false} InsertKeepsOrder(cs: seq<seq<Voxel>>, c: seq<Voxel>)
    requires SizesDescend(cs)
    ensures SizesDescend(InsertBySize(cs, c))
  {
    if |cs| > 0 && |cs[|cs| - 1]| < |c| {
      InsertKeepsOrder(cs[..|cs| - 1], c);
      InsertBounded(cs[..|cs| - 1], c, |cs[|cs| - 1]|);
    }
  }

  lemma {:induction false} SortDescends(cs: seq<seq<Voxel>>)
    ensures SizesDescend(SortBySize(cs))
  {
    if |cs| > 0 {
      SortDescends(cs[..|cs| - 1]);
      InsertKeepsOrder(SortBySize(cs[..|cs| - 1]), cs[|cs| - 1]);
    }
  }

  lemma {:induction false} PartitionPermutes(cs: seq<seq<Voxel>>, ds: seq<seq<Voxel>>, s: set<Voxel>)
    requires Partition(cs, s) && multiset(cs) == multiset(ds)
    ensures Partition(ds, s)
  {
    hide IsComponent, Apart;
    forall c ensures c in cs <==> c in ds { assert c in multiset(cs) <==> c in multiset(ds); }
  }

  // One more component, apart from all that were found before.
  lemma {:induction false} PartitionExtends(cs: seq<seq<Voxel>>, c: seq<Voxel>, s: set<Voxel>, t: set<Voxel>)
    requires Partition(cs, s) && IsComponent(c) && t == s + Elements(c)
    requires forall d :: d in cs ==> Apart(Elements(d), Elements(c))
    ensures Partition(cs + [c], t)
  {
    hide Connected;
    var ds := cs + [c];
    assert c[0] in Elements(c) && c !in cs;
    forall d | d in ds ensures multiset(ds)[d] == 1 { assert d != c ==> d in cs; }
    forall v | v in t ensures exists d :: d in ds && v in d {
      if v in s {
        var d :| d in cs && v in d;
        assert d in ds;
      } else {
        assert c in ds && v in c;
      }
    }
    ApartSymmetric();
  }

  lemma {:induction false} ApartSymmetric()
    ensures forall s, t :: Apart(s, t) ==> Apart(t, s)
  {
  }

  lemma {:induction false} ApartFromPart(s: set<Voxel>, t: set<Voxel>, u: set<Voxel>)
    requires Apart(s, t) && u <= t
    ensures Apart(s, u)
  {
  }

  /** The components of any finite set of voxels, whatever voxel each pass starts from: the lists are
      free of duplicates, disjoint and cover exactly the input, each is connected by touching
      voxels, no two of them touch, and their sizes never increase. */
  method ConnectedComponents(voxels: set<Voxel>) returns (components: seq<seq<Voxel>>)
    ensures Partition(components, voxels) && SizesDescend(components)
  {
    hide IsComponent, Apart, Partition;
    var remaining := voxels;
    var found: seq<seq<Voxel>> := [];
    EmptyPartition();
    assert voxels - remaining == {};
    while remaining != {}
      invariant remaining <= voxels && Partition(found, voxels - remaining)
      invariant forall c :: c in found ==> Apart(Elements(c), remaining)
      decreases |remaining|
    {
      var seed :| seed in remaining;
      var component, rest := Grow(seed, remaining - {seed});
      assert remaining == Elements(component) + rest;
      forall c | c in found ensures Apart(Elements(c), Elements(component)) && Apart(Elements(c), rest) {
        ApartFromPart(Elements(c), remaining, Elements(component));
        ApartFromPart(Elements(c), remaining, rest);
      }
      assert voxels - rest == (voxels - remaining) + Elements(component);
      PartitionExtends(found, component, voxels - remaining, voxels - rest);
      assert rest < remaining by { ComponentNotEmpty(component); }
      ProperSubsetSize(rest, remaining);
      found, remaining := found + [component], rest;
    }
    assert voxels - remaining == voxels;
    components := SortBySize(found);
    SortDescends(found);
    PartitionPermutes(found, components, voxels);
  }

  lemma {:induction false} EmptyPartition()
    ensures Partition([], {})
  {
  }

  lemma {:induction false} ComponentNotEmpty(c: seq<Voxel>)
    requires IsComponent(c)
    ensures Elements(c) != {}
  {
    assert c[0] in Elements(c);
  }
}
