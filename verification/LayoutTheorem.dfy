/** Any class laid out by the rules gives distinct base subobjects of one type
    distinct addresses: the empty ones because every placement is checked
    against all the empty subobjects placed before it, the others because the
    storage of the direct bases is disjoint. */
module LayoutTheorem {
  import opened Hierarchy
  import opened EmptyOffsets
  import opened LayoutRules

  /** The storage of every non-empty base subobject lies within the class. */
  ghost predicate Nested(w: World, c: ClassId)
    requires Ordered(w)
  {
    forall p: Path :: ValidPath(w, c, p) && !IsEmptyClass(w, TypeAt(w, c, p)) ==>
      OffsetAt(w, c, p) + w[TypeAt(w, c, p)].nvsize <= w[c].nvsize
  }

  /** Two direct bases placed apart: no common empty subobject, no common byte. */
  ghost predicate Apart(w: World, b1: ClassId, o1: nat, b2: ClassId, o2: nat)
    requires Ordered(w) && b1 < |w| && b2 < |w|
  {
    && EmptySubobjects(w, b1, o1) * EmptySubobjects(w, b2, o2) == {}
    && (!IsEmptyClass(w, b1) && !IsEmptyClass(w, b2) ==> o1 + w[b1].nvsize <= o2 || o2 + w[b2].nvsize <= o1)
  }

  lemma {:induction false} FitsIsFree(w: World, c: ClassId, pos: nat, taken: set<Place>, o: nat)
    requires Ordered(w) && c < |w| && Fits(w, c, pos, taken, o)
    ensures !Clash(w, c, o, taken)
    ensures !IsEmptyClass(w, c) ==> pos <= o
  {
    if !IsEmptyClass(w, c) {
      var a := w[c].align;
      var k: nat :| o == Spot(RoundUp(pos, a), a, k);
      assert k * a >= 0;
    }
  }

  lemma {:induction false} FitPrefix(w: World, d: ClassDecl, vptr: nat, pls: seq<Placement>, n: nat)
    requires Ordered(w) && BasesBelow(d, |w|) && ValidPlacements(d, pls) && AllFit(w, d, vptr, pls) && n <= |pls|
    ensures ValidPlacements(d, pls[..n]) && AllFit(w, d, vptr, pls[..n])
  {
    forall i | 0 <= i < n
      ensures FitsAt(w, d, vptr, pls[..n], i)
    {
      assert FitsAt(w, d, vptr, pls, i) && pls[..n][i] == pls[i] && pls[..n][..i] == pls[..i];
    }
  }

  /** The last placement is free of what came before. */
  lemma {:induction false} LastIsFree(w: World, d: ClassDecl, vptr: nat, pls: seq<Placement>, n: nat)
    requires Ordered(w) && BasesBelow(d, |w|) && ValidPlacements(d, pls) && AllFit(w, d, vptr, pls) && n < |pls|
    ensures ValidPlacements(d, pls[..n])
    ensures !Clash(w, d.bases[pls[n].base], pls[n].offset, TakenAfter(w, d, pls[..n]))
    ensures !IsEmptyClass(w, d.bases[pls[n].base]) ==> PosAfter(w, d, vptr, pls[..n]) <= pls[n].offset
  {
    assert FitsAt(w, d, vptr, pls, n);
    FitsIsFree(w, d.bases[pls[n].base], PosAfter(w, d, vptr, pls[..n]), TakenAfter(w, d, pls[..n]), pls[n].offset);
  }

  /** `TakenAfter` only grows, and covers every placement made. */
  lemma {:induction false} TakenCovers(w: World, d: ClassDecl, pls: seq<Placement>, j: nat)
    requires Ordered(w) && BasesBelow(d, |w|) && ValidPlacements(d, pls) && j < |pls|
    ensures EmptySubobjects(w, d.bases[pls[j].base], pls[j].offset) <= TakenAfter(w, d, pls)
    decreases |pls|
  {
    var n := |pls| - 1;
    if j < n {
      TakenCovers(w, d, pls[..n], j);
    }
  }

  /** So does `PosAfter`. */
  lemma {:induction false} PosGrows(w: World, d: ClassDecl, vptr: nat, pls: seq<Placement>)
    requires Ordered(w) && BasesBelow(d, |w|) && ValidPlacements(d, pls) && AllFit(w, d, vptr, pls) && pls != []
    ensures PosAfter(w, d, vptr, pls[..|pls| - 1]) <= PosAfter(w, d, vptr, pls)
  {
    LastIsFree(w, d, vptr, pls, |pls| - 1);
  }

  lemma {:induction false} PosCovers(w: World, d: ClassDecl, vptr: nat, pls: seq<Placement>, j: nat)
    requires Ordered(w) && BasesBelow(d, |w|) && ValidPlacements(d, pls) && AllFit(w, d, vptr, pls)
    requires j < |pls| && !IsEmptyClass(w, d.bases[pls[j].base])
    ensures pls[j].offset + w[d.bases[pls[j].base]].nvsize <= PosAfter(w, d, vptr, pls)
    decreases |pls|
  {
    var n := |pls| - 1;
    if j < n {
      PosGrows(w, d, vptr, pls);
      FitPrefix(w, d, vptr, pls, n);
      PosCovers(w, d, vptr, pls[..n], j);
      assert pls[..n][j] == pls[j];
    }
  }

  /** Any two of the direct bases are apart. */
  lemma {:induction false} PlacementsApart(w: World, d: ClassDecl, vptr: nat, pls: seq<Placement>, i: nat, j: nat)
    requires Ordered(w) && BasesBelow(d, |w|) && ValidPlacements(d, pls) && AllFit(w, d, vptr, pls)
    requires i < j < |pls|
    ensures Apart(w, d.bases[pls[i].base], pls[i].offset, d.bases[pls[j].base], pls[j].offset)
  {
    FitPrefix(w, d, vptr, pls, j);
    TakenCovers(w, d, pls[..j], i);
    if !IsEmptyClass(w, d.bases[pls[i].base]) {
      PosCovers(w, d, vptr, pls[..j], i);
    }
    LastIsFree(w, d, vptr, pls, j);
  }

  lemma {:induction false} BasesApart(w: World, info: ClassInfo, i: nat, j: nat)
    requires Ordered(w) && LaidOut(w, info) && i < |info.decl.bases| && j < |info.decl.bases| && i != j
    ensures |info.offsets| == |info.decl.bases|
    ensures Apart(w, info.decl.bases[i], info.offsets[i], info.decl.bases[j], info.offsets[j])
  {
    var pls: seq<Placement> :| PlacedBy(w, info.decl, info.primary, info.offsets, pls) && SizedBy(w, info, pls);
    var x := PlacementOf(w, info, pls, i);
    var y := PlacementOf(w, info, pls, j);
    if x < y {
      PlacementsApart(w, info.decl, VptrSize(info.decl, info.primary), pls, x, y);
    } else {
      PlacementsApart(w, info.decl, VptrSize(info.decl, info.primary), pls, y, x);
    }
  }

  lemma {:induction false} PlacementOf(w: World, info: ClassInfo, pls: seq<Placement>, i: nat) returns (x: nat)
    requires Ordered(w) && WellFormedDecl(info.decl, |w|) && PlacedBy(w, info.decl, info.primary, info.offsets, pls) && i < |info.decl.bases|
    ensures x < |pls| && pls[x] == Placement(i, info.offsets[i])
  {
    var order := AllocationOrder(|info.decl.bases|, info.primary);
    assert i in order;
    x :| 0 <= x < |order| && order[x] == i;
  }

  /** A class that is not empty covers its non-empty direct bases; an empty one
      has none. */
  lemma {:induction false} BaseCovered(w: World, info: ClassInfo, i: nat)
    requires Ordered(w) && LaidOut(w, info) && i < |info.decl.bases| && !IsEmptyClass(w, info.decl.bases[i])
    ensures |info.offsets| == |info.decl.bases|
    ensures info.offsets[i] + w[info.decl.bases[i]].nvsize <= info.nvsize
  {
    var pls: seq<Placement> :| PlacedBy(w, info.decl, info.primary, info.offsets, pls) && SizedBy(w, info, pls);
    assert !OnlyPadding(w, info.decl, info.primary);
    assert info.offsets[i] + w[info.decl.bases[i]].nvsize
        <= EndOfBases(w, info.decl, info.offsets, |info.decl.bases|);
  }

  lemma {:induction false} Aligned(w: World)
    requires AllLaidOut(w)
    ensures forall c :: 0 <= c < |w| ==> w[c].align > 0
  {
    forall c | 0 <= c < |w|
      ensures w[c].align > 0
    {
      assert LaidOutInTurn(w, c);
    }
  }

  /** Dropping the head of a path from `c` gives a path from a direct base, in
      the world where the bases were completed. */
  lemma {:induction false} PathTail(w: World, c: ClassId, p: Path)
    requires Ordered(w) && c < |w| && Ordered(w[..c]) && ValidPath(w, c, p) && p != []
    ensures ValidPath(w[..c], w[c].decl.bases[p[0]], p[1..])
    ensures TypeAt(w, c, p) == TypeAt(w[..c], w[c].decl.bases[p[0]], p[1..])
    ensures OffsetAt(w, c, p) == w[c].offsets[p[0]] + OffsetAt(w[..c], w[c].decl.bases[p[0]], p[1..])
  {
    PathsStable(w[..c], w, w[c].decl.bases[p[0]], p[1..]);
  }

  lemma {:induction false} LaidOutNested(w: World, c: ClassId)
    requires AllLaidOut(w) && c < |w|
    ensures Nested(w, c)
    decreases c
  {
    assert LaidOutInTurn(w, c);
    forall p: Path | ValidPath(w, c, p) && !IsEmptyClass(w, TypeAt(w, c, p))
      ensures OffsetAt(w, c, p) + w[TypeAt(w, c, p)].nvsize <= w[c].nvsize
    {
      if p != [] {
        var b := w[c].decl.bases[p[0]];
        LaidOutNested(w, b);
        assert ValidPath(w, b, p[1..]);
        BaseCovered(w[..c], w[c], p[0]);
      }
    }
  }

  /** Two subobjects of one type in two bases that are apart are apart. */
  lemma {:induction false} ApartPaths(w: World, b1: ClassId, o1: nat, p: Path, b2: ClassId, o2: nat, q: Path)
    requires Ordered(w) && ValidPath(w, b1, p) && ValidPath(w, b2, q)
    requires Apart(w, b1, o1, b2, o2) && Nested(w, b1) && Nested(w, b2)
    requires TypeAt(w, b1, p) == TypeAt(w, b2, q)
    ensures o1 + OffsetAt(w, b1, p) != o2 + OffsetAt(w, b2, q)
  {
    var t := TypeAt(w, b1, p);
    if o1 + OffsetAt(w, b1, p) == o2 + OffsetAt(w, b2, q) {
      if IsEmptyClass(w, t) {
        var pl := Place(t, o1 + OffsetAt(w, b1, p));
        assert EmptyPath(w, b1, o1, p, pl) && EmptyPath(w, b2, o2, q, pl);
        EmptySubobjectsAreEmptyPaths(w, b1, o1, pl);
        EmptySubobjectsAreEmptyPaths(w, b2, o2, pl);
        assert pl in EmptySubobjects(w, b1, o1) * EmptySubobjects(w, b2, o2);
      }
    }
  }

  /** Nested and Apart speak only of completed bases. */
  lemma {:induction false} NestedStable(w: World, c: ClassId, b: ClassId)
    requires Ordered(w) && c < |w| && Ordered(w[..c]) && b < c && Nested(w, b)
    ensures Nested(w[..c], b)
  {
    forall p: Path | ValidPath(w[..c], b, p) && !IsEmptyClass(w[..c], TypeAt(w[..c], b, p))
      ensures OffsetAt(w[..c], b, p) + w[TypeAt(w[..c], b, p)].nvsize <= w[b].nvsize
    {
      PathsStable(w[..c], w, b, p);
    }
  }

  lemma {:induction false} DifferentBasesApart(w: World, c: ClassId, p: Path, q: Path)
    requires AllLaidOut(w) && ValidPath(w, c, p) && ValidPath(w, c, q)
    requires p != [] && q != [] && p[0] != q[0] && TypeAt(w, c, p) == TypeAt(w, c, q)
    ensures OffsetAt(w, c, p) != OffsetAt(w, c, q)
  {
    assert LaidOutInTurn(w, c);
    var b1, b2 := w[c].decl.bases[p[0]], w[c].decl.bases[q[0]];
    LaidOutNested(w, b1);
    LaidOutNested(w, b2);
    NestedStable(w, c, b1);
    NestedStable(w, c, b2);
    BasesApart(w[..c], w[c], p[0], q[0]);
    PathTail(w, c, p);
    PathTail(w, c, q);
    ApartPaths(w[..c], b1, w[c].offsets[p[0]], p[1..], b2, w[c].offsets[q[0]], q[1..]);
  }

  /** The layout theorem: in every hierarchy laid out by the rules, two distinct
      base subobjects of the same type never share an address. */
  lemma {:induction false} DistinctSubobjectsDistinctAddresses(w: World, c: ClassId)
    requires AllLaidOut(w) && c < |w|
    ensures UniqueAddresses(w, c)
    decreases c
  {
    forall p: Path, q: Path | ValidPath(w, c, p) && ValidPath(w, c, q)
        && TypeAt(w, c, p) == TypeAt(w, c, q) && OffsetAt(w, c, p) == OffsetAt(w, c, q)
      ensures p == q
    {
      if p != [] && q != [] {
        if p[0] == q[0] {
          DistinctSubobjectsDistinctAddresses(w, w[c].decl.bases[p[0]]);
          assert p == [p[0]] + p[1..] && q == [q[0]] + q[1..];
        } else {
          DifferentBasesApart(w, c, p, q);
        }
      }
    }
  }

  /** The primary base is at offset zero, so that its virtual table pointer can
      be shared; `finish_struct_1` asserts it. */
  lemma {:induction false} PrimaryAtZero(w: World, info: ClassInfo)
    requires Ordered(w) && LaidOut(w, info) && info.primary.Some?
    ensures info.primary.value < |info.offsets| == |info.decl.bases|
    ensures info.offsets[info.primary.value] == 0
  {
    var pls: seq<Placement> :| PlacedBy(w, info.decl, info.primary, info.offsets, pls) && SizedBy(w, info, pls);
    assert pls[0].base == info.primary.value;
    FirstAtZero(w, info.decl, pls);
  }

  /** With no bytes in use the first base tried goes to offset zero. */
  lemma {:induction false} FirstAtZero(w: World, d: ClassDecl, pls: seq<Placement>)
    requires Ordered(w) && BasesBelow(d, |w|) && ValidPlacements(d, pls) && pls != []
    requires AllFit(w, d, 0, pls)
    ensures pls[0].offset == 0
  {
    assert pls[..0] == [];
    var b := d.bases[pls[0].base];
    assert FitsAt(w, d, 0, pls, 0);
    if !IsEmptyClass(w, b) {
      var a := w[b].align;
      assert RoundUp(0, a) == 0 by { assert (a - 1) / a == 0; }
      var k: nat :| pls[0].offset == Spot(0, a, k) && forall j: nat :: j < k ==> Clash(w, b, Spot(0, a, j), {});
      assert !Clash(w, b, Spot(0, a, 0), {});
    }
  }
}
