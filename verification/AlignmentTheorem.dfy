/** Any class laid out by the rules is aligned: every object in it, at any depth, is at a
    multiple of its alignment, nothing overlaps, and no more room is taken than that asks
    for. */
module AlignmentTheorem {
  import opened Hierarchy
  import opened EmptyOffsets
  import opened LayoutRules
  import LayoutTheorem
  import VtableRules

  /** `x` is a multiple of `a`. */
  ghost predicate Multiple(x: nat, a: nat) {
    a > 0 && exists k: nat :: Times(k, a) == x
  }

  function Times(k: nat, a: nat): nat {
    k * a
  }

  lemma {:induction false} MultipleMeansNoRest(x: nat, a: nat)
    requires a > 0
    ensures Multiple(x, a) <==> x % a == 0
  {
    if x % a == 0 {
      assert x == x / a * a + x % a;
      assert Times(x / a, a) == x;
    }
    if Multiple(x, a) {
      var k: nat :| Times(k, a) == x;
      MultipleHasNoRest(k, a);
    }
  }

  lemma {:induction false} MultipleOfMultiple(x: nat, b: nat, a: nat)
    requires Multiple(x, b) && Multiple(b, a)
    ensures Multiple(x, a)
  {
    var k: nat :| Times(k, b) == x;
    var m: nat :| Times(m, a) == b;
    assert k * (m * a) == (k * m) * a;
    assert Times(k * m, a) == x;
  }

  lemma {:induction false} SumOfMultiples(x: nat, y: nat, a: nat)
    requires Multiple(x, a) && Multiple(y, a)
    ensures Multiple(x + y, a)
  {
    var k: nat :| Times(k, a) == x;
    var m: nat :| Times(m, a) == y;
    assert (k + m) * a == k * a + m * a;
    assert Times(k + m, a) == x + y;
  }

  predicate PowerOfTwo(n: nat) {
    n == 1 || (n > 1 && n % 2 == 0 && PowerOfTwo(n / 2))
  }

  /** Of two powers of two the larger is a multiple of the smaller. */
  lemma {:induction false} PowersDivide(a: nat, b: nat)
    requires PowerOfTwo(a) && PowerOfTwo(b) && a <= b
    ensures Multiple(b, a)
    decreases a
  {
    if a > 1 {
      PowersDivide(a / 2, b / 2);
      var k: nat :| Times(k, a / 2) == b / 2;
      assert 2 * (k * (a / 2)) == k * (2 * (a / 2));
      assert Times(k, a) == b;
    } else {
      assert Times(b, 1) == b;
    }
  }

  /** The class has a virtual table pointer of its own. */
  predicate OwnVptr(w: World, c: ClassId)
    requires c < |w|
  {
    w[c].primary.None? && w[c].decl.virtuals != []
  }

  /** An alignment that something in the class asks for. */
  ghost predicate AskedFor(w: World, c: ClassId, a: nat)
    requires Ordered(w) && c < |w|
  {
    || a == w[c].decl.minAlign
    || (OwnVptr(w, c) && a == POINTER_SIZE)
    || (exists i :: 0 <= i < |w[c].decl.bases| && BaseAsks(w, c, i, a))
    || (exists i :: 0 <= i < |w[c].decl.fields| && w[c].decl.fields[i].align == a)
  }

  predicate BaseAsks(w: World, c: ClassId, i: nat, a: nat)
    requires Ordered(w) && c < |w| && i < |w[c].decl.bases|
  {
    !IsEmptyClass(w, w[c].decl.bases[i]) && w[w[c].decl.bases[i]].align == a
  }

  /** The placements that a completed class comes from, in the world of its bases. */
  ghost predicate From(w: World, c: ClassId, pls: seq<Placement>)
    requires Ordered(w) && c < |w|
  {
    && Ordered(w[..c]) && WellFormedDecl(w[c].decl, c)
    && PlacedBy(w[..c], w[c].decl, w[c].primary, w[c].offsets, pls) && SizedBy(w[..c], w[c], pls)
  }

  lemma {:induction false} PlacementsOf(w: World, c: ClassId) returns (pls: seq<Placement>)
    requires AllLaidOut(w) && c < |w|
    ensures From(w, c, pls)
  {
    assert LaidOutInTurn(w, c);
    pls :| PlacedBy(w[..c], w[c].decl, w[c].primary, w[c].offsets, pls) && SizedBy(w[..c], w[c], pls);
  }

  /** What the alignment after some bases is. */
  lemma {:induction false} AlignReached(w: World, d: ClassDecl, start: nat, pls: seq<Placement>)
    requires Ordered(w) && BasesBelow(d, |w|) && ValidPlacements(d, pls)
    ensures forall j :: 0 <= j < |pls| && !IsEmptyClass(w, d.bases[pls[j].base]) ==>
      w[d.bases[pls[j].base]].align <= AlignAfter(w, d, start, pls)
    ensures AlignAfter(w, d, start, pls) == start
      || exists j :: 0 <= j < |pls| && !IsEmptyClass(w, d.bases[pls[j].base])
                     && AlignAfter(w, d, start, pls) == w[d.bases[pls[j].base]].align
    decreases |pls|
  {
    if pls != [] {
      var front := pls[..|pls| - 1];
      AlignReached(w, d, start, front);
      assert forall j :: 0 <= j < |front| ==> front[j] == pls[j];
      var b := d.bases[pls[|pls| - 1].base];
      if AlignAfter(w, d, start, pls) == AlignAfter(w, d, start, front) && AlignAfter(w, d, start, pls) != start {
        var j :| 0 <= j < |front| && !IsEmptyClass(w, d.bases[front[j].base])
                 && AlignAfter(w, d, start, front) == w[d.bases[front[j].base]].align;
        assert pls[j] == front[j];
      }
    }
  }

  lemma {:induction false} FieldsAlignReached(start: nat, fields: seq<Field>)
    ensures forall i :: 0 <= i < |fields| ==> fields[i].align <= FieldsAlign(start, fields)
    ensures FieldsAlign(start, fields) == start || exists i :: 0 <= i < |fields| && FieldsAlign(start, fields) == fields[i].align
    decreases |fields|
  {
    if fields != [] {
      var front := fields[..|fields| - 1];
      FieldsAlignReached(start, front);
      assert forall i :: 0 <= i < |front| ==> front[i] == fields[i];
    }
  }

  lemma {:induction false} BaseAlignBelow(w: World, c: ClassId, i: nat)
    requires AllLaidOut(w) && c < |w| && i < |w[c].decl.bases| && !IsEmptyClass(w, w[c].decl.bases[i])
    ensures w[w[c].decl.bases[i]].align <= w[c].align
  {
    var pls := PlacementsOf(w, c);
    var (d, start) := (w[c].decl, StartAlign(w[c].decl, w[c].primary));
    AlignReached(w[..c], d, start, pls);
    FieldsAlignReached(AlignAfter(w[..c], d, start, pls), d.fields);
    var x := LayoutTheorem.PlacementOf(w[..c], w[c], pls, i);
    assert pls[x].base == i;
  }

  lemma {:induction false} AlignIsAskedFor(w: World, c: ClassId)
    requires AllLaidOut(w) && c < |w|
    ensures AskedFor(w, c, w[c].align)
  {
    var pls := PlacementsOf(w, c);
    var (d, start) := (w[c].decl, StartAlign(w[c].decl, w[c].primary));
    AlignReached(w[..c], d, start, pls);
    FieldsAlignReached(AlignAfter(w[..c], d, start, pls), d.fields);
    if w[c].align == AlignAfter(w[..c], d, start, pls) != start {
      SomeBaseAsks(w, c, pls);
    }
  }

  lemma {:induction false} SomeBaseAsks(w: World, c: ClassId, pls: seq<Placement>)
    requires AllLaidOut(w) && c < |w| && From(w, c, pls)
    requires exists j :: 0 <= j < |pls| && !IsEmptyClass(w[..c], w[c].decl.bases[pls[j].base])
                      && w[c].align == w[..c][w[c].decl.bases[pls[j].base]].align
    ensures AskedFor(w, c, w[c].align)
  {
    var j :| 0 <= j < |pls| && !IsEmptyClass(w[..c], w[c].decl.bases[pls[j].base])
             && w[c].align == w[..c][w[c].decl.bases[pls[j].base]].align;
    assert BaseAsks(w, c, pls[j].base, w[c].align);
  }

  /** The alignment of a class is the largest that anything in it asks for. */
  lemma {:induction false} AlignIsLargest(w: World, c: ClassId)
    requires AllLaidOut(w) && c < |w|
    ensures AskedFor(w, c, w[c].align)
    ensures forall a: nat :: AskedFor(w, c, a) ==> a <= w[c].align
  {
    AlignIsAskedFor(w, c);
    forall a: nat | AskedFor(w, c, a)
      ensures a <= w[c].align
    {
      AskedForBelow(w, c, a);
    }
  }

  lemma {:induction false} AskedForBelow(w: World, c: ClassId, a: nat)
    requires AllLaidOut(w) && c < |w| && AskedFor(w, c, a)
    ensures a <= w[c].align
  {
    var pls := PlacementsOf(w, c);
    FieldsAlignReached(AlignAfter(w[..c], w[c].decl, StartAlign(w[c].decl, w[c].primary), pls), w[c].decl.fields);
    if i :| 0 <= i < |w[c].decl.bases| && BaseAsks(w, c, i, a) {
      BaseAlignBelow(w, c, i);
    }
  }

  /** All alignments asked for in declarations are powers of two. */
  predicate PowersOnly(w: World) {
    forall c :: 0 <= c < |w| ==>
      PowerOfTwo(w[c].decl.minAlign) && forall i :: 0 <= i < |w[c].decl.fields| ==> PowerOfTwo(w[c].decl.fields[i].align)
  }

  lemma {:induction false} AskedForPower(w: World, c: ClassId, a: nat)
    requires AllLaidOut(w) && PowersOnly(w) && c < |w| && AskedFor(w, c, a)
    ensures PowerOfTwo(a)
    decreases c, 0
  {
    assert PowerOfTwo(POINTER_SIZE) by {
      assert PowerOfTwo(2);
    }
    if i :| 0 <= i < |w[c].decl.bases| && BaseAsks(w, c, i, a) {
      AlignIsPower(w, w[c].decl.bases[i]);
    }
  }

  lemma {:induction false} AlignIsPower(w: World, c: ClassId)
    requires AllLaidOut(w) && PowersOnly(w) && c < |w|
    ensures PowerOfTwo(w[c].align)
    decreases c, 1
  {
    AlignIsLargest(w, c);
    AskedForPower(w, c, w[c].align);
  }

  /** It suits everything in the class. */
  lemma {:induction false} AlignSuits(w: World, c: ClassId, a: nat)
    requires AllLaidOut(w) && PowersOnly(w) && c < |w| && AskedFor(w, c, a)
    ensures Multiple(w[c].align, a)
  {
    AlignIsLargest(w, c);
    AskedForPower(w, c, a);
    AlignIsPower(w, c);
    PowersDivide(a, w[c].align);
  }

  /** A direct base, empty or not, is placed at a multiple of its own alignment. */
  lemma {:induction false} DirectBaseAligned(w: World, c: ClassId, i: nat)
    requires AllLaidOut(w) && c < |w| && i < |w[c].decl.bases|
    ensures Multiple(w[c].offsets[i], w[w[c].decl.bases[i]].align)
  {
    var pls := PlacementsOf(w, c);
    var x := LayoutTheorem.PlacementOf(w[..c], w[c], pls, i);
    assert FitsAt(w[..c], w[c].decl, VptrSize(w[c].decl, w[c].primary), pls, x);
    FitsAligned(w[..c], w[c].decl.bases[i], PosAfter(w[..c], w[c].decl, VptrSize(w[c].decl, w[c].primary), pls[..x]),
                TakenAfter(w[..c], w[c].decl, pls[..x]), w[c].offsets[i]);
  }

  lemma {:induction false} FitsAligned(w: World, b: ClassId, pos: nat, taken: set<Place>, o: nat)
    requires Ordered(w) && b < |w| && Fits(w, b, pos, taken, o)
    ensures Multiple(o, w[b].align)
  {
    var a := w[b].align;
    MultipleMeansNoRest(RoundUp(pos, a), a);
    if k: nat :| o == Spot(RoundUp(pos, a), a, k) {
      assert Times(k, a) == k * a;
      SumOfMultiples(RoundUp(pos, a), k * a, a);
    } else {
      assert Times(0, a) == 0;
    }
  }

  /** Nothing that is not empty is in an empty class. */
  lemma {:induction false} NonEmptyAbove(w: World, c: ClassId, i: nat)
    requires AllLaidOut(w) && c < |w| && i < |w[c].decl.bases| && !IsEmptyClass(w, w[c].decl.bases[i])
    ensures !IsEmptyClass(w, c)
  {
    assert LaidOutInTurn(w, c);
    LayoutTheorem.BaseCovered(w[..c], w[c], i);
  }

  lemma {:induction false} OneDeeper(o: nat, rest: nat, c: nat, b: nat, a: nat)
    requires Multiple(o, b) && Multiple(b, a) && Multiple(rest, a) && Multiple(c, b)
    ensures Multiple(o + rest, a) && Multiple(c, a)
  {
    MultipleOfMultiple(o, b, a);
    SumOfMultiples(o, rest, a);
    MultipleOfMultiple(c, b, a);
  }

  /** Every base subobject that is not empty, at any depth, is at a multiple of its
      class's alignment, and that divides the alignment of the whole class. */
  lemma {:induction false} SubobjectsAligned(w: World, c: ClassId, p: Path)
    requires AllLaidOut(w) && PowersOnly(w) && ValidPath(w, c, p) && !IsEmptyClass(w, TypeAt(w, c, p))
    ensures !IsEmptyClass(w, c)
    ensures Multiple(OffsetAt(w, c, p), w[TypeAt(w, c, p)].align) && Multiple(w[c].align, w[TypeAt(w, c, p)].align)
    decreases |p|
  {
    AlignIsPower(w, c);
    if p == [] {
      PowersDivide(w[c].align, w[c].align);
      assert Times(0, w[c].align) == 0;
    } else {
      var (b, a) := (w[c].decl.bases[p[0]], w[TypeAt(w, c, p)].align);
      SubobjectsAligned(w, b, p[1..]);
      NonEmptyAbove(w, c, p[0]);
      DirectBaseAligned(w, c, p[0]);
      assert BaseAsks(w, c, p[0], w[b].align);
      AlignSuits(w, c, w[b].align);
      OneDeeper(w[c].offsets[p[0]], OffsetAt(w, b, p[1..]), w[c].align, w[b].align, a);
    }
  }

  lemma {:induction false} FieldOffsetsAt(pos: nat, fields: seq<Field>, i: nat)
    requires (forall f :: f in fields ==> f.size > 0 && f.align > 0) && i < |fields|
    ensures FieldOffsets(pos, fields)[i] == RoundUp(PlaceFields(pos, fields[..i]), fields[i].align)
    ensures PlaceFields(pos, fields[..i + 1]) == FieldOffsets(pos, fields)[i] + fields[i].size
    decreases |fields|
  {
    var n := |fields| - 1;
    assert fields[..i + 1][..i] == fields[..i];
    if i < n {
      FieldOffsetsAt(pos, fields[..n], i);
      assert fields[..n][..i] == fields[..i];
    }
  }

  /** What has been placed ends before what follows. */
  lemma {:induction false} FieldsEnd(pos: nat, fields: seq<Field>, i: nat, j: nat)
    requires (forall f :: f in fields ==> f.size > 0 && f.align > 0) && i <= j <= |fields|
    ensures PlaceFields(pos, fields[..i]) <= PlaceFields(pos, fields[..j])
    decreases j
  {
    if i < j {
      FieldsEnd(pos, fields, i, j - 1);
      FieldOffsetsAt(pos, fields, j - 1);
    }
  }

  /** The room before a virtual table pointer, a base or a member ends. */
  ghost predicate ContentEnd(w: World, c: ClassId, e: nat)
    requires AllLaidOut(w) && c < |w|
  {
    || (OwnVptr(w, c) && e == POINTER_SIZE)
    || (exists i :: 0 <= i < |w[c].decl.bases| && BaseEnds(w, c, i, e))
    || (exists i :: 0 <= i < |w[c].decl.fields| && MemberEnds(w, c, i, e))
  }

  /** From `e`, where something ends, to the next multiple of `a` at most. */
  ghost predicate NoGap(w: World, c: ClassId, e: nat, o: nat, a: nat)
    requires AllLaidOut(w) && c < |w|
  {
    (e == 0 || ContentEnd(w, c, e)) && e <= o < e + a
  }

  /** An empty base takes its full size. */
  predicate BaseEnds(w: World, c: ClassId, i: nat, e: nat)
    requires Ordered(w) && c < |w| && i < |w[c].decl.bases|
  {
    var b := w[c].decl.bases[i];
    e == w[c].offsets[i] + if IsEmptyClass(w, b) then w[b].size else w[b].nvsize
  }

  predicate MemberEnds(w: World, c: ClassId, i: nat, e: nat)
    requires c < |w| && i < |w[c].decl.fields|
  {
    i < |w[c].members| && e == w[c].members[i] + w[c].decl.fields[i].size
  }

  /** Where the bases in `pls` and the virtual table pointer end: with the base that is
      placed `j`-th. */
  lemma {:induction false} PosReached(w: World, d: ClassDecl, vptr: nat, pls: seq<Placement>) returns (j: nat)
    requires Ordered(w) && BasesBelow(d, |w|) && ValidPlacements(d, pls) && AllFit(w, d, vptr, pls)
    ensures vptr <= PosAfter(w, d, vptr, pls)
    ensures PosAfter(w, d, vptr, pls) == vptr
      || (j < |pls| && !IsEmptyClass(w, d.bases[pls[j].base])
          && PosAfter(w, d, vptr, pls) == pls[j].offset + w[d.bases[pls[j].base]].nvsize)
    decreases |pls|
  {
    j := 0;
    if pls != [] {
      var n := |pls| - 1;
      LayoutTheorem.FitPrefix(w, d, vptr, pls, n);
      LayoutTheorem.PosGrows(w, d, vptr, pls);
      j := PosReached(w, d, vptr, pls[..n]);
      if !IsEmptyClass(w, d.bases[pls[n].base]) {
        j := n;
      }
    }
  }

  /** The virtual table pointer comes first, and nothing overlaps it; members come after
      all bases that are not empty. */
  lemma {:induction false} BaseBeforeMembers(w: World, c: ClassId, pls: seq<Placement>, i: nat)
    requires Ordered(w) && c < |w| && From(w, c, pls) && i < |w[c].decl.bases| && !IsEmptyClass(w, w[c].decl.bases[i])
    ensures w[c].offsets[i] + w[w[c].decl.bases[i]].nvsize <= PosAfter(w[..c], w[c].decl, VptrSize(w[c].decl, w[c].primary), pls)
    ensures VptrSize(w[c].decl, w[c].primary) <= w[c].offsets[i]
  {
    var vptr := VptrSize(w[c].decl, w[c].primary);
    var x := LayoutTheorem.PlacementOf(w[..c], w[c], pls, i);
    LayoutTheorem.PosCovers(w[..c], w[c].decl, vptr, pls, x);
    LayoutTheorem.LastIsFree(w[..c], w[c].decl, vptr, pls, x);
    LayoutTheorem.FitPrefix(w[..c], w[c].decl, vptr, pls, x);
    var _ := PosReached(w[..c], w[c].decl, vptr, pls[..x]);
  }

  /** Where the members start. */
  ghost function MembersStart(w: World, c: ClassId, pls: seq<Placement>): nat
    requires Ordered(w) && c < |w| && From(w, c, pls)
  {
    PosAfter(w[..c], w[c].decl, VptrSize(w[c].decl, w[c].primary), pls)
  }

  lemma {:induction false} MemberPlaced(w: World, c: ClassId, pls: seq<Placement>, i: nat)
    requires Ordered(w) && c < |w| && From(w, c, pls) && i < |w[c].decl.fields|
    ensures |w[c].members| == |w[c].decl.fields| && w[c].decl.fields[i].align > 0
    ensures Multiple(w[c].members[i], w[c].decl.fields[i].align)
    ensures var before := PlaceFields(MembersStart(w, c, pls), w[c].decl.fields[..i]);
      MembersStart(w, c, pls) <= before <= w[c].members[i] < before + w[c].decl.fields[i].align
  {
    var (d, start) := (w[c].decl, MembersStart(w, c, pls));
    FieldOffsetsAt(start, d.fields, i);
    assert PlaceFields(start, d.fields[..0]) == start;
    FieldsEnd(start, d.fields, 0, i);
    MultipleMeansNoRest(w[c].members[i], d.fields[i].align);
  }

  lemma {:induction false} MemberAfter(w: World, c: ClassId, pls: seq<Placement>, i: nat, j: nat)
    requires Ordered(w) && c < |w| && From(w, c, pls) && j < i < |w[c].decl.fields|
    ensures |w[c].members| == |w[c].decl.fields|
    ensures w[c].members[j] + w[c].decl.fields[j].size <= w[c].members[i]
  {
    var (d, start) := (w[c].decl, MembersStart(w, c, pls));
    FieldOffsetsAt(start, d.fields, j);
    FieldsEnd(start, d.fields, j + 1, i);
    MemberPlaced(w, c, pls, i);
  }

  /** Where what is before member `i` ends. */
  lemma {:induction false} BeforeMember(w: World, c: ClassId, pls: seq<Placement>, i: nat)
    requires AllLaidOut(w) && c < |w| && From(w, c, pls) && i < |w[c].decl.fields|
    ensures var before := PlaceFields(MembersStart(w, c, pls), w[c].decl.fields[..i]); before == 0 || ContentEnd(w, c, before)
  {
    var (d, start) := (w[c].decl, MembersStart(w, c, pls));
    if i > 0 {
      FieldOffsetsAt(start, d.fields, i - 1);
      MemberPlaced(w, c, pls, i - 1);
      assert MemberEnds(w, c, i - 1, PlaceFields(start, d.fields[..i]));
    } else {
      StartIsContent(w, c, pls);
    }
  }

  /** Data members are aligned, one after the other, behind the virtual table pointer and
      all bases that are not empty, and leave no gap that their alignment does not ask
      for. */
  lemma {:induction false} MembersLaidOut(w: World, c: ClassId, i: nat)
    requires AllLaidOut(w) && c < |w| && i < |w[c].decl.fields|
    ensures |w[c].members| == |w[c].decl.fields|
    ensures Multiple(w[c].members[i], w[c].decl.fields[i].align)
    ensures OwnVptr(w, c) ==> POINTER_SIZE <= w[c].members[i]
    ensures forall b {:trigger w[c].offsets[b]} :: 0 <= b < |w[c].decl.bases| && !IsEmptyClass(w, w[c].decl.bases[b]) ==>
      w[c].offsets[b] + w[w[c].decl.bases[b]].nvsize <= w[c].members[i]
    ensures forall j {:trigger w[c].members[j]} :: 0 <= j < i ==> w[c].members[j] + w[c].decl.fields[j].size <= w[c].members[i]
    ensures exists e: nat {:trigger NoGap(w, c, e, w[c].members[i], w[c].decl.fields[i].align)} ::
      NoGap(w, c, e, w[c].members[i], w[c].decl.fields[i].align)
  {
    var pls := PlacementsOf(w, c);
    MemberPlaced(w, c, pls, i);
    BeforeMember(w, c, pls, i);
    var _ := PosReached(w[..c], w[c].decl, VptrSize(w[c].decl, w[c].primary), pls);
    forall b | 0 <= b < |w[c].decl.bases| && !IsEmptyClass(w, w[c].decl.bases[b])
      ensures w[c].offsets[b] + w[w[c].decl.bases[b]].nvsize <= w[c].members[i]
    {
      BaseBeforeMembers(w, c, pls, b);
    }
    forall j | 0 <= j < i
      ensures w[c].members[j] + w[c].decl.fields[j].size <= w[c].members[i]
    {
      MemberAfter(w, c, pls, i, j);
    }
    assert NoGap(w, c, PlaceFields(MembersStart(w, c, pls), w[c].decl.fields[..i]), w[c].members[i], w[c].decl.fields[i].align);
  }

  lemma {:induction false} StartIsContent(w: World, c: ClassId, pls: seq<Placement>)
    requires AllLaidOut(w) && c < |w| && From(w, c, pls)
    ensures MembersStart(w, c, pls) == 0 || ContentEnd(w, c, MembersStart(w, c, pls))
  {
    PosIsContent(w, c, pls, |pls|);
    assert pls[..|pls|] == pls;
  }

  /** Bases that are not empty leave room for the virtual table pointer. */
  lemma {:induction false} VptrIsFirst(w: World, c: ClassId, i: nat)
    requires AllLaidOut(w) && c < |w| && OwnVptr(w, c) && i < |w[c].decl.bases| && !IsEmptyClass(w, w[c].decl.bases[i])
    ensures POINTER_SIZE <= w[c].offsets[i]
  {
    var pls := PlacementsOf(w, c);
    BaseBeforeMembers(w, c, pls, i);
  }

  /** A class is empty exactly if it has no virtual table pointer and no data members, and
      only empty bases. */
  lemma {:induction false} EmptyMeansNothing(w: World, c: ClassId)
    requires AllLaidOut(w) && c < |w|
    ensures IsEmptyClass(w, c) <==>
      !OwnVptr(w, c) && w[c].decl.fields == [] && forall i :: 0 <= i < |w[c].decl.bases| ==> IsEmptyClass(w, w[c].decl.bases[i])
  {
    var pls := PlacementsOf(w, c);
    SizePositive(w, c, pls);
  }

  /** A class with a base that is not empty takes room. */
  lemma {:induction false} BaseTakesRoom(w: World, c: ClassId, pls: seq<Placement>, i: nat)
    requires AllLaidOut(w) && c < |w| && From(w, c, pls) && i < |w[c].decl.bases| && !IsEmptyClass(w, w[c].decl.bases[i])
    ensures FinalPosOf(w, c, pls) > 0
  {
    assert w[c].offsets[i] + w[w[c].decl.bases[i]].nvsize <= EndOfBases(w[..c], w[c].decl, w[c].offsets, |w[c].decl.bases|);
  }

  /** Every object takes room. */
  lemma {:induction false} SizePositive(w: World, c: ClassId, pls: seq<Placement>)
    requires AllLaidOut(w) && c < |w| && From(w, c, pls)
    ensures 0 < FinalPosOf(w, c, pls) <= w[c].size < FinalPosOf(w, c, pls) + w[c].align
    ensures w[c].nvsize <= w[c].size && w[c].size % w[c].align == 0
  {
    var _ := PosReached(w[..c], w[c].decl, VptrSize(w[c].decl, w[c].primary), pls);
    if i :| 0 <= i < |w[c].decl.bases| && !IsEmptyClass(w, w[c].decl.bases[i]) {
      BaseTakesRoom(w, c, pls, i);
    }
  }

  /** The bytes in use. */
  ghost function FinalPosOf(w: World, c: ClassId, pls: seq<Placement>): nat
    requires Ordered(w) && c < |w| && From(w, c, pls)
  {
    FinalPos(PlaceFields(MembersStart(w, c, pls), w[c].decl.fields), EndOfBases(w[..c], w[c].decl, w[c].offsets, |w[c].decl.bases|),
             OnlyPadding(w[..c], w[c].decl, w[c].primary))
  }

  lemma {:induction false} EndReached(w: World, d: ClassDecl, offsets: seq<nat>, k: nat) returns (i: nat)
    requires Ordered(w) && BasesBelow(d, |w|) && |offsets| == |d.bases| && k <= |offsets|
    ensures var e := EndOfBases(w, d, offsets, k);
      e == 0 || (i < k && e == offsets[i] + if IsEmptyClass(w, d.bases[i]) then w[d.bases[i]].size else w[d.bases[i]].nvsize)
  {
    i := 0;
    if k > 0 {
      i := EndReached(w, d, offsets, k - 1);
      if EndOfBases(w, d, offsets, k) != EndOfBases(w, d, offsets, k - 1) {
        i := k - 1;
      }
    }
  }

  /** The end of the members. */
  ghost function MembersEnd(w: World, c: ClassId, pls: seq<Placement>): nat
    requires Ordered(w) && c < |w| && From(w, c, pls)
  {
    PlaceFields(MembersStart(w, c, pls), w[c].decl.fields)
  }

  ghost function BasesEnd(w: World, c: ClassId, pls: seq<Placement>): nat
    requires Ordered(w) && c < |w| && From(w, c, pls)
  {
    EndOfBases(w[..c], w[c].decl, w[c].offsets, |w[c].decl.bases|)
  }

  lemma {:induction false} MemberWithin(w: World, c: ClassId, pls: seq<Placement>, i: nat)
    requires Ordered(w) && c < |w| && From(w, c, pls) && i < |w[c].decl.fields|
    ensures |w[c].members| == |w[c].decl.fields| && w[c].members[i] + w[c].decl.fields[i].size <= MembersEnd(w, c, pls)
    ensures i == |w[c].decl.fields| - 1 ==> w[c].members[i] + w[c].decl.fields[i].size == MembersEnd(w, c, pls)
  {
    var (d, start) := (w[c].decl, MembersStart(w, c, pls));
    FieldOffsetsAt(start, d.fields, i);
    FieldsEnd(start, d.fields, i + 1, |d.fields|);
    assert d.fields[..|d.fields|] == d.fields;
  }

  lemma {:induction false} BaseWithin(w: World, c: ClassId, pls: seq<Placement>, i: nat, e: nat)
    requires Ordered(w) && c < |w| && From(w, c, pls) && i < |w[c].decl.bases| && BaseEnds(w, c, i, e)
    ensures e <= BasesEnd(w, c, pls)
  {
  }

  /** Everything in the class ends within the bytes in use. */
  lemma {:induction false} ContentWithin(w: World, c: ClassId, pls: seq<Placement>, e: nat)
    requires AllLaidOut(w) && c < |w| && From(w, c, pls) && ContentEnd(w, c, e)
    ensures e <= Max(MembersEnd(w, c, pls), BasesEnd(w, c, pls)) <= FinalPosOf(w, c, pls)
  {
    var _ := PosReached(w[..c], w[c].decl, VptrSize(w[c].decl, w[c].primary), pls);
    if i :| 0 <= i < |w[c].decl.bases| && BaseEnds(w, c, i, e) {
      BaseWithin(w, c, pls, i, e);
    } else if i :| 0 <= i < |w[c].decl.fields| && MemberEnds(w, c, i, e) {
      MemberWithin(w, c, pls, i);
    }
  }

  predicate NothingInside(w: World, c: ClassId)
    requires c < |w|
  {
    !OwnVptr(w, c) && w[c].decl.fields == [] && w[c].decl.bases == []
  }

  lemma {:induction false} MembersEndReached(w: World, c: ClassId, pls: seq<Placement>)
    requires AllLaidOut(w) && c < |w| && From(w, c, pls)
    ensures MembersEnd(w, c, pls) == 0 || ContentEnd(w, c, MembersEnd(w, c, pls))
  {
    StartIsContent(w, c, pls);
    if w[c].decl.fields != [] {
      MemberWithin(w, c, pls, |w[c].decl.fields| - 1);
      assert MemberEnds(w, c, |w[c].decl.fields| - 1, MembersEnd(w, c, pls));
    }
  }

  lemma {:induction false} BasesEndReached(w: World, c: ClassId, pls: seq<Placement>)
    requires AllLaidOut(w) && c < |w| && From(w, c, pls)
    ensures BasesEnd(w, c, pls) == 0 || ContentEnd(w, c, BasesEnd(w, c, pls))
  {
    var i := EndReached(w[..c], w[c].decl, w[c].offsets, |w[c].decl.bases|);
    if BasesEnd(w, c, pls) > 0 {
      assert BaseEnds(w, c, i, BasesEnd(w, c, pls));
    }
  }

  /** The bytes in use end with something. */
  lemma {:induction false} FinalPosReached(w: World, c: ClassId, pls: seq<Placement>)
    requires AllLaidOut(w) && c < |w| && From(w, c, pls)
    ensures var e := FinalPosOf(w, c, pls); ContentEnd(w, c, e) || (e == 1 && NothingInside(w, c))
  {
    MembersEndReached(w, c, pls);
    BasesEndReached(w, c, pls);
    BasesTakeRoom(w, c, pls);
    NothingAtZero(w, c, pls);
  }

  /** Only padding and no base: no bytes in use yet. */
  lemma {:induction false} NothingAtZero(w: World, c: ClassId, pls: seq<Placement>)
    requires Ordered(w) && c < |w| && From(w, c, pls)
    ensures OnlyPadding(w[..c], w[c].decl, w[c].primary) && w[c].decl.bases == [] ==> MembersEnd(w, c, pls) == 0 && NothingInside(w, c)
    ensures !OnlyPadding(w[..c], w[c].decl, w[c].primary) || BasesEnd(w, c, pls) > 0 ==>
      FinalPosOf(w, c, pls) == Max(MembersEnd(w, c, pls), BasesEnd(w, c, pls))
  {
    var _ := PosReached(w[..c], w[c].decl, VptrSize(w[c].decl, w[c].primary), pls);
  }

  lemma {:induction false} BasesTakeRoom(w: World, c: ClassId, pls: seq<Placement>)
    requires AllLaidOut(w) && c < |w| && From(w, c, pls)
    ensures w[c].decl.bases != [] ==> EndOfBases(w[..c], w[c].decl, w[c].offsets, |w[c].decl.bases|) > 0
  {
    if w[c].decl.bases != [] {
      var b := w[c].decl.bases[0];
      var ps := PlacementsOf(w, b);
      SizePositive(w, b, ps);
      assert w[c].offsets[0] + (if IsEmptyClass(w[..c], b) then w[b].size else w[b].nvsize)
          <= EndOfBases(w[..c], w[c].decl, w[c].offsets, |w[c].decl.bases|);
    }
  }

  /** The size of a class is the next multiple of its alignment after everything in it,
      at least one; without tail padding it ends with something, but the padding of a POD
      is its own. */
  lemma {:induction false} SizesAreRight(w: World, c: ClassId)
    requires AllLaidOut(w) && c < |w|
    ensures w[c].size > 0 && w[c].align > 0 && w[c].size % w[c].align == 0
    ensures forall e: nat :: ContentEnd(w, c, e) ==> e <= w[c].size && (!IsEmptyClass(w, c) ==> e <= w[c].nvsize)
    ensures exists e: nat {:trigger ContentEnd(w, c, e)} ::
      (ContentEnd(w, c, e) || (e == 1 && NothingInside(w, c))) && e <= w[c].size < e + w[c].align
    ensures !IsEmptyClass(w, c) ==> if w[c].decl.pod then w[c].nvsize == w[c].size else ContentEnd(w, c, w[c].nvsize)
  {
    var pls := PlacementsOf(w, c);
    SizePositive(w, c, pls);
    FinalPosReached(w, c, pls);
    forall e: nat | ContentEnd(w, c, e)
      ensures e <= FinalPosOf(w, c, pls)
    {
      ContentWithin(w, c, pls, e);
    }
    var e := FinalPosOf(w, c, pls);
    assert ContentEnd(w, c, e) || (e == 1 && NothingInside(w, c));
    EmptyMeansNothing(w, c);
  }

  /** Among bases that are not empty, the primary one comes first, the others follow in
      declaration order. */
  lemma {:induction false} BasesInOrder(w: World, c: ClassId, i: nat, j: nat)
    requires AllLaidOut(w) && c < |w| && i < |w[c].decl.bases| && j < |w[c].decl.bases| && i != j
    requires !IsEmptyClass(w, w[c].decl.bases[i]) && !IsEmptyClass(w, w[c].decl.bases[j])
    requires w[c].primary == Some(i) || (w[c].primary != Some(j) && i < j)
    ensures w[c].offsets[i] + w[w[c].decl.bases[i]].nvsize <= w[c].offsets[j]
  {
    var pls := PlacementsOf(w, c);
    var vptr := VptrSize(w[c].decl, w[c].primary);
    var x := LayoutTheorem.PlacementOf(w[..c], w[c], pls, i);
    var y := LayoutTheorem.PlacementOf(w[..c], w[c], pls, j);
    if y < x {
      OrderBefore(|w[c].decl.bases|, w[c].primary, y, x);
      assert false;
    }
    LayoutTheorem.FitPrefix(w[..c], w[c].decl, vptr, pls, y);
    LayoutTheorem.PosCovers(w[..c], w[c].decl, vptr, pls[..y], x);
    LayoutTheorem.LastIsFree(w[..c], w[c].decl, vptr, pls, y);
  }

  lemma {:induction false} OrderBefore(n: nat, primary: Option<nat>, y: nat, x: nat)
    requires (primary.Some? ==> primary.value < n) && y < x < n
    ensures var order := AllocationOrder(n, primary);
      primary != Some(order[x]) && order[y] != order[x] && (primary == Some(order[y]) || order[y] < order[x])
  {
    if primary.Some? {
      var others := Others(n, primary.value);
      assert others[x - 1] in others;
    }
  }

  /** The first place tried is free. */
  lemma {:induction false} FitsTight(w: World, b: ClassId, pos: nat, taken: set<Place>, o: nat)
    requires Ordered(w) && b < |w| && Fits(w, b, pos, taken, o) && !IsEmptyClass(w, b)
    requires EmptySubobjects(w, b, RoundUp(pos, w[b].align)) == {}
    ensures pos <= o < pos + w[b].align
  {
    var (start, a) := (RoundUp(pos, w[b].align), w[b].align);
    var k: nat :| o == Spot(start, a, k) && forall j: nat :: j < k ==> Clash(w, b, Spot(start, a, j), taken);
    assert Spot(start, a, 0) == start && !Clash(w, b, Spot(start, a, 0), taken);
    assert k == 0;
  }

  /** There is no empty subobject in class `b`. */
  ghost predicate NoneEmpty(w: World, b: ClassId)
    requires Ordered(w)
  {
    forall p: Path :: ValidPath(w, b, p) ==> !IsEmptyClass(w, TypeAt(w, b, p))
  }

  lemma {:induction false} NoneEmptyInside(w: World, c: ClassId, b: ClassId, o: nat)
    requires Ordered(w) && b < c < |w| && Ordered(w[..c]) && NoneEmpty(w, b)
    ensures EmptySubobjects(w[..c], b, o) == {}
  {
    EmptySame(w, c, b, o);
    if pl :| pl in EmptySubobjects(w, b, o) {
      EmptySubobjectsAreEmptyPaths(w, b, o, pl);
      assert false;
    }
  }

  /** The room that the first `x` bases placed take. */
  ghost function PosBefore(w: World, c: ClassId, pls: seq<Placement>, x: nat): nat
    requires Ordered(w) && c < |w| && From(w, c, pls) && x <= |pls|
  {
    PosAfter(w[..c], w[c].decl, VptrSize(w[c].decl, w[c].primary), pls[..x])
  }

  /** It ends with one of them. */
  lemma {:induction false} PosIsContent(w: World, c: ClassId, pls: seq<Placement>, x: nat)
    requires AllLaidOut(w) && c < |w| && From(w, c, pls) && x <= |pls|
    ensures PosBefore(w, c, pls, x) == 0 || ContentEnd(w, c, PosBefore(w, c, pls, x))
  {
    var (d, vptr) := (w[c].decl, VptrSize(w[c].decl, w[c].primary));
    LayoutTheorem.FitPrefix(w[..c], d, vptr, pls, x);
    var j := PosReached(w[..c], d, vptr, pls[..x]);
    var e := PosBefore(w, c, pls, x);
    if e != vptr {
      assert pls[j] == pls[..x][j];
      assert BaseEnds(w, c, pls[j].base, e);
    }
  }

  lemma {:induction false} TightAt(w: World, c: ClassId, pls: seq<Placement>, x: nat)
    requires AllLaidOut(w) && c < |w| && From(w, c, pls) && x < |pls| && NoneEmpty(w, w[c].decl.bases[pls[x].base])
    ensures var e := PosBefore(w, c, pls, x); e <= pls[x].offset < e + w[w[c].decl.bases[pls[x].base]].align
  {
    var b := w[c].decl.bases[pls[x].base];
    assert FitsAt(w[..c], w[c].decl, VptrSize(w[c].decl, w[c].primary), pls, x);
    assert ValidPath(w, b, []);
    NoneEmptyInside(w, c, b, RoundUp(PosBefore(w, c, pls, x), w[b].align));
    FitsTight(w[..c], b, PosBefore(w, c, pls, x), TakenAfter(w[..c], w[c].decl, pls[..x]), pls[x].offset);
  }

  /** A base with nothing empty in it leaves no gap that its alignment does not ask for. */
  lemma {:induction false} BaseIsTight(w: World, c: ClassId, i: nat)
    requires AllLaidOut(w) && c < |w| && i < |w[c].decl.bases| && NoneEmpty(w, w[c].decl.bases[i])
    ensures |w[c].offsets| == |w[c].decl.bases|
    ensures exists e: nat {:trigger NoGap(w, c, e, w[c].offsets[i], w[w[c].decl.bases[i]].align)} ::
      NoGap(w, c, e, w[c].offsets[i], w[w[c].decl.bases[i]].align)
  {
    var pls := PlacementsOf(w, c);
    var x := LayoutTheorem.PlacementOf(w[..c], w[c], pls, i);
    TightAt(w, c, pls, x);
    PosIsContent(w, c, pls, x);
    assert NoGap(w, c, PosBefore(w, c, pls, x), pls[x].offset, w[w[c].decl.bases[i]].align);
  }

  lemma {:induction false} EmptySame(w: World, c: ClassId, b: ClassId, o: nat)
    requires Ordered(w) && b < c < |w| && Ordered(w[..c])
    ensures EmptySubobjects(w[..c], b, o) == EmptySubobjects(w, b, o)
  {
    forall pl: Place
      ensures pl in EmptySubobjects(w[..c], b, o) <==> pl in EmptySubobjects(w, b, o)
    {
      EmptySubobjectsAreEmptyPaths(w[..c], b, o, pl);
      EmptySubobjectsAreEmptyPaths(w, b, o, pl);
      forall p: Path
        ensures EmptyPath(w[..c], b, o, p, pl) <==> EmptyPath(w, b, o, p, pl)
      {
        PathsStable(w[..c], w, b, p);
      }
    }
  }

  /** An empty base is at offset zero, unless an empty subobject of it would be at the
      place of another base's. */
  lemma {:induction false} EmptyBaseStays(w: World, c: ClassId, i: nat)
    requires AllLaidOut(w) && c < |w| && i < |w[c].decl.bases| && IsEmptyClass(w, w[c].decl.bases[i]) && w[c].offsets[i] != 0
    ensures exists j :: 0 <= j < |w[c].decl.bases| && j != i && SharesPlace(w, c, i, j)
  {
    var pls := PlacementsOf(w, c);
    var (d, b) := (w[c].decl, w[c].decl.bases[i]);
    var x := LayoutTheorem.PlacementOf(w[..c], w[c], pls, i);
    assert FitsAt(w[..c], d, VptrSize(d, w[c].primary), pls, x);
    var pl :| pl in EmptySubobjects(w[..c], b, 0) * TakenAfter(w[..c], d, pls[..x]);
    var y := TakenFrom(w[..c], d, pls[..x], pl);
    assert pls[y] == pls[..x][y];
    EmptySame(w, c, b, 0);
    EmptySame(w, c, d.bases[pls[y].base], pls[y].offset);
    OrderBefore(|d.bases|, w[c].primary, y, x);
    assert SharesPlace(w, c, i, pls[y].base);
  }

  /** At offset zero, base `i` would have an empty subobject where base `j` has one. */
  ghost predicate SharesPlace(w: World, c: ClassId, i: nat, j: nat)
    requires Ordered(w) && c < |w| && i < |w[c].decl.bases| && j < |w[c].decl.bases|
  {
    EmptySubobjects(w, w[c].decl.bases[i], 0) * EmptySubobjects(w, w[c].decl.bases[j], w[c].offsets[j]) != {}
  }

  lemma {:induction false} TakenFrom(w: World, d: ClassDecl, pls: seq<Placement>, pl: Place) returns (j: nat)
    requires Ordered(w) && BasesBelow(d, |w|) && ValidPlacements(d, pls) && pl in TakenAfter(w, d, pls)
    ensures j < |pls| && pl in EmptySubobjects(w, d.bases[pls[j].base], pls[j].offset)
    decreases |pls|
  {
    var n := |pls| - 1;
    if pl in TakenAfter(w, d, pls[..n]) {
      j := TakenFrom(w, d, pls[..n], pl);
    } else {
      j := n;
    }
  }

  /** A class is polymorphic exactly if it or some base, however far, declares a virtual
      function. */
  lemma {:induction false} PolymorphicMeansVirtual(w: World, c: ClassId)
    requires Ordered(w) && c < |w|
    ensures Polymorphic(w, c) <==> exists p {:trigger DeclaresVirtual(w, c, p)} :: DeclaresVirtual(w, c, p)
    decreases c
  {
    forall i | 0 <= i < |w[c].decl.bases|
      ensures Polymorphic(w, w[c].decl.bases[i]) <==> exists p {:trigger DeclaresVirtual(w, w[c].decl.bases[i], p)} :: DeclaresVirtual(w, w[c].decl.bases[i], p)
    {
      PolymorphicMeansVirtual(w, w[c].decl.bases[i]);
    }
    if w[c].decl.virtuals != [] {
      assert DeclaresVirtual(w, c, []);
    } else if i :| 0 <= i < |w[c].decl.bases| && Polymorphic(w, w[c].decl.bases[i]) {
      var p :| DeclaresVirtual(w, w[c].decl.bases[i], p);
      assert ([i] + p)[1..] == p;
      assert DeclaresVirtual(w, c, [i] + p);
    } else if p :| DeclaresVirtual(w, c, p) {
      assert DeclaresVirtual(w, w[c].decl.bases[p[0]], p[1..]);
      assert false;
    }
  }

  predicate DeclaresVirtual(w: World, c: ClassId, p: Path)
    requires Ordered(w)
  {
    ValidPath(w, c, p) && w[TypeAt(w, c, p)].decl.virtuals != []
  }

  /** A polymorphic class has a virtual table pointer: its own at the start, or that of its
      first polymorphic base, which is at the start. */
  lemma {:induction false} VptrAtZero(w: World, c: ClassId)
    requires AllLaidOut(w) && c < |w| && Polymorphic(w, c)
    ensures OwnVptr(w, c) <==> forall i :: 0 <= i < |w[c].decl.bases| ==> !Polymorphic(w, w[c].decl.bases[i])
    ensures !OwnVptr(w, c) ==> exists i :: 0 <= i < |w[c].decl.bases| && FirstPolymorphic(w, c, i) && w[c].offsets[i] == 0
  {
    var pls := PlacementsOf(w, c);
    forall i | 0 <= i < |w[c].decl.bases|
      ensures Polymorphic(w[..c], w[c].decl.bases[i]) == Polymorphic(w, w[c].decl.bases[i])
    {
      VtableRules.PolymorphicStable(w[..c], w, w[c].decl.bases[i]);
    }
    assert LaidOutInTurn(w, c);
    if w[c].primary.Some? {
      LayoutTheorem.PrimaryAtZero(w[..c], w[c]);
      assert FirstPolymorphic(w, c, w[c].primary.value);
    }
  }

  predicate FirstPolymorphic(w: World, c: ClassId, i: nat)
    requires Ordered(w) && c < |w| && i < |w[c].decl.bases|
  {
    Polymorphic(w, w[c].decl.bases[i]) && forall j :: 0 <= j < i ==> !Polymorphic(w, w[c].decl.bases[j])
  }
}
