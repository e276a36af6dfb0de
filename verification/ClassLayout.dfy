/** Laying out a whole class: `determine_primary_base`, `build_base_fields` and
    `layout_class_type` for a class without virtual bases. */
module ClassLayout {
  import opened Hierarchy
  import opened EmptyOffsets
  import opened BinfoTree
  import opened LayoutRules
  import opened BaseLayout
  import LayoutTheorem

  method DeterminePrimaryBase(w: World, d: ClassDecl) returns (primary: Option<nat>)
    requires Ordered(w) && BasesBelow(d, |w|)
    ensures IsPrimary(w, d, primary)
  {
    for i := 0 to |d.bases|
      invariant forall j :: 0 <= j < i ==> !Polymorphic(w, d.bases[j])
    {
      if Polymorphic(w, d.bases[i]) {
        return Some(i);
      }
    }
    return None;
  }

  ghost predicate BasesAre(pls: seq<Placement>, order: seq<nat>) {
    |pls| == |order| && forall j :: 0 <= j < |pls| ==> pls[j].base == order[j]
  }

  /** The bases allocated when base number `i` is reached. */
  ghost function OrderSoFar(n: nat, primary: Option<nat>, i: nat): seq<nat> {
    match primary
    case None => Others(i, n)
    case Some(k) => [k] + Others(i, k)
  }

  lemma {:induction false} NotYetPlaced(n: nat, primary: Option<nat>, i: nat, pls: seq<Placement>)
    requires BasesAre(pls, OrderSoFar(n, primary, i)) && primary != Some(i) && i < n
    ensures !Placed(pls, i)
  {
    var order := OrderSoFar(n, primary, i);
    forall j | 0 <= j < |pls|
      ensures pls[j].base != i
    {
      assert order[j] in order;
    }
  }

  lemma {:induction false} OrderStart(n: nat, primary: Option<nat>, pls: seq<Placement>)
    requires match primary case None => pls == [] case Some(k) => |pls| == 1 && pls[0].base == k
    ensures BasesAre(pls, OrderSoFar(n, primary, 0))
  {
    if primary.Some? {
      assert OrderSoFar(n, primary, 0) == [primary.value];
    }
  }

  lemma {:induction false} OrderNext(n: nat, primary: Option<nat>, i: nat, pls: seq<Placement>, pls': seq<Placement>)
    requires BasesAre(pls, OrderSoFar(n, primary, i)) && i < n
    requires if primary == Some(i) then pls' == pls
             else |pls'| == |pls| + 1 && pls'[..|pls|] == pls && pls'[|pls|].base == i
    ensures BasesAre(pls', OrderSoFar(n, primary, i + 1))
  {
    OrderGrows(n, primary, i);
    assert forall j :: 0 <= j < |pls| ==> pls'[j] == pls[j];
  }

  lemma {:induction false} OrderGrows(n: nat, primary: Option<nat>, i: nat)
    requires i < n
    ensures OrderSoFar(n, primary, i + 1) == OrderSoFar(n, primary, i) + if primary == Some(i) then [] else [i]
  {
  }

  /** The empty base placed `j`-th had to leave offset zero. */
  ghost predicate Moved(w: World, d: ClassDecl, pls: seq<Placement>, j: nat)
    requires Ordered(w) && BasesBelow(d, |w|) && ValidPlacements(d, pls) && j < |pls|
  {
    IsEmptyClass(w, d.bases[pls[j].base]) && Clash(w, d.bases[pls[j].base], 0, TakenAfter(w, d, pls[..j]))
  }

  /** A base other than the primary one was moved. */
  ghost predicate SomeMoved(w: World, d: ClassDecl, primary: Option<nat>, pls: seq<Placement>)
    requires Ordered(w) && BasesBelow(d, |w|) && ValidPlacements(d, pls)
  {
    exists j :: (if primary.Some? then 1 else 0) <= j < |pls| && Moved(w, d, pls, j)
  }

  lemma {:induction false} SomeMovedNext(w: World, d: ClassDecl, primary: Option<nat>, pls: seq<Placement>, pls': seq<Placement>)
    requires Ordered(w) && BasesBelow(d, |w|) && ValidPlacements(d, pls')
    requires |pls'| == |pls| + 1 && pls'[..|pls|] == pls && (primary.Some? ==> pls != [])
    ensures ValidPlacements(d, pls)
    ensures SomeMoved(w, d, primary, pls') <==> SomeMoved(w, d, primary, pls) || Moved(w, d, pls', |pls|)
  {
    assert forall j :: 0 <= j < |pls| ==> pls'[j] == pls[j] && pls'[..j] == pls[..j];
    forall j | 0 <= j < |pls|
      ensures Moved(w, d, pls', j) == Moved(w, d, pls, j)
    {
    }
  }

  /** Where `build_base_fields` is when it reaches base number `i`. */
  ghost predicate Progress(w: World, d: ClassDecl, binfos: seq<Binfo>, primary: Option<nat>, rli: RecordLayout,
                           table: OffsetTable, vptr: nat, minAlign: nat, offs: seq<nat>, pls: seq<Placement>,
                           i: nat, atend: bool)
    requires Ordered(w) && BasesReady(w, d, binfos)
    reads rli, table, binfos, NodesBelow(binfos)
  {
    && BasesAre(pls, OrderSoFar(|binfos|, primary, i))
    && Stage(w, d, binfos, rli, table, vptr, minAlign, offs, pls)
    && atend == SomeMoved(w, d, primary, pls)
  }

  lemma {:induction false} OrderDone(n: nat, primary: Option<nat>)
    requires primary.Some? ==> primary.value < n
    ensures OrderSoFar(n, primary, n) == AllocationOrder(n, primary)
  {
  }

  /** `build_base_fields`: the primary base first, then the others. */
  method BuildBaseFields(w: World, d: ClassDecl, binfos: seq<Binfo>, primary: Option<nat>, rli: RecordLayout,
                         table: OffsetTable)
    returns (atend: bool, ghost offs: seq<nat>, ghost pls: seq<Placement>)
    requires Ordered(w) && BasesReady(w, d, binfos) && IsPrimary(w, d, primary)
    requires rli.empty == (rli.pos == 0) && table.Places() == {}
    requires forall i :: 0 <= i < |binfos| ==> PlacedAt(w, binfos[i], 0)
    modifies rli, table, NodesBelow(binfos)
    ensures BasesAre(pls, AllocationOrder(|d.bases|, primary))
    ensures Stage(w, d, binfos, rli, table, old(rli.pos), old(rli.align), offs, pls)
    ensures atend == SomeMoved(w, d, primary, pls)
  {
    ghost var vptr, minAlign := rli.pos, rli.align;
    atend := false;
    offs, pls := BuildPrimary(w, d, binfos, primary, rli, table);
    for i := 0 to |binfos|
      invariant Progress(w, d, binfos, primary, rli, table, vptr, minAlign, offs, pls, i, atend)
    {
      atend, offs, pls := BuildUnlessPrimary(w, d, binfos, primary, rli, table, i, atend, vptr, minAlign, offs, pls);
    }
    OrderDone(|binfos|, primary);
  }

  method BuildPrimary(w: World, d: ClassDecl, binfos: seq<Binfo>, primary: Option<nat>, rli: RecordLayout,
                      table: OffsetTable)
    returns (ghost offs: seq<nat>, ghost pls: seq<Placement>)
    requires Ordered(w) && BasesReady(w, d, binfos) && IsPrimary(w, d, primary)
    requires rli.empty == (rli.pos == 0) && table.Places() == {}
    requires forall i :: 0 <= i < |binfos| ==> PlacedAt(w, binfos[i], 0)
    modifies rli, table, NodesBelow(binfos)
    ensures Progress(w, d, binfos, primary, rli, table, old(rli.pos), old(rli.align), offs, pls, 0, false)
  {
    pls, offs := [], seq(|binfos|, i => 0);
    NoneYet(w, d, binfos, rli, table);
    if primary.Some? {
      var end;
      end, offs, pls := PlaceNext(w, d, binfos, rli, table, primary.value, rli.pos, rli.align, offs, pls);
    }
    OrderStart(|binfos|, primary, pls);
  }

  method BuildUnlessPrimary(w: World, d: ClassDecl, binfos: seq<Binfo>, primary: Option<nat>, rli: RecordLayout,
                            table: OffsetTable, i: nat, sofar: bool,
                            ghost vptr: nat, ghost minAlign: nat, ghost offs: seq<nat>, ghost pls: seq<Placement>)
    returns (atend: bool, ghost offs': seq<nat>, ghost pls': seq<Placement>)
    requires Ordered(w) && BasesReady(w, d, binfos) && i < |binfos|
    requires Progress(w, d, binfos, primary, rli, table, vptr, minAlign, offs, pls, i, sofar)
    modifies rli, table, NodesBelow(binfos)
    ensures Progress(w, d, binfos, primary, rli, table, vptr, minAlign, offs', pls', i + 1, atend)
  {
    if primary == Some(i) {
      OrderNext(|binfos|, primary, i, pls, pls);
      return sofar, offs, pls;
    }
    NotYetPlaced(|binfos|, primary, i, pls);
    var end;
    end, offs', pls' := PlaceNext(w, d, binfos, rli, table, i, vptr, minAlign, offs, pls);
    SomeMovedNext(w, d, primary, pls, pls');
    OrderNext(|binfos|, primary, i, pls, pls');
    atend := sofar || end;
  }

  lemma {:induction false} NoneYet(w: World, d: ClassDecl, binfos: seq<Binfo>, rli: RecordLayout, table: OffsetTable)
    requires Ordered(w) && BasesReady(w, d, binfos)
    requires rli.empty == (rli.pos == 0) && table.Places() == {}
    requires forall i :: 0 <= i < |binfos| ==> PlacedAt(w, binfos[i], 0)
    ensures Stage(w, d, binfos, rli, table, rli.pos, rli.align, seq(|binfos|, i => 0), [])
  {
    forall i | 0 <= i < |binfos|
      ensures binfos[i].offset == 0
    {
      assert ValidPath(w, binfos[i].typ, []) && binfos[i].At(w, []) == binfos[i];
    }
  }

  /** The nodes for the direct bases, each still at offset zero. */
  method MakeBaseBinfos(w: World, d: ClassDecl) returns (binfos: seq<Binfo>)
    requires Ordered(w) && BasesBelow(d, |w|) && forall b :: 0 <= b < |w| ==> w[b].align > 0
    ensures BasesReady(w, d, binfos)
    ensures forall i :: 0 <= i < |binfos| ==> PlacedAt(w, binfos[i], 0) && fresh(binfos[i].Repr)
  {
    binfos := [];
    for i := 0 to |d.bases|
      invariant |binfos| == i
      invariant forall j :: 0 <= j < i ==>
        binfos[j].Valid() && binfos[j].Mirrors(w) && binfos[j].typ == d.bases[j]
        && PlacedAt(w, binfos[j], 0) && fresh(binfos[j].Repr)
      invariant forall j, k :: 0 <= j < k < i ==> binfos[j].Repr !! binfos[k].Repr
    {
      var b := UnshareBaseBinfos(w, d.bases[i], 0);
      binfos := binfos + [b];
    }
  }

  /** The data members go after the bases; none of them can clash. */
  method PlaceDataMembers(rli: RecordLayout, fields: seq<Field>) returns (members: seq<nat>)
    requires forall f :: f in fields ==> f.size > 0 && f.align > 0
    modifies rli
    ensures members == FieldOffsets(old(rli.pos), fields)
    ensures rli.pos == PlaceFields(old(rli.pos), fields)
    ensures rli.align == FieldsAlign(old(rli.align), fields)
    ensures rli.empty == (old(rli.empty) && fields == [])
  {
    members := [];
    for i := 0 to |fields|
      invariant rli.pos == PlaceFields(old(rli.pos), fields[..i])
      invariant members == FieldOffsets(old(rli.pos), fields[..i])
      invariant rli.align == FieldsAlign(old(rli.align), fields[..i])
      invariant rli.empty == (old(rli.empty) && i == 0)
    {
      rli.empty := false;
      assert fields[..i + 1][..i] == fields[..i];
      var offset := rli.PlaceField(fields[i].size, fields[i].align);
      members := members + [offset];
    }
    assert fields[..|fields|] == fields;
  }

  /** `end_of_class`. */
  method EndOfClass(w: World, d: ClassDecl, offsets: seq<nat>) returns (result: nat)
    requires Ordered(w) && BasesBelow(d, |w|) && |offsets| == |d.bases|
    ensures result == EndOfBases(w, d, offsets, |offsets|)
  {
    result := 0;
    for i := 0 to |d.bases|
      invariant result == EndOfBases(w, d, offsets, i)
    {
      var size := if IsEmptyClass(w, d.bases[i]) then w[d.bases[i]].size else w[d.bases[i]].nvsize;
      if offsets[i] + size > result {
        result := offsets[i] + size;
      }
    }
  }

  /** Once every base is allocated, nothing but padding means only padding. */
  lemma {:induction false} AllPlaced(w: World, d: ClassDecl, primary: Option<nat>, vptr: nat, pls: seq<Placement>)
    requires Ordered(w) && BasesBelow(d, |w|) && ValidPlacements(d, pls) && IsPrimary(w, d, primary)
    requires BasesAre(pls, AllocationOrder(|d.bases|, primary)) && vptr == VptrSize(d, primary)
    ensures (NothingYet(w, d, vptr, pls) && d.fields == []) == OnlyPadding(w, d, primary)
  {
    var order := AllocationOrder(|d.bases|, primary);
    if NothingYet(w, d, vptr, pls) {
      forall i: nat | i < |d.bases|
        ensures IsEmptyClass(w, d.bases[i])
      {
        assert i in order;
        var j :| 0 <= j < |order| && order[j] == i;
        assert pls[j].base == i;
      }
    }
  }

  lemma {:induction false} BasesArePlaced(w: World, d: ClassDecl, primary: Option<nat>, vptr: nat, align: nat, offs: seq<nat>, pls: seq<Placement>,
                                          pos': nat, align': nat, taken: set<Place>, empty: bool)
    requires Ordered(w) && BasesBelow(d, |w|) && IsPrimary(w, d, primary) && |offs| == |d.bases|
    requires BasesAre(pls, AllocationOrder(|d.bases|, primary)) && OffsetsRecord(offs, pls)
    requires Accounts(w, d, vptr, align, pls, pos', align', taken, empty)
    requires vptr == VptrSize(d, primary)
    ensures PlacedBy(w, d, primary, offs, pls)
    ensures (empty && d.fields == []) == OnlyPadding(w, d, primary)
  {
    AllPlaced(w, d, primary, vptr, pls);
  }

  /** The first half of `layout_class_type`: primary base, virtual table pointer,
      bases. */
  method LayoutBases(w: World, d: ClassDecl)
    returns (primary: Option<nat>, rli: RecordLayout, offsets: seq<nat>, binfos: seq<Binfo>, ghost pls: seq<Placement>)
    requires AllLaidOut(w) && WellFormedDecl(d, |w|)
    ensures fresh(rli) && PlacedBy(w, d, primary, offsets, pls)
    ensures rli.pos == PosAfter(w, d, VptrSize(d, primary), pls)
    ensures rli.align == AlignAfter(w, d, StartAlign(d, primary), pls)
    ensures (rli.empty && d.fields == []) == OnlyPadding(w, d, primary)
    ensures BasesReady(w, d, binfos) && NodesAt(w, binfos, offsets)
  {
    LayoutTheorem.Aligned(w);
    primary := DeterminePrimaryBase(w, d);
    var nodes := MakeBaseBinfos(w, d);
    binfos := nodes;
    rli := new RecordLayout(d.minAlign);
    var table := new OffsetTable();
    if primary.None? && d.virtuals != [] {
      var offset := rli.PlaceField(POINTER_SIZE, POINTER_SIZE);
      rli.empty := false;
    }
    ghost var vptr, align := rli.pos, rli.align;
    assert vptr == VptrSize(d, primary) && align == StartAlign(d, primary);
    var atend;
    ghost var offs;
    atend, offs, pls := BuildBaseFields(w, d, nodes, primary, rli, table);
    BasesArePlaced(w, d, primary, vptr, align, offs, pls, rli.pos, rli.align, table.Places(), rli.empty);
    offsets := ReadOffsets(w, nodes, offs);
  }

  method ReadOffsets(w: World, nodes: seq<Binfo>, ghost offs: seq<nat>) returns (offsets: seq<nat>)
    requires Ordered(w) && forall i :: 0 <= i < |nodes| ==> nodes[i].Valid() && nodes[i].Mirrors(w)
    requires NodesAt(w, nodes, offs)
    ensures offsets == offs
  {
    offsets := [];
    for i := 0 to |nodes|
      invariant offsets == offs[..i]
    {
      offsets := offsets + [nodes[i].offset];
    }
  }

  /** The second half of `layout_class_type`: data members, protruding empty
      bases, sizes. */
  method LayoutRest(w: World, d: ClassDecl, primary: Option<nat>, offsets: seq<nat>, rli: RecordLayout,
                    ghost pls: seq<Placement>)
    returns (info: ClassInfo)
    requires Ordered(w) && WellFormedDecl(d, |w|) && |offsets| == |d.bases| && ValidPlacements(d, pls)
    requires rli.pos == PosAfter(w, d, VptrSize(d, primary), pls)
    requires rli.align == AlignAfter(w, d, StartAlign(d, primary), pls)
    requires (rli.empty && d.fields == []) == OnlyPadding(w, d, primary)
    modifies rli
    ensures info.decl == d && info.primary == primary && info.offsets == offsets
    ensures SizedBy(w, info, pls)
  {
    var members := PlaceDataMembers(rli, d.fields);
    ghost var pos := rli.pos;
    var eoc := EndOfClass(w, d, offsets);
    if rli.pos < eoc {
      rli.pos := eoc;
    }
    if eoc == 0 && rli.empty {
      rli.pos := rli.pos + 1;
    }
    assert rli.pos == FinalPos(pos, eoc, rli.empty);
    var size := RoundUp(rli.pos, rli.align);
    var nvsize := if rli.empty then 0 else if d.pod then size else rli.pos;
    info := ClassInfo(d, offsets, members, primary, nvsize, size, rli.align);
  }

  /** `layout_class_type`: a layout by the rules, with every node of the bases
      where it says. */
  method LayoutClassType(w: World, d: ClassDecl)
    returns (info: ClassInfo, binfos: seq<Binfo>, ghost pls: seq<Placement>)
    requires AllLaidOut(w) && WellFormedDecl(d, |w|)
    ensures info.decl == d
    ensures PlacedBy(w, d, info.primary, info.offsets, pls) && SizedBy(w, info, pls)
    ensures BasesReady(w, d, binfos) && NodesAt(w, binfos, info.offsets)
  {
    var primary, rli, offsets;
    primary, rli, offsets, binfos, pls := LayoutBases(w, d);
    info := LayoutRest(w, d, primary, offsets, rli, pls);
  }

  lemma {:induction false} LaidOutByPlacements(w: World, info: ClassInfo, pls: seq<Placement>)
    requires Ordered(w) && WellFormedDecl(info.decl, |w|)
    requires PlacedBy(w, info.decl, info.primary, info.offsets, pls) && SizedBy(w, info, pls)
    ensures LaidOut(w, info)
  {
  }
}
