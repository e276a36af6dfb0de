/** The layout of one class, step by step: the speculative placement of each
    direct base, then the data members, then the sizes. */
module BaseLayout {
  import opened Hierarchy
  import opened EmptyOffsets
  import opened BinfoTree
  import opened LayoutRules

  /** `record_layout_info`: bytes in use, alignment so far, and whether nothing
      but padding has been placed. */
  class RecordLayout {
    var pos: nat
    var align: nat
    var empty: bool

    constructor (minAlign: nat)
      ensures pos == 0 && align == minAlign && empty
    {
      pos, align, empty := 0, minAlign, true;
    }

    /** `place_field`, for a member of whole bytes. */
    method PlaceField(size: nat, a: nat) returns (offset: nat)
      requires a > 0
      modifies this`pos, this`align
      ensures offset == RoundUp(old(pos), a) && pos == offset + size && align == Max(old(align), a)
    {
      align := Max(align, a);
      offset := RoundUp(pos, a);
      pos := offset + size;
    }
  }

  lemma {:induction false} RoundUpStep(x: nat, a: nat)
    requires a > 0
    ensures RoundUp(x + a, a) == RoundUp(x, a) + a
  {
    var q := (x + a - 1) / a;
    assert x + a - 1 == q * a + (x + a - 1) % a;
    assert (q + 1) * a == q * a + a;
    QuotientUnique(x + a + a - 1, a, q + 1);
  }

  /** No placement tried beyond the largest recorded offset can clash. */
  lemma {:induction false} LargestOffset(taken: set<Place>) returns (m: nat)
    ensures forall pl :: pl in taken ==> pl.offset <= m
    decreases |taken|
  {
    if taken == {} {
      m := 0;
    } else {
      var pl :| pl in taken;
      m := LargestOffset(taken - {pl});
      m := Max(m, pl.offset);
    }
  }

  lemma {:induction false} ClashBelow(w: World, c: ClassId, o: nat, taken: set<Place>, m: nat)
    requires Ordered(w) && c < |w| && Clash(w, c, o, taken) && forall pl :: pl in taken ==> pl.offset <= m
    ensures o <= m
  {
    var pl :| pl in EmptySubobjects(w, c, o) * taken;
    NoneBefore(w, c, o, pl);
  }

  /** `layout_nonempty_base_or_field` for a base: place it, and as long as it
      clashes put everything back and move on by its alignment. */
  method LayoutNonemptyBase(w: World, rli: RecordLayout, binfo: Binfo, table: OffsetTable)
    requires Ordered(w) && binfo.Valid() && binfo.Mirrors(w) && PlacedAt(w, binfo, 0)
    requires w[binfo.typ].align > 0
    modifies rli`pos, rli`align, table, binfo.Repr
    ensures table.entries == old(table.entries)
    ensures binfo.offset >= 0 && PlacedAt(w, binfo, binfo.offset)
    ensures FirstFree(w, binfo.typ, RoundUp(old(rli.pos), w[binfo.typ].align), w[binfo.typ].align,
                      table.Places(), binfo.offset)
    ensures rli.pos == binfo.offset + w[binfo.typ].nvsize
    ensures rli.align == Max(old(rli.align), w[binfo.typ].align)
  {
    var offset := PlaceSpeculatively(w, rli, binfo.typ, table);
    assert PlacedAt(w, binfo, 0);
    Move(w, binfo, 0, offset);
  }

  /** The loop that places, and as long as there is a clash takes back. */
  method PlaceSpeculatively(w: World, rli: RecordLayout, c: ClassId, table: OffsetTable) returns (offset: nat)
    requires Ordered(w) && c < |w| && w[c].align > 0
    modifies rli`pos, rli`align, table
    ensures table.entries == old(table.entries)
    ensures FirstFree(w, c, RoundUp(old(rli.pos), w[c].align), w[c].align, table.Places(), offset)
    ensures rli.pos == offset + w[c].nvsize && rli.align == Max(old(rli.align), w[c].align)
  {
    var a := w[c].align;
    ghost var start, k: nat := RoundUp(rli.pos, a), 0;
    ghost var taken := table.Places();
    ghost var m := LargestOffset(taken);
    while true
      invariant RoundUp(rli.pos, a) == Spot(start, a, k) && rli.align == old(rli.align)
      invariant table.entries == old(table.entries) && table.Places() == taken
      invariant forall j: nat :: j < k ==> Clash(w, c, Spot(start, a, j), taken)
      decreases m - Spot(start, a, k)
    {
      var oldPos, oldAlign := rli.pos, rli.align;
      offset := rli.PlaceField(w[c].nvsize, a);
      var conflict := table.LayoutConflictP(w, c, offset);
      if !conflict {
        break;
      }
      ClashBelow(w, c, offset, taken, m);
      RoundUpStep(oldPos, a);
      SpotStep(start, a, k);
      rli.pos, rli.align := oldPos + a, oldAlign;
      k := k + 1;
    }
  }

  lemma {:induction false} SpotStep(start: nat, a: nat, k: nat)
    ensures Spot(start, a, k + 1) == Spot(start, a, k) + a
  {
  }

  /** Moving a subobject keeps every node below it in place relative to it. */
  method Move(w: World, binfo: Binfo, ghost o: int, delta: int)
    requires Ordered(w) && binfo.Valid() && binfo.Mirrors(w) && PlacedAt(w, binfo, o)
    modifies binfo.Repr
    ensures PlacedAt(w, binfo, o + delta) && binfo.offset == o + delta
  {
    PropagateBinfoOffsets(w, binfo, delta);
    assert ValidPath(w, binfo.typ, []) && binfo.At(w, []) == binfo;
  }

  /** `layout_empty_base`: where it already is if possible, otherwise from the
      end of the class `eoc` upwards.  Returns whether it left its place. */
  method LayoutEmptyBase(w: World, binfo: Binfo, eoc: nat, table: OffsetTable) returns (atend: bool)
    requires Ordered(w) && binfo.Valid() && binfo.Mirrors(w)
    requires IsEmptyClass(w, binfo.typ) && w[binfo.typ].align > 0
    requires binfo.offset >= 0 && PlacedAt(w, binfo, binfo.offset)
    modifies table, binfo.Repr
    ensures table.entries == old(table.entries)
    ensures binfo.offset >= 0 && PlacedAt(w, binfo, binfo.offset)
    ensures atend == Clash(w, binfo.typ, old(binfo.offset), table.Places())
    ensures !atend ==> binfo.offset == old(binfo.offset)
    ensures atend ==> FirstFree(w, binfo.typ, old(binfo.offset) + eoc, w[binfo.typ].align, table.Places(), binfo.offset)
  {
    var c, a := binfo.typ, w[binfo.typ].align;
    ghost var m := LargestOffset(table.Places());
    ghost var taken := table.Places();
    atend := table.LayoutConflictP(w, c, binfo.offset);
    if atend {
      ghost var start, k: nat := binfo.offset + eoc, 0;
      Move(w, binfo, binfo.offset, eoc);
      while true
        invariant binfo.offset == Spot(start, a, k) && PlacedAt(w, binfo, binfo.offset)
        invariant table.entries == old(table.entries) && table.Places() == taken
        invariant forall j: nat :: j < k ==> Clash(w, c, Spot(start, a, j), taken)
        decreases m - Spot(start, a, k)
      {
        var conflict := table.LayoutConflictP(w, c, binfo.offset);
        if !conflict {
          break;
        }
        ClashBelow(w, c, binfo.offset, taken, m);
        SpotStep(start, a, k);
        Move(w, binfo, binfo.offset, a);
        k := k + 1;
      }
    }
  }

  /** `build_base_field`: places one direct base and records what is in it. */
  method BuildBaseField(w: World, rli: RecordLayout, binfo: Binfo, table: OffsetTable) returns (atend: bool)
    requires Ordered(w) && binfo.Valid() && binfo.Mirrors(w) && PlacedAt(w, binfo, 0)
    requires w[binfo.typ].align > 0
    modifies rli, table, binfo.Repr
    ensures binfo.offset >= 0 && PlacedAt(w, binfo, binfo.offset)
    ensures Fits(w, binfo.typ, old(rli.pos), old(table.Places()), binfo.offset)
    ensures table.Places() == old(table.Places()) + EmptySubobjects(w, binfo.typ, binfo.offset)
    ensures rli.empty == (old(rli.empty) && IsEmptyClass(w, binfo.typ))
    ensures if IsEmptyClass(w, binfo.typ) then rli.pos == old(rli.pos) && rli.align == old(rli.align)
            else rli.pos == binfo.offset + w[binfo.typ].nvsize && rli.align == Max(old(rli.align), w[binfo.typ].align)
    ensures atend == (IsEmptyClass(w, binfo.typ) && Clash(w, binfo.typ, 0, old(table.Places())))
  {
    atend := false;
    assert ValidPath(w, binfo.typ, []) && binfo.At(w, []) == binfo;
    if !IsEmptyClass(w, binfo.typ) {
      rli.empty := false;
      LayoutNonemptyBase(w, rli, binfo, table);
    } else {
      var eoc := RoundUp(rli.pos, w[binfo.typ].align);
      atend := LayoutEmptyBase(w, binfo, eoc, table);
    }
    table.RecordSubobjectOffsets(w, binfo.typ, binfo.offset);
  }

  /** Bytes in use, alignment, empty subobjects and emptiness after `pls`. */
  ghost predicate Accounts(w: World, d: ClassDecl, vptr: nat, minAlign: nat, pls: seq<Placement>,
                           pos: nat, align: nat, taken: set<Place>, empty: bool)
    requires Ordered(w) && BasesBelow(d, |w|)
  {
    && ValidPlacements(d, pls) && AllFit(w, d, vptr, pls)
    && pos == PosAfter(w, d, vptr, pls) && align == AlignAfter(w, d, minAlign, pls)
    && taken == TakenAfter(w, d, pls)
    && empty == NothingYet(w, d, vptr, pls)
  }

  ghost predicate NothingYet(w: World, d: ClassDecl, vptr: nat, pls: seq<Placement>)
    requires Ordered(w) && BasesBelow(d, |w|) && ValidPlacements(d, pls)
  {
    vptr == 0 && forall j :: 0 <= j < |pls| ==> IsEmptyClass(w, d.bases[pls[j].base])
  }

  /** One more base, placed by the rules, keeps the accounts. */
  lemma {:induction false} AccountsNext(w: World, d: ClassDecl, vptr: nat, minAlign: nat, pls: seq<Placement>,
                     pos: nat, align: nat, taken: set<Place>, empty: bool, pl: Placement, pos': nat, align': nat)
    requires Ordered(w) && BasesBelow(d, |w|) && Accounts(w, d, vptr, minAlign, pls, pos, align, taken, empty)
    requires pl.base < |d.bases| && Fits(w, d.bases[pl.base], pos, taken, pl.offset)
    requires pos' == if IsEmptyClass(w, d.bases[pl.base]) then pos else pl.offset + w[d.bases[pl.base]].nvsize
    requires align' == if IsEmptyClass(w, d.bases[pl.base]) then align else Max(align, w[d.bases[pl.base]].align)
    ensures Accounts(w, d, vptr, minAlign, pls + [pl], pos', align',
                     taken + EmptySubobjects(w, d.bases[pl.base], pl.offset),
                     empty && IsEmptyClass(w, d.bases[pl.base]))
  {
    var more := pls + [pl];
    assert more[..|pls|] == pls;
    forall j | 0 <= j < |more|
      ensures FitsAt(w, d, vptr, more, j)
    {
      if j < |pls| {
        assert FitsAt(w, d, vptr, pls, j) && more[..j] == pls[..j];
      }
    }
  }

  /** The nodes of the direct bases of one class while it is laid out. */
  ghost predicate BasesReady(w: World, d: ClassDecl, binfos: seq<Binfo>)
    requires Ordered(w)
  {
    && BasesBelow(d, |w|) && |binfos| == |d.bases|
    && (forall i :: 0 <= i < |binfos| ==>
          binfos[i].Valid() && binfos[i].Mirrors(w) && binfos[i].typ == d.bases[i] && w[d.bases[i]].align > 0)
    && (forall i, j :: 0 <= i < j < |binfos| ==> binfos[i].Repr !! binfos[j].Repr)
  }

  ghost function NodesBelow(binfos: seq<Binfo>): (s: set<Binfo>)
    ensures forall i :: 0 <= i < |binfos| ==> binfos[i].Repr <= s
  {
    set i, b | 0 <= i < |binfos| && b in binfos[i].Repr :: b
  }

  /** Every direct base is in place as a whole, at the offsets in `offs`. */
  ghost predicate NodesAt(w: World, binfos: seq<Binfo>, offs: seq<nat>)
    requires Ordered(w) && forall i :: 0 <= i < |binfos| ==> binfos[i].Valid() && binfos[i].Mirrors(w)
    reads binfos, NodesBelow(binfos)
  {
    && |offs| == |binfos|
    && forall i :: 0 <= i < |binfos| ==> binfos[i].offset == offs[i] && PlacedAt(w, binfos[i], offs[i])
  }

  /** The bases in `pls` are where it says, the others still at zero. */
  ghost predicate OffsetsRecord(offs: seq<nat>, pls: seq<Placement>) {
    && (forall j :: 0 <= j < |pls| ==> pls[j].base < |offs| && offs[pls[j].base] == pls[j].offset)
    && (forall i: nat :: i < |offs| && !Placed(pls, i) ==> offs[i] == 0)
  }

  ghost predicate Placed(pls: seq<Placement>, i: nat) {
    exists j :: 0 <= j < |pls| && pls[j].base == i
  }

  lemma {:induction false} OffsetsRecordNext(offs: seq<nat>, pls: seq<Placement>, i: nat, o: nat)
    requires OffsetsRecord(offs, pls) && i < |offs| && !Placed(pls, i)
    ensures OffsetsRecord(offs[i := o], pls + [Placement(i, o)])
  {
    var more := pls + [Placement(i, o)];
    forall j | 0 <= j < |more|
      ensures more[j].base < |offs| && offs[i := o][more[j].base] == more[j].offset
    {
      if j < |pls| {
        assert more[j] == pls[j] && pls[j].base != i;
      }
    }
    forall k: nat | k < |offs| && !Placed(more, k)
      ensures offs[i := o][k] == 0
    {
      assert more[|pls|].base == i;
      assert forall j :: 0 <= j < |pls| ==> more[j] == pls[j];
      assert !Placed(pls, k);
    }
  }

  /** The bases in `pls` have been placed: the accounts are right and every node
      is where they say. */
  ghost predicate Stage(w: World, d: ClassDecl, binfos: seq<Binfo>, rli: RecordLayout, table: OffsetTable,
                        vptr: nat, minAlign: nat, offs: seq<nat>, pls: seq<Placement>)
    requires Ordered(w) && BasesReady(w, d, binfos)
    reads rli, table, binfos, NodesBelow(binfos)
  {
    && Accounts(w, d, vptr, minAlign, pls, rli.pos, rli.align, table.Places(), rli.empty)
    && NodesAt(w, binfos, offs) && OffsetsRecord(offs, pls)
  }

  /** One iteration of `build_base_fields`. */
  method PlaceNext(w: World, d: ClassDecl, binfos: seq<Binfo>, rli: RecordLayout, table: OffsetTable, i: nat,
                   ghost vptr: nat, ghost minAlign: nat, ghost offs: seq<nat>, ghost pls: seq<Placement>)
    returns (atend: bool, ghost offs': seq<nat>, ghost pls': seq<Placement>)
    requires Ordered(w) && BasesReady(w, d, binfos) && i < |binfos|
    requires Stage(w, d, binfos, rli, table, vptr, minAlign, offs, pls) && !Placed(pls, i)
    modifies rli, table, binfos[i].Repr
    ensures |pls'| == |pls| + 1 && pls'[..|pls|] == pls && pls'[|pls|].base == i
    ensures Stage(w, d, binfos, rli, table, vptr, minAlign, offs', pls')
    ensures atend == (IsEmptyClass(w, d.bases[i]) && Clash(w, d.bases[i], 0, TakenAfter(w, d, pls)))
  {
    ghost var pos, align, taken, empty := rli.pos, rli.align, table.Places(), rli.empty;
    assert !Placed(pls, i) && offs[i] == 0;
    atend := BuildBaseField(w, rli, binfos[i], table);
    offs' := offs[i := binfos[i].offset];
    pls' := pls + [Placement(i, offs'[i])];
    AccountsNext(w, d, vptr, minAlign, pls, pos, align, taken, empty, pls'[|pls|], rli.pos, rli.align);
    OffsetsRecordNext(offs, pls, i, offs'[i]);
    forall k | 0 <= k < |binfos|
      ensures binfos[k].offset == offs'[k] && PlacedAt(w, binfos[k], offs'[k])
    {
      if k != i {
        assert binfos[k].Repr !! binfos[i].Repr;
        assert old(PlacedAt(w, binfos[k], offs[k]));
      }
    }
  }
}
