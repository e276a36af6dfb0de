/** Building the tables of one class: finding the final overrider of each slot by
    walking over the whole hierarchy, and updating the lists inherited from the
    bases. */
module Vtables {
  import opened Hierarchy
  import opened VtableRules
  import opened SlotLists
  import opened Dispatching
  import opened FinalOverrider

  lemma {:induction false} PathStep(w: World, c: ClassId, p: Path, i: nat)
    requires Ordered(w) && ValidPath(w, c, p) && i < |w[TypeAt(w, c, p)].decl.bases|
    ensures ValidPath(w, c, p + [i]) && TypeAt(w, c, p + [i]) == w[TypeAt(w, c, p)].decl.bases[i]
    ensures OffsetAt(w, c, p + [i]) == OffsetAt(w, c, p) + w[TypeAt(w, c, p)].offsets[i]
  {
    assert [i][1..] == [];
    assert ValidPath(w, TypeAt(w, c, p), [i]);
    PathConcat(w, c, p, [i]);
  }

  function OverriderAt(w: World, c: ClassId, p: Path, s: Sig): Overrider
    requires Ordered(w) && ValidPath(w, c, p)
  {
    var r := FinalOverriderPath(w, c, p, s);
    Overrider(Fn(TypeAt(w, c, r), s), OffsetAt(w, c, r))
  }

  /** The overrider along the path to `p`: the first class on it, from the most
      derived one down, that declares `s`. */
  method OverriderOnPath(w: World, c: ClassId, p: Path, s: Sig) returns (o: Overrider)
    requires Ordered(w) && ValidPath(w, c, p) && Declares(w, TypeAt(w, c, p), s)
    ensures o == OverriderAt(w, c, p, s)
  {
    var cls: ClassId, offset: nat, k: nat := c, 0, 0;
    ghost var r := FinalOverriderPath(w, c, p, s);
    while s !in w[cls].decl.virtuals
      invariant k <= |p| && cls < |w| && ValidPath(w, cls, p[k..])
      invariant Declares(w, TypeAt(w, cls, p[k..]), s)
      invariant ValidPath(w, c, r)
      invariant var rest := FinalOverriderPath(w, cls, p[k..], s);
        TypeAt(w, c, r) == TypeAt(w, cls, rest) && OffsetAt(w, c, r) == offset + OffsetAt(w, cls, rest)
      decreases |p| - k
    {
      assert p[k..][1..] == p[k + 1..];
      ghost var rest := FinalOverriderPath(w, cls, p[k..], s);
      assert rest[1..] == FinalOverriderPath(w, w[cls].decl.bases[p[k]], p[k + 1..], s);
      cls, offset, k := w[cls].decl.bases[p[k]], offset + w[cls].offsets[p[k]], k + 1;
    }
    o := Overrider(Fn(cls, s), offset);
  }

  ghost predicate OnTheWay(p: Path, target: Path, i: nat) {
    p < target && target[|p|] < i
  }

  function Perhaps(visited: bool, o: Overrider): seq<Overrider> {
    if visited then [o] else []
  }

  /** One more base either is on the way or not. */
  lemma {:induction false} NextOnTheWay(p: Path, target: Path, i: nat, o: Overrider)
    ensures Perhaps(OnTheWay(p, target, i + 1), o) == Perhaps(OnTheWay(p, target, i), o) + Perhaps(p + [i] <= target, o)
  {
    if p + [i] <= target {
      assert target[|p|] == (p + [i])[|p|] == i;
      assert p <= p + [i];
    } else if p < target {
      assert target[..|p| + 1] == p + [target[|p|]];
    }
  }

  /** The way to the target goes on to some base. */
  lemma {:induction false} AllOnTheWay(w: World, c: ClassId, p: Path, target: Path, o: Overrider)
    requires Ordered(w) && ValidPath(w, c, p) && ValidPath(w, c, target)
    ensures Perhaps(p <= target, o) == Perhaps(OnTheWay(p, target, |w[TypeAt(w, c, p)].decl.bases|), o) + Perhaps(p == target, o)
  {
    if p < target {
      assert target == p + target[|p|..];
      PathSplit(w, c, p, target[|p|..]);
    }
  }

  /** `strictly_overrides` where bases are never shared: the lookup finds only a unique
      base. */
  predicate StrictlyOverrides(w: World, f: Fn, g: Fn)
    requires Ordered(w)
  {
    f.cls < |w| && f.cls != g.cls && NumSubobjects(w, f.cls, g.cls) == 1
  }

  /** The search for the overrider of `s`, which the subobject `target` declares. */
  ghost predicate Sought(w: World, c: ClassId, s: Sig, target: Path) {
    && Ordered(w) && UniqueAddresses(w, c)
    && ValidPath(w, c, target) && Declares(w, TypeAt(w, c, target), s)
  }

  /** `dfs_walk` with `dfs_find_final_overrider`: visits, bases first, every
      subobject below `p`; the one that counts has the type and the offset of the
      declaring base, which is `target`. */
  method WalkForOverrider(w: World, c: ClassId, p: Path, s: Sig, target: Path, r: Overrides, data: FinalOverriderData)
    requires Sought(w, c, s, target) && ValidPath(w, c, p) && data.Valid(r)
    modifies data
    ensures data.Valid(r) && data.visits == old(data.visits) + Perhaps(p <= target, OverriderAt(w, c, target, s))
    decreases TypeAt(w, c, p)
  {
    ghost var o := OverriderAt(w, c, target, s);
    var n := |w[TypeAt(w, c, p)].decl.bases|;
    for i := 0 to n
      invariant data.Valid(r) && data.visits == old(data.visits) + Perhaps(OnTheWay(p, target, i), o)
    {
      WalkBase(w, c, p, i, s, target, r, data, old(data.visits));
    }
    AllOnTheWay(w, c, p, target, o);
    Associate(old(data.visits), Perhaps(OnTheWay(p, target, n), o), Perhaps(p == target, o));
    VisitIfTarget(w, c, p, s, target, r, data);
  }

  method WalkBase(w: World, c: ClassId, p: Path, i: nat, s: Sig, target: Path, r: Overrides, data: FinalOverriderData,
                  ghost before: seq<Overrider>)
    requires Sought(w, c, s, target) && ValidPath(w, c, p) && i < |w[TypeAt(w, c, p)].decl.bases|
    requires data.Valid(r) && data.visits == before + Perhaps(OnTheWay(p, target, i), OverriderAt(w, c, target, s))
    modifies data
    ensures data.Valid(r) && data.visits == before + Perhaps(OnTheWay(p, target, i + 1), OverriderAt(w, c, target, s))
    decreases TypeAt(w, c, p), 0
  {
    ghost var o := OverriderAt(w, c, target, s);
    PathStep(w, c, p, i);
    NextOnTheWay(p, target, i, o);
    Associate(before, Perhaps(OnTheWay(p, target, i), o), Perhaps(p + [i] <= target, o));
    WalkForOverrider(w, c, p + [i], s, target, r, data);
  }

  /** `dfs_find_final_overrider` */
  method VisitIfTarget(w: World, c: ClassId, p: Path, s: Sig, target: Path, r: Overrides, data: FinalOverriderData)
    requires Sought(w, c, s, target) && ValidPath(w, c, p) && data.Valid(r)
    modifies data
    ensures data.Valid(r) && data.visits == old(data.visits) + Perhaps(p == target, OverriderAt(w, c, target, s))
  {
    if TypeAt(w, c, p) == TypeAt(w, c, target) && OffsetAt(w, c, p) == OffsetAt(w, c, target) {
      var o := OverriderOnPath(w, c, p, s);
      data.Visit(r, o);
    }
  }

  /** `find_final_overrider` for the function `s` declared in the subobject
      `target`: there always is a unique one. */
  method FindFinalOverrider(w: World, c: ClassId, target: Path, s: Sig) returns (overrider: Option<Overrider>)
    requires Ordered(w) && UniqueAddresses(w, c)
    requires ValidPath(w, c, target) && Declares(w, TypeAt(w, c, target), s)
    ensures overrider == Some(OverriderAt(w, c, target, s))
  {
    var data := new FinalOverriderData();
    WalkForOverrider(w, c, [], s, target, (f, g) => StrictlyOverrides(w, f, g), data);
    assert [] <= target;
    OneVisit((f, g) => StrictlyOverrides(w, f, g), OverriderAt(w, c, target, s));
    overrider := data.overriding;
  }

  lemma {:induction false} OneVisit(r: Overrides, o: Overrider)
    ensures [] + [o] == [o] && Run(r, [o]) == Tally(Some(o), [])
  {
    assert [o][..0] == [];
  }

  /** On the way from `p` to the nearest primary base that defines the function. */
  ghost predicate Nearer(w: World, c: ClassId, p: Path, d: Path, s: Sig)
    requires Ordered(w) && ValidPath(w, c, p)
  {
    && ValidPath(w, c, p + d) && HasVirtual(w, TypeAt(w, c, p + d), s)
    && ValidPath(w, TypeAt(w, c, p), d) && PrimaryChain(w, TypeAt(w, c, p), d)
  }

  lemma {:induction false} OneNearer(w: World, c: ClassId, p: Path, d: Path, s: Sig)
    requires Ordered(w) && ValidPath(w, c, p) && Nearer(w, c, p, d, s) && !Declares(w, TypeAt(w, c, p + d), s)
    ensures var cls := TypeAt(w, c, p + d);
      && w[cls].primary.Some?
      && var k := w[cls].primary.value;
      && (p + d) + [k] == p + (d + [k]) && Nearer(w, c, p, d + [k], s)
      && TypeAt(w, c, p + (d + [k])) < cls
  {
    var k := w[TypeAt(w, c, p + d)].primary.value;
    PathConcat(w, c, p, d);
    ChainExtend(w, TypeAt(w, c, p), d, k);
    PathStep(w, c, p + d, k);
    Associate(p, d, [k]);
  }

  /** `update_vtable_entry_for_fn`: the nearest primary base that defines the
      function, its final overrider, and the adjustment from the subobject. */
  method UpdateVtableEntryForFn(w: World, c: ClassId, p: Path, s: Sig) returns (slot: Slot)
    requires Ordered(w) && UniqueAddresses(w, c) && ValidPath(w, c, p) && HasVirtual(w, TypeAt(w, c, p), s)
    ensures slot == CorrectSlot(w, c, p, s)
  {
    var b := p;
    ghost var d := [];
    assert p + [] == p;
    while s !in w[TypeAt(w, c, b)].decl.virtuals
      invariant b == p + d && Nearer(w, c, p, d, s)
      decreases TypeAt(w, c, b)
    {
      var k := w[TypeAt(w, c, b)].primary.value;
      OneNearer(w, c, p, d, s);
      b, d := b + [k], d + [k];
    }
    ChainKeepsOverrider(w, c, p, d, s);
    var overrider := FindFinalOverrider(w, c, b, s);
    slot := Slot(overrider.value.fn, overrider.value.offset - OffsetAt(w, c, p));
  }

  /** The table of the subobject `p` before the new functions are appended. */
  function Modified(w: World, c: ClassId, p: Path): seq<Slot>
    requires Ordered(w) && ValidPath(w, c, p)
  {
    if p == [] then CorrectSlots(w, c, [], Inherited(w, c)) else CorrectTable(w, c, p)
  }

  /** The tables of the classes completed before `c`. */
  ghost predicate BasesRight(w: World, c: ClassId, held: seq<Contents>)
    requires Ordered(w)
  {
    c < |w| && |held| == c && forall b :: 0 <= b < c ==> held[b].table == CorrectTable(w, b, [])
  }

  lemma {:induction false} CorrectTableSigs(w: World, c: ClassId, p: Path)
    requires Ordered(w) && ValidPath(w, c, p)
    ensures var sigs := Sigs(w, TypeAt(w, c, p));
      && |CorrectTable(w, c, p)| == |sigs|
      && forall i :: 0 <= i < |sigs| ==>
           CorrectTable(w, c, p)[i].fn.sig == sigs[i] && HasVirtual(w, TypeAt(w, c, p), sigs[i])
  {
    var sigs := Sigs(w, TypeAt(w, c, p));
    forall i | 0 <= i < |sigs|
      ensures HasVirtual(w, TypeAt(w, c, p), sigs[i])
    {
      SigsAreVirtuals(w, TypeAt(w, c, p), sigs[i]);
    }
  }

  /** The slots that a list starts with are for these signatures, which the class of
      the subobject `p` has. */
  ghost predicate ForSigs(w: World, c: ClassId, p: Path, slots: seq<Slot>, sigs: seq<Sig>)
    requires Ordered(w) && ValidPath(w, c, p)
  {
    |slots| == |sigs| && forall i :: 0 <= i < |sigs| ==> slots[i].fn.sig == sigs[i] && HasVirtual(w, TypeAt(w, c, p), sigs[i])
  }

  /** The slots from number `i` on are as a base has them. */
  ghost predicate FromBases(w: World, c: ClassId, slots: seq<Slot>, i: nat)
    requires Ordered(w)
  {
    forall j :: i <= j < |slots| ==> FromBase(w, c, slots[j].fn)
  }

  /** The first `i` slots are right, the rest still are for these signatures. */
  ghost predicate ModifiedUpTo(w: World, c: ClassId, p: Path, slots: seq<Slot>, sigs: seq<Sig>, i: nat)
    requires Ordered(w) && ValidPath(w, c, p)
  {
    && ForSigs(w, c, p, slots, sigs) && FromBases(w, c, slots, i)
    && forall j :: 0 <= j < i && j < |slots| ==> slots[j] == CorrectSlot(w, c, p, sigs[j])
  }

  lemma {:induction false} OneModified(w: World, c: ClassId, p: Path, slots: seq<Slot>, sigs: seq<Sig>, i: nat)
    requires Ordered(w) && ValidPath(w, c, p) && ModifiedUpTo(w, c, p, slots, sigs, i) && i < |slots|
    ensures ModifiedUpTo(w, c, p, slots[i := CorrectSlot(w, c, p, sigs[i])], sigs, i + 1)
  {
  }

  /** The first `i` functions can be called. */
  ghost predicate HasFns(d: map<Fn, Dispatch>, slots: seq<Slot>, i: nat) {
    forall j :: 0 <= j < i && j < |slots| ==> slots[j].fn in d
  }

  /** So does one more. */
  lemma {:induction false} OneCallable(w: World, c: ClassId, p: Path, slots: seq<Slot>, sigs: seq<Sig>,
                                       settled: map<Fn, Dispatch>, d: map<Fn, Dispatch>, i: nat)
    requires Ordered(w) && ValidPath(w, c, p) && ModifiedUpTo(w, c, p, slots, sigs, i) && i < |slots|
    requires Underway(w, c, settled, d) && HasFns(d, slots, i)
    ensures var slot := CorrectSlot(w, c, p, sigs[i]);
      var d' := Through(d, slot.fn, slots[i].fn);
      Underway(w, c, settled, d') && HasFns(d', slots[i := slot], i + 1)
  {
    OverriderDeclares(w, c, p, sigs[i]);
    OverriderCallable(w, c, settled, d, CorrectSlot(w, c, p, sigs[i]).fn, slots[i].fn);
  }

  lemma {:induction false} AllModified(w: World, c: ClassId, p: Path, slots: seq<Slot>, sigs: seq<Sig>)
    requires Ordered(w) && ValidPath(w, c, p) && ModifiedUpTo(w, c, p, slots, sigs, |sigs|)
    ensures slots == CorrectSlots(w, c, p, sigs)
  {
  }

  /** Walking two lists in step: the one that is modified and that of the class, which
      may be the same. */
  ghost predicate InStep(w: World, c: ClassId, p: Path, nodes: seq<SlotNode>, olds: seq<SlotNode>, sigs: seq<Sig>, i: nat)
    requires Ordered(w) && ValidPath(w, c, p)
    reads nodes, olds
  {
    && Linked(olds, NodeAt(olds, 0))
    && (olds == nodes || forall n :: n in olds ==> n !in nodes)
    && ModifiedUpTo(w, c, p, Slots(nodes), sigs, i)
    && ForSigs(w, c, p, Slots(olds), sigs)
  }

  method ModifyNext(w: World, c: ClassId, p: Path, table: Table, v: SlotNode, u: SlotNode, fns: Functions,
                    ghost settled: map<Fn, Dispatch>, ghost olds: seq<SlotNode>, ghost sigs: seq<Sig>, ghost i: nat)
    returns (v': SlotNode?, u': SlotNode?)
    requires Ordered(w) && UniqueAddresses(w, c) && ValidPath(w, c, p)
    requires table.Valid() && table.isNew && InStep(w, c, p, table.nodes, olds, sigs, i)
    requires i < |sigs| && v == NodeAt(table.nodes, i) && u == NodeAt(olds, i)
    requires Underway(w, c, settled, fns.dispatch) && HasFns(fns.dispatch, Slots(table.nodes), i)
    modifies v, fns
    ensures table.Valid() && InStep(w, c, p, table.nodes, olds, sigs, i + 1)
    ensures Underway(w, c, settled, fns.dispatch) && HasFns(fns.dispatch, Slots(table.nodes), i + 1)
    ensures v' == NodeAt(table.nodes, i + 1) && u' == NodeAt(olds, i + 1)
  {
    var slot := UpdateVtableEntryForFn(w, c, p, u.fn.sig);
    OneModified(w, c, p, Slots(table.nodes), sigs, i);
    OneCallable(w, c, p, Slots(table.nodes), sigs, settled, fns.dispatch, i);
    assert v in table.nodes && (olds != table.nodes ==> v !in olds);
    var entry := table.ModifyVtableEntry(v, slot, fns, i);
    assert olds != table.nodes ==> unchanged(set n | n in olds);
    v', u' := entry.next, u.next;
  }

  /** What `dfs_modify_vtables` does with the list of one subobject: a fresh list, whose
      entries are updated one after the other, in step with the list of the class.  For
      the whole object the two are the same. */
  method ModifySlots(w: World, c: ClassId, p: Path, table: Table, ofClass: Table, fns: Functions,
                     ghost settled: map<Fn, Dispatch>, ghost sigs: seq<Sig>)
    requires Ordered(w) && UniqueAddresses(w, c) && ValidPath(w, c, p)
    requires table.Valid() && !table.isNew && ofClass.Valid()
    requires ForSigs(w, c, p, Slots(table.nodes), sigs) && ForSigs(w, c, p, Slots(ofClass.nodes), sigs)
    requires FromBases(w, c, Slots(table.nodes), 0) && Underway(w, c, settled, fns.dispatch)
    modifies table, fns
    ensures HoldsFor(table.path, table, CorrectSlots(w, c, p, sigs)) && fresh(table.nodes)
    ensures Underway(w, c, settled, fns.dispatch) && HasFns(fns.dispatch, CorrectSlots(w, c, p, sigs), |sigs|)
  {
    var made := table.MakeNewVtable();
    ModifyInStep(w, c, p, table, ofClass.virtuals, fns, settled, ofClass.nodes, sigs);
  }

  method ModifyInStep(w: World, c: ClassId, p: Path, table: Table, old': SlotNode?, fns: Functions,
                      ghost settled: map<Fn, Dispatch>, ghost olds: seq<SlotNode>,
                      ghost sigs: seq<Sig>)
    requires Ordered(w) && UniqueAddresses(w, c) && ValidPath(w, c, p) && table.Valid() && table.isNew
    requires InStep(w, c, p, table.nodes, olds, sigs, 0) && old' == NodeAt(olds, 0) && Underway(w, c, settled, fns.dispatch)
    modifies table.nodes, fns
    ensures HoldsFor(table.path, table, CorrectSlots(w, c, p, sigs)) && table.nodes == old(table.nodes)
    ensures Underway(w, c, settled, fns.dispatch) && HasFns(fns.dispatch, CorrectSlots(w, c, p, sigs), |sigs|)
  {
    var v, u := table.virtuals, old';
    ghost var i := 0;
    while v != null
      invariant table.Valid()
      invariant 0 <= i <= |sigs| && v == NodeAt(table.nodes, i) && u == NodeAt(olds, i)
      invariant InStep(w, c, p, table.nodes, olds, sigs, i)
      invariant Underway(w, c, settled, fns.dispatch) && HasFns(fns.dispatch, Slots(table.nodes), i)
      decreases |sigs| - i
    {
      v, u := ModifyNext(w, c, p, table, v, u, fns, settled, olds, sigs, i);
      i := i + 1;
    }
    AllModified(w, c, p, Slots(table.nodes), sigs);
  }

  /** The binfo at `p` gets its list, starting from that of the base class `base`. */
  method TableFrom(w: World, c: ClassId, p: Path, base: Table, own: bool, fns: Functions,
                   ghost settled: map<Fn, Dispatch>, ghost slots: seq<Slot>, ghost sigs: seq<Sig>)
    returns (table: Table)
    requires Ordered(w) && UniqueAddresses(w, c) && ValidPath(w, c, p)
    requires Holds(base, slots) && ForSigs(w, c, p, slots, sigs) && FromBases(w, c, slots, 0) && Underway(w, c, settled, fns.dispatch)
    modifies fns
    ensures HoldsFor(p, table, CorrectSlots(w, c, p, sigs)) && fresh(table) && fresh(table.nodes)
    ensures Underway(w, c, settled, fns.dispatch) && HasFns(fns.dispatch, CorrectSlots(w, c, p, sigs), |sigs|)
  {
    table := new Table(base.virtuals, base.nodes, p);
    ModifySlots(w, c, p, table, if own then table else base, fns, settled, sigs);
  }

  method NoTable(p: Path) returns (table: Table)
    ensures HoldsFor(p, table, []) && fresh(table) && fresh(table.nodes)
  {
    table := new Table(null, [], p);
    var made := table.MakeNewVtable();
  }

  lemma {:induction false} BaseSlotsForSigs(w: World, c: ClassId, p: Path, b: ClassId, held: seq<Contents>)
    requires Ordered(w) && ValidPath(w, c, p) && BasesRight(w, c, held)
    requires if p == [] then w[c].primary.Some? && b == w[c].decl.bases[w[c].primary.value] else b == TypeAt(w, c, p)
    ensures b < c && ForSigs(w, c, p, held[b].table, Sigs(w, b)) && FromBases(w, c, held[b].table, 0)
  {
    CorrectTableSigs(w, b, []);
    if p == [] {
      PathStep(w, c, [], w[c].primary.value);
      assert LeadsTo(w, c, [] + [w[c].primary.value], b);
    } else {
      assert LeadsTo(w, c, p, b);
    }
    forall j | 0 <= j < |held[b].table|
      ensures FromBase(w, c, held[b].table[j].fn)
    {
      SlotFromBase(w, c, b, Sigs(w, b)[j]);
    }
  }

  /** The functions in the table of a base come from a base. */
  lemma {:induction false} SlotFromBase(w: World, c: ClassId, b: ClassId, s: Sig)
    requires Ordered(w) && b < c && HasBase(w, c, b) && ValidPath(w, b, []) && HasVirtual(w, b, s)
    ensures FromBase(w, c, CorrectSlot(w, b, [], s).fn)
  {
    var r := FinalOverriderPath(w, b, [], s);
    OverriderDeclares(w, b, [], s);
    assert LeadsTo(w, b, r, TypeAt(w, b, r));
    HasBaseOfBase(w, c, b, TypeAt(w, b, r));
  }

  lemma {:induction false} NothingInherited(w: World, c: ClassId)
    requires Ordered(w) && c < |w| && w[c].primary.None?
    ensures Modified(w, c, []) == []
  {
  }

  /** The functions that the updated primary table holds can be called. */
  lemma {:induction false} TableCallable(w: World, c: ClassId, d: map<Fn, Dispatch>)
    requires Ordered(w) && c < |w| && HasFns(d, CorrectSlots(w, c, [], Inherited(w, c)), |Inherited(w, c)|)
    ensures InheritedCallable(w, c, d)
  {
    forall s {:trigger Fn(c, s)} | s in Inherited(w, c) && Declares(w, c, s)
      ensures Fn(c, s) in d
    {
      var j :| 0 <= j < |Inherited(w, c)| && Inherited(w, c)[j] == s;
      assert CorrectSlots(w, c, [], Inherited(w, c))[j].fn == Fn(c, s);
    }
  }

  /** A list for one subobject, from that of its class or of the primary base. */
  method FreshList(w: World, c: ClassId, p: Path, bases: seq<ClassTables>, fns: Functions,
                   ghost settled: map<Fn, Dispatch>, ghost held: seq<Contents>) returns (table: Table)
    requires Ordered(w) && UniqueAddresses(w, c) && ValidPath(w, c, p) && BasesRight(w, c, held)
    requires |bases| == c && forall b {:trigger bases[b]} :: 0 <= b < c ==> Holds(bases[b].virtuals, held[b].table)
    requires Underway(w, c, settled, fns.dispatch)
    modifies fns
    ensures HoldsFor(p, table, Modified(w, c, p)) && fresh(table) && fresh(table.nodes)
    ensures Underway(w, c, settled, fns.dispatch) && (p == [] ==> InheritedCallable(w, c, fns.dispatch))
  {
    if p != [] || w[c].primary.Some? {
      var b := if p != [] then TypeAt(w, c, p) else w[c].decl.bases[w[c].primary.value];
      BaseSlotsForSigs(w, c, p, b, held);
      table := TableFrom(w, c, p, bases[b].virtuals, p == [], fns, settled, held[b].table, Sigs(w, b));
      assert Modified(w, c, p) == CorrectSlots(w, c, p, Sigs(w, b));
      if p == [] {
        TableCallable(w, c, fns.dispatch);
      }
    } else {
      table := NoTable(p);
      NothingInherited(w, c);
    }
  }

  /** The BINFO_VIRTUALS lists of the subobjects of one class. */
  class VtableGroup {
    var lists: map<Path, Table>
    ghost var tables: map<Path, seq<Slot>>

    constructor ()
      ensures lists == map[] && tables == map[]
    {
      lists, tables := map[], map[];
    }

    /** What `dfs_modify_vtables` does at the subobject `p`: nothing for a primary
        base or a class without virtual functions; otherwise a fresh copy of the
        list the base came with, with every slot updated. */
    method ModifyOne(w: World, c: ClassId, p: Path, bases: seq<ClassTables>, fns: Functions,
                   ghost settled: map<Fn, Dispatch>, ghost held: seq<Contents>)
      requires Ordered(w) && UniqueAddresses(w, c) && ValidPath(w, c, p) && BasesRight(w, c, held)
      requires |bases| == c && forall b {:trigger bases[b]} :: 0 <= b < c ==> Holds(bases[b].virtuals, held[b].table)
      requires Underway(w, c, settled, fns.dispatch)
      modifies this, fns
      ensures Underway(w, c, settled, fns.dispatch)
      ensures p == [] && NeedsTable(w, c, p) ==> InheritedCallable(w, c, fns.dispatch)
      ensures if NeedsTable(w, c, p) then
          && p in lists && lists == old(lists)[p := lists[p]] && tables == old(tables)[p := Modified(w, c, p)]
          && HoldsFor(p, lists[p], Modified(w, c, p)) && fresh(lists[p]) && fresh(lists[p].nodes)
        else lists == old(lists) && tables == old(tables)
    {
      if NeedsTable(w, c, p) {
        var table := FreshList(w, c, p, bases, fns, settled, held);
        lists, tables := lists[p := table], tables[p := Modified(w, c, p)];
      }
    }

    /** `dfs_walk` over all subobjects below `p`, bases first.  No list that there was
        before is touched. */
    method DfsModifyVtables(w: World, c: ClassId, p: Path, bases: seq<ClassTables>, fns: Functions,
                   ghost settled: map<Fn, Dispatch>, ghost held: seq<Contents>)
      requires Ordered(w) && UniqueAddresses(w, c) && ValidPath(w, c, p) && BasesRight(w, c, held)
      requires |bases| == c && forall b {:trigger bases[b]} :: 0 <= b < c ==> Holds(bases[b].virtuals, held[b].table)
      requires lists.Keys == tables.Keys && forall q {:trigger lists[q]} :: q in lists ==> HoldsFor(q, lists[q], tables[q])
      requires Underway(w, c, settled, fns.dispatch)
      modifies this, fns
      ensures Underway(w, c, settled, fns.dispatch)
      ensures lists.Keys == tables.Keys && forall q {:trigger lists[q]} :: q in lists ==> HoldsFor(q, lists[q], tables[q])
      ensures Updated(w, c, old(tables), tables, PathsBelow(p))
      ensures NeedsTable(w, c, p) ==> p in lists && fresh(lists[p]) && fresh(lists[p].nodes)
      ensures p == [] && NeedsTable(w, c, p) ==> InheritedCallable(w, c, fns.dispatch)
      decreases TypeAt(w, c, p)
    {
      ghost var done := DfsModifyBases(w, c, p, bases, fns, settled, held);
      ghost var before := tables;
      ModifyOne(w, c, p, bases, fns, settled, held);
      UpdatedBelow(w, c, p, old(tables), before, tables);
    }

    /** The loop of the walk. */
    method DfsModifyBases(w: World, c: ClassId, p: Path, bases: seq<ClassTables>, fns: Functions,
                   ghost settled: map<Fn, Dispatch>, ghost held: seq<Contents>)
      returns (ghost done: iset<Path>)
      requires Ordered(w) && UniqueAddresses(w, c) && ValidPath(w, c, p) && BasesRight(w, c, held)
      requires |bases| == c && forall b {:trigger bases[b]} :: 0 <= b < c ==> Holds(bases[b].virtuals, held[b].table)
      requires lists.Keys == tables.Keys && forall q {:trigger lists[q]} :: q in lists ==> HoldsFor(q, lists[q], tables[q])
      requires Underway(w, c, settled, fns.dispatch)
      modifies this, fns
      ensures Underway(w, c, settled, fns.dispatch)
      ensures lists.Keys == tables.Keys && forall q {:trigger lists[q]} :: q in lists ==> HoldsFor(q, lists[q], tables[q])
      ensures done == PathsBefore(p, |w[TypeAt(w, c, p)].decl.bases|) && Updated(w, c, old(tables), tables, done)
      decreases TypeAt(w, c, p), 0
    {
      var b := TypeAt(w, c, p);
      done := PathsBefore(p, 0);
      for i := 0 to |w[b].decl.bases|
        invariant done == PathsBefore(p, i) && Underway(w, c, settled, fns.dispatch)
        invariant lists.Keys == tables.Keys && forall q {:trigger lists[q]} :: q in lists ==> HoldsFor(q, lists[q], tables[q])
        invariant Updated(w, c, old(tables), tables, done)
      {
        PathStep(w, c, p, i);
        ghost var before := tables;
        DfsModifyVtables(w, c, p + [i], bases, fns, settled, held);
        UpdatedTwice(w, c, old(tables), before, tables, done, PathsBelow(p + [i]));
        NextBefore(p, i);
        done := done + PathsBelow(p + [i]);
      }
    }
  }

  lemma {:induction false} UpdatedHere(w: World, c: ClassId, p: Path, t0: map<Path, seq<Slot>>, t1: map<Path, seq<Slot>>)
    requires Ordered(w) && ValidPath(w, c, p)
    requires t1 == if NeedsTable(w, c, p) then t0[p := Modified(w, c, p)] else t0
    ensures Updated(w, c, t0, t1, iset{p})
  {
  }

  lemma {:induction false} UpdatedBelow(w: World, c: ClassId, p: Path, t0: map<Path, seq<Slot>>, t1: map<Path, seq<Slot>>, t2: map<Path, seq<Slot>>)
    requires Ordered(w) && ValidPath(w, c, p) && Updated(w, c, t0, t1, PathsBefore(p, |w[TypeAt(w, c, p)].decl.bases|))
    requires t2 == if NeedsTable(w, c, p) then t1[p := Modified(w, c, p)] else t1
    ensures Updated(w, c, t0, t2, PathsBelow(p))
  {
    var done := PathsBefore(p, |w[TypeAt(w, c, p)].decl.bases|);
    UpdatedHere(w, c, p, t1, t2);
    UpdatedTwice(w, c, t0, t1, t2, done, iset{p});
    EveryPathIsBelow(w, c, p);
    UpdatedSame(w, c, t0, t2, done + iset{p}, PathsBelow(p));
  }

  lemma {:induction false} NextBefore(p: Path, i: nat)
    ensures PathsBefore(p, i + 1) == PathsBefore(p, i) + PathsBelow(p + [i])
  {
    forall q: Path
      ensures Below(p + [i], q) <==> p < q && q[|p|] == i
    {
      if p + [i] <= q {
        assert q[|p|] == (p + [i])[|p|];
        assert p <= p + [i];
      } else if p < q {
        assert q[..|p| + 1] == p + [q[|p|]];
      }
    }
  }

  predicate Below(p: Path, q: Path) {
    p <= q
  }

  ghost function PathsBelow(p: Path): iset<Path> {
    iset q: Path | Below(p, q)
  }

  /** The proper descendants of `p` under its first `i` bases. */
  ghost function PathsBefore(p: Path, i: nat): iset<Path> {
    iset q: Path | OnTheWay(p, q, i)
  }

  /** From `before` to `after`, exactly the subobjects in `done` that need a table
      got the right one. */
  ghost predicate Updated(w: World, c: ClassId, before: map<Path, seq<Slot>>, after: map<Path, seq<Slot>>, done: iset<Path>)
    requires Ordered(w)
  {
    forall q: Path {:trigger UpdatedAt(w, c, before, after, done, q)} :: UpdatedAt(w, c, before, after, done, q)
  }

  ghost predicate UpdatedAt(w: World, c: ClassId, before: map<Path, seq<Slot>>, after: map<Path, seq<Slot>>, done: iset<Path>, q: Path)
    requires Ordered(w)
  {
    && (q in after <==> q in before || Due(w, c, done, q))
    && (q in after ==> after[q] == if Due(w, c, done, q) then Modified(w, c, q) else before[q])
  }

  ghost predicate Due(w: World, c: ClassId, done: iset<Path>, q: Path)
    requires Ordered(w)
  {
    q in done && ValidPath(w, c, q) && NeedsTable(w, c, q)
  }

  lemma {:induction false} UpdatedTwice(w: World, c: ClassId, t0: map<Path, seq<Slot>>, t1: map<Path, seq<Slot>>,
                                        t2: map<Path, seq<Slot>>, d1: iset<Path>, d2: iset<Path>)
    requires Ordered(w) && Updated(w, c, t0, t1, d1) && Updated(w, c, t1, t2, d2)
    ensures Updated(w, c, t0, t2, d1 + d2)
  {
    forall q: Path
      ensures UpdatedAt(w, c, t0, t2, d1 + d2, q)
    {
      assert UpdatedAt(w, c, t0, t1, d1, q) && UpdatedAt(w, c, t1, t2, d2, q);
    }
  }

  /** Only the subobjects that exist matter. */
  lemma {:induction false} UpdatedSame(w: World, c: ClassId, t0: map<Path, seq<Slot>>, t1: map<Path, seq<Slot>>,
                                       d1: iset<Path>, d2: iset<Path>)
    requires Ordered(w) && Updated(w, c, t0, t1, d1)
    requires forall q: Path :: ValidPath(w, c, q) ==> (q in d1 <==> q in d2)
    ensures Updated(w, c, t0, t1, d2)
  {
    forall q: Path
      ensures UpdatedAt(w, c, t0, t1, d2, q)
    {
      assert UpdatedAt(w, c, t0, t1, d1, q) && Due(w, c, d1, q) == Due(w, c, d2, q);
    }
  }

  lemma {:induction false} EveryPathIsBelow(w: World, c: ClassId, p: Path)
    requires Ordered(w) && ValidPath(w, c, p)
    ensures forall q: Path :: ValidPath(w, c, q) ==>
      (Below(p, q) <==> q == p || OnTheWay(p, q, |w[TypeAt(w, c, p)].decl.bases|))
  {
    forall q: Path | p < q && ValidPath(w, c, q)
      ensures q[|p|] < |w[TypeAt(w, c, p)].decl.bases|
    {
      assert q == p + q[|p|..];
      PathSplit(w, c, p, q[|p|..]);
    }
  }

  lemma {:induction false} OneMoreDeclared(inherited: seq<Sig>, declared: seq<Sig>, k: nat)
    requires k < |declared| && forall i, j :: 0 <= i < j < |declared| ==> declared[i] != declared[j]
    ensures declared[k] !in NewSigs(inherited, declared[..k])
    ensures NewSigs(inherited, declared[..k + 1])
      == NewSigs(inherited, declared[..k]) + if declared[k] in inherited then [] else [declared[k]]
  {
    assert declared[..k + 1][..k] == declared[..k];
  }

  /** The second half of `modify_all_vtables`: the declared functions that are not
      in the primary table yet, with consecutive indices from `vsize` on; they are
      called through the class itself. */
  method AppendNewVirtuals(w: World, c: ClassId, table: Table, fns: Functions, vsize: nat)
    returns (added: seq<Sig>, vfuns: nat)
    requires Ordered(w) && c < |w| && Holds(table, CorrectSlots(w, c, [], Inherited(w, c)))
    requires forall i, j :: 0 <= i < j < |w[c].decl.virtuals| ==> w[c].decl.virtuals[i] != w[c].decl.virtuals[j]
    modifies fns
    ensures added == NewSigs(Inherited(w, c), w[c].decl.virtuals) && vfuns == vsize + |added|
    ensures Renewed(old(fns.dispatch), fns.dispatch, c, added, vsize)
  {
    added, vfuns := [], vsize;
    var declared := w[c].decl.virtuals;
    ghost var inherited := Inherited(w, c);
    NothingRenewed(fns.dispatch, c, vsize);
    for k := 0 to |declared|
      invariant Holds(table, CorrectSlots(w, c, [], Inherited(w, c)))
      invariant added == NewSigs(inherited, declared[..k])
      invariant vfuns == vsize + |added|
      invariant Renewed(old(fns.dispatch), fns.dispatch, c, added, vsize)
    {
      var s := declared[k];
      OneMoreDeclared(inherited, declared, k);
      var next := IndexIfNew(w, c, s, table, fns, vfuns, old(fns.dispatch), added, vsize);
      if next {
        added := added + [s];
        vfuns := vfuns + 1;
      }
    }
    assert declared[..|declared|] == declared;
  }

  /** One turn of the loop. */
  method IndexIfNew(w: World, c: ClassId, s: Sig, table: Table, fns: Functions, vfuns: nat,
                    ghost before: map<Fn, Dispatch>, ghost added: seq<Sig>, ghost vsize: nat)
    returns (next: bool)
    requires Ordered(w) && c < |w| && Holds(table, CorrectSlots(w, c, [], Inherited(w, c))) && Declares(w, c, s)
    requires Renewed(before, fns.dispatch, c, added, vsize) && vfuns == vsize + |added|
    modifies fns
    ensures Holds(table, CorrectSlots(w, c, [], Inherited(w, c))) && (next <==> s !in Inherited(w, c))
    ensures if next then Renewed(before, fns.dispatch, c, added + [s], vsize) else fns.dispatch == old(fns.dispatch)
  {
    var there := IsInherited(w, c, s, table);
    if !there {
      OneMoreRenewed(before, fns.dispatch, c, added, vsize, s);
      fns.SetVindex(Fn(c, s), vfuns);
    }
    next := !there;
  }

  /** The test of the loop: `value_member` on the updated primary table. */
  method IsInherited(w: World, c: ClassId, s: Sig, table: Table) returns (there: bool)
    requires Ordered(w) && c < |w| && Declares(w, c, s) && Holds(table, CorrectSlots(w, c, [], Inherited(w, c)))
    ensures there <==> s in Inherited(w, c)
  {
    there := table.ValueMember(Fn(c, s));
    InheritedOrNew(w, c, s);
    MemberOf(Slots(table.nodes), Inherited(w, c), w, c, Fn(c, s));
  }

  lemma {:induction false} MemberOf(slots: seq<Slot>, sigs: seq<Sig>, w: World, c: ClassId, fn: Fn)
    requires Ordered(w) && c < |w| && slots == CorrectSlots(w, c, [], sigs)
    ensures (exists i :: 0 <= i < |slots| && slots[i].fn == fn) <==> exists i :: 0 <= i < |sigs| && CorrectSlots(w, c, [], sigs)[i].fn == fn
  {
    if i :| 0 <= i < |sigs| && CorrectSlots(w, c, [], sigs)[i].fn == fn {
      assert slots[i].fn == fn;
    }
  }

  /** A declared function is already in the updated primary table exactly when the
      primary base has its signature. */
  lemma {:induction false} InheritedOrNew(w: World, c: ClassId, s: Sig)
    requires Ordered(w) && c < |w| && Declares(w, c, s)
    ensures s in Inherited(w, c) <==>
      exists i :: 0 <= i < |Inherited(w, c)| && CorrectSlots(w, c, [], Inherited(w, c))[i].fn == Fn(c, s)
  {
    var sigs := Inherited(w, c);
    if s in sigs {
      var i :| 0 <= i < |sigs| && sigs[i] == s;
      assert CorrectSlots(w, c, [], sigs)[i].fn == Fn(c, s);
    }
  }
}
