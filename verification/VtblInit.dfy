/** The initializer of a virtual function table: the entries at negative indices come
    out backwards, and each records the index where it will land (section 2.5 of the
    Itanium C++ ABI). */
module VtblInit {
  import opened Hierarchy

  /** A completed class: its primary base, the virtual bases in the order of its binfo
      chain, and the functions of its primary table. */
  datatype ClassRec = ClassRec(primary: Option<ClassId>, primaryIsVirtual: bool, vbases: seq<ClassId>, virtuals: seq<Fn>)

  /** A base subobject within the complete object; `id` tells the nodes apart. */
  datatype Binfo = Binfo(
    id: nat,
    cls: ClassId,
    isVirtual: bool,
    offset: int,
    primary: Option<nat>,
    bases: seq<Binfo>,
    virtuals: seq<Fn>)

  datatype Entry =
    | TypeInfo
    | OffsetToTop(offset: int)
    | VbaseOffset(vbase: ClassId, offset: int)
    | VcallOffset(fn: Fn, offset: int)
    | Function(fn: Fn)

  /** The complete object: where its (virtual) bases are, and which signatures are
      destructors. */
  datatype Complete = Complete(classes: seq<ClassRec>, offsetOf: ClassId -> int, isDestructor: Sig -> bool)

  /** Primary bases are earlier classes. */
  predicate Chained(classes: seq<ClassRec>) {
    forall c :: 0 <= c < |classes| && classes[c].primary.Some? ==> classes[c].primary.value < c
  }

  function PrimaryBinfo(b: Binfo): Option<Binfo> {
    if b.primary.Some? && b.primary.value < |b.bases| then Some(b.bases[b.primary.value]) else None
  }

  /** Two functions share a vcall offset. */
  predicate SharesVcall(isDestructor: Sig -> bool, f: Fn, g: Fn) {
    f.sig == g.sig || (isDestructor(f.sig) && isDestructor(g.sig))
  }

  /** A slot of the table list of a node: BV_VCALL_INDEX is recorded there. */
  datatype SlotRef = SlotRef(node: nat, i: nat, fn: Fn)

  /** Counting from the address point: entry number `k` that comes out is at -(k + 1). */
  predicate LandsAt(inits: seq<Entry>, index: int, e: Entry) {
    -|inits| <= index < 0 && inits[-index - 1] == e
  }

  /** Recorded indices of virtual bases point at their offsets from the subobject at
      `from`... */
  ghost predicate VbasesLand(whole: Complete, from: int, inits: seq<Entry>, fields: map<ClassId, int>) {
    forall v {:trigger VbaseLands(whole, from, inits, v, fields[v])} ::
      v in fields ==> VbaseLands(whole, from, inits, v, fields[v])
  }

  /** ... and those of functions at the adjustment for a function of that signature, all
      destructors having one. */
  ghost predicate VcallsLand(whole: Complete, from: int, inits: seq<Entry>, indices: map<SlotRef, int>) {
    forall s {:trigger VcallLands(whole, from, inits, s.fn, indices[s])} ::
      s in indices ==> VcallLands(whole, from, inits, s.fn, indices[s])
  }

  predicate VbaseLands(whole: Complete, from: int, inits: seq<Entry>, v: ClassId, index: int) {
    LandsAt(inits, index, VbaseOffset(v, whole.offsetOf(v) - from))
  }

  predicate VcallLands(whole: Complete, from: int, inits: seq<Entry>, fn: Fn, index: int) {
    && -|inits| <= index < 0
    && var e := inits[-index - 1];
    e.VcallOffset? && (e.fn.sig == fn.sig || (whole.isDestructor(e.fn.sig) && whole.isDestructor(fn.sig)))
    && e.offset == whole.offsetOf(e.fn.cls) - from
  }

  lemma {:induction false} LandLater(whole: Complete, from: int, inits: seq<Entry>, e: Entry, fields: map<ClassId, int>, indices: map<SlotRef, int>)
    requires VbasesLand(whole, from, inits, fields) && VcallsLand(whole, from, inits, indices)
    ensures VbasesLand(whole, from, inits + [e], fields) && VcallsLand(whole, from, inits + [e], indices)
  {
    assert forall i :: 0 <= i < |inits| ==> (inits + [e])[i] == inits[i];
    forall v | v in fields
      ensures VbaseLands(whole, from, inits + [e], v, fields[v])
    {
      assert VbaseLands(whole, from, inits, v, fields[v]);
    }
    forall s | s in indices
      ensures VcallLands(whole, from, inits + [e], s.fn, indices[s])
    {
      assert VcallLands(whole, from, inits, s.fn, indices[s]);
    }
  }

  /** The functions that got an entry, no two of which could have shared one. */
  ghost predicate Distinct(isDestructor: Sig -> bool, fns: seq<SlotRef>) {
    forall i, j :: 0 <= i < j < |fns| ==> !SharesVcall(isDestructor, fns[i].fn, fns[j].fn)
  }

  /** The slots that have an index are as many as have the entry of such a function. */
  ghost predicate Owned(whole: Complete, inits: seq<Entry>, fns: seq<SlotRef>, indices: map<SlotRef, int>) {
    && (forall f :: f in fns ==> f in indices)
    && forall s {:trigger HasOwner(whole, inits, fns, indices, s)} :: s in indices ==> HasOwner(whole, inits, fns, indices, s)
  }

  ghost predicate HasOwner(whole: Complete, inits: seq<Entry>, fns: seq<SlotRef>, indices: map<SlotRef, int>, s: SlotRef)
    requires s in indices
  {
    exists f {:trigger IsOwner(whole, inits, fns, indices, s, f)} :: IsOwner(whole, inits, fns, indices, s, f)
  }

  /** `s` has the entry that is for `f`. */
  predicate IsOwner(whole: Complete, inits: seq<Entry>, fns: seq<SlotRef>, indices: map<SlotRef, int>, s: SlotRef, f: SlotRef)
    requires s in indices
  {
    && f in fns && f in indices && indices[f] == indices[s] && SharesVcall(whole.isDestructor, f.fn, s.fn)
    && -|inits| <= indices[s] < 0 && inits[-indices[s] - 1].VcallOffset? && inits[-indices[s] - 1].fn == f.fn
  }

  lemma {:induction false} OwnedLater(whole: Complete, inits: seq<Entry>, e: Entry, fns: seq<SlotRef>, indices: map<SlotRef, int>)
    requires Owned(whole, inits, fns, indices)
    ensures Owned(whole, inits + [e], fns, indices)
  {
    forall s | s in indices
      ensures HasOwner(whole, inits + [e], fns, indices, s)
    {
      assert HasOwner(whole, inits, fns, indices, s);
      var f :| IsOwner(whole, inits, fns, indices, s, f);
      assert IsOwner(whole, inits + [e], fns, indices, s, f);
    }
  }

  lemma {:induction false} TheOwner(isDestructor: Sig -> bool, fns: seq<SlotRef>, f: SlotRef, g: SlotRef)
    requires Distinct(isDestructor, fns) && f in fns && g in fns && SharesVcall(isDestructor, f.fn, g.fn)
    ensures f == g
  {
    var i :| 0 <= i < |fns| && fns[i] == f;
    var j :| 0 <= j < |fns| && fns[j] == g;
    assert i < j ==> !SharesVcall(isDestructor, fns[i].fn, fns[j].fn);
    assert j < i ==> !SharesVcall(isDestructor, fns[j].fn, fns[i].fn);
  }

  /** One slot more, for a function that there is an entry for. */
  lemma {:induction false} OwnedShared(whole: Complete, inits: seq<Entry>, fns: seq<SlotRef>, indices: map<SlotRef, int>, slot: SlotRef, old': SlotRef)
    requires Owned(whole, inits, fns, indices) && Distinct(whole.isDestructor, fns) && old' in fns
    requires SharesVcall(whole.isDestructor, old'.fn, slot.fn)
    ensures Owned(whole, inits, fns, indices[slot := indices[old']])
  {
    var indices' := indices[slot := indices[old']];
    assert HasOwner(whole, inits, fns, indices, old');
    var g :| IsOwner(whole, inits, fns, indices, old', g);
    TheOwner(whole.isDestructor, fns, g, old');
    if slot in fns {
      TheOwner(whole.isDestructor, fns, old', slot);
    }
    assert IsOwner(whole, inits, fns, indices', slot, old');
    forall s | s in indices'
      ensures HasOwner(whole, inits, fns, indices', s)
    {
      if s != slot {
        assert HasOwner(whole, inits, fns, indices, s);
        var f :| IsOwner(whole, inits, fns, indices, s, f);
        assert IsOwner(whole, inits, fns, indices', s, f);
      }
    }
  }

  /** One slot more, with an entry of its own. */
  lemma {:induction false} OwnedNext(whole: Complete, inits: seq<Entry>, e: Entry, fns: seq<SlotRef>, indices: map<SlotRef, int>, slot: SlotRef)
    requires Owned(whole, inits, fns, indices) && slot !in fns && e.VcallOffset? && e.fn == slot.fn
    ensures Owned(whole, inits + [e], fns + [slot], indices[slot := -(|inits| + 1)])
  {
    var (inits', fns', indices') := (inits + [e], fns + [slot], indices[slot := -(|inits| + 1)]);
    assert fns'[|fns|] == slot && inits'[|inits|] == e;
    assert IsOwner(whole, inits', fns', indices', slot, slot);
    forall s | s in indices'
      ensures HasOwner(whole, inits', fns', indices', s)
    {
      if s != slot {
        assert HasOwner(whole, inits, fns, indices, s);
        var f :| IsOwner(whole, inits, fns, indices, s, f);
        assert IsOwner(whole, inits', fns', indices', s, f);
      }
    }
  }

  lemma {:induction false} StillDistinct(isDestructor: Sig -> bool, fns: seq<SlotRef>, slot: SlotRef)
    requires Distinct(isDestructor, fns) && forall s :: s in fns ==> !SharesVcall(isDestructor, s.fn, slot.fn)
    ensures Distinct(isDestructor, fns + [slot]) && slot !in fns
  {
  }

  /** Two slots have one index exactly if their functions have one signature, or both are
      destructors. */
  lemma {:induction false} IndicesShared(whole: Complete, inits: seq<Entry>, fns: seq<SlotRef>, indices: map<SlotRef, int>, s: SlotRef, t: SlotRef)
    requires Owned(whole, inits, fns, indices) && Distinct(whole.isDestructor, fns) && s in indices && t in indices
    ensures indices[s] == indices[t] <==> s.fn.sig == t.fn.sig || (whole.isDestructor(s.fn.sig) && whole.isDestructor(t.fn.sig))
  {
    assert HasOwner(whole, inits, fns, indices, s) && HasOwner(whole, inits, fns, indices, t);
    var f :| IsOwner(whole, inits, fns, indices, s, f);
    var g :| IsOwner(whole, inits, fns, indices, t, g);
    if SharesVcall(whole.isDestructor, f.fn, g.fn) {
      TheOwner(whole.isDestructor, fns, f, g);
    }
  }

  /** In each slot that has an index, a function of one signature is overridden once. */
  ghost predicate OneOverrider(isDestructor: Sig -> bool, slots: set<SlotRef>) {
    forall s, t :: s in slots && t in slots && (s.fn.sig == t.fn.sig || (isDestructor(s.fn.sig) && isDestructor(t.fn.sig)))
      ==> s.fn.cls == t.fn.cls
  }

  /** Then the entry of every slot has the adjustment for the very function of the slot. */
  lemma {:induction false} OwnAdjustment(whole: Complete, from: int, inits: seq<Entry>, fns: seq<SlotRef>, indices: map<SlotRef, int>, s: SlotRef)
    requires VcallsLand(whole, from, inits, indices) && Owned(whole, inits, fns, indices)
    requires OneOverrider(whole.isDestructor, indices.Keys) && s in indices
    ensures -|inits| <= indices[s] < 0
    ensures var e := inits[-indices[s] - 1]; e.VcallOffset? && e.offset == whole.offsetOf(s.fn.cls) - from
  {
    assert VcallLands(whole, from, inits, s.fn, indices[s]);
    assert HasOwner(whole, inits, fns, indices, s);
    var f :| IsOwner(whole, inits, fns, indices, s, f);
    assert f in indices.Keys && s in indices.Keys;
  }

  /** `vs` after `seen`, leaving out what is there already. */
  function AppendNew(seen: seq<ClassId>, vs: seq<ClassId>): seq<ClassId> {
    if vs == [] then seen
    else
      var (before, v) := (AppendNew(seen, vs[..|vs| - 1]), vs[|vs| - 1]);
      if v in before then before else before + [v]
  }

  /** The virtual bases of a class in the order of their entries: those of its primary
      base first. */
  function VbaseOrder(classes: seq<ClassRec>, c: ClassId): seq<ClassId>
    requires Chained(classes) && c < |classes|
  {
    var primary := classes[c].primary;
    AppendNew(if primary.Some? then VbaseOrder(classes, primary.value) else [], classes[c].vbases)
  }

  function Position(s: seq<ClassId>, v: ClassId): nat {
    if s == [] then 0 else if s[0] == v then 0 else 1 + Position(s[1..], v)
  }

  /** Where class `c` records the entry of `v` to be, counted from the address point. */
  function RecordedIndex(classes: seq<ClassRec>, c: ClassId, v: ClassId): int
    requires Chained(classes) && c < |classes|
  {
    -(3 + Position(VbaseOrder(classes, c), v))
  }

  predicate RecordedRight(classes: seq<ClassRec>, recorded: seq<map<ClassId, int>>, c: ClassId)
    requires Chained(classes) && c < |classes|
  {
    && c < |recorded|
    && forall v :: v in VbaseOrder(classes, c) ==> v in recorded[c] && recorded[c][v] == RecordedIndex(classes, c, v)
  }

  /** The tables that `add_vcall_offset_vtbl_entries_1` walks in step are long enough. */
  predicate TablesFit(classes: seq<ClassRec>, b: Binfo, top: Binfo) {
    && b.cls < |classes| && |b.virtuals| <= |top.virtuals| && |b.virtuals| <= |classes[b.cls].virtuals|
    && forall i :: 0 <= i < |b.bases| ==>
         TablesFit(classes, b.bases[i], if b.primary == Some(i) then top else b.bases[i])
  }

  lemma {:induction false} AppendOne(order: seq<ClassId>, v: ClassId)
    ensures AppendNew(order, [v]) == if v in order then order else order + [v]
  {
    assert [v][..0] == [];
  }

  /** What is found in a sequence is found there in any longer one. */
  lemma {:induction false} PositionInPrefix(s: seq<ClassId>, t: seq<ClassId>, v: ClassId)
    requires s <= t
    ensures if v in s then Position(t, v) == Position(s, v) < |s| else Position(s, v) == |s| <= Position(t, v)
  {
    if s != [] && s[0] != v {
      PositionInPrefix(s[1..], t[1..], v);
    }
  }

  lemma {:induction false} AppendNewExtends(seen: seq<ClassId>, vs: seq<ClassId>, i: nat)
    requires i <= |vs|
    ensures seen <= AppendNew(seen, vs[..i]) <= AppendNew(seen, vs)
    decreases |vs|
  {
    if i == |vs| {
      assert vs[..i] == vs;
      if vs != [] {
        AppendNewExtends(seen, vs[..|vs| - 1], |vs| - 1);
        assert vs[..|vs| - 1][..|vs| - 1] == vs[..|vs| - 1];
      }
    } else {
      AppendNewExtends(seen, vs[..|vs| - 1], i);
      assert vs[..|vs| - 1][..i] == vs[..i];
    }
  }

  lemma {:induction false} AppendNewNext(seen: seq<ClassId>, vs: seq<ClassId>, i: nat)
    requires i < |vs|
    ensures AppendNew(seen, vs[..i + 1]) == AppendNew(AppendNew(seen, vs[..i]), [vs[i]])
  {
    assert vs[..i + 1][..i] == vs[..i];
    AppendOne(AppendNew(seen, vs[..i]), vs[i]);
  }

  /** The entries of `order`, as they are recorded. */
  ghost predicate FieldsFor(order: seq<ClassId>, fields: map<ClassId, int>) {
    forall v :: v in order ==> v in fields && fields[v] == -(3 + Position(order, v))
  }

  lemma {:induction false} FieldsForNext(order: seq<ClassId>, fields: map<ClassId, int>, v: ClassId)
    requires FieldsFor(order, fields) && v !in order
    ensures FieldsFor(order + [v], fields[v := -(3 + |order|)])
  {
    forall u | u in order + [v]
      ensures Position(order + [v], u) == if u == v then |order| else Position(order, u)
    {
      PositionInPrefix(order, order + [v], u);
      if u == v {
        PositionInPrefix(order, order + [v], v);
        LastPosition(order, v);
      }
    }
  }

  lemma {:induction false} LastPosition(order: seq<ClassId>, v: ClassId)
    requires v !in order
    ensures Position(order + [v], v) == |order|
  {
    if order != [] {
      assert (order + [v])[1..] == order[1..] + [v];
      LastPosition(order[1..], v);
    }
  }

  /** The entries that came out begin with those of the virtual bases in `order`. */
  ghost predicate StartsWith(whole: Complete, from: int, order: seq<ClassId>, inits: seq<Entry>) {
    |inits| >= 2 + |order| && VbaseEntries(whole, from, order, inits[..2 + |order|])
  }

  /** After the RTTI entries, the entries of the virtual bases in `order`. */
  ghost predicate VbaseEntries(whole: Complete, offset: int, order: seq<ClassId>, inits: seq<Entry>) {
    && |inits| == 2 + |order|
    && forall i :: 0 <= i < |order| ==> inits[2 + i] == VbaseOffset(order[i], whole.offsetOf(order[i]) - offset)
  }

  /** BINFO_VPTR_FIELD is set for the primary table only. */
  function FieldsAfter(primary: bool, fields: map<ClassId, int>, v: ClassId, index: int): map<ClassId, int> {
    if primary then fields[v := index] else fields
  }

  /** So far there are only entries for the virtual bases in `order`. */
  ghost predicate PlainState(whole: Complete, from: int, primary: bool, order: seq<ClassId>,
                             inits: seq<Entry>, marked: set<ClassId>, fields: map<ClassId, int>) {
    && VbaseEntries(whole, from, order, inits) && (forall v :: v in marked <==> v in order)
    && (primary ==> FieldsFor(order, fields))
  }

  lemma {:induction false} VbaseLandsNext(whole: Complete, from: int, primary: bool, inits: seq<Entry>,
                                          fields: map<ClassId, int>, indices: map<SlotRef, int>, v: ClassId)
    requires VbasesLand(whole, from, inits, fields) && VcallsLand(whole, from, inits, indices)
    ensures var inits' := inits + [VbaseOffset(v, whole.offsetOf(v) - from)];
      VcallsLand(whole, from, inits', indices)
      && VbasesLand(whole, from, inits', FieldsAfter(primary, fields, v, -(|inits| + 1)))
  {
    var e := VbaseOffset(v, whole.offsetOf(v) - from);
    LandLater(whole, from, inits, e, fields, indices);
    assert (inits + [e])[|inits|] == e;
    var fields' := fields[v := -(|inits| + 1)];
    forall u | u in fields'
      ensures VbaseLands(whole, from, inits + [e], u, fields'[u])
    {
      if u != v {
        assert u in fields && VbaseLands(whole, from, inits + [e], u, fields[u]);
      }
    }
  }

  /** The state before and after one virtual base. */
  predicate Turn(whole: Complete, from: int, primary: bool, v: ClassId,
                 inits: seq<Entry>, marked: set<ClassId>, fields: map<ClassId, int>,
                 inits': seq<Entry>, marked': set<ClassId>, fields': map<ClassId, int>)
  {
    if v in marked then inits' == inits && marked' == marked && fields' == fields
    else
      && inits' == inits + [VbaseOffset(v, whole.offsetOf(v) - from)] && marked' == marked + {v}
      && fields' == FieldsAfter(primary, fields, v, -(|inits| + 1))
  }

  lemma {:induction false} PlainTurn(whole: Complete, from: int, primary: bool, order: seq<ClassId>, v: ClassId,
                                     inits: seq<Entry>, marked: set<ClassId>, fields: map<ClassId, int>,
                                     inits': seq<Entry>, marked': set<ClassId>, fields': map<ClassId, int>)
    requires PlainState(whole, from, primary, order, inits, marked, fields)
    requires Turn(whole, from, primary, v, inits, marked, fields, inits', marked', fields')
    ensures PlainState(whole, from, primary, AppendNew(order, [v]), inits', marked', fields')
  {
    if v in marked {
      AppendOne(order, v);
    } else {
      PlainNext(whole, from, primary, order, inits, marked, fields, v);
    }
  }

  lemma {:induction false} PlainNext(whole: Complete, from: int, primary: bool, order: seq<ClassId>,
                                     inits: seq<Entry>, marked: set<ClassId>, fields: map<ClassId, int>, v: ClassId)
    requires PlainState(whole, from, primary, order, inits, marked, fields) && v !in marked
    ensures PlainState(whole, from, primary, AppendNew(order, [v]), inits + [VbaseOffset(v, whole.offsetOf(v) - from)],
                       marked + {v}, FieldsAfter(primary, fields, v, -(|inits| + 1)))
  {
    AppendOne(order, v);
    if primary {
      FieldsForNext(order, fields, v);
    }
  }

  /** The primary bases below `b` are those of the classes, and none is virtual. */
  predicate PlainBelow(classes: seq<ClassRec>, b: Binfo) {
    && Chained(classes) && b.cls < |classes|
    && match PrimaryBinfo(b)
       case None => classes[b.cls].primary.None?
       case Some(p) =>
         && !p.isVirtual && !classes[b.cls].primaryIsVirtual
         && classes[b.cls].primary == Some(p.cls) && PlainBelow(classes, p)
  }

  /** Enough is known of every class on the way down the primary bases. */
  predicate Fits(classes: seq<ClassRec>, top: Binfo, b: Binfo) {
    && b.cls < |classes| && (b.isVirtual ==> TablesFit(classes, b, top))
    && (PrimaryBinfo(b).Some? ==> Fits(classes, top, PrimaryBinfo(b).value))
  }

  /** The slots of `b` that need a vcall offset: those of the functions that its class
      introduces. */
  function OwnSlots(classes: seq<ClassRec>, b: Binfo, top: Binfo, n: nat): set<SlotRef>
    requires TablesFit(classes, b, top) && n <= |b.virtuals|
  {
    if n == 0 then {}
    else
      OwnSlots(classes, b, top, n - 1)
      + if classes[b.cls].virtuals[n - 1].cls == b.cls then {SlotRef(top.id, n - 1, top.virtuals[n - 1])} else {}
  }

  function TopOf(b: Binfo, i: nat, top: Binfo): Binfo
    requires i < |b.bases|
  {
    if b.primary == Some(i) then top else b.bases[i]
  }

  /** Those of `b` and of its non-virtual bases. */
  function VcallSlots(classes: seq<ClassRec>, b: Binfo, top: Binfo): set<SlotRef>
    requires TablesFit(classes, b, top)
    decreases b, |b.bases| + 1
  {
    OwnSlots(classes, b, top, |b.virtuals|) + BaseSlots(classes, b, top, |b.bases|)
  }

  function BaseSlots(classes: seq<ClassRec>, b: Binfo, top: Binfo, n: nat): set<SlotRef>
    requires TablesFit(classes, b, top) && n <= |b.bases|
    decreases b, n
  {
    set k: nat, s | k < n && !b.bases[k].isVirtual && s in VcallSlots(classes, b.bases[k], TopOf(b, k, top)) :: s
  }

  /** Slot `s` is number `i` of the class that `p` leads to through non-virtual bases, and
      of a function that this class introduces; a primary base has its slots in the list of
      the class it is primary in. */
  predicate Introduced(classes: seq<ClassRec>, b: Binfo, top: Binfo, p: Path, i: nat, s: SlotRef)
    decreases |p|
  {
    if p == [] then
      && i < |b.virtuals| && i < |top.virtuals| && b.cls < |classes| && i < |classes[b.cls].virtuals|
      && classes[b.cls].virtuals[i].cls == b.cls && s == SlotRef(top.id, i, top.virtuals[i])
    else
      && p[0] < |b.bases| && !b.bases[p[0]].isVirtual
      && Introduced(classes, b.bases[p[0]], if b.primary == Some(p[0]) then top else b.bases[p[0]], p[1..], i, s)
  }

  lemma {:induction false} OwnSlotIntroduced(classes: seq<ClassRec>, b: Binfo, top: Binfo, n: nat, s: SlotRef) returns (i: nat)
    requires TablesFit(classes, b, top) && n <= |b.virtuals| && s in OwnSlots(classes, b, top, n)
    ensures i < n && Introduced(classes, b, top, [], i, s)
  {
    i := n - 1;
    if s in OwnSlots(classes, b, top, n - 1) {
      i := OwnSlotIntroduced(classes, b, top, n - 1, s);
    }
  }

  lemma {:induction false} IntroducedOwnSlot(classes: seq<ClassRec>, b: Binfo, top: Binfo, n: nat, i: nat, s: SlotRef)
    requires TablesFit(classes, b, top) && i < n <= |b.virtuals| && Introduced(classes, b, top, [], i, s)
    ensures s in OwnSlots(classes, b, top, n)
  {
    if i < n - 1 {
      IntroducedOwnSlot(classes, b, top, n - 1, i, s);
    }
  }

  /** The slots that need a vcall offset are of functions that a class introduces... */
  lemma {:induction false} SlotIsIntroduced(classes: seq<ClassRec>, b: Binfo, top: Binfo, s: SlotRef) returns (p: Path, i: nat)
    requires TablesFit(classes, b, top) && s in VcallSlots(classes, b, top)
    ensures Introduced(classes, b, top, p, i, s)
    decreases b
  {
    if s in OwnSlots(classes, b, top, |b.virtuals|) {
      p := [];
      i := OwnSlotIntroduced(classes, b, top, |b.virtuals|, s);
    } else {
      var k: nat :| k < |b.bases| && !b.bases[k].isVirtual && s in VcallSlots(classes, b.bases[k], TopOf(b, k, top));
      p, i := SlotIsIntroduced(classes, b.bases[k], TopOf(b, k, top), s);
      p := IntroducedBelow(classes, b, top, k, p, i, s);
    }
  }

  /** ... as far as non-virtual bases lead, and of all of them. */
  lemma {:induction false} IntroducedIsSlot(classes: seq<ClassRec>, b: Binfo, top: Binfo, p: Path, i: nat, s: SlotRef)
    requires TablesFit(classes, b, top) && Introduced(classes, b, top, p, i, s)
    ensures s in VcallSlots(classes, b, top)
    decreases |p|
  {
    if p == [] {
      IntroducedOwnSlot(classes, b, top, |b.virtuals|, i, s);
    } else {
      IntroducedIsSlot(classes, b.bases[p[0]], TopOf(b, p[0], top), p[1..], i, s);
    }
  }

  lemma {:induction false} BaseSlotsNext(classes: seq<ClassRec>, b: Binfo, top: Binfo, n: nat)
    requires TablesFit(classes, b, top) && n < |b.bases|
    ensures BaseSlots(classes, b, top, n + 1)
      == BaseSlots(classes, b, top, n) + if b.bases[n].isVirtual then {} else VcallSlots(classes, b.bases[n], TopOf(b, n, top))
  {
    forall s
      ensures s in BaseSlots(classes, b, top, n + 1)
        <==> s in BaseSlots(classes, b, top, n) || (!b.bases[n].isVirtual && s in VcallSlots(classes, b.bases[n], TopOf(b, n, top)))
    {
    }
  }

  lemma {:induction false} AmongBases(classes: seq<ClassRec>, b: Binfo, top: Binfo, k: nat)
    requires TablesFit(classes, b, top) && k < |b.bases| && !b.bases[k].isVirtual
    ensures VcallSlots(classes, b.bases[k], TopOf(b, k, top)) <= BaseSlots(classes, b, top, |b.bases|)
  {
  }

  lemma {:induction false} IntroducedBelow(classes: seq<ClassRec>, b: Binfo, top: Binfo, k: nat, q: Path, i: nat, s: SlotRef) returns (p: Path)
    requires k < |b.bases| && !b.bases[k].isVirtual && Introduced(classes, b.bases[k], TopOf(b, k, top), q, i, s)
    ensures Introduced(classes, b, top, p, i, s)
  {
    p := [k] + q;
    assert p[1..] == q;
  }

  /** `vtbl_init_data` */
  class VtblInitData {
    const whole: Complete
    const binfo: Binfo
    const primaryVtbl: bool
    /** BINFO_VPTR_FIELD of the virtual bases, class by class, in entries. */
    const recorded: seq<map<ClassId, int>>
    /** From the most primary base to the whole object. */
    const toTop: int

    var inits: seq<Entry>
    var index: int
    var fns: seq<SlotRef>
    var marked: set<ClassId>
    var vptrField: map<ClassId, int>
    var vcallIndex: map<SlotRef, int>

    ghost predicate Valid()
      reads this
    {
      && index == -(|inits| + 1) && |inits| >= 2 && inits[0] == TypeInfo && inits[1] == OffsetToTop(toTop)
      && VbasesLand(whole, binfo.offset, inits, vptrField) && VcallsLand(whole, binfo.offset, inits, vcallIndex)
      && Owned(whole, inits, fns, vcallIndex) && Distinct(whole.isDestructor, fns)
    }

    constructor (whole: Complete, binfo: Binfo, primaryVtbl: bool, recorded: seq<map<ClassId, int>>, toTop: int)
      ensures this.whole == whole && this.binfo == binfo && this.primaryVtbl == primaryVtbl
      ensures this.recorded == recorded && Valid() && Plain([])
      ensures vcallIndex == map[] && this.toTop == toTop
    {
      this.whole, this.binfo, this.primaryVtbl, this.recorded := whole, binfo, primaryVtbl, recorded;
      this.toTop := toTop;
      index := -3;
      inits := [TypeInfo, OffsetToTop(toTop)];
      fns, marked, vptrField, vcallIndex := [], {}, map[], map[];
    }

    ghost predicate Plain(order: seq<ClassId>)
      reads this
    {
      PlainState(whole, binfo.offset, primaryVtbl, order, inits, marked, vptrField)
    }

    /** The consistency check: the entry is where the base's own class recorded it. */
    predicate Expected(b: Binfo, v: ClassId, index: int) {
      || (primaryVtbl && b == binfo)
      || (b.cls < |recorded| && v in recorded[b.cls] && recorded[b.cls][v] == index)
    }

    /** Emits the offset of `v`, at the next index. */
    method Next(v: ClassId)
      modifies this`inits, this`index, this`marked, this`vptrField
      ensures inits == old(inits) + [VbaseOffset(v, whole.offsetOf(v) - binfo.offset)] && index == old(index) - 1
      ensures marked == old(marked) + {v}
      ensures vptrField == FieldsAfter(primaryVtbl, old(vptrField), v, old(index))
    {
      marked := marked + {v};
      if primaryVtbl {
        vptrField := vptrField[v := index];
      }
      inits, index := inits + [VbaseOffset(v, whole.offsetOf(v) - binfo.offset)], index - 1;
    }

    /** One turn of the loop of `build_vbase_offset_vtbl_entries`; not `ok` is an abort. */
    method AddVbase(b: Binfo, v: ClassId) returns (ok: bool)
      requires Valid()
      modifies this`inits, this`index, this`marked, this`vptrField
      ensures Valid()
      ensures ok <==> v in old(marked) || (primaryVtbl && b == binfo)
                      || (b.cls < |recorded| && v in recorded[b.cls] && recorded[b.cls][v] == old(index))
      ensures ok ==> Turn(whole, binfo.offset, primaryVtbl, v, old(inits), old(marked), old(vptrField), inits, marked, vptrField)
    {
      ok := v in marked || Expected(b, v, index);
      if ok && v !in marked {
        VbaseLandsNext(whole, binfo.offset, primaryVtbl, inits, vptrField, vcallIndex, v);
        OwnedLater(whole, inits, VbaseOffset(v, whole.offsetOf(v) - binfo.offset), fns, vcallIndex);
        Next(v);
      }
    }

    /** Every entry of `b` after `order` is where the class of `b` has recorded it. */
    ghost predicate AllExpected(b: Binfo, order: seq<ClassId>)
      requires b.cls < |whole.classes|
    {
      var order' := AppendNew(order, whole.classes[b.cls].vbases);
      forall v :: v in order' && v !in order ==> Expected(b, v, -(3 + Position(order', v)))
    }

    lemma {:induction false} NextExpected(b: Binfo, order: seq<ClassId>, i: nat)
      requires b.cls < |whole.classes| && i < |whole.classes[b.cls].vbases|
      ensures var vs := whole.classes[b.cls].vbases;
        var done := AppendNew(order, vs[..i]);
        && AppendNew(order, vs[..i + 1]) == AppendNew(done, [vs[i]])
        && (AllExpected(b, order) && vs[i] !in done ==> Expected(b, vs[i], -(3 + |done|)))
    {
      var vs := whole.classes[b.cls].vbases;
      var done := AppendNew(order, vs[..i]);
      AppendNewNext(order, vs, i);
      AppendNewExtends(order, vs, i);
      AppendNewExtends(order, vs, i + 1);
      AppendOne(done, vs[i]);
      if vs[i] !in done {
        LastPosition(done, vs[i]);
        PositionInPrefix(done + [vs[i]], AppendNew(order, vs), vs[i]);
        assert order <= done;
        assert vs[i] !in order;
        assert (done + [vs[i]])[|done|] == vs[i];
      }
    }

    /** `build_vbase_offset_vtbl_entries` */
    method BuildVbaseOffsets(b: Binfo, ghost order: seq<ClassId>) returns (ok: bool)
      requires Valid() && b.cls < |whole.classes|
      modifies this`inits, this`index, this`marked, this`vptrField
      ensures Valid()
      ensures old(Plain(order)) && ok ==> Plain(AppendNew(order, whole.classes[b.cls].vbases))
      ensures old(Plain(order)) && AllExpected(b, order) ==> ok
    {
      var vs := whole.classes[b.cls].vbases;
      var i := 0;
      assert vs[..0] == [];
      while i < |vs|
        invariant 0 <= i <= |vs| && Valid()
        invariant old(Plain(order)) ==> Plain(AppendNew(order, vs[..i]))
      {
        ok := NextVbaseOffset(b, order, i);
        if !ok {
          return;
        }
        i := i + 1;
      }
      assert vs[..i] == vs;
      ok := true;
    }

    /** One turn of the loop over the virtual bases. */
    method NextVbaseOffset(b: Binfo, ghost order: seq<ClassId>, i: nat) returns (ok: bool)
      requires Valid() && b.cls < |whole.classes| && i < |whole.classes[b.cls].vbases|
      modifies this`inits, this`index, this`marked, this`vptrField
      ensures Valid()
      ensures var vs := whole.classes[b.cls].vbases;
        old(Plain(AppendNew(order, vs[..i]))) ==>
          (ok ==> Plain(AppendNew(order, vs[..i + 1]))) && (AllExpected(b, order) ==> ok)
    {
      var v := whole.classes[b.cls].vbases[i];
      ghost var done := AppendNew(order, whole.classes[b.cls].vbases[..i]);
      NextExpected(b, order, i);
      ghost var (inits0, marked0, fields0) := (inits, marked, vptrField);
      ok := AddVbase(b, v);
      if ok && old(Plain(done)) {
        PlainTurn(whole, binfo.offset, primaryVtbl, done, v, inits0, marked0, fields0, inits, marked, vptrField);
      }
    }

    /** `build_vcall_and_vbase_vtbl_entries`: first the entries of the primary base. */
    method BuildNegative(b: Binfo) returns (ok: bool)
      requires Valid() && Fits(whole.classes, binfo, b)
      modifies this`inits, this`index, this`fns, this`marked, this`vptrField, this`vcallIndex
      ensures Valid()
      ensures old(Plain([])) && PlainBelow(whole.classes, b) && ok && !b.isVirtual ==>
        Plain(VbaseOrder(whole.classes, b.cls))
      ensures old(Plain([])) && PlainBelow(whole.classes, b) && ok ==> Starts(VbaseOrder(whole.classes, b.cls))
      ensures old(Plain([])) && PlainBelow(whole.classes, b) && ChainRecorded(b) ==> ok
      ensures b.isVirtual && ok ==> VcallSlots(whole.classes, b, binfo) <= vcallIndex.Keys
      decreases b, 4
    {
      var primary := PrimaryBinfo(b);
      ghost var order: seq<ClassId> := if primary.Some? && PlainBelow(whole.classes, b) then VbaseOrder(whole.classes, primary.value.cls) else [];
      if primary.Some? {
        ok := BuildNegative(primary.value);
        if !ok {
          return;
        }
      }
      ok := AddOwn(b, order);
    }

    /** After the entries of the primary base, those of the class itself. */
    method AddOwn(b: Binfo, ghost order: seq<ClassId>) returns (ok: bool)
      requires Valid() && Fits(whole.classes, binfo, b)
      requires PlainBelow(whole.classes, b) ==>
        order == match PrimaryBinfo(b) case None => [] case Some(p) => VbaseOrder(whole.classes, p.cls)
      modifies this`inits, this`index, this`fns, this`marked, this`vptrField, this`vcallIndex
      ensures Valid()
      ensures old(Plain(order)) && PlainBelow(whole.classes, b) && ok && !b.isVirtual ==> Plain(VbaseOrder(whole.classes, b.cls))
      ensures old(Plain(order)) && PlainBelow(whole.classes, b) && ok ==> Starts(VbaseOrder(whole.classes, b.cls))
      ensures old(Plain(order)) && PlainBelow(whole.classes, b) && ChainRecorded(b) ==> ok
      ensures b.isVirtual && ok ==> VcallSlots(whole.classes, b, binfo) <= vcallIndex.Keys
      decreases b, 3
    {
      if PlainBelow(whole.classes, b) && ChainRecorded(b) {
        RecordedExpected(b, order);
      }
      ok := BuildVbaseOffsets(b, order);
      ghost var own := AppendNew(order, whole.classes[b.cls].vbases);
      OwnOrder(whole.classes, b, order);
      PlainStarts(whole, binfo.offset, primaryVtbl, own, inits, marked, vptrField);
      if ok && b.isVirtual {
        AddOwnVcalls(b, own);
      }
    }

    /** A virtual base also gets the entries for calls through it. */
    method AddOwnVcalls(b: Binfo, ghost own: seq<ClassId>)
      requires Valid() && Fits(whole.classes, binfo, b) && b.isVirtual
      modifies this`inits, this`index, this`fns, this`vcallIndex
      ensures Valid() && (old(Starts(own)) ==> Starts(own)) && VcallSlots(whole.classes, b, binfo) <= vcallIndex.Keys
    {
      ghost var before := inits;
      AddVcalls(b, binfo);
      StartsLater(whole, binfo.offset, own, before, inits);
    }

    /** The entries begin with those of the virtual bases in `order`. */
    ghost predicate Starts(order: seq<ClassId>)
      reads this
    {
      StartsWith(whole, binfo.offset, order, inits)
    }

    /** Every class on the primary chain has recorded where its entries are. */
    ghost predicate ChainRecorded(b: Binfo)
      requires PlainBelow(whole.classes, b)
    {
      && ((primaryVtbl && b == binfo) || RecordedRight(whole.classes, recorded, b.cls))
      && (PrimaryBinfo(b).Some? ==> ChainRecorded(PrimaryBinfo(b).value))
    }

    lemma {:induction false} RecordedExpected(b: Binfo, order: seq<ClassId>)
      requires PlainBelow(whole.classes, b) && ChainRecorded(b)
      requires order == match PrimaryBinfo(b) case None => [] case Some(p) => VbaseOrder(whole.classes, p.cls)
      ensures AllExpected(b, order)
    {
    }

    /** The search of the functions that have a vcall offset already. */
    method FindShared(fn: Fn) returns (found: Option<SlotRef>)
      ensures found.Some? ==> found.value in fns && SharesVcall(whole.isDestructor, found.value.fn, fn)
      ensures found.None? ==> forall s :: s in fns ==> !SharesVcall(whole.isDestructor, s.fn, fn)
    {
      var i := 0;
      while i < |fns|
        invariant 0 <= i <= |fns|
        invariant forall j :: 0 <= j < i ==> !SharesVcall(whole.isDestructor, fns[j].fn, fn)
      {
        if SharesVcall(whole.isDestructor, fns[i].fn, fn) {
          return Some(fns[i]);
        }
        i := i + 1;
      }
      found := None;
    }

    /** A vcall offset for one slot: one that is there, or a new one. */
    method AddVcall(slot: SlotRef)
      requires Valid()
      modifies this`inits, this`index, this`fns, this`vcallIndex
      ensures Valid() && old(inits) <= inits && vcallIndex.Keys == old(vcallIndex.Keys) + {slot}
    {
      var found := FindShared(slot.fn);
      if found.Some? {
        SharedLands(whole, binfo.offset, inits, vcallIndex, slot, found.value);
        OwnedShared(whole, inits, fns, vcallIndex, slot, found.value);
        vcallIndex := vcallIndex[slot := vcallIndex[found.value]];
      } else {
        VcallLandsNext(whole, binfo.offset, inits, vptrField, vcallIndex, slot);
        StillDistinct(whole.isDestructor, fns, slot);
        OwnedNext(whole, inits, VcallOffset(slot.fn, whole.offsetOf(slot.fn.cls) - binfo.offset), fns, vcallIndex, slot);
        vcallIndex := vcallIndex[slot := index];
        fns := fns + [slot];
        inits, index := inits + [VcallOffset(slot.fn, whole.offsetOf(slot.fn.cls) - binfo.offset)], index - 1;
      }
    }

    /** `add_vcall_offset_vtbl_entries_1`: `top` is the most derived node that `b` is
        primary base of. */
    method AddVcallsOf(b: Binfo, top: Binfo)
      requires Valid() && TablesFit(whole.classes, b, top)
      modifies this`inits, this`index, this`fns, this`vcallIndex
      ensures Valid() && old(inits) <= inits
      ensures vcallIndex.Keys == old(vcallIndex.Keys) + OwnSlots(whole.classes, b, top, |b.virtuals|)
    {
      var i := 0;
      while i < |b.virtuals|
        invariant 0 <= i <= |b.virtuals| && Valid() && old(inits) <= inits
        invariant vcallIndex.Keys == old(vcallIndex.Keys) + OwnSlots(whole.classes, b, top, i)
      {
        if whole.classes[b.cls].virtuals[i].cls == b.cls {
          AddVcall(SlotRef(top.id, i, top.virtuals[i]));
        }
        i := i + 1;
      }
    }

    /** `add_vcall_offset_vtbl_entries_r`, for a node that is not a virtual base, or is
        the one that it is all about. */
    method AddVcalls(b: Binfo, top: Binfo)
      requires Valid() && TablesFit(whole.classes, b, top)
      modifies this`inits, this`index, this`fns, this`vcallIndex
      ensures Valid() && old(inits) <= inits
      ensures vcallIndex.Keys == old(vcallIndex.Keys) + VcallSlots(whole.classes, b, top)
      decreases b, 2
    {
      var primary := PrimaryBinfo(b);
      if primary.Some? && !primary.value.isVirtual {
        AddVcalls(primary.value, top);
        AmongBases(whole.classes, b, top, b.primary.value);
      }
      AddVcallsOf(b, top);
      AddVcallsOfBases(b, top);
    }

    /** The loop over the bases that are not primary. */
    method AddVcallsOfBases(b: Binfo, top: Binfo)
      requires Valid() && TablesFit(whole.classes, b, top)
      requires PrimaryDone(whole.classes, b, top, vcallIndex.Keys)
      modifies this`inits, this`index, this`fns, this`vcallIndex
      ensures Valid() && old(inits) <= inits
      ensures vcallIndex.Keys == old(vcallIndex.Keys) + BaseSlots(whole.classes, b, top, |b.bases|)
      decreases b, 1
    {
      var i := 0;
      while i < |b.bases|
        invariant 0 <= i <= |b.bases| && Valid()
        invariant old(inits) <= inits
        invariant vcallIndex.Keys == old(vcallIndex.Keys) + BaseSlots(whole.classes, b, top, i)
      {
        AddVcallsOfBase(b, top, i, old(vcallIndex.Keys), old(inits));
        i := i + 1;
      }
    }

    method AddVcallsOfBase(b: Binfo, top: Binfo, i: nat, ghost first: set<SlotRef>, ghost before: seq<Entry>)
      requires Valid() && TablesFit(whole.classes, b, top) && i < |b.bases| && before <= inits
      requires vcallIndex.Keys == first + BaseSlots(whole.classes, b, top, i)
      requires PrimaryDone(whole.classes, b, top, first)
      modifies this`inits, this`index, this`fns, this`vcallIndex
      ensures Valid() && before <= inits
      ensures vcallIndex.Keys == first + BaseSlots(whole.classes, b, top, i + 1)
      decreases b, 0
    {
      if b.primary != Some(i) && !b.bases[i].isVirtual {
        AddVcalls(b.bases[i], b.bases[i]);
      }
      OneBase(whole.classes, b, top, i, first, old(vcallIndex.Keys), vcallIndex.Keys);
    }
  }

  lemma {:induction false} OneBase(classes: seq<ClassRec>, b: Binfo, top: Binfo, i: nat,
                                   first: set<SlotRef>, keys: set<SlotRef>, keys': set<SlotRef>)
    requires TablesFit(classes, b, top) && i < |b.bases| && keys == first + BaseSlots(classes, b, top, i)
    requires if b.primary == Some(i) || b.bases[i].isVirtual then keys' == keys
             else keys' == keys + VcallSlots(classes, b.bases[i], b.bases[i])
    requires b.primary == Some(i) && !b.bases[i].isVirtual ==> VcallSlots(classes, b.bases[i], top) <= first
    ensures keys' == first + BaseSlots(classes, b, top, i + 1)
  {
    BaseSlotsNext(classes, b, top, i);
  }

  /** The slots of a primary base that is not virtual have their indices. */
  ghost predicate PrimaryDone(classes: seq<ClassRec>, b: Binfo, top: Binfo, done: set<SlotRef>)
    requires TablesFit(classes, b, top)
  {
    var primary := PrimaryBinfo(b);
    primary.Some? && !primary.value.isVirtual ==> VcallSlots(classes, primary.value, top) <= done
  }

  lemma {:induction false} SharedLands(whole: Complete, from: int, inits: seq<Entry>, indices: map<SlotRef, int>, slot: SlotRef, old': SlotRef)
    requires VcallsLand(whole, from, inits, indices) && old' in indices && SharesVcall(whole.isDestructor, old'.fn, slot.fn)
    ensures VcallsLand(whole, from, inits, indices[slot := indices[old']])
  {
    assert VcallLands(whole, from, inits, old'.fn, indices[old']);
    var indices' := indices[slot := indices[old']];
    forall s | s in indices'
      ensures VcallLands(whole, from, inits, s.fn, indices'[s])
    {
      if s != slot {
        assert s in indices && VcallLands(whole, from, inits, s.fn, indices[s]);
      }
    }
  }

  lemma {:induction false} VcallLandsNext(whole: Complete, from: int, inits: seq<Entry>, fields: map<ClassId, int>, indices: map<SlotRef, int>, slot: SlotRef)
    requires VbasesLand(whole, from, inits, fields) && VcallsLand(whole, from, inits, indices)
    ensures var inits' := inits + [VcallOffset(slot.fn, whole.offsetOf(slot.fn.cls) - from)];
      VbasesLand(whole, from, inits', fields) && VcallsLand(whole, from, inits', indices[slot := -(|inits| + 1)])
  {
    var e := VcallOffset(slot.fn, whole.offsetOf(slot.fn.cls) - from);
    LandLater(whole, from, inits, e, fields, indices);
    assert (inits + [e])[|inits|] == e;
    var indices' := indices[slot := -(|inits| + 1)];
    forall s | s in indices'
      ensures VcallLands(whole, from, inits + [e], s.fn, indices'[s])
    {
      if s != slot {
        assert s in indices && VcallLands(whole, from, inits + [e], s.fn, indices[s]);
      }
    }
  }

  /** A finished table: `nonFn` of its entries come before the address point. */
  datatype Vtable = Vtable(entries: seq<Entry>, nonFn: nat)

  /** What is found at an index, counted from the address point. */
  predicate At(t: Vtable, index: int, e: Entry) {
    0 <= t.nonFn + index < |t.entries| && t.entries[t.nonFn + index] == e
  }

  /** An adjustment for calls through the base that the table is for. */
  predicate AdjustsAt(t: Vtable, index: int, offset: int) {
    0 <= t.nonFn + index < |t.entries| && t.entries[t.nonFn + index].VcallOffset? && t.entries[t.nonFn + index].offset == offset
  }

  /** After the reversal an entry is where it was to land. */
  lemma {:induction false} LandsInTable(inits: seq<Entry>, functions: seq<Entry>, index: int, e: Entry)
    requires LandsAt(inits, index, e)
    ensures At(Vtable(Reverse(inits) + functions, |inits|), index, e)
  {
  }

  /** Every entry is where it was to land. */
  ghost predicate AllLand(inits: seq<Entry>, table: Vtable) {
    forall index, e {:trigger LandsAt(inits, index, e)} :: LandsAt(inits, index, e) ==> At(table, index, e)
  }

  lemma {:induction false} PositionFound(s: seq<ClassId>, v: ClassId)
    requires v in s
    ensures Position(s, v) < |s| && s[Position(s, v)] == v
  {
    if s[0] != v {
      PositionFound(s[1..], v);
    }
  }

  lemma {:induction false} OwnOrder(classes: seq<ClassRec>, b: Binfo, order: seq<ClassId>)
    requires b.cls < |classes|
    requires PlainBelow(classes, b) ==>
      order == match PrimaryBinfo(b) case None => [] case Some(p) => VbaseOrder(classes, p.cls)
    ensures PlainBelow(classes, b) ==> VbaseOrder(classes, b.cls) == AppendNew(order, classes[b.cls].vbases)
  {
  }

  lemma {:induction false} PlainStarts(whole: Complete, from: int, primary: bool, order: seq<ClassId>,
                                       inits: seq<Entry>, marked: set<ClassId>, fields: map<ClassId, int>)
    ensures PlainState(whole, from, primary, order, inits, marked, fields) ==> StartsWith(whole, from, order, inits)
  {
    if PlainState(whole, from, primary, order, inits, marked, fields) {
      assert inits[..2 + |order|] == inits;
    }
  }

  lemma {:induction false} StartsLater(whole: Complete, from: int, order: seq<ClassId>, inits: seq<Entry>, inits': seq<Entry>)
    requires inits <= inits'
    ensures StartsWith(whole, from, order, inits) ==> StartsWith(whole, from, order, inits')
  {
    if |inits| >= 2 + |order| {
      assert inits'[..2 + |order|] == inits[..2 + |order|];
    }
  }

  lemma {:induction false} StartsLands(whole: Complete, from: int, order: seq<ClassId>, inits: seq<Entry>, v: ClassId)
    requires StartsWith(whole, from, order, inits) && v in order
    ensures LandsAt(inits, -(3 + Position(order, v)), VbaseOffset(v, whole.offsetOf(v) - from))
  {
    PositionFound(order, v);
    assert inits[..2 + |order|][2 + Position(order, v)] == inits[2 + Position(order, v)];
  }

  /** The entries of a primary base come first, so that its indices are the class's own. */
  lemma {:induction false} PrimaryIndicesKept(classes: seq<ClassRec>, c: ClassId, v: ClassId)
    requires Chained(classes) && c < |classes| && classes[c].primary.Some?
    requires v in VbaseOrder(classes, classes[c].primary.value)
    ensures v in VbaseOrder(classes, c) && RecordedIndex(classes, c, v) == RecordedIndex(classes, classes[c].primary.value, v)
  {
    var (p, vs) := (classes[c].primary.value, classes[c].vbases);
    AppendNewExtends(VbaseOrder(classes, p), vs, |vs|);
    PositionInPrefix(VbaseOrder(classes, p), VbaseOrder(classes, c), v);
    PositionFound(VbaseOrder(classes, p), v);
  }

  function MostPrimary(b: Binfo): Binfo {
    match PrimaryBinfo(b)
    case None => b
    case Some(p) => MostPrimary(p)
  }

  /** The loop of `build_rtti_vtbl_entries`: the offset from the most primary base of
      `b` back to the whole object. */
  method OffsetToWhole(b: Binfo) returns (toTop: int)
    ensures toTop == -MostPrimary(b).offset
  {
    var p := b;
    while PrimaryBinfo(p).Some?
      invariant MostPrimary(p) == MostPrimary(b)
      decreases p
    {
      p := PrimaryBinfo(p).value;
    }
    toTop := 0 - p.offset;
  }

  /** The initializers of the functions: built in reverse, then straightened out. */
  method BuildFunctions(virtuals: seq<Fn>) returns (r: seq<Entry>)
    ensures |r| == |virtuals| && forall i :: 0 <= i < |r| ==> r[i] == Function(virtuals[i])
  {
    var inits: seq<Entry> := [];
    var i := 0;
    while i < |virtuals|
      invariant 0 <= i <= |virtuals| && |inits| == i
      invariant forall j :: 0 <= j < i ==> inits[i - 1 - j] == Function(virtuals[j])
    {
      inits := [Function(virtuals[i])] + inits;
      i := i + 1;
    }
    r := Reverse(inits);
  }

  /** `build_vtbl_initializer`: not `ok` is an abort. */
  method BuildVtblInitializer(whole: Complete, b: Binfo, primaryVtbl: bool, recorded: seq<map<ClassId, int>>)
    returns (ok: bool, table: Vtable, vid: VtblInitData)
    requires Fits(whole.classes, b, b)
    ensures vid.whole == whole && vid.binfo == b && vid.primaryVtbl == primaryVtbl && vid.recorded == recorded && vid.Valid()
    ensures table.nonFn == |vid.inits| && At(table, -1, TypeInfo) && At(table, -2, OffsetToTop(-MostPrimary(b).offset))
    ensures forall i :: 0 <= i < |b.virtuals| ==> At(table, i, Function(b.virtuals[i]))
    ensures AllLand(vid.inits, table)
    ensures ok && b.isVirtual ==> VcallSlots(whole.classes, b, b) <= vid.vcallIndex.Keys
    ensures OneOverrider(whole.isDestructor, vid.vcallIndex.Keys) ==> forall s :: s in vid.vcallIndex ==>
      AdjustsAt(table, vid.vcallIndex[s], whole.offsetOf(s.fn.cls) - b.offset)
    ensures forall s, t :: s in vid.vcallIndex && t in vid.vcallIndex ==>
      (vid.vcallIndex[s] == vid.vcallIndex[t] <==>
       s.fn.sig == t.fn.sig || (whole.isDestructor(s.fn.sig) && whole.isDestructor(t.fn.sig)))
    ensures PlainBelow(whole.classes, b) && vid.ChainRecorded(b) ==> ok
    ensures PlainBelow(whole.classes, b) && ok ==> vid.Starts(VbaseOrder(whole.classes, b.cls))
    ensures PlainBelow(whole.classes, b) && ok && !b.isVirtual ==> vid.Plain(VbaseOrder(whole.classes, b.cls))
  {
    var toTop := OffsetToWhole(b);
    vid := new VtblInitData(whole, b, primaryVtbl, recorded, toTop);
    ok := vid.BuildNegative(b);
    var functions := BuildFunctions(b.virtuals);
    table := Vtable(Reverse(vid.inits) + functions, |vid.inits|);
    forall index, e | LandsAt(vid.inits, index, e)
      ensures At(table, index, e)
    {
      LandsInTable(vid.inits, functions, index, e);
    }
    assert LandsAt(vid.inits, -1, TypeInfo) && LandsAt(vid.inits, -2, OffsetToTop(toTop));
    VcallsFound(vid, table);
  }

  /** What the recorded vcall indices find in the table. */
  lemma {:induction false} VcallsFound(vid: VtblInitData, table: Vtable)
    requires vid.Valid() && AllLand(vid.inits, table)
    ensures OneOverrider(vid.whole.isDestructor, vid.vcallIndex.Keys) ==> forall s :: s in vid.vcallIndex ==>
      AdjustsAt(table, vid.vcallIndex[s], vid.whole.offsetOf(s.fn.cls) - vid.binfo.offset)
    ensures forall s, t :: s in vid.vcallIndex && t in vid.vcallIndex ==>
      (vid.vcallIndex[s] == vid.vcallIndex[t] <==>
       s.fn.sig == t.fn.sig || (vid.whole.isDestructor(s.fn.sig) && vid.whole.isDestructor(t.fn.sig)))
  {
    forall s, t | s in vid.vcallIndex && t in vid.vcallIndex
      ensures vid.vcallIndex[s] == vid.vcallIndex[t] <==>
              s.fn.sig == t.fn.sig || (vid.whole.isDestructor(s.fn.sig) && vid.whole.isDestructor(t.fn.sig))
    {
      IndicesShared(vid.whole, vid.inits, vid.fns, vid.vcallIndex, s, t);
    }
    if OneOverrider(vid.whole.isDestructor, vid.vcallIndex.Keys) {
      forall s | s in vid.vcallIndex
        ensures AdjustsAt(table, vid.vcallIndex[s], vid.whole.offsetOf(s.fn.cls) - vid.binfo.offset)
      {
        OwnAdjustment(vid.whole, vid.binfo.offset, vid.inits, vid.fns, vid.vcallIndex, s);
        var e := vid.inits[-vid.vcallIndex[s] - 1];
        assert LandsAt(vid.inits, vid.vcallIndex[s], e);
      }
    }
  }

  /** No virtual base on the way down the primary bases of a class. */
  predicate PlainClass(classes: seq<ClassRec>, c: ClassId)
    requires Chained(classes) && c < |classes|
  {
    classes[c].primary.Some? ==> !classes[c].primaryIsVirtual && PlainClass(classes, classes[c].primary.value)
  }

  lemma {:induction false} OrderStable(classes: seq<ClassRec>, rec: ClassRec, c: ClassId)
    requires Chained(classes) && Chained(classes + [rec]) && c < |classes|
    ensures VbaseOrder(classes + [rec], c) == VbaseOrder(classes, c)
    ensures PlainClass(classes + [rec], c) == PlainClass(classes, c)
  {
    if classes[c].primary.Some? {
      OrderStable(classes, rec, classes[c].primary.value);
    }
  }

  /** Every class with a plain chain of primary bases has its indices right. */
  ghost predicate AllRecorded(classes: seq<ClassRec>, recorded: seq<map<ClassId, int>>) {
    && Chained(classes) && |recorded| == |classes|
    && forall c :: 0 <= c < |classes| && PlainClass(classes, c) ==> RecordedRight(classes, recorded, c)
  }

  lemma {:induction false} AllRecordedNext(classes: seq<ClassRec>, recorded: seq<map<ClassId, int>>, rec: ClassRec, fields: map<ClassId, int>)
    requires AllRecorded(classes, recorded) && Chained(classes + [rec])
    requires PlainClass(classes + [rec], |classes|) ==> FieldsFor(VbaseOrder(classes + [rec], |classes|), fields)
    ensures AllRecorded(classes + [rec], recorded + [fields])
  {
    var (classes', recorded') := (classes + [rec], recorded + [fields]);
    forall c | 0 <= c < |classes'| && PlainClass(classes', c)
      ensures RecordedRight(classes', recorded', c)
    {
      if c < |classes| {
        OrderStable(classes, rec, c);
        assert RecordedRight(classes, recorded, c) && recorded'[c] == recorded[c];
      }
    }
  }

  lemma {:induction false} PlainBelowIsPlain(classes: seq<ClassRec>, b: Binfo)
    requires PlainBelow(classes, b)
    ensures PlainClass(classes, b.cls)
  {
    if PrimaryBinfo(b).Some? {
      PlainBelowIsPlain(classes, PrimaryBinfo(b).value);
    }
  }

  /** In any complete object, the consistency check of the bases holds. */
  lemma {:induction false} ChainIsRecorded(vid: VtblInitData, b: Binfo)
    requires AllRecorded(vid.whole.classes, vid.recorded) && PlainBelow(vid.whole.classes, b)
    ensures vid.ChainRecorded(b)
  {
    PlainBelowIsPlain(vid.whole.classes, b);
    if PrimaryBinfo(b).Some? {
      ChainIsRecorded(vid, PrimaryBinfo(b).value);
    }
  }

  lemma {:induction false} NewChainIsRecorded(vid: VtblInitData, classes: seq<ClassRec>, rec: ClassRec)
    requires AllRecorded(classes, vid.recorded) && vid.whole.classes == classes + [rec]
    requires vid.primaryVtbl && vid.binfo.cls == |classes| && PlainBelow(classes + [rec], vid.binfo)
    ensures vid.ChainRecorded(vid.binfo)
  {
    var p := PrimaryBinfo(vid.binfo);
    if p.Some? {
      OldChainIsRecorded(vid, classes, rec, p.value);
    }
  }

  lemma {:induction false} OldChainIsRecorded(vid: VtblInitData, classes: seq<ClassRec>, rec: ClassRec, b: Binfo)
    requires AllRecorded(classes, vid.recorded) && vid.whole.classes == classes + [rec]
    requires PlainBelow(classes + [rec], b) && b.cls < |classes|
    ensures vid.ChainRecorded(b)
  {
    PlainBelowIsPlain(classes + [rec], b);
    OrderStable(classes, rec, b.cls);
    if PrimaryBinfo(b).Some? {
      OldChainIsRecorded(vid, classes, rec, PrimaryBinfo(b).value);
    }
  }

  /** The tables of one class after another. */
  class VtableFinisher {
    var classes: seq<ClassRec>
    var recorded: seq<map<ClassId, int>>

    ghost predicate Valid()
      reads this
    {
      AllRecorded(classes, recorded)
    }

    constructor ()
      ensures Valid() && classes == []
    {
      classes, recorded := [], [];
    }

    /** The primary table of the next class, which records the indices of its virtual
        bases: no abort if the primary bases are plain. */
    method FinishPrimary(rec: ClassRec, b: Binfo, offsetOf: ClassId -> int, isDestructor: Sig -> bool)
      returns (ok: bool, table: Vtable)
      requires Valid() && Chained(classes + [rec]) && b.cls == |classes| && !b.isVirtual && Fits(classes + [rec], b, b)
      requires PlainClass(classes + [rec], b.cls) ==> PlainBelow(classes + [rec], b)
      modifies this
      ensures if ok then classes == old(classes) + [rec] && Valid() else classes == old(classes) && recorded == old(recorded)
      ensures PlainBelow(old(classes) + [rec], b) ==>
        && ok && (forall v :: v in VbaseOrder(classes, b.cls) ==>
             At(table, RecordedIndex(classes, b.cls, v), VbaseOffset(v, offsetOf(v) - b.offset)))
    {
      var whole := Complete(classes + [rec], offsetOf, isDestructor);
      var vid;
      ok, table, vid := BuildVtblInitializer(whole, b, true, recorded);
      if PlainBelow(whole.classes, b) {
        NewChainIsRecorded(vid, classes, rec);
        LooksUp(vid.whole, b, vid.inits, table);
      }
      if ok {
        AllRecordedNext(classes, recorded, rec, vid.vptrField);
        classes, recorded := classes + [rec], recorded + [vid.vptrField];
      }
    }

    /** The table of a base subobject of a completed class: whatever the class of the
        complete object, the indices that the base's own class recorded are right. */
    method FinishSecondary(b: Binfo, offsetOf: ClassId -> int, isDestructor: Sig -> bool)
      returns (ok: bool, table: Vtable)
      requires Valid() && Fits(classes, b, b)
      ensures PlainBelow(classes, b) ==>
        && ok && (forall v :: v in VbaseOrder(classes, b.cls) ==>
             b.cls < |recorded| && v in recorded[b.cls] && At(table, recorded[b.cls][v], VbaseOffset(v, offsetOf(v) - b.offset)))
    {
      var vid;
      ok, table, vid := BuildVtblInitializer(Complete(classes, offsetOf, isDestructor), b, false, recorded);
      if PlainBelow(classes, b) {
        PlainBelowIsPlain(classes, b);
        ChainIsRecorded(vid, b);
        LooksUp(vid.whole, b, vid.inits, table);
      }
    }
  }

  /** The recorded indices look up the distances to the virtual bases. */
  lemma {:induction false} LooksUp(whole: Complete, b: Binfo, inits: seq<Entry>, table: Vtable)
    requires PlainBelow(whole.classes, b) && StartsWith(whole, b.offset, VbaseOrder(whole.classes, b.cls), inits)
    requires AllLand(inits, table)
    ensures forall v :: v in VbaseOrder(whole.classes, b.cls) ==>
      At(table, RecordedIndex(whole.classes, b.cls, v), VbaseOffset(v, whole.offsetOf(v) - b.offset))
  {
    forall v | v in VbaseOrder(whole.classes, b.cls)
      ensures At(table, RecordedIndex(whole.classes, b.cls, v), VbaseOffset(v, whole.offsetOf(v) - b.offset))
    {
      LooksUpOne(whole, b.offset, VbaseOrder(whole.classes, b.cls), inits, table, v);
    }
  }

  lemma {:induction false} LooksUpOne(whole: Complete, from: int, order: seq<ClassId>, inits: seq<Entry>, table: Vtable, v: ClassId)
    requires StartsWith(whole, from, order, inits) && v in order && AllLand(inits, table)
    ensures At(table, -(3 + Position(order, v)), VbaseOffset(v, whole.offsetOf(v) - from))
  {
    StartsLands(whole, from, order, inits, v);
  }
}
