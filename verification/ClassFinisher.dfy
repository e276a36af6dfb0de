/** Completing classes one after the other: `finish_struct_1` for hierarchies
    without virtual bases, and what holds after any run of it. */
module ClassFinisher {
  import opened Hierarchy
  import opened LayoutRules
  import opened LayoutTheorem
  import opened BinfoTree
  import opened BaseLayout
  import opened ClassLayout
  import opened VtableRules
  import opened SlotLists
  import opened Dispatching
  import opened Vtables

  lemma {:induction false} LayoutExtends(w: World, info: ClassInfo, pls: seq<Placement>)
    requires AllLaidOut(w) && WellFormedDecl(info.decl, |w|)
    requires PlacedBy(w, info.decl, info.primary, info.offsets, pls) && SizedBy(w, info, pls)
    ensures AllLaidOut(w + [info])
  {
    var w' := w + [info];
    LaidOutByPlacements(w, info, pls);
    assert forall c :: 0 <= c <= |w| ==> w'[..c] == w[..c];
    assert w[..|w|] == w;
    forall c | 0 <= c < |w'|
      ensures LaidOutInTurn(w', c)
    {
      if c < |w| {
        assert LaidOutInTurn(w, c);
      }
    }
  }

  /** The root node over the nodes of the direct bases: every subobject of the new
      class is at the offset its path says. */
  method MakeRoot(w: World, info: ClassInfo, binfos: seq<Binfo>) returns (root: Binfo)
    requires Ordered(w) && Ordered(w + [info]) && BasesReady(w, info.decl, binfos) && NodesAt(w, binfos, info.offsets)
    ensures root.Valid() && root.Mirrors(w + [info]) && root.typ == |w| && PlacedAt(w + [info], root, 0)
  {
    ghost var w' := w + [info];
    forall i | 0 <= i < |binfos|
      ensures binfos[i].Mirrors(w') && PlacedAt(w', binfos[i], info.offsets[i])
    {
      PlacedStable(w, w', binfos[i], info.offsets[i]);
    }
    root := new Binfo(|w|, 0, binfos);
    RootPlaced(w', root);
  }

  lemma {:induction false} PlacedStable(w: World, w': World, b: Binfo, o: int)
    requires Ordered(w) && Ordered(w') && |w| <= |w'| && w'[..|w|] == w
    requires b.Valid() && b.Mirrors(w) && PlacedAt(w, b, o)
    ensures b.Mirrors(w') && PlacedAt(w', b, o)
  {
    MirrorsStable(w, w', b);
    forall p: Path | ValidPath(w', b.typ, p)
      ensures b.At(w', p).offset == o + OffsetAt(w', b.typ, p)
    {
      PathsStable(w, w', b.typ, p);
      AtStable(w, w', b, p);
    }
  }

  lemma {:induction false} MirrorsStable(w: World, w': World, b: Binfo)
    requires Ordered(w) && Ordered(w') && |w| <= |w'| && w'[..|w|] == w && b.Mirrors(w)
    ensures b.Mirrors(w')
    decreases b.typ
  {
    assert w'[b.typ] == w[b.typ];
    forall i | 0 <= i < |b.bases|
      ensures b.bases[i].Mirrors(w')
    {
      MirrorsStable(w, w', b.bases[i]);
    }
  }

  lemma {:induction false} AtStable(w: World, w': World, b: Binfo, p: Path)
    requires Ordered(w) && Ordered(w') && |w| <= |w'| && w'[..|w|] == w
    requires b.Valid() && b.Mirrors(w) && b.Mirrors(w') && ValidPath(w, b.typ, p) && ValidPath(w', b.typ, p)
    ensures b.At(w', p) == b.At(w, p)
    decreases |p|
  {
    assert w'[b.typ] == w[b.typ];
    if p != [] {
      AtStable(w, w', b.bases[p[0]], p[1..]);
    }
  }

  /** A class without a table of its own inherits no slot. */
  lemma {:induction false} StartOfTable(w: World, c: ClassId, tables: map<Path, seq<Slot>>)
    requires AllLaidOut(w) && c < |w| && Updated(w, c, map[], tables, PathsBelow([]))
    ensures (if [] in tables then tables[[]] else []) == CorrectSlots(w, c, [], Inherited(w, c))
  {
    assert Below([], []) && UpdatedAt(w, c, map[], tables, PathsBelow([]), []);
    if [] !in tables && w[c].primary.Some? {
      assert LaidOutInTurn(w, c);
      PolymorphicStable(w[..c], w, w[c].decl.bases[w[c].primary.value]);
      assert false;
    }
  }

  lemma {:induction false} EveryPathHasTable(w: World, c: ClassId, tables: map<Path, seq<Slot>>)
    requires Ordered(w) && c < |w| && Updated(w, c, map[], tables, PathsBelow([]))
    ensures [] in tables <==> NeedsTable(w, c, [])
  {
    assert Below([], []) && UpdatedAt(w, c, map[], tables, PathsBelow([]), []);
  }

  lemma {:induction false} FinishedGroup(w: World, c: ClassId, tables: map<Path, seq<Slot>>, table: seq<Slot>)
    requires Ordered(w) && c < |w| && Updated(w, c, map[], tables, PathsBelow([]))
    requires table == CorrectTable(w, c, [])
    ensures TablesRight(w, c, Contents(table, if [] in tables then tables[[] := table] else tables))
  {
    var held := Contents(table, if [] in tables then tables[[] := table] else tables);
    forall q: Path
      ensures TableRightAt(w, c, held, q)
    {
      assert Below([], q) && UpdatedAt(w, c, map[], tables, PathsBelow([]), q);
    }
  }

  /** Every class is laid out by the rules and has the right tables. */
  ghost predicate AllRight(w: World, held: seq<Contents>) {
    AllLaidOut(w) && AllTablesRight(w, held)
  }

  ghost predicate AllTablesRight(w: World, held: seq<Contents>)
    requires Ordered(w)
  {
    |held| == |w| && forall c: nat {:trigger held[c]} :: c < |w| ==> TablesRight(w, c, held[c])
  }

  lemma {:induction false} AllTablesRightExtends(w: World, held: seq<Contents>, info: ClassInfo, next: Contents)
    requires Ordered(w) && AllTablesRight(w, held) && Ordered(w + [info]) && TablesRight(w + [info], |w|, next)
    ensures AllTablesRight(w + [info], held + [next])
  {
    forall c: nat | c < |w + [info]|
      ensures TablesRight(w + [info], c, (held + [next])[c])
    {
      RightAt(w, held, info, next, c);
    }
  }

  lemma {:induction false} RightAt(w: World, held: seq<Contents>, info: ClassInfo, next: Contents, c: ClassId)
    requires Ordered(w) && AllTablesRight(w, held) && Ordered(w + [info]) && TablesRight(w + [info], |w|, next) && c <= |w|
    ensures TablesRight(w + [info], c, (held + [next])[c])
  {
    if c < |w| {
      StaysRight(w, held, info, c);
    }
  }

  lemma {:induction false} AllRightExtends(w: World, held: seq<Contents>, info: ClassInfo, next: Contents)
    requires AllRight(w, held) && AllLaidOut(w + [info]) && TablesRight(w + [info], |w|, next)
    ensures AllRight(w + [info], held + [next])
  {
    AllTablesRightExtends(w, held, info, next);
  }

  lemma {:induction false} StaysRight(w: World, held: seq<Contents>, info: ClassInfo, c: ClassId)
    requires Ordered(w) && AllTablesRight(w, held) && Ordered(w + [info]) && c < |w|
    ensures TablesRight(w + [info], c, held[c])
  {
    assert (w + [info])[..|w|] == w;
    TablesStayRight(w, w + [info], c, held[c]);
  }

  /** The primary tables of the bases, seen from the class derived from them. */
  lemma {:induction false} BaseTablesRight(w: World, info: ClassInfo, held: seq<Contents>)
    requires AllRight(w, held) && Ordered(w + [info])
    ensures BasesRight(w + [info], |w|, held)
  {
    var w' := w + [info];
    assert w'[..|w|] == w;
    forall b | 0 <= b < |w|
      ensures held[b].table == CorrectTable(w', b, [])
    {
      assert TablesRight(w, b, held[b]);
      TableStable(w, w', b, []);
    }
  }

  /** Binfos, and the entries of their lists. */
  datatype Objects = Objects(binfos: set<Table>, entries: set<SlotNode>) {
    function Plus(o: Objects): Objects {
      Objects(binfos + o.binfos, entries + o.entries)
    }

    predicate Within(o: Objects) {
      binfos <= o.binfos && entries <= o.entries
    }
  }

  /** The lists of a class, all of them among `repr`, hold what they should. */
  ghost predicate Kept(repr: Objects, lists: ClassTables, held: Contents)
    reads repr.binfos, repr.entries
  {
    && KeptList(repr, [], lists.virtuals, held.table) && lists.vsize == |held.table| && lists.group.Keys == held.group.Keys
    && forall q {:trigger lists.group[q]} :: q in lists.group ==> KeptList(repr, q, lists.group[q], held.group[q])
  }

  ghost predicate KeptList(repr: Objects, path: Path, table: Table, slots: seq<Slot>)
    reads repr.binfos, repr.entries
  {
    table in repr.binfos && (forall n :: n in table.nodes ==> n in repr.entries) && HoldsFor(path, table, slots)
  }

  lemma {:induction false} ListKeptAmongMore(repr: Objects, more: Objects, path: Path, table: Table, slots: seq<Slot>)
    requires KeptList(repr, path, table, slots) && repr.Within(more)
    ensures KeptList(more, path, table, slots)
  {
  }

  lemma {:induction false} KeptAmongMore(repr: Objects, more: Objects, lists: ClassTables, held: Contents)
    requires Kept(repr, lists, held) && repr.Within(more)
    ensures Kept(more, lists, held)
  {
    ListKeptAmongMore(repr, more, [], lists.virtuals, held.table);
    forall q | q in lists.group
      ensures KeptList(more, q, lists.group[q], held.group[q])
    {
      ListKeptAmongMore(repr, more, q, lists.group[q], held.group[q]);
    }
  }

  /** The same for all classes. */
  ghost predicate AllKept(repr: Objects, lists: seq<ClassTables>, held: seq<Contents>)
    reads repr.binfos, repr.entries
  {
    |lists| == |held| && forall c {:trigger lists[c]} {:trigger held[c]} :: 0 <= c < |lists| ==> Kept(repr, lists[c], held[c])
  }

  lemma {:induction false} OneMoreKept(repr: Objects, lists: seq<ClassTables>, held: seq<Contents>,
                                       made: Objects, lists': ClassTables, held': Contents)
    requires AllKept(repr, lists, held) && Kept(made, lists', held')
    ensures AllKept(repr.Plus(made), lists + [lists'], held + [held'])
  {
    var all := repr.Plus(made);
    KeptAmongMore(made, all, lists', held');
    forall c | 0 <= c < |lists|
      ensures Kept(all, lists[c], held[c])
    {
      KeptAmongMore(repr, all, lists[c], held[c]);
    }
  }

  lemma {:induction false} BasesHold(repr: Objects, lists: seq<ClassTables>, held: seq<Contents>)
    requires AllKept(repr, lists, held)
    ensures forall b {:trigger lists[b]} :: 0 <= b < |lists| ==> Holds(lists[b].virtuals, held[b].table)
    ensures forall b {:trigger lists[b]} :: 0 <= b < |lists| ==> lists[b].vsize == |held[b].table|
  {
    forall b | 0 <= b < |lists|
      ensures Holds(lists[b].virtuals, held[b].table) && lists[b].vsize == |held[b].table|
    {
      assert Kept(repr, lists[b], held[b]);
    }
  }

  ghost function ObjectsOf(own: Table, group: map<Path, Table>): Objects
    reads own, set q | q in group :: group[q]
  {
    Objects({own} + (set q | q in group :: group[q]),
            (set n | n in own.nodes) + (set q, n | q in group && n in group[q].nodes :: n))
  }

  /** The part of `finish_struct_1` after the layout: `modify_all_vtables`, then
      the new functions at the end of the primary table. */
  method BuildTables(w: World, c: ClassId, bases: seq<ClassTables>, fns: Functions,
                     ghost settled: map<Fn, Dispatch>, ghost held: seq<Contents>)
    returns (lists: ClassTables, ghost next: Contents, ghost made: Objects)
    requires AllLaidOut(w) && BasesRight(w, c, held) && |bases| == c
    requires forall b {:trigger bases[b]} :: 0 <= b < c ==> Holds(bases[b].virtuals, held[b].table)
    requires forall b {:trigger bases[b]} :: 0 <= b < c ==> bases[b].vsize == |held[b].table|
    requires Underway(w, c, settled, fns.dispatch) && OfOthers(settled, c)
    modifies fns
    ensures TablesRight(w, c, next) && Kept(made, lists, next)
    ensures Callable(w, c + 1, fns.dispatch) && StillCalled(settled, fns.dispatch)
  {
    DistinctSubobjectsDistinctAddresses(w, c);
    var g := new VtableGroup();
    g.DfsModifyVtables(w, c, [], bases, fns, settled, held);
    NothingToInherit(w, c, fns.dispatch);
    var group := g.lists;
    ghost var tables := g.tables;
    EveryPathHasTable(w, c, tables);
    var own := OwnList(w, c, group, tables);
    PrimarySize(w, c, bases, held);
    lists, made := FinishGroup(w, c, own, group, fns, settled, tables, PrimaryVsize(w, c, bases));
    next := Contents(CorrectTable(w, c, []), if [] in tables then tables[[] := CorrectTable(w, c, [])] else tables);
    FinishedGroup(w, c, tables, CorrectTable(w, c, []));
  }

  /** VSIZE of the primary base. */
  function PrimaryVsize(w: World, c: ClassId, bases: seq<ClassTables>): nat
    requires Ordered(w) && c < |w| && |bases| == c
  {
    if w[c].primary.Some? then bases[w[c].decl.bases[w[c].primary.value]].vsize else 0
  }

  lemma {:induction false} PrimarySize(w: World, c: ClassId, bases: seq<ClassTables>, held: seq<Contents>)
    requires Ordered(w) && BasesRight(w, c, held) && |bases| == c
    requires forall b {:trigger bases[b]} :: 0 <= b < c ==> bases[b].vsize == |held[b].table|
    ensures PrimaryVsize(w, c, bases) == |Inherited(w, c)|
  {
  }

  /** A class without virtual functions inherits none. */
  lemma {:induction false} NothingToInherit(w: World, c: ClassId, d: map<Fn, Dispatch>)
    requires AllLaidOut(w) && c < |w|
    ensures !NeedsTable(w, c, []) ==> InheritedCallable(w, c, d)
  {
    if !NeedsTable(w, c, []) && w[c].primary.Some? {
      assert LaidOutInTurn(w, c);
      PolymorphicStable(w[..c], w, w[c].decl.bases[w[c].primary.value]);
      assert false;
    }
  }

  /** TYPE_BINFO of the class. */
  method OwnList(w: World, c: ClassId, group: map<Path, Table>, ghost tables: map<Path, seq<Slot>>) returns (own: Table)
    requires AllLaidOut(w) && c < |w| && Updated(w, c, map[], tables, PathsBelow([])) && group.Keys == tables.Keys
    requires [] in group ==> HoldsFor([], group[[]], tables[[]])
    ensures HoldsFor([], own, CorrectSlots(w, c, [], Inherited(w, c)))
    ensures if [] in group then own == group[[]] else fresh(own) && fresh(own.nodes)
  {
    StartOfTable(w, c, tables);
    if [] in group {
      own := group[[]];
    } else {
      own := NoTable([]);
    }
  }

  /** The primary table is completed; the other lists of the class have nothing to do
      with it. */
  method FinishGroup(w: World, c: ClassId, own: Table, group: map<Path, Table>, fns: Functions,
                     ghost settled: map<Fn, Dispatch>, ghost tables: map<Path, seq<Slot>>, vfuns: nat)
    returns (lists: ClassTables, ghost made: Objects)
    requires AllLaidOut(w) && c < |w| && HoldsFor([], own, CorrectSlots(w, c, [], Inherited(w, c)))
    requires vfuns == |Inherited(w, c)|
    requires group.Keys == tables.Keys && forall q {:trigger group[q]} :: q in group ==> HoldsFor(q, group[q], tables[q])
    requires [] in group ==> group[[]] == own
    requires Underway(w, c, settled, fns.dispatch) && OfOthers(settled, c) && InheritedCallable(w, c, fns.dispatch)
    modifies own, own.nodes, fns
    ensures Callable(w, c + 1, fns.dispatch) && StillCalled(settled, fns.dispatch)
    ensures var table := CorrectTable(w, c, []);
      Kept(made, lists, Contents(table, if [] in tables then tables[[] := table] else tables))
  {
    forall q | q in group && q != []
      ensures group[q] != own && forall n :: n in group[q].nodes ==> n !in own.nodes
    {
      ListsApart(q, [], group[q], own, tables[q], CorrectSlots(w, c, [], Inherited(w, c)));
    }
    var vsize := CompletePrimaryTable(w, c, own, fns, settled, vfuns);
    lists := ClassTables(own, vsize, group);
    made := ObjectsOf(own, group);
    GroupKept(own, vsize, group, CorrectTable(w, c, []), tables);
  }

  lemma {:induction false} GroupKept(own: Table, vsize: nat, group: map<Path, Table>, table: seq<Slot>, tables: map<Path, seq<Slot>>)
    requires HoldsFor([], own, table) && vsize == |table| && group.Keys == tables.Keys && ([] in group ==> group[[]] == own)
    requires forall q {:trigger group[q]} :: q in group && q != [] ==> HoldsFor(q, group[q], tables[q])
    ensures Kept(ObjectsOf(own, group), ClassTables(own, vsize, group), Contents(table, if [] in tables then tables[[] := table] else tables))
  {
    var (made, slots) := (ObjectsOf(own, group), if [] in tables then tables[[] := table] else tables);
    forall q | q in group
      ensures KeptList(made, q, group[q], slots[q])
    {
      assert q == [] || HoldsFor(q, group[q], tables[q]);
    }
  }

  method CompletePrimaryTable(w: World, c: ClassId, own: Table, fns: Functions, ghost settled: map<Fn, Dispatch>, vfuns: nat)
    returns (vsize: nat)
    requires AllLaidOut(w) && c < |w| && HoldsFor([], own, CorrectSlots(w, c, [], Inherited(w, c)))
    requires vfuns == |Inherited(w, c)|
    requires Underway(w, c, settled, fns.dispatch) && OfOthers(settled, c) && InheritedCallable(w, c, fns.dispatch)
    modifies own, own.nodes, fns
    ensures HoldsFor([], own, CorrectTable(w, c, [])) && vsize == |CorrectTable(w, c, [])|
    ensures forall n :: n in own.nodes ==> n in old(own.nodes) || fresh(n)
    ensures Callable(w, c + 1, fns.dispatch) && StillCalled(settled, fns.dispatch)
  {
    var added;
    added, vsize := IndexNew(w, c, own, fns, settled, vfuns);
    AppendEntries(own, c, added, CorrectSlots(w, c, [], Inherited(w, c)));
    OwnTable(w, c, Inherited(w, c));
  }

  /** The new functions get their indices; with them all functions of the class can be
      called. */
  method IndexNew(w: World, c: ClassId, own: Table, fns: Functions, ghost settled: map<Fn, Dispatch>, vfuns: nat)
    returns (added: seq<Sig>, vsize: nat)
    requires AllLaidOut(w) && c < |w| && HoldsFor([], own, CorrectSlots(w, c, [], Inherited(w, c))) && vfuns == |Inherited(w, c)|
    requires Underway(w, c, settled, fns.dispatch) && OfOthers(settled, c) && InheritedCallable(w, c, fns.dispatch)
    modifies fns
    ensures HoldsFor([], own, CorrectSlots(w, c, [], Inherited(w, c)))
    ensures added == NewSigs(Inherited(w, c), w[c].decl.virtuals) && vsize == vfuns + |added|
    ensures Callable(w, c + 1, fns.dispatch) && StillCalled(settled, fns.dispatch)
  {
    DeclaredOnce(w, c);
    added, vsize := AppendNewVirtuals(w, c, own, fns, vfuns);
    NewCallable(w, c, settled, old(fns.dispatch), fns.dispatch);
  }

  /** Entries for the new functions at the end of the list. */
  method AppendEntries(own: Table, c: ClassId, added: seq<Sig>, ghost slots: seq<Slot>)
    requires HoldsFor([], own, slots)
    modifies own, own.nodes
    ensures HoldsFor([], own, slots + NewSlots(c, added))
    ensures forall n :: n in own.nodes ==> n in old(own.nodes) || fresh(n)
  {
    ghost var nodes;
    var head;
    head, nodes := NewEntries(c, added, own);
    own.ChainOn(head, nodes);
  }

  lemma {:induction false} DeclaredOnce(w: World, c: ClassId)
    requires AllLaidOut(w) && c < |w|
    ensures forall i, j :: 0 <= i < j < |w[c].decl.virtuals| ==> w[c].decl.virtuals[i] != w[c].decl.virtuals[j]
  {
    assert LaidOutInTurn(w, c);
  }

  /** The complete types of a translation unit, with their lists; `held` is what the
      lists hold. */
  class Finisher {
    var classes: World
    var lists: seq<ClassTables>
    const fns: Functions
    ghost var held: seq<Contents>
    ghost var repr: Objects

    ghost predicate Valid()
      reads this, fns, repr.binfos, repr.entries
    {
      AllRight(classes, held) && AllKept(repr, lists, held) && Callable(classes, |classes|, fns.dispatch)
    }

    constructor ()
      ensures Valid() && fresh(fns) && classes == []
    {
      classes, lists, held, repr := [], [], [], Objects({}, {});
      fns := new Functions();
    }

    /** `finish_struct_1`: lay the class out, then build its tables; the earlier
        classes and their lists stay as they are. */
    method FinishStruct(d: ClassDecl) returns (root: Binfo)
      requires Valid() && WellFormedDecl(d, |classes|)
      modifies this, fns
      ensures Valid() && |classes| == |old(classes)| + 1
      ensures old(classes) <= classes && old(lists) <= lists && old(held) <= held && StillCalled(old(fns.dispatch), fns.dispatch)
      ensures classes[|classes| - 1].decl == d
      ensures root.Valid() && root.Mirrors(classes) && root.typ == |classes| - 1 && PlacedAt(classes, root, 0)
    {
      var info, binfos;
      ghost var pls;
      info, binfos, pls := LayoutClassType(classes, d);
      LayoutExtends(classes, info, pls);
      root := MakeRoot(classes, info, binfos);
      FinishTables(info);
    }

    method FinishTables(info: ClassInfo)
      requires Valid() && AllLaidOut(classes + [info])
      modifies this, fns
      ensures Valid() && classes == old(classes) + [info] && old(lists) <= lists && old(held) <= held
      ensures StillCalled(old(fns.dispatch), fns.dispatch)
    {
      BaseTablesRight(classes, info, held);
      BasesHold(repr, lists, held);
      StaysCallable(classes, info, fns.dispatch);
      ghost var next, made;
      var own;
      own, next, made := BuildTables(classes + [info], |classes|, lists, fns, fns.dispatch, held);
      AllRightExtends(classes, held, info, next);
      OneMoreKept(repr, lists, held, made, own, next);
      Record(info, own, next, made);
    }

    /** The class is complete. */
    method Record(info: ClassInfo, lists': ClassTables, ghost held': Contents, ghost made: Objects)
      requires AllRight(classes + [info], held + [held']) && AllKept(repr.Plus(made), lists + [lists'], held + [held'])
      requires Callable(classes + [info], |classes| + 1, fns.dispatch)
      modifies this
      ensures Valid() && classes == old(classes) + [info] && lists == old(lists) + [lists'] && held == old(held) + [held']
    {
      classes, lists, held, repr := classes + [info], lists + [lists'], held + [held'], repr.Plus(made);
    }

    /** Any sequence of declarations, each using only earlier ones as bases. */
    method FinishAll(decls: seq<ClassDecl>)
      requires Valid()
      requires forall i :: 0 <= i < |decls| ==> WellFormedDecl(decls[i], |classes| + i)
      modifies this, fns
      ensures Valid() && CompletedIn(classes, old(classes), decls, |decls|) && StillThere(lists, old(lists), held, old(held))
      ensures StillCalled(old(fns.dispatch), fns.dispatch)
    {
      for i := 0 to |decls|
        invariant Valid()
        invariant CompletedIn(classes, old(classes), decls, i) && StillThere(lists, old(lists), held, old(held))
        invariant StillCalled(old(fns.dispatch), fns.dispatch)
      {
        ghost var d := fns.dispatch;
        FinishNext(decls, i, old(classes), old(lists), old(held));
        CalledOn(old(fns.dispatch), d, fns.dispatch);
      }
    }

    method FinishNext(decls: seq<ClassDecl>, i: nat, ghost before: World, ghost listsBefore: seq<ClassTables>, ghost heldBefore: seq<Contents>)
      requires Valid() && i < |decls| && WellFormedDecl(decls[i], |classes|)
      requires CompletedIn(classes, before, decls, i) && StillThere(lists, listsBefore, held, heldBefore)
      modifies this, fns
      ensures Valid() && CompletedIn(classes, before, decls, i + 1) && StillThere(lists, listsBefore, held, heldBefore)
      ensures StillCalled(old(fns.dispatch), fns.dispatch)
    {
      ghost var now, ls, hs := classes, lists, held;
      var root := FinishStruct(decls[i]);
      OneMoreDone(classes, now, before, decls, i);
      KeptOn(lists, ls, listsBefore, held, hs, heldBefore);
    }
  }

  /** The earlier lists are still there, and hold what they held. */
  ghost predicate StillThere(lists: seq<ClassTables>, before: seq<ClassTables>, held: seq<Contents>, heldBefore: seq<Contents>) {
    before <= lists && heldBefore <= held
  }

  lemma {:induction false} KeptOn(l2: seq<ClassTables>, l1: seq<ClassTables>, l0: seq<ClassTables>,
                                  h2: seq<Contents>, h1: seq<Contents>, h0: seq<Contents>)
    requires l1 <= l2 && h1 <= h2 && StillThere(l1, l0, h1, h0)
    ensures StillThere(l2, l0, h2, h0)
  {
  }

  lemma {:induction false} CalledOn(d0: map<Fn, Dispatch>, d1: map<Fn, Dispatch>, d2: map<Fn, Dispatch>)
    requires StillCalled(d0, d1) && StillCalled(d1, d2)
    ensures StillCalled(d0, d2)
  {
    forall f: Fn | f in d0
      ensures f in d2 && d2[f] == d0[f]
    {
      assert f in d1;
    }
  }

  /** The first `n` declarations are completed, after the classes of `before`. */
  ghost predicate CompletedIn(after: World, before: World, decls: seq<ClassDecl>, n: nat) {
    && n <= |decls| && before <= after && |after| == |before| + n
    && forall i :: 0 <= i < n ==> after[|before| + i].decl == decls[i]
  }

  lemma {:induction false} OneMoreDone(after: World, now: World, before: World, decls: seq<ClassDecl>, i: nat)
    requires i < |decls| && CompletedIn(now, before, decls, i)
    requires now <= after && |after| == |now| + 1 && after[|now|].decl == decls[i]
    ensures CompletedIn(after, before, decls, i + 1)
  {
    forall j | 0 <= j <= i
      ensures after[|before| + j].decl == decls[j]
    {
      assert j < i ==> now[|before| + j].decl == decls[j];
    }
  }

  /** What holds after any run: in every class, distinct subobjects of one type
      have distinct addresses, and a virtual call through any subobject reaches
      the final overrider with the right adjustment. */
  lemma {:induction false} FinishedClassesAreRight(w: World, held: seq<Contents>, c: ClassId, p: Path, i: nat)
    requires AllRight(w, held) && ValidPath(w, c, p)
    requires i < |held[TypeAt(w, c, p)].table|
    ensures UniqueAddresses(w, c)
    ensures var s := held[TypeAt(w, c, p)].table[i].fn.sig;
      var r := FinalOverriderPath(w, c, p, s);
      var q := TableOwner(w, c, p);
      var group := held[c].group;
      && q in group && i < |group[q]|
      && Declares(w, TypeAt(w, c, r), s)
      && group[q][i].fn == Fn(TypeAt(w, c, r), s)
      && OffsetAt(w, c, p) + group[q][i].delta == OffsetAt(w, c, r)
  {
    DistinctSubobjectsDistinctAddresses(w, c);
    var b := TypeAt(w, c, p);
    assert TablesRight(w, b, held[b]) && TablesRight(w, c, held[c]);
    DispatchReachesFinalOverrider(w, c, p, i);
    OwnerHasTable(w, c, p);
    assert TableRightAt(w, c, held[c], TableOwner(w, c, p));
  }

  /** A class with slots is polymorphic, and so is the owner of its table. */
  lemma {:induction false} OwnerHasTable(w: World, c: ClassId, p: Path)
    requires AllLaidOut(w) && ValidPath(w, c, p) && Sigs(w, TypeAt(w, c, p)) != []
    ensures NeedsTable(w, c, TableOwner(w, c, p))
  {
    var q := TableOwner(w, c, p);
    var d := OwnerChain(w, c, p);
    PathConcat(w, c, q, d);
    ChainKeepsSigs(w, TypeAt(w, c, q), d);
    if !Polymorphic(w, TypeAt(w, c, q)) {
      NoSlots(w, TypeAt(w, c, q));
    }
  }

  /** Calling through a base of a class that declares the function makes no difference. */
  lemma {:induction false} SameOverrider(w: World, c: ClassId, q: Path, d: Path, s: Sig)
    requires Ordered(w) && ValidPath(w, c, q) && ValidPath(w, TypeAt(w, c, q), d) && Declares(w, TypeAt(w, c, q), s)
    ensures ValidPath(w, c, q + d) && FinalOverriderPath(w, c, q + d, s) == FinalOverriderPath(w, c, q, s)
    decreases c
  {
    PathConcat(w, c, q, d);
    if !Declares(w, c, s) {
      assert (q + d)[1..] == q[1..] + d;
      SameOverrider(w, w[c].decl.bases[q[0]], q[1..], d, s);
    }
  }

  /** What holds after any run: a function can be called by its DECL_VINDEX, once the
      object is converted to its DECL_VIRTUAL_CONTEXT, whichever path leads there.  The
      table that is then used has, in that slot, the final overrider, as seen from the
      class of the function, with the adjustment for the converted object. */
  lemma {:induction false} CallByIndex(w: World, held: seq<Contents>, dispatch: map<Fn, Dispatch>, c: ClassId, q: Path, f: Fn, d: Path)
    requires AllRight(w, held) && Callable(w, |w|, dispatch) && Known(w, f)
    requires LeadsTo(w, c, q, f.cls) && f in dispatch && LeadsTo(w, f.cls, d, dispatch[f].context)
    ensures var (p, r, i) := (q + d, FinalOverriderPath(w, c, q, f.sig), dispatch[f].vindex);
      && ValidPath(w, c, p)
      && var owner := TableOwner(w, c, p);
      var group := held[c].group;
      && owner in group && i < |group[owner]|
      && Declares(w, TypeAt(w, c, r), f.sig) && group[owner][i].fn == Fn(TypeAt(w, c, r), f.sig)
      && OffsetAt(w, c, p) + group[owner][i].delta == OffsetAt(w, c, r)
  {
    var (p, b, i) := (q + d, dispatch[f].context, dispatch[f].vindex);
    assert CallableAt(w, |w|, dispatch, f);
    PathConcat(w, c, q, d);
    SameOverrider(w, c, q, d, f.sig);
    assert TablesRight(w, b, held[b]);
    assert held[b].table[i].fn.sig == f.sig;
    FinishedClassesAreRight(w, held, c, p, i);
  }

  /** Every declared virtual function has such an index and such a context. */
  lemma {:induction false} EveryFunctionCallable(w: World, dispatch: map<Fn, Dispatch>, f: Fn) returns (d: Path)
    requires Ordered(w) && Callable(w, |w|, dispatch) && Known(w, f)
    ensures f in dispatch && LeadsTo(w, f.cls, d, dispatch[f].context)
    ensures d == [] <==> f.sig !in Inherited(w, f.cls)
  {
    assert CallableAt(w, |w|, dispatch, f);
    d :| LeadsTo(w, f.cls, d, dispatch[f].context);
  }
}
