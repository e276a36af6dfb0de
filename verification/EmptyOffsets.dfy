/** The table of empty subobjects that a layout in progress keeps, and the walk
    that fills it and looks for conflicts in it. */
module EmptyOffsets {
  import opened Hierarchy

  datatype Place = Place(cls: ClassId, offset: nat)

  /** The empty subobjects, direct and indirect, of a `c` object at `o`. */
  function EmptySubobjects(w: World, c: ClassId, o: nat): set<Place>
    requires Ordered(w) && c < |w|
    decreases c, |w[c].decl.bases| + 1
  {
    (if IsEmptyClass(w, c) then {Place(c, o)} else {}) + EmptyInBases(w, c, o, |w[c].decl.bases|)
  }

  /** The part of `EmptySubobjects` that lies in the first `k` direct bases. */
  function EmptyInBases(w: World, c: ClassId, o: nat, k: nat): set<Place>
    requires Ordered(w) && c < |w| && k <= |w[c].decl.bases|
    decreases c, k
  {
    if k == 0 then {}
    else EmptyInBases(w, c, o, k - 1) + EmptySubobjects(w, w[c].decl.bases[k - 1], o + w[c].offsets[k - 1])
  }

  /** Path `p` leads from a `c` object at `o` to an empty subobject at `pl`. */
  ghost predicate EmptyPath(w: World, c: ClassId, o: nat, p: Path, pl: Place)
    requires Ordered(w)
  {
    ValidPath(w, c, p) && IsEmptyClass(w, TypeAt(w, c, p)) && pl == Place(TypeAt(w, c, p), o + OffsetAt(w, c, p))
  }

  /** Independent reading of `EmptySubobjects`: exactly the paths that end in an
      empty class, at their offsets. */
  lemma {:induction false} EmptySubobjectsAreEmptyPaths(w: World, c: ClassId, o: nat, pl: Place)
    requires Ordered(w) && c < |w|
    ensures pl in EmptySubobjects(w, c, o) <==> exists p :: EmptyPath(w, c, o, p, pl)
    decreases c
  {
    if pl in EmptySubobjects(w, c, o) {
      if pl in EmptyInBases(w, c, o, |w[c].decl.bases|) {
        var i := FindBase(w, c, o, |w[c].decl.bases|, pl);
        var b, bo := w[c].decl.bases[i], o + w[c].offsets[i];
        EmptySubobjectsAreEmptyPaths(w, b, bo, pl);
        var p :| EmptyPath(w, b, bo, p, pl);
        assert ([i] + p)[1..] == p;
        assert EmptyPath(w, c, o, [i] + p, pl);
      } else {
        assert EmptyPath(w, c, o, [], pl);
      }
    }
    forall p | EmptyPath(w, c, o, p, pl)
      ensures pl in EmptySubobjects(w, c, o)
    {
      if p != [] {
        var b, bo := w[c].decl.bases[p[0]], o + w[c].offsets[p[0]];
        EmptySubobjectsAreEmptyPaths(w, b, bo, pl);
        assert EmptyPath(w, b, bo, p[1..], pl);
        InBases(w, c, o, |w[c].decl.bases|, p[0]);
      }
    }
  }

  lemma {:induction false} InBases(w: World, c: ClassId, o: nat, k: nat, i: nat)
    requires Ordered(w) && c < |w| && i < k <= |w[c].decl.bases|
    ensures EmptySubobjects(w, w[c].decl.bases[i], o + w[c].offsets[i]) <= EmptyInBases(w, c, o, k)
    decreases k
  {
    if i < k - 1 {
      InBases(w, c, o, k - 1, i);
    }
  }

  lemma {:induction false} FindBase(w: World, c: ClassId, o: nat, k: nat, pl: Place) returns (i: nat)
    requires Ordered(w) && c < |w| && k <= |w[c].decl.bases| && pl in EmptyInBases(w, c, o, k)
    ensures i < k && pl in EmptySubobjects(w, w[c].decl.bases[i], o + w[c].offsets[i])
    decreases k
  {
    if pl in EmptyInBases(w, c, o, k - 1) {
      i := FindBase(w, c, o, k - 1, pl);
    } else {
      i := k - 1;
    }
  }

  /** No subobject lies before the object that holds it. */
  lemma {:induction false} NoneBefore(w: World, c: ClassId, o: nat, pl: Place)
    requires Ordered(w) && c < |w| && pl in EmptySubobjects(w, c, o)
    ensures o <= pl.offset
    decreases c
  {
    if pl in EmptyInBases(w, c, o, |w[c].decl.bases|) {
      var i := FindBase(w, c, o, |w[c].decl.bases|, pl);
      NoneBefore(w, w[c].decl.bases[i], o + w[c].offsets[i], pl);
    }
  }

  /** A `c` object at `o` would put an empty subobject where one of the same class
      is already taken. */
  ghost predicate Clash(w: World, c: ClassId, o: nat, taken: set<Place>)
    requires Ordered(w) && c < |w|
  {
    EmptySubobjects(w, c, o) * taken != {}
  }

  /** What the walk does at each subobject: `record_subobject_offset` or
      `check_subobject_offset`. */
  datatype Visitor = Record | Check

  ghost predicate Beyond(places: set<Place>, maxOffset: Option<nat>) {
    forall pl :: pl in places ==> maxOffset.Some? && maxOffset.value < pl.offset
  }

  /** What a walk over the places `seen` does: recording adds them; checking changes
      nothing, and finds a clash if there is one up to the largest offset. */
  ghost predicate Walked(f: Visitor, r: bool, before: set<Place>, after: set<Place>, seen: set<Place>, maxOffset: Option<nat>) {
    match f
    case Record => !r && after == before + seen
    case Check => after == before && if r then seen * after != {} else Beyond(seen * after, maxOffset)
  }

  lemma {:induction false} WalkedOn(f: Visitor, r: bool, before: set<Place>, mid: set<Place>, after: set<Place>,
                                    seen: set<Place>, more: set<Place>, maxOffset: Option<nat>)
    requires Walked(f, false, before, mid, seen, maxOffset) && Walked(f, r, mid, after, more, maxOffset)
    ensures Walked(f, r, before, after, seen + more, maxOffset)
  {
    if f.Check? && r {
      var pl :| pl in more * after;
      assert pl in (seen + more) * after;
    } else if f.Check? {
      assert (seen + more) * after == seen * after + more * after;
    }
  }

  lemma {:induction false} WalkedWithin(before: set<Place>, after: set<Place>, seen: set<Place>, all: set<Place>, maxOffset: Option<nat>)
    requires Walked(Check, true, before, after, seen, maxOffset) && seen <= all
    ensures Walked(Check, true, before, after, all, maxOffset)
  {
    var pl :| pl in seen * after;
    assert pl in all * after;
  }

  lemma {:induction false} AllBeyond(w: World, c: ClassId, o: nat, max: nat)
    requires Ordered(w) && c < |w| && max < o
    ensures Beyond(EmptySubobjects(w, c, o), Some(max))
  {
    forall pl | pl in EmptySubobjects(w, c, o)
      ensures max < pl.offset
    {
      NoneBefore(w, c, o, pl);
    }
  }

  lemma {:induction false} OneMoreBase(w: World, c: ClassId, o: nat, i: nat, here: set<Place>)
    requires Ordered(w) && c < |w| && i < |w[c].decl.bases|
    ensures here + EmptyInBases(w, c, o, i) + EmptySubobjects(w, w[c].decl.bases[i], o + w[c].offsets[i])
      == here + EmptyInBases(w, c, o, i + 1)
  {
  }

  /** The splay tree from offsets to the list of empty classes found there. */
  class OffsetTable {
    var entries: map<nat, seq<ClassId>>

    ghost function Places(): (s: set<Place>)
      reads this
      ensures forall pl :: pl in s <==> pl.offset in entries && pl.cls in entries[pl.offset]
    {
      set o, c | o in entries && c in entries[o] :: Place(c, o)
    }

    constructor ()
      ensures Places() == {}
    {
      entries := map[];
    }

    method RecordSubobjectOffset(w: World, c: ClassId, o: nat)
      requires Ordered(w) && c < |w|
      modifies this
      ensures Places() == old(Places()) + (if IsEmptyClass(w, c) then {Place(c, o)} else {})
    {
      if IsEmptyClass(w, c) {
        entries := entries[o := [c] + (if o in entries then entries[o] else [])];
      }
    }

    method CheckSubobjectOffset(w: World, c: ClassId, o: nat) returns (found: bool)
      requires Ordered(w) && c < |w|
      ensures found == (IsEmptyClass(w, c) && Place(c, o) in Places())
    {
      if !IsEmptyClass(w, c) || o !in entries {
        return false;
      }
      for i := 0 to |entries[o]|
        invariant c !in entries[o][..i]
      {
        if entries[o][i] == c {
          return true;
        }
      }
      assert entries[o][..|entries[o]|] == entries[o];
      return false;
    }

    /** `walk_subobject_offsets`: visits the subobjects of a `c` object at `o`,
        skipping those beyond `maxOffset`, and stops at the first visit that
        finds a conflict. */
    method WalkSubobjectOffsets(w: World, c: ClassId, f: Visitor, o: nat, maxOffset: Option<nat>) returns (r: bool)
      requires Ordered(w) && c < |w|
      requires f.Record? ==> maxOffset.None?
      modifies this
      ensures Walked(f, r, old(Places()), Places(), EmptySubobjects(w, c, o), maxOffset)
      ensures f.Check? ==> entries == old(entries)
      decreases c
    {
      if maxOffset.Some? && maxOffset.value < o {
        AllBeyond(w, c, o, maxOffset.value);
        return false;
      }
      r := VisitSelf(w, c, f, o, maxOffset);
      ghost var here := if IsEmptyClass(w, c) then {Place(c, o)} else {};
      if r {
        WalkedWithin(old(Places()), Places(), here, EmptySubobjects(w, c, o), maxOffset);
        return true;
      }
      for i := 0 to |w[c].decl.bases|
        invariant !r && Walked(f, r, old(Places()), Places(), here + EmptyInBases(w, c, o, i), maxOffset)
        invariant f.Check? ==> entries == old(entries)
      {
        ghost var mid := Places();
        r := WalkSubobjectOffsets(w, w[c].decl.bases[i], f, o + w[c].offsets[i], maxOffset);
        ghost var inner := EmptySubobjects(w, w[c].decl.bases[i], o + w[c].offsets[i]);
        WalkedOn(f, r, old(Places()), mid, Places(), here + EmptyInBases(w, c, o, i), inner, maxOffset);
        OneMoreBase(w, c, o, i, here);
        if r {
          InBases(w, c, o, |w[c].decl.bases|, i);
          WalkedWithin(mid, Places(), inner, EmptySubobjects(w, c, o), maxOffset);
          return true;
        }
      }
    }

    /** The visitor at one subobject. */
    method VisitSelf(w: World, c: ClassId, f: Visitor, o: nat, ghost maxOffset: Option<nat>) returns (r: bool)
      requires Ordered(w) && c < |w|
      modifies this
      ensures Walked(f, r, old(Places()), Places(), if IsEmptyClass(w, c) then {Place(c, o)} else {}, maxOffset)
      ensures f.Check? ==> entries == old(entries)
    {
      if f.Record? {
        RecordSubobjectOffset(w, c, o);
        r := false;
      } else {
        r := CheckSubobjectOffset(w, c, o);
        assert r ==> Place(c, o) in {Place(c, o)} * Places();
      }
    }

    method RecordSubobjectOffsets(w: World, c: ClassId, o: nat)
      requires Ordered(w) && c < |w|
      modifies this
      ensures Places() == old(Places()) + EmptySubobjects(w, c, o)
    {
      var _ := WalkSubobjectOffsets(w, c, Record, o, None);
    }

    /** `splay_tree_max`: the largest offset recorded so far. */
    method SplayTreeMax() returns (m: Option<nat>)
      ensures m.None? <==> entries == map[]
      ensures m.Some? ==> m.value in entries && forall o :: o in entries ==> o <= m.value
    {
      m := None;
      var rest := entries.Keys;
      while rest != {}
        invariant rest <= entries.Keys
        invariant m.None? <==> rest == entries.Keys
        invariant m.Some? ==> m.value in entries && forall o :: o in entries && o !in rest ==> o <= m.value
        decreases |rest|
      {
        var o :| o in rest;
        m := Some(if m.Some? && o <= m.value then m.value else o);
        rest := rest - {o};
      }
    }

    /** Whether placing a `c` object at `o` would put two empty subobjects of
        one class at the same address. */
    method LayoutConflictP(w: World, c: ClassId, o: nat) returns (r: bool)
      requires Ordered(w) && c < |w|
      modifies this
      ensures entries == old(entries)
      ensures r == Clash(w, c, o, Places())
    {
      var m := SplayTreeMax();
      if m.None? {
        return false;
      }
      r := WalkSubobjectOffsets(w, c, Check, o, m);
    }
  }
}
