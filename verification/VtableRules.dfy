/** What the virtual function tables of a class must hold, and what a call
    through any of its subobjects then reaches (section 2.5 of the Itanium C++ ABI,
    section 10.3 of ISO/IEC 14882:1998). */
module VtableRules {
  import opened Hierarchy
  import opened LayoutRules
  import opened LayoutTheorem

  /** An entry of a BINFO_VIRTUALS list: BV_FN and BV_DELTA. */
  datatype Slot = Slot(fn: Fn, delta: int)

  /** What the lists of a class hold: its own table, and those of its subobjects. */
  datatype Contents = Contents(table: seq<Slot>, group: map<Path, seq<Slot>>)

  /** `look_for_overrides_here`. */
  predicate Declares(w: World, c: ClassId, s: Sig)
    requires c < |w|
  {
    s in w[c].decl.virtuals
  }

  /** `c` or a class on its chain of primary bases declares `s`. */
  predicate HasVirtual(w: World, c: ClassId, s: Sig)
    requires Ordered(w) && c < |w|
    decreases c
  {
    Declares(w, c, s) || (w[c].primary.Some? && HasVirtual(w, w[c].decl.bases[w[c].primary.value], s))
  }

  /** The subobject of a `c` object whose function a call of `s` through the
      subobject `p` must reach: the outermost one around `p` that declares `s`, or
      failing that the one from which `p` itself has `s`. */
  function FinalOverriderPath(w: World, c: ClassId, p: Path, s: Sig): (r: Path)
    requires Ordered(w) && ValidPath(w, c, p)
    ensures ValidPath(w, c, r)
    decreases c
  {
    if Declares(w, c, s) then []
    else if p != [] then
      var r := FinalOverriderPath(w, w[c].decl.bases[p[0]], p[1..], s);
      assert ([p[0]] + r)[1..] == r;
      [p[0]] + r
    else if w[c].primary.Some? then
      var k := w[c].primary.value;
      var r := FinalOverriderPath(w, w[c].decl.bases[k], [], s);
      assert ([k] + r)[1..] == r;
      [k] + r
    else []
  }

  /** The slot for `s` in the table of the subobject `p`: the final overrider and
      the distance to it. */
  function CorrectSlot(w: World, c: ClassId, p: Path, s: Sig): Slot
    requires Ordered(w) && ValidPath(w, c, p)
  {
    var r := FinalOverriderPath(w, c, p, s);
    Slot(Fn(TypeAt(w, c, r), s), OffsetAt(w, c, r) - OffsetAt(w, c, p))
  }

  /** The signatures in the primary table of `c`: those of the primary base, then
      the functions declared in `c` that are not among them. */
  function Sigs(w: World, c: ClassId): seq<Sig>
    requires Ordered(w) && c < |w|
    decreases c
  {
    var inherited := if w[c].primary.Some? then Sigs(w, w[c].decl.bases[w[c].primary.value]) else [];
    inherited + NewSigs(inherited, w[c].decl.virtuals)
  }

  /** The signatures that a class starts from: the table of its primary base. */
  function Inherited(w: World, c: ClassId): seq<Sig>
    requires Ordered(w) && c < |w|
  {
    if w[c].primary.Some? then Sigs(w, w[c].decl.bases[w[c].primary.value]) else []
  }

  function NewSigs(inherited: seq<Sig>, declared: seq<Sig>): (r: seq<Sig>)
    ensures forall s :: s in r <==> s in declared && s !in inherited
  {
    if declared == [] then []
    else
      var n := |declared| - 1;
      NewSigs(inherited, declared[..n]) + if declared[n] in inherited then [] else [declared[n]]
  }

  /** The table of the subobject `p` of `c`, slot by slot. */
  function CorrectTable(w: World, c: ClassId, p: Path): seq<Slot>
    requires Ordered(w) && ValidPath(w, c, p)
  {
    CorrectSlots(w, c, p, Sigs(w, TypeAt(w, c, p)))
  }

  function CorrectSlots(w: World, c: ClassId, p: Path, sigs: seq<Sig>): (t: seq<Slot>)
    requires Ordered(w) && ValidPath(w, c, p)
    ensures |t| == |sigs| && forall i :: 0 <= i < |t| ==> t[i] == CorrectSlot(w, c, p, sigs[i])
  {
    seq(|sigs|, i requires 0 <= i < |sigs| => CorrectSlot(w, c, p, sigs[i]))
  }

  /** Entries for functions declared in `c`: no adjustment. */
  function NewSlots(c: ClassId, sigs: seq<Sig>): (t: seq<Slot>)
    ensures |t| == |sigs| && forall i :: 0 <= i < |t| ==> t[i] == Slot(Fn(c, sigs[i]), 0)
  {
    seq(|sigs|, i requires 0 <= i < |sigs| => Slot(Fn(c, sigs[i]), 0))
  }

  /** BINFO_PRIMARY_P: the subobject shares the table of the one it is in. */
  predicate IsPrimaryBase(w: World, c: ClassId, p: Path)
    requires Ordered(w) && ValidPath(w, c, p)
  {
    p != [] && (
      var n := |p| - 1;
      assert p == p[..n] + [p[n]];
      PathSplit(w, c, p[..n], [p[n]]);
      w[TypeAt(w, c, p[..n])].primary == Some(p[n]))
  }

  /** The subobject whose table a call through `p` uses. */
  function TableOwner(w: World, c: ClassId, p: Path): (q: Path)
    requires Ordered(w) && ValidPath(w, c, p)
    ensures ValidPath(w, c, q) && !IsPrimaryBase(w, c, q)
    decreases |p|
  {
    if IsPrimaryBase(w, c, p) then
      var n := |p| - 1;
      assert p == p[..n] + [p[n]];
      PathSplit(w, c, p[..n], [p[n]]);
      TableOwner(w, c, p[..n])
    else p
  }

  lemma {:induction false} SigsAreVirtuals(w: World, c: ClassId, s: Sig)
    requires Ordered(w) && c < |w|
    ensures s in Sigs(w, c) <==> HasVirtual(w, c, s)
    decreases c
  {
    if w[c].primary.Some? {
      SigsAreVirtuals(w, w[c].decl.bases[w[c].primary.value], s);
    }
  }

  /** The final overrider declares the function. */
  lemma {:induction false} OverriderDeclares(w: World, c: ClassId, p: Path, s: Sig)
    requires Ordered(w) && ValidPath(w, c, p) && HasVirtual(w, TypeAt(w, c, p), s)
    ensures Declares(w, TypeAt(w, c, FinalOverriderPath(w, c, p, s)), s)
    decreases c
  {
    var r := FinalOverriderPath(w, c, p, s);
    if !Declares(w, c, s) {
      if p != [] {
        OverriderDeclares(w, w[c].decl.bases[p[0]], p[1..], s);
      } else {
        OverriderDeclares(w, w[c].decl.bases[w[c].primary.value], [], s);
      }
      assert r[1..] == FinalOverriderPath(w, w[c].decl.bases[r[0]], if p != [] then p[1..] else [], s);
    }
  }

  /** Every step goes to a primary base. */
  predicate PrimaryChain(w: World, c: ClassId, d: Path)
    requires Ordered(w) && ValidPath(w, c, d)
    decreases |d|
  {
    d == [] || (w[c].primary == Some(d[0]) && PrimaryChain(w, w[c].decl.bases[d[0]], d[1..]))
  }

  /** Independent reading of `FinalOverriderPath`: nothing around it declares the
      function. */
  lemma {:induction false} OverriderIsOutermost(w: World, c: ClassId, p: Path, s: Sig, k: nat)
    requires Ordered(w) && ValidPath(w, c, p) && k < |FinalOverriderPath(w, c, p, s)|
    ensures var q := FinalOverriderPath(w, c, p, s)[..k];
      ValidPath(w, c, q) && !Declares(w, TypeAt(w, c, q), s)
    decreases c
  {
    var r := FinalOverriderPath(w, c, p, s);
    if k > 0 {
      var tail := if p != [] then p[1..] else [];
      assert r[1..] == FinalOverriderPath(w, w[c].decl.bases[r[0]], tail, s);
      assert r[..k][1..] == r[1..][..k - 1];
      OverriderIsOutermost(w, w[c].decl.bases[r[0]], tail, s, k - 1);
    }
  }

  /** It lies around `p`, or on the chain of primary bases below `p`. */
  lemma {:induction false} OverriderIsOnPath(w: World, c: ClassId, p: Path, s: Sig)
    requires Ordered(w) && ValidPath(w, c, p)
    ensures var r := FinalOverriderPath(w, c, p, s);
      r <= p || (p <= r && ValidPath(w, TypeAt(w, c, p), r[|p|..]) && PrimaryChain(w, TypeAt(w, c, p), r[|p|..]))
    decreases c
  {
    var r := FinalOverriderPath(w, c, p, s);
    if r != [] {
      var tail := if p != [] then p[1..] else [];
      assert r[1..] == FinalOverriderPath(w, w[c].decl.bases[r[0]], tail, s);
      OverriderIsOnPath(w, w[c].decl.bases[r[0]], tail, s);
      if p == [] {
        assert r[0..] == r && r[1..][0..] == r[1..];
        assert PrimaryChain(w, w[c].decl.bases[r[0]], r[1..]);
      } else {
        assert r == [p[0]] + r[1..] && p == [p[0]] + tail;
        SamePrefix(p[0], r[1..], tail);
        SamePrefix(p[0], tail, r[1..]);
      }
    }
  }

  lemma {:induction false} SamePrefix(x: nat, a: Path, b: Path)
    ensures [x] + a <= [x] + b <==> a <= b
    ensures a <= b ==> ([x] + b)[|[x] + a|..] == b[|a|..]
  {
    assert ([x] + a)[1..] == a && ([x] + b)[1..] == b;
  }

  /** A primary base is at the address of the object it is in. */
  lemma {:induction false} PrimaryChainAtZero(w: World, c: ClassId, d: Path)
    requires AllLaidOut(w) && ValidPath(w, c, d) && PrimaryChain(w, c, d)
    ensures OffsetAt(w, c, d) == 0
    decreases |d|
  {
    if d != [] {
      assert LaidOutInTurn(w, c);
      PrimaryAtZero(w[..c], w[c]);
      PrimaryChainAtZero(w, w[c].decl.bases[d[0]], d[1..]);
    }
  }

  lemma {:induction false} ChainExtend(w: World, c: ClassId, d: Path, k: nat)
    requires Ordered(w) && ValidPath(w, c, d) && PrimaryChain(w, c, d) && w[TypeAt(w, c, d)].primary == Some(k)
    ensures ValidPath(w, c, d + [k]) && PrimaryChain(w, c, d + [k])
    decreases |d|
  {
    if d != [] {
      ChainExtend(w, w[c].decl.bases[d[0]], d[1..], k);
      assert (d + [k])[1..] == d[1..] + [k];
    } else {
      assert (d + [k])[1..] == [];
    }
  }

  /** A subobject is reached from the owner of its table by primary steps. */
  lemma {:induction false} OwnerChain(w: World, c: ClassId, p: Path) returns (d: Path)
    requires Ordered(w) && ValidPath(w, c, p)
    ensures p == TableOwner(w, c, p) + d
    ensures ValidPath(w, TypeAt(w, c, TableOwner(w, c, p)), d) && PrimaryChain(w, TypeAt(w, c, TableOwner(w, c, p)), d)
    decreases |p|
  {
    d := [];
    if IsPrimaryBase(w, c, p) {
      var n := |p| - 1;
      assert p == p[..n] + [p[n]];
      PathSplit(w, c, p[..n], [p[n]]);
      var q := TableOwner(w, c, p[..n]);
      d := OwnerChain(w, c, p[..n]);
      PathConcat(w, c, q, d);
      ChainExtend(w, TypeAt(w, c, q), d, p[n]);
      assert q + (d + [p[n]]) == p;
      d := d + [p[n]];
    }
  }

  /** Going on to primary bases changes neither the slots in common nor the final
      overriders. */
  lemma {:induction false} ChainKeepsSigs(w: World, c: ClassId, d: Path)
    requires Ordered(w) && ValidPath(w, c, d) && PrimaryChain(w, c, d)
    ensures Sigs(w, TypeAt(w, c, d)) <= Sigs(w, c)
    decreases |d|
  {
    if d != [] {
      ChainKeepsSigs(w, w[c].decl.bases[d[0]], d[1..]);
    }
  }

  lemma {:induction false} ChainKeepsOverrider(w: World, c: ClassId, q: Path, d: Path, s: Sig)
    requires Ordered(w) && ValidPath(w, c, q) && ValidPath(w, TypeAt(w, c, q), d) && PrimaryChain(w, TypeAt(w, c, q), d)
    ensures ValidPath(w, c, q + d) && FinalOverriderPath(w, c, q + d, s) == FinalOverriderPath(w, c, q, s)
    decreases c
  {
    PathConcat(w, c, q, d);
    if q != [] {
      ChainKeepsOverrider(w, w[c].decl.bases[q[0]], q[1..], d, s);
      assert (q + d)[1..] == q[1..] + d;
    } else if d != [] {
      assert q + d == d;
      ChainKeepsOverrider(w, w[c].decl.bases[d[0]], [], d[1..], s);
      assert [] + d[1..] == d[1..];
    }
  }

  /** Virtual dispatch agrees with overriding.  For every subobject `p` of a `c`
      object and every slot of the table that its own class has, the table that is
      really used through `p` holds in that slot the final overrider, declared by
      an outermost class around `p`, and the adjustment that takes a pointer to `p`
      to the subobject the function expects. */
  lemma {:induction false} DispatchReachesFinalOverrider(w: World, c: ClassId, p: Path, i: nat)
    requires AllLaidOut(w) && ValidPath(w, c, p) && i < |Sigs(w, TypeAt(w, c, p))|
    ensures var s := Sigs(w, TypeAt(w, c, p))[i];
      var r := FinalOverriderPath(w, c, p, s);
      var table := CorrectTable(w, c, TableOwner(w, c, p));
      && i < |table|
      && Declares(w, TypeAt(w, c, r), s) && table[i].fn == Fn(TypeAt(w, c, r), s)
      && OffsetAt(w, c, p) + table[i].delta == OffsetAt(w, c, r)
  {
    var q := TableOwner(w, c, p);
    var d := OwnerChain(w, c, p);
    var s := Sigs(w, TypeAt(w, c, p))[i];
    PathConcat(w, c, q, d);
    PrimaryChainAtZero(w, TypeAt(w, c, q), d);
    ChainKeepsSigs(w, TypeAt(w, c, q), d);
    ChainKeepsOverrider(w, c, q, d, s);
    SigsAreVirtuals(w, TypeAt(w, c, p), s);
    OverriderDeclares(w, c, p, s);
  }

  /** The subobjects that get a table of their own. */
  predicate NeedsTable(w: World, c: ClassId, p: Path)
    requires Ordered(w) && ValidPath(w, c, p)
  {
    Polymorphic(w, TypeAt(w, c, p)) && !IsPrimaryBase(w, c, p)
  }

  /** The table of the class itself is right, and `group` holds the right table for
      every subobject that needs one, and no other. */
  ghost predicate TablesRight(w: World, c: ClassId, held: Contents)
    requires Ordered(w) && c < |w|
  {
    && held.table == CorrectTable(w, c, [])
    && forall q: Path {:trigger TableRightAt(w, c, held, q)} :: TableRightAt(w, c, held, q)
  }

  ghost predicate TableRightAt(w: World, c: ClassId, held: Contents, q: Path)
    requires Ordered(w) && c < |w|
  {
    && (q in held.group <==> ValidPath(w, c, q) && NeedsTable(w, c, q))
    && (q in held.group ==> held.group[q] == CorrectTable(w, c, q))
  }

  /** Completing further classes leaves the earlier tables right. */
  lemma {:induction false} SigsStable(w: World, w': World, c: ClassId)
    requires Ordered(w) && Ordered(w') && c < |w| <= |w'| && w'[..|w|] == w
    ensures Sigs(w', c) == Sigs(w, c)
    decreases c
  {
    assert w'[c] == w[c];
    if w[c].primary.Some? {
      SigsStable(w, w', w[c].decl.bases[w[c].primary.value]);
    }
  }

  lemma {:induction false} PolymorphicStable(w: World, w': World, c: ClassId)
    requires Ordered(w) && Ordered(w') && c < |w| <= |w'| && w'[..|w|] == w
    ensures Polymorphic(w', c) == Polymorphic(w, c)
    decreases c
  {
    assert w'[c] == w[c];
    forall i | 0 <= i < |w[c].decl.bases|
      ensures Polymorphic(w', w[c].decl.bases[i]) == Polymorphic(w, w[c].decl.bases[i])
    {
      PolymorphicStable(w, w', w[c].decl.bases[i]);
    }
  }

  lemma {:induction false} OverriderStable(w: World, w': World, c: ClassId, p: Path, s: Sig)
    requires Ordered(w) && Ordered(w') && c < |w| <= |w'| && w'[..|w|] == w
    requires ValidPath(w, c, p) && ValidPath(w', c, p)
    ensures FinalOverriderPath(w', c, p, s) == FinalOverriderPath(w, c, p, s)
    decreases c
  {
    assert w'[c] == w[c];
    if !Declares(w, c, s) {
      if p != [] {
        OverriderStable(w, w', w[c].decl.bases[p[0]], p[1..], s);
      } else if w[c].primary.Some? {
        OverriderStable(w, w', w[c].decl.bases[w[c].primary.value], [], s);
      }
    }
  }

  lemma {:induction false} TableStable(w: World, w': World, c: ClassId, p: Path)
    requires Ordered(w) && Ordered(w') && c < |w| <= |w'| && w'[..|w|] == w && ValidPath(w, c, p)
    ensures ValidPath(w', c, p) && CorrectTable(w', c, p) == CorrectTable(w, c, p)
  {
    PathsStable(w, w', c, p);
    SigsStable(w, w', TypeAt(w, c, p));
    forall s
      ensures CorrectSlot(w', c, p, s) == CorrectSlot(w, c, p, s)
    {
      OverriderStable(w, w', c, p, s);
      PathsStable(w, w', c, FinalOverriderPath(w, c, p, s));
    }
  }

  lemma {:induction false} NeedsTableStable(w: World, w': World, c: ClassId, p: Path)
    requires Ordered(w) && Ordered(w') && c < |w| <= |w'| && w'[..|w|] == w && ValidPath(w, c, p)
    ensures ValidPath(w', c, p) && NeedsTable(w', c, p) == NeedsTable(w, c, p)
  {
    PathsStable(w, w', c, p);
    PolymorphicStable(w, w', TypeAt(w, c, p));
    if p != [] {
      var n := |p| - 1;
      assert p == p[..n] + [p[n]];
      PathSplit(w, c, p[..n], [p[n]]);
      PathsStable(w, w', c, p[..n]);
    }
  }

  lemma {:induction false} TablesStayRight(w: World, w': World, c: ClassId, held: Contents)
    requires Ordered(w) && Ordered(w') && c < |w| <= |w'| && w'[..|w|] == w
    requires TablesRight(w, c, held)
    ensures TablesRight(w', c, held)
  {
    TableStable(w, w', c, []);
    forall q: Path
      ensures TableRightAt(w', c, held, q)
    {
      assert TableRightAt(w, c, held, q);
      PathsStable(w, w', c, q);
      if ValidPath(w, c, q) {
        NeedsTableStable(w, w', c, q);
        TableStable(w, w', c, q);
      }
    }
  }

  /** A class whose bases have right tables: the slots it inherits and the new
      ones make up its own table. */
  lemma {:induction false} OwnTable(w: World, c: ClassId, inherited: seq<Sig>)
    requires Ordered(w) && c < |w|
    requires inherited == if w[c].primary.Some? then Sigs(w, w[c].decl.bases[w[c].primary.value]) else []
    ensures CorrectTable(w, c, []) ==
      CorrectSlots(w, c, [], inherited) + NewSlots(c, NewSigs(inherited, w[c].decl.virtuals))
  {
    var added := NewSigs(inherited, w[c].decl.virtuals);
    var table, parts := CorrectTable(w, c, []), CorrectSlots(w, c, [], inherited) + NewSlots(c, added);
    assert Sigs(w, c) == inherited + added;
    forall i | 0 <= i < |table|
      ensures table[i] == parts[i]
    {
      if i >= |inherited| {
        OwnSlot(w, c, inherited, i - |inherited|);
      }
    }
  }

  lemma {:induction false} OwnSlot(w: World, c: ClassId, inherited: seq<Sig>, i: nat)
    requires Ordered(w) && c < |w| && i < |NewSigs(inherited, w[c].decl.virtuals)|
    ensures var s := NewSigs(inherited, w[c].decl.virtuals)[i];
      CorrectSlot(w, c, [], s) == Slot(Fn(c, s), 0)
  {
    assert NewSigs(inherited, w[c].decl.virtuals)[i] in NewSigs(inherited, w[c].decl.virtuals);
  }

  /** A class that is not polymorphic has no slots. */
  lemma {:induction false} NoSlots(w: World, c: ClassId)
    requires AllLaidOut(w) && c < |w| && !Polymorphic(w, c)
    ensures Sigs(w, c) == []
    decreases c
  {
    assert LaidOutInTurn(w, c);
    if w[c].primary.Some? {
      NoSlots(w, w[c].decl.bases[w[c].primary.value]);
    }
    assert NewSigs([], []) == [];
  }
}
