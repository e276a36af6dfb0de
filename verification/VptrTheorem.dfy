/** Where virtual table pointers are: subobjects with tables of their own are at different
    addresses, so that each object finds the table meant for it. */
module VptrTheorem {
  import opened Hierarchy
  import opened LayoutRules
  import opened VtableRules
  import opened AlignmentTheorem
  import LayoutTheorem

  lemma {:induction false} PolymorphicTakesRoom(w: World, c: ClassId)
    requires AllLaidOut(w) && c < |w| && Polymorphic(w, c)
    ensures !IsEmptyClass(w, c)
    decreases c
  {
    VptrAtZero(w, c);
    EmptyMeansNothing(w, c);
    if !OwnVptr(w, c) {
      var i :| 0 <= i < |w[c].decl.bases| && FirstPolymorphic(w, c, i);
      PolymorphicTakesRoom(w, w[c].decl.bases[i]);
    }
  }

  /** A polymorphic subobject begins at a byte of the direct base that it is in. */
  lemma {:induction false} BeginsInBase(w: World, c: ClassId, p: Path)
    requires AllLaidOut(w) && ValidPath(w, c, p) && p != [] && Polymorphic(w, TypeAt(w, c, p))
    ensures var (b, o) := (w[c].decl.bases[p[0]], w[c].offsets[p[0]]);
      !IsEmptyClass(w, b) && o <= OffsetAt(w, c, p) < o + w[b].nvsize
  {
    PolymorphicTakesRoom(w, TypeAt(w, c, p));
    LayoutTheorem.LaidOutNested(w, w[c].decl.bases[p[0]]);
    assert ValidPath(w, w[c].decl.bases[p[0]], p[1..]);
  }

  /** Bases that are not empty share no byte. */
  lemma {:induction false} NoCommonByte(w: World, c: ClassId, i: nat, j: nat, x: nat)
    requires AllLaidOut(w) && c < |w| && i < |w[c].decl.bases| && j < |w[c].decl.bases| && i != j
    requires !IsEmptyClass(w, w[c].decl.bases[i]) && !IsEmptyClass(w, w[c].decl.bases[j])
    requires w[c].offsets[i] <= x < w[c].offsets[i] + w[w[c].decl.bases[i]].nvsize
    ensures !(w[c].offsets[j] <= x < w[c].offsets[j] + w[w[c].decl.bases[j]].nvsize)
  {
    assert LaidOutInTurn(w, c);
    LayoutTheorem.BasesApart(w[..c], w[c], i, j);
  }

  /** One level down. */
  lemma {:induction false} PrimaryBelow(w: World, c: ClassId, p: Path)
    requires Ordered(w) && ValidPath(w, c, p) && |p| > 1
    ensures IsPrimaryBase(w, w[c].decl.bases[p[0]], p[1..]) == IsPrimaryBase(w, c, p)
  {
    var n := |p| - 1;
    assert p == p[..n] + [p[n]] && p[1..] == p[1..][..n - 1] + [p[1..][n - 1]];
    PathSplit(w, c, p[..n], [p[n]]);
    PathSplit(w, w[c].decl.bases[p[0]], p[1..][..n - 1], [p[1..][n - 1]]);
    assert p[..n][1..] == p[1..][..n - 1];
  }

  lemma {:induction false} NeededBelow(w: World, c: ClassId, p: Path)
    requires Ordered(w) && ValidPath(w, c, p) && p != [] && NeedsTable(w, c, p)
    ensures NeedsTable(w, w[c].decl.bases[p[0]], p[1..])
  {
    if |p| > 1 {
      PrimaryBelow(w, c, p);
    }
  }

  /** Only a chain of primary bases starts where a polymorphic class does. */
  lemma {:induction false} WholeAlone(w: World, c: ClassId, q: Path)
    requires AllLaidOut(w) && ValidPath(w, c, q) && Polymorphic(w, c) && NeedsTable(w, c, q) && OffsetAt(w, c, q) == 0
    ensures q == []
    decreases |q|
  {
    if q != [] {
      var (i, b) := (q[0], w[c].decl.bases[q[0]]);
      BeginsInBase(w, c, q);
      VptrAtZero(w, c);
      if OwnVptr(w, c) {
        VptrIsFirst(w, c, i);
      } else {
        PrimaryIsFirst(w, c, i);
        if |q| > 1 {
          NeededBelow(w, c, q);
          WholeAlone(w, b, q[1..]);
        }
      }
    }
  }

  lemma {:induction false} HasPrimary(w: World, c: ClassId) returns (k: nat)
    requires AllLaidOut(w) && c < |w| && Polymorphic(w, c) && !OwnVptr(w, c)
    ensures w[c].primary == Some(k) && k < |w[c].decl.bases| && w[c].offsets[k] == 0 && Polymorphic(w, w[c].decl.bases[k])
  {
    assert LaidOutInTurn(w, c);
    forall i | 0 <= i < |w[c].decl.bases|
      ensures Polymorphic(w[..c], w[c].decl.bases[i]) == Polymorphic(w, w[c].decl.bases[i])
    {
      PolymorphicStable(w[..c], w, w[c].decl.bases[i]);
    }
    k := w[c].primary.value;
    LayoutTheorem.PrimaryAtZero(w[..c], w[c]);
  }

  /** The base at offset zero is the primary one. */
  lemma {:induction false} PrimaryIsFirst(w: World, c: ClassId, i: nat)
    requires AllLaidOut(w) && c < |w| && Polymorphic(w, c) && !OwnVptr(w, c) && i < |w[c].decl.bases|
    requires !IsEmptyClass(w, w[c].decl.bases[i]) && w[c].offsets[i] == 0
    ensures w[c].primary == Some(i) && Polymorphic(w, w[c].decl.bases[i])
  {
    var k := HasPrimary(w, c);
    PolymorphicTakesRoom(w, w[c].decl.bases[k]);
    if i != k {
      NoCommonByte(w, c, i, k, 0);
    }
  }

  /** Two subobjects that need tables of their own are at different addresses. */
  lemma {:induction false} OneTablePerAddress(w: World, c: ClassId, p: Path, q: Path)
    requires AllLaidOut(w) && ValidPath(w, c, p) && ValidPath(w, c, q) && NeedsTable(w, c, p) && NeedsTable(w, c, q)
    requires OffsetAt(w, c, p) == OffsetAt(w, c, q)
    ensures p == q
    decreases |p|
  {
    if p == [] {
      WholeAlone(w, c, q);
    } else if q == [] {
      WholeAlone(w, c, p);
    } else {
      BeginsInBase(w, c, p);
      BeginsInBase(w, c, q);
      if p[0] != q[0] {
        NoCommonByte(w, c, p[0], q[0], OffsetAt(w, c, p));
      } else {
        NeededBelow(w, c, p);
        NeededBelow(w, c, q);
        OneTablePerAddress(w, w[c].decl.bases[p[0]], p[1..], q[1..]);
        assert p == [p[0]] + p[1..] && q == [q[0]] + q[1..];
      }
    }
  }

  /** Every polymorphic subobject has a table at its own address: that of the subobject
      whose table it shares. */
  lemma {:induction false} EveryPointerHasTable(w: World, c: ClassId, p: Path)
    requires AllLaidOut(w) && ValidPath(w, c, p) && Polymorphic(w, TypeAt(w, c, p))
    ensures exists q :: ValidPath(w, c, q) && NeedsTable(w, c, q) && OffsetAt(w, c, q) == OffsetAt(w, c, p)
    decreases |p|
  {
    if !IsPrimaryBase(w, c, p) {
      assert NeedsTable(w, c, p);
    } else {
      var n := |p| - 1;
      assert p == p[..n] + [p[n]];
      PathSplit(w, c, p[..n], [p[n]]);
      PathConcat(w, c, p[..n], [p[n]]);
      PrimaryShares(w, TypeAt(w, c, p[..n]), p[n]);
      EveryPointerHasTable(w, c, p[..n]);
    }
  }

  lemma {:induction false} PrimaryShares(w: World, c: ClassId, i: nat)
    requires AllLaidOut(w) && c < |w| && w[c].primary == Some(i)
    ensures i < |w[c].decl.bases| && w[c].offsets[i] == 0 && Polymorphic(w, c)
  {
    assert LaidOutInTurn(w, c);
    LayoutTheorem.PrimaryAtZero(w[..c], w[c]);
    PolymorphicStable(w[..c], w, w[c].decl.bases[i]);
  }
}
