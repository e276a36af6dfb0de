/** The binfo nodes of one class: a tree with a node for every base subobject,
    whose BINFO_OFFSET fields are filled in while the class is laid out. */
module BinfoTree {
  import opened Hierarchy

  class Binfo {
    const typ: ClassId
    const bases: seq<Binfo>
    var offset: int
    ghost const Repr: set<Binfo>

    /** The nodes below `this` form a tree. */
    ghost predicate Valid()
      decreases Repr
    {
      && this in Repr
      && (forall i :: 0 <= i < |bases| ==> bases[i].Repr < Repr && this !in bases[i].Repr && bases[i].Valid())
      && (forall i, j :: 0 <= i < j < |bases| ==> bases[i].Repr !! bases[j].Repr)
    }

    /** The tree has the shape of the hierarchy below its class. */
    ghost predicate Mirrors(w: World)
      requires Ordered(w)
      decreases typ
    {
      && typ < |w| && |bases| == |w[typ].decl.bases|
      && forall i :: 0 <= i < |bases| ==> bases[i].typ == w[typ].decl.bases[i] && bases[i].Mirrors(w)
    }

    constructor (typ: ClassId, offset: int, bases: seq<Binfo>)
      requires forall i :: 0 <= i < |bases| ==> bases[i].Valid()
      requires forall i, j :: 0 <= i < j < |bases| ==> bases[i].Repr !! bases[j].Repr
      ensures Valid() && this.typ == typ && this.offset == offset && this.bases == bases
      ensures forall x :: x in Repr && !fresh(x) ==> exists i :: 0 <= i < |bases| && x in bases[i].Repr
    {
      this.typ := typ;
      this.offset := offset;
      this.bases := bases;
      this.Repr := {this} + (set i, x | 0 <= i < |bases| && x in bases[i].Repr :: x);
    }

    /** The node that path `p` leads to. */
    ghost function At(w: World, p: Path): (b: Binfo)
      requires Ordered(w) && Valid() && Mirrors(w) && ValidPath(w, typ, p)
      ensures b in Repr
      decreases |p|
    {
      if p == [] then this else bases[p[0]].At(w, p[1..])
    }
  }

  /** Every node below `b` is offset as in a `b.typ` object at `o`. */
  ghost predicate PlacedAt(w: World, b: Binfo, o: int)
    requires Ordered(w) && b.Valid() && b.Mirrors(w)
    reads b.Repr
  {
    forall p: Path :: ValidPath(w, b.typ, p) ==> b.At(w, p).offset == o + OffsetAt(w, b.typ, p)
  }

  /** `get_primary_binfo`: the first direct base whose type is that of the
      primary base of the class. */
  method GetPrimaryBinfo(w: World, b: Binfo) returns (r: Option<nat>)
    requires Ordered(w) && b.Valid() && b.Mirrors(w)
    ensures r.None? <==> w[b.typ].primary.None?
    ensures r.Some? ==>
      r.value <= w[b.typ].primary.value
      && b.bases[r.value].typ == w[b.typ].decl.bases[w[b.typ].primary.value]
      && forall j :: 0 <= j < r.value ==> b.bases[j].typ != b.bases[r.value].typ
  {
    if w[b.typ].primary.None? {
      return None;
    }
    var k := w[b.typ].primary.value;
    var i := 0;
    while b.bases[i].typ != w[b.typ].decl.bases[k]
      invariant i <= k
      invariant forall j :: 0 <= j < i ==> b.bases[j].typ != w[b.typ].decl.bases[k]
      decreases k - i
    {
      i := i + 1;
    }
    return Some(i);
  }

  /** `propagate_binfo_offsets`: moves a whole base subobject by `delta`, the
      primary base first and only once. */
  method PropagateBinfoOffsets(w: World, b: Binfo, delta: int)
    requires Ordered(w) && b.Valid() && b.Mirrors(w)
    modifies b.Repr
    ensures forall p :: ValidPath(w, b.typ, p) ==> b.At(w, p).offset == old(b.At(w, p).offset) + delta
    decreases b.typ
  {
    b.offset := b.offset + delta;
    var primary := GetPrimaryBinfo(w, b);
    for i := -1 to |b.bases|
      invariant b.offset == old(b.offset) + delta
      invariant forall j, p :: 0 <= j < |b.bases| && ValidPath(w, b.bases[j].typ, p) ==>
        b.bases[j].At(w, p).offset
          == old(b.bases[j].At(w, p).offset) + if j < i || (i >= 0 && primary == Some(j)) then delta else 0
    {
      var k := i;
      if i == -1 {
        if primary.None? {
          continue;
        }
        k := primary.value;
      } else if primary == Some(i) {
        continue;
      }
      PropagateBinfoOffsets(w, b.bases[k], delta);
    }
    forall p | ValidPath(w, b.typ, p)
      ensures b.At(w, p).offset == old(b.At(w, p).offset) + delta
    {
      if p != [] {
        assert ValidPath(w, b.bases[p[0]].typ, p[1..]);
      }
    }
  }

  /** A node over nodes that are in their places. */
  lemma {:induction false} RootPlaced(w: World, b: Binfo)
    requires Ordered(w) && b.Valid() && b.Mirrors(w)
    requires forall i :: 0 <= i < |b.bases| ==> PlacedAt(w, b.bases[i], b.offset + w[b.typ].offsets[i])
    ensures PlacedAt(w, b, b.offset)
  {
    forall p: Path | ValidPath(w, b.typ, p)
      ensures b.At(w, p).offset == b.offset + OffsetAt(w, b.typ, p)
    {
      if p != [] {
        assert PlacedAt(w, b.bases[p[0]], b.offset + w[b.typ].offsets[p[0]]);
      }
    }
  }

  /** `make_binfo` and `unshare_base_binfos`: fresh nodes for a base of class `c`
      and everything below it, with the offsets of a `c` object at `offset`. */
  method UnshareBaseBinfos(w: World, c: ClassId, offset: nat) returns (b: Binfo)
    requires Ordered(w) && c < |w|
    ensures b.Valid() && b.typ == c && b.Mirrors(w) && PlacedAt(w, b, offset)
    ensures fresh(b.Repr)
    decreases c
  {
    var children: seq<Binfo> := [];
    for i := 0 to |w[c].decl.bases|
      invariant |children| == i
      invariant forall j :: 0 <= j < i ==>
        children[j].Valid() && children[j].typ == w[c].decl.bases[j] && children[j].Mirrors(w)
        && PlacedAt(w, children[j], offset + w[c].offsets[j]) && fresh(children[j].Repr)
      invariant forall j, k :: 0 <= j < k < i ==> children[j].Repr !! children[k].Repr
    {
      var child := UnshareBaseBinfos(w, w[c].decl.bases[i], offset + w[c].offsets[i]);
      children := children + [child];
    }
    b := new Binfo(c, offset, children);
    RootPlaced(w, b);
  }
}
