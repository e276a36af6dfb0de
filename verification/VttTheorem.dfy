/** What a virtual table table holds and in which order, by the paths of the hierarchy
    (section 2.6.2 of the Itanium C++ ABI). */
module VttTheorem {
  import opened Hierarchy
  import opened V = Vtt

  /** A path of base indices, through the one copy of every virtual base. */
  predicate Leads(shared: Shared, n: Node, p: Path)
    requires AllGood(shared) && Good(shared, n)
    decreases |p|
  {
    p != [] ==> p[0] < |n.bases| && Good(shared, Next(shared, n.bases[p[0]])) && Leads(shared, Next(shared, n.bases[p[0]]), p[1..])
  }

  function At(shared: Shared, n: Node, p: Path): (m: Node)
    requires AllGood(shared) && Good(shared, n) && Leads(shared, n, p)
    ensures Good(shared, m)
    decreases |p|
  {
    if p == [] then n else At(shared, Next(shared, n.bases[p[0]]), p[1..])
  }

  /** There is a virtual base on the path, not counting its start. */
  predicate PassesVirtual(shared: Shared, n: Node, p: Path)
    requires AllGood(shared) && Good(shared, n) && Leads(shared, n, p)
    decreases |p|
  {
    p != [] && (n.bases[p[0]].isVirtual || PassesVirtual(shared, Next(shared, n.bases[p[0]]), p[1..]))
  }

  /** `p` comes before `q`, in preorder. */
  predicate Earlier(p: Path, q: Path)
    decreases |p|
  {
    q != [] && (p == [] || p[0] < q[0] || (p[0] == q[0] && Earlier(p[1..], q[1..])))
  }

  lemma {:induction false} EarlierTransitive(p: Path, q: Path, r: Path)
    requires Earlier(p, q) && Earlier(q, r)
    ensures Earlier(p, r)
    decreases |p|
  {
    if p != [] && p[0] == q[0] == r[0] {
      EarlierTransitive(p[1..], q[1..], r[1..]);
    }
  }

  lemma {:induction false} EarlierThanBelow(q: Path, k: nat)
    ensures Earlier(q, q + [k])
  {
    if q != [] {
      EarlierThanBelow(q[1..], k);
      assert (q + [k])[1..] == q[1..] + [k];
    }
  }

  /** One step further. */
  lemma {:induction false} OneStep(shared: Shared, n: Node, p: Path, k: nat)
    requires AllGood(shared) && Good(shared, n) && Leads(shared, n, p) && k < |At(shared, n, p).bases|
    ensures Leads(shared, n, p + [k]) && At(shared, n, p + [k]) == Next(shared, At(shared, n, p).bases[k])
    ensures PassesVirtual(shared, n, p + [k]) <==> PassesVirtual(shared, n, p) || At(shared, n, p).bases[k].isVirtual
    decreases |p|
  {
    if p == [] {
      NextGood(shared, n, k);
      assert (p + [k])[1..] == [];
    } else {
      OneStep(shared, Next(shared, n.bases[p[0]]), p[1..], k);
      assert (p + [k])[1..] == p[1..] + [k];
    }
  }

  /** What a visit says is so along path `p`. */
  predicate VisitedBy(shared: Shared, root: Node, v: Visit, p: Path)
    requires AllGood(shared) && Good(shared, root)
  {
    Leads(shared, root, p) && At(shared, root, p) == v.node && (v.via <==> PassesVirtual(shared, root, p))
  }

  /** The visits are along these paths, in preorder, all of them before `limit`. */
  ghost predicate Along(shared: Shared, root: Node, visits: seq<Visit>, paths: seq<Path>)
    requires AllGood(shared) && Good(shared, root)
  {
    && |paths| == |visits|
    && (forall i :: 0 <= i < |visits| ==> VisitedBy(shared, root, visits[i], paths[i]))
    && (forall i, j :: 0 <= i < j < |paths| ==> Earlier(paths[i], paths[j]))
  }

  ghost predicate AllEarlier(paths: seq<Path>, q: Path) {
    forall i :: 0 <= i < |paths| ==> Earlier(paths[i], q)
  }

  /** From now on only paths below `q`. */
  ghost predicate Continues(before: seq<Path>, paths: seq<Path>, q: Path) {
    before <= paths && forall i :: |before| <= i < |paths| ==> q <= paths[i]
  }

  lemma {:induction false} AlongNext(shared: Shared, root: Node, visits: seq<Visit>, paths: seq<Path>, v: Visit, q: Path)
    requires AllGood(shared) && Good(shared, root) && Along(shared, root, visits, paths)
    requires VisitedBy(shared, root, v, q) && AllEarlier(paths, q)
    ensures Along(shared, root, visits + [v], paths + [q]) && Continues(paths, paths + [q], q)
  {
  }

  /** The walk below `n`, which `q` leads to. */
  lemma {:induction false} WalkAlong(shared: Shared, root: Node, q: Path, n: Node, via: bool, before: seq<Visit>, first: seq<Path>)
    returns (paths: seq<Path>)
    requires AllGood(shared) && Good(shared, root) && Good(shared, n) && VisitedBy(shared, root, Visit(n, via), q)
    requires Along(shared, root, before, first) && AllEarlier(first, q)
    ensures Along(shared, root, Walk(shared, n, via, before), paths) && Continues(first, paths, q)
    decreases n.cls, |n.bases| + 1
  {
    AlongNext(shared, root, before, first, Visit(n, via), q);
    StartUpTo(first, q);
    paths := WalkBasesAlong(shared, root, q, n, via, |n.bases|, before + [Visit(n, via)], first + [q]);
  }

  /** All paths are before the next base: those before `q`, `q` itself, and those to the
      bases before it. */
  ghost predicate UpTo(paths: seq<Path>, q: Path, k: nat) {
    forall i :: 0 <= i < |paths| ==> Earlier(paths[i], q + [k])
  }

  lemma {:induction false} StartUpTo(paths: seq<Path>, q: Path)
    requires AllEarlier(paths, q)
    ensures UpTo(paths + [q], q, 0)
  {
    EarlierThanBelow(q, 0);
    forall i | 0 <= i < |paths|
      ensures Earlier(paths[i], q + [0])
    {
      EarlierTransitive(paths[i], q, q + [0]);
    }
  }

  lemma {:induction false} BelowEarlier(q: Path, k: nat, p: Path)
    requires q + [k] <= p
    ensures Earlier(p, q + [k + 1])
  {
    if q == [] {
    } else {
      assert p[1..][..|q|] == q[1..] + [k];
      BelowEarlier(q[1..], k, p[1..]);
      assert (q + [k + 1])[1..] == q[1..] + [k + 1];
    }
  }

  lemma {:induction false} NextUpTo(paths: seq<Path>, paths': seq<Path>, q: Path, k: nat)
    requires UpTo(paths, q, k) && Continues(paths, paths', q + [k])
    ensures UpTo(paths', q, k + 1)
  {
    forall i | 0 <= i < |paths'|
      ensures Earlier(paths'[i], q + [k + 1])
    {
      if i < |paths| {
        assert Earlier(paths[i], q + [k]);
        BelowEarlier(q, k, q + [k]);
        EarlierTransitive(paths[i], q + [k], q + [k + 1]);
      } else {
        BelowEarlier(q, k, paths'[i]);
      }
    }
  }

  lemma {:induction false} WalkBasesAlong(shared: Shared, root: Node, q: Path, n: Node, via: bool, k: nat, before: seq<Visit>, first: seq<Path>)
    returns (paths: seq<Path>)
    requires AllGood(shared) && Good(shared, root) && Good(shared, n) && VisitedBy(shared, root, Visit(n, via), q)
    requires k <= |n.bases| && Along(shared, root, before, first) && UpTo(first, q, 0)
    ensures Along(shared, root, WalkBases(shared, n, via, k, before), paths) && Continues(first, paths, q) && UpTo(paths, q, k)
    decreases n.cls, k
  {
    paths := first;
    if k > 0 {
      paths := WalkBasesAlong(shared, root, q, n, via, k - 1, before, first);
      paths := BaseAlong(shared, root, q, n, via, k - 1, WalkBases(shared, n, via, k - 1, before), paths);
    }
  }

  lemma {:induction false} BaseAlong(shared: Shared, root: Node, q: Path, n: Node, via: bool, k: nat, visits: seq<Visit>, first: seq<Path>)
    returns (paths: seq<Path>)
    requires AllGood(shared) && Good(shared, root) && Good(shared, n) && VisitedBy(shared, root, Visit(n, via), q)
    requires k < |n.bases| && Along(shared, root, visits, first) && UpTo(first, q, k)
    ensures Good(shared, Next(shared, n.bases[k]))
    ensures var b := Next(shared, n.bases[k]);
      Along(shared, root, if b in Nodes(visits) then visits else Walk(shared, b, b.isVirtual || via, visits), paths)
    ensures Continues(first, paths, q) && UpTo(paths, q, k + 1)
    decreases n.cls, k
  {
    NextGood(shared, n, k);
    OneStep(shared, root, q, k);
    var b := Next(shared, n.bases[k]);
    paths := first;
    if b !in Nodes(visits) {
      paths := WalkAlong(shared, root, q + [k], b, b.isVirtual || via, visits, first);
    }
    NextUpTo(first, paths, q, k);
  }

  /** The walk over a whole object is in preorder: each subobject is visited along some
      path, and the visit knows whether that passes a virtual base. */
  lemma {:induction false} WalkIsPreorder(shared: Shared, root: Node) returns (paths: seq<Path>)
    requires AllGood(shared) && Good(shared, root)
    ensures var visits := Walk(shared, root, false, []);
      && |paths| == |visits|
      && (forall i :: 0 <= i < |visits| ==> VisitedBy(shared, root, visits[i], paths[i]))
      && (forall i, j :: 0 <= i < j < |paths| ==> Earlier(paths[i], paths[j]))
  {
    paths := WalkAlong(shared, root, [], root, false, [], []);
  }

  /** The subobjects are what the paths lead to. */
  lemma {:induction false} PathsReach(shared: Shared, n: Node, p: Path)
    requires AllGood(shared) && Good(shared, n) && Leads(shared, n, p)
    ensures At(shared, n, p) in Reach(shared, n)
    decreases |p|
  {
    if p != [] {
      PathsReach(shared, Next(shared, n.bases[p[0]]), p[1..]);
      BaseReached(shared, n, p[0], |n.bases|);
    }
  }

  lemma {:induction false} ReachedByPath(shared: Shared, n: Node, m: Node) returns (p: Path)
    requires AllGood(shared) && Good(shared, n) && m in Reach(shared, n)
    ensures Leads(shared, n, p) && At(shared, n, p) == m
  {
    WalkVisitsAll(shared, n, false, []);
    var paths := WalkIsPreorder(shared, n);
    var visits := Walk(shared, n, false, []);
    assert m in Nodes(visits);
    var v :| v in visits && v.node == m;
    var i :| 0 <= i < |visits| && visits[i] == v;
    assert VisitedBy(shared, n, visits[i], paths[i]);
    p := paths[i];
  }

  /** The bases that this one is primary in, directly and in turn. */
  function PrimaryIn(p: PrimaryOf): (ids: seq<nat>)
    decreases p
  {
    match p
    case NotPrimary => []
    case PrimaryOf(id, above) => [id] + PrimaryIn(above)
  }

  /** The table used is that of the outermost of them. */
  lemma {:induction false} SharesWithOutermost(id: nat, p: PrimaryOf)
    ensures Sharing(id, p) == if PrimaryIn(p) == [] then id else PrimaryIn(p)[|PrimaryIn(p)| - 1]
    decreases p
  {
    if p.PrimaryOf? {
      SharesWithOutermost(p.id, p.above);
    }
  }

  /** A subobject gets a secondary virtual pointer in the VTT of `of` if it has a virtual
      pointer that is not that of a base it is a non-virtual primary base of, and virtual
      bases to find, being one or having some. */
  predicate AsksForPointer(of: Node, v: Visit) {
    && v.node.hasVptr && v.node.cls != of.cls
    && (v.via || v.node.usesVirtual)
    && !(!v.node.isVirtual && v.node.primaryOf.PrimaryOf?)
  }

  /** How many of the first `k` visits ask for a pointer. */
  function HowMany(of: Node, visits: seq<Visit>, k: nat): (r: nat)
    requires k <= |visits|
    ensures r <= k
  {
    if k == 0 then 0 else HowMany(of, visits, k - 1) + if AsksForPointer(of, visits[k - 1]) then 1 else 0
  }

  /** Each visit that asks has its pointer, behind those of the visits before it, and there
      are no others; in the complete object a virtual base that is primary somewhere uses
      the table of that base, and in a sub-VTT each subobject its own. */
  lemma {:induction false} PointersInOrder(of: Node, visits: seq<Visit>, top: bool, i: nat)
    requires i < |visits|
    ensures |Secondary(visits, of, top)| == HowMany(of, visits, |visits|)
    ensures AsksForPointer(of, visits[i]) ==>
      && HowMany(of, visits, i) < |Secondary(visits, of, top)|
      && var (e, n) := (Secondary(visits, of, top)[HowMany(of, visits, i)], visits[i].node);
         e.root == of.id && e.of == if top && n.isVirtual && n.primaryOf.PrimaryOf?
                                    then PrimaryIn(n.primaryOf)[|PrimaryIn(n.primaryOf)| - 1] else n.id
  {
    var front := visits[..|visits| - 1];
    SamePrefix(of, front, visits, |front|);
    SharesWithOutermost(visits[i].node.id, visits[i].node.primaryOf);
    if i < |front| {
      PointersInOrder(of, front, top, i);
      SamePrefix(of, front, visits, i);
    } else {
      PointerCount(of, front, top);
    }
  }

  lemma {:induction false} PointerCount(of: Node, visits: seq<Visit>, top: bool)
    ensures |Secondary(visits, of, top)| == HowMany(of, visits, |visits|)
  {
    if visits != [] {
      PointerCount(of, visits[..|visits| - 1], top);
      SamePrefix(of, visits[..|visits| - 1], visits, |visits| - 1);
    }
  }

  lemma {:induction false} SamePrefix(of: Node, front: seq<Visit>, visits: seq<Visit>, k: nat)
    requires front <= visits && k <= |front|
    ensures HowMany(of, front, k) == HowMany(of, visits, k)
    decreases k
  {
    if k > 0 {
      SamePrefix(of, front, visits, k - 1);
    }
  }

  /** `k` is the class under construction or a non-virtual base, however far, all classes
      on the way having virtual bases. */
  predicate Constructed(shared: Shared, n: Node, p: Path, k: Node)
    requires AllGood(shared) && Good(shared, n)
    decreases |p|
  {
    && n.usesVirtual
    && if p == [] then k == n
       else
         && p[0] < |n.bases| && !n.bases[p[0]].isVirtual
         && Constructed(shared, n.bases[p[0]], p[1..], k)
  }

  /** These have sub-VTTs inside the one for `n`... */
  lemma {:induction false} ConstructedIsSubNode(shared: Shared, n: Node, p: Path, k: Node)
    requires AllGood(shared) && Good(shared, n) && Constructed(shared, n, p, k)
    ensures k in SubNodes(shared, n)
    decreases |p|
  {
    if p != [] {
      ConstructedIsSubNode(shared, n.bases[p[0]], p[1..], k);
      SubNodesAmong(shared, n, p[0], |n.bases|);
    }
  }

  lemma {:induction false} SubNodesAmong(shared: Shared, n: Node, i: nat, k: nat)
    requires AllGood(shared) && Good(shared, n) && i < k <= |n.bases| && !n.bases[i].isVirtual
    ensures SubNodes(shared, n.bases[i]) <= SubNodesOfBases(shared, n, k)
    decreases k
  {
    if i < k - 1 {
      SubNodesAmong(shared, n, i, k - 1);
    }
  }

  /** ... and no others do. */
  lemma {:induction false} SubNodeIsConstructed(shared: Shared, n: Node, k: Node) returns (p: Path)
    requires AllGood(shared) && Good(shared, n) && k in SubNodes(shared, n)
    ensures Constructed(shared, n, p, k)
    decreases n.cls
  {
    p := [];
    if k != n {
      var i := BaseOfSubNode(shared, n, |n.bases|, k);
      p := SubNodeIsConstructed(shared, n.bases[i], k);
      p := ConstructedBelow(shared, n, i, p, k);
    }
  }

  lemma {:induction false} ConstructedBelow(shared: Shared, n: Node, i: nat, q: Path, k: Node) returns (p: Path)
    requires AllGood(shared) && Good(shared, n) && n.usesVirtual && i < |n.bases| && !n.bases[i].isVirtual
    requires Constructed(shared, n.bases[i], q, k)
    ensures Constructed(shared, n, p, k)
  {
    p := [i] + q;
    assert p[1..] == q;
  }

  lemma {:induction false} BaseOfSubNode(shared: Shared, n: Node, j: nat, k: Node) returns (i: nat)
    requires AllGood(shared) && Good(shared, n) && j <= |n.bases| && k in SubNodesOfBases(shared, n, j)
    ensures i < j && !n.bases[i].isVirtual && k in SubNodes(shared, n.bases[i])
    decreases j
  {
    i := j - 1;
    if k in SubNodesOfBases(shared, n, j - 1) {
      i := BaseOfSubNode(shared, n, j - 1, k);
    }
  }

  lemma {:induction false} SubVttsExtend(shared: Shared, n: Node, i: nat, k: nat)
    requires AllGood(shared) && Good(shared, n) && i <= k <= |n.bases|
    ensures SubVtts(shared, n, i) <= SubVtts(shared, n, k)
    decreases k
  {
    if i < k {
      SubVttsExtend(shared, n, i, k - 1);
    }
  }

  /** The block of entries for base `i` in the VTT for `n`: behind the primary pointer and
      the blocks of the bases before it. */
  lemma {:induction false} BaseBlock(shared: Shared, n: Node, i: nat)
    requires AllGood(shared) && Good(shared, n) && i < |n.bases|
    ensures var (x, block) := (|SubVtts(shared, n, i)|, if n.bases[i].isVirtual then [] else V.Vtt(shared, n.bases[i], false));
      && x + |block| == |SubVtts(shared, n, i + 1)| <= |SubVtts(shared, n, |n.bases|)|
      && SubVtts(shared, n, |n.bases|)[x..x + |block|] == block
  {
    var block := if n.bases[i].isVirtual then [] else V.Vtt(shared, n.bases[i], false);
    NextBlock(shared, n, i, block);
    SubVttsExtend(shared, n, i + 1, |n.bases|);
    Middle(SubVtts(shared, n, i), block, SubVtts(shared, n, |n.bases|));
  }

  lemma {:induction false} NextBlock(shared: Shared, n: Node, i: nat, block: seq<Entry>)
    requires AllGood(shared) && Good(shared, n) && i < |n.bases|
    requires block == if n.bases[i].isVirtual then [] else V.Vtt(shared, n.bases[i], false)
    ensures SubVtts(shared, n, i + 1) == SubVtts(shared, n, i) + block
  {
  }

  lemma {:induction false} Middle(first: seq<Entry>, block: seq<Entry>, whole: seq<Entry>)
    requires first + block <= whole
    ensures whole[|first|..|first| + |block|] == block
  {
    assert (first + block)[|first|..] == block;
  }

  /** The sub-VTT of virtual base `i` is behind those of the virtual bases before it. */
  lemma {:induction false} VbaseBlock(shared: Shared, vbases: seq<ClassId>, i: nat, k: nat)
    requires AllGood(shared) && (forall c :: c in vbases ==> c in shared) && i < k <= |vbases|
    ensures var (x, block) := (|VbaseVtts(shared, vbases[..i])|, V.Vtt(shared, shared[vbases[i]], false));
      && x + |block| <= |VbaseVtts(shared, vbases[..k])|
      && VbaseVtts(shared, vbases[..k])[x..x + |block|] == block
    decreases k
  {
    assert vbases[..k][..k - 1] == vbases[..k - 1];
    if i < k - 1 {
      VbaseBlock(shared, vbases, i, k - 1);
    }
  }

  /** The VTT begins with the primary virtual pointer, then come the blocks of the bases,
      then the secondary virtual pointers; a class without virtual bases has none. */
  lemma {:induction false} VttInOrder(shared: Shared, n: Node, top: bool)
    requires AllGood(shared) && Good(shared, n)
    ensures V.Vtt(shared, n, top) == [] <==> !n.usesVirtual
    ensures n.usesVirtual ==>
      var (x, s) := (|SubVtts(shared, n, |n.bases|)|, Secondary(Walk(shared, n, false, []), n, top));
      && |V.Vtt(shared, n, top)| == 1 + x + |s| && V.Vtt(shared, n, top)[0] == Vptr(n.id, n.id)
      && V.Vtt(shared, n, top)[1..1 + x] == SubVtts(shared, n, |n.bases|) && V.Vtt(shared, n, top)[1 + x..] == s
  {
  }
}
