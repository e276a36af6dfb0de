/** The virtual table table: `build_vtt_inits`, the walk that collects the secondary
    virtual pointers, and the indices that both record (section 2.6.2 of the Itanium
    C++ ABI). */
module Vtt {
  import opened Hierarchy

  const POINTER_SIZE := 4

  /** BINFO_PRIMARY_BASE_OF: the subobject that this one is the primary base of, and
      what that one is the primary base of, in turn. */
  datatype PrimaryOf = NotPrimary | PrimaryOf(id: nat, above: PrimaryOf)

  /** A base subobject of the complete object. */
  datatype Node = Node(
    id: nat,
    cls: ClassId,
    isVirtual: bool,
    primaryOf: PrimaryOf,
    hasVptr: bool,
    usesVirtual: bool,
    bases: seq<Node>)

  /** The subobject whose table this one shares in the complete object. */
  function Sharing(id: nat, p: PrimaryOf): nat
    decreases p
  {
    if p.NotPrimary? then id else Sharing(p.id, p.above)
  }

  /** The one copy of every virtual base. */
  type Shared = map<ClassId, Node>

  /** `dfs_ctor_vtable_bases_queue_p`, apart from the marks. */
  function Next(shared: Shared, b: Node): Node {
    if b.isVirtual && b.cls in shared then shared[b.cls] else b
  }

  /** Bases are earlier classes, and every virtual base has its copy. */
  predicate Good(shared: Shared, n: Node) {
    forall i :: 0 <= i < |n.bases| ==>
      && n.bases[i].cls < n.cls
      && if n.bases[i].isVirtual then n.bases[i].cls in shared else Good(shared, n.bases[i])
  }

  predicate AllGood(shared: Shared) {
    forall c :: c in shared ==> shared[c].cls == c && shared[c].isVirtual && Good(shared, shared[c])
  }

  lemma {:induction false} NextGood(shared: Shared, n: Node, i: nat)
    requires AllGood(shared) && Good(shared, n) && i < |n.bases|
    ensures var b := Next(shared, n.bases[i]); Good(shared, b) && b.cls == n.bases[i].cls < n.cls && b.isVirtual == n.bases[i].isVirtual
  {
  }

  /** A visit of a node: `via` says that it was reached along a virtual path. */
  datatype Visit = Visit(node: Node, via: bool)

  function Nodes(visits: seq<Visit>): set<Node> {
    set v | v in visits :: v.node
  }

  /** The walk in preorder, each node once. */
  function Walk(shared: Shared, n: Node, via: bool, before: seq<Visit>): seq<Visit>
    requires AllGood(shared) && Good(shared, n)
    decreases n.cls, |n.bases| + 1
  {
    WalkBases(shared, n, via, |n.bases|, before + [Visit(n, via)])
  }

  function WalkBases(shared: Shared, n: Node, via: bool, k: nat, before: seq<Visit>): seq<Visit>
    requires AllGood(shared) && Good(shared, n) && k <= |n.bases|
    decreases n.cls, k
  {
    if k == 0 then before
    else
      var visits := WalkBases(shared, n, via, k - 1, before);
      NextGood(shared, n, k - 1);
      var b := Next(shared, n.bases[k - 1]);
      if b in Nodes(visits) then visits else Walk(shared, b, b.isVirtual || via, visits)
  }

  /** The subobjects of `n`. */
  function Reach(shared: Shared, n: Node): set<Node>
    requires AllGood(shared) && Good(shared, n)
    decreases n.cls, |n.bases| + 1
  {
    {n} + ReachBases(shared, n, |n.bases|)
  }

  function ReachBases(shared: Shared, n: Node, k: nat): set<Node>
    requires AllGood(shared) && Good(shared, n) && k <= |n.bases|
    decreases n.cls, k
  {
    if k == 0 then {}
    else
      NextGood(shared, n, k - 1);
      ReachBases(shared, n, k - 1) + Reach(shared, Next(shared, n.bases[k - 1]))
  }

  /** A node of the set, if it is of a class below `limit`, has its subobjects there too. */
  ghost predicate ClosedBelow(shared: Shared, marked: set<Node>, limit: nat)
    requires AllGood(shared)
  {
    forall n :: n in marked && n.cls < limit ==> Good(shared, n) && Reach(shared, n) <= marked
  }

  predicate NoRepeats(visits: seq<Visit>) {
    forall i, j :: 0 <= i < j < |visits| ==> visits[i].node != visits[j].node
  }

  lemma {:induction false} ReachIsBelow(shared: Shared, n: Node)
    requires AllGood(shared) && Good(shared, n)
    ensures forall m :: m in Reach(shared, n) && m != n ==> m.cls < n.cls
    decreases n.cls, |n.bases| + 1
  {
    ReachBasesIsBelow(shared, n, |n.bases|);
  }

  lemma {:induction false} ReachBasesIsBelow(shared: Shared, n: Node, k: nat)
    requires AllGood(shared) && Good(shared, n) && k <= |n.bases|
    ensures forall m :: m in ReachBases(shared, n, k) ==> m.cls < n.cls
    decreases n.cls, k
  {
    if k > 0 {
      ReachBasesIsBelow(shared, n, k - 1);
      NextGood(shared, n, k - 1);
      ReachIsBelow(shared, Next(shared, n.bases[k - 1]));
    }
  }

  lemma {:induction false} NodesAppend(visits: seq<Visit>, v: Visit)
    ensures Nodes(visits + [v]) == Nodes(visits) + {v.node}
  {
  }

  /** Adding all the subobjects of one more node. */
  lemma {:induction false} CloseUp(shared: Shared, before: set<Node>, b: Node, limit: nat)
    requires AllGood(shared) && Good(shared, b) && ClosedBelow(shared, before, limit)
    requires ClosedBelow(shared, before + Reach(shared, b), b.cls) || ClosedBelow(shared, before + Reach(shared, b), b.cls + 1)
    ensures ClosedBelow(shared, before + Reach(shared, b), limit)
  {
    ReachIsBelow(shared, b);
    var after := before + Reach(shared, b);
    forall n | n in after && n.cls < limit
      ensures Good(shared, n) && Reach(shared, n) <= after
    {
      if n !in before && n != b {
        assert n.cls < b.cls;
      }
    }
  }

  /** Marking a node says nothing new about classes below its own. */
  lemma {:induction false} ClosedWith(shared: Shared, before: set<Node>, n: Node)
    requires AllGood(shared) && ClosedBelow(shared, before, n.cls)
    ensures ClosedBelow(shared, before + {n}, n.cls)
  {
  }

  /** The walk visits every subobject once, and nothing else. */
  lemma {:induction false} WalkVisitsAll(shared: Shared, n: Node, via: bool, before: seq<Visit>)
    requires AllGood(shared) && Good(shared, n) && n !in Nodes(before) && NoRepeats(before)
    requires ClosedBelow(shared, Nodes(before), n.cls + 1)
    ensures var visits := Walk(shared, n, via, before);
      before <= visits && NoRepeats(visits) && Nodes(visits) == Nodes(before) + Reach(shared, n)
    ensures ClosedBelow(shared, Nodes(Walk(shared, n, via, before)), n.cls + 1)
    decreases n.cls, |n.bases| + 1
  {
    var start := before + [Visit(n, via)];
    NodesAppend(before, Visit(n, via));
    ClosedWith(shared, Nodes(before), n);
    NoRepeatsAppend(before, Visit(n, via));
    WalkBasesVisitsAll(shared, n, via, |n.bases|, start);
    assert Nodes(start) + ReachBases(shared, n, |n.bases|) == Nodes(before) + Reach(shared, n);
    CloseUp(shared, Nodes(before), n, n.cls + 1);
  }

  lemma {:induction false} NoRepeatsAppend(visits: seq<Visit>, v: Visit)
    requires NoRepeats(visits) && v.node !in Nodes(visits)
    ensures NoRepeats(visits + [v])
  {
    forall i | 0 <= i < |visits|
      ensures visits[i].node != v.node
    {
      assert visits[i] in visits;
    }
  }

  lemma {:induction false} WalkBasesVisitsAll(shared: Shared, n: Node, via: bool, k: nat, before: seq<Visit>)
    requires AllGood(shared) && Good(shared, n) && k <= |n.bases| && NoRepeats(before)
    requires ClosedBelow(shared, Nodes(before), n.cls)
    ensures var visits := WalkBases(shared, n, via, k, before);
      before <= visits && NoRepeats(visits) && Nodes(visits) == Nodes(before) + ReachBases(shared, n, k)
    ensures ClosedBelow(shared, Nodes(WalkBases(shared, n, via, k, before)), n.cls)
    decreases n.cls, k
  {
    if k > 0 {
      WalkBasesVisitsAll(shared, n, via, k - 1, before);
      NextGood(shared, n, k - 1);
      var b := Next(shared, n.bases[k - 1]);
      BaseVisited(shared, n.cls, via, WalkBases(shared, n, via, k - 1, before), b);
      Together(Nodes(before), ReachBases(shared, n, k - 1), Reach(shared, b));
    }
  }

  lemma {:induction false} Together(a: set<Node>, b: set<Node>, c: set<Node>)
    ensures a + b + c == a + (b + c)
  {
  }

  lemma {:induction false} BaseVisited(shared: Shared, limit: nat, via: bool, visits: seq<Visit>, b: Node)
    requires AllGood(shared) && Good(shared, b) && b.cls < limit && NoRepeats(visits)
    requires ClosedBelow(shared, Nodes(visits), limit)
    ensures var visits' := if b in Nodes(visits) then visits else Walk(shared, b, b.isVirtual || via, visits);
      && visits <= visits' && NoRepeats(visits') && Nodes(visits') == Nodes(visits) + Reach(shared, b)
      && ClosedBelow(shared, Nodes(visits'), limit)
    decreases b.cls, |b.bases| + 2
  {
    if b in Nodes(visits) {
      assert Reach(shared, b) <= Nodes(visits);
    } else {
      WalkVisitsAll(shared, b, b.isVirtual || via, visits);
      CloseUp(shared, Nodes(visits), b, limit);
    }
  }

  /** The virtual pointer of subobject `of`, for the construction of `root`. */
  datatype Entry = Vptr(root: nat, of: nat)

  /** Whether a visited node gets a secondary virtual pointer, in the VTT of `root`. */
  predicate NeedsVptr(root: Node, v: Visit) {
    && v.node.hasVptr && v.node.cls != root.cls && (v.node.isVirtual || v.node.primaryOf.NotPrimary?)
    && (v.node.usesVirtual || v.via)
  }

  function VptrFor(root: Node, n: Node, top: bool): Entry {
    Vptr(root.id, if top && n.isVirtual then Sharing(n.id, n.primaryOf) else n.id)
  }

  /** The secondary virtual pointers for the nodes visited, in their order. */
  function Secondary(visits: seq<Visit>, root: Node, top: bool): seq<Entry> {
    if visits == [] then []
    else
      var (front, last) := (Secondary(visits[..|visits| - 1], root, top), visits[|visits| - 1]);
      if NeedsVptr(root, last) then front + [VptrFor(root, last.node, top)] else front
  }

  /** The VTT of `n`, without the sub-VTTs of virtual bases: its primary virtual
      pointer, the sub-VTTs of its direct non-virtual bases, its secondary virtual
      pointers. */
  function Vtt(shared: Shared, n: Node, top: bool): seq<Entry>
    requires AllGood(shared) && Good(shared, n)
    decreases n.cls, |n.bases| + 1
  {
    if !n.usesVirtual then []
    else
      [Vptr(n.id, n.id)] + SubVtts(shared, n, |n.bases|) + Secondary(Walk(shared, n, false, []), n, top)
  }

  function SubVtts(shared: Shared, n: Node, k: nat): seq<Entry>
    requires AllGood(shared) && Good(shared, n) && k <= |n.bases|
    decreases n.cls, k
  {
    if k == 0 then []
    else
      SubVtts(shared, n, k - 1)
      + if n.bases[k - 1].isVirtual then [] else Vtt(shared, n.bases[k - 1], false)
  }

  lemma {:induction false} VttPieces(shared: Shared, n: Node, top: bool, before: seq<Entry>)
    requires AllGood(shared) && Good(shared, n) && n.usesVirtual
    ensures before + [Vptr(n.id, n.id)] + SubVtts(shared, n, |n.bases|) + Secondary(Walk(shared, n, false, []), n, top)
      == before + Vtt(shared, n, top)
    ensures [] + Vtt(shared, n, top) == Vtt(shared, n, top)
  {
  }

  /** The sub-VTTs of the virtual bases. */
  function VbaseVtts(shared: Shared, vbases: seq<ClassId>): seq<Entry>
    requires AllGood(shared) && forall c :: c in vbases ==> c in shared
  {
    if vbases == [] then []
    else
      var n := |vbases| - 1;
      VbaseVtts(shared, vbases[..n]) + Vtt(shared, shared[vbases[n]], false)
  }

  /** The sub-VTT is where its index says. */
  predicate Holds(inits: seq<Entry>, index: nat, block: seq<Entry>) {
    && index % POINTER_SIZE == 0 && index / POINTER_SIZE + |block| <= |inits|
    && inits[index / POINTER_SIZE..index / POINTER_SIZE + |block|] == block
  }

  lemma {:induction false} HoldsLater(inits: seq<Entry>, index: nat, block: seq<Entry>, more: seq<Entry>)
    requires Holds(inits, index, block)
    ensures Holds(inits + more, index, block)
  {
  }

  /** Recorded sub-VTTs, apart from those under construction, are right. */
  ghost predicate SubVttsRight(shared: Shared, inits: seq<Entry>, indices: map<Node, nat>, open: set<Node>)
    requires AllGood(shared)
  {
    forall n {:trigger SubVttRight(shared, inits, n, indices[n])} :: n in indices && n !in open ==> SubVttRight(shared, inits, n, indices[n])
  }

  ghost predicate SubVttRight(shared: Shared, inits: seq<Entry>, n: Node, index: nat)
    requires AllGood(shared)
  {
    Good(shared, n) && Holds(inits, index, Vtt(shared, n, false))
  }

  /** Recorded virtual pointers of the complete object are right. */
  ghost predicate VptrsRight(root: Node, inits: seq<Entry>, indices: map<Node, nat>) {
    forall n {:trigger VptrRight(root, inits, n, indices[n])} :: n in indices ==> VptrRight(root, inits, n, indices[n])
  }

  predicate VptrRight(root: Node, inits: seq<Entry>, n: Node, index: nat) {
    && index % POINTER_SIZE == 0 && index / POINTER_SIZE < |inits|
    && inits[index / POINTER_SIZE] == if n == root then Vptr(root.id, root.id) else VptrFor(root, n, true)
  }

  lemma {:induction false} VptrsLater(root: Node, inits: seq<Entry>, indices: map<Node, nat>, more: seq<Entry>)
    requires VptrsRight(root, inits, indices)
    ensures VptrsRight(root, inits + more, indices)
  {
    forall n | n in indices
      ensures VptrRight(root, inits + more, n, indices[n])
    {
      assert VptrRight(root, inits, n, indices[n]);
    }
  }

  lemma {:induction false} VptrsNext(root: Node, inits: seq<Entry>, indices: map<Node, nat>, n: Node)
    requires VptrsRight(root, inits, indices)
    ensures var e := if n == root then Vptr(root.id, root.id) else VptrFor(root, n, true);
      VptrsRight(root, inits + [e], indices[n := POINTER_SIZE * |inits|])
  {
    var e := if n == root then Vptr(root.id, root.id) else VptrFor(root, n, true);
    VptrsLater(root, inits, indices, [e]);
    var indices' := indices[n := POINTER_SIZE * |inits|];
    forall m | m in indices'
      ensures VptrRight(root, inits + [e], m, indices'[m])
    {
      if m != n {
        assert indices'[m] == indices[m] && VptrRight(root, inits + [e], m, indices[m]);
      }
    }
  }

  lemma {:induction false} SubVttsLater(shared: Shared, inits: seq<Entry>, indices: map<Node, nat>, open: set<Node>, more: seq<Entry>)
    requires AllGood(shared) && SubVttsRight(shared, inits, indices, open)
    ensures SubVttsRight(shared, inits + more, indices, open)
  {
    forall n | n in indices && n !in open
      ensures SubVttRight(shared, inits + more, n, indices[n])
    {
      assert SubVttRight(shared, inits, n, indices[n]);
      HoldsLater(inits, indices[n], Vtt(shared, n, false), more);
    }
  }

  /** The nodes among those visited that get a secondary virtual pointer. */
  function Pointed(visits: seq<Visit>, root: Node): set<Node> {
    set v | v in visits && NeedsVptr(root, v) :: v.node
  }

  /** The state of the walk over the subobjects of `of` after `visits`: the pointers are
      in a list that is still the wrong way round. */
  ghost predicate WalkState(root: Node, of: Node, top: bool, visits: seq<Visit>, marked: set<Node>, pending: seq<Entry>,
                            inits: seq<Entry>, index: nat, indices: map<Node, nat>, keys: set<Node>)
  {
    && marked == Nodes(visits) && Reverse(pending) == Secondary(visits, of, top)
    && index == POINTER_SIZE * (|inits| + |pending|)
    && VptrsRight(root, inits + Secondary(visits, of, top), indices)
    && indices.Keys == if top then keys + Pointed(visits, root) else keys
  }

  /** One visit. */
  lemma {:induction false} VisitOne(root: Node, of: Node, top: bool, visits: seq<Visit>, marked: set<Node>, pending: seq<Entry>,
                                    inits: seq<Entry>, index: nat, indices: map<Node, nat>, keys: set<Node>, v: Visit)
    requires WalkState(root, of, top, visits, marked, pending, inits, index, indices, keys) && (top ==> of == root)
    ensures NeedsVptr(of, v) ==>
      WalkState(root, of, top, visits + [v], marked + {v.node}, [VptrFor(of, v.node, top)] + pending, inits,
                index + POINTER_SIZE, if top then indices[v.node := index] else indices, keys)
    ensures !NeedsVptr(of, v) ==>
      WalkState(root, of, top, visits + [v], marked + {v.node}, pending, inits, index, indices, keys)
  {
    NodesAppend(visits, v);
    assert (visits + [v])[..|visits|] == visits;
    assert Pointed(visits + [v], root) == Pointed(visits, root) + if NeedsVptr(root, v) then {v.node} else {};
    if NeedsVptr(of, v) {
      var (e, before) := (VptrFor(of, v.node, top), inits + Secondary(visits, of, top));
      assert Reverse([e] + pending) == Reverse(pending) + [e] by {
        assert ([e] + pending)[1..] == pending;
      }
      assert inits + Secondary(visits + [v], of, top) == before + [e];
      if top {
        VptrsNext(root, before, indices, v.node);
      } else {
        VptrsLater(root, before, indices, [e]);
      }
    }
  }

  /** Whatever is not marked has no subobject that is. */
  ghost predicate UnmarkedClosed(shared: Shared, all: set<Node>, marked: set<Node>)
    requires AllGood(shared)
  {
    forall n :: n in all && n !in marked ==> Good(shared, n) && Reach(shared, n) !! marked
  }

  lemma {:induction false} BaseUnmarked(shared: Shared, all: set<Node>, first: set<Node>, n: Node, i: nat, marked: set<Node>)
    requires AllGood(shared) && Good(shared, n) && i < |n.bases|
    requires Reach(shared, n) <= all && UnmarkedClosed(shared, all, marked)
    ensures var b := Next(shared, n.bases[i]);
      && Good(shared, b) && b.cls < n.cls && Reach(shared, b) <= all
      && ReachBases(shared, n, i + 1) == ReachBases(shared, n, i) + Reach(shared, b)
      && (b !in marked ==> marked - Reach(shared, b) == marked)
  {
    NextGood(shared, n, i);
    BaseReached(shared, n, i, |n.bases|);
  }

  lemma {:induction false} BaseReached(shared: Shared, n: Node, i: nat, k: nat)
    requires AllGood(shared) && Good(shared, n) && i < k <= |n.bases|
    ensures Good(shared, Next(shared, n.bases[i])) && Reach(shared, Next(shared, n.bases[i])) <= ReachBases(shared, n, k)
  {
    NextGood(shared, n, i);
    if i < k - 1 {
      BaseReached(shared, n, i, k - 1);
    }
  }

  /** The nodes that have a sub-VTT inside the one for `n`, `n` included. */
  function SubNodes(shared: Shared, n: Node): set<Node>
    requires AllGood(shared) && Good(shared, n)
    decreases n.cls, |n.bases| + 1
  {
    if !n.usesVirtual then {} else {n} + SubNodesOfBases(shared, n, |n.bases|)
  }

  function SubNodesOfBases(shared: Shared, n: Node, k: nat): set<Node>
    requires AllGood(shared) && Good(shared, n) && k <= |n.bases|
    decreases n.cls, k
  {
    if k == 0 then {}
    else SubNodesOfBases(shared, n, k - 1) + if n.bases[k - 1].isVirtual then {} else SubNodes(shared, n.bases[k - 1])
  }

  function SubNodesOfVbases(shared: Shared, vbases: seq<ClassId>): set<Node>
    requires AllGood(shared) && forall c :: c in vbases ==> c in shared
  {
    if vbases == [] then {}
    else SubNodesOfVbases(shared, vbases[..|vbases| - 1]) + SubNodes(shared, shared[vbases[|vbases| - 1]])
  }

  /** What is new in a map, which keeps what it had for classes from `limit` on. */
  ghost predicate Adds(indices: map<Node, nat>, indices': map<Node, nat>, new': set<Node>, limit: nat) {
    && indices'.Keys == indices.Keys + new'
    && forall n :: n in indices && n.cls >= limit ==> indices'[n] == indices[n]
  }

  /** A sub-VTT is finished. */
  lemma {:induction false} SubVttDone(shared: Shared, before: seq<Entry>, n: Node, indices: map<Node, nat>, open: set<Node>)
    requires AllGood(shared) && Good(shared, n) && n in indices && indices[n] == POINTER_SIZE * |before|
    requires SubVttsRight(shared, before + Vtt(shared, n, false), indices, open + {n})
    ensures SubVttsRight(shared, before + Vtt(shared, n, false), indices, open)
  {
    var inits := before + Vtt(shared, n, false);
    assert inits[|before|..] == Vtt(shared, n, false);
    forall m | m in indices && m !in open
      ensures SubVttRight(shared, inits, m, indices[m])
    {
      if m != n {
        assert m !in open + {n} && SubVttRight(shared, inits, m, indices[m]);
      }
    }
  }

  lemma {:induction false} SubVttsNext(shared: Shared, first: seq<Entry>, n: Node, i: nat)
    requires AllGood(shared) && Good(shared, n) && i < |n.bases|
    ensures first + SubVtts(shared, n, i + 1) ==
      first + SubVtts(shared, n, i) + if n.bases[i].isVirtual then [] else Vtt(shared, n.bases[i], false)
  {
  }

  class VttBuilder {
    const shared: Shared
    const root: Node
    var inits: seq<Entry>
    var index: nat
    var marked: set<Node>
    var pending: seq<Entry>
    var vptrIndex: map<Node, nat>
    var subvttIndex: map<Node, nat>

    ghost predicate Walking(of: Node, top: bool, visits: seq<Visit>, keys: set<Node>)
      reads this
    {
      WalkState(root, of, top, visits, marked, pending, inits, index, vptrIndex, keys)
    }

    /** Finding the base whose table is used instead. */
    static method Climb(n: Node) returns (id: nat)
      ensures id == Sharing(n.id, n.primaryOf)
    {
      id := n.id;
      var p := n.primaryOf;
      while p.PrimaryOf?
        invariant Sharing(id, p) == Sharing(n.id, n.primaryOf)
        decreases p
      {
        id, p := p.id, p.above;
      }
    }

    /** `dfs_build_secondary_vptr_vtt_inits` */
    method VisitNode(of: Node, n: Node, via: bool, top: bool, ghost visits: seq<Visit>, ghost keys: set<Node>)
      requires Walking(of, top, visits, keys) && (top ==> of == root)
      modifies this`index, this`marked, this`pending, this`vptrIndex
      ensures Walking(of, top, visits + [Visit(n, via)], keys)
    {
      VisitOne(root, of, top, visits, marked, pending, inits, index, vptrIndex, keys, Visit(n, via));
      marked := marked + {n};
      if NeedsVptr(of, Visit(n, via)) {
        if top {
          vptrIndex := vptrIndex[n := index];
        }
        index := index + POINTER_SIZE;
        var table := n.id;
        if top && n.isVirtual {
          table := Climb(n);
        }
        pending := [Vptr(of.id, table)] + pending;
      }
    }

    /** `dfs_walk_real`, in preorder, leaving out the nodes that are marked. */
    method WalkNode(of: Node, n: Node, via: bool, top: bool, ghost visits: seq<Visit>, ghost keys: set<Node>)
      requires AllGood(shared) && Good(shared, n) && Walking(of, top, visits, keys) && (top ==> of == root)
      modifies this`index, this`marked, this`pending, this`vptrIndex
      ensures Walking(of, top, Walk(shared, n, via, visits), keys)
      decreases n.cls
    {
      VisitNode(of, n, via, top, visits, keys);
      ghost var start := visits + [Visit(n, via)];
      var i := 0;
      while i < |n.bases|
        invariant 0 <= i <= |n.bases| && Walking(of, top, WalkBases(shared, n, via, i, start), keys)
      {
        NextGood(shared, n, i);
        var b := Next(shared, n.bases[i]);
        if b !in marked {
          WalkNode(of, b, b.isVirtual || via, top, WalkBases(shared, n, via, i, start), keys);
        }
        i := i + 1;
      }
    }

    /** `dfs_walk` with `dfs_unmark`, in postorder, over the nodes that are marked. */
    method Unmark(n: Node, ghost all: set<Node>)
      requires AllGood(shared) && Good(shared, n) && n in marked
      requires Reach(shared, n) <= all && UnmarkedClosed(shared, all, marked)
      modifies this`marked
      ensures marked == old(marked) - Reach(shared, n) && UnmarkedClosed(shared, all, marked)
      decreases n.cls
    {
      var i := 0;
      while i < |n.bases|
        invariant 0 <= i <= |n.bases| && UnmarkedClosed(shared, all, marked)
        invariant marked == old(marked) - ReachBases(shared, n, i)
      {
        BaseUnmarked(shared, all, old(marked), n, i, marked);
        var b := Next(shared, n.bases[i]);
        if b in marked {
          Unmark(b, all);
        }
        i := i + 1;
      }
      marked := marked - {n};
    }

    ghost predicate Valid()
      reads this
    {
      && AllGood(shared) && marked == {} && pending == [] && index == POINTER_SIZE * |inits|
      && VptrsRight(root, inits, vptrIndex)
    }

    /** The nodes that get a secondary virtual pointer in the VTT of `of`. */
    ghost function PointedIn(of: Node): set<Node>
      requires AllGood(shared) && Good(shared, of)
    {
      Pointed(Walk(shared, of, false, []), of)
    }

    /** The secondary virtual pointers: collected backwards, then reversed and chained. */
    method AddSecondary(of: Node, top: bool)
      requires Valid() && Good(shared, of) && (top ==> of == root)
      modifies this`inits, this`index, this`marked, this`pending, this`vptrIndex
      ensures Valid() && inits == old(inits) + Secondary(Walk(shared, of, false, []), of, top)
      ensures vptrIndex.Keys == if top then old(vptrIndex.Keys) + PointedIn(of) else old(vptrIndex.Keys)
    {
      assert inits + [] == inits;
      WalkNode(of, of, false, top, [], vptrIndex.Keys);
      WalkVisitsAll(shared, of, false, []);
      assert marked == Reach(shared, of);
      Unmark(of, Reach(shared, of));
      inits := inits + Reverse(pending);
      pending := [];
    }

    /** The start of a VTT: where it is, and its primary virtual pointer. */
    method Begin(n: Node, top: bool, ghost open: set<Node>)
      requires Valid() && SubVttsRight(shared, inits, subvttIndex, open) && (top ==> n == root)
      modifies this`inits, this`index, this`vptrIndex, this`subvttIndex
      ensures Valid() && inits == old(inits) + [Vptr(n.id, n.id)]
      ensures SubVttsRight(shared, inits, subvttIndex, if top then open else open + {n})
      ensures vptrIndex.Keys == if top then old(vptrIndex.Keys) + {n} else old(vptrIndex.Keys)
      ensures subvttIndex == if top then old(subvttIndex) else old(subvttIndex)[n := old(index)]
    {
      SubVttsLater(shared, inits, subvttIndex, open, [Vptr(n.id, n.id)]);
      if top {
        VptrsNext(root, inits, vptrIndex, n);
        vptrIndex := vptrIndex[n := index];
      } else {
        VptrsLater(root, inits, vptrIndex, [Vptr(n.id, n.id)]);
        ghost var before := subvttIndex;
        subvttIndex := subvttIndex[n := index];
        forall m | m in subvttIndex && m !in open + {n}
          ensures SubVttRight(shared, inits + [Vptr(n.id, n.id)], m, subvttIndex[m])
        {
          assert m !in open && subvttIndex[m] == before[m];
          assert SubVttRight(shared, inits + [Vptr(n.id, n.id)], m, before[m]);
        }
      }
      inits, index := inits + [Vptr(n.id, n.id)], index + POINTER_SIZE;
    }

    /** `build_vtt_inits` for a base subobject. */
    method BuildSubVtt(n: Node, ghost open: set<Node>)
      requires Valid() && Good(shared, n) && SubVttsRight(shared, inits, subvttIndex, open)
      modifies this
      ensures Valid() && SubVttsRight(shared, inits, subvttIndex, open)
      ensures inits == old(inits) + Vtt(shared, n, false) && vptrIndex.Keys == old(vptrIndex.Keys)
      ensures Adds(old(subvttIndex), subvttIndex, SubNodes(shared, n), n.cls + 1)
      decreases n.cls, 2
    {
      if !n.usesVirtual {
        assert inits + [] == inits;
        return;
      }
      ghost var before := inits;
      Begin(n, false, open);
      AddSubVtts(n, open + {n});
      SubVttsLater(shared, inits, subvttIndex, open + {n}, Secondary(Walk(shared, n, false, []), n, false));
      AddSecondary(n, false);
      VttPieces(shared, n, false, before);
      SubVttDone(shared, before, n, subvttIndex, open);
    }

    /** The sub-VTTs of the direct non-virtual bases. */
    method AddSubVtts(n: Node, ghost open: set<Node>)
      requires Valid() && Good(shared, n) && SubVttsRight(shared, inits, subvttIndex, open)
      modifies this
      ensures Valid() && SubVttsRight(shared, inits, subvttIndex, open)
      ensures inits == old(inits) + SubVtts(shared, n, |n.bases|) && vptrIndex.Keys == old(vptrIndex.Keys)
      ensures Adds(old(subvttIndex), subvttIndex, SubNodesOfBases(shared, n, |n.bases|), n.cls)
      decreases n.cls, 1
    {
      assert inits + [] == inits;
      var i := 0;
      while i < |n.bases|
        invariant 0 <= i <= |n.bases| && Valid() && SubVttsRight(shared, inits, subvttIndex, open)
        invariant inits == old(inits) + SubVtts(shared, n, i) && vptrIndex.Keys == old(vptrIndex.Keys)
        invariant Adds(old(subvttIndex), subvttIndex, SubNodesOfBases(shared, n, i), n.cls)
      {
        AddSubVtt(n, i, open, old(inits), old(subvttIndex));
        i := i + 1;
      }
    }

    method AddSubVtt(n: Node, i: nat, ghost open: set<Node>, ghost first: seq<Entry>, ghost indices: map<Node, nat>)
      requires Valid() && Good(shared, n) && SubVttsRight(shared, inits, subvttIndex, open) && i < |n.bases|
      requires inits == first + SubVtts(shared, n, i)
      requires Adds(indices, subvttIndex, SubNodesOfBases(shared, n, i), n.cls)
      modifies this
      ensures Valid() && SubVttsRight(shared, inits, subvttIndex, open)
      ensures inits == first + SubVtts(shared, n, i + 1) && vptrIndex.Keys == old(vptrIndex.Keys)
      ensures Adds(indices, subvttIndex, SubNodesOfBases(shared, n, i + 1), n.cls)
      decreases n.cls, 0
    {
      SubVttsNext(shared, first, n, i);
      if !n.bases[i].isVirtual {
        BuildSubVtt(n.bases[i], open);
      }
    }

    method AddVbaseVtt(vbases: seq<ClassId>, i: nat, ghost before: seq<Entry>, ghost keys: set<Node>)
      requires Valid() && SubVttsRight(shared, inits, subvttIndex, {}) && i < |vbases| && forall c :: c in vbases ==> c in shared
      requires inits == before + VbaseVtts(shared, vbases[..i])
      requires subvttIndex.Keys == keys + SubNodesOfVbases(shared, vbases[..i])
      modifies this
      ensures Valid() && SubVttsRight(shared, inits, subvttIndex, {}) && vptrIndex.Keys == old(vptrIndex.Keys)
      ensures inits == before + VbaseVtts(shared, vbases[..i + 1])
      ensures subvttIndex.Keys == keys + SubNodesOfVbases(shared, vbases[..i + 1])
    {
      assert vbases[..i + 1][..i] == vbases[..i];
      BuildSubVtt(shared[vbases[i]], {});
    }

    /** The sub-VTTs of the virtual bases, in the order of the binfo chain. */
    method AddVbaseVtts(vbases: seq<ClassId>)
      requires Valid() && SubVttsRight(shared, inits, subvttIndex, {}) && forall c :: c in vbases ==> c in shared
      modifies this
      ensures Valid() && SubVttsRight(shared, inits, subvttIndex, {})
      ensures inits == old(inits) + VbaseVtts(shared, vbases) && vptrIndex.Keys == old(vptrIndex.Keys)
      ensures subvttIndex.Keys == old(subvttIndex.Keys) + SubNodesOfVbases(shared, vbases)
    {
      assert inits + [] == inits;
      var i := 0;
      while i < |vbases|
        invariant 0 <= i <= |vbases| && Valid() && SubVttsRight(shared, inits, subvttIndex, {})
        invariant inits == old(inits) + VbaseVtts(shared, vbases[..i]) && vptrIndex.Keys == old(vptrIndex.Keys)
        invariant subvttIndex.Keys == old(subvttIndex.Keys) + SubNodesOfVbases(shared, vbases[..i])
      {
        AddVbaseVtt(vbases, i, old(inits), old(subvttIndex.Keys));
        i := i + 1;
      }
      assert vbases[..i] == vbases;
    }

    constructor (shared: Shared, root: Node)
      requires AllGood(shared) && Good(shared, root)
      ensures Valid() && this.shared == shared && this.root == root && inits == []
      ensures vptrIndex == map[] && subvttIndex == map[]
    {
      this.shared, this.root := shared, root;
      inits, index, marked, pending, vptrIndex, subvttIndex := [], 0, {}, [], map[], map[];
    }

    /** `build_vtt_inits` for the complete object: every virtual pointer and every
        sub-VTT is recorded where it is. */
    method BuildVtt(vbases: seq<ClassId>)
      requires Valid() && Good(shared, root) && root.usesVirtual && forall c :: c in vbases ==> c in shared
      requires inits == [] && vptrIndex == map[] && subvttIndex == map[]
      modifies this
      ensures Valid() && SubVttsRight(shared, inits, subvttIndex, {})
      ensures inits == Vtt(shared, root, true) + VbaseVtts(shared, vbases)
      ensures vptrIndex.Keys == {root} + PointedIn(root)
      ensures subvttIndex.Keys == SubNodesOfBases(shared, root, |root.bases|) + SubNodesOfVbases(shared, vbases)
    {
      Begin(root, true, {});
      AddSubVtts(root, {});
      SubVttsLater(shared, inits, subvttIndex, {}, Secondary(Walk(shared, root, false, []), root, true));
      AddSecondary(root, true);
      VttPieces(shared, root, true, []);
      assert vptrIndex.Keys == {root} + PointedIn(root);
      AddVbaseVtts(vbases);
    }
  }

  /** Exactly the subobjects that need one get a secondary virtual pointer, and each
      gets one: the walk meets every subobject, once. */
  lemma {:induction false} SecondaryIsComplete(shared: Shared, root: Node)
    requires AllGood(shared) && Good(shared, root)
    ensures var visits := Walk(shared, root, false, []);
      NoRepeats(visits) && forall n :: n in Reach(shared, root) <==> exists v :: v in visits && v.node == n
  {
    WalkVisitsAll(shared, root, false, []);
    forall n
      ensures n in Reach(shared, root) <==> exists v :: v in Walk(shared, root, false, []) && v.node == n
    {
      assert n in Reach(shared, root) <==> n in Nodes(Walk(shared, root, false, []));
    }
  }
}
