/** The linked list of overload candidates: finding out whether any is viable, and
    keeping those that are. */
module Candidates {
  /** `z_candidate`, its contents and its link. */
  class Candidate<T> {
    const info: T
    var next: Candidate?<T>

    constructor (info: T, next: Candidate?<T>)
      ensures this.info == info && this.next == next
    {
      this.info := info;
      this.next := next;
    }
  }

  /** `nodes` are the nodes of the list that starts at `head`. */
  ghost predicate Linked<T>(nodes: seq<Candidate<T>>, head: Candidate?<T>)
    reads nodes
  {
    && head == (if nodes == [] then null else nodes[0])
    && (forall i {:trigger After(nodes, i)} :: 0 <= i < |nodes| ==> nodes[i].next == After(nodes, i))
    && Distinct(nodes)
  }

  predicate Distinct<A(==)>(s: seq<A>) {
    forall i, j :: 0 <= i < j < |s| ==> s[i] != s[j]
  }

  ghost function After<T>(nodes: seq<Candidate<T>>, i: nat): Candidate?<T>
    requires i < |nodes|
  {
    if i + 1 < |nodes| then nodes[i + 1] else null
  }

  ghost function Infos<T>(nodes: seq<Candidate<T>>): (s: seq<T>)
    ensures |s| == |nodes| && forall i :: 0 <= i < |s| ==> s[i] == nodes[i].info
  {
    seq(|nodes|, i requires 0 <= i < |nodes| => nodes[i].info)
  }

  /** The nodes to keep, in their order. */
  ghost function Kept<T>(nodes: seq<Candidate<T>>, keep: T -> bool): (r: seq<Candidate<T>>)
    ensures forall i :: 0 <= i < |r| ==> r[i] in nodes && keep(r[i].info)
    ensures forall i :: 0 <= i < |nodes| && keep(nodes[i].info) ==> nodes[i] in r
  {
    if nodes == [] then []
    else
      var n := |nodes| - 1;
      Kept(nodes[..n], keep) + if keep(nodes[n].info) then [nodes[n]] else []
  }

  lemma {:induction false} NoneKept<T>(nodes: seq<Candidate<T>>, keep: T -> bool)
    requires forall i :: 0 <= i < |nodes| ==> !keep(nodes[i].info)
    ensures Kept(nodes, keep) == []
  {
    if nodes != [] {
      NoneKept(nodes[..|nodes| - 1], keep);
    }
  }

  /** `any_viable`: whether `splice_viable` would leave anything. */
  method AnyViable<T>(cands: Candidate?<T>, keep: T -> bool, ghost nodes: seq<Candidate<T>>) returns (any: bool)
    requires Linked(nodes, cands)
    ensures any <==> Kept(nodes, keep) != []
  {
    var c := cands;
    ghost var i := 0;
    while c != null
      invariant 0 <= i <= |nodes| && c == if i < |nodes| then nodes[i] else null
      invariant forall j :: 0 <= j < i ==> !keep(nodes[j].info)
      decreases |nodes| - i
    {
      if keep(c.info) {
        assert nodes[i] in Kept(nodes, keep);
        return true;
      }
      assert c.next == After(nodes, i);
      c, i := c.next, i + 1;
    }
    NoneKept(nodes, keep);
    any := false;
  }

  function Without<A>(s: seq<A>, k: nat): (r: seq<A>)
    requires k < |s|
    ensures |r| == |s| - 1 && forall j :: 0 <= j < |r| ==> r[j] == s[if j < k then j else j + 1]
  {
    s[..k] + s[k + 1..]
  }

  lemma {:induction false} DistinctWithout<A>(s: seq<A>, k: nat)
    requires Distinct(s) && k < |s|
    ensures Distinct(Without(s, k))
  {
  }

  /** `*p = (*p)->next`: takes node `k` out of the list. */
  method Unlink<T>(head: Candidate?<T>, prev: Candidate?<T>, cur: Candidate<T>, ghost list: seq<Candidate<T>>, ghost k: nat)
    returns (head': Candidate?<T>)
    requires Linked(list, head) && k < |list| && cur == list[k]
    requires prev == if k == 0 then null else list[k - 1]
    modifies if prev == null then {} else {prev}
    ensures Linked(Without(list, k), head')
  {
    head' := head;
    assert cur.next == After(list, k);
    if prev == null {
      head' := cur.next;
    } else {
      prev.next := cur.next;
    }
    DistinctWithout(list, k);
    ghost var rest := Without(list, k);
    forall j | 0 <= j < |rest|
      ensures rest[j].next == After(rest, j)
    {
      var m := if j < k then j else j + 1;
      assert rest[j] == list[m] && old(list[m].next) == After(list, m);
    }
  }

  /** The first `k` nodes of `list` are what is kept of the first `i` nodes, the
      rest has not been looked at. */
  ghost predicate Cut<T>(nodes: seq<Candidate<T>>, keep: T -> bool, list: seq<Candidate<T>>, i: nat, k: nat) {
    i <= |nodes| && k <= |list| && list[..k] == Kept(nodes[..i], keep) && list[k..] == nodes[i..]
  }

  /** `splice_viable`: unlinks, in place, the candidates that are not to be kept. */
  method SpliceViable<T>(cands: Candidate?<T>, keep: T -> bool, ghost nodes: seq<Candidate<T>>)
    returns (head: Candidate?<T>)
    requires Linked(nodes, cands)
    modifies nodes
    ensures Linked(Kept(nodes, keep), head)
  {
    head := cands;
    var prev: Candidate?<T>, cur := null, cands;
    ghost var list, i: nat, k: nat := nodes, 0, 0;
    NothingCut(nodes, keep);
    while cur != null
      invariant Linked(list, head) && Cut(nodes, keep, list, i, k)
      invariant prev == if k == 0 then null else list[k - 1]
      invariant cur == if k < |list| then list[k] else null
      decreases |nodes| - i
    {
      NextCut(nodes, keep, list, i, k);
      var after := cur.next;
      assert after == After(list, k);
      if keep(cur.info) {
        prev, k := cur, k + 1;
      } else {
        head := Unlink(head, prev, cur, list, k);
        list := Without(list, k);
      }
      cur, i := after, i + 1;
    }
    AllCut(nodes, keep, list, i, k);
  }

  lemma {:induction false} AllCut<T>(nodes: seq<Candidate<T>>, keep: T -> bool, list: seq<Candidate<T>>, i: nat, k: nat)
    requires Cut(nodes, keep, list, i, k) && k == |list|
    ensures list == Kept(nodes, keep)
  {
    assert nodes[i..] == [] && nodes[..i] == nodes && list[..k] == list;
  }

  lemma {:induction false} NothingCut<T>(nodes: seq<Candidate<T>>, keep: T -> bool)
    ensures Cut(nodes, keep, nodes, 0, 0)
  {
    assert nodes[..0] == [];
  }

  lemma {:induction false} NextCut<T>(nodes: seq<Candidate<T>>, keep: T -> bool, list: seq<Candidate<T>>, i: nat, k: nat)
    requires Cut(nodes, keep, list, i, k) && k < |list|
    ensures i < |nodes| && list[k] == nodes[i]
    ensures k > 0 ==> list[k - 1] in nodes
    ensures if keep(nodes[i].info) then Cut(nodes, keep, list, i + 1, k + 1)
            else Cut(nodes, keep, Without(list, k), i + 1, k)
  {
    assert list[k] == list[k..][0] && nodes[i] == nodes[i..][0];
    assert nodes[..i + 1][..i] == nodes[..i];
    assert list[k + 1..] == list[k..][1..] && nodes[i + 1..] == nodes[i..][1..];
    assert list[..k + 1] == list[..k] + [list[k]];
    assert k > 0 ==> list[k - 1] == Kept(nodes[..i], keep)[k - 1];
    assert Without(list, k)[..k] == list[..k] && Without(list, k)[k..] == list[k + 1..];
  }
}
