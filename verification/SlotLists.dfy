/** BINFO_VIRTUALS: linked lists of slots, which a base subobject shares with its class
    until it gets a table of its own. */
module SlotLists {
  import opened Hierarchy
  import opened VtableRules
  import opened Dispatching

  /** An entry of a list; `owner` is the table it was made for. */
  class SlotNode {
    ghost const owner: Table
    var fn: Fn
    var delta: int
    var next: SlotNode?

    constructor (slot: Slot, ghost owner: Table)
      ensures fn == slot.fn && delta == slot.delta && next == null && this.owner == owner
    {
      this.owner, this.fn, this.delta, this.next := owner, slot.fn, slot.delta, null;
    }
  }

  /** `nodes` are the nodes of the list that starts at `head`. */
  ghost predicate Linked(nodes: seq<SlotNode>, head: SlotNode?)
    reads nodes
  {
    && head == NodeAt(nodes, 0)
    && (forall i {:trigger nodes[i].next} :: 0 <= i < |nodes| ==> nodes[i].next == NodeAt(nodes, i + 1))
    && forall i, j :: 0 <= i < j < |nodes| ==> nodes[i] != nodes[j]
  }

  ghost function NodeAt(nodes: seq<SlotNode>, i: nat): SlotNode? {
    if i < |nodes| then nodes[i] else null
  }

  ghost predicate OwnedBy(nodes: seq<SlotNode>, owner: Table) {
    forall i :: 0 <= i < |nodes| ==> nodes[i].owner == owner
  }

  ghost function Slots(nodes: seq<SlotNode>): (s: seq<Slot>)
    reads nodes
    ensures |s| == |nodes| && forall i :: 0 <= i < |s| ==> s[i] == Slot(nodes[i].fn, nodes[i].delta)
  {
    seq(|nodes|, i requires 0 <= i < |nodes| reads nodes => Slot(nodes[i].fn, nodes[i].delta))
  }

  /** Two lists, the last node of the first pointing at the second. */
  lemma {:induction false} LinkedJoined(nodes: seq<SlotNode>, added: seq<SlotNode>, head: SlotNode?, more: SlotNode?)
    requires nodes != [] && Linked(added, more) && head == nodes[0]
    requires forall i {:trigger nodes[i].next} :: 0 <= i < |nodes| - 1 ==> nodes[i].next == nodes[i + 1]
    requires nodes[|nodes| - 1].next == more
    requires forall i, j :: 0 <= i < j < |nodes| ==> nodes[i] != nodes[j]
    requires forall n :: n in added ==> n !in nodes
    ensures Linked(nodes + added, head)
  {
    var all := nodes + added;
    forall i | 0 <= i < |all|
      ensures all[i].next == NodeAt(all, i + 1)
    {
      if i >= |nodes| {
        assert added[i - |nodes|].next == NodeAt(added, i - |nodes| + 1);
      }
    }
    assert forall i :: 0 <= i < |nodes| ==> nodes[i] in nodes;
    assert forall i :: 0 <= i < |added| ==> added[i] in added;
  }

  lemma {:induction false} SlotsJoined(nodes: seq<SlotNode>, added: seq<SlotNode>, slots: seq<Slot>, slots': seq<Slot>)
    requires Slots(nodes) == slots && Slots(added) == slots'
    ensures Slots(nodes + added) == slots + slots'
  {
  }

  /** The last node of one list is made to point at the other. */
  method LinkAfter(v: SlotNode, head: SlotNode?, more: SlotNode?, ghost nodes: seq<SlotNode>, ghost added: seq<SlotNode>)
    requires nodes != [] && Linked(nodes, head) && v == nodes[|nodes| - 1] && Linked(added, more)
    requires forall n :: n in added ==> n !in nodes
    modifies v
    ensures Linked(nodes + added, head) && Slots(nodes + added) == old(Slots(nodes)) + old(Slots(added))
  {
    ghost var slots, slots' := Slots(nodes), Slots(added);
    assert v in nodes && v !in added;
    assert forall i :: 0 <= i < |added| ==> added[i] in added && added[i] != v;
    assert forall i :: 0 <= i < |nodes| ==> nodes[i].next == NodeAt(nodes, i + 1);
    v.next := more;
    LinkedJoined(nodes, added, head, more);
    SlotsJoined(nodes, added, slots, slots');
  }

  method LastOf(head: SlotNode, ghost nodes: seq<SlotNode>) returns (v: SlotNode)
    requires Linked(nodes, head)
    ensures nodes != [] && v == nodes[|nodes| - 1]
  {
    v := head;
    ghost var j := 0;
    while v.next != null
      invariant 0 <= j < |nodes| && v == nodes[j]
      decreases |nodes| - j
    {
      assert v.next == NodeAt(nodes, j + 1);
      v, j := v.next, j + 1;
    }
    assert v.next == NodeAt(nodes, j + 1);
  }

  /** `chainon` */
  method ChainLists(head: SlotNode?, more: SlotNode?, ghost nodes: seq<SlotNode>, ghost added: seq<SlotNode>) returns (head': SlotNode?)
    requires Linked(nodes, head) && Linked(added, more)
    requires forall n :: n in added ==> n !in nodes
    modifies nodes
    ensures Linked(nodes + added, head') && Slots(nodes + added) == old(Slots(nodes)) + old(Slots(added))
  {
    if head == null {
      assert nodes + added == added;
      head' := more;
    } else {
      var v := LastOf(head, nodes);
      LinkAfter(v, head, more, nodes, added);
      head' := head;
    }
  }

  /** A node at the end. */
  method LinkLast(head: SlotNode?, last: SlotNode?, node: SlotNode, ghost nodes: seq<SlotNode>) returns (head': SlotNode?)
    requires Linked(nodes, head) && node.next == null && node !in nodes
    requires last == if nodes == [] then null else nodes[|nodes| - 1]
    modifies if last == null then {} else {last}
    ensures Linked(nodes + [node], head') && Slots(nodes + [node]) == old(Slots(nodes)) + [Slot(node.fn, node.delta)]
    ensures unchanged(node)
  {
    head' := head;
    if last == null {
      head' := node;
    } else {
      last.next := node;
    }
    ghost var all := nodes + [node];
    forall i | 0 <= i < |all|
      ensures all[i].next == NodeAt(all, i + 1)
    {
      assert i < |nodes| ==> old(nodes[i].next) == NodeAt(nodes, i + 1);
    }
    assert Slots(all) == old(Slots(nodes)) + [Slot(node.fn, node.delta)];
  }

  /** The list built so far is for the first `i` slots. */
  ghost predicate CopiedUpTo(copies: seq<SlotNode>, head: SlotNode?, last: SlotNode?, owner: Table, slots: seq<Slot>, i: nat)
    reads copies
  {
    && Linked(copies, head) && OwnedBy(copies, owner) && last == (if copies == [] then null else copies[|copies| - 1])
    && i <= |slots| && Slots(copies) == slots[..i]
  }

  method CopyOne(head: SlotNode?, ghost copies: seq<SlotNode>, last: SlotNode?, slot: Slot, ghost owner: Table,
                 ghost slots: seq<Slot>, ghost i: nat)
    returns (head': SlotNode?, ghost copies': seq<SlotNode>, last': SlotNode)
    requires CopiedUpTo(copies, head, last, owner, slots, i) && i < |slots| && slot == slots[i]
    modifies if last == null then {} else {last}
    ensures CopiedUpTo(copies', head', last', owner, slots, i + 1)
    ensures copies' == copies + [last'] && fresh(last')
  {
    last' := new SlotNode(slot, owner);
    head' := LinkLast(head, last, last', copies);
    copies' := copies + [last'];
    OneMore(slots, i);
  }

  lemma {:induction false} OneMore(s: seq<Slot>, i: nat)
    requires i < |s|
    ensures s[..i + 1] == s[..i] + [s[i]]
  {
  }

  /** A binfo: its list, and BINFO_NEW_VTABLE_MARKED. */
  class Table {
    ghost const path: Path
    var virtuals: SlotNode?
    var isNew: bool
    ghost var nodes: seq<SlotNode>

    ghost predicate Valid()
      reads this, nodes
    {
      Linked(nodes, virtuals) && (isNew ==> OwnedBy(nodes, this))
    }

    /** A binfo starts with the list of its class. */
    constructor (virtuals: SlotNode?, ghost nodes: seq<SlotNode>, ghost path: Path)
      requires Linked(nodes, virtuals)
      ensures Valid() && !isNew && this.nodes == nodes && this.path == path
    {
      this.virtuals, this.isNew, this.nodes, this.path := virtuals, false, nodes, path;
    }

    /** `copy_virtuals` */
    method CopyVirtuals() returns (copy: SlotNode?, ghost copies: seq<SlotNode>)
      requires Valid()
      ensures Linked(copies, copy) && OwnedBy(copies, this) && fresh(copies) && Slots(copies) == Slots(nodes)
    {
      var last: SlotNode?, from := null, virtuals;
      copy, copies := null, [];
      ghost var i, slots := 0, Slots(nodes);
      while from != null
        invariant 0 <= i <= |nodes| && from == NodeAt(nodes, i)
        invariant fresh(copies)
        invariant CopiedUpTo(copies, copy, last, this, slots, i)
        decreases |nodes| - i
      {
        var slot, next := Slot(from.fn, from.delta), from.next;
        assert slot == slots[i] && next == NodeAt(nodes, i + 1);
        copy, copies, last := CopyOne(copy, copies, last, slot, this, slots, i);
        from, i := next, i + 1;
      }
    }

    /** `make_new_vtable`: unless there is one already, a fresh list. */
    method MakeNewVtable() returns (made: bool)
      requires Valid()
      modifies if isNew then {} else {this}
      ensures Valid() && isNew && made == !old(isNew) && Slots(nodes) == old(Slots(nodes))
      ensures if made then fresh(nodes) else nodes == old(nodes)
    {
      made := !isNew;
      if made {
        ghost var copies;
        virtuals, copies := CopyVirtuals();
        nodes := copies;
        isNew := true;
      }
    }

    /** `value_member` */
    method ValueMember(fn: Fn) returns (found: bool)
      requires Valid()
      ensures found <==> exists i :: 0 <= i < |nodes| && Slots(nodes)[i].fn == fn
    {
      var v := virtuals;
      ghost var j := 0;
      while v != null
        invariant 0 <= j <= |nodes| && v == NodeAt(nodes, j)
        invariant forall i :: 0 <= i < j ==> Slots(nodes)[i].fn != fn
        decreases |nodes| - j
      {
        assert Slots(nodes)[j].fn == v.fn && v.next == NodeAt(nodes, j + 1);
        if v.fn == fn {
          return true;
        }
        v, j := v.next, j + 1;
      }
      found := false;
    }

    /** The list of the table with another one at its end. */
    method ChainOn(more: SlotNode?, ghost added: seq<SlotNode>)
      requires Valid() && isNew && Linked(added, more) && OwnedBy(added, this)
      requires forall n :: n in added ==> n !in nodes
      modifies this, nodes
      ensures Valid() && isNew && nodes == old(nodes) + added && Slots(nodes) == old(Slots(nodes)) + old(Slots(added))
    {
      virtuals := ChainLists(virtuals, more, nodes, added);
      nodes := nodes + added;
    }

    /** Finding an entry again by its function. */
    method FindAgain(fn: Fn, ghost i: nat) returns (entry: SlotNode)
      requires Valid() && i < |nodes| && nodes[i].fn == fn
      requires forall j :: 0 <= j < i ==> nodes[j].fn != fn
      ensures entry == nodes[i]
    {
      var v := virtuals;
      ghost var j := 0;
      while v.fn != fn
        invariant 0 <= j <= i && v == nodes[j]
        decreases i - j
      {
        assert v.next == NodeAt(nodes, j + 1);
        v, j := v.next, j + 1;
      }
      entry := v;
    }

    /** An entry is overwritten, in a fresh copy of the list if need be. */
    method Replace(entry: SlotNode, slot: Slot, ghost i: nat) returns (entry': SlotNode)
      requires Valid() && i < |nodes| && entry == nodes[i]
      requires isNew || forall j :: 0 <= j < i ==> nodes[j].fn != nodes[i].fn
      modifies if isNew then {entry as object} else {this}
      ensures Valid() && i < |nodes| && entry' == nodes[i] && Slots(nodes) == old(Slots(nodes))[i := slot]
      ensures old(isNew) ==> isNew && nodes == old(nodes)
      ensures nodes == old(nodes) || fresh(nodes)
    {
      entry' := entry;
      ghost var before := Slots(nodes);
      var made := MakeNewVtable();
      assert Slots(nodes) == before;
      if made {
        assert forall j :: 0 <= j < |nodes| ==> nodes[j].fn == before[j].fn;
        entry' := FindAgain(entry.fn, i);
      }
      Overwrite(entry', slot, i);
    }

    /** `modify_vtable_entry`: entry number `i` becomes `slot`, whose function can from
        now on be called as the one that it replaces, unless it has a way already. */
    method ModifyVtableEntry(entry: SlotNode, slot: Slot, fns: Functions, ghost i: nat) returns (entry': SlotNode)
      requires Valid() && i < |nodes| && entry == nodes[i]
      requires isNew || forall j :: 0 <= j < i ==> nodes[j].fn != nodes[i].fn
      modifies fns, if isNew then {entry as object} else {this}
      ensures Valid() && i < |nodes| && entry' == nodes[i] && Slots(nodes) == old(Slots(nodes))[i := slot]
      ensures old(isNew) ==> isNew && nodes == old(nodes)
      ensures nodes == old(nodes) || fresh(nodes)
      ensures fns.dispatch == Through(old(fns.dispatch), slot.fn, old(entry.fn))
    {
      entry' := entry;
      if slot.fn != entry.fn || slot.delta != entry.delta {
        var base := entry.fn;
        entry' := Replace(entry, slot, i);
        fns.CallThrough(slot.fn, base);
      }
    }

    method Overwrite(entry: SlotNode, slot: Slot, ghost i: nat)
      requires Valid() && i < |nodes| && entry == nodes[i]
      modifies entry
      ensures Valid() && nodes == old(nodes) && Slots(nodes) == old(Slots(nodes))[i := slot]
    {
      entry.delta := slot.delta;
      entry.fn := slot.fn;
    }
  }

  ghost predicate Holds(table: Table, slots: seq<Slot>)
    reads table, table.nodes
  {
    table.Valid() && Slots(table.nodes) == slots
  }

  /** A list of its own for the subobject at `path`. */
  ghost predicate HoldsFor(path: Path, table: Table, slots: seq<Slot>)
    reads table, table.nodes
  {
    Holds(table, slots) && table.isNew && table.path == path
  }

  /** What a complete class has: TYPE_BINFO_VIRTUALS, CLASSTYPE_VSIZE, and the lists of
      its subobjects. */
  datatype ClassTables = ClassTables(virtuals: Table, vsize: nat, group: map<Path, Table>)

  /** The entries for the functions that are new in class `c`. */
  method NewEntries(c: ClassId, added: seq<Sig>, ghost owner: Table) returns (head: SlotNode?, ghost nodes: seq<SlotNode>)
    ensures Linked(nodes, head) && OwnedBy(nodes, owner) && fresh(nodes) && Slots(nodes) == NewSlots(c, added)
  {
    head, nodes := null, [];
    var last: SlotNode? := null;
    for i := 0 to |added|
      invariant fresh(nodes) && CopiedUpTo(nodes, head, last, owner, NewSlots(c, added), i)
    {
      head, nodes, last := CopyOne(head, nodes, last, Slot(Fn(c, added[i]), 0), owner, NewSlots(c, added), i);
    }
  }

  /** Lists of different subobjects share nothing. */
  lemma {:induction false} ListsApart(p: Path, q: Path, t: Table, u: Table, ts: seq<Slot>, us: seq<Slot>)
    requires HoldsFor(p, t, ts) && HoldsFor(q, u, us) && p != q
    ensures t != u && forall n :: n in t.nodes ==> n !in u.nodes
  {
    forall n | n in t.nodes
      ensures n !in u.nodes
    {
      assert n.owner == t;
    }
  }
}
