/** CLASSTYPE_METHOD_VEC: constructors in slot 0, destructors in slot 1, then one slot
    for each name, conversion operators before the others. */
module MethodVec {
  import opened Hierarchy

  datatype Role = Constructor | Destructor | Member

  /** A conversion operator is one by its name. */
  datatype Name = Conversion(id: nat) | Plain(id: nat)

  /** `parms` does not include `this`, whose qualifiers are `thisQuals`; `context` is
      the class that declares the method, another one for a using-declaration. */
  datatype Method = Method(
    role: Role,
    name: Name,
    context: ClassId,
    isTemplate: bool,
    isStatic: bool,
    thisQuals: bv3,
    parms: seq<nat>,
    result: nat)

  /** What the vector holds: each group is the overloads of one name, latest first. */
  datatype Table = Table(
    ctors: seq<Method>,
    dtors: seq<Method>,
    convs: seq<seq<Method>>,
    others: seq<seq<Method>>)

  /** The test of "cannot be overloaded". */
  predicate Conflict(fn: Method, method': Method) {
    && fn.isTemplate == method'.isTemplate
    && (fn.isStatic || method'.isStatic || fn.thisQuals == method'.thisQuals)
    && fn.parms == method'.parms
    && (fn.name.Conversion? ==> fn.result == method'.result)
  }

  /** The first method of the slot that is in the way. */
  function FirstConflict(fns: seq<Method>, m: Method): (r: Option<nat>)
    ensures r.Some? ==> r.value < |fns| && Conflict(fns[r.value], m)
    ensures r.None? ==> forall i :: 0 <= i < |fns| ==> !Conflict(fns[i], m)
  {
    if fns == [] then None
    else if Conflict(fns[0], m) then Some(0)
    else
      match FirstConflict(fns[1..], m)
      case None => None
      case Some(i) => Some(i + 1)
  }

  /** The group for a name. */
  function Find(groups: seq<seq<Method>>, name: Name): (r: nat)
    ensures r <= |groups|
    ensures forall i :: 0 <= i < r ==> groups[i] == [] || groups[i][0].name != name
    ensures r < |groups| ==> groups[r] != [] && groups[r][0].name == name
  {
    if groups == [] then 0
    else if groups[0] != [] && groups[0][0].name == name then 0
    else 1 + Find(groups[1..], name)
  }

  function AddTo(groups: seq<seq<Method>>, m: Method): seq<seq<Method>> {
    var i := Find(groups, m.name);
    if i == |groups| then groups + [[m]] else groups[i := [m] + groups[i]]
  }

  function Group(groups: seq<seq<Method>>, name: Name): seq<Method> {
    var i := Find(groups, name);
    if i == |groups| then [] else groups[i]
  }

  /** The methods that a new one would join. */
  function Overloads(t: Table, m: Method): seq<Method> {
    match m.role
    case Constructor => t.ctors
    case Destructor => t.dtors
    case Member => if m.name.Conversion? then Group(t.convs, m.name) else Group(t.others, m.name)
  }

  function Insert(t: Table, m: Method): Table {
    match m.role
    case Constructor => t.(ctors := [m] + t.ctors)
    case Destructor => t.(dtors := [m] + t.dtors)
    case Member =>
      if m.name.Conversion? then t.(convs := AddTo(t.convs, m)) else t.(others := AddTo(t.others, m))
  }

  /** Whether a method is let in; anything is, while the class is a template. */
  predicate Accepted(t: Table, m: Method, inTemplate: bool) {
    inTemplate || FirstConflict(Overloads(t, m), m).None?
  }

  function Added(t: Table, m: Method, inTemplate: bool): Table {
    if Accepted(t, m, inTemplate) then Insert(t, m) else t
  }

  /** One name to a group and one group to a name. */
  predicate GroupsByName(groups: seq<seq<Method>>) {
    && (forall i :: 0 <= i < |groups| ==> groups[i] != [])
    && (forall i, j :: 0 <= i < |groups| && 0 <= j < |groups[i]| ==>
          groups[i][j].role.Member? && groups[i][j].name == groups[i][0].name)
    && (forall i, j :: 0 <= i < j < |groups| ==> groups[i][0].name != groups[j][0].name)
  }

  predicate NoConflicts(fns: seq<Method>) {
    forall i, j :: 0 <= i < j < |fns| ==> !Conflict(fns[j], fns[i])
  }

  /** The groups of the conversion operators, or of the other methods. */
  predicate WellGrouped(groups: seq<seq<Method>>, conversions: bool, inTemplate: bool) {
    && GroupsByName(groups)
    && (forall i :: 0 <= i < |groups| ==> groups[i][0].name.Conversion? == conversions)
    && (!inTemplate ==> forall i :: 0 <= i < |groups| ==> NoConflicts(groups[i]))
  }

  predicate WellFormed(t: Table, inTemplate: bool) {
    && (forall i :: 0 <= i < |t.ctors| ==> t.ctors[i].role.Constructor?)
    && (forall i :: 0 <= i < |t.dtors| ==> t.dtors[i].role.Destructor?)
    && WellGrouped(t.convs, true, inTemplate) && WellGrouped(t.others, false, inTemplate)
    && (!inTemplate ==> NoConflicts(t.ctors) && NoConflicts(t.dtors))
  }

  /** What slot `j` holds. */
  function Slot(t: Table, j: nat): seq<Method> {
    if j == 0 then t.ctors
    else if j == 1 then t.dtors
    else if j < 2 + |t.convs| then t.convs[j - 2]
    else if j < Used(t) then t.others[j - 2 - |t.convs|]
    else []
  }

  /** How many slots are in use. */
  function Used(t: Table): nat {
    2 + |t.convs| + |t.others|
  }

  /** The vector, slot by slot: empty slots only at the end. */
  predicate Represents(v: seq<seq<Method>>, t: Table) {
    |v| >= Used(t) && forall j :: 0 <= j < |v| ==> v[j] == Slot(t, j)
  }

  lemma {:induction false} PrependNoConflicts(fns: seq<Method>, m: Method)
    requires NoConflicts(fns) && FirstConflict(fns, m).None?
    ensures NoConflicts([m] + fns)
  {
  }

  lemma {:induction false} AddToKeepsGroups(groups: seq<seq<Method>>, conversions: bool, inTemplate: bool, m: Method)
    requires WellGrouped(groups, conversions, inTemplate) && m.role.Member? && m.name.Conversion? == conversions
    requires inTemplate || FirstConflict(Group(groups, m.name), m).None?
    ensures WellGrouped(AddTo(groups, m), conversions, inTemplate)
  {
    if !inTemplate {
      PrependNoConflicts(Group(groups, m.name), m);
    }
  }

  /** Adding a method keeps the table well formed. */
  lemma {:induction false} AddedKeepsWellFormed(t: Table, m: Method, inTemplate: bool)
    requires WellFormed(t, inTemplate)
    ensures WellFormed(Added(t, m, inTemplate), inTemplate)
  {
    if Accepted(t, m, inTemplate) {
      match m.role
      case Constructor =>
        if !inTemplate {
          PrependNoConflicts(t.ctors, m);
        }
      case Destructor =>
        if !inTemplate {
          PrependNoConflicts(t.dtors, m);
        }
      case Member =>
        if m.name.Conversion? {
          AddToKeepsGroups(t.convs, true, inTemplate, m);
        } else {
          AddToKeepsGroups(t.others, false, inTemplate, m);
        }
    }
  }

  /** The two methods belong in one slot. */
  predicate Together(m: Method, n: Method) {
    m.role == n.role && (m.role.Member? ==> m.name == n.name)
  }

  lemma {:induction false} GroupAfter(groups: seq<seq<Method>>, conversions: bool, inTemplate: bool, m: Method, name: Name)
    requires WellGrouped(groups, conversions, inTemplate)
    ensures Group(AddTo(groups, m), name) == if m.name == name then [m] + Group(groups, name) else Group(groups, name)
  {
    var i := Find(groups, m.name);
    var groups' := AddTo(groups, m);
    FindIs(groups', m.name, i);
    if m.name != name {
      var k := Find(groups, name);
      if k < |groups| {
        FindIs(groups', name, k);
      } else {
        FindIs(groups', name, |groups'|);
      }
    }
  }

  lemma {:induction false} FindIs(groups: seq<seq<Method>>, name: Name, i: nat)
    requires i <= |groups| && forall k :: 0 <= k < i ==> groups[k] == [] || groups[k][0].name != name
    requires i < |groups| ==> groups[i] != [] && groups[i][0].name == name
    ensures Find(groups, name) == i
  {
  }

  /** A method that is let in joins its own slot, in front, and no other. */
  lemma {:induction false} AddedOverloads(t: Table, m: Method, n: Method, inTemplate: bool)
    requires WellFormed(t, inTemplate)
    ensures Overloads(Added(t, m, inTemplate), n) ==
            if Together(m, n) && Accepted(t, m, inTemplate) then [m] + Overloads(t, n) else Overloads(t, n)
  {
    GroupAfter(t.convs, true, inTemplate, m, n.name);
    GroupAfter(t.others, false, inTemplate, m, n.name);
  }

  const CONSTRUCTOR_SLOT := 0
  const DESTRUCTOR_SLOT := 1
  const FIRST_CONVERSION_SLOT := 2

  /** The slot of a name, or the first one that is empty. */
  function SlotFor(t: Table, name: Name): nat {
    if Find(t.convs, name) < |t.convs| then 2 + Find(t.convs, name)
    else 2 + |t.convs| + Find(t.others, name)
  }

  /** A conversion's name is not among the others, nor the other way round. */
  lemma {:induction false} NotAmong(groups: seq<seq<Method>>, conversions: bool, inTemplate: bool, name: Name)
    requires WellGrouped(groups, conversions, inTemplate) && name.Conversion? != conversions
    ensures Find(groups, name) == |groups|
  {
  }

  /** The vector `v` is ready for `m` to join slot `slot`. */
  predicate Ready(v: seq<seq<Method>>, t: Table, m: Method, slot: nat) {
    && slot < |v| && v[slot] == Overloads(t, m)
    && Represents(v[slot := [m] + v[slot]], Insert(t, m))
    && (v[slot] != [] ==> Represents(v, t))
  }

  lemma {:induction false} ReadySpecial(v: seq<seq<Method>>, t: Table, m: Method)
    requires Represents(v, t) && !m.role.Member?
    ensures Ready(v, t, m, if m.role.Constructor? then CONSTRUCTOR_SLOT else DESTRUCTOR_SLOT)
  {
  }

  lemma {:induction false} SlotsAfterConversion(t: Table, inTemplate: bool, m: Method, j: nat)
    requires WellFormed(t, inTemplate) && m.role.Member? && m.name.Conversion? && SlotFor(t, m.name) < Used(t)
    ensures Slot(Insert(t, m), j) == if j == SlotFor(t, m.name) then [m] + Slot(t, j) else Slot(t, j)
  {
    var k := Find(t.convs, m.name);
    NotAmong(t.others, false, inTemplate, m.name);
    assert k < |t.convs| && SlotFor(t, m.name) == 2 + k;
    var convs := t.convs[k := [m] + t.convs[k]];
    assert Insert(t, m) == t.(convs := convs);
    assert Used(Insert(t, m)) == Used(t);
  }

  lemma {:induction false} SlotsAfterPlain(t: Table, inTemplate: bool, m: Method, j: nat)
    requires WellFormed(t, inTemplate) && m.role.Member? && m.name.Plain?
    ensures Slot(Insert(t, m), j) == if j == SlotFor(t, m.name) then [m] + Slot(t, j) else Slot(t, j)
  {
    NotAmong(t.convs, true, inTemplate, m.name);
  }

  lemma {:induction false} SlotForOverloads(t: Table, inTemplate: bool, m: Method)
    requires WellFormed(t, inTemplate) && m.role.Member?
    ensures Slot(t, SlotFor(t, m.name)) == Overloads(t, m)
    ensures Used(Insert(t, m)) == if SlotFor(t, m.name) < Used(t) then Used(t) else Used(t) + 1
  {
    if m.name.Conversion? {
      NotAmong(t.others, false, inTemplate, m.name);
    } else {
      NotAmong(t.convs, true, inTemplate, m.name);
    }
  }

  /** Ready at the slot of the name, or at the first empty slot. */
  lemma {:induction false} ReadyAtName(v: seq<seq<Method>>, t: Table, inTemplate: bool, m: Method)
    requires WellFormed(t, inTemplate) && Represents(v, t) && m.role.Member?
    requires SlotFor(t, m.name) < |v| && (v[SlotFor(t, m.name)] != [] || m.name.Plain?)
    ensures Ready(v, t, m, SlotFor(t, m.name))
  {
    SlotForOverloads(t, inTemplate, m);
    forall j | 0 <= j < |v|
      ensures Slot(Insert(t, m), j) == if j == SlotFor(t, m.name) then [m] + Slot(t, j) else Slot(t, j)
    {
      if m.name.Conversion? {
        SlotsAfterConversion(t, inTemplate, m, j);
      } else {
        SlotsAfterPlain(t, inTemplate, m, j);
      }
    }
  }

  /** Ready where the ordinary methods have been slid up. */
  lemma {:induction false} ReadyForConversion(v: seq<seq<Method>>, v': seq<seq<Method>>, t: Table, m: Method)
    requires Represents(v, t) && m.role.Member? && m.name.Conversion?
    requires Find(t.convs, m.name) == |t.convs| && Used(t) < |v| && Opened(v, v', 2 + |t.convs|)
    ensures Ready(v', t, m, 2 + |t.convs|)
  {
  }

  /** `v'` is `v` with an empty slot slid in. */
  predicate Opened(v: seq<seq<Method>>, v': seq<seq<Method>>, slot: nat) {
    && slot < |v| == |v'| && v'[slot] == []
    && forall j :: 0 <= j < |v| && j != slot ==> v'[j] == v[if j < slot then j else j - 1]
  }

  /** What happens to a method: it goes in; it gives way to the class's own function;
      or it is in error. */
  datatype Verdict = Entered | Deferred | CannotBeOverloaded

  function Judge(t: Table, m: Method, cls: ClassId, inTemplate: bool): Verdict {
    if Accepted(t, m, inTemplate) then Entered
    else
      var fns := Overloads(t, m);
      if m.context != cls && fns[FirstConflict(fns, m).value].context == cls then Deferred else CannotBeOverloaded
  }

  /** The class being defined, as far as `add_method` goes. */
  class ClassType {
    const cls: ClassId
    const inTemplate: bool
    var vec: array?<seq<Method>>
    ghost var table: Table

    constructor (cls: ClassId, inTemplate: bool)
      ensures this.cls == cls && this.inTemplate == inTemplate && Valid() && table == Table([], [], [], []) && vec == null
    {
      this.cls, this.inTemplate, vec := cls, inTemplate, null;
      table := Table([], [], [], []);
    }

    ghost predicate Valid()
      reads this, vec
    {
      && WellFormed(table, inTemplate)
      && if vec == null then table == Table([], [], [], []) else Represents(vec[..], table)
    }

    /** The slot for a name: the one it has, or the first empty one, or none. */
    method FindSlot(m: Method) returns (slot: nat)
      requires Valid() && vec != null && m.role.Member?
      ensures slot == SlotFor(table, m.name)
    {
      slot := FIRST_CONVERSION_SLOT;
      while slot < vec.Length && !(vec[slot] == [] || vec[slot][0].name == m.name)
        invariant 2 <= slot <= Used(table)
        invariant forall i :: 2 <= i < slot ==> Slot(table, i) != [] && Slot(table, i)[0].name != m.name
      {
        slot := slot + 1;
      }
      SlotForIs(table, m.name, slot);
    }

    /** A bigger vector: twice as big while the class is being defined. */
    method Grow(errorP: bool)
      requires Valid() && vec != null
      modifies this`vec
      ensures Valid() && vec != null && fresh(vec)
      ensures vec.Length == if errorP then old(vec.Length) + 1 else 2 * old(vec.Length)
    {
      var newLen := if errorP then vec.Length + 1 else 2 * vec.Length;
      var newVec := new seq<Method>[newLen](_ => []);
      forall i | 0 <= i < vec.Length {
        newVec[i] := vec[i];
      }
      vec := newVec;
    }

    /** Slides the ordinary methods up, for a new conversion operator. */
    method MakeRoom() returns (slot: nat)
      requires Valid() && vec != null && Used(table) < vec.Length
      modifies vec
      ensures slot == FIRST_CONVERSION_SLOT + |table.convs| && Opened(old(vec[..]), vec[..], slot)
    {
      slot := FIRST_CONVERSION_SLOT;
      while slot < vec.Length && vec[slot] != [] && vec[slot][0].name.Conversion?
        invariant 2 <= slot <= 2 + |table.convs|
      {
        slot := slot + 1;
      }
      assert slot == 2 + |table.convs|;
      if vec[slot] != [] {
        forall i | slot < i < vec.Length {
          vec[i] := vec[i - 1];
        }
        vec[slot] := [];
      }
    }

    /** The slot for a method that is not special, in a vector with room for it. */
    method PlaceMember(m: Method, errorP: bool) returns (slot: nat)
      requires Valid() && vec != null && m.role.Member?
      modifies this`vec, vec
      ensures vec != null && Ready(vec[..], table, m, slot) && (vec == old(vec) || fresh(vec))
    {
      slot := FindSlot(m);
      if slot == vec.Length {
        Grow(errorP);
      }
      if m.name.Conversion? && vec[slot] == [] {
        ghost var v := vec[..];
        slot := MakeRoom();
        ReadyForConversion(v, vec[..], table, m);
      } else {
        ReadyAtName(vec[..], table, inTemplate, m);
      }
    }

    /** The slot for any method. */
    method Place(m: Method, errorP: bool) returns (slot: nat)
      requires Valid() && vec != null
      modifies this`vec, vec
      ensures vec != null && Ready(vec[..], table, m, slot) && (vec == old(vec) || fresh(vec))
    {
      if m.role.Member? {
        slot := PlaceMember(m, errorP);
      } else {
        slot := if m.role.Constructor? then CONSTRUCTOR_SLOT else DESTRUCTOR_SLOT;
        ReadySpecial(vec[..], table, m);
      }
    }

    /** The loop that looks for a function in the way. */
    method InTheWay(fns: seq<Method>, m: Method) returns (found: Option<Method>)
      ensures found == match FirstConflict(fns, m) case None => None case Some(i) => Some(fns[i])
    {
      var i := 0;
      while i < |fns|
        invariant 0 <= i <= |fns|
        invariant forall j :: 0 <= j < i ==> !Conflict(fns[j], m)
      {
        if Conflict(fns[i], m) {
          FirstIs(fns, m, i);
          return Some(fns[i]);
        }
        i := i + 1;
      }
      found := None;
    }

    /** `add_method` */
    method AddMethod(m: Method, errorP: bool) returns (verdict: Verdict)
      requires Valid()
      modifies this, vec
      ensures Valid() && table == Added(old(table), m, inTemplate)
      ensures verdict == Judge(old(table), m, cls, inTemplate)
    {
      if vec == null {
        vec := new seq<Method>[8](_ => []);
      }
      var slot := Place(m, errorP);
      AddedKeepsWellFormed(table, m, inTemplate);
      if !inTemplate {
        var found := InTheWay(vec[slot], m);
        if found.Some? {
          return if m.context != cls && found.value.context == cls then Deferred else CannotBeOverloaded;
        }
      }
      vec[slot] := [m] + vec[slot];
      table := Insert(table, m);
      verdict := Entered;
    }
  }

  lemma {:induction false} SlotForIs(t: Table, name: Name, slot: nat)
    requires 2 <= slot <= Used(t)
    requires forall i :: 2 <= i < slot ==> Slot(t, i) != [] && Slot(t, i)[0].name != name
    requires slot < Used(t) ==> Slot(t, slot) != [] && Slot(t, slot)[0].name == name
    ensures SlotFor(t, name) == slot
  {
    forall k | 0 <= k < |t.convs| && 2 + k <= slot
      ensures Slot(t, 2 + k) == t.convs[k]
    {
    }
    FindIs(t.convs, name, if slot < 2 + |t.convs| then slot - 2 else |t.convs|);
    if slot >= 2 + |t.convs| {
      forall k | 0 <= k < |t.others| && 2 + |t.convs| + k <= slot
        ensures Slot(t, 2 + |t.convs| + k) == t.others[k]
      {
      }
      FindIs(t.others, name, slot - 2 - |t.convs|);
    }
  }

  lemma {:induction false} FirstIs(fns: seq<Method>, m: Method, i: nat)
    requires i < |fns| && Conflict(fns[i], m) && forall j :: 0 <= j < i ==> !Conflict(fns[j], m)
    ensures FirstConflict(fns, m) == Some(i)
  {
    if i > 0 {
      FirstIs(fns[1..], m, i - 1);
    }
  }

  /** The table after a run of additions. */
  function Run(methods: seq<Method>, inTemplate: bool): (t: Table)
    ensures WellFormed(t, inTemplate)
  {
    if methods == [] then Table([], [], [], [])
    else
      var before := Run(methods[..|methods| - 1], inTemplate);
      AddedKeepsWellFormed(before, methods[|methods| - 1], inTemplate);
      Added(before, methods[|methods| - 1], inTemplate)
  }

  /** One slot after a run of additions, kept as a plain list. */
  function Joined(methods: seq<Method>, n: Method, inTemplate: bool): seq<Method> {
    if methods == [] then []
    else
      var (m, before) := (methods[|methods| - 1], Joined(methods[..|methods| - 1], n, inTemplate));
      if Together(m, n) && (inTemplate || FirstConflict(before, m).None?) then [m] + before else before
  }

  /** Every run: each slot holds what a list of its own would. */
  lemma {:induction false} RunIsJoined(methods: seq<Method>, n: Method, inTemplate: bool)
    ensures Overloads(Run(methods, inTemplate), n) == Joined(methods, n, inTemplate)
  {
    if methods != [] {
      var (before, m) := (methods[..|methods| - 1], methods[|methods| - 1]);
      RunIsJoined(before, n, inTemplate);
      AddedOverloads(Run(before, inTemplate), m, n, inTemplate);
      if Together(m, n) {
        assert Overloads(Run(before, inTemplate), m) == Overloads(Run(before, inTemplate), n);
      }
    }
  }

  /** Who gets in, outside a template: a method that differs from each function of its
      name in being a template, in its parameters, in the object it is called for (which
      counts only between two that are not static), or, if it is a conversion operator, in
      its result. */
  lemma {:induction false} EntersIfDifferent(t: Table, m: Method, cls: ClassId)
    ensures Judge(t, m, cls, false).Entered? <==>
            forall f :: f in Overloads(t, m) ==>
              || f.isTemplate != m.isTemplate || f.parms != m.parms
              || (!f.isStatic && !m.isStatic && f.thisQuals != m.thisQuals)
              || (f.name.Conversion? && f.result != m.result)
  {
    var fns := Overloads(t, m);
    if FirstConflict(fns, m).Some? {
      assert fns[FirstConflict(fns, m).value] in fns;
    }
  }

  /** A function of the class is never passed over in silence, and neither is one from a
      using-declaration that only such functions are in the way of; one that only
      functions of the class itself are in the way of always is. */
  lemma {:induction false} WhoDefers(t: Table, m: Method, cls: ClassId)
    requires FirstConflict(Overloads(t, m), m).Some?
    ensures m.context == cls ==> Judge(t, m, cls, false).CannotBeOverloaded?
    ensures m.context != cls && (forall f :: f in Overloads(t, m) ==> f.context == cls) ==> Judge(t, m, cls, false).Deferred?
    ensures (forall f :: f in Overloads(t, m) ==> f.context != cls) ==> Judge(t, m, cls, false).CannotBeOverloaded?
  {
    var fns := Overloads(t, m);
    assert fns[FirstConflict(fns, m).value] in fns;
  }

  lemma {:induction false} NoneInTheWay(t: Table, n: Method)
    requires WellFormed(t, false)
    ensures NoConflicts(Overloads(t, n))
  {
  }

  /** After any run: two functions of one name, or two constructors, are different in that
      sense... */
  lemma {:induction false} OverloadsDiffer(methods: seq<Method>, n: Method, i: nat, j: nat)
    requires i < j < |Overloads(Run(methods, false), n)|
    ensures var (f, g) := (Overloads(Run(methods, false), n)[i], Overloads(Run(methods, false), n)[j]);
      || f.isTemplate != g.isTemplate || f.parms != g.parms
      || (!f.isStatic && !g.isStatic && f.thisQuals != g.thisQuals)
      || (g.name.Conversion? && f.result != g.result)
  {
    var fns := Overloads(Run(methods, false), n);
    NoneInTheWay(Run(methods, false), n);
    assert !Conflict(fns[j], fns[i]);
  }

  /** ... and every method of the run is there, or one that came before it and is not. */
  lemma {:induction false} NothingLost(methods: seq<Method>, k: nat) returns (i: nat)
    requires k < |methods|
    ensures i <= k && methods[i] in Overloads(Run(methods, false), methods[k])
    ensures var (f, g) := (methods[i], methods[k]);
      && f.isTemplate == g.isTemplate && f.parms == g.parms
      && (f.isStatic || g.isStatic || f.thisQuals == g.thisQuals)
      && (f.name.Conversion? ==> f.result == g.result)
  {
    RunIsJoined(methods, methods[k], false);
    i := KeptOrJoined(methods, k);
  }

  lemma {:induction false} KeptOrJoined(methods: seq<Method>, k: nat) returns (i: nat)
    requires k < |methods|
    ensures i <= k && methods[i] in Joined(methods, methods[k], false) && Conflict(methods[i], methods[k])
  {
    var (before, m) := (methods[..|methods| - 1], methods[|methods| - 1]);
    if k < |before| {
      i := KeptOrJoined(before, k);
    } else {
      var fns := Joined(before, m, false);
      i := k;
      if FirstConflict(fns, m).Some? {
        i := CameFrom(before, m, fns[FirstConflict(fns, m).value]);
      }
    }
  }

  lemma {:induction false} CameFrom(methods: seq<Method>, n: Method, f: Method) returns (i: nat)
    requires f in Joined(methods, n, false)
    ensures i < |methods| && methods[i] == f
  {
    i := |methods| - 1;
    if f in Joined(methods[..|methods| - 1], n, false) {
      i := CameFrom(methods[..|methods| - 1], n, f);
    }
  }
}
