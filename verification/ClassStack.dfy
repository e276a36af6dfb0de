/** The stack of classes being defined or entered: `pushclass`, `popclass` and what is
    built on them. */
module ClassStack {
  import opened Hierarchy

  datatype Access = Public | Protected | Private

  /** What is current: no name and no type outside every class. */
  datatype Scope = Scope(name: nat, typ: Option<ClassId>, access: Access)

  /** A class: the class that encloses it, if one does, and whether it was declared with
      the keyword `class`. */
  datatype ClassDef = ClassDef(name: nat, context: Option<ClassId>, declaredClass: bool)

  /** An enclosing class comes earlier. */
  predicate Nested(defs: seq<ClassDef>) {
    forall c :: 0 <= c < |defs| && defs[c].context.Some? ==> defs[c].context.value < c
  }

  /** The scope that a class opens. */
  function Opened(defs: seq<ClassDef>, c: ClassId): Scope
    requires c < |defs|
  {
    Scope(defs[c].name, Some(c), if defs[c].declaredClass then Private else Public)
  }

  /** The scopes from the outermost enclosing class to `c` itself. */
  function Enclosing(defs: seq<ClassDef>, c: ClassId): (s: seq<Scope>)
    requires Nested(defs) && c < |defs|
    ensures s != [] && s[|s| - 1] == Opened(defs, c)
  {
    var outer := defs[c].context;
    (if outer.Some? then Enclosing(defs, outer.value) else []) + [Opened(defs, c)]
  }

  /** What the parser does inside a class and its nested classes. */
  datatype Event = Push(c: ClassId) | Pop | SetTo(access: Access)

  /** With `n` classes opened so far: every class opened is closed, nothing else is, and
      access specifiers are inside classes. */
  predicate Balanced(events: seq<Event>, n: nat) {
    if events == [] then n == 0
    else
      match events[0]
      case Push(_) => Balanced(events[1..], n + 1)
      case Pop => n > 0 && Balanced(events[1..], n - 1)
      case SetTo(_) => n > 0 && Balanced(events[1..], n)
  }

  class ClassScopes {
    const defs: seq<ClassDef>
    /** current_class_stack: what to go back to, outermost first. */
    var stack: array<Scope>
    /** current_class_depth */
    var depth: nat
    var current: Scope

    ghost predicate Valid()
      reads this, stack
    {
      && Nested(defs) && depth < stack.Length
      && Scopes()[0].typ.None?
      && forall i :: 1 <= i <= depth ==> Scopes()[i].typ.Some? && Scopes()[i].typ.value < |defs|
    }

    /** All the scopes: the outside, then every open class, the current one last. */
    ghost function Scopes(): (s: seq<Scope>)
      requires depth < stack.Length
      reads this, stack
      ensures |s| == depth + 1
    {
      stack[..depth] + [current]
    }

    constructor (defs: seq<ClassDef>, outside: Scope)
      requires Nested(defs) && outside.typ.None?
      ensures Valid() && Scopes() == [outside] && this.defs == defs && fresh(stack)
    {
      this.defs, depth, current := defs, 0, outside;
      stack := new Scope[10](_ => outside);
    }

    /** `pushclass` */
    method PushClass(c: ClassId)
      requires Valid() && c < |defs|
      modifies this, stack
      ensures Valid() && Scopes() == old(Scopes()) + [Opened(defs, c)]
      ensures current.typ == Some(c) && current.name == defs[c].name
      ensures current.access == if defs[c].declaredClass then Private else Public
      ensures stack == old(stack) || fresh(stack)
    {
      if depth + 1 >= stack.Length {
        var unused := current;
        var bigger := new Scope[2 * stack.Length](_ => unused);
        forall i | 0 <= i < stack.Length {
          bigger[i] := stack[i];
        }
        stack := bigger;
      }
      assert stack[..depth] == old(stack[..depth]);
      ghost var before := stack[..depth] + [current];
      stack[depth] := current;
      depth := depth + 1;
      assert stack[..depth] == before;
      current := Opened(defs, c);
    }

    /** `popclass` */
    method PopClass()
      requires Valid() && depth > 0
      modifies this
      ensures Valid() && Scopes() == old(Scopes()[..depth]) && stack == old(stack)
    {
      ghost var before := Scopes();
      depth := depth - 1;
      current := stack[depth];
      assert Scopes() == before[..depth + 1];
    }

    /** An access specifier among the members. */
    method SetAccess(access: Access)
      requires Valid()
      modifies this
      ensures Valid() && Scopes() == old(Scopes()[depth := current.(access := access)]) && stack == old(stack)
    {
      ghost var before := Scopes();
      assert before[depth] == current;
      current := current.(access := access);
      assert Scopes() == before[depth := current];
      assert forall i :: 0 <= i <= depth ==> Scopes()[i].typ == before[i].typ;
    }

    /** `currently_open_class` */
    method CurrentlyOpen(c: ClassId) returns (open: bool)
      requires Valid()
      ensures open <==> exists i :: 1 <= i <= depth && Scopes()[i].typ == Some(c)
    {
      if current.typ == Some(c) {
        assert Scopes()[depth].typ == Some(c);
        return true;
      }
      var i := 1;
      while i < depth
        invariant 1 <= i
        invariant forall j :: 1 <= j < i && j < depth ==> stack[j].typ != Some(c)
      {
        if stack[i].typ == Some(c) {
          assert Scopes()[i] == stack[i];
          return true;
        }
        i := i + 1;
      }
      open := false;
    }

    /** `push_nested_class`; anything but a class is ignored. */
    method PushNestedClass(t: Option<ClassId>)
      requires Valid() && (t.Some? ==> t.value < |defs|)
      modifies this, stack
      ensures Valid() && (stack == old(stack) || fresh(stack))
      ensures Scopes() == match t case None => old(Scopes()) case Some(c) => old(Scopes()) + Enclosing(defs, c)
      decreases if t.Some? then t.value + 1 else 0
    {
      if t.None? {
        return;
      }
      var context := defs[t.value].context;
      if context.Some? {
        PushNestedClass(context);
      }
      PushClass(t.value);
    }

    /** `pop_nested_class`, when what is on top is a class with all the classes around it. */
    method PopNestedClass(ghost below: seq<Scope>, ghost c: ClassId)
      requires Valid() && c < |defs| && below != [] && Scopes() == below + Enclosing(defs, c)
      modifies this
      ensures Valid() && Scopes() == below && stack == old(stack)
      decreases c
    {
      assert Scopes()[depth] == current;
      var context := defs[current.typ.value].context;
      PopClass();
      assert Scopes() == below + if context.Some? then Enclosing(defs, context.value) else [];
      if context.Some? {
        PopNestedClass(below, context.value);
      }
    }

    /** Balanced runs restore the name, the type, the access, the depth and everything
        below, through any number of doublings. */
    method Perform(events: seq<Event>)
      requires Valid() && Balanced(events, 0)
      requires forall i :: 0 <= i < |events| && events[i].Push? ==> events[i].c < |defs|
      modifies this, stack
      ensures Valid() && Scopes() == old(Scopes()) && depth == old(depth) && current == old(current)
    {
      var i := 0;
      ghost var mine: seq<Scope> := [];
      assert Scopes() + [] == Scopes();
      while i < |events|
        invariant 0 <= i <= |events| && Valid() && (stack == old(stack) || fresh(stack))
        invariant Scopes() == old(Scopes()) + mine && Balanced(events[i..], |mine|)
      {
        assert events[i..][1..] == events[i + 1..];
        match events[i] {
          case Push(c) =>
            PushClass(c);
            mine := mine + [Opened(defs, c)];
          case Pop =>
            PopClass();
            mine := mine[..|mine| - 1];
          case SetTo(access) =>
            SetAccess(access);
            mine := mine[|mine| - 1 := current];
        }
        i := i + 1;
      }
      assert Scopes()[depth] == current && old(Scopes())[old(depth)] == old(current);
    }

    /** `push_nested_class`, then `pop_nested_class`: the identity, at any depth. */
    method VisitNested(c: ClassId)
      requires Valid() && c < |defs|
      modifies this, stack
      ensures Valid() && Scopes() == old(Scopes()) && depth == old(depth)
    {
      PushNestedClass(Some(c));
      PopNestedClass(old(Scopes()), c);
    }
  }
}
