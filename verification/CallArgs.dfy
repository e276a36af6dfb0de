/** From an argument list to a candidate, and from the chosen candidate to a call: the
    arity test and the conversions of `add_function_candidate`, and the arguments that
    `build_over_call` passes. */
module CallArgs {
  import opened Hierarchy
  import opened Conversions

  /** TYPE_ARG_TYPES: a list that ends in `void_list_node`, or, if there is an ellipsis,
      in nothing. */
  datatype ParmList = VoidEnd | EllipsisEnd | Parm(typ: Type, hasDefault: bool, rest: ParmList)

  datatype Arg = Arg(typ: Type, expr: nat)

  datatype Declared = Declared(typ: Type, hasDefault: bool)

  /** The declared parameters, as a sequence. */
  function Parms(l: ParmList): seq<Declared> {
    if l.Parm? then [Declared(l.typ, l.hasDefault)] + Parms(l.rest) else []
  }

  predicate HasEllipsis(l: ParmList) {
    if l.Parm? then HasEllipsis(l.rest) else l.EllipsisEnd?
  }

  /** The list after its first `n` nodes. */
  function After(l: ParmList, n: nat): (r: ParmList)
    ensures n <= |Parms(l)| ==> Parms(r) == Parms(l)[n..] && HasEllipsis(r) == HasEllipsis(l)
  {
    if n == 0 || !l.Parm? then l else After(l.rest, n - 1)
  }

  lemma {:induction false} AfterNext(l: ParmList, n: nat)
    requires n < |Parms(l)|
    ensures After(l, n).Parm? && After(l, n).rest == After(l, n + 1)
    ensures Parms(l)[n] == Declared(After(l, n).typ, After(l, n).hasDefault)
  {
    if n > 0 {
      AfterNext(l.rest, n - 1);
    }
  }

  lemma {:induction false} AfterAll(l: ParmList)
    ensures After(l, |Parms(l)|) == if HasEllipsis(l) then EllipsisEnd else VoidEnd
  {
    if l.Parm? {
      AfterAll(l.rest);
    }
  }

  /** Enough parameters for `n` arguments, and enough arguments for the parameters. */
  predicate ArityMatches(l: ParmList, n: nat) {
    && (n <= |Parms(l)| || HasEllipsis(l))
    && forall k :: n <= k < |Parms(l)| ==> Parms(l)[k].hasDefault
  }

  /** `sufficient_parms_p` */
  method SufficientParms(l: ParmList) returns (ok: bool)
    ensures ok <==> AllDefaults(Parms(l))
  {
    var (p, i) := (l, 0);
    while p.Parm?
      invariant 0 <= i <= |Parms(l)| && Parms(p) == Parms(l)[i..]
      invariant forall k :: 0 <= k < i ==> Parms(l)[k].hasDefault
      decreases p
    {
      assert Parms(p)[0] == Parms(l)[i];
      if !p.hasDefault {
        return false;
      }
      p, i := p.rest, i + 1;
    }
    ok := true;
  }

  /** The arity test: two loops. */
  method CheckArity(l: ParmList, len: nat) returns (ok: bool)
    ensures ok <==> ArityMatches(l, len)
  {
    var (p, i) := (l, 0);
    while i < len && p.Parm?
      invariant 0 <= i <= len && i <= |Parms(l)| && p == After(l, i)
      decreases len - i
    {
      AfterNext(l, i);
      p, i := p.rest, i + 1;
    }
    if i < len {
      AfterAll(l);
      EndReached(l, i);
      if !p.EllipsisEnd? {
        return false;
      }
    }
    ok := SufficientParms(p);
    DefaultsOfSuffix(Parms(l), i);
  }

  lemma {:induction false} EndReached(l: ParmList, i: nat)
    requires i <= |Parms(l)| && !After(l, i).Parm?
    ensures i == |Parms(l)|
  {
    if i < |Parms(l)| {
      AfterNext(l, i);
    }
  }

  lemma {:induction false} DefaultsOfSuffix(parms: seq<Declared>, i: nat)
    requires i <= |parms|
    ensures AllDefaults(parms[i..]) <==> forall k :: i <= k < |parms| ==> parms[k].hasDefault
  {
    var rest := parms[i..];
    if AllDefaults(rest) {
      forall k | i <= k < |parms|
        ensures parms[k].hasDefault
      {
        assert parms[k] == rest[k - i];
      }
    }
  }

  predicate AllDefaults(parms: seq<Declared>) {
    forall k :: 0 <= k < |parms| ==> parms[k].hasDefault
  }

  /** `implicit_conversion`: from an argument to a parameter type, if there is a way. */
  type Convert = (Type, Arg) -> Option<Conv>

  /** A candidate as overload resolution sees it, without the artificial parameters of
      a constructor: whether the first parameter is an implicit object, and the class
      that the function is taken to come from. */
  datatype Callee = Callee(parms: ParmList, isMethod: bool, ctype: Option<ClassId>)

  /** A method is called with an object, which its first parameter points to. */
  predicate Callable(f: Callee, args: seq<Arg>) {
    f.isMethod ==> args != [] && f.parms.Parm? && f.parms.typ.Pointer?
  }

  /** The type that argument `i` is converted to, given its parameter's type. */
  function ParmType(f: Callee, i: nat, typ: Type): Type {
    if f.ctype.Some? && i == 0 && f.isMethod && typ.Pointer? then Pointer(Class(f.ctype.value, QualsOf(typ.to)), 0)
    else typ
  }

  function EllipsisConv(arg: Arg): Conv {
    Leaf(Identity, arg.typ, Some(arg.typ), Flags(0, false, true, false, false))
  }

  /** Marks the conversion of an implicit object. */
  function MarkThis(isThis: bool, t: Option<Conv>): Option<Conv> {
    if t.Some? && isThis then Some(t.value.(flags := t.value.flags.(thisObject := true))) else t
  }

  /** The conversion sequence that argument `i` has to have: to its parameter, or for an
      ellipsis. */
  function SequenceFor(convert: Convert, f: Callee, args: seq<Arg>, i: nat): Option<Conv>
    requires i < |args|
  {
    MarkThis(i == 0 && f.isMethod,
             if i < |Parms(f.parms)| then convert(ParmType(f, i, Parms(f.parms)[i].typ), args[i])
             else Some(EllipsisConv(args[i])))
  }

  predicate NoneAt(convert: Convert, f: Callee, args: seq<Arg>, i: nat)
    requires i < |args|
  {
    SequenceFor(convert, f, args, i).None?
  }

  predicate BadAt(convert: Convert, f: Callee, args: seq<Arg>, i: nat)
    requires i < |args|
  {
    SequenceFor(convert, f, args, i).Some? && SequenceFor(convert, f, args, i).value.flags.bad
  }

  /** 1 for a viable candidate, -1 if some conversion is bad, 0 if it is not viable. */
  function Viability(convert: Convert, f: Callee, args: seq<Arg>): int {
    if !ArityMatches(f.parms, |args|) then 0
    else if exists i :: 0 <= i < |args| && NoneAt(convert, f, args, i) then 0
    else if exists i :: 0 <= i < |args| && BadAt(convert, f, args, i) then -1
    else 1
  }

  /** The end of the parameters is reached before the arguments only by an ellipsis. */
  lemma {:induction false} NoSurplus(l: ParmList, n: nat, i: nat)
    requires ArityMatches(l, n) && i < n && i <= |Parms(l)|
    ensures i < |Parms(l)| ==> After(l, i).Parm? && After(l, i).rest == After(l, i + 1)
    ensures i < |Parms(l)| ==> Parms(l)[i] == Declared(After(l, i).typ, After(l, i).hasDefault)
    ensures i == |Parms(l)| ==> After(l, i).EllipsisEnd?
  {
    if i < |Parms(l)| {
      AfterNext(l, i);
    } else {
      AfterAll(l);
    }
  }

  /** What is left of the parameters after `i` arguments. */
  function Left(l: ParmList, i: nat): ParmList {
    if i <= |Parms(l)| then After(l, i) else EllipsisEnd
  }

  lemma {:induction false} LeftNext(l: ParmList, n: nat, i: nat)
    requires ArityMatches(l, n) && i < n
    ensures if i < |Parms(l)| then Left(l, i).Parm? && Left(l, i).typ == Parms(l)[i].typ && Left(l, i).rest == Left(l, i + 1)
            else Left(l, i).EllipsisEnd? && Left(l, i + 1).EllipsisEnd?
  {
    if i <= |Parms(l)| {
      NoSurplus(l, n, i);
    }
  }

  /** `add_function_candidate` */
  method AddFunctionCandidate(convert: Convert, f: Callee, args: seq<Arg>) returns (convs: seq<Option<Conv>>, viable: int)
    requires Callable(f, args)
    ensures |convs| == |args| && viable == Viability(convert, f, args)
    ensures viable != 0 ==> forall i :: 0 <= i < |convs| ==> convs[i].Some? && convs[i] == SequenceFor(convert, f, args, i)
  {
    convs := seq(|args|, i => None);
    var enough := CheckArity(f.parms, |args|);
    if !enough {
      return convs, 0;
    }
    viable := 1;
    var (p, i) := (f.parms, 0);
    while i < |args|
      invariant 0 <= i <= |args| == |convs| && (viable == 1 || viable == -1) && p == Left(f.parms, i)
      invariant forall j :: 0 <= j < i ==> convs[j].Some? && convs[j] == SequenceFor(convert, f, args, j)
      invariant viable == -1 <==> exists j :: 0 <= j < i && BadAt(convert, f, args, j)
    {
      LeftNext(f.parms, |args|, i);
      var t := if p.Parm? then convert(ParmType(f, i, p.typ), args[i]) else Some(EllipsisConv(args[i]));
      t := MarkThis(i == 0 && f.isMethod, t);
      convs := convs[i := t];
      if t.None? {
        assert NoneAt(convert, f, args, i);
        return convs, 0;
      }
      if t.value.flags.bad {
        assert BadAt(convert, f, args, i);
        viable := -1;
      }
      p, i := if p.Parm? then p.rest else p, i + 1;
    }
    assert forall j :: 0 <= j < |args| ==> !NoneAt(convert, f, args, j);
  }

  /** The object that a method is called for converts to a pointer to the class that the
      function is taken to come from, as qualified as its own `this`, and is marked. */
  lemma {:induction false} ObjectArgument(convert: Convert, f: Callee, args: seq<Arg>)
    requires Callable(f, args) && f.isMethod
    ensures var (r, q) := (SequenceFor(convert, f, args, 0), QualsOf(f.parms.typ.to));
      var c := convert(match f.ctype case None => f.parms.typ case Some(cls) => Pointer(Class(cls, q), 0), args[0]);
      && (r.Some? <==> c.Some?)
      && (r.Some? ==> r.value.flags.thisObject && r.value.(flags := c.value.flags) == c.value
                      && r.value.flags.bad == c.value.flags.bad && r.value.flags.std == c.value.flags.std)
  {
    assert Parms(f.parms)[0].typ == f.parms.typ;
  }

  /** Any other argument converts to its parameter, or to anything for an ellipsis. */
  lemma {:induction false} OtherArguments(convert: Convert, f: Callee, args: seq<Arg>, i: nat)
    requires i < |args| && (i > 0 || !f.isMethod)
    ensures var r := SequenceFor(convert, f, args, i);
      && (i < |Parms(f.parms)| ==> r == convert(Parms(f.parms)[i].typ, args[i]))
      && (i >= |Parms(f.parms)| ==> r.Some? && r.value.flags.ellipsis && !r.value.flags.bad && !r.value.flags.thisObject
                                    && !r.value.flags.user && r.value.flags.std == IDENTITY_RANK
                                    && r.value.Leaf? && r.value.kind.Identity? && r.value.typ == args[i].typ)
  {
  }

  /** What is passed: the object, an argument converted, the default of a parameter, or
      an argument promoted for an ellipsis. */
  datatype Actual =
    | ThisPointer(arg: Arg, typ: Type)
    | Converted(arg: Arg, conv: Option<Conv>)
    | DefaultOf(typ: Type)
    | ThroughEllipsis(arg: Arg)

  function Longer(f: Callee, args: seq<Arg>): nat {
    if |Parms(f.parms)| > |args| then |Parms(f.parms)| else |args|
  }

  /** What is passed for parameter `i`, or beyond the parameters. */
  function ActualFor(f: Callee, convs: seq<Option<Conv>>, args: seq<Arg>, i: nat): Actual
    requires |convs| == |args| && i < Longer(f, args)
  {
    var parms := Parms(f.parms);
    if i >= |parms| then ThroughEllipsis(args[i])
    else if i >= |args| then DefaultOf(parms[i].typ)
    else if i == 0 && f.isMethod then ThisPointer(args[i], parms[i].typ)
    else Converted(args[i], convs[i])
  }

  /** The first `k` of what is passed. */
  function Passed(f: Callee, convs: seq<Option<Conv>>, args: seq<Arg>, k: nat): seq<Actual>
    requires |convs| == |args| && k <= Longer(f, args)
  {
    if k == 0 then [] else Passed(f, convs, args, k - 1) + [ActualFor(f, convs, args, k - 1)]
  }

  lemma {:induction false} PassedAt(f: Callee, convs: seq<Option<Conv>>, args: seq<Arg>, k: nat)
    requires |convs| == |args| && k <= Longer(f, args)
    ensures |Passed(f, convs, args, k)| == k
    ensures forall i :: 0 <= i < k ==> Passed(f, convs, args, k)[i] == ActualFor(f, convs, args, i)
  {
    if k > 0 {
      PassedAt(f, convs, args, k - 1);
    }
  }

  /** The loop over arguments that have a parameter. */
  method PassMatched(f: Callee, convs: seq<Option<Conv>>, args: seq<Arg>) returns (actuals: seq<Actual>, i: nat)
    requires Callable(f, args) && |convs| == |args| && ArityMatches(f.parms, |args|)
    ensures i <= |args| && i <= |Parms(f.parms)| && (i == |args| || i == |Parms(f.parms)|)
    ensures actuals == Passed(f, convs, args, i)
  {
    var p := f.parms;
    actuals, i := [], 0;
    if f.isMethod {
      LeftNext(f.parms, |args|, 0);
      actuals := [ThisPointer(args[0], p.typ)];
      p, i := p.rest, 1;
    }
    while i < |args| && !p.EllipsisEnd?
      invariant 0 <= i <= |args| && i <= |Parms(f.parms)| && p == Left(f.parms, i)
      invariant actuals == Passed(f, convs, args, i)
      invariant f.isMethod ==> i > 0
      decreases |args| - i
    {
      LeftNext(f.parms, |args|, i);
      actuals := actuals + [Converted(args[i], convs[i])];
      p, i := p.rest, i + 1;
    }
    if i < |args| {
      LeftNext(f.parms, |args|, i);
    }
  }

  /** The loop over default arguments. */
  method PassDefaults(f: Callee, convs: seq<Option<Conv>>, args: seq<Arg>, from: seq<Actual>, n: nat)
    returns (actuals: seq<Actual>)
    requires |convs| == |args| && n <= |Parms(f.parms)| && (n == |args| || n == |Parms(f.parms)|)
    requires n <= |args| && from == Passed(f, convs, args, n)
    ensures actuals == Passed(f, convs, args, |Parms(f.parms)|)
  {
    var (p, i) := (Left(f.parms, n), n);
    actuals := from;
    while p.Parm?
      invariant n <= i <= |Parms(f.parms)| && p == Left(f.parms, i) && actuals == Passed(f, convs, args, i)
      decreases |Parms(f.parms)| - i
    {
      DefaultNext(f.parms, i);
      actuals := actuals + [DefaultOf(p.typ)];
      p, i := p.rest, i + 1;
    }
    EndReached(f.parms, i);
  }

  /** `build_over_call`, as far as the arguments go, after the artificial ones of a
      constructor. */
  method BuildOverCall(f: Callee, convs: seq<Option<Conv>>, args: seq<Arg>) returns (actuals: seq<Actual>)
    requires Callable(f, args) && |convs| == |args| && ArityMatches(f.parms, |args|)
    ensures actuals == Passed(f, convs, args, Longer(f, args))
  {
    var i;
    actuals, i := PassMatched(f, convs, args);
    actuals := PassDefaults(f, convs, args, actuals, i);
    if |Parms(f.parms)| > i {
      i := |Parms(f.parms)|;
    }
    while i < |args|
      invariant |Parms(f.parms)| <= i <= Longer(f, args) && actuals == Passed(f, convs, args, i)
    {
      actuals := actuals + [ThroughEllipsis(args[i])];
      i := i + 1;
    }
  }

  lemma {:induction false} DefaultNext(l: ParmList, i: nat)
    requires i <= |Parms(l)| && Left(l, i).Parm?
    ensures i < |Parms(l)| && Left(l, i).typ == Parms(l)[i].typ && Left(l, i).rest == Left(l, i + 1)
  {
    if i < |Parms(l)| {
      AfterNext(l, i);
    } else {
      AfterAll(l);
    }
  }

  /** `a` is what has to be passed for parameter `i`. */
  predicate PassedRight(convert: Convert, f: Callee, args: seq<Arg>, i: nat, a: Actual) {
    match a
    case ThroughEllipsis(arg) => |Parms(f.parms)| <= i < |args| && arg == args[i]
    case DefaultOf(typ) => |args| <= i < |Parms(f.parms)| && typ == Parms(f.parms)[i].typ
    case ThisPointer(arg, typ) =>
      i == 0 < |args| && f.isMethod && arg == args[0] && 0 < |Parms(f.parms)| && typ == Parms(f.parms)[0].typ
    case Converted(arg, conv) =>
      i < |args| && i < |Parms(f.parms)| && !(i == 0 && f.isMethod) && arg == args[i]
      && conv.Some? && conv == SequenceFor(convert, f, args, i)
  }

  /** A candidate, and if it is viable its call: one argument for each declared parameter,
      in order, then one for each surplus argument; and each argument is passed by the
      conversion that overload resolution found for it. */
  method CallCandidate(convert: Convert, f: Callee, args: seq<Arg>) returns (viable: int, actuals: seq<Actual>)
    requires Callable(f, args)
    ensures viable == Viability(convert, f, args)
    ensures viable != 0 ==> |actuals| == Longer(f, args)
    ensures viable != 0 ==> forall i :: 0 <= i < |actuals| ==> PassedRight(convert, f, args, i, actuals[i])
  {
    var convs;
    convs, viable := AddFunctionCandidate(convert, f, args);
    actuals := [];
    if viable != 0 {
      actuals := BuildOverCall(f, convs, args);
      PassedAt(f, convs, args, Longer(f, args));
    }
  }

  /** Nothing is left over: a default is there for each parameter without an argument,
      and an ellipsis if there are arguments without a parameter. */
  lemma {:induction false} ViableIsComplete(convert: Convert, f: Callee, args: seq<Arg>)
    requires Viability(convert, f, args) != 0
    ensures forall i :: |args| <= i < |Parms(f.parms)| ==> Parms(f.parms)[i].hasDefault
    ensures |args| > |Parms(f.parms)| ==> HasEllipsis(f.parms)
    ensures forall i :: 0 <= i < |args| ==> SequenceFor(convert, f, args, i).Some?
  {
    forall i | 0 <= i < |args|
      ensures SequenceFor(convert, f, args, i).Some?
    {
      assert !NoneAt(convert, f, args, i);
    }
  }
}
