/** How conversion sequences come about: `standard_conversion`, `reference_binding` and
    `implicit_conversion`.  Whatever they build is in canonical form. */
module Building {
  import opened Hierarchy
  import opened Conversions
  import opened CallArgs

  datatype ScalarKind = Integer | Boolean | Real | Enumeral | OtherScalar

  /** A user-defined conversion, as overload resolution finds it: none of them better
      than all others, a constructor, or a conversion function and its return type.
      `bad` is a candidate whose `viable` is -1. */
  datatype UserChoice =
    | Ambiguous
    | ByConstructor(fn: nat, bad: bool)
    | ByFunction(fn: nat, result: Type, bad: bool)

  /** What is known about scalar types, expressions and user-defined conversions. */
  datatype Env = Env(
    w: World,
    kind: nat -> ScalarKind,
    precision: nat -> nat,
    promoted: Type -> Type,
    similar: (Type, Type) -> bool,
    isLvalue: nat -> bool,
    isNullConstant: nat -> bool,
    isStringFor: (nat, Type) -> bool,
    userConversion: (Type, Source) -> Option<UserChoice>,
    toReference: (Type, Source) -> Option<UserChoice>)

  /** What is converted: a type, perhaps of a given expression. */
  datatype Source = Source(typ: Type, expr: Option<nat>)

  datatype LookupFlags = LookupFlags(noConversion: bool, noTempBind: bool)

  predicate Has(s: Source, fact: nat -> bool) {
    s.expr.Some? && fact(s.expr.value)
  }

  function StripTopQuals(t: Type): Type {
    if t.Array? then t else Unqualified(t)
  }

  predicate IsKind(env: Env, t: Type, kinds: set<ScalarKind>) {
    t.Scalar? && env.kind(t.id) in kinds
  }

  /** INTEGRAL_CODE_P or a floating point type */
  predicate IsArithmetic(env: Env, t: Type) {
    IsKind(env, t, {Integer, Enumeral, Boolean, Real})
  }

  /** DERIVED_FROM_P: a class is derived from itself. */
  predicate DerivedFrom(w: World, base: ClassId, derived: ClassId)
    requires Ordered(w)
  {
    base == derived || Derives(w, derived, base)
  }

  /** The identity, and what an array, a function or an lvalue turns into. */
  function Decay(env: Env, src: Source): Conv {
    var from := StripTopQuals(NonReference(src.typ));
    var identity := Leaf(Identity, from, if src.expr.Some? then Some(src.typ) else None, Flags(0, false, false, false, false));
    if from.Func? || from.Array? then Build(LvalueConv, Decayed(from), identity)
    else if src.typ.Reference? || Has(src, env.isLvalue) then Build(RvalueConv, from, identity)
    else identity
  }

  function Bad(c: Conv): Conv {
    c.(flags := c.flags.(bad := true))
  }

  function WithRank(c: Conv, rank: nat): Conv {
    c.(flags := c.flags.(std := rank))
  }

  /** `comp_ptr_ttypes`: with `allConst`, every outer level of `to` is const. */
  predicate QualifiesTo(to: Type, from: Type, allConst: bool) {
    SameCode(to, from) &&
    if to.Offset? && to.base == from.base then QualifiesTo(to.member, from.member, allConst)
    else
      && (to.Func? || (AtLeastAsQualified(to, from) && (allConst || AtLeastAsQualified(from, to))))
      && if to.Pointer? then QualifiesTo(to.to, from.to, allConst && QualsOf(to) & 1 == 1)
         else SameIgnoringQuals(to, from)
  }

  /** A pointer to void, to a member of a derived class, or to a base class. */
  function ConvertPointee(env: Env, to: Type, c: Conv): Conv
    requires Ordered(env.w) && to.Pointer? && c.typ.Pointer?
  {
    var (t, f) := (to.to, c.typ.to);
    if SameIgnoringQuals(f, t) then c
    else if t.Void? && !f.Offset? && !f.Func? then Build(PtrConv, Pointer(Void(QualsOf(f)), 0), c)
    else if f.Offset? && t.Offset? then
      if DerivedFrom(env.w, f.base, t.base) && SameIgnoringQuals(f.member, t.member)
      then Build(PmemConv, Pointer(Offset(t.base, f.member), 0), c) else c
    else if f.Class? && t.Class? && DerivedFrom(env.w, t.cls, f.cls) then
      Build(PtrConv, Pointer(Class(t.cls, QualsOf(f)), 0), c)
    else c
  }

  function ConvertPointer(env: Env, to: Type, c: Conv, src: Source): Option<Conv>
    requires Ordered(env.w) && to.Pointer? && c.typ.Pointer?
  {
    var c' := ConvertPointee(env, to, c);
    if c'.typ == to then Some(c')
    else if QualifiesTo(to.to, c'.typ.to, true) then Some(Build(QualConv, to, c'))
    else if src.expr.Some? && env.isStringFor(src.expr.value, to) then Some(Build(QualConv, to, c'))
    else if env.similar(to.to, c'.typ.to) then Some(Bad(Build(PtrConv, to, c')))
    else None
  }

  /** `standard_conversion`, after the lvalue transformation. */
  function ConvertValue(env: Env, to: Type, c: Conv, src: Source): Option<Conv>
    requires Ordered(env.w)
  {
    var from := c.typ;
    if from == to then Some(c)
    else if (to.Pointer? || to.MemFunc?) && Has(src, env.isNullConstant) then Some(Build(StdConv, to, c))
    else if (IsKind(env, to, {Integer}) && from.Pointer?) || (to.Pointer? && IsKind(env, from, {Integer})) then
      Some(Bad(Build(StdConv, to, c)))
    else if IsKind(env, to, {Enumeral}) && IsKind(env, from, {Integer}) && env.precision(to.id) == env.precision(from.id) then
      Some(Bad(Build(StdConv, to, c)))
    else if to.Pointer? && from.Pointer? then ConvertPointer(env, to, c, src)
    else if to.MemFunc? && from.MemFunc? then
      if DerivedFrom(env.w, from.owner, to.owner) && from.sig == to.sig
      then Some(Build(PmemConv, MemFunc(to.owner, from.sig, 0), c)) else None
    else if IsKind(env, to, {Boolean}) then
      if IsArithmetic(env, from) then Some(Build(StdConv, to, c))
      else if from.Pointer? || from.MemFunc? then Some(WithRank(Build(StdConv, to, c), PBOOL_RANK))
      else None
    else if IsKind(env, to, {Integer, Real}) then
      if IsArithmetic(env, from)
      then Some(if to == env.promoted(from) && c.flags.std <= PROMO_RANK then WithRank(Build(StdConv, to, c), PROMO_RANK)
                else Build(StdConv, to, c))
      else None
    else if to.Class? && from.Class? && ProperlyDerived(env.w, from, to) then
      Some(Build(BaseConv, to, if c.Step? && c.code == RvalueConv then c.from else c))
    else None
  }

  /** `standard_conversion` */
  function StandardConversion(env: Env, to: Type, src: Source): Option<Conv>
    requires Ordered(env.w)
  {
    ConvertValue(env, StripTopQuals(NonReference(to)), Decay(env, src), src)
  }

  /** `reference_related_p` */
  predicate Related(w: World, t1: Type, t2: Type)
    requires Ordered(w)
  {
    SameIgnoringQuals(t1, t2) || (t1.Class? && t2.Class? && DerivedFrom(w, t1.cls, t2.cls))
  }

  /** A reference type that may be bound to a temporary. */
  predicate ConstNonVolatile(t: Type) {
    QualsOf(t) & 3 == 1
  }

  /** Puts a user-defined conversion in the place of the identity. */
  function ReplaceOrigin(c: Conv, leaf: Conv): Conv {
    if c.Leaf? then leaf else c.(from := ReplaceOrigin(c.from, leaf))
  }

  function UserLeaf(fn: nat, typ: Type, src: Source, bad: bool): Conv {
    Leaf(User(fn), typ, Some(src.typ), Flags(0, true, false, false, bad))
  }

  /** The sequence that `build_user_type_conversion_1` makes of its choice: `second` is
      the conversion of the function's result. */
  function UserSequence(choice: UserChoice, to: Type, src: Source, second: Option<Conv>): Option<Conv> {
    match choice
    case Ambiguous => Some(Leaf(Ambig, to, Some(src.typ), Flags(0, true, false, false, true)))
    case ByConstructor(fn, bad) => Some(UserLeaf(fn, to, src, bad))
    case ByFunction(fn, result, bad) =>
      if second.None? then None
      else
        var c := ReplaceOrigin(second.value, UserLeaf(fn, NonReference(result), src, bad));
        Some(c.(flags := c.flags.(user := true, bad := c.flags.bad || bad)))
  }

  /** `implicit_conversion` without user-defined conversions, for the result of a
      conversion function. */
  function WithoutUser(env: Env, to: Type, src: Source, noTempBind: bool): Option<Conv>
    requires Ordered(env.w)
  {
    if to.Reference? then BindReference(env, to, src, LookupFlags(true, noTempBind), StandardConversion(env, to.to, src))
    else StandardConversion(env, to, src)
  }

  /** The user-defined conversion to `to`, if there is one. */
  function ByUser(env: Env, to: Type, src: Source): Option<Conv>
    requires Ordered(env.w)
  {
    match env.userConversion(to, src)
    case None => None
    case Some(choice) =>
      UserSequence(choice, to, src,
                   if choice.ByFunction? then WithoutUser(env, to, Source(choice.result, None), to.Reference?) else None)
  }

  /** `reference_binding`; `value` is the conversion to the type referred to, for a
      temporary. */
  function BindReference(env: Env, ref: Type, src: Source, flags: LookupFlags, value: Option<Conv>): Option<Conv>
    requires Ordered(env.w) && ref.Reference?
  {
    var (to, from) := (ref.to, NonReference(src.typ));
    var related := Related(env.w, to, from);
    var compatible := related && AtLeastAsQualified(to, from);
    var identity := Leaf(Identity, from, if src.expr.Some? then Some(src.typ) else None, Flags(0, false, false, false, false));
    if (src.typ.Reference? || Has(src, env.isLvalue)) && compatible then Some(DirectBinding(ref, identity))
    else if from.Class? && !flags.noConversion && ReferenceByUser(env, ref, src).Some? then ReferenceByUser(env, ref, src)
    else if flags.noTempBind || !ConstNonVolatile(to) then None
    else if from.Class? && compatible then Some(DirectBinding(ref, identity))
    else if related && !AtLeastAsQualified(to, from) then None
    else if value.Some? then Some(Build(RefBind, ref, value.value))
    else None
  }

  /** `convert_class_to_reference`, bound: the conversion function yields an lvalue. */
  function ReferenceByUser(env: Env, ref: Type, src: Source): Option<Conv>
    requires ref.Reference?
  {
    match env.toReference(ref.to, src)
    case Some(ByFunction(fn, result, bad)) => Some(DirectBinding(ref, UserLeaf(fn, result, src, bad)))
    case _ => None
  }

  /** `implicit_conversion` to something that is not a reference. */
  function ToValue(env: Env, to: Type, src: Source, flags: LookupFlags): Option<Conv>
    requires Ordered(env.w)
  {
    var conv := StandardConversion(env, to, src);
    if conv.Some? then conv
    else if src.expr.Some? && (src.typ.Class? || to.Class?) && !flags.noConversion then ByUser(env, to, src)
    else None
  }

  /** `implicit_conversion` */
  function ImplicitConversion(env: Env, to: Type, src: Source, flags: LookupFlags): Option<Conv>
    requires Ordered(env.w)
  {
    if to.Reference? then
      var conv := BindReference(env, to, src, flags, ToValue(env, to.to, src, flags));
      if conv.None? && src.expr.Some? && src.typ.Class? && !flags.noConversion then ByUser(env, to, src) else conv
    else ToValue(env, to, src, flags)
  }

  predicate IsBinding(c: Conv) {
    c.Step? && c.code == RefBind
  }

  /** A canonical sequence to something that is not a reference, of an argument that is
      there. */
  predicate CanonicalValue(c: Conv) {
    !IsBinding(c) && CanonicalChain(c) && WellFlagged(c) && !c.flags.ellipsis && !c.flags.thisObject
  }

  /** It starts from `typ`, without a user-defined conversion. */
  predicate StartsFrom(c: Conv, typ: Type) {
    Origin(c).kind.Identity? && Origin(c).typ == typ
  }

  lemma {:induction false} DecayIsCanonical(env: Env, src: Source)
    ensures var c := Decay(env, src);
      && CanonicalValue(c) && StartsFrom(c, StripTopQuals(NonReference(src.typ))) && Level(c) < 2
      && !c.flags.bad && c.flags.std == 0 && (c.typ.Pointer? ==> c.typ.quals == 0)
  {
    var c := Decay(env, src);
    UnqualifiedTwice(NonReference(src.typ));
    assert c.Step? ==> c.from.Leaf? && Origin(c) == c.from;
  }

  lemma {:induction false} UnqualifiedTwice(t: Type)
    ensures Unqualified(Unqualified(t)) == Unqualified(t)
  {
    if t.Array? {
      UnqualifiedTwice(t.elem);
    }
  }

  /** One conversion on top of a decayed value. */
  lemma {:induction false} BuildIsCanonical(code: Code, typ: Type, c: Conv)
    requires CanonicalValue(c) && code in {StdConv, PtrConv, PmemConv, BaseConv, QualConv}
    requires Level(c) < 2 || (code == QualConv && Level(c) < 3)
      || (code == PtrConv && typ.Pointer? && typ.quals == 0 && c.typ.Pointer? && c.typ.quals == 0 && typ != c.typ
          && c.code in {PtrConv, PmemConv} && Level(c.from) < 2 && c.from.typ.Pointer?)
    ensures CanonicalValue(Build(code, typ, c)) && StartsFrom(Build(code, typ, c), Origin(c).typ) == Origin(c).kind.Identity?
    ensures Origin(Build(code, typ, c)) == Origin(c)
  {
  }

  lemma {:induction false} FlaggedIsCanonical(c: Conv, rank: nat)
    requires CanonicalValue(c) && c.Step? && rank <= PBOOL_RANK
    ensures CanonicalValue(Bad(c)) && Origin(Bad(c)) == Origin(c)
    ensures CanonicalValue(WithRank(c, rank)) && Origin(WithRank(c, rank)) == Origin(c)
  {
  }

  lemma {:induction false} PointerIsCanonical(env: Env, to: Type, c: Conv, src: Source)
    requires Ordered(env.w) && to.Pointer? && to.quals == 0 && c.typ.Pointer? && c.typ.quals == 0
    requires CanonicalValue(c) && Level(c) < 2
    ensures var r := ConvertPointer(env, to, c, src); r.Some? ==> CanonicalValue(r.value) && Origin(r.value) == Origin(c)
  {
    var c' := ConvertPointee(env, to, c);
    if c' != c {
      BuildIsCanonical(c'.code, c'.typ, c);
    }
    if c'.typ != to {
      BuildIsCanonical(QualConv, to, c');
      BuildIsCanonical(PtrConv, to, c');
      FlaggedIsCanonical(Build(PtrConv, to, c'), 0);
    }
  }

  /** Everything that `standard_conversion` builds is canonical. */
  lemma {:induction false} StandardIsCanonical(env: Env, to: Type, src: Source)
    requires Ordered(env.w)
    ensures var r := StandardConversion(env, to, src);
      r.Some? ==> CanonicalValue(r.value) && StartsFrom(r.value, StripTopQuals(NonReference(src.typ)))
  {
    var (to', c) := (StripTopQuals(NonReference(to)), Decay(env, src));
    DecayIsCanonical(env, src);
    BuildIsCanonical(StdConv, to', c);
    FlaggedIsCanonical(Build(StdConv, to', c), PBOOL_RANK);
    FlaggedIsCanonical(Build(StdConv, to', c), PROMO_RANK);
    if to'.Pointer? && c.typ.Pointer? {
      PointerIsCanonical(env, to', c, src);
    }
    if to'.MemFunc? && c.typ.MemFunc? {
      BuildIsCanonical(PmemConv, MemFunc(to'.owner, c.typ.sig, 0), c);
    }
    BuildIsCanonical(BaseConv, to', if c.Step? && c.code == RvalueConv then c.from else c);
  }

  /** What is left when a reference binding is taken off. */
  function Inside(c: Conv): Conv {
    if IsBinding(c) then c.from else c
  }

  /** A canonical sequence that does not mark an implicit object. */
  predicate CanonicalUnmarked(c: Conv) {
    Canonical(c) && !c.flags.thisObject && !c.flags.ellipsis
  }

  lemma {:induction false} BindingIsCanonical(ref: Type, c: Conv)
    requires ref.Reference? && CanonicalValue(c)
    ensures var r := Build(RefBind, ref, c); CanonicalUnmarked(r) && Origin(r) == Origin(c)
  {
  }

  /** A reference bound to what a leaf stands for. */
  lemma {:induction false} DirectIsCanonical(ref: Type, leaf: Conv)
    requires ref.Reference? && leaf.Leaf? && CanonicalValue(leaf)
    ensures CanonicalUnmarked(DirectBinding(ref, leaf)) && Origin(DirectBinding(ref, leaf)) == leaf
  {
    if !SameIgnoringQuals(ref.to, leaf.typ) {
      BuildIsCanonical(BaseConv, ref.to, leaf);
      BindingIsCanonical(ref, Build(BaseConv, ref.to, leaf));
    } else {
      BindingIsCanonical(ref, leaf);
    }
  }

  /** A type that can take the place of another at the start of a sequence. */
  predicate Replaces(new': Type, typ: Type) {
    Unqualified(new') == Unqualified(typ) && (new'.Array? || typ.Array? ==> new' == typ)
  }

  lemma {:induction false} ReplacedChain(c: Conv, leaf: Conv)
    requires CanonicalChain(c) && leaf.Leaf? && CanonicalChain(leaf) && Replaces(leaf.typ, Origin(c).typ)
    ensures var r := ReplaceOrigin(c, leaf);
      CanonicalChain(r) && Origin(r) == leaf && Level(r) == Level(c) && (c.Step? ==> r.typ == c.typ && r.flags == c.flags)
    ensures c.Step? ==> ReplaceOrigin(c, leaf).Step? && ReplaceOrigin(c, leaf).code == c.code
    decreases c
  {
    if c.Step? {
      ReplacedChain(c.from, leaf);
      if c.from.Step? {
        ReplacedChain(c.from.from, leaf);
      }
    }
  }

  lemma {:induction false} UserLeafIsCanonical(fn: nat, typ: Type, src: Source, bad: bool)
    ensures CanonicalValue(UserLeaf(fn, typ, src, bad)) && CanonicalUnmarked(UserLeaf(fn, typ, src, bad))
  {
  }

  /** A standard conversion of a user-defined conversion's result. */
  lemma {:induction false} UserSequenceIsCanonical(second: Conv, fn: nat, result: Type, src: Source, bad: bool)
    requires CanonicalUnmarked(second) && Origin(second).kind.Identity?
    requires Replaces(NonReference(result), Origin(second).typ)
    ensures CanonicalUnmarked(UserSequence(ByFunction(fn, result, bad), result, src, Some(second)).value)
  {
    var leaf := UserLeaf(fn, NonReference(result), src, bad);
    var c := ReplaceOrigin(second, leaf);
    var flags := c.flags.(user := true, bad := c.flags.bad || bad);
    var r := c.(flags := flags);
    ReplacedChain(Inside(second), leaf);
    if IsBinding(second) {
      assert c == second.(from := ReplaceOrigin(second.from, leaf));
      assert Origin(r) == leaf;
    } else {
      FlagsApart(c, flags);
    }
  }

  /** The flags of the outermost conversion do not matter for its place. */
  lemma {:induction false} FlagsApart(c: Conv, flags: Flags)
    requires CanonicalChain(c) && (c.Leaf? ==> flags.std == IDENTITY_RANK)
    ensures CanonicalChain(c.(flags := flags)) && Origin(c.(flags := flags)).kind == Origin(c).kind
  {
  }

  lemma {:induction false} BindingOfReferenceIsCanonical(env: Env, ref: Type, src: Source, flags: LookupFlags, value: Option<Conv>)
    requires Ordered(env.w) && ref.Reference? && (value.Some? ==> CanonicalValue(value.value))
    ensures var r := BindReference(env, ref, src, flags, value); r.Some? ==> CanonicalUnmarked(r.value)
    ensures var r := BindReference(env, ref, src, flags, value);
      r.Some? && flags.noConversion ==>
        (Origin(r.value).kind.Identity? && Origin(r.value).typ == NonReference(src.typ))
        || (value.Some? && Origin(r.value) == Origin(value.value))
  {
    var from := NonReference(src.typ);
    var identity := Leaf(Identity, from, if src.expr.Some? then Some(src.typ) else None, Flags(0, false, false, false, false));
    DirectIsCanonical(ref, identity);
    match env.toReference(ref.to, src) {
      case Some(ByFunction(fn, result, bad)) =>
        UserLeafIsCanonical(fn, result, src, bad);
        DirectIsCanonical(ref, UserLeaf(fn, result, src, bad));
      case _ =>
    }
    if value.Some? {
      BindingIsCanonical(ref, value.value);
    }
  }

  /** A canonical sequence from `src`, without a user-defined conversion. */
  predicate PlainCanonical(c: Conv, src: Source) {
    CanonicalUnmarked(c) && Origin(c).kind.Identity? && Replaces(NonReference(src.typ), Origin(c).typ)
  }

  /** The result of a conversion function, converted further. */
  lemma {:induction false} WithoutUserIsCanonical(env: Env, to: Type, src: Source, noTempBind: bool)
    requires Ordered(env.w)
    ensures var r := WithoutUser(env, to, src, noTempBind);
      r.Some? ==> PlainCanonical(r.value, src) && (!to.Reference? ==> !IsBinding(r.value))
  {
    UnqualifiedTwice(NonReference(src.typ));
    if to.Reference? {
      StandardIsCanonical(env, to.to, src);
      BindingOfReferenceIsCanonical(env, to, src, LookupFlags(true, noTempBind), StandardConversion(env, to.to, src));
    } else {
      StandardIsCanonical(env, to, src);
    }
  }

  lemma {:induction false} ByUserIsCanonical(env: Env, to: Type, src: Source)
    requires Ordered(env.w)
    ensures var r := ByUser(env, to, src);
      r.Some? ==> CanonicalUnmarked(r.value) && (!to.Reference? ==> !IsBinding(r.value))
  {
    match env.userConversion(to, src)
    case None =>
    case Some(choice) =>
      match choice
      case Ambiguous =>
      case ByConstructor(fn, bad) => UserLeafIsCanonical(fn, to, src, bad);
      case ByFunction(fn, result, bad) =>
        var second := WithoutUser(env, to, Source(result, None), to.Reference?);
        WithoutUserIsCanonical(env, to, Source(result, None), to.Reference?);
        if second.Some? {
          UserSequenceIsCanonical(second.value, fn, result, src, bad);
        }
  }

  lemma {:induction false} ToValueIsCanonical(env: Env, to: Type, src: Source, flags: LookupFlags)
    requires Ordered(env.w) && !to.Reference?
    ensures var r := ToValue(env, to, src, flags); r.Some? ==> CanonicalValue(r.value)
  {
    StandardIsCanonical(env, to, src);
    ByUserIsCanonical(env, to, src);
  }

  /** Every sequence that `implicit_conversion` builds is canonical, whatever the types,
      the expression and the user-defined conversions. */
  lemma {:induction false} ImplicitIsCanonical(env: Env, to: Type, src: Source, flags: LookupFlags)
    requires Ordered(env.w) && !(to.Reference? && to.to.Reference?)
    ensures var r := ImplicitConversion(env, to, src, flags); r.Some? ==> CanonicalUnmarked(r.value)
  {
    if to.Reference? {
      ToValueIsCanonical(env, to.to, src, flags);
      BindingOfReferenceIsCanonical(env, to, src, flags, ToValue(env, to.to, src, flags));
      ByUserIsCanonical(env, to, src);
    } else {
      ToValueIsCanonical(env, to, src, flags);
    }
  }

  /** `implicit_conversion` as `add_function_candidate` calls it. */
  function Converting(env: Env, flags: LookupFlags): Convert {
    (t: Type, a: Arg) => if Ordered(env.w) then ImplicitConversion(env, t, Source(a.typ, Some(a.expr)), flags) else None
  }

  /** An object is pointed to, and no parameter is a reference to a reference. */
  predicate Proper(f: Callee, args: seq<Arg>) {
    && Callable(f, args) && (f.isMethod ==> args[0].typ.Pointer?)
    && forall i :: 0 <= i < |Parms(f.parms)| ==>
         !(Parms(f.parms)[i].typ.Reference? && Parms(f.parms)[i].typ.to.Reference?)
  }

  /** The sequence for an implicit object is a conversion of pointers. */
  lemma {:induction false} PointerSequence(env: Env, to: Type, src: Source)
    requires Ordered(env.w) && to.Pointer? && src.typ.Pointer?
    ensures var r := StandardConversion(env, to, src); r.Some? ==> ThisShape(r.value)
  {
    var (to', c) := (StripTopQuals(to), Decay(env, src));
    assert c.typ.Pointer? && Level(c) < 2;
    var c' := ConvertPointee(env, to', c);
    assert c'.typ.Pointer? && StripThis(c').typ.Pointer?;
  }

  /** The conversions of every candidate are canonical, the one of the implicit object
      and those of arguments for an ellipsis included. */
  lemma {:induction false} CandidateIsCanonical(env: Env, flags: LookupFlags, f: Callee, args: seq<Arg>, i: nat)
    requires Ordered(env.w) && Proper(f, args) && i < |args|
    ensures var r := SequenceFor(Converting(env, flags), f, args, i); r.Some? ==> Canonical(r.value)
  {
    if i < |Parms(f.parms)| {
      var (to, src) := (ParmType(f, i, Parms(f.parms)[i].typ), Source(args[i].typ, Some(args[i].expr)));
      ImplicitIsCanonical(env, to, src, flags);
      if i == 0 && f.isMethod {
        PointerSequence(env, to, src);
        ValueOfPointer(env, to, src, flags);
      }
    }
  }

  lemma {:induction false} ValueOfPointer(env: Env, to: Type, src: Source, flags: LookupFlags)
    requires Ordered(env.w) && to.Pointer? && src.typ.Pointer?
    ensures ImplicitConversion(env, to, src, flags) == StandardConversion(env, to, src)
    ensures var r := StandardConversion(env, to, src);
      r.Some? ==> CanonicalValue(r.value) && Canonical(MarkThis(true, r).value)
  {
    StandardIsCanonical(env, to, src);
    PointerSequence(env, to, src);
    var r := StandardConversion(env, to, src);
    if r.Some? {
      FlagsApart(r.value, r.value.flags.(thisObject := true));
    }
  }
}
