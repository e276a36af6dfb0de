/** How far `compare_ics` orders the conversion sequences that one expression can have:
    when being better carries over from one sequence to the next. */
module Ranking {
  import opened Hierarchy
  import opened Conversions
  import opened Building

  /** A base of a base is a base. */
  lemma {:induction false} BaseOfBase(w: World, c: ClassId, d: ClassId, t: ClassId)
    requires Ordered(w) && c < |w| && d < |w| && NumSubobjects(w, c, d) > 0 && NumSubobjects(w, d, t) > 0
    ensures NumSubobjects(w, c, t) > 0
    decreases c, |w[c].decl.bases| + 1
  {
    if c != d && c != t {
      BaseOfBases(w, c, d, t, |w[c].decl.bases|);
    }
  }

  lemma {:induction false} BaseOfBases(w: World, c: ClassId, d: ClassId, t: ClassId, k: nat)
    requires Ordered(w) && c < |w| && d < |w| && k <= |w[c].decl.bases| && NumSubobjects(w, d, t) > 0
    ensures NumInBases(w, c, d, k) > 0 ==> NumInBases(w, c, t, k) > 0
    decreases c, k
  {
    if k > 0 {
      BaseOfBases(w, c, d, t, k - 1);
      if NumSubobjects(w, w[c].decl.bases[k - 1], d) > 0 {
        BaseOfBase(w, w[c].decl.bases[k - 1], d, t);
      }
    }
  }

  lemma {:induction false} DerivesTransitive(w: World, a: ClassId, b: ClassId, c: ClassId)
    requires Ordered(w) && Derives(w, a, b) && Derives(w, b, c)
    ensures Derives(w, a, c)
  {
    BaseOfBase(w, a, b, c);
    if a < b {
      NoSubobjectAbove(w, a, b);
    } else if b < c {
      NoSubobjectAbove(w, b, c);
    }
  }

  /** What the rules about derivation see of a type. */
  datatype About =
    | Object(c: ClassId)
    | MemberFunction(c: ClassId)
    | ToObject(c: ClassId)
    | ToMember(c: ClassId)
    | ToMemberFunction
    | ToVoid
    | Other

  function AboutOf(t: Type): About {
    match t
    case Class(c, _) => Object(c)
    case MemFunc(c, _, _) => MemberFunction(c)
    case Pointer(Class(c, _), _) => ToObject(c)
    case Pointer(Offset(c, _), _) => ToMember(c)
    case Pointer(MemFunc(_, _, _), _) => ToMemberFunction
    case Pointer(Void(_), _) => ToVoid
    case _ => Other
  }

  /** From something about `s`: `a` is a better target than `b`. */
  predicate Nearer(w: World, s: About, a: About, b: About)
    requires Ordered(w)
  {
    match (s, a, b)
    case (Object(f), Object(x), Object(y)) => Derives(w, f, x) && Derives(w, f, y) && Derives(w, x, y)
    case (MemberFunction(_), MemberFunction(x), MemberFunction(y)) => Derives(w, y, x)
    case (ToObject(f), ToObject(x), ToVoid) => Derives(w, f, x)
    case (ToObject(_), ToObject(x), ToObject(y)) => Derives(w, x, y)
    case (ToMemberFunction, ToObject(x), ToObject(y)) => Derives(w, x, y)
    case (ToMember(_), ToMember(x), ToMember(y)) => Derives(w, y, x)
    case _ => false
  }

  /** A pointer to something that is not a base is better than one to a base, and that
      one is better than a pointer to void; but nothing is said about the first and the
      last. */
  predicate Gap(w: World, s: About, a: About, c: About)
    requires Ordered(w)
  {
    s.ToObject? && a.ToObject? && c.ToVoid? && !Derives(w, s.c, a.c)
  }

  lemma {:induction false} NearerTransitive(w: World, s: About, a: About, b: About, c: About)
    requires Ordered(w) && Nearer(w, s, a, b) && Nearer(w, s, b, c)
    ensures Nearer(w, s, a, c) <==> !Gap(w, s, a, c)
  {
    match (a, b, c) {
      case (Object(x), Object(y), Object(z)) => DerivesTransitive(w, x, y, z);
      case (ToObject(x), ToObject(y), ToObject(z)) => DerivesTransitive(w, x, y, z);
      case (MemberFunction(x), MemberFunction(y), MemberFunction(z)) => DerivesTransitive(w, z, y, x);
      case (ToMember(x), ToMember(y), ToMember(z)) => DerivesTransitive(w, z, y, x);
      case _ =>
    }
  }

  /** Two types of one expression, perhaps with and without its own qualifiers. */
  predicate OneExpression(f: Type, g: Type) {
    !f.Reference? && !g.Reference? && SameIgnoringQuals(f, g)
  }

  /** The rules about derivation, in one table. */
  lemma {:induction false} DerivationIsNearer(w: World, f: Type, t: Type, g: Type, u: Type)
    requires Ordered(w) && OneExpression(f, g) && !t.Reference? && !u.Reference?
    ensures CompareDerivation(w, f, t, g, u) == 1 <==> Nearer(w, AboutOf(f), AboutOf(t), AboutOf(u)) && (f.Class? ==> f == g)
  {
    if f.Pointer? && t.Pointer? && u.Pointer? {
      PointersAreNearer(w, f, t, g, u);
    } else if f.MemFunc? && t.MemFunc? && u.MemFunc? {
      assert Pointees(f, t, g, u).value == (Class(t.owner, 0), Class(f.owner, 0), Class(u.owner, 0), Class(f.owner, 0));
    } else {
      NothingPointedTo(w, f, t, g, u);
    }
  }

  lemma {:induction false} NothingPointedTo(w: World, f: Type, t: Type, g: Type, u: Type)
    requires Ordered(w) && OneExpression(f, g) && !t.Reference? && !u.Reference? && Pointees(f, t, g, u).None?
    ensures CompareDerivation(w, f, t, g, u) == 1 <==>
            f.Class? && f == g && t.Class? && u.Class? && Derives(w, f.cls, t.cls) && Derives(w, f.cls, u.cls) && Derives(w, t.cls, u.cls)
  {
  }

  lemma {:induction false} PointersAreNearer(w: World, f: Type, t: Type, g: Type, u: Type)
    requires Ordered(w) && OneExpression(f, g) && f.Pointer? && t.Pointer? && u.Pointer?
    ensures CompareDerivation(w, f, t, g, u) == 1 <==> Nearer(w, AboutOf(f), AboutOf(t), AboutOf(u))
  {
    var p := Pointees(f, t, g, u);
    if f.to.Offset? && t.to.Offset? && u.to.Offset? {
      assert p.value == (Class(t.to.base, 0), Class(f.to.base, 0), Class(u.to.base, 0), Class(f.to.base, 0));
    } else if !f.to.Offset? && !t.to.Offset? && !u.to.Offset? {
      assert p.value == (f.to, t.to, f.to, u.to);
    } else {
      assert p.None?;
    }
  }

  /** To something about `t`: `a` is a better source than `b`. */
  predicate NearerSource(w: World, t: About, a: About, b: About)
    requires Ordered(w)
  {
    match (t, a, b)
    case (Object(x), Object(f), Object(g)) => Derives(w, f, x) && Derives(w, g, x) && Derives(w, g, f)
    case (MemberFunction(_), MemberFunction(f), MemberFunction(g)) => Derives(w, f, g)
    case (ToObject(_), ToObject(f), ToObject(g)) => Derives(w, g, f)
    case (ToVoid, ToObject(f), ToObject(g)) => Derives(w, g, f)
    case (ToMember(_), ToMember(f), ToMember(g)) => Derives(w, f, g)
    case _ => false
  }

  /** The same rules for one target, in one table. */
  lemma {:induction false} SourcesAreNearer(w: World, f: Type, g: Type, t: Type)
    requires Ordered(w) && !f.Reference? && !g.Reference? && !t.Reference? && AboutOf(f) != AboutOf(g)
    requires t.Pointer? ==> f.Pointer? && g.Pointer? && !t.to.MemFunc?
    ensures CompareDerivation(w, f, t, g, t) == 1 <==> NearerSource(w, AboutOf(t), AboutOf(f), AboutOf(g))
  {
    if t.Pointer? {
      PointersFromNearer(w, f, g, t);
    } else if f.MemFunc? && g.MemFunc? && t.MemFunc? {
      assert Pointees(f, t, g, t).value == (Class(t.owner, 0), Class(f.owner, 0), Class(t.owner, 0), Class(g.owner, 0));
    }
  }

  lemma {:induction false} PointersFromNearer(w: World, f: Type, g: Type, t: Type)
    requires Ordered(w) && AboutOf(f) != AboutOf(g) && f.Pointer? && g.Pointer? && t.Pointer? && !t.to.MemFunc?
    ensures CompareDerivation(w, f, t, g, t) == 1 <==> NearerSource(w, AboutOf(t), AboutOf(f), AboutOf(g))
  {
    var p := Pointees(f, t, g, t);
    if f.to.Offset? && g.to.Offset? && t.to.Offset? {
      assert p.value == (Class(t.to.base, 0), Class(f.to.base, 0), Class(t.to.base, 0), Class(g.to.base, 0));
    } else if !f.to.Offset? && !g.to.Offset? && !t.to.Offset? {
      assert p.value == (f.to, t.to, g.to, t.to);
    } else {
      assert p.None?;
    }
  }

  /** A pointer form: the pointer to void, to a member or to a base, perhaps qualified,
      or a bad conversion of it. */
  predicate PointerForm(env: Env, d: Conv, x: Conv)
    requires Ordered(env.w)
  {
    && d.typ.Pointer? && x.typ.Pointer?
    && var c := ConvertPointee(env, x.typ, d);
    || (x == c && c != d)
    || (x.typ != c.typ && x == Build(QualConv, x.typ, c))
    || (x.typ != c.typ && x == Bad(Build(PtrConv, x.typ, c)))
  }

  /** An arithmetic conversion, or one of a null pointer constant. */
  predicate ArithmeticForm(d: Conv, x: Conv) {
    x.Step? && x.from == d && x.code == StdConv && x.flags.std >= PROMO_RANK && !x.flags.user && !x.typ.Class? && !x.typ.Array?
  }

  /** The forms of a standard conversion of something that `d` turns into. */
  predicate Form(env: Env, d: Conv, x: Conv)
    requires Ordered(env.w)
  {
    || x == d
    || ArithmeticForm(d, x)
    || PointerForm(env, d, x)
    || (x == Build(PmemConv, x.typ, d) && x.typ.MemFunc? && d.typ.MemFunc?)
    || (x == Build(BaseConv, x.typ, if LvalueTransformation(d) then d.from else d)
        && d.typ.Class? && x.typ.Class? && ProperlyDerived(env.w, d.typ, x.typ))
  }

  lemma {:induction false} PointerHasForm(env: Env, to: Type, d: Conv, src: Source)
    requires Ordered(env.w) && to.Pointer? && d.typ.Pointer? && to != d.typ
    ensures var r := ConvertPointer(env, to, d, src); r.Some? ==> r.value.typ == to && PointerForm(env, d, r.value)
  {
  }

  lemma {:induction false} ScalarHasForm(env: Env, to: Type, d: Conv, src: Source)
    requires Ordered(env.w) && !d.flags.user && to.Scalar? && to != d.typ
    ensures var r := ConvertValue(env, to, d, src); r.Some? ==> r.value.typ == to && ArithmeticForm(d, r.value)
  {
  }

  lemma {:induction false} ConvertedHasForm(env: Env, to: Type, d: Conv, src: Source)
    requires Ordered(env.w) && !d.flags.user && (d.Step? && d.code == LvalueConv ==> d.typ.Pointer?)
    requires to.MemFunc? ==> to.quals == 0
    ensures var r := ConvertValue(env, to, d, src); r.Some? ==> r.value.typ == to && Form(env, d, r.value)
  {
    if to.Pointer? && d.typ.Pointer? && to != d.typ {
      PointerHasForm(env, to, d, src);
    } else if to.Scalar? && to != d.typ {
      ScalarHasForm(env, to, d, src);
    }
  }

  lemma {:induction false} ValueHasForm(env: Env, to: Type, src: Source)
    requires Ordered(env.w)
    ensures var r := StandardConversion(env, to, src); r.Some? ==>
      Form(env, Decay(env, src), r.value) && r.value.typ == StripTopQuals(NonReference(to))
  {
    DecayIsCanonical(env, src);
    ConvertedHasForm(env, StripTopQuals(NonReference(to)), Decay(env, src), src);
  }

  /** The expression itself, for a reference that is bound directly. */
  function Itself(src: Source): Conv {
    Leaf(Identity, NonReference(src.typ), if src.expr.Some? then Some(src.typ) else None, Flags(0, false, false, false, false))
  }

  /** A conversion to a value, perhaps of a temporary that a reference to `t` is bound
      to; it is determined by its type. */
  predicate ByValue(env: Env, src: Source, x: Conv, t: Option<Type>)
    requires Ordered(env.w)
  {
    && StandardConversion(env, x.typ, src) == Some(x) && Form(env, Decay(env, src), x) && !x.typ.Reference?
    && (t.Some? ==> !(x.typ.Class? && Decay(env, src).typ.Class? && ProperlyDerived(env.w, Decay(env, src).typ, x.typ)))
  }

  /** A direct binding of a reference to `t`. */
  predicate Directly(env: Env, src: Source, x: Conv, t: Option<Type>)
    requires Ordered(env.w)
  {
    t.Some? && !t.value.Reference? &&
    if SameIgnoringQuals(t.value, NonReference(src.typ)) then x == Itself(src)
    else x == Build(BaseConv, t.value, Itself(src)) && ProperlyDerived(env.w, NonReference(src.typ), t.value)
  }

  /** What `compare_ics` sees of a sequence without a user-defined conversion. */
  predicate Seen(env: Env, src: Source, x: Conv, t: Option<Type>)
    requires Ordered(env.w)
  {
    ByValue(env, src, x, t) || Directly(env, src, x, t)
  }

  /** No reference to a reference. */
  predicate Sound(t: Type) {
    t.Reference? ==> !t.to.Reference?
  }

  lemma {:induction false} ValueIsSeen(env: Env, to: Type, src: Source, t: Option<Type>)
    requires Ordered(env.w) && !to.Reference? && StandardConversion(env, to, src).Some?
    requires t.Some? ==> t.value == to && (NonReference(src.typ).Class? ==> !Related(env.w, to, NonReference(src.typ)))
    ensures ByValue(env, src, StandardConversion(env, to, src).value, t)
  {
    var x := StandardConversion(env, to, src).value;
    ValueHasForm(env, to, src);
    UnqualifiedTwice(to);
    UnqualifiedTwice(NonReference(src.typ));
    assert StripTopQuals(NonReference(x.typ)) == x.typ;
  }

  lemma {:induction false} ByUserIsUser(env: Env, to: Type, src: Source)
    requires Ordered(env.w) && ByUser(env, to, src).Some?
    ensures ByUser(env, to, src).value.flags.user
  {
  }

  lemma {:induction false} ReferenceByUserIsUser(env: Env, ref: Type, src: Source)
    requires ref.Reference? && ReferenceByUser(env, ref, src).Some?
    ensures ReferenceByUser(env, ref, src).value.flags.user
  {
  }

  /** The flags that matter are kept. */
  predicate SameFlags(f: Flags, g: Flags) {
    f.std == g.std && f.user == g.user && f.bad == g.bad && !f.ellipsis && !g.ellipsis
  }

  /** How `compare_ics` sees a sequence. */
  predicate SeenAs(env: Env, src: Source, c: Conv)
    requires Ordered(env.w)
  {
    ReferenceShape(c) && !c.flags.thisObject && SameFlags(Referred(c).flags, c.flags) && Seen(env, src, Referred(c), Target(c))
  }

  lemma {:induction false} PlainValueIsSeen(env: Env, to: Type, src: Source)
    requires Ordered(env.w) && !to.Reference? && StandardConversion(env, to, src).Some?
    ensures SeenAs(env, src, StandardConversion(env, to, src).value)
  {
    StandardIsCanonical(env, to, src);
    ValueIsSeen(env, to, src, None);
  }

  lemma {:induction false} DirectIsSeen(env: Env, ref: Type, src: Source)
    requires Ordered(env.w) && ref.Reference? && !ref.to.Reference? && !NonReference(src.typ).Reference?
    requires Related(env.w, ref.to, NonReference(src.typ))
    ensures SeenAs(env, src, DirectBinding(ref, Itself(src)))
  {
  }

  lemma {:induction false} TemporaryIsSeen(env: Env, ref: Type, src: Source)
    requires Ordered(env.w) && ref.Reference? && !ref.to.Reference? && StandardConversion(env, ref.to, src).Some?
    requires NonReference(src.typ).Class? ==> !Related(env.w, ref.to, NonReference(src.typ))
    ensures SeenAs(env, src, Build(RefBind, ref, StandardConversion(env, ref.to, src).value))
  {
    StandardIsCanonical(env, ref.to, src);
    ValueIsSeen(env, ref.to, src, Some(ref.to));
    var x := StandardConversion(env, ref.to, src).value;
    assert Referred(Build(RefBind, ref, x)) == x;
  }

  /** A sequence without a user-defined conversion is a conversion to a value or a direct
      binding. */
  lemma {:induction false} ImplicitIsSeen(env: Env, to: Type, src: Source, flags: LookupFlags)
    requires Ordered(env.w) && Sound(to) && Sound(src.typ)
    ensures var r := ImplicitConversion(env, to, src, flags); r.Some? && !r.value.flags.user ==> SeenAs(env, src, r.value)
  {
    var r := ImplicitConversion(env, to, src, flags);
    if r.Some? && !r.value.flags.user {
      if ByUser(env, to, src).Some? {
        ByUserIsUser(env, to, src);
      }
      if to.Reference? {
        ReferenceIsSeen(env, to, src, flags);
      } else {
        PlainValueIsSeen(env, to, src);
      }
    }
  }

  lemma {:induction false} ReferenceIsSeen(env: Env, ref: Type, src: Source, flags: LookupFlags)
    requires Ordered(env.w) && ref.Reference? && !ref.to.Reference? && Sound(src.typ)
    ensures var r := BindReference(env, ref, src, flags, ToValue(env, ref.to, src, flags));
      r.Some? && !r.value.flags.user ==> SeenAs(env, src, r.value)
  {
    var r := BindReference(env, ref, src, flags, ToValue(env, ref.to, src, flags));
    if r.Some? && !r.value.flags.user {
      if ReferenceByUser(env, ref, src).Some? {
        ReferenceByUserIsUser(env, ref, src);
      }
      if Related(env.w, ref.to, NonReference(src.typ)) {
        DirectIsSeen(env, ref, src);
      }
      if ByUser(env, ref.to, src).Some? {
        ByUserIsUser(env, ref.to, src);
      }
      if StandardConversion(env, ref.to, src).Some? && !(NonReference(src.typ).Class? && Related(env.w, ref.to, NonReference(src.typ))) {
        TemporaryIsSeen(env, ref, src);
      }
    }
  }

  /** A pointer conversion and the same one qualified. */
  predicate Over(x: Conv, y: Conv) {
    x.Step? && x.code in {PtrConv, PmemConv} && y.Step? && y.code == QualConv && y.from == x
  }

  /** What an expression turns into is the expression itself or an lvalue transformation
      of it. */
  predicate Plain(d: Conv) {
    d.Leaf? || (LvalueTransformation(d) && d.from.Leaf?)
  }

  lemma {:induction false} DecayIsPlain(env: Env, src: Source)
    ensures var d := Decay(env, src);
      Plain(d) && d.flags == Flags(0, false, false, false, false) && Origin(d).flags == d.flags
      && Origin(d).typ == StripTopQuals(NonReference(src.typ))
  {
    DecayIsCanonical(env, src);
  }

  lemma {:induction false} InsidePlain(a: Conv, d: Conv)
    requires Plain(d)
    ensures !OccursInside(a, d) && StripLvalue(d) == Origin(d) && (SameConversion(a, d) ==> a.Leaf? || LvalueTransformation(a))
  {
  }

  /** Converting a pointer to what it has been converted to changes nothing. */
  lemma {:induction false} PointeeSettled(env: Env, t: Type, x: Type, d: Conv)
    requires Ordered(env.w) && t.Pointer? && x.Pointer? && d.typ.Pointer? && x.to != d.typ.to
    requires ConvertPointee(env, t, d) != d && x == ConvertPointee(env, t, d).typ
    ensures ConvertPointee(env, x, d) == ConvertPointee(env, t, d)
  {
  }

  /** Among pointer conversions, a proper subsequence lacks a qualification. */
  lemma {:induction false} PointerSubsequence(env: Env, d: Conv, x: Conv, y: Conv)
    requires Ordered(env.w) && Plain(d) && d.flags == Flags(0, false, false, false, false)
    requires PointerForm(env, d, x) && PointerForm(env, d, y) && x.flags.bad == y.flags.bad
    ensures IsSubsequence(x, y) <==> Over(x, y)
  {
    var (c, e) := (ConvertPointee(env, x.typ, d), ConvertPointee(env, y.typ, d));
    InsidePlain(x, d);
    assert StripLvalue(x) == x;
    if e != d {
      assert OccursInside(x, e) == SameConversion(x, d) == false;
      if y != e {
        assert OccursInside(x, y) == SameConversion(x, e);
        if SameConversion(x, e) {
          PointeeSettled(env, y.typ, x.typ, d);
        }
      }
    } else {
      assert OccursInside(x, y) == SameConversion(x, d) == false;
    }
  }

  /** Inside anything but a pointer conversion there is only the expression. */
  lemma {:induction false} OnlyPlainInside(env: Env, src: Source, y: Conv, u: Option<Type>, a: Conv)
    requires Ordered(env.w) && Seen(env, src, y, u) && !PointerForm(env, Decay(env, src), y) && OccursInside(a, y)
    ensures (a.Leaf? || LvalueTransformation(a)) && y.flags.std > 0
  {
    var d := Decay(env, src);
    DecayIsPlain(env, src);
    InsidePlain(a, d);
    if ByValue(env, src, y, u) {
      assert y != d && Plain(y.from);
    }
    InsidePlain(a, y.from);
  }

  /** Only the expression itself is stripped down to what it is. */
  lemma {:induction false} StrippedIsPlain(env: Env, src: Source, x: Conv, t: Option<Type>)
    requires Ordered(env.w) && Seen(env, src, x, t)
    ensures StripLvalue(x).Leaf? || LvalueTransformation(StripLvalue(x)) ==> x.flags.std == 0
  {
    DecayIsPlain(env, src);
    InsidePlain(x, Decay(env, src));
  }

  lemma {:induction false} QualifiedIsPointer(env: Env, src: Source, y: Conv, u: Option<Type>)
    requires Ordered(env.w) && Seen(env, src, y, u)
    ensures y.Step? && y.code in {QualConv, PtrConv} ==> PointerForm(env, Decay(env, src), y) && ByValue(env, src, y, u)
    ensures y.Step? && y.code == PmemConv && y.typ.Pointer? ==> PointerForm(env, Decay(env, src), y) && ByValue(env, src, y, u)
  {
    DecayIsPlain(env, src);
  }

  lemma {:induction false} NoSubsequenceOfOther(env: Env, src: Source, x: Conv, t: Option<Type>, y: Conv, u: Option<Type>)
    requires Ordered(env.w) && Seen(env, src, x, t) && Seen(env, src, y, u) && !PointerForm(env, Decay(env, src), y)
    requires x.flags.std == y.flags.std
    ensures !IsSubsequence(x, y) && !Over(x, y)
  {
    if IsSubsequence(x, y) {
      OnlyPlainInside(env, src, y, u, StripLvalue(x));
      StrippedIsPlain(env, src, x, t);
    }
    QualifiedIsPointer(env, src, y, u);
  }

  /** What is not a pointer conversion, among pointers: an arithmetic one. */
  lemma {:induction false} OtherAmongPointers(env: Env, src: Source, x: Conv, t: Option<Type>)
    requires Ordered(env.w) && Seen(env, src, x, t) && Decay(env, src).typ.Pointer? && x.flags.std > 0
    requires !PointerForm(env, Decay(env, src), x)
    ensures ArithmeticForm(Decay(env, src), x)
  {
    DecayIsPlain(env, src);
  }

  lemma {:induction false} PointerFormRank(env: Env, d: Conv, y: Conv)
    requires Ordered(env.w) && PointerForm(env, d, y)
    ensures d.typ.Pointer? && y.flags.std > 0
  {
  }

  lemma {:induction false} NoArithmeticInside(env: Env, d: Conv, x: Conv, y: Conv)
    requires Ordered(env.w) && Plain(d) && ArithmeticForm(d, x) && PointerForm(env, d, y)
    ensures !IsSubsequence(x, y) && !Over(x, y)
  {
    var e := ConvertPointee(env, y.typ, d);
    InsidePlain(x, d);
    assert StripLvalue(x) == x;
    if e != d {
      assert OccursInside(x, e) == SameConversion(x, d) == false;
    }
  }

  /** Of two sequences that nothing coarser tells apart, a proper subsequence lacks a
      qualification. */
  lemma {:induction false} SubsequenceIsOver(env: Env, src: Source, x: Conv, t: Option<Type>, y: Conv, u: Option<Type>)
    requires Ordered(env.w) && Seen(env, src, x, t) && Seen(env, src, y, u)
    requires x.flags.std == y.flags.std && x.flags.bad == y.flags.bad
    ensures IsSubsequence(x, y) <==> Over(x, y)
  {
    var d := Decay(env, src);
    DecayIsPlain(env, src);
    if !PointerForm(env, d, y) {
      NoSubsequenceOfOther(env, src, x, t, y, u);
    } else if PointerForm(env, d, x) {
      PointerSubsequence(env, d, x, y);
    } else {
      PointerFormRank(env, d, y);
      OtherAmongPointers(env, src, x, t);
      NoArithmeticInside(env, d, x, y);
    }
  }

  /** The conversion `n` levels inside. */
  function Inner(c: Conv, n: nat): Conv {
    if n == 0 || c.Leaf? then c else Inner(c.from, n - 1)
  }

  function Depth(c: Conv): nat {
    if c.Leaf? then 0 else 1 + Depth(c.from)
  }

  /** The same conversion, between the same types. */
  predicate Alike(a: Conv, b: Conv) {
    && a.typ == b.typ && OperandType(a) == OperandType(b)
    && (a.Step? <==> b.Step?) && (a.Step? && b.Step? ==> a.code == b.code)
    && (a.Leaf? && b.Leaf? ==> (a.kind.Identity? <==> b.kind.Identity?) && (a.kind.Ambig? <==> b.kind.Ambig?))
  }

  ghost predicate AlikeInside(a: Conv, b: Conv, n: nat) {
    n < Depth(b) && !LvalueTransformation(Inner(b, n)) && Alike(a, Inner(b, n + 1))
  }

  /** Lvalue transformations apart, some conversion strictly inside `b` is like `a`. */
  lemma {:induction false} OccursMeaning(a: Conv, b: Conv)
    ensures OccursInside(a, b) <==> exists n {:trigger AlikeInside(a, b, n)} :: AlikeInside(a, b, n)
  {
    if b.Step? {
      OccursMeaning(a, b.from);
      FirstInside(a, b);
      if n: nat :| AlikeInside(a, b.from, n) {
        NextInside(a, b, n);
      }
      if n: nat :| n > 0 && AlikeInside(a, b, n) {
        NextInside(a, b, n - 1);
      }
    }
  }

  lemma {:induction false} FirstInside(a: Conv, b: Conv)
    requires b.Step?
    ensures AlikeInside(a, b, 0) <==> !LvalueTransformation(b) && SameConversion(a, b.from)
  {
    assert Inner(b, 0) == b && Inner(b, 1) == Inner(b.from, 0) == b.from;
  }

  lemma {:induction false} NextInside(a: Conv, b: Conv, n: nat)
    requires b.Step?
    ensures AlikeInside(a, b, n + 1) <==> AlikeInside(a, b.from, n)
  {
  }

  /** Without lvalue transformations. */
  lemma {:induction false} SubsequenceMeaning(a: Conv, b: Conv) returns (k: nat)
    ensures !LvalueTransformation(Inner(a, k)) && forall j :: 0 <= j < k ==> LvalueTransformation(Inner(a, j))
    ensures IsSubsequence(a, b) <==> exists n {:trigger AlikeInside(Inner(a, k), b, n)} :: AlikeInside(Inner(a, k), b, n)
  {
    k := Stripped(a);
    OccursMeaning(Inner(a, k), b);
  }

  lemma {:induction false} Stripped(a: Conv) returns (k: nat)
    ensures StripLvalue(a) == Inner(a, k) && !LvalueTransformation(Inner(a, k))
    ensures forall j :: 0 <= j < k ==> LvalueTransformation(Inner(a, j))
  {
    k := 0;
    if LvalueTransformation(a) {
      k := Stripped(a.from);
      k := k + 1;
    }
  }

  predicate BothQualified(x: Conv, y: Conv) {
    x.Step? && x.code == QualConv && y.Step? && y.code == QualConv
  }

  /** Better in qualification alone. */
  predicate Tighter(x: Conv, t: Option<Type>, y: Conv, u: Option<Type>) {
    || Over(x, y)
    || if BothQualified(x, y) then ProperlyMoreQualified(y.typ, x.typ, false)
       else t.Some? && u.Some? && SameIgnoringQuals(x.typ, y.typ) && CompareQuals(u.value, t.value) == 1
  }

  /** Better by derivation. */
  predicate Closer(w: World, x: Conv, y: Conv)
    requires Ordered(w)
  {
    CompareDerivation(w, Origin(x).typ, x.typ, Origin(y).typ, y.typ) == 1
  }

  lemma {:induction false} SeenOrigin(env: Env, src: Source, x: Conv, t: Option<Type>)
    requires Ordered(env.w) && Sound(src.typ) && Seen(env, src, x, t)
    ensures !x.typ.Reference? && !Origin(x).typ.Reference? && SameIgnoringQuals(Origin(x).typ, NonReference(src.typ))
    ensures ByValue(env, src, x, t) ==> Origin(x).typ == StripTopQuals(NonReference(src.typ))
    ensures Directly(env, src, x, t) ==> Origin(x).typ == NonReference(src.typ)
  {
    UnqualifiedTwice(NonReference(src.typ));
    if ByValue(env, src, x, t) {
      StandardIsCanonical(env, x.typ, src);
    }
  }

  /** A conversion to a value is determined by its type without qualifiers. */
  lemma {:induction false} TypeSettles(env: Env, src: Source, x: Conv, t: Option<Type>, y: Conv, u: Option<Type>)
    requires Ordered(env.w) && ByValue(env, src, x, t) && ByValue(env, src, y, u) && SameIgnoringQuals(x.typ, y.typ)
    ensures x == y
  {
    TypeIsStripped(env, src, x, t);
    TypeIsStripped(env, src, y, u);
  }

  lemma {:induction false} TypeIsStripped(env: Env, src: Source, x: Conv, t: Option<Type>)
    requires Ordered(env.w) && ByValue(env, src, x, t)
    ensures x.typ == Unqualified(x.typ)
  {
    ValueHasForm(env, x.typ, src);
    DecayIsPlain(env, src);
    assert !Decay(env, src).typ.Array?;
  }

  lemma {:induction false} MoreQualifiedIsAlike(t: Type, f: Type, more: bool)
    requires t.Pointer? && f.Pointer? && ProperlyMoreQualified(t, f, more)
    ensures AboutOf(t) == AboutOf(f)
  {
  }

  lemma {:induction false} OverIsAlike(env: Env, src: Source, x: Conv, t: Option<Type>, y: Conv, u: Option<Type>)
    requires Ordered(env.w) && Seen(env, src, x, t) && Seen(env, src, y, u) && Over(x, y)
    requires x.flags.std == y.flags.std
    ensures AboutOf(x.typ) == AboutOf(y.typ) && !SameIgnoringQuals(x.typ, y.typ)
    ensures x == ConvertPointee(env, y.typ, Decay(env, src)) && ByValue(env, src, x, t) && ByValue(env, src, y, u)
  {
    var d := Decay(env, src);
    DecayIsPlain(env, src);
    QualifiedIsPointer(env, src, y, u);
    assert x == ConvertPointee(env, y.typ, d) && x != d;
    QualifiedIsPointer(env, src, x, t);
    if SameIgnoringQuals(x.typ, y.typ) {
      TypeSettles(env, src, x, t, y, u);
      assert false;
    }
  }

  /** Being tighter leaves what the rules about derivation see. */
  lemma {:induction false} TighterIsAlike(env: Env, src: Source, x: Conv, t: Option<Type>, y: Conv, u: Option<Type>)
    requires Ordered(env.w) && Seen(env, src, x, t) && Seen(env, src, y, u) && Tighter(x, t, y, u)
    requires x.flags.std == y.flags.std
    ensures AboutOf(x.typ) == AboutOf(y.typ)
  {
    if Over(x, y) {
      OverIsAlike(env, src, x, t, y, u);
    } else if BothQualified(x, y) {
      QualifiedIsPointer(env, src, x, t);
      QualifiedIsPointer(env, src, y, u);
      MoreQualifiedIsAlike(y.typ, x.typ, false);
    } else {
      SameIsAlike(x.typ, y.typ);
    }
  }

  lemma {:induction false} SameIsAlike(t: Type, u: Type)
    requires SameIgnoringQuals(t, u)
    ensures AboutOf(t) == AboutOf(u)
  {
  }

  /** Sequences from one expression that no rank tells apart. */
  predicate Tied(env: Env, src: Source, x: Conv, t: Option<Type>, y: Conv, u: Option<Type>)
    requires Ordered(env.w)
  {
    Sound(src.typ) && Seen(env, src, x, t) && Seen(env, src, y, u) && x.flags.std == y.flags.std && x.flags.bad == y.flags.bad
  }

  lemma {:induction false} CloserIsNearer(env: Env, src: Source, x: Conv, t: Option<Type>, y: Conv, u: Option<Type>)
    requires Ordered(env.w) && Tied(env, src, x, t, y, u)
    ensures var from := NonReference(src.typ);
      Closer(env.w, x, y) <==> Nearer(env.w, AboutOf(from), AboutOf(x.typ), AboutOf(y.typ)) && (from.Class? ==> Origin(x).typ == Origin(y).typ)
  {
    SeenOrigin(env, src, x, t);
    SeenOrigin(env, src, y, u);
    SameIsAlike(Origin(x).typ, NonReference(src.typ));
    DerivationIsNearer(env.w, Origin(x).typ, x.typ, Origin(y).typ, y.typ);
  }

  lemma {:induction false} NearerIsStrict(w: World, s: About, a: About, b: About)
    requires Ordered(w)
    ensures Nearer(w, s, a, b) ==> a != b && !Gap(w, s, a, b)
  {
  }

  /** What decides between pointer conversions and their qualifications starts from one
      type. */
  lemma {:induction false} PointersFromOne(env: Env, src: Source, x: Conv, t: Option<Type>, y: Conv, u: Option<Type>)
    requires Ordered(env.w) && Tied(env, src, x, t, y, u) && (Over(x, y) || BothQualified(x, y))
    ensures Origin(x).typ == Origin(y).typ
  {
    if Over(x, y) {
      OverIsAlike(env, src, x, t, y, u);
    }
    QualifiedIsPointer(env, src, x, t);
    QualifiedIsPointer(env, src, y, u);
    SeenOrigin(env, src, x, t);
    SeenOrigin(env, src, y, u);
  }

  /** Tied sequences are told apart by derivation or by qualification, never by both. */
  lemma {:induction false} TwoReasons(env: Env, src: Source, x: Conv, t: Option<Type>, y: Conv, u: Option<Type>)
    requires Ordered(env.w) && Tied(env, src, x, t, y, u)
    ensures CompareSequences(env.w, x, t, y, u) == 1 <==> Closer(env.w, x, y) || Tighter(x, t, y, u)
  {
    SubsequenceIsOver(env, src, x, t, y, u);
    SubsequenceIsOver(env, src, y, u, x, t);
    CompareDerivationAntisymmetric(env.w, Origin(x).typ, x.typ, Origin(y).typ, y.typ);
    Exclusive(env, src, x, t, y, u);
    Exclusive(env, src, y, u, x, t);
    if Over(x, y) || BothQualified(x, y) {
      PointersFromOne(env, src, x, t, y, u);
    }
    if Over(y, x) {
      PointersFromOne(env, src, y, u, x, t);
      OverOneWay(env, src, y, u, x, t);
    }
  }

  lemma {:induction false} Exclusive(env: Env, src: Source, x: Conv, t: Option<Type>, y: Conv, u: Option<Type>)
    requires Ordered(env.w) && Tied(env, src, x, t, y, u)
    ensures Tighter(x, t, y, u) ==> !Closer(env.w, x, y) && !Closer(env.w, y, x)
  {
    CloserIsNearer(env, src, x, t, y, u);
    CloserIsNearer(env, src, y, u, x, t);
    if Tighter(x, t, y, u) {
      TighterIsAlike(env, src, x, t, y, u);
      NearerIsStrict(env.w, AboutOf(NonReference(src.typ)), AboutOf(x.typ), AboutOf(y.typ));
      NearerIsStrict(env.w, AboutOf(NonReference(src.typ)), AboutOf(y.typ), AboutOf(x.typ));
    }
  }

  lemma {:induction false} OverOneWay(env: Env, src: Source, x: Conv, t: Option<Type>, y: Conv, u: Option<Type>)
    requires Ordered(env.w) && Tied(env, src, x, t, y, u) && Over(x, y)
    ensures !Tighter(y, u, x, t)
  {
    OverIsAlike(env, src, x, t, y, u);
  }

  lemma {:induction false} AtLeastTransitive(a: Type, b: Type, c: Type)
    requires AtLeastAsQualified(c, b) && AtLeastAsQualified(b, a)
    ensures AtLeastAsQualified(c, a)
    ensures AtLeastAsQualified(a, c) ==> AtLeastAsQualified(a, b) && AtLeastAsQualified(b, c)
  {
  }

  lemma {:induction false} MoreQualifiedTransitive(a: Type, b: Type, c: Type, m: bool, n: bool, k: bool)
    requires ProperlyMoreQualified(b, a, m) && ProperlyMoreQualified(c, b, n) && (m || n ==> k)
    ensures ProperlyMoreQualified(c, a, k)
    decreases a
  {
    if c.Offset? && c.base == b.base {
      MoreQualifiedTransitive(a.member, b.member, c.member, m, n, k);
    } else {
      if !c.Func? {
        AtLeastTransitive(a, b, c);
      }
      if c.Pointer? {
        var (m', n', k') := (m || !(b.Func? || AtLeastAsQualified(a, b)), n || !(c.Func? || AtLeastAsQualified(b, c)),
                             k || !(c.Func? || AtLeastAsQualified(a, c)));
        MoreQualifiedTransitive(a.to, b.to, c.to, m', n', k');
      }
    }
  }

  lemma {:induction false} CompareQualsTransitive(a: Type, b: Type, c: Type)
    requires CompareQuals(a, b) == 1 && CompareQuals(b, c) == 1
    ensures CompareQuals(a, c) == 1
  {
  }

  /** Pointers to one class, or to void, are converted alike before the qualification. */
  lemma {:induction false} AlikePointees(env: Env, t: Type, u: Type, d: Conv)
    requires Ordered(env.w) && t.Pointer? && u.Pointer? && d.typ.Pointer? && AboutOf(t) == AboutOf(u)
    requires ConvertPointee(env, t, d) != d && ConvertPointee(env, u, d) != d
    ensures ConvertPointee(env, t, d) == ConvertPointee(env, u, d)
  {
  }

  /** A sequence with the type of a pointer conversion is one. */
  lemma {:induction false} SameAsQualified(env: Env, src: Source, x: Conv, t: Option<Type>, y: Conv, u: Option<Type>)
    requires Ordered(env.w) && Tied(env, src, x, t, y, u) && SameIgnoringQuals(x.typ, y.typ)
    requires PointerForm(env, Decay(env, src), y) && ByValue(env, src, y, u)
    ensures x == y
  {
    PointerFormRank(env, Decay(env, src), y);
    assert ByValue(env, src, x, t);
    TypeSettles(env, src, x, t, y, u);
  }

  lemma {:induction false} OverThenTighter(env: Env, src: Source, x: Conv, t: Option<Type>, y: Conv, u: Option<Type>, z: Conv, v: Option<Type>)
    requires Ordered(env.w) && Tied(env, src, x, t, y, u) && Tied(env, src, y, u, z, v) && Over(x, y) && Tighter(y, u, z, v)
    ensures Over(x, z)
  {
    var d := Decay(env, src);
    DecayIsPlain(env, src);
    OverIsAlike(env, src, x, t, y, u);
    QualifiedIsPointer(env, src, y, u);
    if BothQualified(y, z) {
      QualifiedIsPointer(env, src, z, v);
      MoreQualifiedIsAlike(z.typ, y.typ, false);
      assert z == Build(QualConv, z.typ, ConvertPointee(env, z.typ, d));
      AlikePointees(env, y.typ, z.typ, d);
    } else {
      SameAsQualified(env, src, z, v, y, u);
      assert false;
    }
  }

  lemma {:induction false} QualifiedThenTighter(env: Env, src: Source, x: Conv, t: Option<Type>, y: Conv, u: Option<Type>, z: Conv, v: Option<Type>)
    requires Ordered(env.w) && Tied(env, src, x, t, y, u) && Tied(env, src, y, u, z, v)
    requires BothQualified(x, y) && Tighter(x, t, y, u) && Tighter(y, u, z, v)
    ensures Tighter(x, t, z, v)
  {
    QualifiedIsPointer(env, src, y, u);
    if BothQualified(y, z) {
      MoreQualifiedTransitive(x.typ, y.typ, z.typ, false, false, false);
    } else {
      SameAsQualified(env, src, z, v, y, u);
      assert false;
    }
  }

  lemma {:induction false} ReferenceThenTighter(env: Env, src: Source, x: Conv, t: Option<Type>, y: Conv, u: Option<Type>, z: Conv, v: Option<Type>)
    requires Ordered(env.w) && Tied(env, src, x, t, y, u) && Tied(env, src, y, u, z, v)
    requires !Over(x, y) && !BothQualified(x, y) && Tighter(x, t, y, u) && Tighter(y, u, z, v)
    ensures Tighter(x, t, z, v)
  {
    QualifiedIsPointer(env, src, x, t);
    QualifiedIsPointer(env, src, y, u);
    if Over(y, z) {
      OverIsAlike(env, src, y, u, z, v);
      SameAsQualified(env, src, x, t, y, u);
    } else if BothQualified(y, z) {
      SameAsQualified(env, src, x, t, y, u);
      assert false;
    } else {
      CompareQualsTransitive(v.value, u.value, t.value);
      if BothQualified(x, z) {
        SameAsQualified(env, src, y, u, x, t);
        assert false;
      }
    }
  }

  lemma {:induction false} TighterTransitive(env: Env, src: Source, x: Conv, t: Option<Type>, y: Conv, u: Option<Type>, z: Conv, v: Option<Type>)
    requires Ordered(env.w) && Tied(env, src, x, t, y, u) && Tied(env, src, y, u, z, v)
    requires Tighter(x, t, y, u) && Tighter(y, u, z, v)
    ensures Tighter(x, t, z, v)
  {
    if Over(x, y) {
      OverThenTighter(env, src, x, t, y, u, z, v);
    } else if BothQualified(x, y) {
      QualifiedThenTighter(env, src, x, t, y, u, z, v);
    } else {
      ReferenceThenTighter(env, src, x, t, y, u, z, v);
    }
  }

  /** A reference to a base is bound directly. */
  lemma {:induction false} BasesAreDirect(env: Env, src: Source, x: Conv, t: Option<Type>)
    requires Ordered(env.w) && Sound(src.typ) && Seen(env, src, x, t) && t.Some?
    requires NonReference(src.typ).Class? && x.typ.Class? && Derives(env.w, NonReference(src.typ).cls, x.typ.cls)
    ensures Origin(x).typ == NonReference(src.typ)
  {
    SeenOrigin(env, src, x, t);
  }

  /** Objects that a reference comparison tells apart start from one type, if they are
      bases. */
  lemma {:induction false} TighterFromOne(env: Env, src: Source, x: Conv, t: Option<Type>, y: Conv, u: Option<Type>)
    requires Ordered(env.w) && Tied(env, src, x, t, y, u) && Tighter(x, t, y, u)
    requires NonReference(src.typ).Class? && x.typ.Class? && Derives(env.w, NonReference(src.typ).cls, x.typ.cls)
    ensures Origin(x).typ == Origin(y).typ
  {
    TighterIsAlike(env, src, x, t, y, u);
    if Over(x, y) || BothQualified(x, y) {
      PointersFromOne(env, src, x, t, y, u);
    } else {
      BasesAreDirect(env, src, x, t);
      BasesAreDirect(env, src, y, u);
    }
  }

  lemma {:induction false} NearerBases(w: World, f: Type, a: Type, b: Type)
    requires Ordered(w) && f.Class? && Nearer(w, AboutOf(f), AboutOf(a), AboutOf(b))
    ensures a.Class? && b.Class? && Derives(w, f.cls, a.cls) && Derives(w, f.cls, b.cls)
  {
  }

  lemma {:induction false} AlikeBases(w: World, f: Type, a: Type, b: Type)
    requires Ordered(w) && AboutOf(a) == AboutOf(b) && f.Class? && b.Class? && Derives(w, f.cls, b.cls)
    ensures a.Class? && Derives(w, f.cls, a.cls)
  {
  }

  lemma {:induction false} CloserThenTighter(env: Env, src: Source, x: Conv, t: Option<Type>, y: Conv, u: Option<Type>, z: Conv, v: Option<Type>)
    requires Ordered(env.w) && Tied(env, src, x, t, y, u) && Tied(env, src, y, u, z, v)
    requires Closer(env.w, x, y) && Tighter(y, u, z, v)
    ensures Closer(env.w, x, z)
  {
    CloserIsNearer(env, src, x, t, y, u);
    CloserIsNearer(env, src, x, t, z, v);
    TighterIsAlike(env, src, y, u, z, v);
    if NonReference(src.typ).Class? {
      NearerBases(env.w, NonReference(src.typ), x.typ, y.typ);
      TighterFromOne(env, src, y, u, z, v);
    }
  }

  lemma {:induction false} TighterThenCloser(env: Env, src: Source, x: Conv, t: Option<Type>, y: Conv, u: Option<Type>, z: Conv, v: Option<Type>)
    requires Ordered(env.w) && Tied(env, src, x, t, y, u) && Tied(env, src, y, u, z, v)
    requires Tighter(x, t, y, u) && Closer(env.w, y, z)
    ensures Closer(env.w, x, z)
  {
    CloserIsNearer(env, src, y, u, z, v);
    CloserIsNearer(env, src, x, t, z, v);
    TighterIsAlike(env, src, x, t, y, u);
    if NonReference(src.typ).Class? {
      NearerBases(env.w, NonReference(src.typ), y.typ, z.typ);
      AlikeBases(env.w, NonReference(src.typ), x.typ, y.typ);
      TighterFromOne(env, src, x, t, y, u);
    }
  }

  /** A gap between two sequences from one expression. */
  predicate Apart(w: World, src: Source, x: Type, z: Type)
    requires Ordered(w)
  {
    Gap(w, AboutOf(NonReference(src.typ)), AboutOf(x), AboutOf(z))
  }

  lemma {:induction false} TiedCarriesOver(env: Env, src: Source, x: Conv, t: Option<Type>, y: Conv, u: Option<Type>, z: Conv, v: Option<Type>)
    requires Ordered(env.w) && Tied(env, src, x, t, y, u) && Tied(env, src, y, u, z, v)
    requires CompareSequences(env.w, x, t, y, u) == 1 && CompareSequences(env.w, y, u, z, v) == 1
    ensures CompareSequences(env.w, x, t, z, v) == 1 <==> !Apart(env.w, src, x.typ, z.typ)
  {
    TwoReasons(env, src, x, t, y, u);
    TwoReasons(env, src, y, u, z, v);
    TwoReasons(env, src, x, t, z, v);
    CloserIsNearer(env, src, x, t, z, v);
    NearerIsStrict(env.w, AboutOf(NonReference(src.typ)), AboutOf(x.typ), AboutOf(z.typ));
    if Tighter(x, t, z, v) {
      TighterIsAlike(env, src, x, t, z, v);
    }
    if Tighter(x, t, y, u) {
      if Tighter(y, u, z, v) {
        TighterTransitive(env, src, x, t, y, u, z, v);
      } else {
        TighterThenCloser(env, src, x, t, y, u, z, v);
      }
    } else if Tighter(y, u, z, v) {
      CloserThenTighter(env, src, x, t, y, u, z, v);
    } else {
      CloserIsNearer(env, src, x, t, y, u);
      CloserIsNearer(env, src, y, u, z, v);
      NearerTransitive(env.w, AboutOf(NonReference(src.typ)), AboutOf(x.typ), AboutOf(y.typ), AboutOf(z.typ));
    }
  }

  /** Flags that rank a sequence as one of an argument that is there. */
  predicate Ranks(f: Flags) {
    f.std <= PBOOL_RANK && !f.ellipsis
  }

  /** Being better by rank carries over; what is left is tied. */
  lemma {:induction false} RanksCarryOver(w: World, x: Conv, t: Option<Type>, y: Conv, u: Option<Type>, z: Conv, v: Option<Type>)
    requires Ordered(w) && Ranks(x.flags) && Ranks(y.flags) && Ranks(z.flags) && !x.flags.user
    requires CompareReferred(w, x, t, y, u) == 1 && CompareReferred(w, y, u, z, v) == 1
    ensures if SameFlags(x.flags, z.flags)
            then SameFlags(x.flags, y.flags) && CompareReferred(w, x, t, z, v) == CompareSequences(w, x, t, z, v)
                 && CompareSequences(w, x, t, y, u) == 1 && CompareSequences(w, y, u, z, v) == 1
            else CompareReferred(w, x, t, z, v) == 1
  {
  }

  /** A sequence that `implicit_conversion` builds from `src`. */
  ghost predicate BuiltFrom(env: Env, src: Source, c: Conv)
    requires Ordered(env.w)
  {
    exists to, flags :: Sound(to) && ImplicitConversion(env, to, src, flags) == Some(c)
  }

  lemma {:induction false} BuiltIsSeen(env: Env, src: Source, c: Conv)
    requires Ordered(env.w) && Sound(src.typ) && BuiltFrom(env, src, c)
    ensures Comparable(c) && !c.flags.thisObject && Ranks(c.flags) && SameFlags(Referred(c).flags, c.flags)
    ensures !c.flags.user ==> Seen(env, src, Referred(c), Target(c))
  {
    var to, flags :| Sound(to) && ImplicitConversion(env, to, src, flags) == Some(c);
    ImplicitIsCanonical(env, to, src, flags);
    ImplicitIsSeen(env, to, src, flags);
  }

  /** The sequences are alike in rank; the first leads to a pointer to something that is
      not a base of what the expression points to, the last to a pointer to void. */
  predicate VoidGap(w: World, src: Source, a: Conv, c: Conv)
    requires Ordered(w)
  {
    SameFlags(a.flags, c.flags) && Apart(w, src, Referred(a).typ, Referred(c).typ)
  }

  /** Of three sequences for one expression, each better than the next, the first is
      better than the last: except exactly across such a gap. */
  lemma {:induction false} BetterCarriesOver(env: Env, src: Source, a: Conv, b: Conv, c: Conv)
    requires Ordered(env.w) && Sound(src.typ) && BuiltFrom(env, src, a) && BuiltFrom(env, src, b) && BuiltFrom(env, src, c)
    requires !a.flags.user
    ensures Comparable(a) && Comparable(b) && Comparable(c)
    ensures Compare(env.w, a, b) == 1 && Compare(env.w, b, c) == 1 ==>
            (Compare(env.w, a, c) == 1 <==> !VoidGap(env.w, src, a, c))
  {
    BuiltIsSeen(env, src, a);
    BuiltIsSeen(env, src, b);
    BuiltIsSeen(env, src, c);
    if Compare(env.w, a, b) == 1 && Compare(env.w, b, c) == 1 {
      var (x, t, y, u, z, v) := (Referred(a), Target(a), Referred(b), Target(b), Referred(c), Target(c));
      RanksCarryOver(env.w, x, t, y, u, z, v);
      if SameFlags(x.flags, z.flags) {
        TiedCarriesOver(env, src, x, t, y, u, z, v);
      }
    }
  }

  lemma {:induction false} NothingNearer(w: World, f: Type, a: About, b: About)
    requires Ordered(w) && f.Array?
    ensures !Nearer(w, AboutOf(f), a, b)
  {
  }

  lemma {:induction false} ArraysAreNotCloser(env: Env, src: Source, x: Conv, t: Option<Type>, y: Conv, u: Option<Type>)
    requires Ordered(env.w) && Tied(env, src, x, t, y, u) && NonReference(src.typ).Array?
    ensures !Closer(env.w, x, y)
  {
    CloserIsNearer(env, src, x, t, y, u);
    NothingNearer(env.w, NonReference(src.typ), AboutOf(x.typ), AboutOf(y.typ));
  }

  /** Sequences that start from an array are not told apart by derivation: what the rules
      see is the array, not the pointer it turns into. */
  lemma {:induction false} ArraysAreNotRanked(env: Env, src: Source, x: Conv, t: Option<Type>, y: Conv, u: Option<Type>)
    requires Ordered(env.w) && Tied(env, src, x, t, y, u) && NonReference(src.typ).Array?
    ensures CompareSequences(env.w, x, t, y, u) == 1 <==> Tighter(x, t, y, u)
  {
    TwoReasons(env, src, x, t, y, u);
    ArraysAreNotCloser(env, src, x, t, y, u);
  }
}
