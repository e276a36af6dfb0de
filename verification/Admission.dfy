/** Which implicit conversions there are, and of which kind (clause 4 and section 8.5.3 of
    ISO/IEC 14882:1998). */
module Admission {
  import opened Hierarchy
  import opened Conversions
  import opened CallArgs
  import opened Building
  import opened Preference
  import opened Qualification

  /** There is a conversion that is not bad. */
  predicate Proper(r: Option<Conv>) {
    r.Some? && !r.value.flags.bad
  }

  /** Neither a null pointer constant nor a string literal for that type. */
  predicate Ordinary(env: Env, src: Source, to: Type) {
    src.expr.Some? ==> !env.isNullConstant(src.expr.value) && !env.isStringFor(src.expr.value, StripTopQuals(to))
  }

  /** A pointer, perhaps what an array or a function decays to. */
  predicate IsPointer(env: Env, src: Source, pointee: Type) {
    Decay(env, src).typ == Pointer(pointee, 0)
  }

  /** The conversion after the lvalue transformation; its kind is that of its rank. */
  lemma {:induction false} Standard(env: Env, to: Type, src: Source)
    requires Ordered(env.w)
    ensures StandardConversion(env, to, src) == ConvertValue(env, StripTopQuals(NonReference(to)), Decay(env, src), src)
    ensures var d := Decay(env, src); !d.flags.bad && d.flags.std == IDENTITY_RANK && (d.Step? ==> d.from.flags == d.flags)
    ensures var r := StandardConversion(env, to, src);
      r.Some? && !r.value.flags.bad ==> StandingOf(r.value) == OfRank(r.value.flags.std)
  {
    DecayIsCanonical(env, src);
    StandardIsCanonical(env, to, src);
  }

  function OfRank(std: nat): Standing {
    if std == PBOOL_RANK then ToBoolean else if std == STD_RANK then Conversion else if std == PROMO_RANK then Promotion else ExactMatch
  }

  lemma {:induction false} LeafPointees(t: Type, f: Type)
    requires !t.Pointer? && !t.Offset? && !f.Pointer? && !f.Offset?
    ensures QualifiesTo(t, f, true) <==> Unqualified(t) == Unqualified(f) && Keeps(QualsOf(t), QualsOf(f))
  {
    AtLeastKeeps(t, f);
  }

  /** A pointer to a class converts to a pointer to a base, or to the class itself, unless
      a qualifier would be lost. */
  lemma {:induction false} ClassPointers(env: Env, to: Type, src: Source, derived: ClassId, p: Quals)
    requires Ordered(env.w) && Ordinary(env, src, to) && IsPointer(env, src, Class(derived, p))
    requires to.Pointer? && to.to.Class?
    ensures var r := StandardConversion(env, to, src);
      && (Proper(r) <==> DerivedFrom(env.w, to.to.cls, derived) && Keeps(to.to.quals, p))
      && (Proper(r) ==> StandingOf(r.value) == if to.to.cls == derived then ExactMatch else Conversion)
  {
    Standard(env, to, src);
    LeafPointees(to.to, Class(derived, p));
    LeafPointees(to.to, Class(to.to.cls, p));
  }
  /** A pointer to an object converts to a pointer to void, unless a qualifier would be
      lost; a pointer to a function or to a member does not. */
  lemma {:induction false} PointersToVoid(env: Env, to: Type, src: Source, f: Type)
    requires Ordered(env.w) && Ordinary(env, src, to) && IsPointer(env, src, f)
    requires to.Pointer? && to.to.Void?
    ensures var r := StandardConversion(env, to, src);
      && (Proper(r) <==> !f.Offset? && !f.Func? && Keeps(to.to.quals, QualsOf(f)))
      && (Proper(r) ==> StandingOf(r.value) == if f.Void? then ExactMatch else Conversion)
  {
    Standard(env, to, src);
    LeafPointees(to.to, Void(QualsOf(f)));
  }

  /** A pointer to void, or to a scalar type, converts to nothing else. */
  lemma {:induction false} OtherPointers(env: Env, to: Type, src: Source, f: Type)
    requires Ordered(env.w) && Ordinary(env, src, to) && IsPointer(env, src, f) && (f.Void? || f.Scalar?)
    requires to.Pointer? && !to.to.Void?
    ensures var r := StandardConversion(env, to, src);
      && (Proper(r) <==> f.Scalar? && to.to.Scalar? && to.to.id == f.id && Keeps(to.to.quals, f.quals))
      && (Proper(r) ==> StandingOf(r.value) == ExactMatch)
  {
    Standard(env, to, src);
    if to.to.Scalar? {
      LeafPointees(to.to, f);
    }
  }

  /** A pointer to a pointer converts to one that is similar and gains qualifiers only
      inside levels that are all const. */
  lemma {:induction false} PointersToPointers(env: Env, to: Type, src: Source, f: Type)
    requires Ordered(env.w) && Ordinary(env, src, to) && IsPointer(env, src, f) && f.Pointer?
    requires to.Pointer? && to.to.Pointer?
    ensures var r := StandardConversion(env, to, src);
      && (Proper(r) <==> GainsInside(to.to, f, true))
      && (Proper(r) ==> StandingOf(r.value) == ExactMatch)
  {
    Standard(env, to, src);
    QualificationMeaning(to.to, f, true);
    SimilarToItself(f);
  }

  lemma {:induction false} SimilarToItself(t: Type)
    ensures GainsInside(t, t, true)
  {
  }

  /** A pointer to a member converts the other way round, to a pointer to a member of a
      derived class; unlike for other pointers, one that only gains qualifiers is not an
      exact match. */
  lemma {:induction false} MemberPointers(env: Env, to: Type, src: Source, f: Type)
    requires Ordered(env.w) && Ordinary(env, src, to) && IsPointer(env, src, f) && f.Offset? && f.member.Scalar?
    requires to.Pointer? && to.to.Offset? && to.to.member.Scalar?
    ensures var r := StandardConversion(env, to, src);
      && (Proper(r) <==> DerivedFrom(env.w, f.base, to.to.base) && to.to.member.id == f.member.id && Keeps(to.to.member.quals, f.member.quals))
      && (Proper(r) ==> StandingOf(r.value) == if to.to == f then ExactMatch else Conversion)
  {
    Standard(env, to, src);
    LeafPointees(to.to.member, f.member);
  }

  /** So does a pointer to a member function; its qualifiers do not count. */
  lemma {:induction false} MemberFunctionPointers(env: Env, to: Type, src: Source, owner: ClassId, sig: nat)
    requires Ordered(env.w) && Ordinary(env, src, to) && Decay(env, src).typ == MemFunc(owner, sig, 0) && to.MemFunc?
    ensures var r := StandardConversion(env, to, src);
      && (Proper(r) <==> DerivedFrom(env.w, owner, to.owner) && to.sig == sig)
      && (Proper(r) ==> StandingOf(r.value) == if to.owner == owner then ExactMatch else Conversion)
  {
    Standard(env, to, src);
  }

  /** The null pointer constant converts to any pointer, and to any pointer to a member. */
  lemma {:induction false} NullPointers(env: Env, to: Type, src: Source)
    requires Ordered(env.w) && IsArithmetic(env, ValueType(src)) && Has(src, env.isNullConstant) && (to.Pointer? || to.MemFunc?)
    ensures var r := StandardConversion(env, to, src); Proper(r) && StandingOf(r.value) == Conversion
  {
    Standard(env, to, src);
  }

  /** Without one, numbers and pointers are apart: there is at most a bad conversion, and
      to bool. */
  lemma {:induction false} NumbersAndPointers(env: Env, to: Type, src: Source)
    requires Ordered(env.w) && Ordinary(env, src, to)
    requires var (t, f) := (StripTopQuals(NonReference(to)), Decay(env, src).typ);
      || (t.Pointer? && f.Scalar?)
      || (f.Pointer? && t.Scalar? && !IsKind(env, t, {Boolean}))
    ensures !Proper(StandardConversion(env, to, src))
  {
    Standard(env, to, src);
  }

  /** A class converts to itself and to its proper bases; to and from anything else there
      are only user-defined conversions. */
  lemma {:induction false} Classes(env: Env, to: Type, src: Source, derived: ClassId)
    requires Ordered(env.w) && ValueType(src) == Class(derived, 0)
    ensures var (r, t) := (StandardConversion(env, to, src), StripTopQuals(NonReference(to)));
      && (Has(src, env.isNullConstant) || (r.Some? <==> t.Class? && DerivedFrom(env.w, t.cls, derived)))
      && (r.Some? && t.Class? ==> Proper(r) && StandingOf(r.value) == if t.cls == derived then ExactMatch else Conversion)
  {
    Standard(env, to, src);
  }

  /** An lvalue binds directly to a reference to its own class, or to a base, if no
      qualifier is lost, and whatever else it could be converted by. */
  lemma {:induction false} LvaluesBind(env: Env, ref: Type, src: Source, flags: LookupFlags, cls: ClassId, q: Quals)
    requires Ordered(env.w) && ref.Reference? && ref.to.Class? && NonReference(src.typ) == Class(cls, q)
    requires src.typ.Reference? || Has(src, env.isLvalue)
    requires DerivedFrom(env.w, ref.to.cls, cls) && Keeps(ref.to.quals, q)
    ensures var r := ImplicitConversion(env, ref, src, flags);
      && Proper(r) && r.value.Step? && r.value.code == RefBind && r.value.typ == ref && Origin(r.value).kind.Identity?
      && StandingOf(r.value) == if ref.to.cls == cls then ExactMatch else Conversion
  {
    AtLeastKeeps(ref.to, NonReference(src.typ));
    BindingOrigin(ref, Leaf(Identity, NonReference(src.typ), if src.expr.Some? then Some(src.typ) else None, Flags(0, false, false, false, false)));
  }

  /** A value that is not an lvalue does not bind to a reference to non-const. */
  lemma {:induction false} TemporariesNeedConst(env: Env, ref: Type, src: Source, flags: LookupFlags)
    requires Ordered(env.w) && ref.Reference? && QualsOf(ref.to) & 3 != 1 && !src.typ.Class?
    requires !src.typ.Reference? && !Has(src, env.isLvalue)
    ensures ImplicitConversion(env, ref, src, flags).None?
  {
  }

  /** Nothing binds to a reference to a less qualified version of its own type. */
  lemma {:induction false} BindingKeepsQualifiers(env: Env, ref: Type, src: Source, flags: LookupFlags)
    requires Ordered(env.w) && ref.Reference? && !NonReference(src.typ).Class?
    requires SameIgnoringQuals(ref.to, NonReference(src.typ)) && !Keeps(QualsOf(ref.to), QualsOf(NonReference(src.typ)))
    ensures ImplicitConversion(env, ref, src, flags).None?
  {
    AtLeastKeeps(ref.to, NonReference(src.typ));
  }

  /** A reference to const binds to whatever converts to the type referred to, and ranks
      as that conversion does. */
  lemma {:induction false} ConstBindsTemporary(env: Env, ref: Type, src: Source, flags: LookupFlags)
    requires Ordered(env.w) && ref.Reference? && QualsOf(ref.to) & 3 == 1 && !NonReference(src.typ).Class? && !flags.noTempBind
    requires !src.typ.Reference? && !Has(src, env.isLvalue) && Keeps(QualsOf(ref.to), QualsOf(src.typ)) && !ref.to.Reference?
    requires StandardConversion(env, ref.to, src).Some?
    ensures var (r, v) := (ImplicitConversion(env, ref, src, flags), StandardConversion(env, ref.to, src).value);
      r.Some? && r.value == Build(RefBind, ref, v) && StandingOf(r.value) == StandingOf(v)
  {
    AtLeastKeeps(ref.to, NonReference(src.typ));
    StandardIsCanonical(env, ref.to, src);
  }
  lemma {:induction false} ReplacedOrigin(c: Conv, leaf: Conv)
    requires leaf.Leaf?
    ensures Origin(ReplaceOrigin(c, leaf)) == leaf && (c.Step? ==> ReplaceOrigin(c, leaf).flags == c.flags)
  {
    if c.Step? {
      ReplacedOrigin(c.from, leaf);
    }
  }

  /** A conversion by a conversion function is there if its result converts without another
      one; it is bad if either is, and keeps the rank of what happens to the result. */
  lemma {:induction false} ByConversionFunction(env: Env, to: Type, src: Source, fn: nat, result: Type, bad: bool)
    requires Ordered(env.w) && !to.Reference? && env.userConversion(to, src) == Some(ByFunction(fn, result, bad))
    ensures var (r, second) := (ByUser(env, to, src), StandardConversion(env, to, Source(result, None)));
      && (r.Some? <==> second.Some?)
      && (r.Some? ==> Origin(r.value).kind == User(fn) && r.value.flags.std == second.value.flags.std
                      && StandingOf(r.value) == if bad || second.value.flags.bad then IllFormed else UserDefined)
  {
    var second := StandardConversion(env, to, Source(result, None));
    if second.Some? {
      StandardIsCanonical(env, to, Source(result, None));
      ReplacedOrigin(second.value, UserLeaf(fn, NonReference(result), src, bad));
      ReplacedOrigin(ByUser(env, to, src).value, UserLeaf(fn, NonReference(result), src, bad));
    }
  }

  /** One by a constructor is as good as the constructor's own argument. */
  lemma {:induction false} ByConstructors(env: Env, to: Type, src: Source, fn: nat, bad: bool)
    requires Ordered(env.w) && env.userConversion(to, src) == Some(ByConstructor(fn, bad))
    ensures var r := ByUser(env, to, src);
      r.Some? && Origin(r.value).kind == User(fn) && StandingOf(r.value) == if bad then IllFormed else UserDefined
  {
  }

  /** A user-defined conversion is only tried between values for which there is no standard
      conversion, if one of them is of class type, and an ambiguous one is bad. */
  lemma {:induction false} UserIsLast(env: Env, to: Type, src: Source, flags: LookupFlags)
    requires Ordered(env.w) && !to.Reference?
    ensures var (r, standard) := (ImplicitConversion(env, to, src, flags), StandardConversion(env, to, src));
      && (standard.Some? ==> r == standard)
      && (standard.None? && ((!src.typ.Class? && !to.Class?) || flags.noConversion || src.expr.None?) ==> r.None?)
      && (standard.None? && r.Some? && env.userConversion(to, src) == Some(Ambiguous) ==> StandingOf(r.value) == IllFormed)
  {
  }
  /** The sequence for the object that a method is called for, once it is marked, stands
      for the binding of a reference to that object: directly to its own class, or to the
      base, with the qualifiers of the function. */
  lemma {:induction false} ObjectIsBinding(env: Env, to: Type, src: Source, derived: ClassId, p: Quals)
    requires Ordered(env.w) && Ordinary(env, src, to) && IsPointer(env, src, Class(derived, p))
    requires to.Pointer? && to.to.Class? && Proper(StandardConversion(env, to, src))
    ensures var c := MarkThis(true, StandardConversion(env, to, src)).value;
      && ThisShape(c) && ImplicitObject(c).typ == Reference(to.to) && Origin(ImplicitObject(c)).typ == Class(derived, p)
      && StandingOf(ImplicitObject(c)) == if to.to.cls == derived then ExactMatch else Conversion
  {
    Standard(env, to, src);
    ClassPointers(env, to, src, derived, p);
    StrippedIsObject(env, to, src, derived, p);
    BindingOrigin(Reference(to.to), Leaf(Identity, Class(derived, p), None, Flags(0, false, false, false, false)));
  }

  /** What is left without the qualification and the conversion to a base. */
  lemma {:induction false} StrippedIsObject(env: Env, to: Type, src: Source, derived: ClassId, p: Quals)
    requires Ordered(env.w) && Ordinary(env, src, to) && IsPointer(env, src, Class(derived, p))
    requires to.Pointer? && to.to.Class? && Proper(StandardConversion(env, to, src))
    ensures StripThis(StandardConversion(env, to, src).value).typ == Pointer(Class(derived, p), 0)
    ensures StandardConversion(env, to, src).value.typ == Pointer(to.to, 0)
  {
    var d := Decay(env, src);
    assert StandardConversion(env, to, src) == ConvertValue(env, Pointer(to.to, 0), d, src);
    assert StripThis(d) == d;
    if Pointer(to.to, 0) != d.typ {
      PointerStripped(env, Pointer(to.to, 0), d, src);
    }
  }

  lemma {:induction false} PointerStripped(env: Env, to: Type, c: Conv, src: Source)
    requires Ordered(env.w) && to.Pointer? && to.to.Class? && c.typ.Pointer? && c.typ.to.Class? && (c.Step? ==> LvalueTransformation(c))
    ensures var r := ConvertPointer(env, to, c, src); Proper(r) ==> r.value.typ == to && StripThis(r.value).typ == c.typ
  {
  }
}
