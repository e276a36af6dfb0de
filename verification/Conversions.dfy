/** Ranking implicit conversion sequences: `compare_ics` and what it is made of
    (section 13.3.3.2 of ISO/IEC 14882:1998). */
module Conversions {
  import opened Hierarchy

  /** const is bit 0, volatile bit 1, restrict bit 2. */
  type Quals = bv3

  datatype Type =
    | Void(quals: Quals)
    | Scalar(id: nat, quals: Quals)
    | Class(cls: ClassId, quals: Quals)
    | Pointer(to: Type, quals: Quals)
    | Reference(to: Type)
    | Array(elem: Type)
    | Offset(base: ClassId, member: Type)
    | MemFunc(owner: ClassId, sig: nat, quals: Quals)
    | Func(sig: nat)

  /** TREE_CODE, as far as it matters. */
  predicate SameCode(a: Type, b: Type) {
    match (a, b)
    case (Void(_), Void(_)) => true
    case (Scalar(_, _), Scalar(_, _)) => true
    case (Class(_, _), Class(_, _)) => true
    case (Pointer(_, _), Pointer(_, _)) => true
    case (Reference(_), Reference(_)) => true
    case (Array(_), Array(_)) => true
    case (Offset(_, _), Offset(_, _)) => true
    case (MemFunc(_, _, _), MemFunc(_, _, _)) => true
    case (Func(_), Func(_)) => true
    case _ => false
  }

  function QualsOf(t: Type): Quals {
    match t
    case Void(q) => q
    case Scalar(_, q) => q
    case Class(_, q) => q
    case Pointer(_, q) => q
    case MemFunc(_, _, q) => q
    case Array(e) => QualsOf(e)
    case _ => 0
  }

  function Unqualified(t: Type): Type {
    match t
    case Void(_) => Void(0)
    case Scalar(id, _) => Scalar(id, 0)
    case Class(c, _) => Class(c, 0)
    case Pointer(to, _) => Pointer(to, 0)
    case MemFunc(o, s, _) => MemFunc(o, s, 0)
    case Array(e) => Array(Unqualified(e))
    case _ => t
  }

  predicate SameIgnoringQuals(a: Type, b: Type) {
    Unqualified(a) == Unqualified(b)
  }

  predicate AtLeastAsQualified(a: Type, b: Type) {
    QualsOf(a) & QualsOf(b) == QualsOf(b)
  }

  /** `comp_cv_qualification`: 1 if `a` is more qualified, -1 if `b` is. */
  function CompareQuals(a: Type, b: Type): (r: int)
    ensures -1 <= r <= 1
  {
    if QualsOf(a) == QualsOf(b) then 0
    else if AtLeastAsQualified(a, b) then 1
    else if AtLeastAsQualified(b, a) then -1
    else 0
  }

  /** `comp_ptr_ttypes_real` with `constp` -1: similar types, and the qualifiers of
      `from` at every level are among those of `to`, with some level where they are
      fewer. */
  predicate ProperlyMoreQualified(to: Type, from: Type, more: bool) {
    SameCode(to, from) &&
    if to.Offset? && to.base == from.base then ProperlyMoreQualified(to.member, from.member, more)
    else
      (to.Func? || AtLeastAsQualified(to, from)) &&
      var more' := more || !(to.Func? || AtLeastAsQualified(from, to));
      if to.Pointer? then ProperlyMoreQualified(to.to, from.to, more')
      else SameIgnoringQuals(to, from) && more'
  }

  /** `comp_cv_qual_signature`: 1 if the signature of `a` is a proper subset. */
  function CompareQualSignature(a: Type, b: Type): (r: int)
    ensures -1 <= r <= 1
  {
    if ProperlyMoreQualified(b, a, false) then 1
    else if ProperlyMoreQualified(a, b, false) then -1
    else 0
  }

  const IDENTITY_RANK := 0
  const EXACT_RANK := 1
  const PROMO_RANK := 2
  const STD_RANK := 3
  const PBOOL_RANK := 4
  const USER_RANK := 5
  const ELLIPSIS_RANK := 6
  const BAD_RANK := 7

  /** ICS_STD_RANK and the flags of a conversion node. */
  datatype Flags = Flags(std: nat, user: bool, ellipsis: bool, thisObject: bool, bad: bool)

  datatype Code = StdConv | PtrConv | PmemConv | BaseConv | QualConv | LvalueConv | RvalueConv | RefBind

  datatype LeafKind = Identity | User(fn: nat) | Ambig

  /** A conversion sequence, last conversion outermost.  The user-defined conversion
      ends the chain: `operand` is the type of what it, or an identity, applies to. */
  datatype Conv =
    | Leaf(kind: LeafKind, typ: Type, operand: Option<Type>, flags: Flags)
    | Step(code: Code, typ: Type, from: Conv, flags: Flags)

  /** ICS_RANK */
  function Rank(f: Flags): nat {
    if f.bad then BAD_RANK
    else if f.ellipsis then ELLIPSIS_RANK
    else if f.user then USER_RANK
    else f.std
  }

  /** `build_conv` */
  function Build(code: Code, typ: Type, from: Conv): Conv {
    var rank := from.flags.std;
    var rank' :=
      if code in {PtrConv, PmemConv, BaseConv, StdConv} && rank < STD_RANK then STD_RANK
      else if code == QualConv && rank < EXACT_RANK then EXACT_RANK
      else rank;
    Step(code, typ, from, Flags(rank', from.flags.user, false, false, from.flags.bad))
  }

  /** `direct_reference_binding` */
  function DirectBinding(ref: Type, conv: Conv): Conv
    requires ref.Reference?
  {
    Build(RefBind, ref,
          if SameIgnoringQuals(ref.to, conv.typ) then conv else Build(BaseConv, ref.to, conv))
  }

  predicate LvalueTransformation(c: Conv) {
    c.Step? && (c.code == LvalueConv || c.code == RvalueConv)
  }

  function StripLvalue(c: Conv): Conv {
    if LvalueTransformation(c) then StripLvalue(c.from) else c
  }

  /** The type of what `c` converts. */
  function OperandType(c: Conv): Option<Type> {
    match c
    case Leaf(_, _, operand, _) => operand
    case Step(_, _, from, _) => Some(from.typ)
  }

  predicate SameConversion(a: Conv, b: Conv) {
    && (match (a, b)
        case (Leaf(k, _, _, _), Leaf(l, _, _, _)) => k == l || (k.User? && l.User?)
        case (Step(k, _, _, _), Step(l, _, _, _)) => k == l
        case _ => false)
    && a.typ == b.typ
    && OperandType(a) == OperandType(b)
  }

  /** The loop of `is_subseq`: some conversion strictly inside `b` is the same as `a`. */
  predicate OccursInside(a: Conv, b: Conv) {
    b.Step? && ((!LvalueTransformation(b) && SameConversion(a, b.from)) || OccursInside(a, b.from))
  }

  /** `is_subseq` */
  predicate IsSubsequence(a: Conv, b: Conv) {
    OccursInside(StripLvalue(a), b)
  }

  /** The innermost conversion. */
  function Origin(c: Conv): (o: Conv)
    ensures o.Leaf?
  {
    if c.Leaf? then c else Origin(c.from)
  }

  /** DERIVED_FROM_P of two different classes */
  predicate Derives(w: World, derived: ClassId, base: ClassId)
    requires Ordered(w)
  {
    derived < |w| && derived != base && NumSubobjects(w, derived, base) > 0
  }

  /** IS_AGGR_TYPE_CODE: a pointer to member function is a record, too. */
  predicate AggregateCode(t: Type) {
    t.Class? || t.MemFunc?
  }

  /** `is_properly_derived_from` */
  predicate ProperlyDerived(w: World, derived: Type, base: Type)
    requires Ordered(w)
  {
    && AggregateCode(derived) && AggregateCode(base)
    && !SameIgnoringQuals(derived, base)
    && derived.Class? && base.Class? && Derives(w, derived.cls, base.cls)
  }

  /** The sequence for an implicit object: a pointer to a class, which may have been
      converted to a base and qualified. */
  predicate ThisShape(c: Conv) {
    c.typ.Pointer? && StripThis(c).typ.Pointer?
  }

  function StripThis(c: Conv): Conv {
    var t := if c.Step? && c.code == QualConv then c.from else c;
    if t.Step? && t.code == PtrConv then t.from else t
  }

  /** `maybe_handle_implicit_object` */
  function ImplicitObject(c: Conv): Conv
    requires c.flags.thisObject ==> ThisShape(c)
  {
    if c.flags.thisObject then
      DirectBinding(Reference(c.typ.to),
                    Leaf(Identity, StripThis(c).typ.to, None, Flags(0, false, false, false, false)))
    else c
  }

  predicate ReferenceShape(c: Conv) {
    c.Step? && c.code == RefBind ==> c.typ.Reference?
  }

  /** `maybe_handle_ref_bind`: the rest of the sequence... */
  function Referred(c: Conv): Conv {
    if c.Step? && c.code == RefBind
    then c.from.(flags := c.from.flags.(user := c.flags.user, bad := c.flags.bad))
    else c
  }

  /** ... and the type that the reference refers to. */
  function Target(c: Conv): Option<Type>
    requires ReferenceShape(c)
  {
    if c.Step? && c.code == RefBind then Some(c.typ.to) else None
  }

  function NonReference(t: Type): Type {
    if t.Reference? then t.to else t
  }

  /** What pointers, or pointers to members, are about: the classes pointed from and
      to, switched for pointers to members. */
  function Pointees(from1: Type, to1: Type, from2: Type, to2: Type): Option<(Type, Type, Type, Type)> {
    match (from1, to1, from2, to2)
    case (Pointer(f1, _), Pointer(t1, _), Pointer(f2, _), Pointer(t2, _)) =>
      if !f1.Offset? && !t1.Offset? && !f2.Offset? && !t2.Offset? then Some((f1, t1, f2, t2))
      else if f1.Offset? && t1.Offset? && f2.Offset? && t2.Offset? then
        Some((Class(t1.base, 0), Class(f1.base, 0), Class(t2.base, 0), Class(f2.base, 0)))
      else None
    case (MemFunc(f1, _, _), MemFunc(t1, _, _), MemFunc(f2, _, _), MemFunc(t2, _, _)) =>
      Some((Class(t1, 0), Class(f1, 0), Class(t2, 0), Class(f2, 0)))
    case _ => None
  }

  /** 1 if `a` and not `b`, -1 if `b` and not `a`. */
  function Prefer(a: bool, b: bool): (r: int)
    ensures -1 <= r <= 1
  {
    if a then 1 else if b then -1 else 0
  }

  /** The rules for pointers to classes: from `f1` to `t1` against from `f2` to `t2`. */
  function ComparePointers(w: World, f1: Type, t1: Type, f2: Type, t2: Type): (r: int)
    requires Ordered(w)
    ensures -1 <= r <= 1
  {
    if t1.Void? && t2.Void? then Prefer(ProperlyDerived(w, f2, f1), ProperlyDerived(w, f1, f2))
    else if t1.Void? || t2.Void? then
      if f1 != f2 then 0
      else if t2.Void? then Prefer(ProperlyDerived(w, f1, t1), false)
      else Prefer(false, ProperlyDerived(w, f1, t2))
    else if AggregateCode(t1) && AggregateCode(t2) then
      if f1 == f2 then Prefer(ProperlyDerived(w, t1, t2), ProperlyDerived(w, t2, t1))
      else if t1 == t2 then Prefer(ProperlyDerived(w, f2, f1), ProperlyDerived(w, f1, f2))
      else 0
    else 0
  }

  /** The rules about derivation. */
  function CompareDerivation(w: World, from1: Type, to1: Type, from2: Type, to2: Type): (r: int)
    requires Ordered(w)
    ensures -1 <= r <= 1
  {
    var p := Pointees(from1, to1, from2, to2);
    if p.Some? && AggregateCode(p.value.0) && AggregateCode(p.value.2) then
      ComparePointers(w, p.value.0, p.value.1, p.value.2, p.value.3)
    else if NonReference(from1).Class? && from1 == from2 then
      var from := NonReference(from1);
      if ProperlyDerived(w, from, to1) && ProperlyDerived(w, from, to2)
      then Prefer(ProperlyDerived(w, to1, to2), ProperlyDerived(w, to2, to1))
      else 0
    else if NonReference(to1).Class? && to1 == to2 then
      var to := NonReference(to1);
      if ProperlyDerived(w, from1, to) && ProperlyDerived(w, from2, to)
      then Prefer(ProperlyDerived(w, from2, from1), ProperlyDerived(w, from1, from2))
      else 0
    else 0
  }

  /** The choice between two bad sequences. */
  function CompareBad(f: Flags, g: Flags): (r: int)
    ensures -1 <= r <= 1
  {
    if (f.user && !g.user) || f.std > g.std then -1
    else if (!f.user && g.user) || f.std < g.std then 1
    else 0
  }

  predicate SameUserConversion(a: Conv, b: Conv) {
    Origin(a).kind.User? && Origin(a).kind == Origin(b).kind
  }

  /** The rules for sequences of one rank. */
  function CompareSequences(w: World, a: Conv, ta: Option<Type>, b: Conv, tb: Option<Type>): (r: int)
    requires Ordered(w)
    ensures -1 <= r <= 1
  {
    var (fa, fb) := (Origin(a).typ, Origin(b).typ);
    if fa == fb && (IsSubsequence(a, b) || IsSubsequence(b, a)) then Prefer(IsSubsequence(a, b), true)
    else if a.flags.std != b.flags.std then Prefer(a.flags.std < b.flags.std, true)
    else
      var d := CompareDerivation(w, fa, a.typ, fb, b.typ);
      if d != 0 then d
      else if a.Step? && a.code == QualConv && b.Step? && b.code == QualConv && fa == fb then
        CompareQualSignature(a.typ, b.typ)
      else if ta.Some? && tb.Some? && SameIgnoringQuals(a.typ, b.typ) then CompareQuals(tb.value, ta.value)
      else 0
  }

  function CompareReferred(w: World, a: Conv, ta: Option<Type>, b: Conv, tb: Option<Type>): (r: int)
    requires Ordered(w)
    ensures -1 <= r <= 1
  {
    var (ra, rb) := (Rank(a.flags), Rank(b.flags));
    if ra != rb then Prefer(ra < rb, true)
    else if ra == BAD_RANK && CompareBad(a.flags, b.flags) != 0 then CompareBad(a.flags, b.flags)
    else if a.flags.ellipsis then 0
    else if a.flags.user && !SameUserConversion(a, b) then 0
    else CompareSequences(w, a, ta, b, tb)
  }

  /** What `compare_ics` expects of a sequence it is given. */
  predicate Comparable(c: Conv) {
    (c.flags.thisObject ==> ThisShape(c)) && ReferenceShape(c)
  }

  /** `compare_ics`: 1 if `a` is better, -1 if `b` is, 0 if neither. */
  function Compare(w: World, a: Conv, b: Conv): (r: int)
    requires Ordered(w) && Comparable(a) && Comparable(b)
    ensures -1 <= r <= 1
  {
    var (a', b') := (ImplicitObject(a), ImplicitObject(b));
    CompareReferred(w, Referred(a'), Target(a'), Referred(b'), Target(b'))
  }

  /** The canonical order of the conversions in a sequence. */
  function Level(c: Conv): nat {
    match c
    case Leaf(_, _, _, _) => 0
    case Step(code, _, _, _) =>
      match code
      case LvalueConv | RvalueConv => 1
      case QualConv => 3
      case _ => 2
  }

  /** Type after an array or function decays. */
  function Decayed(t: Type): Type {
    match t
    case Array(e) => Pointer(e, 0)
    case Func(_) => Pointer(t, 0)
    case _ => t
  }

  /** A standard conversion sequence in the form of section 13.3.3.1.1: at most one
      lvalue transformation, then at most one conversion, then at most one
      qualification adjustment.  A bad pointer conversion may follow a good one. */
  predicate CanonicalChain(c: Conv) {
    if c.Leaf? then c.flags.std == IDENTITY_RANK
    else
      && CanonicalChain(c.from) && c.code != RefBind
      && (c.code == RvalueConv ==> c.typ == Unqualified(c.from.typ) && !c.from.typ.Array?)
      && (c.code == LvalueConv ==> c.typ != c.from.typ && c.typ == Decayed(c.from.typ))
      && (Level(c.from) < Level(c) || PointerTwice(c))
  }

  predicate PointerTwice(c: Conv) {
    && c.Step? && c.code == PtrConv && c.from.Step? && c.from.code in {PtrConv, PmemConv} && Level(c.from.from) < 2
    && c.typ.Pointer? && c.from.typ.Pointer? && c.from.from.typ.Pointer?
    && c.typ.quals == 0 && c.from.typ.quals == 0 && c.typ != c.from.typ
  }

  /** The flags on the outermost conversion tell what is inside. */
  predicate WellFlagged(c: Conv) {
    && (c.flags.user <==> !Origin(c).kind.Identity?)
    && !(c.flags.bad && c.flags.ellipsis) && c.flags.std <= PBOOL_RANK
  }

  predicate Canonical(c: Conv) {
    && Comparable(c)
    && (c.Step? && c.code == RefBind ==> c.from.flags.std == c.flags.std && !c.from.flags.ellipsis && !c.flags.ellipsis)
    && WellFlagged(c) && CanonicalChain(if c.Step? && c.code == RefBind then c.from else c)
  }

  /** The two halves of the bad tie-break contradict each other. */
  predicate Disagree(f: Flags, g: Flags) {
    f.bad && g.bad && ((f.user && !g.user && f.std < g.std) || (!f.user && g.user && f.std > g.std))
  }

  predicate BadDisagree(a: Conv, b: Conv)
    requires Comparable(a) && Comparable(b)
  {
    Disagree(Referred(ImplicitObject(a)).flags, Referred(ImplicitObject(b)).flags)
  }

  lemma {:induction false} OccursBelow(x: Conv, b: Conv)
    requires CanonicalChain(b) && OccursInside(x, b)
    ensures !LvalueTransformation(b) && Level(x) <= Level(b)
    ensures Level(x) == Level(b) ==> PointerTwice(b) && SameConversion(x, b.from)
    decreases b
  {
    if OccursInside(x, b.from) {
      OccursBelow(x, b.from);
    }
  }

  /** An lvalue transformation leads to one type only. */
  lemma {:induction false} PointerOrigin(c: Conv)
    requires CanonicalChain(c) && Level(c) < 2 && c.typ.Pointer?
    ensures Unqualified(c.typ) == Unqualified(Decayed(Origin(c).typ))
  {
    if c.Step? {
      assert c.from.Leaf?;
    }
  }

  /** No two sequences from the same type are proper subsequences of each other. */
  lemma {:induction false} SubsequenceAsymmetric(a: Conv, b: Conv)
    requires CanonicalChain(a) && CanonicalChain(b) && Origin(a).typ == Origin(b).typ
    ensures !(IsSubsequence(a, b) && IsSubsequence(b, a))
  {
    if IsSubsequence(a, b) && IsSubsequence(b, a) {
      OccursBelow(StripLvalue(a), b);
      OccursBelow(StripLvalue(b), a);
      PointerOrigin(a.from.from);
      PointerOrigin(b.from.from);
    }
  }

  /** More qualified at every level, both ways: then nowhere more qualified. */
  lemma {:induction false} SignatureAsymmetric(a: Type, b: Type, m: bool, n: bool)
    requires ProperlyMoreQualified(a, b, m) && ProperlyMoreQualified(b, a, n)
    ensures m && n
    decreases a
  {
    if a.Offset? && a.base == b.base {
      SignatureAsymmetric(a.member, b.member, m, n);
    } else if a.Pointer? {
      SignatureAsymmetric(a.to, b.to, m, n);
    }
  }

  lemma {:induction false} CompareQualSignatureAntisymmetric(a: Type, b: Type)
    ensures CompareQualSignature(a, b) == -CompareQualSignature(b, a)
  {
    if ProperlyMoreQualified(a, b, false) && ProperlyMoreQualified(b, a, false) {
      SignatureAsymmetric(a, b, false, false);
    }
  }

  lemma {:induction false} CompareQualsAntisymmetric(a: Type, b: Type)
    ensures CompareQuals(a, b) == -CompareQuals(b, a)
  {
  }

  lemma {:induction false} DerivesAsymmetric(w: World, a: Type, b: Type)
    requires Ordered(w)
    ensures !(ProperlyDerived(w, a, b) && ProperlyDerived(w, b, a))
  {
    if ProperlyDerived(w, a, b) && ProperlyDerived(w, b, a) {
      if a.cls < b.cls {
        NoSubobjectAbove(w, a.cls, b.cls);
      } else {
        NoSubobjectAbove(w, b.cls, a.cls);
      }
    }
  }

  lemma {:induction false} ComparePointersAntisymmetric(w: World, f1: Type, t1: Type, f2: Type, t2: Type)
    requires Ordered(w)
    ensures ComparePointers(w, f1, t1, f2, t2) == -ComparePointers(w, f2, t2, f1, t1)
  {
    DerivesAsymmetric(w, f1, f2);
    DerivesAsymmetric(w, t1, t2);
  }

  lemma {:induction false} CompareDerivationAntisymmetric(w: World, f1: Type, t1: Type, f2: Type, t2: Type)
    requires Ordered(w)
    ensures CompareDerivation(w, f1, t1, f2, t2) == -CompareDerivation(w, f2, t2, f1, t1)
  {
    DerivesAsymmetric(w, f1, f2);
    DerivesAsymmetric(w, t1, t2);
    var (p, q) := (Pointees(f1, t1, f2, t2), Pointees(f2, t2, f1, t1));
    if p.Some? {
      ComparePointersAntisymmetric(w, p.value.0, p.value.1, p.value.2, p.value.3);
    }
  }

  lemma {:induction false} CompareSequencesAntisymmetric(w: World, a: Conv, ta: Option<Type>, b: Conv, tb: Option<Type>)
    requires Ordered(w) && CanonicalChain(a) && CanonicalChain(b)
    ensures CompareSequences(w, a, ta, b, tb) == -CompareSequences(w, b, tb, a, ta)
  {
    var (fa, fb) := (Origin(a).typ, Origin(b).typ);
    if fa == fb {
      SubsequenceAsymmetric(a, b);
    }
    CompareDerivationAntisymmetric(w, fa, a.typ, fb, b.typ);
    CompareQualSignatureAntisymmetric(a.typ, b.typ);
    if ta.Some? && tb.Some? {
      CompareQualsAntisymmetric(ta.value, tb.value);
    }
  }

  /** The bad tie-break, for sequences with their references dealt with. */
  lemma {:induction false} CompareReferredAntisymmetric(w: World, a: Conv, ta: Option<Type>, b: Conv, tb: Option<Type>)
    requires Ordered(w) && CanonicalChain(a) && CanonicalChain(b) && WellFlagged(a) && WellFlagged(b)
    ensures var (x, y) := (CompareReferred(w, a, ta, b, tb), CompareReferred(w, b, tb, a, ta));
      if Disagree(a.flags, b.flags) then x == -1 && y == -1 else x == -y
  {
    CompareSequencesAntisymmetric(w, a, ta, b, tb);
  }

  /** What is left of a canonical sequence once the implicit object and the
      reference have been dealt with. */
  lemma {:induction false} ReferredIsCanonical(c: Conv)
    requires Canonical(c)
    ensures var r := Referred(ImplicitObject(c)); CanonicalChain(r) && WellFlagged(r)
  {
    if c.flags.thisObject {
      var o := Leaf(Identity, StripThis(c).typ.to, None, Flags(0, false, false, false, false));
      assert Origin(o) == o;
    } else if c.Step? && c.code == RefBind {
      assert Origin(c) == Origin(c.from);
      assert c.from.Step? ==> Origin(Referred(c)) == Origin(c.from.from);
    }
  }

  /** Swapping the sequences swaps the answer, except when both are bad and the two
      halves of the tie-break disagree: then each sequence is worse than the other. */
  lemma {:induction false} CompareAntisymmetric(w: World, a: Conv, b: Conv)
    requires Ordered(w) && Canonical(a) && Canonical(b)
    ensures Compare(w, a, b) == -Compare(w, b, a) <==> !BadDisagree(a, b)
    ensures BadDisagree(a, b) ==> Compare(w, a, b) == -1 && Compare(w, b, a) == -1
  {
    ReferredIsCanonical(a);
    ReferredIsCanonical(b);
    var (a', b') := (ImplicitObject(a), ImplicitObject(b));
    CompareReferredAntisymmetric(w, Referred(a'), Target(a'), Referred(b'), Target(b'));
  }

  /** Conversions that `compare_ics` treats evenly. */
  predicate Even(c: Conv, d: Conv) {
    Canonical(c) && Canonical(d) && !BadDisagree(c, d)
  }

  lemma {:induction false} EvenAntisymmetric(w: World, c: Conv, d: Conv)
    requires Ordered(w) && Even(c, d)
    ensures Compare(w, c, d) == -Compare(w, d, c)
  {
    CompareAntisymmetric(w, c, d);
  }

  /** From an int, an ambiguous conversion to a class against a conversion to a pointer,
      both bad: each is worse than the other. */
  lemma {:induction false} BothWorse(w: World)
    requires Ordered(w)
    ensures var (int', pointer, class') := (Scalar(0, 0), Pointer(Scalar(1, 0), 0), Class(0, 0));
      var ambiguous := Leaf(Ambig, class', Some(int'), Flags(0, true, false, false, true));
      var direct := Step(StdConv, pointer, Leaf(Identity, int', Some(int'), Flags(0, false, false, false, false)),
                         Flags(STD_RANK, false, false, false, true));
      && Canonical(ambiguous) && Canonical(direct)
      && Compare(w, ambiguous, direct) == -1 && Compare(w, direct, ambiguous) == -1
  {
  }
}
