/** Calls that overload resolution gets wrong: concrete functions and arguments, with the
    conversions that the compiler builds for them. */
module Miscalls {
  import opened Hierarchy
  import opened Conversions
  import opened CallArgs
  import opened Building
  import opened Joust
  import opened Choice
  import T = Tourney

  /** Classes A and A2, B derived from A, D derived from B and A2. */
  const A: ClassId := 0
  const A2: ClassId := 1
  const B: ClassId := 2
  const D: ClassId := 3

  function Deriving(bases: seq<ClassId>): ClassInfo {
    ClassInfo(ClassDecl(bases, [], [], false, 1), seq(|bases|, i => 0), [], None, 0, 1, 1)
  }

  function Diamondless(): (w: World)
    ensures Ordered(w)
  {
    [Deriving([]), Deriving([]), Deriving([A]), Deriving([B, A2])]
  }

  /** Two argument expressions, and which of them are lvalues. */
  datatype Call = Call(e: nat, e': nat, lvalue: bool, lvalue': bool)

  /** Pointers, that is, not null pointer constants, which are integers. */
  predicate Fits(env: Env, call: Call) {
    && env.isLvalue(call.e) == call.lvalue && env.isLvalue(call.e') == call.lvalue'
    && !env.isNullConstant(call.e) && !env.isNullConstant(call.e')
  }

  /** A `D*` argument. */
  function Given(lvalue: bool): Conv {
    var (pointer, flags) := (Pointer(Class(D, 0), 0), Flags(0, false, false, false, false));
    var identity := Leaf(Identity, pointer, Some(pointer), flags);
    if lvalue then Build(RvalueConv, pointer, identity) else identity
  }

  /** The conversion of a `D*` to a pointer to `c`. */
  function ToBase(c: ClassId, lvalue: bool): Conv {
    Build(PtrConv, Pointer(Class(c, 0), 0), Given(lvalue))
  }

  /** Function `id` taking pointers to `x` and `y`, called with two `D*`. */
  function Taking(id: nat, x: ClassId, y: ClassId, call: Call): Cand {
    Cand(Decl(id, id, false, false, false, false, false), [ToBase(x, call.lvalue), ToBase(y, call.lvalue')], None, 1, None)
  }

  lemma {:induction false} Derivations(x: ClassId, y: ClassId)
    requires x in {A, A2, B} && y in {A, A2, B}
    ensures Derives(Diamondless(), x, y) <==> x == B && y == A
  {
  }

  /** Two pointer conversions of one expression, neither of them part of the other. */
  lemma {:induction false} DerivationDecides(w: World, a: Conv, b: Conv)
    requires Ordered(w) && a.Step? && b.Step? && a.code == PtrConv == b.code && Origin(a).typ == Origin(b).typ
    requires a.flags == b.flags && !a.flags.thisObject && !a.flags.ellipsis && !a.flags.user
    requires !IsSubsequence(a, b) && !IsSubsequence(b, a)
    ensures CompareIcs(w)(a, b) == CompareDerivation(w, Origin(a).typ, a.typ, Origin(b).typ, b.typ)
  {
    assert Compare(w, a, b) == CompareReferred(w, a, None, b, None) == CompareSequences(w, a, None, b, None);
  }

  lemma {:induction false} DerivationOfPointers(w: World, from: Type, x: Type, y: Type)
    requires Ordered(w) && from.Class? && !x.Offset? && !y.Offset?
    ensures CompareDerivation(w, Pointer(from, 0), Pointer(x, 0), Pointer(from, 0), Pointer(y, 0)) == ComparePointers(w, from, x, from, y)
  {
  }

  /** Of two pointers to bases, the one to the more derived class is better. */
  lemma {:induction false} ToBaseRanked(w: World, x: ClassId, y: ClassId, lvalue: bool)
    requires Ordered(w)
    ensures CompareIcs(w)(ToBase(x, lvalue), ToBase(y, lvalue)) == Prefer(Derives(w, x, y), Derives(w, y, x))
  {
    var (t, u, from) := (Class(x, 0), Class(y, 0), Class(D, 0));
    assert ComparePointers(w, from, t, from, u) == Prefer(Derives(w, x, y), Derives(w, y, x));
    DerivationOfPointers(w, from, t, u);
    NotASubsequence(x, y, lvalue);
    NotASubsequence(y, x, lvalue);
    DerivationDecides(w, ToBase(x, lvalue), ToBase(y, lvalue));
  }

  lemma {:induction false} NotASubsequence(x: ClassId, y: ClassId, lvalue: bool)
    ensures !IsSubsequence(ToBase(x, lvalue), ToBase(y, lvalue))
    ensures Origin(ToBase(x, lvalue)).typ == Pointer(Class(D, 0), 0)
  {
    assert !OccursInside(ToBase(x, lvalue), Given(lvalue));
    assert Origin(ToBase(x, lvalue)) == Origin(Given(lvalue));
  }

  lemma {:induction false} ToBaseCompared(x: ClassId, y: ClassId, lvalue: bool)
    requires x in {A, A2, B} && y in {A, A2, B}
    ensures CompareIcs(Diamondless())(ToBase(x, lvalue), ToBase(y, lvalue)) == Prefer(x == B && y == A, x == A && y == B)
  {
    Derivations(x, y);
    Derivations(y, x);
    ToBaseRanked(Diamondless(), x, y, lvalue);
  }

  lemma {:induction false} WorstOfTaking(i: nat, x: ClassId, y: ClassId, call: Call)
    ensures WorstRank(Taking(i, x, y, call).convs, 0, 2) == STD_RANK
  {
    assert WorstRank(Taking(i, x, y, call).convs, 0, 1) == STD_RANK;
  }

  lemma {:induction false} TakingCompared(ctx: Context, call: Call, i: nat, x: ClassId, y: ClassId, j: nat, x': ClassId, y': ClassId)
    requires i != j
    ensures var p := ctx.compare(ToBase(x, call.lvalue), ToBase(x', call.lvalue));
      var q := ctx.compare(ToBase(y, call.lvalue'), ToBase(y', call.lvalue'));
      p != -1 && q != -1 ==> JoustOf(ctx)(Taking(i, x, y, call), Taking(j, x', y', call)) == if p == 1 || q == 1 then 1 else 0
  {
    var (a, b) := (Taking(i, x, y, call), Taking(j, x', y', call));
    assert OnArgument(ctx, a, b, 0) == ctx.compare(ToBase(x, call.lvalue), ToBase(x', call.lvalue));
    assert OnArgument(ctx, a, b, 1) == ctx.compare(ToBase(y, call.lvalue'), ToBase(y', call.lvalue'));
    WorstOfTaking(i, x, y, call);
    WorstOfTaking(j, x', y', call);
  }

  /** What the function is made from: two parameters, and two `D*`. */
  function TakingFrom(x: ClassId, y: ClassId, call: Call): Origins {
    var parm := (c: ClassId, rest: ParmList) => Parm(Pointer(Class(c, 0), 0), false, rest);
    Origins(Callee(parm(x, parm(y, VoidEnd)), false, None),
            [Arg(Pointer(Class(D, 0), 0), call.e), Arg(Pointer(Class(D, 0), 0), call.e')])
  }

  lemma {:induction false} DerivedFromAll(c: ClassId)
    requires c in {A, A2, B}
    ensures DerivedFrom(Diamondless(), c, D)
  {
    var w := Diamondless();
    assert NumSubobjects(w, B, A) == NumInBases(w, B, A, 1) == 1;
    assert NumInBases(w, D, c, 2) == NumInBases(w, D, c, 1) + NumSubobjects(w, A2, c);
    assert NumInBases(w, D, c, 1) == NumSubobjects(w, B, c);
  }

  /** `implicit_conversion` builds these conversions. */
  lemma {:induction false} ToBaseIsBuilt(env: Env, flags: LookupFlags, c: ClassId, e: nat)
    requires env.w == Diamondless() && c in {A, A2, B} && !env.isNullConstant(e)
    ensures ImplicitConversion(env, Pointer(Class(c, 0), 0), Source(Pointer(Class(D, 0), 0), Some(e)), flags)
      == Some(ToBase(c, env.isLvalue(e)))
  {
    var (to, src, given) := (Pointer(Class(c, 0), 0), Source(Pointer(Class(D, 0), 0), Some(e)), Given(env.isLvalue(e)));
    DerivedFromAll(c);
    assert Decay(env, src) == given;
    assert ConvertPointee(env, to, given) == ToBase(c, env.isLvalue(e));
    assert StandardConversion(env, to, src) == Some(ToBase(c, env.isLvalue(e)));
  }

  lemma {:induction false} TakingMade(env: Env, flags: LookupFlags, call: Call, id: nat, x: ClassId, y: ClassId)
    requires env.w == Diamondless() && x in {A, A2, B} && y in {A, A2, B} && Fits(env, call)
    ensures Made(env, flags, TakingFrom(x, y, call), Taking(id, x, y, call))
  {
    var (from, c) := (TakingFrom(x, y, call), Taking(id, x, y, call));
    var parms := Parms(from.f.parms);
    assert parms == [Declared(Pointer(Class(x, 0), 0), false), Declared(Pointer(Class(y, 0), 0), false)];
    ToBaseIsBuilt(env, flags, x, call.e);
    ToBaseIsBuilt(env, flags, y, call.e');
    var convert := Converting(env, flags);
    assert SequenceFor(convert, from.f, from.args, 0) == Some(ToBase(x, call.lvalue));
    assert SequenceFor(convert, from.f, from.args, 1) == Some(ToBase(y, call.lvalue'));
    assert SuppliedAt(env, flags, from, c, 0) && SuppliedAt(env, flags, from, c, 1);
    assert !NoneAt(convert, from.f, from.args, 0) && !NoneAt(convert, from.f, from.args, 1);
    assert !BadAt(convert, from.f, from.args, 0) && !BadAt(convert, from.f, from.args, 1);
  }

  lemma {:induction false} TakingContest(ctx: Context, call: Call, i: nat, x: ClassId, y: ClassId, j: nat, x': ClassId, y': ClassId)
    requires i != j
    ensures Contest(ctx, Taking(i, x, y, call), Taking(j, x', y', call))
  {
  }

  /** Derivation is not a grading: two classes can be unrelated to a third and still
      be related.  A call of one of the three functions below is ambiguous, yet in
      this order of candidates the tournament picks one. */
  lemma {:induction false} AmbiguousCallAccepted(env: Env, flags: LookupFlags, ctx: Context, call: Call)
    requires env.w == Diamondless() && ctx.compare == CompareIcs(env.w) && Fits(env, call)
    ensures var s := [Taking(1, A, B, call), Taking(2, A2, A, call), Taking(0, B, A2, call)];
      && AllMade(env, flags, [TakingFrom(A, B, call), TakingFrom(A2, A, call), TakingFrom(B, A2, call)], s)
      && T.Winner(JoustOf(ctx), s) == Some(2)
      && forall d: nat :: !T.Best(JoustOf(ctx), s, d)
  {
    var (f, g, h) := (Taking(0, B, A2, call), Taking(1, A, B, call), Taking(2, A2, A, call));
    AllTakingMade(env, flags, call);
    BrokenChain(env, flags, ctx, call);
    T.BrokenChainIsNotExact(JoustOf(ctx), f, g, h);
    NoneBest(JoustOf(ctx), f, g, h);
  }

  lemma {:induction false} AllTakingMade(env: Env, flags: LookupFlags, call: Call)
    requires env.w == Diamondless() && Fits(env, call)
    ensures AllMade(env, flags, [TakingFrom(A, B, call), TakingFrom(A2, A, call), TakingFrom(B, A2, call)],
                    [Taking(1, A, B, call), Taking(2, A2, A, call), Taking(0, B, A2, call)])
  {
    TakingMade(env, flags, call, 1, A, B);
    TakingMade(env, flags, call, 2, A2, A);
    TakingMade(env, flags, call, 0, B, A2);
  }

  lemma {:induction false} BrokenChain(env: Env, flags: LookupFlags, ctx: Context, call: Call)
    requires env.w == Diamondless() && ctx.compare == CompareIcs(env.w) && Fits(env, call)
    ensures var (joust, f, g, h) := (JoustOf(ctx), Taking(0, B, A2, call), Taking(1, A, B, call), Taking(2, A2, A, call));
      joust(f, g) == 1 && joust(g, h) == 1 && joust(f, h) == 0 && joust(g, f) == -1 && joust(h, g) == -1
  {
    ToBaseCompared(B, A, call.lvalue);
    ToBaseCompared(A2, B, call.lvalue');
    ToBaseCompared(A, A2, call.lvalue);
    ToBaseCompared(B, A, call.lvalue');
    ToBaseCompared(B, A2, call.lvalue);
    ToBaseCompared(A2, A, call.lvalue');
    TakingCompared(ctx, call, 0, B, A2, 1, A, B);
    TakingCompared(ctx, call, 1, A, B, 2, A2, A);
    TakingCompared(ctx, call, 0, B, A2, 2, A2, A);
    TakingMade(env, flags, call, 0, B, A2);
    TakingMade(env, flags, call, 1, A, B);
    TakingMade(env, flags, call, 2, A2, A);
    TakingContest(ctx, call, 0, B, A2, 1, A, B);
    TakingContest(ctx, call, 1, A, B, 2, A2, A);
    var (f, g, h) := (Taking(0, B, A2, call), Taking(1, A, B, call), Taking(2, A2, A, call));
    JoustSwaps(env, flags, ctx, TakingFrom(B, A2, call), f, TakingFrom(A, B, call), g);
    JoustSwaps(env, flags, ctx, TakingFrom(A, B, call), g, TakingFrom(A2, A, call), h);
  }

  /** In a broken chain nobody beats everybody. */
  lemma {:induction false} NoneBest(joust: T.Joust<Cand>, f: Cand, g: Cand, h: Cand)
    requires joust(f, h) != 1 && joust(g, f) != 1 && joust(h, g) != 1
    ensures forall d: nat :: !T.Best(joust, [g, h, f], d)
  {
    var s := [g, h, f];
    assert s[0] == g && s[1] == h && s[2] == f;
  }

  /** Two functions of one parameter, a pointer or an A, called with an int that can only
      be converted badly: to a pointer without a cast, or to an A in more than one way. */
  const INT := Scalar(0, 0)
  const FLOATS := Pointer(Scalar(1, 0), 0)

  function IntGiven(lvalue: bool): Conv {
    var identity := Leaf(Identity, INT, Some(INT), Flags(0, false, false, false, false));
    if lvalue then Build(RvalueConv, INT, identity) else identity
  }

  function TakingPointer(id: nat, lvalue: bool): Cand {
    Cand(Decl(id, id, false, false, false, false, false), [Bad(Build(StdConv, FLOATS, IntGiven(lvalue)))], None, -1, None)
  }

  function TakingObject(id: nat): Cand {
    Cand(Decl(id, id, false, false, false, false, false),
         [Leaf(Ambig, Class(A, 0), Some(INT), Flags(0, true, false, false, true))], None, -1, None)
  }

  function FromInt(to: Type, e: nat): Origins {
    Origins(Callee(Parm(to, false, VoidEnd), false, None), [Arg(INT, e)])
  }

  predicate IntArgument(env: Env, e: nat) {
    && Ordered(env.w) && env.kind(0).Integer? && !env.isNullConstant(e)
    && env.userConversion(Class(A, 0), Source(INT, Some(e))) == Some(Ambiguous)
  }

  lemma {:induction false} TakingPointerMade(env: Env, flags: LookupFlags, e: nat, id: nat)
    requires IntArgument(env, e)
    ensures Made(env, flags, FromInt(FLOATS, e), TakingPointer(id, env.isLvalue(e)))
  {
    var (from, c) := (FromInt(FLOATS, e), TakingPointer(id, env.isLvalue(e)));
    MadeOfOne(env, flags, from, c, FLOATS);
  }

  lemma {:induction false} TakingObjectMade(env: Env, flags: LookupFlags, e: nat, id: nat)
    requires IntArgument(env, e) && !flags.noConversion
    ensures Made(env, flags, FromInt(Class(A, 0), e), TakingObject(id))
  {
    MadeOfOne(env, flags, FromInt(Class(A, 0), e), TakingObject(id), Class(A, 0));
  }

  /** Each of the two functions is worse than the other, and the one that comes second
      is called. */
  lemma {:induction false} OrderDecides(env: Env, flags: LookupFlags, ctx: Context, e: nat)
    requires IntArgument(env, e) && !flags.noConversion && ctx.compare == CompareIcs(env.w)
    ensures var (f, g) := (TakingPointer(0, env.isLvalue(e)), TakingObject(1));
      && AllMade(env, flags, [FromInt(FLOATS, e), FromInt(Class(A, 0), e)], [f, g])
      && JoustOf(ctx)(f, g) == -1 == JoustOf(ctx)(g, f)
      && T.Winner(JoustOf(ctx), [f, g]) == Some(1) == T.Winner(JoustOf(ctx), [g, f])
  {
    var (f, g) := (TakingPointer(0, env.isLvalue(e)), TakingObject(1));
    TakingPointerMade(env, flags, e, 0);
    TakingObjectMade(env, flags, e, 1);
    EachWorse(ctx, env.w, env.isLvalue(e));
    T.SecondIsReturned(JoustOf(ctx), f, g);
    T.SecondIsReturned(JoustOf(ctx), g, f);
  }

  lemma {:induction false} EachWorse(ctx: Context, w: World, lvalue: bool)
    requires Ordered(w) && ctx.compare == CompareIcs(w)
    ensures var (f, g) := (TakingPointer(0, lvalue), TakingObject(1));
      JoustOf(ctx)(f, g) == -1 == JoustOf(ctx)(g, f)
  {
    var (f, g) := (TakingPointer(0, lvalue), TakingObject(1));
    OneJoust(ctx, f, g);
    OneJoust(ctx, g, f);
  }

  /** A pointer to a const D, and what it is converted to without the const. */
  function ConstGiven(lvalue: bool): Conv {
    var (pointer, flags) := (Pointer(Class(D, 1), 0), Flags(0, false, false, false, false));
    var identity := Leaf(Identity, pointer, Some(pointer), flags);
    if lvalue then Build(RvalueConv, pointer, identity) else identity
  }

  function Unconst(to: Type, c: Conv): Conv {
    Bad(Build(PtrConv, Pointer(to, 0), c))
  }

  function ToUnconst(to: Type, lvalue: bool): Conv {
    var given := ConstGiven(lvalue);
    Unconst(to, if to == Class(D, 0) then given
                else Build(PtrConv, Pointer(if to.Class? then Class(to.cls, 1) else Void(1), 0), given))
  }

  function TakingUnconst(id: nat, to: Type, lvalue: bool): Cand {
    Cand(Decl(id, id, false, false, false, false, false), [ToUnconst(to, lvalue)], None, -1, None)
  }

  function FromConst(to: Type, e: nat): Origins {
    Origins(Callee(Parm(Pointer(to, 0), false, VoidEnd), false, None), [Arg(Pointer(Class(D, 1), 0), e)])
  }

  /** Types that differ in a const only are similar; the argument is not a null pointer
      constant, nor a string. */
  predicate ConstArgument(env: Env, e: nat) {
    && env.w == Diamondless() && !env.isNullConstant(e)
    && Loses(env, e, Class(D, 0), Class(D, 1)) && Loses(env, e, Class(B, 0), Class(B, 1)) && Loses(env, e, Void(0), Void(1))
  }

  predicate Loses(env: Env, e: nat, to: Type, from: Type) {
    env.similar(to, from) && !env.isStringFor(e, Pointer(to, 0))
  }

  lemma {:induction false} ToUnconstIsBuilt(env: Env, flags: LookupFlags, to: Type, e: nat)
    requires ConstArgument(env, e) && to in {Class(D, 0), Class(B, 0), Void(0)}
    ensures ImplicitConversion(env, Pointer(to, 0), Source(Pointer(Class(D, 1), 0), Some(e)), flags)
      == Some(ToUnconst(to, env.isLvalue(e)))
  {
    var (to', src, given) := (Pointer(to, 0), Source(Pointer(Class(D, 1), 0), Some(e)), ConstGiven(env.isLvalue(e)));
    DerivedFromAll(B);
    assert Decay(env, src) == given;
    assert StandardConversion(env, to', src) == ConvertPointer(env, to', given, src);
  }

  lemma {:induction false} UnconstNotASubsequence(x: Type, y: Type, lvalue: bool)
    requires x in {Class(D, 0), Class(B, 0), Void(0)} && y in {Class(D, 0), Class(B, 0), Void(0)}
    ensures !IsSubsequence(ToUnconst(x, lvalue), ToUnconst(y, lvalue))
    ensures Origin(ToUnconst(x, lvalue)).typ == Pointer(Class(D, 1), 0)
  {
    var (a, given) := (ToUnconst(x, lvalue), ConstGiven(lvalue));
    assert StripLvalue(a) == a && !OccursInside(a, given) && !SameConversion(a, given);
    var b := ToUnconst(y, lvalue);
    assert OccursInside(a, b) == (SameConversion(a, b.from) || OccursInside(a, b.from));
    assert Origin(a) == Origin(a.from) == Origin(given);
  }

  lemma {:induction false} UnconstRanked(w: World, x: Type, y: Type, lvalue: bool)
    requires Ordered(w) && x in {Class(D, 0), Class(B, 0), Void(0)} && y in {Class(D, 0), Class(B, 0), Void(0)}
    ensures CompareIcs(w)(ToUnconst(x, lvalue), ToUnconst(y, lvalue)) == ComparePointers(w, Class(D, 1), x, Class(D, 1), y)
  {
    var (a, b, from) := (ToUnconst(x, lvalue), ToUnconst(y, lvalue), Class(D, 1));
    UnconstNotASubsequence(x, y, lvalue);
    UnconstNotASubsequence(y, x, lvalue);
    DerivationDecides(w, a, b);
    DerivationOfPointers(w, from, x, y);
  }

  lemma {:induction false} DIsProper(w: World)
    requires w == Diamondless()
    ensures Derives(w, D, B) && !Derives(w, B, D)
  {
    DerivedFromAll(B);
    NoSubobjectAbove(w, B, D);
  }

  lemma {:induction false} UnconstCompared(w: World, lvalue: bool)
    requires w == Diamondless()
    ensures var (f, g, h) := (ToUnconst(Class(D, 0), lvalue), ToUnconst(Class(B, 0), lvalue), ToUnconst(Void(0), lvalue));
      && CompareIcs(w)(f, g) == 1 && CompareIcs(w)(g, h) == 1 && CompareIcs(w)(f, h) == 0 == CompareIcs(w)(h, f)
      && CompareIcs(w)(g, f) == -1 && CompareIcs(w)(h, g) == -1
  {
    DIsProper(w);
    var (d, b, v) := (Class(D, 0), Class(B, 0), Void(0));
    UnconstRanked(w, d, b, lvalue);
    UnconstRanked(w, b, d, lvalue);
    UnconstRanked(w, b, v, lvalue);
    UnconstRanked(w, v, b, lvalue);
    UnconstRanked(w, d, v, lvalue);
    UnconstRanked(w, v, d, lvalue);
  }

  lemma {:induction false} WorstOfOne(convs: seq<Conv>)
    requires |convs| == 1
    ensures WorstRank(convs, 0, 1) == Rank(convs[0].flags)
  {
    assert WorstRank(convs, 0, 0) == 0;
  }

  /** Two functions of one parameter, converted with the same rank. */
  lemma {:induction false} OneJoust(ctx: Context, a: Cand, b: Cand)
    requires |a.convs| == 1 == |b.convs| && a.secondConv.None? && b.secondConv.None? && a.viable == b.viable
    requires a.template.None? && b.template.None? && a.fn.Decl? && b.fn.Decl? && a.fn.entity != b.fn.entity
    requires Rank(a.convs[0].flags) == Rank(b.convs[0].flags)
    ensures JoustOf(ctx)(a, b) == ctx.compare(a.convs[0], b.convs[0])
  {
    assert OnArgument(ctx, a, b, 0) == ctx.compare(a.convs[0], b.convs[0]);
    WorstOfOne(a.convs);
    WorstOfOne(b.convs);
  }

  lemma {:induction false} UnconstJousts(ctx: Context, w: World, lvalue: bool)
    requires w == Diamondless() && ctx.compare == CompareIcs(w)
    ensures var (joust, f, g, h) := (JoustOf(ctx), TakingUnconst(0, Class(D, 0), lvalue), TakingUnconst(1, Class(B, 0), lvalue),
                                     TakingUnconst(2, Void(0), lvalue));
      joust(f, g) == 1 && joust(g, h) == 1 && joust(f, h) == 0 && joust(g, f) == -1 && joust(h, g) == -1
  {
    var (f, g, h) := (TakingUnconst(0, Class(D, 0), lvalue), TakingUnconst(1, Class(B, 0), lvalue), TakingUnconst(2, Void(0), lvalue));
    UnconstCompared(w, lvalue);
    OneJoust(ctx, f, g);
    OneJoust(ctx, g, h);
    OneJoust(ctx, f, h);
    OneJoust(ctx, g, f);
    OneJoust(ctx, h, g);
  }

  /** With one argument a chain is broken, too: losing a const, to D* is better than to
      B*, and to B* than to void*, but to D* is not better than to void*. */
  lemma {:induction false} BadCallAccepted(env: Env, flags: LookupFlags, ctx: Context, e: nat)
    requires ConstArgument(env, e) && ctx.compare == CompareIcs(env.w)
    ensures var (lvalue, d, b, v) := (env.isLvalue(e), Class(D, 0), Class(B, 0), Void(0));
      var s := [TakingUnconst(1, b, lvalue), TakingUnconst(2, v, lvalue), TakingUnconst(0, d, lvalue)];
      && AllMade(env, flags, [FromConst(b, e), FromConst(v, e), FromConst(d, e)], s)
      && T.Winner(JoustOf(ctx), s) == Some(2)
      && forall c: nat :: !T.Best(JoustOf(ctx), s, c)
  {
    var (lvalue, d, b, v) := (env.isLvalue(e), Class(D, 0), Class(B, 0), Void(0));
    var (f, g, h) := (TakingUnconst(0, d, lvalue), TakingUnconst(1, b, lvalue), TakingUnconst(2, v, lvalue));
    AllUnconstMade(env, flags, e);
    UnconstJousts(ctx, env.w, lvalue);
    T.BrokenChainIsNotExact(JoustOf(ctx), f, g, h);
    NoneBest(JoustOf(ctx), f, g, h);
  }

  lemma {:induction false} UnconstMade(env: Env, flags: LookupFlags, id: nat, to: Type, e: nat)
    requires ConstArgument(env, e) && to in {Class(D, 0), Class(B, 0), Void(0)}
    ensures Made(env, flags, FromConst(to, e), TakingUnconst(id, to, env.isLvalue(e)))
  {
    ToUnconstIsBuilt(env, flags, to, e);
    MadeOfOne(env, flags, FromConst(to, e), TakingUnconst(id, to, env.isLvalue(e)), Pointer(to, 0));
  }

  lemma {:induction false} AllUnconstMade(env: Env, flags: LookupFlags, e: nat)
    requires ConstArgument(env, e)
    ensures var (lvalue, d, b, v) := (env.isLvalue(e), Class(D, 0), Class(B, 0), Void(0));
      AllMade(env, flags, [FromConst(b, e), FromConst(v, e), FromConst(d, e)],
              [TakingUnconst(1, b, lvalue), TakingUnconst(2, v, lvalue), TakingUnconst(0, d, lvalue)])
  {
    UnconstMade(env, flags, 1, Class(B, 0), e);
    UnconstMade(env, flags, 2, Void(0), e);
    UnconstMade(env, flags, 0, Class(D, 0), e);
  }

  /** An array of D, and what it turns into. */
  const ARRAY := Array(Class(D, 0))

  function ArrayToBase(c: ClassId): Conv {
    var identity := Leaf(Identity, ARRAY, Some(ARRAY), Flags(0, false, false, false, false));
    Build(PtrConv, Pointer(Class(c, 0), 0), Build(LvalueConv, Pointer(Class(D, 0), 0), identity))
  }

  function TakingArray(id: nat, c: ClassId): Cand {
    Cand(Decl(id, id, false, false, false, false, false), [ArrayToBase(c)], None, 1, None)
  }

  function FromArray(c: ClassId, e: nat): Origins {
    Origins(Callee(Parm(Pointer(Class(c, 0), 0), false, VoidEnd), false, None), [Arg(ARRAY, e)])
  }

  lemma {:induction false} TakingArrayMade(env: Env, flags: LookupFlags, id: nat, c: ClassId, e: nat)
    requires env.w == Diamondless() && !env.isNullConstant(e) && c in {A, B}
    ensures Made(env, flags, FromArray(c, e), TakingArray(id, c))
  {
    var (to, src) := (Pointer(Class(c, 0), 0), Source(ARRAY, Some(e)));
    DerivedFromAll(c);
    assert ConvertPointee(env, to, Decay(env, src)) == ArrayToBase(c);
    assert StandardConversion(env, to, src) == Some(ArrayToBase(c));
    MadeOfOne(env, flags, FromArray(c, e), TakingArray(id, c), to);
  }

  lemma {:induction false} ArraysTie(w: World, x: ClassId, y: ClassId)
    requires Ordered(w)
    ensures CompareIcs(w)(ArrayToBase(x), ArrayToBase(y)) == 0
  {
    var (a, b) := (ArrayToBase(x), ArrayToBase(y));
    ArrayNotASubsequence(x, y);
    ArrayNotASubsequence(y, x);
    DerivationDecides(w, a, b);
  }

  lemma {:induction false} ArrayNotASubsequence(x: ClassId, y: ClassId)
    ensures !IsSubsequence(ArrayToBase(x), ArrayToBase(y)) && Origin(ArrayToBase(x)).typ == ARRAY
  {
    var (a, b) := (ArrayToBase(x), ArrayToBase(y));
    assert !OccursInside(a, b.from);
    assert Origin(a) == Origin(a.from) == Origin(a.from.from);
  }

  /** An array of D is not converted better to B* than to A*, though a pointer to D is. */
  lemma {:induction false} ArrayIsAmbiguous(env: Env, flags: LookupFlags, ctx: Context, e: nat)
    requires env.w == Diamondless() && !env.isNullConstant(e) && ctx.compare == CompareIcs(env.w)
    ensures var (f, g) := (TakingArray(0, B), TakingArray(1, A));
      && AllMade(env, flags, [FromArray(B, e), FromArray(A, e)], [f, g])
      && T.Winner(JoustOf(ctx), [f, g]) == None == T.Winner(JoustOf(ctx), [g, f])
      && ctx.compare(ToBase(B, env.isLvalue(e)), ToBase(A, env.isLvalue(e))) == 1
  {
    var (f, g) := (TakingArray(0, B), TakingArray(1, A));
    TakingArrayMade(env, flags, 0, B, e);
    TakingArrayMade(env, flags, 1, A, e);
    ArraysTie(env.w, B, A);
    ArraysTie(env.w, A, B);
    OneJoust(ctx, f, g);
    OneJoust(ctx, g, f);
    TieHasNoWinner(JoustOf(ctx), f, g);
    TieHasNoWinner(JoustOf(ctx), g, f);
    ToBaseCompared(B, A, env.isLvalue(e));
  }

  lemma {:induction false} TieHasNoWinner(joust: T.Joust<Cand>, f: Cand, g: Cand)
    requires joust(f, g) == 0
    ensures T.Winner(joust, [f, g]) == None
  {
    assert [f, g][0] == f && [f, g][1] == g;
    assert T.Walk(joust, [f, g], 0, 1, false) == None;
  }
}
