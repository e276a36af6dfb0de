/** What `compare_ics` and `joust` prefer, in terms of what is in a conversion sequence
    (sections 13.3.3 and 13.3.3.2 of ISO/IEC 14882:1998). */
module Preference {
  import opened Hierarchy
  import opened Conversions
  import opened CallArgs
  import opened Building
  import opened Joust
  import opened Choice
  import T = Tourney

  /** The kinds of sequences, best first. */
  datatype Standing = ExactMatch | Promotion | Conversion | ToBoolean | UserDefined | Ellipsis | IllFormed

  /** The kind, by what is in the sequence. */
  function StandingOf(c: Conv): Standing {
    if c.flags.bad then IllFormed
    else if c.flags.ellipsis then Ellipsis
    else if !Origin(c).kind.Identity? then UserDefined
    else if c.flags.std == PBOOL_RANK then ToBoolean
    else if c.flags.std == STD_RANK then Conversion
    else if c.flags.std == PROMO_RANK then Promotion
    else ExactMatch
  }

  /** A kind is better than all that come after it. */
  predicate Before(s: Standing, t: Standing) {
    match s
    case ExactMatch => !t.ExactMatch?
    case Promotion => !t.ExactMatch? && !t.Promotion?
    case Conversion => !t.ExactMatch? && !t.Promotion? && !t.Conversion?
    case ToBoolean => t.UserDefined? || t.Ellipsis? || t.IllFormed?
    case UserDefined => t.Ellipsis? || t.IllFormed?
    case Ellipsis => t.IllFormed?
    case IllFormed => false
  }

  /** The sequence for an implicit object is taken for a binding to the object. */
  function Shown(c: Conv): Conv
    requires Comparable(c)
  {
    ImplicitObject(c)
  }

  lemma {:induction false} BindingOrigin(ref: Type, o: Conv)
    requires ref.Reference? && o.Leaf?
    ensures Origin(DirectBinding(ref, o)) == o
  {
    assert Origin(Build(BaseConv, ref.to, o)) == o;
  }

  lemma {:induction false} ShownIsCanonical(c: Conv)
    requires Canonical(c)
    ensures Comparable(Shown(c)) && !Shown(c).flags.thisObject && WellFlagged(Shown(c))
    ensures SameRanks(Referred(Shown(c)).flags, Shown(c).flags)
    ensures !c.flags.thisObject ==> Shown(c) == c
  {
    if c.flags.thisObject {
      BindingOrigin(Reference(c.typ.to), Leaf(Identity, StripThis(c).typ.to, None, Flags(0, false, false, false, false)));
    }
  }

  predicate SameRanks(f: Flags, g: Flags) {
    f.std == g.std && f.user == g.user && f.ellipsis == g.ellipsis && f.bad == g.bad
  }

  lemma {:induction false} KindIsRanked(c: Conv, d: Conv)
    requires WellFlagged(c) && WellFlagged(d) && Before(StandingOf(c), StandingOf(d))
    ensures Rank(c.flags) < Rank(d.flags)
  {
  }

  lemma {:induction false} RanksDecide(w: World, x: Conv, t: Option<Type>, y: Conv, u: Option<Type>)
    requires Ordered(w) && Rank(x.flags) < Rank(y.flags)
    ensures CompareReferred(w, x, t, y, u) == 1 && CompareReferred(w, y, u, x, t) == -1
  {
  }

  /** A sequence of a better kind is better, whatever else is in the two. */
  lemma {:induction false} KindDecides(w: World, c: Conv, d: Conv)
    requires Ordered(w) && Canonical(c) && Canonical(d) && Before(StandingOf(Shown(c)), StandingOf(Shown(d)))
    ensures Compare(w, c, d) == 1 && Compare(w, d, c) == -1
  {
    ShownIsCanonical(c);
    ShownIsCanonical(d);
    KindIsRanked(Shown(c), Shown(d));
    RanksDecide(w, Referred(Shown(c)), Target(Shown(c)), Referred(Shown(d)), Target(Shown(d)));
  }

  /** A sequence is no better than itself. */
  lemma {:induction false} SameTies(w: World, c: Conv)
    requires Ordered(w) && Canonical(c)
    ensures Compare(w, c, c) == 0
  {
    CompareAntisymmetric(w, c, c);
  }

  /** Of two bad sequences, one that needs no user-defined conversion is better if its
      other conversions are no worse, and so is one with a better standard conversion, if
      it needs no more. */
  lemma {:induction false} LessBad(w: World, c: Conv, d: Conv)
    requires Ordered(w) && Canonical(c) && Canonical(d) && c.flags.bad && d.flags.bad
    requires !c.flags.thisObject && !d.flags.thisObject
    requires Origin(c).kind.Identity? || !Origin(d).kind.Identity?
    requires c.flags.std <= d.flags.std && (c.flags.std < d.flags.std || (Origin(c).kind.Identity? && !Origin(d).kind.Identity?))
    ensures Compare(w, c, d) == 1 && Compare(w, d, c) == -1
  {
    ShownIsCanonical(c);
    ShownIsCanonical(d);
  }

  /** The conversion of an argument is better ranked for `a`. */
  predicate BetterRanked(a: Cand, b: Cand, i: nat)
    requires SameCall(a, b) && i < Len(a, b)
  {
    var (c, d) := (a.convs[i + Skip(a, b)], b.convs[i + Skip(b, a)]);
    Comparable(c) && Comparable(d) && Before(StandingOf(Shown(c)), StandingOf(Shown(d)))
  }

  predicate SameConversionAt(a: Cand, b: Cand, i: nat)
    requires SameCall(a, b) && i < Len(a, b)
  {
    a.convs[i + Skip(a, b)] == b.convs[i + Skip(b, a)]
  }

  /** Some argument is better ranked for `a`, and all others are converted alike, or better
      ranked, too. */
  predicate Outranks(a: Cand, b: Cand)
    requires SameCall(a, b)
  {
    && (forall i {:trigger BetterRanked(a, b, i)} :: 0 <= i < Len(a, b) ==> BetterRanked(a, b, i) || SameConversionAt(a, b, i))
    && (exists i :: 0 <= i < Len(a, b) && BetterRanked(a, b, i))
  }

  lemma {:induction false} RankedOnArgument(env: Env, flags: LookupFlags, ctx: Context, from: Origins, a: Cand, from': Origins, b: Cand, i: nat)
    requires Ordered(env.w) && ctx.compare == CompareIcs(env.w) && SameCall(a, b) && i < Len(a, b)
    requires Made(env, flags, from, a) && Made(env, flags, from', b)
    ensures BetterRanked(a, b, i) ==> OnArgument(ctx, a, b, i) == 1
    ensures SameConversionAt(a, b, i) ==> OnArgument(ctx, a, b, i) == 0
  {
    BothCanonical(env, flags, from, a, from', b, i);
    var (c, d) := (a.convs[i + Skip(a, b)], b.convs[i + Skip(b, a)]);
    Compared(env.w, ctx.compare, c, d);
    RankedAt(ctx, a, b, i, c, d);
  }

  lemma {:induction false} BothCanonical(env: Env, flags: LookupFlags, from: Origins, a: Cand, from': Origins, b: Cand, i: nat)
    requires Ordered(env.w) && SameCall(a, b) && i < Len(a, b) && Made(env, flags, from, a) && Made(env, flags, from', b)
    ensures Canonical(a.convs[i + Skip(a, b)]) && Canonical(b.convs[i + Skip(b, a)])
  {
    MadeIsCanonical(env, flags, from, a, i + Skip(a, b));
    MadeIsCanonical(env, flags, from', b, i + Skip(b, a));
  }

  lemma {:induction false} RankedAt(ctx: Context, a: Cand, b: Cand, i: nat, c: Conv, d: Conv)
    requires SameCall(a, b) && i < Len(a, b) && c == a.convs[i + Skip(a, b)] && d == b.convs[i + Skip(b, a)]
    requires Comparable(c) && Comparable(d)
    requires (Before(StandingOf(Shown(c)), StandingOf(Shown(d))) ==> ctx.compare(c, d) == 1) && (c == d ==> ctx.compare(c, d) == 0)
    ensures BetterRanked(a, b, i) ==> OnArgument(ctx, a, b, i) == 1
    ensures SameConversionAt(a, b, i) ==> OnArgument(ctx, a, b, i) == 0
  {
  }

  lemma {:induction false} Compared(w: World, compare: (Conv, Conv) -> Verdict, c: Conv, d: Conv)
    requires Ordered(w) && compare == CompareIcs(w) && Canonical(c) && Canonical(d)
    ensures Before(StandingOf(Shown(c)), StandingOf(Shown(d))) ==> compare(c, d) == 1
    ensures c == d ==> compare(c, d) == 0
  {
    if Before(StandingOf(Shown(c)), StandingOf(Shown(d))) {
      KindDecides(w, c, d);
    }
    if c == d {
      SameTies(w, c);
    }
  }

  /** A candidate wins on arguments if one is better and none is worse. */
  lemma {:induction false} ArgumentsDecide(ctx: Context, a: Cand, b: Cand, k: nat)
    requires Jousting(a, b) && Distinguishable(a, b) && a.viable == b.viable && k < Len(a, b)
    requires OnArgument(ctx, a, b, k) == 1 && forall i :: 0 <= i < Len(a, b) ==> OnArgument(ctx, a, b, i) >= 0
    ensures Outcome(ctx, a, b) == 1
  {
  }

  lemma {:induction false} OutrankingWins(env: Env, flags: LookupFlags, ctx: Context, from: Origins, a: Cand, from': Origins, b: Cand)
    requires Ordered(env.w) && ctx.compare == CompareIcs(env.w) && Contest(ctx, a, b) && a.viable >= b.viable
    requires Made(env, flags, from, a) && Made(env, flags, from', b) && Outranks(a, b)
    ensures JoustOf(ctx)(a, b) == 1
  {
    forall i | 0 <= i < Len(a, b)
      ensures OnArgument(ctx, a, b, i) >= 0 && (BetterRanked(a, b, i) ==> OnArgument(ctx, a, b, i) == 1)
    {
      RankedOnArgument(env, flags, ctx, from, a, from', b, i);
      assert BetterRanked(a, b, i) || SameConversionAt(a, b, i);
    }
    var k :| 0 <= k < Len(a, b) && BetterRanked(a, b, k);
    if a.viable == b.viable {
      ArgumentsDecide(ctx, a, b, k);
    }
  }

  /** A function that is converted to better on some argument, and no differently on the
      others, is called, wherever it is in the list. */
  lemma {:induction false} OutrankingIsChosen(env: Env, flags: LookupFlags, ctx: Context, from: seq<Origins>, s: seq<Cand>, d: nat)
    requires Ordered(env.w) && ctx.compare == CompareIcs(env.w) && AllMade(env, flags, from, s) && d < |s|
    requires forall j :: 0 <= j < |s| && j != d ==> Contest(ctx, s[d], s[j]) && s[d].viable >= s[j].viable && Outranks(s[d], s[j])
    ensures T.Winner(JoustOf(ctx), s) == Some(d)
  {
    forall j | 0 <= j < |s| && j != d
      ensures JoustOf(ctx)(s[d], s[j]) == 1
    {
      OutrankingWins(env, flags, ctx, from[d], s[d], from[j], s[j]);
    }
    BestFunctionIsChosen(env, flags, ctx, from, s, d);
  }

  /** Some argument can only be converted badly. */
  predicate SomeBad(c: Cand) {
    exists i :: 0 <= i < |c.convs| && c.convs[i].flags.bad
  }

  lemma {:induction false} BadIsLessViable(env: Env, flags: LookupFlags, from: Origins, c: Cand)
    requires Made(env, flags, from, c)
    ensures c.viable == if SomeBad(c) then -1 else 1
  {
    var convert := Converting(env, flags);
    forall i | 0 <= i < |c.convs|
      ensures BadAt(convert, from.f, from.args, i) == c.convs[i].flags.bad
    {
      assert SuppliedAt(env, flags, from, c, i);
    }
    if SomeBad(c) {
      var i :| 0 <= i < |c.convs| && c.convs[i].flags.bad;
      assert BadAt(convert, from.f, from.args, i);
    }
  }

  /** Bad conversions are let pass, unless the compiler is pedantic. */
  lemma {:induction false} BadIsViable(env: Env, flags: LookupFlags, ctx: Context, from: Origins, c: Cand)
    requires Made(env, flags, from, c)
    ensures Viable(ctx, c) <==> !(ctx.pedantic && SomeBad(c))
    ensures !Viable(ctx, c.(viable := 0))
  {
    BadIsLessViable(env, flags, from, c);
  }

  /** A function that all arguments can be converted to properly is better than one that
      some argument can only be converted to badly, whatever else is in the two. */
  lemma {:induction false} ProperBeatsBad(env: Env, flags: LookupFlags, ctx: Context, from: Origins, a: Cand, from': Origins, b: Cand)
    requires Made(env, flags, from, a) && Made(env, flags, from', b) && Jousting(a, b) && Jousting(b, a) && !SomeBad(a) && SomeBad(b)
    ensures JoustOf(ctx)(a, b) == 1 && JoustOf(ctx)(b, a) == -1
  {
    BadIsLessViable(env, flags, from, a);
    BadIsLessViable(env, flags, from', b);
  }

  /** If all arguments can be converted properly to some function, then one like that is
      called, or none. */
  lemma {:induction false} ChosenIsProper(env: Env, flags: LookupFlags, ctx: Context, from: seq<Origins>, s: seq<Cand>, g: nat)
    requires AllMade(env, flags, from, s) && g < |s| && !SomeBad(s[g])
    requires forall i, j :: 0 <= i < |s| && 0 <= j < |s| ==> Jousting(s[i], s[j])
    ensures var r := T.Winner(JoustOf(ctx), s); r.Some? ==> !SomeBad(s[r.value])
  {
    forall i, j | 0 <= i < |s| && 0 <= j < |s| && !SomeBad(s[i]) && SomeBad(s[j])
      ensures JoustOf(ctx)(s[i], s[j]) == 1 && JoustOf(ctx)(s[j], s[i]) == -1
    {
      ProperBeatsBad(env, flags, ctx, from[i], s[i], from[j], s[j]);
    }
    T.WinnerIsAbove(JoustOf(ctx), s, (c: Cand) => !SomeBad(c), g);
  }

  /** What an expression is, as a value. */
  function ValueType(src: Source): Type {
    StripTopQuals(NonReference(src.typ))
  }

  /** From an arithmetic type: to the type itself is an exact match, to the promoted type a
      promotion, to any other arithmetic type a conversion. */
  lemma {:induction false} ArithmeticKinds(env: Env, to: Type, src: Source, flags: LookupFlags)
    requires Ordered(env.w) && IsArithmetic(env, ValueType(src)) && IsKind(env, StripTopQuals(to), {Integer, Real, Boolean})
    ensures var (r, t) := (ImplicitConversion(env, to, src, flags), StripTopQuals(to));
      && r.Some?
      && StandingOf(r.value) == (if t == ValueType(src) then ExactMatch
                                 else if !IsKind(env, t, {Boolean}) && t == env.promoted(ValueType(src)) then Promotion
                                 else Conversion)
  {
    var (t, d) := (StripTopQuals(to), Decay(env, src));
    DecayIsCanonical(env, src);
    assert d.typ == ValueType(src);
    assert StandardConversion(env, to, src) == ConvertValue(env, t, d, src);
    StandardIsCanonical(env, to, src);
  }

  /** To an enumeration, from an arithmetic type other than its own, is no proper
      conversion at all. */
  lemma {:induction false} EnumerationsAreApart(env: Env, to: Type, src: Source)
    requires Ordered(env.w) && IsArithmetic(env, ValueType(src)) && IsKind(env, StripTopQuals(to), {Enumeral})
    requires StripTopQuals(to) != ValueType(src)
    ensures var r := StandardConversion(env, to, src); r.Some? ==> r.value.flags.bad
  {
    DecayIsCanonical(env, src);
    assert Decay(env, src).typ == ValueType(src);
  }

  /** Pointers, and pointers to member functions, to bool. */
  lemma {:induction false} PointerToBoolean(env: Env, to: Type, src: Source, flags: LookupFlags)
    requires Ordered(env.w) && (Decay(env, src).typ.Pointer? || Decay(env, src).typ.MemFunc?) && IsKind(env, StripTopQuals(to), {Boolean})
    ensures var r := ImplicitConversion(env, to, src, flags); r.Some? && StandingOf(r.value) == ToBoolean
  {
    DecayIsCanonical(env, src);
    StandardIsCanonical(env, to, src);
  }

  /** Any other standard conversion is of a better kind. */
  lemma {:induction false} OnlyToBoolean(env: Env, to: Type, src: Source)
    requires Ordered(env.w) && StandardConversion(env, to, src).Some? && !StandardConversion(env, to, src).value.flags.bad
    requires !IsKind(env, StripTopQuals(NonReference(to)), {Boolean})
    ensures Before(StandingOf(StandardConversion(env, to, src).value), ToBoolean)
  {
    var (t, d) := (StripTopQuals(NonReference(to)), Decay(env, src));
    DecayIsCanonical(env, src);
    StandardIsCanonical(env, to, src);
    StandardRank(env, t, d, src);
  }

  lemma {:induction false} StandardRank(env: Env, t: Type, d: Conv, src: Source)
    requires Ordered(env.w) && d.flags.std == IDENTITY_RANK && ConvertValue(env, t, d, src).Some? && !IsKind(env, t, {Boolean})
    requires d.Step? ==> d.from.flags.std == IDENTITY_RANK
    ensures ConvertValue(env, t, d, src).value.flags.std <= STD_RANK
  {
    if t.Pointer? && d.typ.Pointer? {
      PointerRank(env, t, d, src);
    }
  }

  lemma {:induction false} PointerRank(env: Env, t: Type, d: Conv, src: Source)
    requires Ordered(env.w) && d.flags.std == IDENTITY_RANK && t.Pointer? && d.typ.Pointer?
    ensures var r := ConvertPointer(env, t, d, src); r.Some? ==> r.value.flags.std <= STD_RANK
  {
  }

  /** A function of one parameter, and a call of it with one argument. */
  function OneParm(id: nat, c: Conv): Cand {
    Cand(Decl(id, id, false, false, false, false, false), [c], None, if c.flags.bad then -1 else 1, None)
  }

  function CallWith(to: Type, typ: Type, e: nat): Origins {
    Origins(Callee(Parm(to, false, VoidEnd), false, None), [Arg(typ, e)])
  }

  lemma {:induction false} OneParmOutranks(c: Conv, d: Conv)
    requires Canonical(c) && Canonical(d) && !c.flags.thisObject && !d.flags.thisObject && Before(StandingOf(c), StandingOf(d))
    ensures Outranks(OneParm(0, c), OneParm(1, d)) && OneParm(0, c).viable >= OneParm(1, d).viable
  {
    ShownIsCanonical(c);
    ShownIsCanonical(d);
    assert BetterRanked(OneParm(0, c), OneParm(1, d), 0);
  }

  lemma {:induction false} OneParmContest(ctx: Context, c: Conv, d: Conv)
    ensures Contest(ctx, OneParm(0, c), OneParm(1, d))
  {
  }

  /** Of two functions of one parameter, the one with the better kind of conversion is
      called, whichever is declared first. */
  lemma {:induction false} BetterKindIsCalled(env: Env, flags: LookupFlags, ctx: Context, typ: Type, e: nat, t: Type, u: Type, c: Conv, d: Conv)
    requires Ordered(env.w) && ctx.compare == CompareIcs(env.w) && !t.Reference? && !u.Reference?
    requires ImplicitConversion(env, t, Source(typ, Some(e)), flags) == Some(c)
    requires ImplicitConversion(env, u, Source(typ, Some(e)), flags) == Some(d)
    requires Before(StandingOf(c), StandingOf(d))
    ensures var (f, g) := (OneParm(0, c), OneParm(1, d));
      && AllMade(env, flags, [CallWith(t, typ, e), CallWith(u, typ, e)], [f, g])
      && T.Winner(JoustOf(ctx), [f, g]) == Some(0) && T.Winner(JoustOf(ctx), [g, f]) == Some(1)
  {
    var (f, g) := (OneParm(0, c), OneParm(1, d));
    ImplicitIsCanonical(env, t, Source(typ, Some(e)), flags);
    ImplicitIsCanonical(env, u, Source(typ, Some(e)), flags);
    OneParmOutranks(c, d);
    OneParmContest(ctx, c, d);
    TwoMade(env, flags, typ, e, t, f, u, g);
    TwoMade(env, flags, typ, e, u, g, t, f);
    FirstOfTwo(env, flags, ctx, CallWith(t, typ, e), f, CallWith(u, typ, e), g);
    SecondOfTwo(env, flags, ctx, CallWith(t, typ, e), f, CallWith(u, typ, e), g);
  }

  lemma {:induction false} FirstOfTwo(env: Env, flags: LookupFlags, ctx: Context, from: Origins, f: Cand, from': Origins, g: Cand)
    requires Ordered(env.w) && ctx.compare == CompareIcs(env.w) && AllMade(env, flags, [from, from'], [f, g])
    requires Contest(ctx, f, g) && f.viable >= g.viable && Outranks(f, g)
    ensures T.Winner(JoustOf(ctx), [f, g]) == Some(0)
  {
    assert [f, g][0] == f && [f, g][1] == g;
    OutrankingIsChosen(env, flags, ctx, [from, from'], [f, g], 0);
  }

  lemma {:induction false} SecondOfTwo(env: Env, flags: LookupFlags, ctx: Context, from: Origins, f: Cand, from': Origins, g: Cand)
    requires Ordered(env.w) && ctx.compare == CompareIcs(env.w) && AllMade(env, flags, [from', from], [g, f])
    requires Contest(ctx, f, g) && f.viable >= g.viable && Outranks(f, g)
    ensures T.Winner(JoustOf(ctx), [g, f]) == Some(1)
  {
    assert [g, f][0] == g && [g, f][1] == f;
    OutrankingIsChosen(env, flags, ctx, [from', from], [g, f], 1);
  }

  lemma {:induction false} TwoMade(env: Env, flags: LookupFlags, typ: Type, e: nat, t: Type, f: Cand, u: Type, g: Cand)
    requires Ordered(env.w) && !t.Reference? && !u.Reference? && f.fn.Decl? && g.fn.Decl?
    requires exists c, i :: ImplicitConversion(env, t, Source(typ, Some(e)), flags) == Some(c) && f == OneParm(i, c)
    requires exists c, i :: ImplicitConversion(env, u, Source(typ, Some(e)), flags) == Some(c) && g == OneParm(i, c)
    ensures AllMade(env, flags, [CallWith(t, typ, e), CallWith(u, typ, e)], [f, g])
  {
    MadeOfOne(env, flags, CallWith(t, typ, e), f, t);
    MadeOfOne(env, flags, CallWith(u, typ, e), g, u);
  }

  /** From an arithmetic type: its own type before the promoted type, and that before any
      other arithmetic type. */
  predicate Preferred(env: Env, src: Source, t: Type, u: Type) {
    || (StripTopQuals(t) == ValueType(src) != StripTopQuals(u))
    || (StripTopQuals(t) == env.promoted(ValueType(src)) && StripTopQuals(u) !in {ValueType(src), env.promoted(ValueType(src))}
        && !IsKind(env, StripTopQuals(t), {Boolean}))
  }

  lemma {:induction false} PromotionIsCalled(env: Env, flags: LookupFlags, ctx: Context, typ: Type, e: nat, t: Type, u: Type)
    requires Ordered(env.w) && ctx.compare == CompareIcs(env.w) && IsArithmetic(env, ValueType(Source(typ, Some(e))))
    requires IsKind(env, StripTopQuals(t), {Integer, Real, Boolean}) && IsKind(env, StripTopQuals(u), {Integer, Real, Boolean})
    requires Preferred(env, Source(typ, Some(e)), t, u)
    ensures var (c, d) := (ImplicitConversion(env, t, Source(typ, Some(e)), flags), ImplicitConversion(env, u, Source(typ, Some(e)), flags));
      && c.Some? && d.Some? && Comparable(c.value) && Comparable(d.value) && Compare(env.w, c.value, d.value) == 1
      && T.Winner(JoustOf(ctx), [OneParm(0, c.value), OneParm(1, d.value)]) == Some(0)
      && T.Winner(JoustOf(ctx), [OneParm(1, d.value), OneParm(0, c.value)]) == Some(1)
  {
    var src := Source(typ, Some(e));
    var p := KindsOf(env, src, t, u, flags);
    BetterKindIsCalled(env, flags, ctx, typ, e, t, u, p.0, p.1);
  }

  lemma {:induction false} KindsOf(env: Env, src: Source, t: Type, u: Type, flags: LookupFlags) returns (p: (Conv, Conv))
    requires Ordered(env.w) && IsArithmetic(env, ValueType(src)) && Preferred(env, src, t, u)
    requires IsKind(env, StripTopQuals(t), {Integer, Real, Boolean}) && IsKind(env, StripTopQuals(u), {Integer, Real, Boolean})
    ensures ImplicitConversion(env, t, src, flags) == Some(p.0) && ImplicitConversion(env, u, src, flags) == Some(p.1)
    ensures Before(StandingOf(p.0), StandingOf(p.1)) && Comparable(p.0) && Comparable(p.1) && Compare(env.w, p.0, p.1) == 1
  {
    ArithmeticKinds(env, t, src, flags);
    ArithmeticKinds(env, u, src, flags);
    p := (ImplicitConversion(env, t, src, flags).value, ImplicitConversion(env, u, src, flags).value);
    ImplicitIsCanonical(env, t, src, flags);
    ImplicitIsCanonical(env, u, src, flags);
    ShownIsCanonical(p.0);
    ShownIsCanonical(p.1);
    KindDecides(env.w, p.0, p.1);
  }
}
