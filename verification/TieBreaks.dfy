/** What decides between two functions whose arguments do not (section 13.3.3 of
    ISO/IEC 14882:1998), and the extension for those that the standard calls ambiguous. */
module TieBreaks {
  import opened Conversions
  import opened Joust
  import opened Preference

  /** Two different functions, of which no argument prefers one. */
  predicate Even(ctx: Context, a: Cand, b: Cand) {
    && Jousting(a, b) && a.viable == b.viable && a.fn != b.fn
    && forall i :: 0 <= i < Len(a, b) ==> OnArgument(ctx, a, b, i) == 0
  }

  /** One argument prefers the first, another one the second. */
  predicate Torn(ctx: Context, a: Cand, b: Cand) {
    && Jousting(a, b) && a.viable == b.viable && a.fn != b.fn
    && (exists i :: 0 <= i < Len(a, b) && OnArgument(ctx, a, b, i) == 1)
    && (exists i :: 0 <= i < Len(a, b) && OnArgument(ctx, a, b, i) == -1)
  }

  /** A function that is not from a template is better than one that is. */
  lemma {:induction false} TemplateLoses(ctx: Context, a: Cand, b: Cand)
    requires a.template.None? && b.template.Some?
    ensures Even(ctx, a, b) ==> Outcome(ctx, a, b) == 1
    ensures Even(ctx, b, a) ==> Outcome(ctx, b, a) == -1
  {
  }

  /** How many arguments count when templates are compared: the object that a member
      function is called for does not, unless the function is a constructor. */
  function ArgumentsThatCount(c: Cand): int {
    match c.fn
    case Decl(_, _, _, isConstructor, isNonstatic, _, _) =>
      if isNonstatic && !isConstructor then |c.convs| - 1
      else if isConstructor && !isNonstatic then |c.convs| + 1
      else |c.convs|
    case _ => |c.convs|
  }

  /** Of two templates, the more specialized one is better. */
  lemma {:induction false} MoreSpecializedWins(ctx: Context, a: Cand, b: Cand)
    requires Even(ctx, a, b) && a.template.Some? && b.template.Some?
    requires ctx.moreSpecialized(a.template.value, b.template.value, ArgumentsThatCount(a)) != 0
    ensures Outcome(ctx, a, b) == ctx.moreSpecialized(a.template.value, b.template.value, ArgumentsThatCount(a))
  {
  }

  /** Templates do not decide. */
  predicate TemplatesEven(ctx: Context, a: Cand, b: Cand) {
    || (a.template.None? && b.template.None?)
    || (a.template.Some? && b.template.Some? && ctx.moreSpecialized(a.template.value, b.template.value, ArgumentsThatCount(a)) == 0)
  }

  /** Then, of two conversion functions, the one whose result converts better. */
  lemma {:induction false} SecondConversionDecides(ctx: Context, a: Cand, b: Cand)
    requires Even(ctx, a, b) && TemplatesEven(ctx, a, b) && a.secondConv.Some?
    requires ctx.compare(a.secondConv.value, b.secondConv.value) != 0
    ensures Outcome(ctx, a, b) == ctx.compare(a.secondConv.value, b.secondConv.value)
  {
  }

  predicate SecondEven(ctx: Context, a: Cand, b: Cand)
    requires Jousting(a, b)
  {
    a.secondConv.Some? ==> ctx.compare(a.secondConv.value, b.secondConv.value) == 0
  }

  predicate SameTypes(a: Cand, b: Cand) {
    |a.convs| == |b.convs| && forall i :: 0 <= i < |a.convs| ==> a.convs[i].typ == b.convs[i].typ
  }

  /** Then a function that somebody wrote is better than a built-in operator of the same
      parameters. */
  lemma {:induction false} BuiltinLoses(ctx: Context, a: Cand, b: Cand)
    requires !a.fn.Builtin? && b.fn.Builtin? && SameTypes(a, b) && Jousting(a, b) && TemplatesEven(ctx, a, b) && TemplatesEven(ctx, b, a)
    ensures Even(ctx, a, b) && SecondEven(ctx, a, b) ==> Outcome(ctx, a, b) == 1
    ensures Even(ctx, b, a) && SecondEven(ctx, b, a) ==> Outcome(ctx, b, a) == -1
  {
  }

  /** Two declarations of one function are as good as each other: the first is taken. */
  lemma {:induction false} RedeclarationsAreOne(ctx: Context, a: Cand, b: Cand)
    requires Even(ctx, a, b) && TemplatesEven(ctx, a, b) && SecondEven(ctx, a, b) && a.fn.Decl? && b.fn.Decl?
    requires a.fn.entity == b.fn.entity && (a.fn.isLocal || b.fn.isLocal || a.fn.isExternC)
    ensures Outcome(ctx, a, b) == 1
  {
  }

  lemma {:induction false} DuplicatesAreOne(ctx: Context, a: Cand, b: Cand)
    requires Jousting(a, b) && a.viable == b.viable && a.fn == b.fn && !a.fn.Builtin?
    ensures Outcome(ctx, a, b) == 1
  {
  }

  /** The kind of some conversion of `b` is worse than those of all conversions of `a`. */
  predicate WorstIsWorse(a: Cand, b: Cand)
    requires SameCall(a, b)
  {
    exists j :: Skip(b, a) <= j < |b.convs| && WorseThanAll(a, b, b.convs[j])
  }

  predicate WorseThanAll(a: Cand, b: Cand, d: Conv) {
    forall i :: Skip(a, b) <= i < |a.convs| ==> Before(StandingOf(a.convs[i]), StandingOf(d))
  }

  predicate AllFlagged(c: Cand) {
    forall i :: 0 <= i < |c.convs| ==> WellFlagged(c.convs[i])
  }

  lemma {:induction false} WorstAtLeast(convs: seq<Conv>, skip: nat, n: nat, i: nat)
    requires skip <= i < n <= |convs|
    ensures WorstRank(convs, skip, n) >= Rank(convs[i].flags)
    decreases n
  {
    if i < n - 1 {
      WorstAtLeast(convs, skip, n - 1, i);
    }
  }

  lemma {:induction false} WorstIsSome(convs: seq<Conv>, skip: nat, n: nat) returns (i: nat)
    requires skip < n <= |convs|
    ensures skip <= i < n && WorstRank(convs, skip, n) == Rank(convs[i].flags)
    decreases n
  {
    i := n - 1;
    if Rank(convs[i].flags) < WorstRank(convs, skip, n - 1) {
      i := WorstIsSome(convs, skip, n - 1);
    }
  }

  lemma {:induction false} WorstDecides(ctx: Context, a: Cand, b: Cand)
    requires SameCall(a, b) && AllFlagged(a) && AllFlagged(b) && WorstIsWorse(a, b)
    ensures CompareWorst(ctx, a, b) == if ctx.pedantic then 0 else 1
    ensures CompareWorst(ctx, b, a) == if ctx.pedantic then 0 else -1
  {
    var j :| Skip(b, a) <= j < |b.convs| && WorseThanAll(a, b, b.convs[j]);
    var i := WorstIsSome(a.convs, Skip(a, b), |a.convs|);
    WorstAtLeast(b.convs, Skip(b, a), |b.convs|, j);
    KindIsRanked(a.convs[i], b.convs[j]);
  }

  /** Two functions that different arguments prefer are ambiguous; as an extension, the one
      whose worst conversion is of a better kind is taken. */
  lemma {:induction false} ExtensionDecides(ctx: Context, a: Cand, b: Cand)
    requires SameCall(a, b) && AllFlagged(a) && AllFlagged(b) && WorstIsWorse(a, b)
    ensures Torn(ctx, a, b) ==> Outcome(ctx, a, b) == if ctx.pedantic then 0 else 1
    ensures Torn(ctx, b, a) ==> Outcome(ctx, b, a) == if ctx.pedantic then 0 else -1
  {
    WorstDecides(ctx, a, b);
  }
}
