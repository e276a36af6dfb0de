/** Comparing two candidate functions: `joust` (section 13.3.3 of
    ISO/IEC 14882:1998). */
module Joust {
  import opened Hierarchy
  import opened Conversions

  /** What a candidate calls: a pseudo-candidate named by a type, a declared function
      (`entity` is what `decls_match` compares), or a built-in operator. */
  datatype Function =
    | Pseudo(typ: Type)
    | Decl(id: nat, entity: nat, isStatic: bool, isConstructor: bool, isNonstatic: bool,
           isLocal: bool, isExternC: bool)
    | Builtin(op: nat)

  datatype Cand = Cand(
    fn: Function,
    convs: seq<Conv>,
    secondConv: Option<Conv>,
    viable: int,
    template: Option<nat>)

  /** 1 for the first, -1 for the second, 0 for neither. */
  type Verdict = r: int | -1 <= r <= 1

  /** `compare` is `compare_ics`; `moreSpecialized` is `more_specialized`, told how
      many arguments there are. */
  datatype Context = Context(
    compare: (Conv, Conv) -> Verdict,
    pedantic: bool,
    moreSpecialized: (nat, nat, int) -> Verdict)

  predicate IsStatic(c: Cand) {
    c.fn.Decl? && c.fn.isStatic
  }

  /** Two candidates for one call: the same number of conversions, but a non-static
      member function has one more than a static one; `joust` aborts otherwise. */
  predicate SameCall(a: Cand, b: Cand) {
    || |a.convs| == |b.convs|
    || (IsStatic(a) && !IsStatic(b) && |a.convs| + 1 == |b.convs|)
    || (!IsStatic(a) && IsStatic(b) && |a.convs| == |b.convs| + 1)
  }

  predicate Jousting(a: Cand, b: Cand) {
    SameCall(a, b) && (a.secondConv.Some? <==> b.secondConv.Some?)
  }

  /** How many of the conversions of `a` to skip, against `b`. */
  function Skip(a: Cand, b: Cand): nat {
    if |a.convs| > |b.convs| then 1 else 0
  }

  /** How many arguments are compared. */
  function Len(a: Cand, b: Cand): nat
    requires SameCall(a, b)
  {
    |a.convs| - Skip(a, b)
  }

  /** How `a` fares on argument `i`. */
  function OnArgument(ctx: Context, a: Cand, b: Cand, i: nat): Verdict
    requires SameCall(a, b) && i < Len(a, b)
  {
    ctx.compare(a.convs[i + Skip(a, b)], b.convs[i + Skip(b, a)])
  }

  /** Among the first `n` arguments, some one ends in `r`. */
  predicate Seen(ctx: Context, a: Cand, b: Cand, n: nat, r: int)
    requires Jousting(a, b) && n <= Len(a, b)
  {
    exists i :: 0 <= i < n && OnArgument(ctx, a, b, i) == r
  }

  /** Some argument is better converted for `a`. */
  predicate Better(ctx: Context, a: Cand, b: Cand)
    requires Jousting(a, b)
  {
    Seen(ctx, a, b, Len(a, b), 1)
  }

  predicate Worse(ctx: Context, a: Cand, b: Cand)
    requires Jousting(a, b)
  {
    Seen(ctx, a, b, Len(a, b), -1)
  }

  /** The worst rank among the conversions from position `skip` to `n`. */
  function WorstRank(convs: seq<Conv>, skip: nat, n: nat): nat
    requires skip <= n <= |convs|
  {
    if n == skip then 0
    else
      var (r, last) := (WorstRank(convs, skip, n - 1), Rank(convs[n - 1].flags));
      if last > r then last else r
  }

  /** The extension: the candidate whose worst conversion is not as bad. */
  function CompareWorst(ctx: Context, a: Cand, b: Cand): Verdict
    requires SameCall(a, b)
  {
    var (ra, rb) := (WorstRank(a.convs, Skip(a, b), |a.convs|), WorstRank(b.convs, Skip(b, a), |b.convs|));
    if ctx.pedantic || ra == rb then 0 else Prefer(ra < rb, true)
  }

  /** `equal_functions` */
  predicate EqualFunctions(f: Function, g: Function)
    requires f.Decl? && g.Decl?
  {
    if f.isLocal || g.isLocal || f.isExternC then f.entity == g.entity else f == g
  }

  /** The number of arguments that `more_specialized` is told of. */
  function RealArgs(c: Cand): int {
    |c.convs|
    - ((if c.fn.Decl? && c.fn.isNonstatic then 1 else 0) - (if c.fn.Decl? && c.fn.isConstructor then 1 else 0))
  }

  /** Non-templates before templates, more specialized templates before others. */
  function CompareTemplates(ctx: Context, a: Cand, b: Cand): Verdict {
    if a.template.Some? && b.template.Some?
    then ctx.moreSpecialized(a.template.value, b.template.value, RealArgs(a))
    else Prefer(a.template.None? && b.template.Some?, a.template.Some? && b.template.None?)
  }

  function CompareSecond(ctx: Context, a: Cand, b: Cand): Verdict
    requires Jousting(a, b)
  {
    if a.secondConv.Some? then ctx.compare(a.secondConv.value, b.secondConv.value) else 0
  }

  /** The conversions lead to the same types, as the built-in rule tests it. */
  predicate SameParameters(a: Cand, b: Cand)
    requires SameCall(a, b)
  {
    |a.convs| <= |b.convs| && forall i :: 0 <= i < |a.convs| ==> a.convs[i].typ == b.convs[i].typ
  }

  /** The rules for candidates that no argument tells apart. */
  function BreakTie(ctx: Context, a: Cand, b: Cand): Verdict
    requires Jousting(a, b)
  {
    if CompareTemplates(ctx, a, b) != 0 then CompareTemplates(ctx, a, b)
    else if CompareSecond(ctx, a, b) != 0 then CompareSecond(ctx, a, b)
    else if (a.fn.Builtin? || b.fn.Builtin?) && SameParameters(a, b) then
      Prefer(a.fn == b.fn || !a.fn.Builtin?, true)
    else if a.fn.Decl? && b.fn.Decl? && EqualFunctions(a.fn, b.fn) then 1
    else CompareWorst(ctx, a, b)
  }

  /** `joust` */
  function Outcome(ctx: Context, a: Cand, b: Cand): Verdict
    requires Jousting(a, b)
  {
    if a.viable != b.viable then Prefer(a.viable > b.viable, true)
    else if a.fn == b.fn && !a.fn.Builtin? then 1
    else if Better(ctx, a, b) && Worse(ctx, a, b) then CompareWorst(ctx, a, b)
    else if Better(ctx, a, b) then 1
    else if Worse(ctx, a, b) then -1
    else BreakTie(ctx, a, b)
  }

  lemma {:induction false} SeenNext(ctx: Context, a: Cand, b: Cand, n: nat, r: int)
    requires Jousting(a, b) && n < Len(a, b)
    ensures Seen(ctx, a, b, n + 1, r) <==> Seen(ctx, a, b, n, r) || OnArgument(ctx, a, b, n) == r
  {
    if Seen(ctx, a, b, n + 1, r) {
      var i :| 0 <= i < n + 1 && OnArgument(ctx, a, b, i) == r;
    }
  }

  lemma {:induction false} SeenLater(ctx: Context, a: Cand, b: Cand, n: nat, r: int)
    requires Jousting(a, b) && n <= Len(a, b) && Seen(ctx, a, b, n, r)
    ensures Seen(ctx, a, b, Len(a, b), r)
  {
  }

  /** The loop over the arguments, up to the first pair of conversions that disagrees
      with an earlier one. */
  method CompareArguments(ctx: Context, a: Cand, b: Cand) returns (winner: int, conflict: bool)
    requires Jousting(a, b)
    ensures conflict <==> Better(ctx, a, b) && Worse(ctx, a, b)
    ensures !conflict ==> winner == Prefer(Better(ctx, a, b), Worse(ctx, a, b))
    ensures conflict ==> winner == 0
  {
    winner, conflict := 0, false;
    var i := 0;
    while i < Len(a, b)
      invariant 0 <= i <= Len(a, b) && -1 <= winner <= 1
      invariant winner == 1 <==> Seen(ctx, a, b, i, 1)
      invariant winner == -1 <==> Seen(ctx, a, b, i, -1)
    {
      var comp := OnArgument(ctx, a, b, i);
      SeenNext(ctx, a, b, i, 1);
      SeenNext(ctx, a, b, i, -1);
      if comp != 0 {
        if winner != 0 && comp != winner {
          SeenLater(ctx, a, b, i + 1, 1);
          SeenLater(ctx, a, b, i + 1, -1);
          return 0, true;
        }
        winner := comp;
      }
      i := i + 1;
    }
  }

  /** The loop of the built-in rule. */
  method ParametersMatch(a: Cand, b: Cand) returns (same: bool)
    requires SameCall(a, b)
    ensures same <==> SameParameters(a, b)
  {
    var i := 0;
    while i < Len(a, b) && a.convs[i].typ == b.convs[i].typ
      invariant 0 <= i <= Len(a, b)
      invariant forall j :: 0 <= j < i ==> a.convs[j].typ == b.convs[j].typ
    {
      i := i + 1;
    }
    same := i == |a.convs|;
  }

  /** The loop of the extension. */
  method WorstRanks(a: Cand, b: Cand) returns (rank1: nat, rank2: nat)
    requires SameCall(a, b)
    ensures rank1 == WorstRank(a.convs, Skip(a, b), |a.convs|)
    ensures rank2 == WorstRank(b.convs, Skip(b, a), |b.convs|)
  {
    rank1, rank2 := IDENTITY_RANK, IDENTITY_RANK;
    var i, off1, off2 := 0, Skip(a, b), Skip(b, a);
    while i < Len(a, b)
      invariant 0 <= i <= Len(a, b)
      invariant rank1 == WorstRank(a.convs, off1, i + off1)
      invariant rank2 == WorstRank(b.convs, off2, i + off2)
    {
      if Rank(a.convs[i + off1].flags) > rank1 {
        rank1 := Rank(a.convs[i + off1].flags);
      }
      if Rank(b.convs[i + off2].flags) > rank2 {
        rank2 := Rank(b.convs[i + off2].flags);
      }
      i := i + 1;
    }
  }

  /** `joust`, as it runs. */
  method Joust(ctx: Context, a: Cand, b: Cand) returns (winner: int)
    requires Jousting(a, b)
    ensures winner == Outcome(ctx, a, b)
  {
    if a.viable > b.viable {
      return 1;
    }
    if a.viable < b.viable {
      return -1;
    }
    if a.fn == b.fn && !a.fn.Builtin? {
      return 1;
    }
    var conflict;
    winner, conflict := CompareArguments(ctx, a, b);
    if winner != 0 {
      return;
    }
    if !conflict {
      winner := CompareTemplates(ctx, a, b);
      if winner != 0 {
        return;
      }
      winner := CompareSecond(ctx, a, b);
      if winner != 0 {
        return;
      }
      if a.fn.Builtin? || b.fn.Builtin? {
        var same := ParametersMatch(a, b);
        if same {
          return if a.fn == b.fn || !a.fn.Builtin? then 1 else -1;
        }
      }
      if a.fn.Decl? && b.fn.Decl? && EqualFunctions(a.fn, b.fn) {
        return 1;
      }
    }
    if !ctx.pedantic {
      var rank1, rank2 := WorstRanks(a, b);
      if rank1 < rank2 {
        return 1;
      }
      if rank1 > rank2 {
        return -1;
      }
    }
    return 0;
  }

  /** Neither candidate is "arbitrarily" preferred: different functions, and no two
      built-in ones with the same parameters. */
  predicate Distinguishable(a: Cand, b: Cand)
    requires SameCall(a, b)
  {
    if a.fn.Builtin? && b.fn.Builtin? then !SameParameters(a, b) && !SameParameters(b, a)
    else
      && a.fn != b.fn
      && (a.fn.Decl? && b.fn.Decl? ==> !EqualFunctions(a.fn, b.fn) && !EqualFunctions(b.fn, a.fn))
      && (a.fn.Builtin? || b.fn.Builtin? ==> |a.convs| == |b.convs|)
  }

  /** `compare_ics` treats the conversions of the two candidates evenly. */
  predicate EvenOn(ctx: Context, a: Cand, b: Cand, i: nat)
    requires SameCall(a, b) && i < Len(a, b)
  {
    OnArgument(ctx, a, b, i) == -OnArgument(ctx, b, a, i)
  }

  predicate EvenConversions(ctx: Context, a: Cand, b: Cand)
    requires Jousting(a, b)
  {
    && (forall i :: 0 <= i < Len(a, b) ==> EvenOn(ctx, a, b, i))
    && CompareSecond(ctx, a, b) == -CompareSecond(ctx, b, a)
  }

  lemma {:induction false} SwapArguments(ctx: Context, a: Cand, b: Cand)
    requires Jousting(a, b) && EvenConversions(ctx, a, b)
    ensures Better(ctx, a, b) ==> Worse(ctx, b, a)
    ensures Worse(ctx, a, b) ==> Better(ctx, b, a)
  {
    if Better(ctx, a, b) {
      var i :| 0 <= i < Len(a, b) && OnArgument(ctx, a, b, i) == 1;
      assert EvenOn(ctx, a, b, i);
    }
    if Worse(ctx, a, b) {
      var i :| 0 <= i < Len(a, b) && OnArgument(ctx, a, b, i) == -1;
      assert EvenOn(ctx, a, b, i);
    }
  }

  lemma {:induction false} EvenSwap(ctx: Context, a: Cand, b: Cand)
    requires Jousting(a, b) && EvenConversions(ctx, a, b)
    ensures EvenConversions(ctx, b, a)
  {
    forall i | 0 <= i < Len(b, a)
      ensures EvenOn(ctx, b, a, i)
    {
      assert EvenOn(ctx, a, b, i);
    }
  }

  /** Swapping two distinguishable candidates swaps the outcome. */
  lemma {:induction false} OutcomeAntisymmetric(ctx: Context, a: Cand, b: Cand)
    requires Jousting(a, b) && Distinguishable(a, b) && EvenConversions(ctx, a, b)
    requires CompareTemplates(ctx, a, b) == -CompareTemplates(ctx, b, a)
    ensures Outcome(ctx, a, b) == -Outcome(ctx, b, a)
  {
    EvenSwap(ctx, a, b);
    SwapArguments(ctx, a, b);
    SwapArguments(ctx, b, a);
  }

  /** On argument `i` both conversions are bad and each is worse than the other. */
  predicate BothBad(ctx: Context, a: Cand, b: Cand, i: nat)
    requires SameCall(a, b) && i < Len(a, b)
  {
    && Rank(a.convs[i + Skip(a, b)].flags) == BAD_RANK == Rank(b.convs[i + Skip(b, a)].flags)
    && OnArgument(ctx, a, b, i) == -1 == OnArgument(ctx, b, a, i)
  }

  predicate Ranked(c: Cand) {
    forall i :: 0 <= i < |c.convs| ==> Rank(c.convs[i].flags) <= BAD_RANK
  }

  lemma {:induction false} WorstIsBad(convs: seq<Conv>, skip: nat, n: nat, i: nat)
    requires skip <= i < n <= |convs| && Rank(convs[i].flags) == BAD_RANK
    requires forall j :: 0 <= j < |convs| ==> Rank(convs[j].flags) <= BAD_RANK
    ensures WorstRank(convs, skip, n) == BAD_RANK
    decreases n
  {
    WorstAtMost(convs, skip, n - 1);
    if i < n - 1 {
      WorstIsBad(convs, skip, n - 1, i);
    }
  }

  lemma {:induction false} WorstAtMost(convs: seq<Conv>, skip: nat, n: nat)
    requires skip <= n <= |convs| && forall j :: 0 <= j < |convs| ==> Rank(convs[j].flags) <= BAD_RANK
    ensures WorstRank(convs, skip, n) <= BAD_RANK
    decreases n
  {
    if n > skip {
      WorstAtMost(convs, skip, n - 1);
    }
  }

  /** With such an argument neither candidate wins: at best they tie. */
  lemma {:induction false} BothBadOutcome(ctx: Context, a: Cand, b: Cand, i: nat)
    requires Jousting(a, b) && Ranked(a) && Ranked(b) && i < Len(a, b) && BothBad(ctx, a, b, i)
    requires a.viable == b.viable && (a.fn == b.fn ==> a.fn.Builtin?)
    ensures Outcome(ctx, a, b) == if Better(ctx, a, b) then 0 else -1
  {
    WorstIsBad(a.convs, Skip(a, b), |a.convs|, i + Skip(a, b));
    WorstIsBad(b.convs, Skip(b, a), |b.convs|, i + Skip(b, a));
    assert Worse(ctx, a, b);
  }

  predicate EvenOrBothBad(ctx: Context, a: Cand, b: Cand, i: nat)
    requires SameCall(a, b) && i < Len(a, b)
  {
    EvenOn(ctx, a, b, i) || BothBad(ctx, a, b, i)
  }

  /** Swapping two distinguishable candidates swaps the outcome, except where bad
      conversions are each worse than the other and only one candidate, or neither, is
      better on some argument. */
  lemma {:induction false} OutcomeSwaps(ctx: Context, a: Cand, b: Cand)
    requires Jousting(a, b) && Distinguishable(a, b) && Ranked(a) && Ranked(b)
    requires forall i :: 0 <= i < Len(a, b) ==> EvenOrBothBad(ctx, a, b, i)
    requires CompareTemplates(ctx, a, b) == -CompareTemplates(ctx, b, a)
    requires CompareSecond(ctx, a, b) == -CompareSecond(ctx, b, a)
    ensures Outcome(ctx, a, b) == -Outcome(ctx, b, a) <==>
      || a.viable != b.viable
      || (forall i :: 0 <= i < Len(a, b) ==> EvenOn(ctx, a, b, i))
      || (Better(ctx, a, b) && Better(ctx, b, a))
    ensures Outcome(ctx, a, b) == 1 ==> Outcome(ctx, b, a) == -1
  {
    if i :| 0 <= i < Len(a, b) && !EvenOn(ctx, a, b, i) {
      assert EvenOrBothBad(ctx, a, b, i);
      if a.viable == b.viable {
        assert BothBad(ctx, b, a, i);
        BothBadOutcome(ctx, a, b, i);
        BothBadOutcome(ctx, b, a, i);
      }
    } else {
      OutcomeAntisymmetric(ctx, a, b);
    }
  }
}
