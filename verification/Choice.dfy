/** When the tournament of jousts finds the best function, and when it does not. */
module Choice {
  import opened Hierarchy
  import opened Conversions
  import opened Joust
  import opened Candidates
  import opened CallArgs
  import opened Building
  import T = Tourney

  /** `joust` as the tournament calls it; candidates that are not for one call abort. */
  function JoustOf(ctx: Context): T.Joust<Cand> {
    (a: Cand, b: Cand) => if Jousting(a, b) then Outcome(ctx, a, b) else 0
  }

  /** The candidates that are worth considering. */
  predicate Viable(ctx: Context, c: Cand) {
    if ctx.pedantic then c.viable == 1 else c.viable != 0
  }

  /** `any_viable`, then `splice_viable`, then `tourney`, as for a call of an
      overloaded function. */
  method ChooseFunction(ctx: Context, candidates: Candidate?<Cand>, ghost nodes: seq<Candidate<Cand>>)
    returns (cand: Candidate?<Cand>)
    requires Linked(nodes, candidates)
    modifies nodes
    ensures var kept := Kept(nodes, (c: Cand) => Viable(ctx, c));
      && cand == (if kept == [] then null
                  else match T.Winner(JoustOf(ctx), Infos(kept)) case None => null case Some(c) => kept[c])
      && (kept == [] ==> forall i :: 0 <= i < |nodes| ==> nodes[i].next == old(nodes[i].next))
  {
    var keep := (c: Cand) => Viable(ctx, c);
    var any := AnyViable(candidates, keep, nodes);
    if !any {
      return null;
    }
    var head := SpliceViable(candidates, keep, nodes);
    ghost var jousts;
    cand, jousts := T.Tourney(head, JoustOf(ctx), Kept(nodes, keep));
  }

  /** `more_specialized` is a strict partial order on templates. */
  ghost predicate PartialOrder(more: (nat, nat, int) -> Verdict) {
    forall t, u, v, n {:trigger more(t, u, n), more(u, v, n)} ::
      && more(t, u, n) == -more(u, t, n)
      && (more(t, u, n) == 1 && more(u, v, n) == 1 ==> more(t, v, n) == 1)
  }

  /** Two candidates for one call: not the same function, as many conversions and no
      second ones; of templates, as many real arguments. */
  predicate Rivals(x: Cand, y: Cand) {
    && |x.convs| == |y.convs| && x.secondConv.None? && y.secondConv.None?
    && Distinguishable(x, y) && (x.fn.Builtin? ==> x.template.None?) && (y.fn.Builtin? ==> y.template.None?)
    && (x.template.Some? && y.template.Some? ==> RealArgs(x) == RealArgs(y))
  }

  /** On one argument the conversions are graded: being no worse carries over, and a
      conversion that is no worse has no higher rank. */
  ghost predicate GradedOn(compare: (Conv, Conv) -> Verdict, c: Conv, d: Conv, e: Conv) {
    && compare(c, d) == -compare(d, c)
    && (compare(c, d) >= 0 ==> Rank(c.flags) <= Rank(d.flags))
    && (compare(c, d) >= 0 && compare(d, e) >= 0 ==> compare(c, e) >= 0)
  }

  ghost predicate Graded(ctx: Context, x: Cand, y: Cand, z: Cand)
    requires |x.convs| == |y.convs| == |z.convs|
  {
    forall i :: 0 <= i < |x.convs| ==> GradedOn(ctx.compare, x.convs[i], y.convs[i], z.convs[i])
  }

  /** `a` is no worse on any argument. */
  predicate NoWorse(ctx: Context, a: Cand, b: Cand)
    requires |a.convs| == |b.convs|
  {
    forall i :: 0 <= i < |a.convs| ==> OnArgument(ctx, a, b, i) >= 0
  }

  lemma {:induction false} NoWorseIffNotWorse(ctx: Context, a: Cand, b: Cand)
    requires Jousting(a, b) && |a.convs| == |b.convs|
    ensures NoWorse(ctx, a, b) <==> !Worse(ctx, a, b)
  {
    if i :| 0 <= i < |a.convs| && OnArgument(ctx, a, b, i) < 0 {
      assert OnArgument(ctx, a, b, i) == -1;
    }
  }

  lemma {:induction false} WorseIffBetter(ctx: Context, a: Cand, b: Cand)
    requires Rivals(a, b) && Graded(ctx, a, b, b)
    ensures Worse(ctx, a, b) <==> Better(ctx, b, a)
  {
    forall i | 0 <= i < |a.convs|
      ensures OnArgument(ctx, a, b, i) == -OnArgument(ctx, b, a, i)
    {
      assert GradedOn(ctx.compare, a.convs[i], b.convs[i], b.convs[i]);
    }
    if i :| 0 <= i < |a.convs| && OnArgument(ctx, a, b, i) == -1 {
      assert OnArgument(ctx, b, a, i) == 1;
    }
    if i :| 0 <= i < |a.convs| && OnArgument(ctx, b, a, i) == 1 {
      assert OnArgument(ctx, a, b, i) == -1;
    }
  }

  lemma {:induction false} NoWorseTransitive(ctx: Context, a: Cand, b: Cand, c: Cand)
    requires |a.convs| == |b.convs| == |c.convs| && Graded(ctx, a, b, c)
    requires NoWorse(ctx, a, b) && NoWorse(ctx, b, c)
    ensures NoWorse(ctx, a, c)
  {
    forall i | 0 <= i < |a.convs|
      ensures OnArgument(ctx, a, c, i) >= 0
    {
      assert GradedOn(ctx.compare, a.convs[i], b.convs[i], c.convs[i]);
      assert OnArgument(ctx, a, b, i) >= 0 && OnArgument(ctx, b, c, i) >= 0;
    }
  }

  lemma {:induction false} NoWorseRanks(ctx: Context, a: Cand, b: Cand, n: nat)
    requires |a.convs| == |b.convs| && Graded(ctx, a, b, b) && NoWorse(ctx, a, b) && n <= |a.convs|
    ensures WorstRank(a.convs, 0, n) <= WorstRank(b.convs, 0, n)
    decreases n
  {
    if n > 0 {
      NoWorseRanks(ctx, a, b, n - 1);
      assert GradedOn(ctx.compare, a.convs[n - 1], b.convs[n - 1], b.convs[n - 1]);
      assert OnArgument(ctx, a, b, n - 1) >= 0;
    }
  }

  lemma {:induction false} TemplatesOrdered(ctx: Context, a: Cand, b: Cand, c: Cand)
    requires PartialOrder(ctx.moreSpecialized) && Rivals(a, b) && Rivals(b, c)
    ensures CompareTemplates(ctx, a, b) == -CompareTemplates(ctx, b, a)
    ensures CompareTemplates(ctx, a, b) == 1 && CompareTemplates(ctx, b, c) == 1 ==> CompareTemplates(ctx, a, c) == 1
  {
  }

  /** A candidate that beats another is no worse on every argument, or is saved by
      its worst rank. */
  lemma {:induction false} Grounds(ctx: Context, a: Cand, b: Cand)
    requires Rivals(a, b) && a.viable == b.viable && Graded(ctx, a, b, b) && Graded(ctx, b, a, a)
    ensures var (ra, rb) := (WorstRank(a.convs, 0, |a.convs|), WorstRank(b.convs, 0, |b.convs|));
      Outcome(ctx, a, b) == 1 <==>
        if NoWorse(ctx, a, b) then NoWorse(ctx, b, a) ==> TieBroken(ctx, a, b)
        else !NoWorse(ctx, b, a) && !ctx.pedantic && ra < rb
  {
    NoWorseIffNotWorse(ctx, a, b);
    NoWorseIffNotWorse(ctx, b, a);
    WorseIffBetter(ctx, a, b);
    WorseIffBetter(ctx, b, a);
    if NoWorse(ctx, a, b) && NoWorse(ctx, b, a) {
      NoWorseRanks(ctx, a, b, |a.convs|);
      NoWorseRanks(ctx, b, a, |a.convs|);
    }
  }

  /** How a tie on every argument is broken. */
  predicate TieBroken(ctx: Context, a: Cand, b: Cand)
    requires |a.convs| == |b.convs|
  {
    CompareTemplates(ctx, a, b) == 1
    || (CompareTemplates(ctx, a, b) == 0 && b.fn.Builtin? && SameParameters(a, b))
  }

  lemma {:induction false} TieBrokenTransitive(ctx: Context, a: Cand, b: Cand, c: Cand)
    requires Rivals(a, b) && Rivals(b, c) && Rivals(a, c) && PartialOrder(ctx.moreSpecialized)
    requires TieBroken(ctx, a, b) && TieBroken(ctx, b, c)
    ensures TieBroken(ctx, a, c)
  {
    TemplatesOrdered(ctx, a, b, c);
  }

  /** Candidates for one call, whose conversions are graded argument by argument. */
  ghost predicate Gradable(ctx: Context, s: seq<Cand>) {
    && PartialOrder(ctx.moreSpecialized)
    && (forall i, j :: 0 <= i < |s| && 0 <= j < |s| ==> |s[i].convs| == |s[j].convs|)
    && (forall i, j :: 0 <= i < |s| && 0 <= j < |s| && i != j ==> Rivals(s[i], s[j]))
    && (forall i, j, k :: 0 <= i < |s| && 0 <= j < |s| && 0 <= k < |s| ==> Graded(ctx, s[i], s[j], s[k]))
  }

  lemma {:induction false} JoustTransitive(ctx: Context, s: seq<Cand>, i: nat, j: nat, k: nat)
    requires Gradable(ctx, s) && i < |s| && j < |s| && k < |s| && i != j && j != k && i != k
    requires Outcome(ctx, s[i], s[j]) == 1 && Outcome(ctx, s[j], s[k]) == 1
    ensures Outcome(ctx, s[i], s[k]) == 1
  {
    var (a, b, c) := (s[i], s[j], s[k]);
    if a.viable == b.viable == c.viable {
      Grounds(ctx, a, b);
      Grounds(ctx, b, c);
      Grounds(ctx, a, c);
      Chain(ctx, a, b, c);
      Chain(ctx, b, c, a);
      Chain(ctx, c, a, b);
      Chain(ctx, c, b, a);
      Chain(ctx, b, a, c);
      Chain(ctx, a, c, b);
      if NoWorse(ctx, a, b) && NoWorse(ctx, b, a) && NoWorse(ctx, b, c) && NoWorse(ctx, c, b) {
        TieBrokenTransitive(ctx, a, b, c);
      }
    }
  }

  /** No worse than one that is no worse, with no higher worst rank. */
  lemma {:induction false} Chain(ctx: Context, a: Cand, b: Cand, c: Cand)
    requires |a.convs| == |b.convs| == |c.convs| && Graded(ctx, a, b, c) && Graded(ctx, a, b, b)
    ensures NoWorse(ctx, a, b) && NoWorse(ctx, b, c) ==> NoWorse(ctx, a, c)
    ensures NoWorse(ctx, a, b) ==> WorstRank(a.convs, 0, |a.convs|) <= WorstRank(b.convs, 0, |b.convs|)
  {
    if NoWorse(ctx, a, b) {
      NoWorseRanks(ctx, a, b, |a.convs|);
      if NoWorse(ctx, b, c) {
        NoWorseTransitive(ctx, a, b, c);
      }
    }
  }

  lemma {:induction false} JoustAntisymmetric(ctx: Context, s: seq<Cand>, i: nat, j: nat)
    requires Gradable(ctx, s) && i < |s| && j < |s| && i != j
    ensures Outcome(ctx, s[i], s[j]) == -Outcome(ctx, s[j], s[i])
  {
    var (a, b) := (s[i], s[j]);
    forall n | 0 <= n < Len(a, b)
      ensures EvenOn(ctx, a, b, n)
    {
      assert Graded(ctx, a, b, b);
      assert GradedOn(ctx.compare, a.convs[n], b.convs[n], b.convs[n]);
    }
    TemplatesOrdered(ctx, a, b, a);
    OutcomeAntisymmetric(ctx, a, b);
  }

  /** With graded conversions the tournament is right: it returns a function exactly
      when that function is better than every other candidate. */
  lemma {:induction false} GradedChoiceIsExact(ctx: Context, s: seq<Cand>)
    requires s != [] && Gradable(ctx, s)
    ensures T.Exact(JoustOf(ctx), s)
  {
    var joust := JoustOf(ctx);
    assert T.Antisymmetric(joust, s) by {
      forall i, j | 0 <= i < |s| && 0 <= j < |s| && i != j
        ensures -1 <= joust(s[i], s[j]) <= 1 && joust(s[i], s[j]) == -joust(s[j], s[i])
      {
        AntisymmetricAt(ctx, s, i, j);
      }
    }
    assert T.Transitive(joust, s) by {
      forall i, j, k | 0 <= i < |s| && 0 <= j < |s| && 0 <= k < |s| && i != j && j != k && i != k
        && joust(s[i], s[j]) == 1 && joust(s[j], s[k]) == 1
        ensures joust(s[i], s[k]) == 1
      {
        TransitiveAt(ctx, s, i, j, k);
      }
    }
    T.TransitiveIsExact(joust, s);
  }

  lemma {:induction false} AntisymmetricAt(ctx: Context, s: seq<Cand>, i: nat, j: nat)
    requires Gradable(ctx, s) && i < |s| && j < |s| && i != j
    ensures JoustOf(ctx)(s[i], s[j]) == -JoustOf(ctx)(s[j], s[i])
    ensures -1 <= JoustOf(ctx)(s[i], s[j]) <= 1
  {
    JoustAntisymmetric(ctx, s, i, j);
  }

  lemma {:induction false} TransitiveAt(ctx: Context, s: seq<Cand>, i: nat, j: nat, k: nat)
    requires Gradable(ctx, s) && i < |s| && j < |s| && k < |s| && i != j && j != k && i != k
    requires JoustOf(ctx)(s[i], s[j]) == 1 && JoustOf(ctx)(s[j], s[k]) == 1
    ensures JoustOf(ctx)(s[i], s[k]) == 1
  {
    JoustTransitive(ctx, s, i, j, k);
  }

  /** Conversions compared by ICS_RANK alone are graded. */
  lemma {:induction false} RanksAreGraded(ctx: Context, x: Cand, y: Cand, z: Cand)
    requires forall c, d :: ctx.compare(c, d) == Prefer(Rank(c.flags) < Rank(d.flags), Rank(d.flags) < Rank(c.flags))
    requires |x.convs| == |y.convs| == |z.convs|
    ensures Graded(ctx, x, y, z)
  {
  }

  /** `compare_ics` in a given class hierarchy. */
  function CompareIcs(w: World): (Conv, Conv) -> Verdict {
    (c: Conv, d: Conv) => if Ordered(w) && Comparable(c) && Comparable(d) then Compare(w, c, d) else 0
  }

  /** What a candidate was made from: the function and the arguments, with the object if
      it is a non-static member. */
  datatype Origins = Origins(f: Callee, args: seq<Arg>)

  /** A viable candidate as `add_function_candidate` makes it. */
  predicate Made(env: Env, flags: LookupFlags, from: Origins, c: Cand) {
    && Proper(from.f, from.args) && |c.convs| == |from.args| && c.secondConv.None?
    && c.viable == Viability(Converting(env, flags), from.f, from.args) != 0
    && forall i {:trigger SuppliedAt(env, flags, from, c, i)} :: 0 <= i < |c.convs| ==> SuppliedAt(env, flags, from, c, i)
  }

  predicate SuppliedAt(env: Env, flags: LookupFlags, from: Origins, c: Cand, i: nat)
    requires |c.convs| == |from.args| && i < |c.convs|
  {
    SequenceFor(Converting(env, flags), from.f, from.args, i) == Some(c.convs[i])
  }

  /** A function of one parameter. */
  lemma {:induction false} MadeOfOne(env: Env, flags: LookupFlags, from: Origins, c: Cand, to: Type)
    requires Ordered(env.w) && |from.args| == |c.convs| == 1 && !to.Reference? && c.secondConv.None?
    requires c.viable == if c.convs[0].flags.bad then -1 else 1
    requires from.f == Callee(Parm(to, false, VoidEnd), false, None)
    requires ImplicitConversion(env, to, Source(from.args[0].typ, Some(from.args[0].expr)), flags) == Some(c.convs[0])
    ensures Made(env, flags, from, c)
  {
    var convert := Converting(env, flags);
    assert Parms(from.f.parms) == [Declared(to, false)];
    assert SequenceFor(convert, from.f, from.args, 0) == Some(c.convs[0]);
    assert SuppliedAt(env, flags, from, c, 0);
    assert BadAt(convert, from.f, from.args, 0) == c.convs[0].flags.bad && !NoneAt(convert, from.f, from.args, 0);
  }

  lemma {:induction false} MadeIsCanonical(env: Env, flags: LookupFlags, from: Origins, c: Cand, i: nat)
    requires Ordered(env.w) && Made(env, flags, from, c) && i < |c.convs|
    ensures Canonical(c.convs[i])
  {
    assert SuppliedAt(env, flags, from, c, i);
    CandidateIsCanonical(env, flags, from.f, from.args, i);
  }

  /** Two conversions that do not upset the comparison of bad ones. */
  predicate Agree(c: Conv, d: Conv) {
    Comparable(c) && Comparable(d) ==> !BadDisagree(c, d)
  }

  predicate AgreeAt(a: Cand, b: Cand, i: nat)
    requires SameCall(a, b) && i < Len(a, b)
  {
    Agree(a.convs[i + Skip(a, b)], b.convs[i + Skip(b, a)])
  }

  predicate AgreeThroughout(a: Cand, b: Cand)
    requires SameCall(a, b)
  {
    forall i {:trigger AgreeAt(a, b, i)} :: 0 <= i < Len(a, b) ==> AgreeAt(a, b, i)
  }

  lemma {:induction false} DisagreeingIsBad(c: Conv, d: Conv)
    requires Canonical(c) && Canonical(d) && BadDisagree(c, d)
    ensures Rank(c.flags) == BAD_RANK == Rank(d.flags)
  {
  }

  /** What a comparison of two conversions, both ways, comes to. */
  predicate EvenlyOrBad(compare: (Conv, Conv) -> Verdict, c: Conv, d: Conv, agree: bool) {
    && (compare(c, d) == -compare(d, c) <==> agree)
    && (!agree ==> Rank(c.flags) == BAD_RANK == Rank(d.flags) && compare(c, d) == -1 == compare(d, c))
  }

  /** Two canonical conversions are compared evenly, or both are bad and worse. */
  lemma {:induction false} ComparedEvenlyOrBad(w: World, compare: (Conv, Conv) -> Verdict, c: Conv, d: Conv) returns (agree: bool)
    requires Ordered(w) && compare == CompareIcs(w) && Canonical(c) && Canonical(d)
    ensures agree == Agree(c, d) && EvenlyOrBad(compare, c, d, agree)
  {
    agree := Agree(c, d);
    CompareAntisymmetric(w, c, d);
    if !agree {
      DisagreeingIsBad(c, d);
    }
  }

  lemma {:induction false} MadeCompared(env: Env, flags: LookupFlags, ctx: Context, from: Origins, a: Cand, i: nat, from': Origins, b: Cand, j: nat)
    returns (agree: bool)
    requires Ordered(env.w) && ctx.compare == CompareIcs(env.w)
    requires Made(env, flags, from, a) && Made(env, flags, from', b) && i < |a.convs| && j < |b.convs|
    ensures agree == Agree(a.convs[i], b.convs[j]) && EvenlyOrBad(ctx.compare, a.convs[i], b.convs[j], agree)
  {
    MadeIsCanonical(env, flags, from, a, i);
    MadeIsCanonical(env, flags, from', b, j);
    agree := ComparedEvenlyOrBad(env.w, ctx.compare, a.convs[i], b.convs[j]);
  }

  /** On argument `i` the comparison is even exactly if the conversions agree. */
  predicate Judged(ctx: Context, a: Cand, b: Cand, i: nat)
    requires SameCall(a, b) && i < Len(a, b)
  {
    EvenOrBothBad(ctx, a, b, i) && EvenOn(ctx, a, b, i) == AgreeAt(a, b, i)
  }

  lemma {:induction false} JudgedByComparison(ctx: Context, a: Cand, b: Cand, i: nat, c: Conv, d: Conv, agree: bool)
    requires Jousting(a, b) && i < Len(a, b) && c == a.convs[i + Skip(a, b)] && d == b.convs[i + Skip(b, a)]
    requires agree == Agree(c, d) && EvenlyOrBad(ctx.compare, c, d, agree)
    ensures Judged(ctx, a, b, i)
  {
  }

  lemma {:induction false} MadeOnArgument(env: Env, flags: LookupFlags, ctx: Context, from: Origins, a: Cand, from': Origins, b: Cand, i: nat)
    requires Ordered(env.w) && ctx.compare == CompareIcs(env.w) && Jousting(a, b) && i < Len(a, b)
    requires Made(env, flags, from, a) && Made(env, flags, from', b)
    ensures Judged(ctx, a, b, i)
  {
    var (j, k) := (i + Skip(a, b), i + Skip(b, a));
    var (c, d) := (a.convs[j], b.convs[k]);
    var agree := MadeCompared(env, flags, ctx, from, a, j, from', b, k);
    JudgedByComparison(ctx, a, b, i, c, d, agree);
  }

  lemma {:induction false} MadeIsRanked(env: Env, flags: LookupFlags, from: Origins, a: Cand)
    requires Ordered(env.w) && Made(env, flags, from, a)
    ensures Ranked(a)
  {
    forall i | 0 <= i < |a.convs|
      ensures Rank(a.convs[i].flags) <= BAD_RANK
    {
      MadeIsCanonical(env, flags, from, a, i);
    }
  }

  /** Two candidates for one call that can be told apart. */
  predicate Contest(ctx: Context, a: Cand, b: Cand) {
    && Jousting(a, b) && Distinguishable(a, b)
    && CompareTemplates(ctx, a, b) == -CompareTemplates(ctx, b, a)
  }

  /** What keeps bad conversions from upsetting a joust. */
  predicate Undisturbed(ctx: Context, a: Cand, b: Cand)
    requires Jousting(a, b)
  {
    a.viable != b.viable || AgreeThroughout(a, b) || (Better(ctx, a, b) && Better(ctx, b, a))
  }

  lemma {:induction false} SwapsByJudgement(ctx: Context, a: Cand, b: Cand)
    requires Contest(ctx, a, b) && Ranked(a) && Ranked(b) && a.secondConv.None?
    requires forall i {:trigger Judged(ctx, a, b, i)} :: 0 <= i < Len(a, b) ==> Judged(ctx, a, b, i)
    ensures Outcome(ctx, a, b) == -Outcome(ctx, b, a) <==> Undisturbed(ctx, a, b)
    ensures Outcome(ctx, a, b) == 1 ==> Outcome(ctx, b, a) == -1
  {
    forall i | 0 <= i < Len(a, b)
      ensures EvenOrBothBad(ctx, a, b, i) && EvenOn(ctx, a, b, i) == AgreeAt(a, b, i)
    {
      assert Judged(ctx, a, b, i);
    }
    OutcomeSwaps(ctx, a, b);
  }

  /** A joust of candidates as they are made swaps with the candidates exactly if it is
      undisturbed; but a win is a defeat of the other in any case. */
  lemma {:induction false} JoustSwaps(env: Env, flags: LookupFlags, ctx: Context, from: Origins, a: Cand, from': Origins, b: Cand)
    requires Ordered(env.w) && ctx.compare == CompareIcs(env.w) && Contest(ctx, a, b)
    requires Made(env, flags, from, a) && Made(env, flags, from', b)
    ensures JoustOf(ctx)(a, b) == -JoustOf(ctx)(b, a) <==> Undisturbed(ctx, a, b)
    ensures JoustOf(ctx)(a, b) == 1 ==> JoustOf(ctx)(b, a) == -1
  {
    forall i | 0 <= i < Len(a, b)
      ensures Judged(ctx, a, b, i)
    {
      MadeOnArgument(env, flags, ctx, from, a, from', b, i);
    }
    MadeIsRanked(env, flags, from, a);
    MadeIsRanked(env, flags, from', b);
    SwapsByJudgement(ctx, a, b);
  }

  ghost predicate AllMade(env: Env, flags: LookupFlags, from: seq<Origins>, s: seq<Cand>) {
    |from| == |s| && forall i :: 0 <= i < |s| ==> Made(env, flags, from[i], s[i])
  }

  ghost predicate AllContest(ctx: Context, s: seq<Cand>) {
    forall i, j :: 0 <= i < |s| && 0 <= j < |s| && i != j ==> Contest(ctx, s[i], s[j])
  }

  /** With the conversions that `implicit_conversion` builds, compared as `compare_ics`
      does: a function better than all others is always chosen. */
  lemma {:induction false} BestFunctionIsChosen(env: Env, flags: LookupFlags, ctx: Context, from: seq<Origins>, s: seq<Cand>, d: nat)
    requires Ordered(env.w) && ctx.compare == CompareIcs(env.w) && AllMade(env, flags, from, s)
    requires s != [] && T.Best(JoustOf(ctx), s, d) && forall j :: 0 <= j < |s| && j != d ==> Contest(ctx, s[d], s[j])
    ensures T.Winner(JoustOf(ctx), s) == Some(d)
  {
    forall j | 0 <= j < |s| && j != d
      ensures JoustOf(ctx)(s[j], s[d]) == -1
    {
      JoustSwaps(env, flags, ctx, from[d], s[d], from[j], s[j]);
    }
    T.BestIsFound(JoustOf(ctx), s, d);
  }

  /** The jousts are antisymmetric exactly if no bad conversions upset one. */
  lemma {:induction false} ContestIsAntisymmetric(env: Env, flags: LookupFlags, ctx: Context, from: seq<Origins>, s: seq<Cand>)
    requires Ordered(env.w) && ctx.compare == CompareIcs(env.w) && AllMade(env, flags, from, s) && AllContest(ctx, s)
    ensures T.Antisymmetric(JoustOf(ctx), s) <==>
      forall i, j :: 0 <= i < |s| && 0 <= j < |s| && i != j ==> Undisturbed(ctx, s[i], s[j])
  {
    forall i, j | 0 <= i < |s| && 0 <= j < |s| && i != j
      ensures Undisturbed(ctx, s[i], s[j]) <==> JoustOf(ctx)(s[i], s[j]) == -JoustOf(ctx)(s[j], s[i])
    {
      JoustSwaps(env, flags, ctx, from[i], s[i], from[j], s[j]);
    }
  }
}
