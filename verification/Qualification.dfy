/** What the recursive comparisons of qualifiers at every level of a type mean (section 4.4
    of ISO/IEC 14882:1998). */
module Qualification {
  import opened Conversions
  import opened Building

  /** Without its qualifiers a type has none, and those are all that it has lost. */
  lemma {:induction false} UnqualifiedMeaning(t: Type, u: Type)
    ensures QualsOf(Unqualified(t)) == 0 && SameCode(Unqualified(t), t)
    ensures SameIgnoringQuals(t, u) && QualsOf(t) == QualsOf(u) <==> t == u
    decreases t
  {
    if t.Array? {
      UnqualifiedMeaning(t.elem, if u.Array? then u.elem else u);
    }
  }

  /** The qualifiers at each level, outermost first. */
  function Levels(t: Type): (s: seq<Quals>)
    ensures s != []
  {
    match t
    case Pointer(to, q) => [q] + Levels(to)
    case Offset(_, member) => Levels(member)
    case _ => [QualsOf(t)]
  }

  /** The type without any of them: similar types have the same. */
  function Shape(t: Type): Type {
    match t
    case Pointer(to, _) => Pointer(Shape(to), 0)
    case Offset(base, member) => Offset(base, Shape(member))
    case _ => Unqualified(t)
  }

  /** No qualifier is lost. */
  predicate Keeps(to: Quals, from: Quals) {
    from & !to == 0
  }

  lemma {:induction false} AtLeastKeeps(to: Type, from: Type)
    ensures AtLeastAsQualified(to, from) <==> Keeps(QualsOf(to), QualsOf(from))
    ensures AtLeastAsQualified(to, from) && AtLeastAsQualified(from, to) <==> QualsOf(to) == QualsOf(from)
  {
  }

  lemma {:induction false} PointerLevels(t: Type)
    requires t.Pointer?
    ensures Levels(t) == [t.quals] + Levels(t.to) && Shape(t) == Pointer(Shape(t.to), 0) && QualsOf(t) == t.quals
  {
  }

  /** No qualifier is lost at any level. */
  predicate NoneLost(to: seq<Quals>, from: seq<Quals>) {
    |to| == |from| && forall i {:trigger Keeps(to[i], from[i])} :: 0 <= i < |to| ==> Keeps(to[i], from[i])
  }

  lemma {:induction false} OneLevel(q: Quals, to: seq<Quals>, r: Quals, from: seq<Quals>)
    ensures NoneLost([q] + to, [r] + from) <==> Keeps(q, r) && NoneLost(to, from)
    ensures [q] + to == [r] + from <==> q == r && to == from
  {
    var (to', from') := ([q] + to, [r] + from);
    assert to'[0] == q && from'[0] == r && to'[1..] == to && from'[1..] == from;
    if NoneLost(to', from') {
      assert Keeps(to'[0], from'[0]);
      forall i | 0 <= i < |to|
        ensures Keeps(to[i], from[i])
      {
        assert Keeps(to'[i + 1], from'[i + 1]);
      }
    }
  }

  lemma {:induction false} LeafLevel(to: Type, from: Type)
    ensures NoneLost([QualsOf(to)], [QualsOf(from)]) <==> AtLeastAsQualified(to, from)
    ensures AtLeastAsQualified(to, from) && AtLeastAsQualified(from, to) <==> [QualsOf(to)] == [QualsOf(from)]
    ensures ConstOutside([QualsOf(to)], [QualsOf(from)])
  {
    AtLeastKeeps(to, from);
    var (q, r) := ([QualsOf(to)], [QualsOf(from)]);
    assert q[0] == QualsOf(to) && r[0] == QualsOf(from);
    assert NoneLost(q, r) <==> Keeps(q[0], r[0]);
  }

  /** The types are similar, no level loses a qualifier, and some level gains one. */
  predicate Gains(to: Type, from: Type, more: bool) {
    Shape(to) == Shape(from) && NoneLost(Levels(to), Levels(from)) && (more || Levels(to) != Levels(from))
  }

  lemma {:induction false} PointerGains(to: Type, from: Type, more: bool)
    requires to.Pointer? && from.Pointer?
    ensures Gains(to, from, more) <==>
      AtLeastAsQualified(to, from) && Gains(to.to, from.to, more || !(to.Func? || AtLeastAsQualified(from, to)))
  {
    PointerLevels(to);
    PointerLevels(from);
    AtLeastKeeps(to, from);
    AtLeastKeeps(from, to);
    OneLevel(to.quals, Levels(to.to), from.quals, Levels(from.to));
  }

  /** A qualification signature is a proper subset of another exactly if that is so. */
  lemma {:induction false} SignatureMeaning(to: Type, from: Type, more: bool)
    ensures ProperlyMoreQualified(to, from, more) <==> Gains(to, from, more)
    decreases from
  {
    if to.Pointer? && from.Pointer? {
      PointerGains(to, from, more);
      SignatureMeaning(to.to, from.to, more || !(to.Func? || AtLeastAsQualified(from, to)));
    } else if to.Offset? && from.Offset? && to.base == from.base {
      SignatureMeaning(to.member, from.member, more);
    } else {
      LeafLevel(to, from);
    }
  }

  predicate IsConst(q: Quals) {
    q & 1 == 1
  }

  /** Outside a level where a qualifier is added, all levels are const. */
  predicate ConstOutside(to: seq<Quals>, from: seq<Quals>) {
    |to| == |from| && forall k, i {:trigger IsConst(to[k]), from[i]} :: 0 <= k < i < |to| && to[i] != from[i] ==> IsConst(to[k])
  }

  lemma {:induction false} OneLevelConst(q: Quals, to: seq<Quals>, r: Quals, from: seq<Quals>)
    ensures ConstOutside([q] + to, [r] + from) <==> (IsConst(q) || to == from) && ConstOutside(to, from)
  {
    var (to', from') := ([q] + to, [r] + from);
    assert to'[0] == q && from'[0] == r && to'[1..] == to && from'[1..] == from;
    if ConstOutside(to', from') {
      forall k, i | 0 <= k < i < |to| && to[i] != from[i]
        ensures IsConst(to[k])
      {
        assert from'[i + 1] == from[i] && to'[i + 1] == to[i] && IsConst(to'[k + 1]);
      }
      if to != from {
        var i :| 0 <= i < |to| && to[i] != from[i];
        assert from'[i + 1] == from[i] && to'[i + 1] == to[i] && IsConst(to'[0]);
      }
    }
  }

  /** The types are similar, no level loses a qualifier, and gains one only if all levels
      outside it are const. */
  predicate GainsInside(to: Type, from: Type, allConst: bool) {
    && Shape(to) == Shape(from) && NoneLost(Levels(to), Levels(from)) && ConstOutside(Levels(to), Levels(from))
    && (allConst || Levels(to) == Levels(from))
  }

  lemma {:induction false} PointerGainsInside(to: Type, from: Type, allConst: bool)
    requires to.Pointer? && from.Pointer?
    ensures GainsInside(to, from, allConst) <==>
      && AtLeastAsQualified(to, from) && (allConst || AtLeastAsQualified(from, to))
      && GainsInside(to.to, from.to, allConst && QualsOf(to) & 1 == 1)
  {
    PointerLevels(to);
    PointerLevels(from);
    AtLeastKeeps(to, from);
    AtLeastKeeps(from, to);
    OneLevel(to.quals, Levels(to.to), from.quals, Levels(from.to));
    OneLevelConst(to.quals, Levels(to.to), from.quals, Levels(from.to));
  }

  /** That is what a qualification conversion may do. */
  lemma {:induction false} QualificationMeaning(to: Type, from: Type, allConst: bool)
    ensures QualifiesTo(to, from, allConst) <==> GainsInside(to, from, allConst)
    decreases from
  {
    if to.Pointer? && from.Pointer? {
      PointerGainsInside(to, from, allConst);
      QualificationMeaning(to.to, from.to, allConst && QualsOf(to) & 1 == 1);
    } else if to.Offset? && from.Offset? && to.base == from.base {
      QualificationMeaning(to.member, from.member, allConst);
    } else {
      LeafLevel(to, from);
    }
  }

  /** Of two references, the less qualified one is better. */
  lemma {:induction false} CompareQualsMeaning(a: Type, b: Type)
    ensures CompareQuals(a, b) == 1 <==> Keeps(QualsOf(a), QualsOf(b)) && QualsOf(a) != QualsOf(b)
    ensures CompareQuals(a, b) == -1 <==> Keeps(QualsOf(b), QualsOf(a)) && QualsOf(a) != QualsOf(b)
  {
    AtLeastKeeps(a, b);
    AtLeastKeeps(b, a);
  }
}
