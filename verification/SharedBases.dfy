/** Class hierarchies with virtual bases: the subobjects that paths lead to, and
    `lookup_base`, which finds a base if there is only one subobject of its type. */
module SharedBases {
  import opened Hierarchy

  datatype Base = Base(cls: ClassId, isVirtual: bool)

  /** A class: its direct bases, and the signatures of the virtual functions that it
      declares. */
  datatype Class = Class(bases: seq<Base>, virtuals: seq<Sig>)

  type Classes = seq<Class>

  /** Direct bases are earlier classes, each named once. */
  predicate Definable(k: Class, n: nat) {
    && (forall i :: 0 <= i < |k.bases| ==> k.bases[i].cls < n)
    && forall i, j :: 0 <= i < j < |k.bases| ==> k.bases[i].cls != k.bases[j].cls
  }

  predicate Good(h: Classes) {
    forall c {:trigger h[c]} :: 0 <= c < |h| ==> Definable(h[c], c)
  }

  /** One step of a path; `TREE_VIA_VIRTUAL` is a property of the step. */
  function BaseOf(h: Classes, c: ClassId, i: nat): (b: Base)
    requires Good(h) && c < |h| && i < |h[c].bases|
    ensures b.cls < c
  {
    h[c].bases[i]
  }

  predicate IsPath(h: Classes, c: ClassId, p: Path)
    requires Good(h)
    decreases |p|
  {
    c < |h| && (p == [] || (p[0] < |h[c].bases| && IsPath(h, BaseOf(h, c, p[0]).cls, p[1..])))
  }

  function End(h: Classes, c: ClassId, p: Path): (t: ClassId)
    requires Good(h) && IsPath(h, c, p)
    ensures t + |p| <= c < |h|
    decreases |p|
  {
    if p == [] then c else End(h, BaseOf(h, c, p[0]).cls, p[1..])
  }

  /** A base subobject: the last virtual base on the way, if any, of which there is
      only one in the whole object, and the steps from there. */
  datatype Sub = Sub(root: Option<ClassId>, steps: Path)

  const WHOLE := Sub(None, [])

  function SubAt(h: Classes, c: ClassId, p: Path): (s: Sub)
    requires Good(h) && IsPath(h, c, p)
    ensures s.root.None? ==> s.steps == p
    ensures s.root.Some? ==> s.root.value < c
    decreases |p|
  {
    if p == [] then WHOLE
    else
      var (b, tail) := (BaseOf(h, c, p[0]), p[1..]);
      var inner := SubAt(h, b.cls, tail);
      if inner.root.Some? then inner
      else if b.isVirtual then Sub(Some(b.cls), tail)
      else Sub(None, p)
  }

  /** The path leads to a subobject of type `t`. */
  ghost predicate LeadsTo(h: Classes, c: ClassId, p: Path, t: ClassId)
    requires Good(h)
  {
    IsPath(h, c, p) && End(h, c, p) == t
  }

  /** There is exactly one `t` subobject in a `c` object. */
  ghost predicate Unique(h: Classes, c: ClassId, t: ClassId)
    requires Good(h)
  {
    && (exists p :: LeadsTo(h, c, p, t))
    && forall p, q {:trigger LeadsTo(h, c, p, t), LeadsTo(h, c, q, t)} ::
         LeadsTo(h, c, p, t) && LeadsTo(h, c, q, t) ==> SubAt(h, c, p) == SubAt(h, c, q)
  }

  /** Two different `t` subobjects. */
  ghost predicate Ambiguous(h: Classes, c: ClassId, t: ClassId)
    requires Good(h)
  {
    exists p, q {:trigger LeadsTo(h, c, p, t), LeadsTo(h, c, q, t)} ::
      LeadsTo(h, c, p, t) && LeadsTo(h, c, q, t) && SubAt(h, c, p) != SubAt(h, c, q)
  }

  /** BINFO_OFFSET within a complete `c` object: the same wherever the subobject is
      reached from, and different for different subobjects of one type. */
  ghost predicate Placed(h: Classes, c: ClassId, offsets: map<Sub, int>)
    requires Good(h)
  {
    && (forall p {:trigger SubAt(h, c, p)} :: IsPath(h, c, p) ==> SubAt(h, c, p) in offsets)
    && forall p, q {:trigger SubAt(h, c, p), SubAt(h, c, q)} ::
         IsPath(h, c, p) && IsPath(h, c, q) && End(h, c, p) == End(h, c, q)
         && offsets[SubAt(h, c, p)] == offsets[SubAt(h, c, q)]
         ==> SubAt(h, c, p) == SubAt(h, c, q)
  }

  /** One more class changes nothing for the earlier ones. */
  lemma {:induction false} GoodLater(h: Classes, k: Class)
    requires Good(h) && Definable(k, |h|)
    ensures Good(h + [k])
  {
    forall c | 0 <= c < |h + [k]|
      ensures Definable((h + [k])[c], c)
    {
      assert c < |h| ==> Definable(h[c], c);
    }
  }

  lemma {:induction false} PathsLater(h: Classes, k: Class, c: ClassId, p: Path)
    requires Good(h) && Good(h + [k]) && c < |h|
    ensures IsPath(h + [k], c, p) == IsPath(h, c, p)
    ensures IsPath(h, c, p) ==> End(h + [k], c, p) == End(h, c, p) && SubAt(h + [k], c, p) == SubAt(h, c, p)
    decreases |p|
  {
    assert (h + [k])[c] == h[c];
    if p != [] && p[0] < |h[c].bases| {
      PathsLater(h, k, BaseOf(h, c, p[0]).cls, p[1..]);
    }
  }

  lemma {:induction false} UniqueLater(h: Classes, k: Class, c: ClassId, t: ClassId)
    requires Good(h) && Good(h + [k]) && c < |h|
    ensures Unique(h + [k], c, t) == Unique(h, c, t)
  {
    forall p
      ensures LeadsTo(h + [k], c, p, t) == LeadsTo(h, c, p, t)
      ensures IsPath(h, c, p) ==> IsPath(h + [k], c, p) && SubAt(h + [k], c, p) == SubAt(h, c, p)
    {
      PathsLater(h, k, c, p);
    }
    if p :| LeadsTo(h, c, p, t) {
      assert LeadsTo(h + [k], c, p, t);
    }
    if Unique(h, c, t) {
      forall p, q | LeadsTo(h + [k], c, p, t) && LeadsTo(h + [k], c, q, t)
        ensures SubAt(h + [k], c, p) == SubAt(h + [k], c, q)
      {
        assert LeadsTo(h, c, p, t) && LeadsTo(h, c, q, t);
      }
    }
    if Unique(h + [k], c, t) {
      forall p, q | LeadsTo(h, c, p, t) && LeadsTo(h, c, q, t)
        ensures SubAt(h, c, p) == SubAt(h, c, q)
      {
        assert LeadsTo(h + [k], c, p, t) && LeadsTo(h + [k], c, q, t);
      }
    }
  }

  /** A step further down. */
  lemma {:induction false} StepOn(h: Classes, c: ClassId, p: Path, i: nat)
    requires Good(h) && IsPath(h, c, p) && i < |h[End(h, c, p)].bases|
    ensures IsPath(h, c, p + [i])
    ensures var b := BaseOf(h, End(h, c, p), i);
      && End(h, c, p + [i]) == b.cls
      && (SubAt(h, c, p + [i]).root.Some? <==> b.isVirtual || SubAt(h, c, p).root.Some?)
    decreases |p|
  {
    if p == [] {
      assert p + [i] == [i] && [i][1..] == [];
      assert SubAt(h, BaseOf(h, c, i).cls, []) == WHOLE;
    } else {
      assert (p + [i])[1..] == p[1..] + [i];
      StepOn(h, BaseOf(h, c, p[0]).cls, p[1..], i);
    }
  }

  /** A path that goes on goes on to a base of the class reached. */
  lemma {:induction false} GoesOn(h: Classes, c: ClassId, p: Path, q: Path)
    requires Good(h) && IsPath(h, c, p + q)
    ensures IsPath(h, c, p) && IsPath(h, End(h, c, p), q) && End(h, c, p + q) == End(h, End(h, c, p), q)
    decreases |p|
  {
    if p == [] {
      assert p + q == q;
    } else {
      assert (p + q)[1..] == p[1..] + q;
      GoesOn(h, BaseOf(h, c, p[0]).cls, p[1..], q);
    }
  }

  lemma {:induction false} JoinPaths(h: Classes, c: ClassId, p: Path, q: Path)
    requires Good(h) && IsPath(h, c, p) && IsPath(h, End(h, c, p), q)
    ensures IsPath(h, c, p + q) && End(h, c, p + q) == End(h, End(h, c, p), q)
    decreases |p|
  {
    if p == [] {
      assert p + q == q;
    } else {
      assert (p + q)[1..] == p[1..] + q;
      JoinPaths(h, BaseOf(h, c, p[0]).cls, p[1..], q);
    }
  }

  /** A subobject has one type. */
  lemma {:induction false} SubEnd(h: Classes, c: ClassId, p: Path)
    requires Good(h) && IsPath(h, c, p)
    ensures var s := SubAt(h, c, p);
      s.root.Some? ==> IsPath(h, s.root.value, s.steps) && End(h, s.root.value, s.steps) == End(h, c, p)
    decreases |p|
  {
    if p != [] {
      SubEnd(h, BaseOf(h, c, p[0]).cls, p[1..]);
    }
  }

  lemma {:induction false} SameEnd(h: Classes, c: ClassId, p: Path, q: Path)
    requires Good(h) && IsPath(h, c, p) && IsPath(h, c, q) && SubAt(h, c, p) == SubAt(h, c, q)
    ensures End(h, c, p) == End(h, c, q)
  {
    SubEnd(h, c, p);
    SubEnd(h, c, q);
  }

  function Under(p: Path, tails: seq<Path>): seq<Path> {
    seq(|tails|, j requires 0 <= j < |tails| => p + tails[j])
  }

  lemma {:induction false} UnderNothing(ps: seq<Path>)
    ensures Under([], ps) == ps
  {
    forall j | 0 <= j < |ps|
      ensures [] + ps[j] == ps[j]
    {
    }
  }

  lemma {:induction false} UnderSplit(p: Path, i: nat, a: seq<Path>, b: seq<Path>)
    ensures Under(p, a + Under([i], b)) == Under(p, a) + Under(p + [i], b)
  {
    forall j | 0 <= j < |b|
      ensures p + ([i] + b[j]) == p + [i] + b[j]
    {
    }
  }

  /** All paths, in the order of a depth-first walk in postorder. */
  function Paths(h: Classes, c: ClassId): seq<Path>
    requires Good(h) && c < |h|
    decreases c, |h[c].bases| + 1
  {
    PathsInBases(h, c, |h[c].bases|) + [[]]
  }

  function PathsInBases(h: Classes, c: ClassId, k: nat): seq<Path>
    requires Good(h) && c < |h| && k <= |h[c].bases|
    decreases c, k
  {
    if k == 0 then [] else PathsInBases(h, c, k - 1) + Under([k - 1], Paths(h, BaseOf(h, c, k - 1).cls))
  }

  lemma {:induction false} PathsAreAll(h: Classes, c: ClassId, p: Path)
    requires Good(h) && c < |h|
    ensures p in Paths(h, c) <==> IsPath(h, c, p)
    decreases c, |h[c].bases| + 1
  {
    PathsInBasesAreAll(h, c, |h[c].bases|, p);
  }

  lemma {:induction false} PathsInBasesAreAll(h: Classes, c: ClassId, k: nat, p: Path)
    requires Good(h) && c < |h| && k <= |h[c].bases|
    ensures p in PathsInBases(h, c, k) <==> p != [] && p[0] < k && IsPath(h, c, p)
    decreases c, k
  {
    if k > 0 {
      PathsInBasesAreAll(h, c, k - 1, p);
      var b := BaseOf(h, c, k - 1).cls;
      if p != [] {
        PathsAreAll(h, b, p[1..]);
      }
      InUnder(k - 1, Paths(h, b), p);
    }
  }

  lemma {:induction false} InUnder(i: nat, tails: seq<Path>, p: Path)
    ensures p in Under([i], tails) <==> p != [] && p[0] == i && p[1..] in tails
  {
    if p in Under([i], tails) {
      var j :| 0 <= j < |tails| && [i] + tails[j] == p;
      assert p[1..] == tails[j];
    }
    if p != [] && p[0] == i && p[1..] in tails {
      var j :| 0 <= j < |tails| && tails[j] == p[1..];
      assert p == [i] + p[1..] == Under([i], tails)[j];
    }
  }

  /** `Unique`, by enumeration. */
  predicate HasUnique(h: Classes, c: ClassId, t: ClassId)
    requires Good(h) && c < |h|
  {
    PathsAllAre(h, c);
    && (exists p :: p in Paths(h, c) && End(h, c, p) == t)
    && forall p, q :: p in Paths(h, c) && q in Paths(h, c) && End(h, c, p) == t && End(h, c, q) == t
                      ==> SubAt(h, c, p) == SubAt(h, c, q)
  }

  lemma {:induction false} PathsAllAre(h: Classes, c: ClassId)
    requires Good(h) && c < |h|
    ensures forall p :: p in Paths(h, c) <==> IsPath(h, c, p)
  {
    forall p
      ensures p in Paths(h, c) <==> IsPath(h, c, p)
    {
      PathsAreAll(h, c, p);
    }
  }

  lemma {:induction false} HasUniqueIsUnique(h: Classes, c: ClassId, t: ClassId)
    requires Good(h) && c < |h|
    ensures HasUnique(h, c, t) <==> Unique(h, c, t)
  {
    PathsAllAre(h, c);
    forall p
      ensures LeadsTo(h, c, p, t) <==> p in Paths(h, c) && End(h, c, p) == t
    {
    }
  }

  datatype BaseKind = NotBase | SameType | ProperBase | ViaVirtual | Ambig

  /** A path of `c` below `p` to a `t` subobject. */
  ghost predicate Below(h: Classes, c: ClassId, p: Path, t: ClassId, x: Path)
    requires Good(h)
  {
    p <= x && LeadsTo(h, c, x, t)
  }

  /** What the search has found: nothing so far, or one subobject by every path below
      `p`. */
  ghost predicate Settled(h: Classes, c: ClassId, p: Path, t: ClassId, found: Option<Path>)
    requires Good(h)
  {
    forall x {:trigger Below(h, c, p, t, x)} :: Below(h, c, p, t, x) ==>
      found.Some? && LeadsTo(h, c, found.value, t) && SubAt(h, c, x) == SubAt(h, c, found.value)
  }

  lemma {:induction false} OnlyItself(h: Classes, c: ClassId, p: Path)
    requires Good(h) && IsPath(h, c, p)
    ensures LeadsTo(h, c, p, End(h, c, p))
    ensures forall x {:trigger Below(h, c, p, End(h, c, p), x)} :: Below(h, c, p, End(h, c, p), x) ==> x == p
  {
    forall x | Below(h, c, p, End(h, c, p), x)
      ensures x == p
    {
      assert x == p + x[|p|..];
      GoesOn(h, c, p, x[|p|..]);
    }
  }

  /** `lookup_base_r` without access checking, at the subobject reached along `p`.
      The bases are searched last to first, and an ambiguity ends the search. */
  method LookupBaseR(h: Classes, c: ClassId, p: Path, cls: ClassId, t: ClassId, isVirtual: bool,
                     offsets: map<Sub, int>, before: Option<Path>)
    returns (kind: BaseKind, found: Option<Path>)
    requires Good(h) && IsPath(h, c, p) && cls == End(h, c, p)
    requires isVirtual <==> SubAt(h, c, p).root.Some?
    requires Placed(h, c, offsets)
    requires before.Some? ==> LeadsTo(h, c, before.value, t) && !(p <= before.value)
    ensures kind == Ambig ==> Ambiguous(h, c, t)
    ensures kind != Ambig ==> Settled(h, c, p, t, found)
    ensures kind != Ambig && before.Some? ==> found == before
    ensures kind != Ambig && before.None? && found.Some? ==> Below(h, c, p, t, found.value)
    ensures kind == NotBase ==> found == before
    ensures kind != NotBase && kind != Ambig ==> found.Some?
    ensures kind == SameType <==> cls == t && !isVirtual && before.None?
    ensures kind == ProperBase ==> before.None? && !isVirtual
    decreases cls, |h[cls].bases| + 1
  {
    if cls == t {
      OnlyItself(h, c, p);
      if before.None? {
        return if isVirtual then ViaVirtual else SameType, Some(p);
      }
      if !isVirtual || offsets[SubAt(h, c, p)] != offsets[SubAt(h, c, before.value)] {
        assert LeadsTo(h, c, before.value, t);
        return Ambig, None;
      }
      return ViaVirtual, before;
    }
    kind, found := LookupInBases(h, c, p, cls, t, isVirtual, offsets, before);
  }

  /** The part of the search that the bases from number `i` on make up. */
  ghost predicate SettledFrom(h: Classes, c: ClassId, p: Path, t: ClassId, found: Option<Path>, i: nat)
    requires Good(h)
  {
    forall x {:trigger Below(h, c, p, t, x)} :: Below(h, c, p, t, x) && |p| < |x| && x[|p|] >= i ==>
      found.Some? && LeadsTo(h, c, found.value, t) && SubAt(h, c, x) == SubAt(h, c, found.value)
  }

  lemma {:induction false} SettleOne(h: Classes, c: ClassId, p: Path, t: ClassId, i: nat, before: Option<Path>, found: Option<Path>)
    requires Good(h) && SettledFrom(h, c, p, t, before, i + 1)
    requires before.Some? ==> found == before
    requires Settled(h, c, p + [i], t, found)
    ensures SettledFrom(h, c, p, t, found, i)
  {
    forall x | Below(h, c, p, t, x) && |p| < |x| && x[|p|] >= i
      ensures found.Some? && LeadsTo(h, c, found.value, t) && SubAt(h, c, x) == SubAt(h, c, found.value)
    {
      if x[|p|] == i {
        assert p + [i] <= x;
        assert Below(h, c, p + [i], t, x);
      }
    }
  }

  lemma {:induction false} SettleAll(h: Classes, c: ClassId, p: Path, t: ClassId, found: Option<Path>)
    requires Good(h) && IsPath(h, c, p) && End(h, c, p) != t && SettledFrom(h, c, p, t, found, 0)
    ensures Settled(h, c, p, t, found)
  {
    forall x | Below(h, c, p, t, x)
      ensures |p| < |x|
    {
      assert |x| == |p| ==> x == p;
    }
  }

  /** The loop over the bases, after those from number `i` on. */
  ghost predicate Searched(h: Classes, c: ClassId, p: Path, t: ClassId, isVirtual: bool, before: Option<Path>,
                           kind: BaseKind, found: Option<Path>, i: nat)
    requires Good(h)
  {
    && kind != Ambig && kind != SameType && SettledFrom(h, c, p, t, found, i)
    && (if before.Some? then found == before else found.Some? ==> Below(h, c, p, t, found.value))
    && (found.Some? ==> LeadsTo(h, c, found.value, t) && NotBelowFirst(p, i, found.value))
    && (kind == NotBase ==> found == before) && (kind != NotBase ==> found.Some?)
    && (kind == ProperBase ==> before.None? && !isVirtual)
  }

  ghost predicate NotBelowFirst(p: Path, i: nat, x: Path) {
    forall j :: 0 <= j < i ==> !(p + [j] <= x)
  }

  method LookupInBases(h: Classes, c: ClassId, p: Path, cls: ClassId, t: ClassId, isVirtual: bool,
                       offsets: map<Sub, int>, before: Option<Path>)
    returns (kind: BaseKind, found: Option<Path>)
    requires Good(h) && IsPath(h, c, p) && cls == End(h, c, p) && cls != t
    requires isVirtual <==> SubAt(h, c, p).root.Some?
    requires Placed(h, c, offsets)
    requires before.Some? ==> LeadsTo(h, c, before.value, t) && !(p <= before.value)
    ensures if kind == Ambig then Ambiguous(h, c, t) else
      Settled(h, c, p, t, found) && Searched(h, c, p, t, isVirtual, before, kind, found, 0)
    decreases cls, |h[cls].bases|
  {
    kind, found := NotBase, before;
    var i := |h[cls].bases|;
    NotSearched(h, c, p, t, isVirtual, before);
    while i > 0
      invariant 0 <= i <= |h[cls].bases| && Searched(h, c, p, t, isVirtual, before, kind, found, i)
    {
      i := i - 1;
      kind, found := LookupNext(h, c, p, cls, t, isVirtual, offsets, before, kind, found, i);
      if kind == Ambig {
        return Ambig, None;
      }
    }
    SettleAll(h, c, p, t, found);
  }

  lemma {:induction false} NotSearched(h: Classes, c: ClassId, p: Path, t: ClassId, isVirtual: bool, before: Option<Path>)
    requires Good(h) && IsPath(h, c, p)
    requires before.Some? ==> LeadsTo(h, c, before.value, t) && !(p <= before.value)
    ensures Searched(h, c, p, t, isVirtual, before, NotBase, before, |h[End(h, c, p)].bases|)
  {
    NoFurther(h, c, p, t);
    forall j: nat | before.Some?
      ensures !(p + [j] <= before.value)
    {
      assert p <= p + [j];
    }
  }

  /** One base.  The assertion is that of the source. */
  method LookupNext(h: Classes, c: ClassId, p: Path, cls: ClassId, t: ClassId, isVirtual: bool,
                    offsets: map<Sub, int>, before: Option<Path>, kind: BaseKind, found: Option<Path>, i: nat)
    returns (kind': BaseKind, found': Option<Path>)
    requires Good(h) && IsPath(h, c, p) && cls == End(h, c, p) && i < |h[cls].bases|
    requires isVirtual <==> SubAt(h, c, p).root.Some?
    requires Placed(h, c, offsets) && Searched(h, c, p, t, isVirtual, before, kind, found, i + 1)
    ensures if kind' == Ambig then Ambiguous(h, c, t) else Searched(h, c, p, t, isVirtual, before, kind', found', i)
    decreases cls, 0
  {
    var b := BaseOf(h, cls, i);
    StepOn(h, c, p, i);
    var bk;
    bk, found' := LookupBaseR(h, c, p + [i], b.cls, t, isVirtual || b.isVirtual, offsets, found);
    kind' := kind;
    match bk {
      case Ambig =>
        return Ambig, None;
      case SameType | ProperBase =>
        assert kind == NotBase;
        kind' := ProperBase;
      case ViaVirtual =>
        kind' := ViaVirtual;
      case NotBase =>
    }
    SettleOne(h, c, p, t, i, found, found');
    KeepsApart(h, c, p, t, i, found, found');
  }

  lemma {:induction false} NoFurther(h: Classes, c: ClassId, p: Path, t: ClassId)
    requires Good(h) && IsPath(h, c, p)
    ensures forall x {:trigger Below(h, c, p, t, x)} :: Below(h, c, p, t, x) && |p| < |x| ==> x[|p|] < |h[End(h, c, p)].bases|
  {
    forall x | Below(h, c, p, t, x) && |p| < |x|
      ensures x[|p|] < |h[End(h, c, p)].bases|
    {
      assert x == p + x[|p|..];
      GoesOn(h, c, p, x[|p|..]);
    }
  }

  lemma {:induction false} KeepsApart(h: Classes, c: ClassId, p: Path, t: ClassId, i: nat, before: Option<Path>, found: Option<Path>)
    requires Good(h)
    requires before.Some? ==> found == before && forall j :: 0 <= j <= i ==> !(p + [j] <= before.value)
    requires before.None? && found.Some? ==> Below(h, c, p + [i], t, found.value)
    ensures found.Some? ==> forall j :: 0 <= j < i ==> !(p + [j] <= found.value)
    ensures before.None? && found.Some? ==> Below(h, c, p, t, found.value)
  {
    if before.None? && found.Some? {
      var x := found.value;
      assert x[|p|] == (p + [i])[|p|] == i;
      assert p <= p + [i];
      forall j | 0 <= j < i
        ensures !(p + [j] <= x)
      {
        assert (p + [j])[|p|] == j;
      }
    }
  }

  /** `lookup_base` with `ba_ignore | ba_quiet`: it finds a base exactly if there is
      only one. */
  method LookupBase(h: Classes, c: ClassId, t: ClassId, offsets: map<Sub, int>) returns (found: Option<Path>, kind: BaseKind)
    requires Good(h) && c < |h| && Placed(h, c, offsets)
    ensures found.Some? <==> Unique(h, c, t)
    ensures found.Some? ==> LeadsTo(h, c, found.value, t)
    ensures kind == SameType <==> c == t
    ensures kind == Ambig <==> Ambiguous(h, c, t)
    ensures kind == NotBase <==> forall p :: !LeadsTo(h, c, p, t)
  {
    kind, found := LookupBaseR(h, c, [], c, t, false, offsets, None);
    if kind == Ambig {
      found := None;
    } else {
      forall p | LeadsTo(h, c, p, t)
        ensures Below(h, c, [], t, p)
      {
      }
    }
  }
}
