/** Class hierarchies without virtual bases, as the class finisher sees them.

    A class is a number, and its direct bases have smaller numbers: a class is
    laid out only after its bases are complete.  A base subobject of class `c`
    is a path: the index of a direct base of `c`, then the index of a direct
    base of that base, and so on.  The empty path is `c` itself. */
module Hierarchy {

  datatype Option<+T> = None | Some(value: T)

  /** `nreverse` */
  function Reverse<T>(s: seq<T>): (r: seq<T>)
    ensures |r| == |s| && forall i :: 0 <= i < |s| ==> r[i] == s[|s| - 1 - i]
  {
    if s == [] then [] else Reverse(s[1..]) + [s[0]]
  }

  lemma {:induction false} Associate<T>(a: seq<T>, b: seq<T>, c: seq<T>)
    ensures a + b + c == a + (b + c)
  {
  }

  type ClassId = nat
  type Sig = nat
  type Path = seq<nat>

  /** A non-static data member of scalar type. */
  datatype Field = Field(size: nat, align: nat)

  /** What the parser knows of a class: `virtuals` are the signatures of the
      virtual functions it declares, in declaration order; `minAlign` is the
      alignment an attribute asks for. */
  datatype ClassDecl = ClassDecl(
    bases: seq<ClassId>,
    fields: seq<Field>,
    virtuals: seq<Sig>,
    pod: bool,
    minAlign: nat)

  /** The function with signature `sig` declared in class `cls`. */
  datatype Fn = Fn(cls: ClassId, sig: Sig)

  /** A completed class: BINFO_OFFSET of each direct base, the position of each data
      member, the index of the primary base, CLASSTYPE_SIZE_UNIT, TYPE_SIZE_UNIT and
      CLASSTYPE_ALIGN_UNIT. */
  datatype ClassInfo = ClassInfo(
    decl: ClassDecl,
    offsets: seq<nat>,
    members: seq<nat>,
    primary: Option<nat>,
    nvsize: nat,
    size: nat,
    align: nat)

  type World = seq<ClassInfo>

  predicate BasesBelow(d: ClassDecl, n: nat) {
    forall i :: 0 <= i < |d.bases| ==> d.bases[i] < n
  }

  /** Every class only has earlier classes as bases. */
  predicate Ordered(w: World) {
    forall c :: 0 <= c < |w| ==>
      && BasesBelow(w[c].decl, c)
      && |w[c].offsets| == |w[c].decl.bases|
      && (w[c].primary.Some? ==> w[c].primary.value < |w[c].decl.bases|)
  }

  predicate IsEmptyClass(w: World, c: ClassId)
    requires c < |w|
  {
    w[c].nvsize == 0
  }

  predicate ValidPath(w: World, c: ClassId, p: Path)
    requires Ordered(w)
    decreases |p|
  {
    c < |w| && (p == [] || (p[0] < |w[c].decl.bases| && ValidPath(w, w[c].decl.bases[p[0]], p[1..])))
  }

  function TypeAt(w: World, c: ClassId, p: Path): (t: ClassId)
    requires Ordered(w) && ValidPath(w, c, p)
    ensures t + |p| <= c < |w|
    decreases |p|
  {
    if p == [] then c else TypeAt(w, w[c].decl.bases[p[0]], p[1..])
  }

  /** The offset of the subobject `p` within a `c` object. */
  function OffsetAt(w: World, c: ClassId, p: Path): nat
    requires Ordered(w) && ValidPath(w, c, p)
    decreases |p|
  {
    if p == [] then 0 else w[c].offsets[p[0]] + OffsetAt(w, w[c].decl.bases[p[0]], p[1..])
  }

  /** Distinct base subobjects of one type have distinct addresses. */
  ghost predicate UniqueAddresses(w: World, c: ClassId)
    requires Ordered(w)
  {
    forall p: Path, q: Path ::
      ValidPath(w, c, p) && ValidPath(w, c, q)
      && TypeAt(w, c, p) == TypeAt(w, c, q) && OffsetAt(w, c, p) == OffsetAt(w, c, q)
      ==> p == q
  }

  /** A path within a path: types and offsets compose. */
  lemma {:induction false} PathConcat(w: World, c: ClassId, p: Path, q: Path)
    requires Ordered(w) && ValidPath(w, c, p) && ValidPath(w, TypeAt(w, c, p), q)
    ensures ValidPath(w, c, p + q)
    ensures TypeAt(w, c, p + q) == TypeAt(w, TypeAt(w, c, p), q)
    ensures OffsetAt(w, c, p + q) == OffsetAt(w, c, p) + OffsetAt(w, TypeAt(w, c, p), q)
    decreases |p|
  {
    if p == [] {
      assert p + q == q;
    } else {
      PathConcat(w, w[c].decl.bases[p[0]], p[1..], q);
      assert (p + q)[1..] == p[1..] + q;
    }
  }

  /** Conversely, every prefix of a path is a path. */
  lemma {:induction false} PathSplit(w: World, c: ClassId, p: Path, q: Path)
    requires Ordered(w) && ValidPath(w, c, p + q)
    ensures ValidPath(w, c, p) && ValidPath(w, TypeAt(w, c, p), q)
    decreases |p|
  {
    if p == [] {
      assert p + q == q;
    } else {
      assert (p + q)[1..] == p[1..] + q;
      PathSplit(w, w[c].decl.bases[p[0]], p[1..], q);
    }
  }

  /** Completing further classes changes nothing for the earlier ones. */
  lemma {:induction false} PathsStable(w: World, w': World, c: ClassId, p: Path)
    requires Ordered(w) && Ordered(w') && c < |w| <= |w'| && w'[..|w|] == w
    ensures ValidPath(w, c, p) == ValidPath(w', c, p)
    ensures ValidPath(w, c, p) ==>
      TypeAt(w, c, p) == TypeAt(w', c, p) && OffsetAt(w, c, p) == OffsetAt(w', c, p)
    decreases |p|
  {
    assert w'[c] == w[c];
    if p != [] && p[0] < |w[c].decl.bases| {
      PathsStable(w, w', w[c].decl.bases[p[0]], p[1..]);
    }
  }

  /** The number of base subobjects of type `t` in a `c` object. */
  function NumSubobjects(w: World, c: ClassId, t: ClassId): nat
    requires Ordered(w) && c < |w|
    decreases c, |w[c].decl.bases| + 1
  {
    if c == t then 1 else NumInBases(w, c, t, |w[c].decl.bases|)
  }

  function NumInBases(w: World, c: ClassId, t: ClassId, k: nat): nat
    requires Ordered(w) && c < |w| && k <= |w[c].decl.bases|
    decreases c, k
  {
    if k == 0 then 0 else NumInBases(w, c, t, k - 1) + NumSubobjects(w, w[c].decl.bases[k - 1], t)
  }

  lemma {:induction false} NoSubobjectAbove(w: World, c: ClassId, t: ClassId)
    requires Ordered(w) && c < |w| && c < t
    ensures NumSubobjects(w, c, t) == 0
    decreases c, |w[c].decl.bases| + 1
  {
    NoneInBasesAbove(w, c, t, |w[c].decl.bases|);
  }

  lemma {:induction false} NoneInBasesAbove(w: World, c: ClassId, t: ClassId, k: nat)
    requires Ordered(w) && c < |w| && c < t && k <= |w[c].decl.bases|
    ensures NumInBases(w, c, t, k) == 0
    decreases c, k
  {
    if k > 0 {
      NoneInBasesAbove(w, c, t, k - 1);
      NoSubobjectAbove(w, w[c].decl.bases[k - 1], t);
    }
  }
}
