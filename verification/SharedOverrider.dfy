/** The search for the final overrider where it can be ambiguous: in hierarchies with
    virtual bases, in which several paths lead to the base that declares the
    function. */
module SharedOverrider {
  import opened Hierarchy
  import opened FinalOverrider
  import opened SharedBases

  /** `strictly_overrides`: the lookup that it calls finds nothing for an ambiguous
      base. */
  predicate StrictlyOverrides(h: Classes, f: Fn, g: Fn)
    requires Good(h)
  {
    f.cls < |h| && f.cls != g.cls && HasUnique(h, f.cls, g.cls)
  }

  function Overriding(h: Classes): Overrides
    requires Good(h)
  {
    (f: Fn, g: Fn) => StrictlyOverrides(h, f, g)
  }

  /** As coded. */
  method StrictlyOverridesByLookup(h: Classes, f: Fn, g: Fn, offsets: map<Sub, int>) returns (answer: bool)
    requires Good(h) && f.cls < |h| && Placed(h, f.cls, offsets)
    ensures answer <==> StrictlyOverrides(h, f, g)
  {
    var found, kind := LookupBase(h, f.cls, g.cls, offsets);
    HasUniqueIsUnique(h, f.cls, g.cls);
    answer := found.Some? && kind != SameType;
  }

  predicate Declares(h: Classes, c: ClassId, s: Sig)
    requires c < |h|
  {
    s in h[c].virtuals
  }

  /** `find_final_overrider_data`, as far as it stays the same: the class to be
      completed, the function, and the subobject that declares it. */
  datatype Sought = Sought(h: Classes, whole: ClassId, offsets: map<Sub, int>, sig: Sig, declaring: Sub)

  ghost predicate Leads(so: Sought, p: Path)
    requires Good(so.h)
  {
    IsPath(so.h, so.whole, p) && SubAt(so.h, so.whole, p) == so.declaring
  }

  ghost predicate Meaningful(so: Sought) {
    && Good(so.h) && so.whole < |so.h| && Placed(so.h, so.whole, so.offsets)
    && forall p {:trigger Leads(so, p)} :: Leads(so, p) ==> Declares(so.h, End(so.h, so.whole, p), so.sig)
  }

  /** How far down the path the first class is that declares the function. */
  function FirstDeclarer(h: Classes, c: ClassId, p: Path, s: Sig): (k: nat)
    requires Good(h) && IsPath(h, c, p) && Declares(h, End(h, c, p), s)
    ensures k <= |p|
    decreases |p|
  {
    if Declares(h, c, s) then 0 else 1 + FirstDeclarer(h, BaseOf(h, c, p[0]).cls, p[1..], s)
  }

  /** The subobject after `k` steps, and what is declared there. */
  function OverriderAfter(so: Sought, p: Path, k: nat): Overrider
    requires Good(so.h) && IsPath(so.h, so.whole, p) && k <= |p| && Placed(so.h, so.whole, so.offsets)
  {
    assert p == p[..k] + p[k..];
    GoesOn(so.h, so.whole, p[..k], p[k..]);
    Overrider(Fn(End(so.h, so.whole, p[..k]), so.sig), so.offsets[SubAt(so.h, so.whole, p[..k])])
  }

  function OverriderAlong(so: Sought, p: Path): Overrider
    requires Meaningful(so) && Leads(so, p)
  {
    OverriderAfter(so, p, FirstDeclarer(so.h, so.whole, p, so.sig))
  }

  predicate AllPaths(so: Sought, ps: seq<Path>)
    requires Good(so.h)
  {
    forall i :: 0 <= i < |ps| ==> IsPath(so.h, so.whole, ps[i])
  }

  /** The overrider along one path, if it leads to the declaring base. */
  function VisitAt(so: Sought, p: Path): seq<Overrider>
    requires Meaningful(so) && IsPath(so.h, so.whole, p)
  {
    if SubAt(so.h, so.whole, p) == so.declaring then (assert Leads(so, p); [OverriderAlong(so, p)]) else []
  }

  /** What is compared, path by path: the overriders along those that lead to the
      declaring base. */
  function VisitsAlong(so: Sought, ps: seq<Path>): seq<Overrider>
    requires Meaningful(so) && AllPaths(so, ps)
  {
    if ps == [] then [] else VisitsAlong(so, ps[..|ps| - 1]) + VisitAt(so, ps[|ps| - 1])
  }

  lemma {:induction false} PathsArePaths(so: Sought)
    requires Good(so.h) && so.whole < |so.h|
    ensures AllPaths(so, Paths(so.h, so.whole))
  {
    PathsAllAre(so.h, so.whole);
    var ps := Paths(so.h, so.whole);
    assert forall i :: 0 <= i < |ps| ==> ps[i] in ps;
  }

  function Visits(so: Sought): seq<Overrider>
    requires Meaningful(so)
  {
    PathsArePaths(so);
    VisitsAlong(so, Paths(so.h, so.whole))
  }

  lemma {:induction false} AllPathsJoined(so: Sought, ps: seq<Path>, qs: seq<Path>)
    requires Good(so.h) && AllPaths(so, ps) && AllPaths(so, qs)
    ensures AllPaths(so, ps + qs)
  {
  }

  lemma {:induction false} LastJoined<T>(s: seq<T>, t: seq<T>)
    requires t != []
    ensures var (n, all) := (|t| - 1, s + t); all != [] && all[..|all| - 1] == s + t[..n] && all[|all| - 1] == t[n]
  {
  }

  lemma {:induction false} VisitsAppend(so: Sought, ps: seq<Path>, qs: seq<Path>)
    requires Meaningful(so) && AllPaths(so, ps) && AllPaths(so, qs)
    ensures AllPaths(so, ps + qs)
    ensures VisitsAlong(so, ps + qs) == VisitsAlong(so, ps) + VisitsAlong(so, qs)
  {
    AllPathsJoined(so, ps, qs);
    if qs == [] {
      assert ps + qs == ps;
    } else {
      var front := qs[..|qs| - 1];
      LastJoined(ps, qs);
      VisitsAppend(so, ps, front);
      Associate(VisitsAlong(so, ps), VisitsAlong(so, front), VisitAt(so, qs[|qs| - 1]));
    }
  }

  /** `k` steps down the path, before the first class that declares the function. */
  ghost predicate Before(so: Sought, p: Path, k: nat, cls: ClassId)
    requires Meaningful(so) && Leads(so, p)
  {
    && k <= |p|
    && IsPath(so.h, so.whole, p[..k]) && cls == End(so.h, so.whole, p[..k])
    && IsPath(so.h, cls, p[k..]) && Declares(so.h, End(so.h, cls, p[k..]), so.sig)
    && k + FirstDeclarer(so.h, cls, p[k..], so.sig) == FirstDeclarer(so.h, so.whole, p, so.sig)
  }

  lemma {:induction false} OneStepDown(so: Sought, p: Path, k: nat, cls: ClassId)
    requires Meaningful(so) && Leads(so, p) && Before(so, p, k, cls) && !Declares(so.h, cls, so.sig)
    ensures k < |p| && p[k] < |so.h[cls].bases| && Before(so, p, k + 1, BaseOf(so.h, cls, p[k]).cls)
  {
    var rest := p[k..];
    assert rest[1..] == p[k + 1..] && rest[0] == p[k];
    StepOn(so.h, so.whole, p[..k], p[k]);
    assert p[..k] + [p[k]] == p[..k + 1];
  }

  /** The way from the whole object down to the first class that declares the
      function. */
  method WalkPath(so: Sought, p: Path) returns (o: Overrider)
    requires Meaningful(so) && Leads(so, p)
    ensures o == OverriderAlong(so, p)
  {
    var k, cls := 0, so.whole;
    assert p[..0] == [] && p[0..] == p;
    while so.sig !in so.h[cls].virtuals
      invariant Before(so, p, k, cls)
      decreases |p| - k
    {
      OneStepDown(so, p, k, cls);
      cls := BaseOf(so.h, cls, p[k]).cls;
      k := k + 1;
    }
    o := Overrider(Fn(cls, so.sig), so.offsets[SubAt(so.h, so.whole, p[..k])]);
  }

  lemma {:induction false} AllUnder(so: Sought, p: Path)
    requires Good(so.h) && IsPath(so.h, so.whole, p)
    ensures AllPaths(so, Under(p, Paths(so.h, End(so.h, so.whole, p))))
  {
    var cls := End(so.h, so.whole, p);
    var ps := Paths(so.h, cls);
    PathsAllAre(so.h, cls);
    forall i | 0 <= i < |ps|
      ensures IsPath(so.h, so.whole, Under(p, ps)[i])
    {
      assert ps[i] in ps;
      JoinPaths(so.h, so.whole, p, ps[i]);
    }
  }

  lemma {:induction false} AllUnderBases(so: Sought, p: Path, k: nat)
    requires Good(so.h) && IsPath(so.h, so.whole, p) && k <= |so.h[End(so.h, so.whole, p)].bases|
    ensures AllPaths(so, Under(p, PathsInBases(so.h, End(so.h, so.whole, p), k)))
  {
    var cls := End(so.h, so.whole, p);
    var ps := PathsInBases(so.h, cls, k);
    forall i | 0 <= i < |ps|
      ensures IsPath(so.h, so.whole, Under(p, ps)[i])
    {
      assert ps[i] in ps;
      PathsInBasesAreAll(so.h, cls, k, ps[i]);
      JoinPaths(so.h, so.whole, p, ps[i]);
    }
  }

  /** What the walk meets at and below the subobject at `p`... */
  function VisitsUnder(so: Sought, p: Path): seq<Overrider>
    requires Meaningful(so) && IsPath(so.h, so.whole, p)
  {
    AllUnder(so, p);
    VisitsAlong(so, Under(p, Paths(so.h, End(so.h, so.whole, p))))
  }

  /** ... and below its first `k` bases. */
  function VisitsInBases(so: Sought, p: Path, k: nat): seq<Overrider>
    requires Meaningful(so) && IsPath(so.h, so.whole, p) && k <= |so.h[End(so.h, so.whole, p)].bases|
  {
    AllUnderBases(so, p, k);
    VisitsAlong(so, Under(p, PathsInBases(so.h, End(so.h, so.whole, p), k)))
  }

  lemma {:induction false} VisitsOfBase(so: Sought, p: Path, k: nat)
    requires Meaningful(so) && IsPath(so.h, so.whole, p) && k < |so.h[End(so.h, so.whole, p)].bases|
    ensures IsPath(so.h, so.whole, p + [k]) && End(so.h, so.whole, p + [k]) == BaseOf(so.h, End(so.h, so.whole, p), k).cls
    ensures VisitsInBases(so, p, k + 1) == VisitsInBases(so, p, k) + VisitsUnder(so, p + [k])
  {
    var cls := End(so.h, so.whole, p);
    var inner := BaseOf(so.h, cls, k).cls;
    StepOn(so.h, so.whole, p, k);
    AllUnderBases(so, p, k);
    AllUnder(so, p + [k]);
    UnderSplit(p, k, PathsInBases(so.h, cls, k), Paths(so.h, inner));
    VisitsAppend(so, Under(p, PathsInBases(so.h, cls, k)), Under(p + [k], Paths(so.h, inner)));
  }

  lemma {:induction false} VisitsOfAll(so: Sought, p: Path)
    requires Meaningful(so) && IsPath(so.h, so.whole, p)
    ensures VisitsUnder(so, p) == VisitsInBases(so, p, |so.h[End(so.h, so.whole, p)].bases|) + VisitAt(so, p)
  {
    var cls := End(so.h, so.whole, p);
    var below := Under(p, PathsInBases(so.h, cls, |so.h[cls].bases|));
    AllUnderBases(so, p, |so.h[cls].bases|);
    AllUnder(so, p);
    var all := Under(p, Paths(so.h, cls));
    assert p + [] == p;
    assert all == below + [p];
    assert all[..|all| - 1] == below;
  }

  /** Type and offset tell whether a path leads to the declaring base. */
  lemma {:induction false} FoundByOffset(so: Sought, p: Path, d: Path)
    requires Meaningful(so) && IsPath(so.h, so.whole, p) && Leads(so, d)
    ensures SubAt(so.h, so.whole, p) in so.offsets && so.declaring in so.offsets
    ensures Leads(so, p) <==>
      End(so.h, so.whole, p) == End(so.h, so.whole, d) && so.offsets[SubAt(so.h, so.whole, p)] == so.offsets[so.declaring]
  {
    if Leads(so, p) {
      SameEnd(so.h, so.whole, p, d);
    }
  }

  /** The base that is looked for, with the type it has. */
  ghost predicate LooksFor(so: Sought, declaringType: ClassId, d: Path) {
    Meaningful(so) && Leads(so, d) && declaringType == End(so.h, so.whole, d)
  }

  /** `dfs_find_final_overrider` */
  method VisitNode(so: Sought, declaringType: ClassId, p: Path, cls: ClassId, data: FinalOverriderData, ghost d: Path)
    requires LooksFor(so, declaringType, d) && IsPath(so.h, so.whole, p) && cls == End(so.h, so.whole, p)
    requires data.Valid(Overriding(so.h))
    modifies data
    ensures data.Valid(Overriding(so.h)) && data.visits == old(data.visits) + VisitAt(so, p)
  {
    FoundByOffset(so, p, d);
    if cls == declaringType && so.offsets[SubAt(so.h, so.whole, p)] == so.offsets[so.declaring] {
      var o := WalkPath(so, p);
      data.Visit(Overriding(so.h), o);
    }
  }

  /** `dfs_walk` */
  method Walk(so: Sought, declaringType: ClassId, p: Path, cls: ClassId, data: FinalOverriderData, ghost d: Path)
    requires LooksFor(so, declaringType, d) && IsPath(so.h, so.whole, p) && cls == End(so.h, so.whole, p)
    requires data.Valid(Overriding(so.h))
    modifies data
    ensures data.Valid(Overriding(so.h)) && data.visits == old(data.visits) + VisitsUnder(so, p)
    decreases cls
  {
    for i := 0 to |so.h[cls].bases|
      invariant data.Valid(Overriding(so.h)) && data.visits == old(data.visits) + VisitsInBases(so, p, i)
    {
      WalkBase(so, declaringType, p, cls, i, data, d, old(data.visits));
    }
    VisitsOfAll(so, p);
    Associate(old(data.visits), VisitsInBases(so, p, |so.h[cls].bases|), VisitAt(so, p));
    VisitNode(so, declaringType, p, cls, data, d);
  }

  method WalkBase(so: Sought, declaringType: ClassId, p: Path, cls: ClassId, i: nat, data: FinalOverriderData, ghost d: Path,
                  ghost before: seq<Overrider>)
    requires LooksFor(so, declaringType, d) && IsPath(so.h, so.whole, p) && cls == End(so.h, so.whole, p)
    requires i < |so.h[cls].bases|
    requires data.Valid(Overriding(so.h)) && data.visits == before + VisitsInBases(so, p, i)
    modifies data
    ensures data.Valid(Overriding(so.h)) && data.visits == before + VisitsInBases(so, p, i + 1)
    decreases cls, 0
  {
    VisitsOfBase(so, p, i);
    Associate(before, VisitsInBases(so, p, i), VisitsUnder(so, p + [i]));
    Walk(so, declaringType, p + [i], BaseOf(so.h, cls, i).cls, data, d);
  }

  /** `find_final_overrider`: the answer for the base at the end of the path `d`, and
      none if it is ambiguous. */
  method FindFinalOverrider(so: Sought, d: Path) returns (overrider: Option<Overrider>)
    requires Meaningful(so) && Leads(so, d)
    ensures overrider == Run(Overriding(so.h), Visits(so)).best
  {
    var data := new FinalOverriderData();
    Walk(so, End(so.h, so.whole, d), [], so.whole, data, d);
    VisitsAreAll(so);
    assert data.visits == Visits(so);
    overrider := data.overriding;
  }

  lemma {:induction false} VisitsAreAll(so: Sought)
    requires Meaningful(so)
    ensures Visits(so) == VisitsUnder(so, [])
  {
    PathsArePaths(so);
    AllUnder(so, []);
    UnderNothing(Paths(so.h, so.whole));
  }
}
