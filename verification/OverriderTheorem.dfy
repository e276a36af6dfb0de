/** When the search for the final overrider is right: for one base subobject of a
    virtual base, and for every class that can still be declared. */
module OverriderTheorem {
  import opened Hierarchy
  import opened FinalOverrider
  import opened SharedBases
  import opened SharedOverrider

  /** The first class along the path that declares the function. */
  function OverriderClass(h: Classes, c: ClassId, p: Path, s: Sig): (x: ClassId)
    requires Good(h) && IsPath(h, c, p) && Declares(h, End(h, c, p), s)
    ensures x <= c && Declares(h, x, s)
    decreases |p|
  {
    if Declares(h, c, s) then c else OverriderClass(h, BaseOf(h, c, p[0]).cls, p[1..], s)
  }

  lemma {:induction false} OverriderClassIsFirst(h: Classes, c: ClassId, p: Path, s: Sig)
    requires Good(h) && IsPath(h, c, p) && Declares(h, End(h, c, p), s)
    ensures var k := FirstDeclarer(h, c, p, s); IsPath(h, c, p[..k]) && End(h, c, p[..k]) == OverriderClass(h, c, p, s)
    decreases |p|
  {
    if !Declares(h, c, s) {
      var k := FirstDeclarer(h, c, p, s);
      assert p[..k][1..] == p[1..][..k - 1];
      OverriderClassIsFirst(h, BaseOf(h, c, p[0]).cls, p[1..], s);
    }
  }

  /** The subobject at the end of `q` in the virtual base `v` declares the function. */
  ghost predicate DeclaringBase(h: Classes, s: Sig, v: ClassId, q: Path)
    requires Good(h)
  {
    IsPath(h, v, q) && SubAt(h, v, q).root.None? && Declares(h, End(h, v, q), s)
  }

  ghost predicate Reaches(h: Classes, x: ClassId, p: Path, v: ClassId, q: Path)
    requires Good(h)
  {
    IsPath(h, x, p) && SubAt(h, x, p) == Sub(Some(v), q)
  }

  ghost predicate OverridesAbove(h: Classes, s: Sig, v: ClassId, q: Path, x: ClassId)
    requires Good(h)
  {
    x < |h| && Declares(h, x, s) && exists p :: Reaches(h, x, p, v, q)
  }

  /** The functions that a path to the declaring base can come to first: those of
      classes around the virtual base, and the first one within it. */
  ghost predicate IsEntry(h: Classes, s: Sig, v: ClassId, q: Path, x: ClassId)
    requires Good(h) && DeclaringBase(h, s, v, q)
  {
    OverridesAbove(h, s, v, q, x) || x == OverriderClass(h, v, q, s)
  }

  ghost function Entries(h: Classes, s: Sig, v: ClassId, q: Path): set<Fn>
    requires Good(h) && DeclaringBase(h, s, v, q)
  {
    set x | 0 <= x < |h| && IsEntry(h, s, v, q, x) :: Fn(x, s)
  }

  /** `k` completed as the next class. */
  ghost predicate Completed(h: Classes, k: Class, offsets: map<Sub, int>)
    requires Good(h)
  {
    Definable(k, |h|) && Good(h + [k]) && Placed(h + [k], |h|, offsets)
  }

  function Seek(h: Classes, k: Class, offsets: map<Sub, int>, s: Sig, v: ClassId, q: Path): Sought {
    Sought(h + [k], |h|, offsets, s, Sub(Some(v), q))
  }

  lemma {:induction false} SeekMeaningful(h: Classes, k: Class, offsets: map<Sub, int>, s: Sig, v: ClassId, q: Path)
    requires Good(h) && DeclaringBase(h, s, v, q) && Completed(h, k, offsets)
    ensures Meaningful(Seek(h, k, offsets, s, v, q))
  {
    var so := Seek(h, k, offsets, s, v, q);
    forall p | Leads(so, p)
      ensures Declares(so.h, End(so.h, so.whole, p), s)
    {
      SubEnd(so.h, so.whole, p);
      PathsLater(h, k, v, q);
    }
  }

  /** The search in `k` ends with the overrider that strictly overrides every other one
      found along a path, or with none if there is none such. */
  ghost predicate Exact(so: Sought) {
    Meaningful(so) && WalkExact(Overriding(so.h), Visits(so))
  }

  lemma {:induction false} OverridersLater(h: Classes, k: Class, f: Fn, g: Fn)
    requires Good(h) && Good(h + [k]) && f.cls < |h|
    ensures StrictlyOverrides(h + [k], f, g) == StrictlyOverrides(h, f, g)
  {
    UniqueLater(h, k, f.cls, g.cls);
    HasUniqueIsUnique(h, f.cls, g.cls);
    HasUniqueIsUnique(h + [k], f.cls, g.cls);
  }

  lemma {:induction false} OverridingAsymmetric(h: Classes, fns: set<Fn>)
    requires Good(h)
    ensures Asymmetric(Overriding(h), fns)
  {
    forall f, g | f in fns && g in fns
      ensures !(StrictlyOverrides(h, f, g) && StrictlyOverrides(h, g, f))
    {
      if StrictlyOverrides(h, f, g) && StrictlyOverrides(h, g, f) {
        UniqueIsBelow(h, f.cls, g.cls);
        UniqueIsBelow(h, g.cls, f.cls);
        assert false;
      }
    }
  }

  lemma {:induction false} UniqueIsBelow(h: Classes, c: ClassId, t: ClassId)
    requires Good(h) && c < |h| && HasUnique(h, c, t)
    ensures t <= c
  {
    HasUniqueIsUnique(h, c, t);
    var p :| LeadsTo(h, c, p, t);
  }

  /** Whatever path leads to the declaring base, it comes to an entry first. */
  lemma {:induction false} FirstIsEntry(h: Classes, c: ClassId, p: Path, s: Sig, v: ClassId, q: Path)
    requires Good(h) && DeclaringBase(h, s, v, q) && Reaches(h, c, p, v, q) && Declares(h, End(h, c, p), s)
    ensures IsEntry(h, s, v, q, OverriderClass(h, c, p, s))
    decreases |p|
  {
    if !Declares(h, c, s) {
      var b := BaseOf(h, c, p[0]).cls;
      if SubAt(h, b, p[1..]).root.Some? {
        FirstIsEntry(h, b, p[1..], s, v, q);
      }
    }
  }

  lemma {:induction false} EntriesLater(h: Classes, k: Class, s: Sig, v: ClassId, q: Path, x: ClassId)
    requires Good(h) && DeclaringBase(h, s, v, q) && Good(h + [k]) && x < |h|
    ensures DeclaringBase(h + [k], s, v, q)
    ensures IsEntry(h + [k], s, v, q, x) == IsEntry(h, s, v, q, x)
  {
    PathsLater(h, k, v, q);
    OverriderClassLater(h, k, v, q, s);
    forall p
      ensures Reaches(h + [k], x, p, v, q) == Reaches(h, x, p, v, q)
    {
      PathsLater(h, k, x, p);
    }
    if p :| Reaches(h, x, p, v, q) {
      assert Reaches(h + [k], x, p, v, q);
    }
  }

  lemma {:induction false} OverriderClassLater(h: Classes, k: Class, c: ClassId, p: Path, s: Sig)
    requires Good(h) && Good(h + [k]) && IsPath(h, c, p) && Declares(h, End(h, c, p), s)
    ensures IsPath(h + [k], c, p) && Declares(h + [k], End(h + [k], c, p), s)
    ensures OverriderClass(h + [k], c, p, s) == OverriderClass(h, c, p, s)
    decreases |p|
  {
    PathsLater(h, k, c, p);
    if !Declares(h, c, s) {
      OverriderClassLater(h, k, BaseOf(h, c, p[0]).cls, p[1..], s);
    }
  }

  /** A visit is the overrider along some path to the declaring base. */
  lemma {:induction false} VisitHasPath(so: Sought, ps: seq<Path>, o: Overrider) returns (p: Path)
    requires Meaningful(so) && AllPaths(so, ps) && o in VisitsAlong(so, ps)
    ensures p in ps && Leads(so, p) && OverriderAlong(so, p) == o
  {
    var n := |ps| - 1;
    p := ps[n];
    if SubAt(so.h, so.whole, p) != so.declaring || o != OverriderAlong(so, p) {
      p := VisitHasPath(so, ps[..n], o);
    }
  }

  lemma {:induction false} PathIsVisited(so: Sought, ps: seq<Path>, p: Path)
    requires Meaningful(so) && AllPaths(so, ps) && p in ps && Leads(so, p)
    ensures OverriderAlong(so, p) in VisitsAlong(so, ps)
  {
    var n := |ps| - 1;
    if p != ps[n] {
      var i :| 0 <= i < |ps| && ps[i] == p;
      assert ps[..n][i] == p;
      PathIsVisited(so, ps[..n], p);
    }
  }

  lemma {:induction false} OverriderAlongIs(so: Sought, p: Path)
    requires Meaningful(so) && Leads(so, p)
    ensures OverriderAlong(so, p).fn == Fn(OverriderClass(so.h, so.whole, p, so.sig), so.sig)
  {
    OverriderClassIsFirst(so.h, so.whole, p, so.sig);
  }

  /** If the class declares the function itself, that is all there is to find. */
  lemma {:induction false} OwnOverrider(so: Sought, p: Path)
    requires Meaningful(so) && Leads(so, p) && Declares(so.h, so.whole, so.sig)
    ensures OverriderAlong(so, p) == Overrider(Fn(so.whole, so.sig), so.offsets[WHOLE])
  {
    assert p[..0] == [];
    assert SubAt(so.h, so.whole, []) == WHOLE;
  }

  lemma {:induction false} VisitIsEntry(h: Classes, k: Class, offsets: map<Sub, int>, s: Sig, v: ClassId, q: Path, p: Path)
    requires Good(h) && DeclaringBase(h, s, v, q) && Completed(h, k, offsets)
    requires var so := Seek(h, k, offsets, s, v, q);
      Meaningful(so) && Leads(so, p) && !Declares(so.h, so.whole, s)
    ensures OverriderAlong(Seek(h, k, offsets, s, v, q), p).fn in Entries(h, s, v, q)
  {
    var so := Seek(h, k, offsets, s, v, q);
    OverriderAlongIs(so, p);
    var x := OverriderClass(so.h, so.whole, p, s);
    assert x < |h|;
    EntriesLater(h, k, s, v, q, x);
    FirstIsEntry(so.h, so.whole, p, s, v, q);
    assert Fn(x, s) in Entries(h, s, v, q);
  }

  /** The functions that the search in the class can meet. */
  ghost function Met(h: Classes, k: Class, s: Sig, v: ClassId, q: Path): set<Fn>
    requires Good(h) && DeclaringBase(h, s, v, q)
  {
    if s in k.virtuals then {Fn(|h|, s)} else Entries(h, s, v, q)
  }

  lemma {:induction false} VisitsAreMet(h: Classes, k: Class, offsets: map<Sub, int>, s: Sig, v: ClassId, q: Path)
    requires Good(h) && DeclaringBase(h, s, v, q) && Completed(h, k, offsets) && Meaningful(Seek(h, k, offsets, s, v, q))
    ensures Among(Visited(Visits(Seek(h, k, offsets, s, v, q))), Met(h, k, s, v, q))
  {
    var so := Seek(h, k, offsets, s, v, q);
    PathsArePaths(so);
    forall o | o in Visited(Visits(so))
      ensures o.fn in Met(h, k, s, v, q)
    {
      var p := VisitHasPath(so, Paths(so.h, so.whole), o);
      if Declares(so.h, so.whole, s) {
        OwnOverrider(so, p);
      } else {
        VisitIsEntry(h, k, offsets, s, v, q, p);
      }
    }
  }

  lemma {:induction false} TransitiveLater(h: Classes, k: Class, s: Sig, v: ClassId, q: Path)
    requires Good(h) && DeclaringBase(h, s, v, q) && Good(h + [k]) && Transitive(Overriding(h), Entries(h, s, v, q))
    ensures Transitive(Overriding(h + [k]), Met(h, k, s, v, q))
  {
    if s in k.virtuals {
      assert Transitive(Overriding(h + [k]), {Fn(|h|, s)});
    } else {
      EntriesTransitiveLater(h, k, Entries(h, s, v, q));
    }
  }

  lemma {:induction false} EntriesTransitiveLater(h: Classes, k: Class, fns: set<Fn>)
    requires Good(h) && Good(h + [k]) && Transitive(Overriding(h), fns)
    requires forall f :: f in fns ==> f.cls < |h|
    ensures Transitive(Overriding(h + [k]), fns)
  {
    forall f, g, e | f in fns && g in fns && e in fns && StrictlyOverrides(h + [k], f, g) && StrictlyOverrides(h + [k], g, e)
      ensures StrictlyOverrides(h + [k], f, e)
    {
      ChainLater(h, k, f, g, e);
      assert Overriding(h)(f, g) && Overriding(h)(g, e);
    }
  }

  lemma {:induction false} ChainLater(h: Classes, k: Class, f: Fn, g: Fn, e: Fn)
    requires Good(h) && Good(h + [k]) && f.cls < |h| && g.cls < |h|
    ensures StrictlyOverrides(h + [k], f, g) == StrictlyOverrides(h, f, g)
    ensures StrictlyOverrides(h + [k], g, e) == StrictlyOverrides(h, g, e)
    ensures StrictlyOverrides(h + [k], f, e) == StrictlyOverrides(h, f, e)
  {
    OverridersLater(h, k, f, g);
    OverridersLater(h, k, g, e);
    OverridersLater(h, k, f, e);
  }

  /** Transitivity among the entries is enough. */
  lemma {:induction false} TransitiveIsEnough(h: Classes, k: Class, offsets: map<Sub, int>, s: Sig, v: ClassId, q: Path)
    requires Good(h) && DeclaringBase(h, s, v, q) && Completed(h, k, offsets)
    requires Transitive(Overriding(h), Entries(h, s, v, q))
    ensures Exact(Seek(h, k, offsets, s, v, q))
  {
    var so := Seek(h, k, offsets, s, v, q);
    SeekMeaningful(h, k, offsets, s, v, q);
    VisitsAreMet(h, k, offsets, s, v, q);
    OverridingAsymmetric(so.h, Met(h, k, s, v, q));
    TransitiveLater(h, k, s, v, q);
    WalkIsExact(Overriding(so.h), Met(h, k, s, v, q), Visits(so));
  }

  /** A base through which a class comes to the entry `x` first. */
  function BaseFor(h: Classes, s: Sig, v: ClassId, q: Path, x: ClassId): Base
    requires Good(h) && IsPath(h, v, q) && Declares(h, End(h, v, q), s)
  {
    if x == OverriderClass(h, v, q, s) then Base(v, true) else Base(x, false)
  }

  /** A class that declares nothing and has such a base for each of three entries. */
  function Joining(h: Classes, s: Sig, v: ClassId, q: Path, a: ClassId, b: ClassId, c: ClassId): Class
    requires Good(h) && IsPath(h, v, q) && Declares(h, End(h, v, q), s)
  {
    Class([BaseFor(h, s, v, q, a), BaseFor(h, s, v, q, b), BaseFor(h, s, v, q, c)], [])
  }

  lemma {:induction false} JoiningDefinable(h: Classes, s: Sig, v: ClassId, q: Path, a: ClassId, b: ClassId, c: ClassId)
    requires Good(h) && DeclaringBase(h, s, v, q) && a != b && b != c && a != c
    requires IsEntry(h, s, v, q, a) && IsEntry(h, s, v, q, b) && IsEntry(h, s, v, q, c)
    ensures Definable(Joining(h, s, v, q, a, b, c), |h|)
  {
    NotAboveItself(h, s, v, q);
  }

  lemma {:induction false} NotAboveItself(h: Classes, s: Sig, v: ClassId, q: Path)
    requires Good(h)
    ensures !OverridesAbove(h, s, v, q, v)
  {
    forall p
      ensures !Reaches(h, v, p, v, q)
    {
      assert IsPath(h, v, p) && SubAt(h, v, p).root.Some? ==> SubAt(h, v, p).root.value < v;
    }
  }

  function FirstIndex(subs: seq<Sub>, s: Sub): (i: nat)
    requires s in subs
    ensures i < |subs| && subs[i] == s
  {
    if subs[0] == s then 0 else 1 + FirstIndex(subs[1..], s)
  }

  /** There is always a way to place the subobjects. */
  lemma {:induction false} CanBePlaced(h: Classes, c: ClassId) returns (offsets: map<Sub, int>)
    requires Good(h) && c < |h|
    ensures Placed(h, c, offsets)
  {
    PathsAllAre(h, c);
    var ps := Paths(h, c);
    assert forall i :: 0 <= i < |ps| ==> ps[i] in ps;
    var subs := seq(|ps|, i requires 0 <= i < |ps| => SubAt(h, c, ps[i]));
    offsets := map x | x in subs :: FirstIndex(subs, x);
    forall p | IsPath(h, c, p)
      ensures SubAt(h, c, p) in subs
    {
      var i :| 0 <= i < |ps| && ps[i] == p;
      assert subs[i] == SubAt(h, c, p);
    }
  }

  /** Nothing but `o`, at least once. */
  ghost predicate Constant(vs: seq<Overrider>, o: Overrider) {
    vs != [] && forall i :: 0 <= i < |vs| ==> vs[i] == o
  }

  /** Through a base that declares the function, that is what a path comes to. */
  lemma {:induction false} ThroughDeclaring(so: Sought, i: nat, p: Path)
    requires Meaningful(so) && Leads(so, p) && p != [] && p[0] == i && !Declares(so.h, so.whole, so.sig)
    requires i < |so.h[so.whole].bases| && Declares(so.h, BaseOf(so.h, so.whole, i).cls, so.sig)
    ensures IsPath(so.h, so.whole, [i])
    ensures OverriderAlong(so, p) == Overrider(Fn(BaseOf(so.h, so.whole, i).cls, so.sig), so.offsets[SubAt(so.h, so.whole, [i])])
  {
    assert p[..1] == [i];
    assert [i][1..] == [];
    assert FirstDeclarer(so.h, so.whole, p, so.sig) == 1;
    assert End(so.h, so.whole, [i]) == End(so.h, BaseOf(so.h, so.whole, i).cls, []);
  }

  /** Into the virtual base itself there is one way to go on. */
  lemma {:induction false} ThroughVirtual(so: Sought, i: nat, p: Path)
    requires Meaningful(so) && Leads(so, p) && p != [] && p[0] == i && i < |so.h[so.whole].bases|
    requires so.declaring.root == Some(BaseOf(so.h, so.whole, i).cls)
    ensures p == [i] + so.declaring.steps
  {
    assert p == [p[0]] + p[1..];
  }

  /** A way to go on to the declaring base from the base for `x`. */
  lemma {:induction false} EntryTail(h: Classes, k: Class, s: Sig, v: ClassId, q: Path, x: ClassId) returns (tail: Path)
    requires Good(h) && DeclaringBase(h, s, v, q) && IsEntry(h, s, v, q, x) && Good(h + [k])
    ensures var b := BaseFor(h, s, v, q, x);
      && b.cls < |h| && IsPath(h + [k], b.cls, tail)
      && (b.isVirtual ==> tail == q && SubAt(h + [k], b.cls, tail).root.None?)
      && (!b.isVirtual ==> Declares(h, b.cls, s) && SubAt(h + [k], b.cls, tail) == Sub(Some(v), q))
  {
    if x == OverriderClass(h, v, q, s) {
      tail := q;
      PathsLater(h, k, v, q);
    } else {
      tail :| Reaches(h, x, tail, v, q);
      PathsLater(h, k, x, tail);
    }
  }

  lemma {:induction false} BaseLeads(h: Classes, k: Class, offsets: map<Sub, int>, s: Sig, v: ClassId, q: Path, i: nat, x: ClassId)
    returns (p: Path)
    requires Good(h) && DeclaringBase(h, s, v, q) && Completed(h, k, offsets) && IsEntry(h, s, v, q, x)
    requires i < |k.bases| && k.bases[i] == BaseFor(h, s, v, q, x)
    ensures p != [] && p[0] == i && Leads(Seek(h, k, offsets, s, v, q), p)
  {
    var so := Seek(h, k, offsets, s, v, q);
    var tail := EntryTail(h, k, s, v, q, x);
    p := [i] + tail;
    assert p[1..] == tail && BaseOf(so.h, so.whole, i) == k.bases[i];
  }

  /** All paths through the base for `x` come to the same overrider. */
  lemma {:induction false} SameOverrider(h: Classes, k: Class, offsets: map<Sub, int>, s: Sig, v: ClassId, q: Path, i: nat, x: ClassId,
                                         p: Path, p': Path)
    requires Good(h) && DeclaringBase(h, s, v, q) && Completed(h, k, offsets) && IsEntry(h, s, v, q, x) && k.virtuals == []
    requires i < |k.bases| && k.bases[i] == BaseFor(h, s, v, q, x)
    requires var so := Seek(h, k, offsets, s, v, q);
      Meaningful(so) && Leads(so, p) && Leads(so, p') && p != [] && p' != [] && p[0] == p'[0] == i
    ensures var so := Seek(h, k, offsets, s, v, q);
      OverriderAlong(so, p).fn == Fn(x, s) && OverriderAlong(so, p) == OverriderAlong(so, p')
  {
    var so := Seek(h, k, offsets, s, v, q);
    assert BaseOf(so.h, so.whole, i) == k.bases[i] && !Declares(so.h, so.whole, s);
    if x == OverriderClass(h, v, q, s) {
      ThroughVirtual(so, i, p);
      ThroughVirtual(so, i, p');
      OverriderAlongIs(so, p);
      assert p[1..] == q;
      OverriderClassLater(h, k, v, q, s);
    } else {
      ThroughDeclaring(so, i, p);
      ThroughDeclaring(so, i, p');
    }
  }

  /** One base of the joining class: every path through it comes to its entry first. */
  lemma {:induction false} OneBase(h: Classes, k: Class, offsets: map<Sub, int>, s: Sig, v: ClassId, q: Path, i: nat, x: ClassId)
    returns (o: Overrider)
    requires Good(h) && DeclaringBase(h, s, v, q) && Completed(h, k, offsets) && k.virtuals == []
    requires i < |k.bases| && k.bases[i] == BaseFor(h, s, v, q, x) && IsEntry(h, s, v, q, x)
    requires Meaningful(Seek(h, k, offsets, s, v, q)) && IsPath(h + [k], |h|, [i])
    ensures o.fn == Fn(x, s) && Constant(VisitsUnder(Seek(h, k, offsets, s, v, q), [i]), o)
  {
    var so := Seek(h, k, offsets, s, v, q);
    var b := k.bases[i].cls;
    assert BaseOf(so.h, so.whole, i) == k.bases[i];
    assert [i][1..] == [];
    assert End(so.h, so.whole, [i]) == End(so.h, b, []);
    AllUnder(so, [i]);
    var ps := Under([i], Paths(so.h, b));
    var p := BaseLeads(h, k, offsets, s, v, q, i, x);
    assert p == [i] + p[1..];
    PathsAreAll(so.h, b, p[1..]);
    var j :| 0 <= j < |Paths(so.h, b)| && Paths(so.h, b)[j] == p[1..];
    assert ps[j] == p;
    o := OverriderAlong(so, p);
    PathIsVisited(so, ps, p);
    SameOverrider(h, k, offsets, s, v, q, i, x, p, p);
    var vs := VisitsUnder(so, [i]);
    assert vs == VisitsAlong(so, ps);
    forall j | 0 <= j < |vs|
      ensures vs[j] == o
    {
      var p' := VisitHasPath(so, ps, vs[j]);
      SameOverrider(h, k, offsets, s, v, q, i, x, p, p');
    }
  }

  lemma {:induction false} RunOneMore(r: Overrides, before: seq<Overrider>, vs: seq<Overrider>)
    requires vs != []
    ensures Run(r, before + vs) == Step(r, Run(r, before + vs[..|vs| - 1]), vs[|vs| - 1])
  {
    var all := before + vs;
    assert all[..|all| - 1] == before + vs[..|vs| - 1];
  }

  /** A better overrider takes over... */
  lemma {:induction false} RunTakesOver(r: Overrides, before: seq<Overrider>, vs: seq<Overrider>, o: Overrider)
    requires Constant(vs, o)
    requires var t := Run(r, before);
      t.candidates == [] && (t.best.Some? ==> r(o.fn, t.best.value.fn) && !r(t.best.value.fn, o.fn) && !r(o.fn, o.fn))
    ensures Run(r, before + vs) == Tally(Some(o), [])
  {
    RunOneMore(r, before, vs);
    var rest := vs[..|vs| - 1];
    if rest == [] {
      assert before + rest == before;
    } else {
      RunTakesOver(r, before, rest, o);
    }
  }

  /** ... a worse one is ignored... */
  lemma {:induction false} RunIgnores(r: Overrides, before: seq<Overrider>, vs: seq<Overrider>, o: Overrider)
    requires Constant(vs, o)
    requires var t := Run(r, before); t.best.Some? && r(t.best.value.fn, o.fn)
    ensures Run(r, before + vs) == Run(r, before)
  {
    RunOneMore(r, before, vs);
    var rest := vs[..|vs| - 1];
    if rest == [] {
      assert before + rest == before;
    } else {
      RunIgnores(r, before, rest, o);
    }
  }

  /** ... and an unrelated one makes the answer ambiguous. */
  lemma {:induction false} RunAmbiguous(r: Overrides, before: seq<Overrider>, vs: seq<Overrider>, o: Overrider)
    requires Constant(vs, o) && !r(o.fn, o.fn)
    requires var t := Run(r, before);
      t.best.Some? && t.best.value.fn != o.fn && !r(t.best.value.fn, o.fn) && !r(o.fn, t.best.value.fn)
    ensures var t := Run(r, before + vs); t.best.None? && o.fn in t.candidates
  {
    RunOneMore(r, before, vs);
    var rest := vs[..|vs| - 1];
    if rest == [] {
      assert before + rest == before;
    } else {
      RunAmbiguous(r, before, rest, o);
    }
  }

  /** Of three classes whose functions the search can come to first, the second is the
      only base of its type in the first and the third in the second, but the first has
      the third twice. */
  ghost predicate BrokenChain(h: Classes, s: Sig, v: ClassId, q: Path, f: ClassId, g: ClassId, e: ClassId)
    requires Good(h) && DeclaringBase(h, s, v, q)
  {
    && IsEntry(h, s, v, q, f) && IsEntry(h, s, v, q, g) && IsEntry(h, s, v, q, e)
    && f != g && g != e && Unique(h, f, g) && Unique(h, g, e) && Ambiguous(h, f, e)
  }

  /** Then the first function overrides the second and the second the third, but the
      first not the third; and the other way about. */
  lemma {:induction false} ChainOfOverriders(h: Classes, s: Sig, v: ClassId, q: Path, f: ClassId, g: ClassId, e: ClassId)
    requires Good(h) && DeclaringBase(h, s, v, q)
    requires IsEntry(h, s, v, q, f) && IsEntry(h, s, v, q, g) && IsEntry(h, s, v, q, e)
    ensures BrokenChain(h, s, v, q, f, g, e) <==>
      StrictlyOverrides(h, Fn(f, s), Fn(g, s)) && StrictlyOverrides(h, Fn(g, s), Fn(e, s)) && !StrictlyOverrides(h, Fn(f, s), Fn(e, s))
  {
    HasUniqueIsUnique(h, f, g);
    HasUniqueIsUnique(h, g, e);
    HasUniqueIsUnique(h, f, e);
    if f != g && g != e && Unique(h, f, g) && Unique(h, g, e) {
      UniqueIsBelow(h, f, g);
      UniqueIsBelow(h, g, e);
      var p :| LeadsTo(h, f, p, g);
      var q :| LeadsTo(h, g, q, e);
      JoinPaths(h, f, p, q);
      assert LeadsTo(h, f, p + q, e);
    }
  }

  lemma {:induction false} BrokenChainFacts(h: Classes, s: Sig, v: ClassId, q: Path, f: ClassId, g: ClassId, e: ClassId)
    requires Good(h) && DeclaringBase(h, s, v, q) && BrokenChain(h, s, v, q, f, g, e)
    ensures e < g < f < |h|
    ensures StrictlyOverrides(h, Fn(f, s), Fn(g, s)) && StrictlyOverrides(h, Fn(g, s), Fn(e, s))
    ensures !StrictlyOverrides(h, Fn(f, s), Fn(e, s))
    ensures !StrictlyOverrides(h, Fn(g, s), Fn(f, s)) && !StrictlyOverrides(h, Fn(e, s), Fn(g, s))
    ensures !StrictlyOverrides(h, Fn(e, s), Fn(f, s))
  {
    ChainOfOverriders(h, s, v, q, f, g, e);
    UniqueIsBelow(h, f, g);
    UniqueIsBelow(h, g, e);
    if StrictlyOverrides(h, Fn(g, s), Fn(f, s)) {
      UniqueIsBelow(h, g, f);
    }
    if StrictlyOverrides(h, Fn(e, s), Fn(g, s)) {
      UniqueIsBelow(h, e, g);
    }
    if StrictlyOverrides(h, Fn(e, s), Fn(f, s)) {
      UniqueIsBelow(h, e, f);
    }
  }

  lemma {:induction false} NoneBelow(so: Sought)
    requires Meaningful(so)
    ensures VisitsInBases(so, [], 0) == []
    ensures so.declaring.root.Some? ==> VisitAt(so, []) == []
  {
    AllUnderBases(so, [], 0);
    assert PathsInBases(so.h, so.whole, 0) == [];
  }

  lemma {:induction false} OneMoreBase(so: Sought, i: nat)
    requires Meaningful(so) && i < |so.h[so.whole].bases|
    ensures IsPath(so.h, so.whole, [i])
    ensures VisitsInBases(so, [], i + 1) == VisitsInBases(so, [], i) + VisitsUnder(so, [i])
  {
    VisitsOfBase(so, [], i);
    assert [] + [i] == [i];
  }

  lemma {:induction false} ThreeBases(so: Sought)
    requires Meaningful(so) && |so.h[so.whole].bases| == 3 && so.declaring.root.Some?
    ensures IsPath(so.h, so.whole, [0]) && IsPath(so.h, so.whole, [1]) && IsPath(so.h, so.whole, [2])
    ensures Visits(so) == VisitsUnder(so, [0]) + VisitsUnder(so, [1]) + VisitsUnder(so, [2])
  {
    VisitsAreAll(so);
    VisitsOfAll(so, []);
    NoneBelow(so);
    OneMoreBase(so, 0);
    OneMoreBase(so, 1);
    OneMoreBase(so, 2);
    Nothing(VisitsUnder(so, [0]));
  }

  lemma {:induction false} Nothing<T>(s: seq<T>)
    ensures [] + s == s == s + []
  {
  }

  /** The visits in a joining class: its three entries, in the order of its bases. */
  lemma {:induction false} JoiningVisits(h: Classes, offsets: map<Sub, int>, s: Sig, v: ClassId, q: Path, a: ClassId, b: ClassId, c: ClassId)
    returns (va: seq<Overrider>, vb: seq<Overrider>, vc: seq<Overrider>, oa: Overrider, ob: Overrider, oc: Overrider)
    requires Good(h) && DeclaringBase(h, s, v, q)
    requires IsEntry(h, s, v, q, a) && IsEntry(h, s, v, q, b) && IsEntry(h, s, v, q, c)
    requires Completed(h, Joining(h, s, v, q, a, b, c), offsets)
    ensures var so := Seek(h, Joining(h, s, v, q, a, b, c), offsets, s, v, q);
      Meaningful(so) && Visits(so) == va + vb + vc
    ensures Constant(va, oa) && Constant(vb, ob) && Constant(vc, oc)
    ensures oa.fn == Fn(a, s) && ob.fn == Fn(b, s) && oc.fn == Fn(c, s)
  {
    var k := Joining(h, s, v, q, a, b, c);
    var so := Seek(h, k, offsets, s, v, q);
    SeekMeaningful(h, k, offsets, s, v, q);
    ThreeBases(so);
    va, vb, vc := VisitsUnder(so, [0]), VisitsUnder(so, [1]), VisitsUnder(so, [2]);
    oa := OneBase(h, k, offsets, s, v, q, 0, a);
    ob := OneBase(h, k, offsets, s, v, q, 1, b);
    oc := OneBase(h, k, offsets, s, v, q, 2, c);
  }

  /** The first function of a broken chain takes over from the second, which took over
      from the third... */
  lemma {:induction false} EndsWithFirst(r: Overrides, ve: seq<Overrider>, vg: seq<Overrider>, vf: seq<Overrider>,
                                         oe: Overrider, og: Overrider, of: Overrider)
    requires Constant(ve, oe) && Constant(vg, og) && Constant(vf, of)
    requires r(of.fn, og.fn) && r(og.fn, oe.fn) && !r(of.fn, oe.fn)
    requires !r(og.fn, of.fn) && !r(oe.fn, og.fn) && !r(og.fn, og.fn) && !r(of.fn, of.fn)
    ensures Run(r, ve + vg + vf) == Tally(Some(of), [])
    ensures !Dominates(r, Visited(ve + vg + vf), of)
  {
    var vs := ve + vg + vf;
    assert [] + ve == ve;
    RunTakesOver(r, [], ve, oe);
    RunTakesOver(r, ve, vg, og);
    RunTakesOver(r, ve + vg, vf, of);
    assert vs[0] == ve[0] == oe && oe in vs;
    assert oe in Visited(vs) && oe != of;
  }

  /** ... or, the other way round, holds on against the second but not the third. */
  lemma {:induction false} EndsAmbiguous(r: Overrides, vf: seq<Overrider>, vg: seq<Overrider>, ve: seq<Overrider>,
                                         of: Overrider, og: Overrider, oe: Overrider)
    requires Constant(ve, oe) && Constant(vg, og) && Constant(vf, of)
    requires r(of.fn, og.fn) && !r(of.fn, oe.fn) && !r(oe.fn, of.fn) && !r(oe.fn, oe.fn) && of.fn != oe.fn
    ensures Run(r, vf + vg + ve).best == None
  {
    assert [] + vf == vf;
    RunTakesOver(r, [], vf, of);
    RunIgnores(r, vf, vg, og);
    RunAmbiguous(r, vf + vg, ve, oe);
  }

  /** A broken chain can be inherited so that the search ends with a function that does
      not override all others: the overridden functions come first. */
  lemma {:induction false} WrongOverrider(h: Classes, offsets: map<Sub, int>, s: Sig, v: ClassId, q: Path, f: ClassId, g: ClassId, e: ClassId)
    requires Good(h) && DeclaringBase(h, s, v, q) && BrokenChain(h, s, v, q, f, g, e)
    requires Completed(h, Joining(h, s, v, q, e, g, f), offsets)
    ensures var so := Seek(h, Joining(h, s, v, q, e, g, f), offsets, s, v, q);
      && Meaningful(so)
      && var best := Run(Overriding(so.h), Visits(so)).best;
      && best.Some? && best.value.fn == Fn(f, s)
      && !Dominates(Overriding(so.h), Visited(Visits(so)), best.value)
  {
    var k := Joining(h, s, v, q, e, g, f);
    var so := Seek(h, k, offsets, s, v, q);
    var r := Overriding(so.h);
    BrokenChainFacts(h, s, v, q, f, g, e);
    var ve, vg, vf, oe, og, of := JoiningVisits(h, offsets, s, v, q, e, g, f);
    OverridersLater(h, k, of.fn, og.fn);
    OverridersLater(h, k, og.fn, oe.fn);
    OverridersLater(h, k, of.fn, oe.fn);
    OverridersLater(h, k, og.fn, of.fn);
    OverridersLater(h, k, oe.fn, og.fn);
    EndsWithFirst(r, ve, vg, vf, oe, og, of);
  }

  /** With the same bases the other way round the search finds it ambiguous. */
  lemma {:induction false} AmbiguousOverrider(h: Classes, offsets: map<Sub, int>, s: Sig, v: ClassId, q: Path, f: ClassId, g: ClassId, e: ClassId)
    requires Good(h) && DeclaringBase(h, s, v, q) && BrokenChain(h, s, v, q, f, g, e)
    requires Completed(h, Joining(h, s, v, q, f, g, e), offsets)
    ensures var so := Seek(h, Joining(h, s, v, q, f, g, e), offsets, s, v, q);
      Meaningful(so) && Run(Overriding(so.h), Visits(so)).best.None?
  {
    var k := Joining(h, s, v, q, f, g, e);
    var so := Seek(h, k, offsets, s, v, q);
    var r := Overriding(so.h);
    BrokenChainFacts(h, s, v, q, f, g, e);
    var vf, vg, ve, of, og, oe := JoiningVisits(h, offsets, s, v, q, f, g, e);
    OverridersLater(h, k, of.fn, og.fn);
    OverridersLater(h, k, of.fn, oe.fn);
    OverridersLater(h, k, oe.fn, of.fn);
    EndsAmbiguous(r, vf, vg, ve, of, og, oe);
  }

  lemma {:induction false} BrokenChainBreaks(h: Classes, s: Sig, v: ClassId, q: Path, f: ClassId, g: ClassId, e: ClassId)
    returns (k: Class, offsets: map<Sub, int>)
    requires Good(h) && DeclaringBase(h, s, v, q) && BrokenChain(h, s, v, q, f, g, e)
    ensures Completed(h, k, offsets) && !Exact(Seek(h, k, offsets, s, v, q))
  {
    k := Joining(h, s, v, q, e, g, f);
    BrokenChainFacts(h, s, v, q, f, g, e);
    JoiningDefinable(h, s, v, q, e, g, f);
    GoodLater(h, k);
    offsets := CanBePlaced(h + [k], |h|);
    WrongOverrider(h, offsets, s, v, q, f, g, e);
    var so := Seek(h, k, offsets, s, v, q);
    assert !WalkExact(Overriding(so.h), Visits(so)) by {
      var o := Run(Overriding(so.h), Visits(so)).best.value;
      assert !Dominates(Overriding(so.h), Visited(Visits(so)), o);
    }
  }

  /** The search is right in every class that can still be declared if and only if
      there is no broken chain around the declaring base. */
  lemma {:induction false} ExactIffNoBrokenChain(h: Classes, s: Sig, v: ClassId, q: Path)
    requires Good(h) && DeclaringBase(h, s, v, q)
    ensures
      (forall k, offsets {:trigger Completed(h, k, offsets)} :: Completed(h, k, offsets) ==> Exact(Seek(h, k, offsets, s, v, q)))
      <==>
      (forall f, g, e {:trigger BrokenChain(h, s, v, q, f, g, e)} :: !BrokenChain(h, s, v, q, f, g, e))
  {
    if f, g, e :| BrokenChain(h, s, v, q, f, g, e) {
      var k, offsets := BrokenChainBreaks(h, s, v, q, f, g, e);
      assert Completed(h, k, offsets) && !Exact(Seek(h, k, offsets, s, v, q));
    } else {
      var fns := Entries(h, s, v, q);
      forall f, g, e | f in fns && g in fns && e in fns && Overriding(h)(f, g) && Overriding(h)(g, e)
        ensures Overriding(h)(f, e)
      {
        ChainOfOverriders(h, s, v, q, f.cls, g.cls, e.cls);
        assert !BrokenChain(h, s, v, q, f.cls, g.cls, e.cls);
      }
      forall k, offsets | Completed(h, k, offsets)
        ensures Exact(Seek(h, k, offsets, s, v, q))
      {
        TransitiveIsEnough(h, k, offsets, s, v, q);
      }
    }
  }

  /** A base that is not within a virtual base is reached along one path only, and its
      overrider is always found. */
  lemma {:induction false} NonVirtualIsExact(so: Sought)
    requires Meaningful(so) && so.declaring.root.None?
    ensures Exact(so)
  {
    var vs := Visits(so);
    PathsArePaths(so);
    var fns := set o | o in vs :: o.fn;
    forall i, j | 0 <= i < |vs| && 0 <= j < |vs|
      ensures vs[i] == vs[j]
    {
      var p := VisitHasPath(so, Paths(so.h, so.whole), vs[i]);
      var p' := VisitHasPath(so, Paths(so.h, so.whole), vs[j]);
      assert p == so.declaring.steps == p';
    }
    OverridingAsymmetric(so.h, fns);
    WalkIsExact(Overriding(so.h), fns, vs);
  }

  /** struct V { virtual f }; struct H: virtual V { f }; struct G: H { f };
      struct X: H {}; struct F: G, X { f }. */
  const EXAMPLE: Classes := [
    Class([], [0]),
    Class([Base(0, true)], [0]),
    Class([Base(1, false)], [0]),
    Class([Base(1, false)], []),
    Class([Base(2, false), Base(3, false)], [0])]

  lemma {:induction false} ExampleGood()
    ensures Good(EXAMPLE) && DeclaringBase(EXAMPLE, 0, 0, [])
  {
  }

  lemma {:induction false} ExampleEntries()
    requires Good(EXAMPLE)
    ensures OverridesAbove(EXAMPLE, 0, 0, [], 1) && OverridesAbove(EXAMPLE, 0, 0, [], 2) && OverridesAbove(EXAMPLE, 0, 0, [], 4)
  {
    var h := EXAMPLE;
    assert [0][1..] == [] && [0, 0][1..] == [0] && [0, 0, 0][1..] == [0, 0];
    assert BaseOf(h, 1, 0) == Base(0, true) && BaseOf(h, 2, 0) == Base(1, false) && BaseOf(h, 4, 0) == Base(2, false);
    assert SubAt(h, 0, []) == WHOLE;
    assert Reaches(h, 1, [0], 0, []);
    assert Reaches(h, 2, [0, 0], 0, []);
    assert Reaches(h, 4, [0, 0, 0], 0, []);
  }

  lemma {:induction false} NotBelowX(p: Path)
    requires Good(EXAMPLE)
    ensures !LeadsTo(EXAMPLE, 3, p, 2)
  {
    assert BaseOf(EXAMPLE, 3, 0) == Base(1, false);
    if IsPath(EXAMPLE, 3, p) && p != [] {
      assert End(EXAMPLE, 3, p) == End(EXAMPLE, 1, p[1..]);
    }
  }

  lemma {:induction false} OnlyOneH()
    requires Good(EXAMPLE)
    ensures Unique(EXAMPLE, 2, 1)
  {
    assert [0][1..] == [] && BaseOf(EXAMPLE, 2, 0) == Base(1, false);
    assert LeadsTo(EXAMPLE, 2, [0], 1);
    forall p | LeadsTo(EXAMPLE, 2, p, 1)
      ensures p == [0]
    {
      assert p == [p[0]] + p[1..];
    }
  }

  lemma {:induction false} OnlyOneG()
    requires Good(EXAMPLE)
    ensures Unique(EXAMPLE, 4, 2)
  {
    assert [0][1..] == [] && BaseOf(EXAMPLE, 4, 0) == Base(2, false) && BaseOf(EXAMPLE, 4, 1) == Base(3, false);
    assert LeadsTo(EXAMPLE, 4, [0], 2);
    forall p | LeadsTo(EXAMPLE, 4, p, 2)
      ensures p == [0]
    {
      assert p == [p[0]] + p[1..];
      NotBelowX(p[1..]);
    }
  }

  lemma {:induction false} ExampleTwice()
    requires Good(EXAMPLE)
    ensures Ambiguous(EXAMPLE, 4, 1)
  {
    var h := EXAMPLE;
    assert [0][1..] == [] && [0, 0][1..] == [0] && [1, 0][1..] == [0];
    assert BaseOf(h, 2, 0) == BaseOf(h, 3, 0) == Base(1, false);
    assert BaseOf(h, 4, 0) == Base(2, false) && BaseOf(h, 4, 1) == Base(3, false);
    assert SubAt(h, 2, [0]) == SubAt(h, 3, [0]) == Sub(None, [0]);
    assert LeadsTo(h, 4, [0, 0], 1) && LeadsTo(h, 4, [1, 0], 1);
  }

  lemma {:induction false} ExampleBroken()
    requires Good(EXAMPLE) && DeclaringBase(EXAMPLE, 0, 0, [])
    ensures BrokenChain(EXAMPLE, 0, 0, [], 4, 2, 1)
  {
    ExampleEntries();
    OnlyOneH();
    OnlyOneG();
    ExampleTwice();
  }

  /** struct T: H, G, F {}, and the same bases the other way round. */
  const HGF := Class([Base(1, false), Base(2, false), Base(4, false)], [])
  const FGH := Class([Base(4, false), Base(2, false), Base(1, false)], [])

  lemma {:induction false} ExampleJoining()
    requires Good(EXAMPLE) && DeclaringBase(EXAMPLE, 0, 0, [])
    ensures Joining(EXAMPLE, 0, 0, [], 1, 2, 4) == HGF && Joining(EXAMPLE, 0, 0, [], 4, 2, 1) == FGH
  {
    assert OverriderClass(EXAMPLE, 0, [], 0) == 0;
  }

  /** The order of the bases decides: with one the search accepts F::f, which does not
      override the f of the base H... */
  lemma {:induction false} AcceptedInOneOrder(offsets: map<Sub, int>)
    requires Good(EXAMPLE) && Completed(EXAMPLE, HGF, offsets)
    ensures var so := Seek(EXAMPLE, HGF, offsets, 0, 0, []);
      && Meaningful(so)
      && var best := Run(Overriding(so.h), Visits(so)).best;
      && best.Some? && best.value.fn == Fn(4, 0)
      && !Dominates(Overriding(so.h), Visited(Visits(so)), best.value)
  {
    ExampleGood();
    ExampleBroken();
    ExampleJoining();
    WrongOverrider(EXAMPLE, offsets, 0, 0, [], 4, 2, 1);
  }

  /** ... with the other it reports an ambiguity. */
  lemma {:induction false} AmbiguousInTheOther(offsets: map<Sub, int>)
    requires Good(EXAMPLE) && Completed(EXAMPLE, FGH, offsets)
    ensures var so := Seek(EXAMPLE, FGH, offsets, 0, 0, []);
      Meaningful(so) && Run(Overriding(so.h), Visits(so)).best.None?
  {
    ExampleGood();
    ExampleBroken();
    ExampleJoining();
    AmbiguousOverrider(EXAMPLE, offsets, 0, 0, [], 4, 2, 1);
  }
}
