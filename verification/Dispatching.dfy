/** How a virtual function is called: through which class, and by which index of its
    table (DECL_VIRTUAL_CONTEXT and DECL_VINDEX). */
module Dispatching {
  import opened Hierarchy
  import opened VtableRules

  datatype Dispatch = Dispatch(vindex: nat, context: ClassId)

  /** A function without its own way to be called gets that of the function it
      overrides. */
  function Through(d: map<Fn, Dispatch>, fn: Fn, base: Fn): map<Fn, Dispatch> {
    if fn !in d && base in d then d[fn := d[base]] else d
  }

  /** Functions that are new in `c` are called through `c` itself, with consecutive
      indices from `vsize` on; nothing else has changed. */
  ghost predicate Renewed(before: map<Fn, Dispatch>, now: map<Fn, Dispatch>, c: ClassId, added: seq<Sig>, vsize: nat) {
    forall f: Fn {:trigger RenewedAt(before, now, c, added, vsize, f)} :: RenewedAt(before, now, c, added, vsize, f)
  }

  ghost predicate RenewedAt(before: map<Fn, Dispatch>, now: map<Fn, Dispatch>, c: ClassId, added: seq<Sig>, vsize: nat, f: Fn) {
    if f.cls == c && f.sig in added
    then f in now && now[f].context == c && vsize <= now[f].vindex < vsize + |added| && added[now[f].vindex - vsize] == f.sig
    else (f in now <==> f in before) && (f in before ==> now[f] == before[f])
  }

  lemma {:induction false} NothingRenewed(d: map<Fn, Dispatch>, c: ClassId, vsize: nat)
    ensures Renewed(d, d, c, [], vsize)
  {
  }

  lemma {:induction false} OneMoreRenewed(before: map<Fn, Dispatch>, now: map<Fn, Dispatch>, c: ClassId, added: seq<Sig>, vsize: nat, s: Sig)
    requires Renewed(before, now, c, added, vsize)
    ensures Renewed(before, now[Fn(c, s) := Dispatch(vsize + |added|, c)], c, added + [s], vsize)
  {
    var (now', added') := (now[Fn(c, s) := Dispatch(vsize + |added|, c)], added + [s]);
    forall f: Fn
      ensures RenewedAt(before, now', c, added', vsize, f)
    {
      assert RenewedAt(before, now, c, added, vsize, f);
    }
  }

  /** The declarations of virtual functions, which are shared by all classes. */
  class Functions {
    var dispatch: map<Fn, Dispatch>

    constructor ()
      ensures dispatch == map[]
    {
      dispatch := map[];
    }

    /** The end of `modify_vtable_entry`. */
    method CallThrough(fn: Fn, base: Fn)
      modifies this
      ensures dispatch == Through(old(dispatch), fn, base)
    {
      if fn !in dispatch && base in dispatch {
        dispatch := dispatch[fn := dispatch[base]];
      }
    }

    /** `set_vindex`, and the class that the function is new in. */
    method SetVindex(fn: Fn, vindex: nat)
      modifies this
      ensures dispatch == old(dispatch)[fn := Dispatch(vindex, fn.cls)]
    {
      dispatch := dispatch[fn := Dispatch(vindex, fn.cls)];
    }
  }

  predicate LeadsTo(w: World, c: ClassId, p: Path, b: ClassId)
    requires Ordered(w)
  {
    ValidPath(w, c, p) && TypeAt(w, c, p) == b
  }

  /** `b` is `c` or a base of it. */
  ghost predicate HasBase(w: World, c: ClassId, b: ClassId)
    requires Ordered(w)
  {
    exists p :: LeadsTo(w, c, p, b)
  }

  lemma {:induction false} HasItself(w: World, c: ClassId)
    requires Ordered(w) && c < |w|
    ensures HasBase(w, c, c)
  {
    assert LeadsTo(w, c, [], c);
  }

  lemma {:induction false} HasBaseOfBase(w: World, c: ClassId, b: ClassId, a: ClassId)
    requires Ordered(w) && HasBase(w, c, b) && HasBase(w, b, a)
    ensures HasBase(w, c, a) && a <= b <= c
  {
    var p :| LeadsTo(w, c, p, b);
    var q :| LeadsTo(w, b, q, a);
    PathConcat(w, c, p, q);
    assert LeadsTo(w, c, p + q, a);
  }

  /** A function that is declared. */
  predicate Known(w: World, f: Fn) {
    f.cls < |w| && Declares(w, f.cls, f.sig)
  }

  /** The context is a base that has the function in the slot of that index. */
  ghost predicate Reaches(w: World, f: Fn, d: Dispatch)
    requires Ordered(w)
  {
    && d.context < |w| && HasBase(w, f.cls, d.context)
    && d.vindex < |Sigs(w, d.context)| && Sigs(w, d.context)[d.vindex] == f.sig
  }

  /** The functions of the first `n` classes can be called; those of class `n`, which
      is being completed, perhaps through a base. */
  ghost predicate Callable(w: World, n: nat, d: map<Fn, Dispatch>)
    requires Ordered(w) && n <= |w|
  {
    forall f: Fn {:trigger CallableAt(w, n, d, f)} :: CallableAt(w, n, d, f)
  }

  /** No conversion is needed exactly if the primary base does not have the function. */
  ghost predicate CallableAt(w: World, n: nat, d: map<Fn, Dispatch>, f: Fn)
    requires Ordered(w) && n <= |w|
  {
    && (f in d ==> f.cls <= n && Known(w, f) && Reaches(w, f, d[f]))
    && (Known(w, f) && f.cls < n ==> f in d && (d[f].context == f.cls <==> f.sig !in Inherited(w, f.cls)))
    && (f in d && f.cls == n ==> d[f].context < n)
  }

  /** A function that a base has brought along. */
  ghost predicate FromBase(w: World, c: ClassId, f: Fn)
    requires Ordered(w)
  {
    f.cls < c && Known(w, f) && HasBase(w, c, f.cls)
  }

  /** Functions keep the way in which they are called. */
  ghost predicate StillCalled(before: map<Fn, Dispatch>, d: map<Fn, Dispatch>) {
    forall f: Fn {:trigger f in d} :: f in before ==> f in d && d[f] == before[f]
  }

  /** While class `c` is being completed: what was settled before stays. */
  ghost predicate Underway(w: World, c: ClassId, settled: map<Fn, Dispatch>, d: map<Fn, Dispatch>)
    requires Ordered(w) && c < |w|
  {
    Callable(w, c, d) && StillCalled(settled, d)
  }

  /** Overriding a function of a base makes the overrider callable, if it was not. */
  lemma {:induction false} OverriderCallable(w: World, c: ClassId, settled: map<Fn, Dispatch>, d: map<Fn, Dispatch>, fn: Fn, base: Fn)
    requires Ordered(w) && c < |w| && Underway(w, c, settled, d) && FromBase(w, c, base) && fn.sig == base.sig && Known(w, fn) && fn.cls <= c
    ensures Underway(w, c, settled, Through(d, fn, base)) && fn in Through(d, fn, base)
  {
    assert CallableAt(w, c, d, base) && CallableAt(w, c, d, fn);
    HasBaseOfBase(w, c, base.cls, d[base].context);
    forall f: Fn
      ensures CallableAt(w, c, Through(d, fn, base), f)
    {
      assert CallableAt(w, c, d, f);
    }
  }

  /** The functions of `c` that its primary base has can be called. */
  ghost predicate InheritedCallable(w: World, c: ClassId, d: map<Fn, Dispatch>)
    requires Ordered(w) && c < |w|
  {
    forall s {:trigger Fn(c, s)} :: s in Inherited(w, c) && Declares(w, c, s) ==> Fn(c, s) in d
  }

  ghost predicate OfOthers(d: map<Fn, Dispatch>, c: ClassId) {
    forall f: Fn {:trigger f in d} :: f in d ==> f.cls != c
  }

  /** With the new functions called through the class itself, all its functions can be
      called. */
  lemma {:induction false} NewCallable(w: World, c: ClassId, settled: map<Fn, Dispatch>, d: map<Fn, Dispatch>, d': map<Fn, Dispatch>)
    requires Ordered(w) && c < |w| && Underway(w, c, settled, d) && InheritedCallable(w, c, d) && OfOthers(settled, c)
    requires Renewed(d, d', c, NewSigs(Inherited(w, c), w[c].decl.virtuals), |Inherited(w, c)|)
    ensures Callable(w, c + 1, d') && StillCalled(settled, d')
  {
    var (added, vsize, n) := (NewSigs(Inherited(w, c), w[c].decl.virtuals), |Inherited(w, c)|, c + 1);
    forall f: Fn
      ensures CallableAt(w, n, d', f)
    {
      assert CallableAt(w, c, d, f) && RenewedAt(d, d', c, added, vsize, f);
      if f.cls == c {
        NewCallableAt(w, c, d, d', f);
      }
    }
    forall f: Fn | f in settled
      ensures f in d' && d'[f] == settled[f]
    {
      assert f in d && RenewedAt(d, d', c, added, vsize, f);
    }
  }

  lemma {:induction false} NewCallableAt(w: World, c: ClassId, d: map<Fn, Dispatch>, d': map<Fn, Dispatch>, f: Fn)
    requires Ordered(w) && c < |w| && CallableAt(w, c, d, f) && InheritedCallable(w, c, d) && f.cls == c
    requires RenewedAt(d, d', c, NewSigs(Inherited(w, c), w[c].decl.virtuals), |Inherited(w, c)|, f)
    ensures CallableAt(w, c + 1, d', f)
  {
    var added := NewSigs(Inherited(w, c), w[c].decl.virtuals);
    if f.sig in added {
      HasItself(w, c);
      assert Sigs(w, c) == Inherited(w, c) + added;
    } else if f.sig in Inherited(w, c) && Known(w, f) {
      assert f == Fn(c, f.sig);
    }
  }

  /** Declaring one more class changes nothing for the others. */
  lemma {:induction false} StaysCallable(w: World, info: ClassInfo, d: map<Fn, Dispatch>)
    requires Ordered(w) && Ordered(w + [info]) && Callable(w, |w|, d)
    ensures Underway(w + [info], |w|, d, d) && OfOthers(d, |w|)
  {
    forall f: Fn | f in d
      ensures f.cls != |w|
    {
      assert CallableAt(w, |w|, d, f);
    }
    forall f: Fn
      ensures CallableAt(w + [info], |w|, d, f)
    {
      assert CallableAt(w, |w|, d, f);
      CallableStable(w, info, d, f);
    }
  }

  lemma {:induction false} CallableStable(w: World, info: ClassInfo, d: map<Fn, Dispatch>, f: Fn)
    requires Ordered(w) && Ordered(w + [info]) && CallableAt(w, |w|, d, f)
    ensures CallableAt(w + [info], |w|, d, f)
  {
    var w' := w + [info];
    assert w'[..|w|] == w;
    if f.cls < |w| {
      assert w'[f.cls] == w[f.cls];
      if w[f.cls].primary.Some? {
        SigsStable(w, w', w[f.cls].decl.bases[w[f.cls].primary.value]);
      }
      if f in d {
        SigsStable(w, w', d[f].context);
        var p :| LeadsTo(w, f.cls, p, d[f].context);
        PathsStable(w, w', f.cls, p);
        assert LeadsTo(w', f.cls, p, d[f].context);
      }
    }
  }
}
