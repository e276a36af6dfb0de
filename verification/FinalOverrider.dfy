/** Finding the final overrider of a virtual function: what `find_final_overrider`
    keeps while it walks over the paths to the base that declares the function,
    and what the answer means. */
module FinalOverrider {
  import opened Hierarchy

  /** An overriding function and the offset of the base it appears in. */
  datatype Overrider = Overrider(fn: Fn, offset: int)

  /** `strictly_overrides`: the first function's class has the second one's as a
      proper base. */
  type Overrides = (Fn, Fn) -> bool

  /** The best overrider so far, or the functions among which it is ambiguous. */
  datatype Tally = Tally(best: Option<Overrider>, candidates: seq<Fn>)

  /** One visit, in terms of the tally alone. */
  function Step(r: Overrides, t: Tally, o: Overrider): Tally {
    match t.best
    case None =>
      if t.candidates == [] then Tally(Some(o), [])
      else if exists c :: c in t.candidates && r(c, o.fn) then t
      else if forall c :: c in t.candidates ==> r(o.fn, c) then Tally(Some(o), [])
      else Tally(None, [o.fn] + t.candidates)
    case Some(b) =>
      if b == o || r(b.fn, o.fn) then t
      else if r(o.fn, b.fn) then Tally(Some(o), t.candidates)
      else if o.fn == b.fn then Tally(None, [b.fn])
      else Tally(None, [o.fn, b.fn])
  }

  function Run(r: Overrides, visits: seq<Overrider>): Tally {
    if visits == [] then Tally(None, [])
    else Step(r, Run(r, visits[..|visits| - 1]), visits[|visits| - 1])
  }

  /** `find_final_overrider_data` and its visitor. */
  class FinalOverriderData {
    var overriding: Option<Overrider>
    var candidates: seq<Fn>
    ghost var visits: seq<Overrider>

    ghost predicate Valid(r: Overrides)
      reads this
    {
      Tally(overriding, candidates) == Run(r, visits)
    }

    constructor ()
      ensures overriding == None && candidates == [] && visits == []
    {
      overriding, candidates, visits := None, [], [];
    }

    /** `dfs_find_final_overrider`, once a path to the declaring base and the
        overrider `o` along it are found. */
    method Visit(r: Overrides, o: Overrider)
      requires Valid(r)
      modifies this
      ensures Valid(r) && visits == old(visits) + [o]
    {
      ghost var t := Tally(overriding, candidates);
      visits := visits + [o];
      assert visits[..|visits| - 1] == old(visits);
      if overriding.None? && candidates == [] {
        overriding := Some(o);
      } else if overriding.Some? {
        var b := overriding.value;
        if b == o || r(b.fn, o.fn) {
        } else if r(o.fn, b.fn) {
          overriding := Some(o);
        } else {
          candidates := [b.fn];
          if o.fn != b.fn {
            candidates := [o.fn] + candidates;
          }
          overriding := None;
        }
      } else {
        var incomparable := false;
        for i := 0 to |candidates|
          invariant forall j :: 0 <= j < i ==> !r(candidates[j], o.fn)
          invariant incomparable <==> exists j :: 0 <= j < i && !r(o.fn, candidates[j])
        {
          if r(candidates[i], o.fn) {
            return;
          }
          if !r(o.fn, candidates[i]) {
            incomparable := true;
          }
        }
        if !incomparable {
          overriding := Some(o);
          candidates := [];
        } else {
          candidates := [o.fn] + candidates;
        }
      }
    }
  }

  function Visited(visits: seq<Overrider>): set<Overrider> {
    set o | o in visits
  }

  /** `o` was visited and strictly overrides everything else visited. */
  ghost predicate Dominates(r: Overrides, seen: set<Overrider>, o: Overrider) {
    o in seen && forall q :: q in seen && q != o ==> r(o.fn, q.fn)
  }

  /** The overrides relation is irreflexive and never holds both ways. */
  ghost predicate Asymmetric(r: Overrides, fns: set<Fn>) {
    forall f, g :: f in fns && g in fns ==> !(r(f, g) && r(g, f))
  }

  ghost predicate Transitive(r: Overrides, fns: set<Fn>) {
    forall f, g, h :: f in fns && g in fns && h in fns && r(f, g) && r(g, h) ==> r(f, h)
  }

  ghost predicate Among(seen: set<Overrider>, fns: set<Fn>) {
    forall o :: o in seen ==> o.fn in fns
  }

  /** `c` is the function of something visited. */
  ghost predicate Known(seen: set<Overrider>, c: Fn) {
    exists q :: q in seen && q.fn == c
  }

  /** Some candidate is, or overrides, the function of `q`. */
  ghost predicate Covered(r: Overrides, candidates: seq<Fn>, q: Overrider) {
    exists c :: c in candidates && (c == q.fn || r(c, q.fn))
  }

  /** What the tally means: the best overrider dominates, and while there is none
      the candidates cover everything visited. */
  ghost predicate Sound(r: Overrides, seen: set<Overrider>, t: Tally) {
    match t.best
    case Some(b) => t.candidates == [] && Dominates(r, seen, b)
    case None =>
      && (t.candidates == [] ==> seen == {})
      && (forall o {:trigger Dominates(r, seen, o)} :: !Dominates(r, seen, o))
      && (forall c {:trigger Known(seen, c)} :: c in t.candidates ==> Known(seen, c))
      && (forall q {:trigger Covered(r, t.candidates, q)} :: q in seen ==> Covered(r, t.candidates, q))
  }

  lemma {:induction false} StepSound(r: Overrides, fns: set<Fn>, seen: set<Overrider>, t: Tally, o: Overrider)
    requires Asymmetric(r, fns) && Transitive(r, fns) && Among(seen + {o}, fns)
    requires Sound(r, seen, t)
    ensures Sound(r, seen + {o}, Step(r, t, o))
  {
    match t.best
    case Some(b) =>
      StepFromBest(r, fns, seen, t, o);
    case None =>
      if t.candidates != [] {
        StepFromCandidates(r, fns, seen, t, o);
      }
  }

  lemma {:induction false} StepFromBest(r: Overrides, fns: set<Fn>, seen: set<Overrider>, t: Tally, o: Overrider)
    requires Asymmetric(r, fns) && Transitive(r, fns) && Among(seen + {o}, fns)
    requires Sound(r, seen, t) && t.best.Some?
    ensures Sound(r, seen + {o}, Step(r, t, o))
  {
    var more, b := seen + {o}, t.best.value;
    assert o in more && b in more;
    if b == o || r(b.fn, o.fn) {
      assert Dominates(r, more, b);
    } else if r(o.fn, b.fn) {
      assert Dominates(r, more, o);
    } else {
      forall q
        ensures !Dominates(r, more, q)
      {
        if q in more && q != b && q != o {
          assert r(b.fn, q.fn);
        }
      }
      var cs := Step(r, t, o).candidates;
      assert b.fn in cs && o.fn in cs;
      assert Known(more, b.fn) && Known(more, o.fn);
    }
  }

  /** A new overrider that does not beat every candidate leaves no winner. */
  lemma {:induction false} StillAmbiguous(r: Overrides, fns: set<Fn>, seen: set<Overrider>, t: Tally, o: Overrider, c: Fn)
    requires Asymmetric(r, fns) && Among(seen + {o}, fns)
    requires Sound(r, seen, t) && t.best.None? && c in t.candidates && !(r(o.fn, c) && !r(c, o.fn))
    ensures forall q :: !Dominates(r, seen + {o}, q)
  {
    assert Known(seen, c);
    var qc :| qc in seen && qc.fn == c;
    forall q
      ensures !Dominates(r, seen + {o}, q)
    {
      if q in seen {
        assert !Dominates(r, seen, q);
      } else if q == o {
        assert qc in seen + {o} && qc != o && o in seen + {o};
      }
    }
  }

  lemma {:induction false} StepFromCandidates(r: Overrides, fns: set<Fn>, seen: set<Overrider>, t: Tally, o: Overrider)
    requires Asymmetric(r, fns) && Transitive(r, fns) && Among(seen + {o}, fns)
    requires Sound(r, seen, t) && t.best.None? && t.candidates != []
    ensures Sound(r, seen + {o}, Step(r, t, o))
  {
    var more := seen + {o};
    var cs := Step(r, t, o).candidates;
    if c :| c in t.candidates && r(c, o.fn) {
      assert Known(seen, c);
      assert o in more && c in fns;
      StillAmbiguous(r, fns, seen, t, o, c);
      assert Covered(r, cs, o);
    } else if c :| c in t.candidates && !r(o.fn, c) {
      StillAmbiguous(r, fns, seen, t, o, c);
      assert cs[0] == o.fn && forall d :: d in cs <==> d == o.fn || d in t.candidates;
      assert Known(more, o.fn) && Covered(r, cs, o);
      forall q | q in seen
        ensures Covered(r, cs, q)
      {
        assert Covered(r, t.candidates, q);
      }
      CandidatesStayKnown(seen, o, t.candidates);
    } else {
      forall q | q in more && q != o
        ensures r(o.fn, q.fn)
      {
        assert Covered(r, t.candidates, q);
        var c :| c in t.candidates && (c == q.fn || r(c, q.fn));
        assert Known(seen, c);
        assert r(o.fn, c) && o in more;
      }
    }
    if exists c :: c in t.candidates && r(c, o.fn) {
      CandidatesStayKnown(seen, o, t.candidates);
      forall q | q in seen
        ensures Covered(r, cs, q)
      {
        assert Covered(r, t.candidates, q);
      }
    }
  }

  lemma {:induction false} CandidatesStayKnown(seen: set<Overrider>, o: Overrider, candidates: seq<Fn>)
    requires forall c :: c in candidates ==> Known(seen, c)
    ensures forall c :: c in candidates ==> Known(seen + {o}, c)
  {
    forall c | c in candidates
      ensures Known(seen + {o}, c)
    {
      assert Known(seen, c);
      var q :| q in seen && q.fn == c;
      assert q in seen + {o};
    }
  }

  lemma {:induction false} RunSound(r: Overrides, fns: set<Fn>, visits: seq<Overrider>)
    requires Asymmetric(r, fns) && Transitive(r, fns) && Among(Visited(visits), fns)
    ensures Sound(r, Visited(visits), Run(r, visits))
  {
    if visits == [] {
      assert Visited(visits) == {};
    } else {
      var n := |visits| - 1;
      assert visits == visits[..n] + [visits[n]];
      assert Visited(visits) == Visited(visits[..n]) + {visits[n]};
      RunSound(r, fns, visits[..n]);
      StepSound(r, fns, Visited(visits[..n]), Run(r, visits[..n]), visits[n]);
    }
  }

  /** The walk ends with `o` exactly when `o` strictly overrides every other
      overrider visited, and otherwise reports an ambiguity. */
  ghost predicate WalkExact(r: Overrides, visits: seq<Overrider>) {
    forall o :: Run(r, visits).best == Some(o) <==> Dominates(r, Visited(visits), o)
  }

  lemma {:induction false} WalkIsExact(r: Overrides, fns: set<Fn>, visits: seq<Overrider>)
    requires Asymmetric(r, fns) && Transitive(r, fns) && Among(Visited(visits), fns)
    ensures WalkExact(r, visits)
  {
    RunSound(r, fns, visits);
    forall o | Dominates(r, Visited(visits), o)
      ensures Run(r, visits).best == Some(o)
    {
      var b := Run(r, visits).best;
      if b.Some? && b.value != o {
        assert false;
      }
    }
  }

  /** The answer depends on what was visited, not on the order of the visits. */
  lemma {:induction false} WalkOrderIrrelevant(r: Overrides, fns: set<Fn>, visits: seq<Overrider>, visits': seq<Overrider>)
    requires Asymmetric(r, fns) && Transitive(r, fns) && Among(Visited(visits), fns)
    requires forall o :: o in visits <==> o in visits'
    ensures Run(r, visits).best == Run(r, visits').best
  {
    WalkIsExact(r, fns, visits);
    WalkIsExact(r, fns, visits');
    forall o
      ensures Run(r, visits).best == Some(o) <==> Run(r, visits').best == Some(o)
    {
      assert Dominates(r, Visited(visits), o) <==> Dominates(r, Visited(visits'), o);
    }
  }

  /** Transitivity is exactly what the walk needs: without it, visiting the three
      functions of a broken chain bottom up gives a wrong answer. */
  lemma {:induction false} ExactIffTransitive(r: Overrides, fns: set<Fn>)
    requires Asymmetric(r, fns)
    ensures (forall visits :: Among(Visited(visits), fns) ==> WalkExact(r, visits)) <==> Transitive(r, fns)
  {
    if Transitive(r, fns) {
      forall visits | Among(Visited(visits), fns)
        ensures WalkExact(r, visits)
      {
        WalkIsExact(r, fns, visits);
      }
    } else {
      var f, g, h :| f in fns && g in fns && h in fns && r(f, g) && r(g, h) && !r(f, h);
      var visits := [Overrider(h, 0), Overrider(g, 0), Overrider(f, 0)];
      assert visits[..2][..1] == visits[..1] && visits[..1][..0] == [];
      assert Run(r, visits[..1]) == Tally(Some(Overrider(h, 0)), []);
      assert Run(r, visits[..2]) == Tally(Some(Overrider(g, 0)), []);
      assert Run(r, visits).best == Some(Overrider(f, 0));
      assert visits[0] == Overrider(h, 0) && visits[0] in visits && visits[0] != Overrider(f, 0);
      assert !Dominates(r, Visited(visits), Overrider(f, 0));
      assert Among(Visited(visits), fns) && !WalkExact(r, visits);
    }
  }
}
