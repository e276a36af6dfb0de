/** Picking the best candidate: `tourney` walks over the list once, knocking out
    candidates, then checks the champion against those it has not met, except for
    its predecessor when it beat the champion that had knocked that one out. */
module Tourney {
  import opened Hierarchy
  import opened Candidates

  /** `joust`: 1 if the first candidate is better, -1 if the second one is, else 0. */
  type Joust<!T> = (T, T) -> int

  /** The first loop, from champion `c` and challenger `k`: the last champion and
      whether it was compared to a predecessor, or None if it runs out. */
  function Walk<T>(joust: Joust<T>, s: seq<T>, c: nat, k: nat, compared: bool): (r: Option<(nat, bool)>)
    requires c < k <= |s|
    ensures r.Some? ==> c <= r.value.0 < |s|
    decreases |s| - k
  {
    if k == |s| then Some((c, compared))
    else
      var fate := joust(s[c], s[k]);
      if fate == 1 then Walk(joust, s, c, k + 1, compared)
      else if fate == 0 then
        if k + 1 == |s| then None else Walk(joust, s, k + 1, k + 2, false)
      else Walk(joust, s, k, k + 1, true)
  }

  /** How many candidates from the front of the list the second loop looks at. */
  function Unmet(c: nat, compared: bool): nat {
    if compared && c > 0 then c - 1 else c
  }

  /** The position of the winner. */
  function Winner<T>(joust: Joust<T>, s: seq<T>): (r: Option<nat>)
    requires s != []
    ensures r.Some? ==> r.value < |s|
  {
    match Walk(joust, s, 0, 1, false)
    case None => None
    case Some((c, compared)) =>
      if forall j :: 0 <= j < Unmet(c, compared) ==> joust(s[c], s[j]) == 1 then Some(c) else None
  }

  /** The first loop of `tourney`. */
  method WalkOnce<T>(candidates: Candidate<T>, joust: Joust<T>, ghost nodes: seq<Candidate<T>>)
    returns (champ: Candidate?<T>, compared: bool, ghost jousts: nat)
    requires Linked(nodes, candidates)
    ensures match Walk(joust, Infos(nodes), 0, 1, false)
            case None => champ == null
            case Some((c, b)) => champ == nodes[c] && compared == b
    ensures jousts == WalkCost(joust, Infos(nodes), 0, 1)
  {
    ghost var s := Infos(nodes);
    ghost var c: nat, k: nat := 0, 1;
    champ, compared, jousts := candidates, false, 0;
    assert candidates.next == After(nodes, 0);
    var challenger := candidates.next;
    while challenger != null
      invariant c < k <= |nodes| && champ == nodes[c]
      invariant challenger == if k < |nodes| then nodes[k] else null
      invariant Walk(joust, s, c, k, compared) == Walk(joust, s, 0, 1, false)
      invariant jousts + WalkCost(joust, s, c, k) == WalkCost(joust, s, 0, 1)
      decreases |nodes| - k
    {
      var fate := joust(champ.info, challenger.info);
      jousts := jousts + 1;
      assert challenger.next == After(nodes, k);
      if fate == 1 {
        challenger, k := challenger.next, k + 1;
      } else {
        if fate == 0 {
          champ := challenger.next;
          if champ == null {
            return;
          }
          c, k, compared := k + 1, k + 2, false;
        } else {
          champ, c, k, compared := challenger, k, k + 1, true;
        }
        assert champ.next == After(nodes, c);
        challenger := champ.next;
      }
    }
  }

  /** `tourney`, counting its calls of `joust`. */
  method Tourney<T>(candidates: Candidate<T>, joust: Joust<T>, ghost nodes: seq<Candidate<T>>)
    returns (winner: Candidate?<T>, ghost jousts: nat)
    requires Linked(nodes, candidates)
    ensures winner == match Winner(joust, Infos(nodes)) case None => null case Some(c) => nodes[c]
    ensures jousts == WalkCost(joust, Infos(nodes), 0, 1) + CheckCost(joust, Infos(nodes))
  {
    ghost var s := Infos(nodes);
    var champ, compared;
    champ, compared, jousts := WalkOnce(candidates, joust, nodes);
    if champ == null {
      return null, jousts;
    }
    ghost var c, k: nat := Walk(joust, s, 0, 1, false).value.0, 0;
    ghost var walked := jousts;
    var challenger: Candidate?<T> := candidates;
    while challenger != champ && !(compared && challenger.next == champ)
      invariant k <= Unmet(c, compared) && challenger == nodes[k]
      invariant forall j :: 0 <= j < k ==> joust(s[c], s[j]) == 1
      invariant jousts == walked + k
      decreases c - k
    {
      assert challenger.next == After(nodes, k);
      var fate := joust(champ.info, challenger.info);
      jousts := jousts + 1;
      if fate != 1 {
        CheckedUpTo(joust, s, c, Unmet(c, compared), k);
        return null, jousts;
      }
      challenger, k := challenger.next, k + 1;
    }
    assert challenger.next == After(nodes, k);
    CheckedAll(joust, s, c, k);
    return champ, jousts;
  }

  /** The jousts of the first loop. */
  function WalkCost<T>(joust: Joust<T>, s: seq<T>, c: nat, k: nat): nat
    requires c < k <= |s|
    decreases |s| - k
  {
    if k == |s| then 0
    else
      var fate := joust(s[c], s[k]);
      1 + if fate == 1 then WalkCost(joust, s, c, k + 1)
          else if fate == 0 then (if k + 1 == |s| then 0 else WalkCost(joust, s, k + 1, k + 2))
          else WalkCost(joust, s, k, k + 1)
  }

  /** The jousts needed to find that `c` does not beat all of the first `n`, or
      that it does. */
  function Checks<T>(joust: Joust<T>, s: seq<T>, c: nat, n: nat, from: nat): nat
    requires from <= n <= |s| && c < |s|
    decreases n - from
  {
    if from == n then 0
    else 1 + if joust(s[c], s[from]) == 1 then Checks(joust, s, c, n, from + 1) else 0
  }

  function CheckCost<T>(joust: Joust<T>, s: seq<T>): nat
    requires s != []
  {
    match Walk(joust, s, 0, 1, false)
    case None => 0
    case Some((c, compared)) => Checks(joust, s, c, Unmet(c, compared), 0)
  }

  lemma {:induction false} ChecksFrom<T>(joust: Joust<T>, s: seq<T>, c: nat, n: nat, from: nat)
    requires from <= n <= |s| && c < |s| && forall j :: 0 <= j < from ==> joust(s[c], s[j]) == 1
    ensures Checks(joust, s, c, n, 0) == from + Checks(joust, s, c, n, from)
    decreases from
  {
    if from > 0 {
      ChecksFrom(joust, s, c, n, from - 1);
    }
  }

  lemma {:induction false} CheckedUpTo<T>(joust: Joust<T>, s: seq<T>, c: nat, n: nat, k: nat)
    requires k < n <= |s| && c < |s| && forall j :: 0 <= j < k ==> joust(s[c], s[j]) == 1
    requires joust(s[c], s[k]) != 1
    ensures Checks(joust, s, c, n, 0) == k + 1
  {
    ChecksFrom(joust, s, c, n, k);
  }

  lemma {:induction false} CheckedAll<T>(joust: Joust<T>, s: seq<T>, c: nat, n: nat)
    requires n <= |s| && c < |s| && forall j :: 0 <= j < n ==> joust(s[c], s[j]) == 1
    ensures Checks(joust, s, c, n, 0) == n
  {
    ChecksFrom(joust, s, c, n, n);
  }

  /** Swapping the candidates swaps the answer. */
  ghost predicate Antisymmetric<T>(joust: Joust<T>, s: seq<T>) {
    forall i, j :: 0 <= i < |s| && 0 <= j < |s| && i != j ==>
      -1 <= joust(s[i], s[j]) <= 1 && joust(s[i], s[j]) == -joust(s[j], s[i])
  }

  ghost predicate Transitive<T>(joust: Joust<T>, s: seq<T>) {
    forall i, j, k | 0 <= i < |s| && 0 <= j < |s| && 0 <= k < |s| && i != j && j != k && i != k ::
      joust(s[i], s[j]) == 1 && joust(s[j], s[k]) == 1 ==> joust(s[i], s[k]) == 1
  }

  /** Candidate `c` is better than every other one. */
  ghost predicate Best<T>(joust: Joust<T>, s: seq<T>, c: nat) {
    c < |s| && forall j :: 0 <= j < |s| && j != c ==> joust(s[c], s[j]) == 1
  }

  /** `m` was champion up to `c`, beat everything between, and lost to `c`. */
  ghost predicate Dethroned<T>(joust: Joust<T>, s: seq<T>, m: nat, c: nat) {
    m < c < |s| && joust(s[m], s[c]) == -1 && forall j :: m < j < c ==> joust(s[m], s[j]) == 1
  }

  /** What is known of the champion at any point of the first loop. */
  ghost predicate Champion<T>(joust: Joust<T>, s: seq<T>, c: nat, k: nat, compared: bool) {
    && c < k <= |s| && (forall j :: c < j < k ==> joust(s[c], s[j]) == 1)
    && (compared ==> exists m: nat :: Dethroned(joust, s, m, c))
  }

  lemma {:induction false} WalkKeepsChampion<T>(joust: Joust<T>, s: seq<T>, c: nat, k: nat, compared: bool)
    requires Antisymmetric(joust, s) && Champion(joust, s, c, k, compared)
    ensures var r := Walk(joust, s, c, k, compared);
      r.Some? ==> Champion(joust, s, r.value.0, |s|, r.value.1)
    decreases |s| - k
  {
    if k < |s| {
      var fate := joust(s[c], s[k]);
      if fate == 1 {
        WalkKeepsChampion(joust, s, c, k + 1, compared);
      } else if fate == 0 {
        if k + 1 < |s| {
          WalkKeepsChampion(joust, s, k + 1, k + 2, false);
        }
      } else {
        assert Dethroned(joust, s, c, k);
        WalkKeepsChampion(joust, s, k, k + 1, true);
      }
    }
  }

  /** Antisymmetry alone: the winner beats every other candidate except perhaps the
      one just before it, and that one lost to a candidate the winner beats. */
  lemma {:induction false} WinnerBeatsAllButPredecessor<T>(joust: Joust<T>, s: seq<T>)
    requires s != [] && Antisymmetric(joust, s) && Winner(joust, s).Some?
    ensures var c := Winner(joust, s).value;
      && (forall j :: 0 <= j < |s| && j != c && j != c - 1 ==> joust(s[c], s[j]) == 1)
      && (c > 0 && joust(s[c], s[c - 1]) != 1 ==>
            exists m :: 0 <= m < c - 1 && joust(s[c], s[m]) == 1 && joust(s[m], s[c - 1]) == 1)
  {
    WalkKeepsChampion(joust, s, 0, 1, false);
    var (c, compared) := Walk(joust, s, 0, 1, false).value;
    if compared {
      var m: nat :| Dethroned(joust, s, m, c);
      assert joust(s[c], s[m]) == 1;
    }
  }

  /** Every other candidate loses to `d`, whichever of the two is named first. */
  ghost predicate Unbeaten<T>(joust: Joust<T>, s: seq<T>, d: nat) {
    Best(joust, s, d) && forall j :: 0 <= j < |s| && j != d ==> joust(s[j], s[d]) == -1
  }

  /** Such a candidate survives the first loop, whatever the jousts among the others. */
  lemma {:induction false} BestSurvives<T>(joust: Joust<T>, s: seq<T>, d: nat, c: nat, k: nat, compared: bool)
    requires Unbeaten(joust, s, d) && c < k <= |s| && (c == d || k <= d)
    ensures var r := Walk(joust, s, c, k, compared); r.Some? && r.value.0 == d
    decreases |s| - k
  {
    if k < |s| {
      var fate := joust(s[c], s[k]);
      if fate == 1 {
        BestSurvives(joust, s, d, c, k + 1, compared);
      } else if fate == 0 {
        BestSurvives(joust, s, d, k + 1, k + 2, false);
      } else {
        BestSurvives(joust, s, d, k, k + 1, true);
      }
    }
  }

  /** A candidate to which all others lose is always found; nothing is asked of the
      jousts among the others. */
  lemma {:induction false} BestIsFound<T>(joust: Joust<T>, s: seq<T>, d: nat)
    requires s != [] && Unbeaten(joust, s, d)
    ensures Winner(joust, s) == Some(d)
  {
    BestSurvives(joust, s, d, 0, 1, false);
  }

  lemma {:induction false} BestIsUnbeaten<T>(joust: Joust<T>, s: seq<T>, d: nat)
    requires Antisymmetric(joust, s) && Best(joust, s, d)
    ensures Unbeaten(joust, s, d)
  {
    forall j | 0 <= j < |s| && j != d
      ensures joust(s[j], s[d]) == -1
    {
      assert joust(s[d], s[j]) == 1;
    }
  }

  /** Of two candidates that each lose to the other the second is returned. */
  lemma {:induction false} SecondIsReturned<T>(joust: Joust<T>, a: T, b: T)
    requires joust(a, b) == -1
    ensures Winner(joust, [a, b]) == Some(1)
  {
    assert Walk(joust, [a, b], 0, 1, false) == Walk(joust, [a, b], 1, 2, true) == Some((1, true));
  }

  /** All candidates of a kind beat all others, whichever is named first. */
  ghost predicate Above<T>(joust: Joust<T>, s: seq<T>, kind: T -> bool) {
    forall i, j :: 0 <= i < |s| && 0 <= j < |s| && kind(s[i]) && !kind(s[j]) ==>
      joust(s[i], s[j]) == 1 && joust(s[j], s[i]) == -1
  }

  /** The champion is the last one jousted or has beaten it; a champion that is not of the
      kind, and has been compared, does not follow one of the kind. */
  ghost predicate FollowsNone<T>(joust: Joust<T>, s: seq<T>, kind: T -> bool, c: nat, k: nat, compared: bool)
    requires c < k <= |s|
  {
    && (c == k - 1 || joust(s[c], s[k - 1]) == 1)
    && (!kind(s[c]) && compared && c > 0 ==> !kind(s[c - 1]))
  }

  lemma {:induction false} WalkFollowsNone<T>(joust: Joust<T>, s: seq<T>, kind: T -> bool, c: nat, k: nat, compared: bool)
    requires Above(joust, s, kind) && c < k <= |s| && FollowsNone(joust, s, kind, c, k, compared)
    ensures var r := Walk(joust, s, c, k, compared);
      r.Some? && !kind(s[r.value.0]) && r.value.1 && r.value.0 > 0 ==> !kind(s[r.value.0 - 1])
    decreases |s| - k
  {
    if k < |s| {
      var fate := joust(s[c], s[k]);
      if fate == 1 {
        WalkFollowsNone(joust, s, kind, c, k + 1, compared);
      } else if fate == 0 {
        if k + 1 < |s| {
          WalkFollowsNone(joust, s, kind, k + 1, k + 2, false);
        }
      } else {
        assert !kind(s[k]) ==> !kind(s[c]);
        assert !kind(s[k]) && c < k - 1 ==> !kind(s[k - 1]);
        WalkFollowsNone(joust, s, kind, k, k + 1, true);
      }
    }
  }

  /** If there is a candidate of such a kind, the winner is of it. */
  lemma {:induction false} WinnerIsAbove<T>(joust: Joust<T>, s: seq<T>, kind: T -> bool, g: nat)
    requires Above(joust, s, kind) && g < |s| && kind(s[g])
    ensures var r := Winner(joust, s); r.Some? ==> kind(s[r.value])
  {
    WalkFollowsNone(joust, s, kind, 0, 1, false);
    var r := Walk(joust, s, 0, 1, false);
    WalkPasses(joust, s, kind, 0, 1, false, g);
    if r.Some? && !kind(s[r.value.0]) {
      assert joust(s[r.value.0], s[g]) == -1;
    }
  }

  /** Once the walk has come past a candidate of the kind, the champion is of the kind or
      behind it. */
  lemma {:induction false} WalkPasses<T>(joust: Joust<T>, s: seq<T>, kind: T -> bool, c: nat, k: nat, compared: bool, g: nat)
    requires Above(joust, s, kind) && c < k <= |s| && g < |s| && kind(s[g]) && (g < k ==> kind(s[c]) || g < c)
    ensures var r := Walk(joust, s, c, k, compared); r.Some? ==> kind(s[r.value.0]) || g < r.value.0
    decreases |s| - k
  {
    if k < |s| {
      var fate := joust(s[c], s[k]);
      if fate == 1 {
        WalkPasses(joust, s, kind, c, k + 1, compared, g);
      } else if fate == 0 {
        if k + 1 < |s| {
          WalkPasses(joust, s, kind, k + 1, k + 2, false, g);
        }
      } else {
        WalkPasses(joust, s, kind, k, k + 1, true, g);
      }
    }
  }

  /** The tournament is right about the list: it returns a candidate exactly when
      that candidate beats every other one. */
  ghost predicate Exact<T>(joust: Joust<T>, s: seq<T>)
    requires s != []
  {
    forall c: nat :: Winner(joust, s) == Some(c) <==> Best(joust, s, c)
  }

  lemma {:induction false} TransitiveIsExact<T>(joust: Joust<T>, s: seq<T>)
    requires s != [] && Antisymmetric(joust, s) && Transitive(joust, s)
    ensures Exact(joust, s)
  {
    forall c: nat
      ensures Winner(joust, s) == Some(c) <==> Best(joust, s, c)
    {
      if Winner(joust, s) == Some(c) {
        WinnerBeatsAllButPredecessor(joust, s);
      } else if Best(joust, s, c) {
        BestIsUnbeaten(joust, s, c);
        BestIsFound(joust, s, c);
      }
    }
  }

  /** With one candidate list in hand: the tournament errs exactly when its winner
      does not beat the candidate just before it. */
  lemma {:induction false} ExactIffPredecessorBeaten<T>(joust: Joust<T>, s: seq<T>)
    requires s != [] && Antisymmetric(joust, s)
    ensures Exact(joust, s) <==>
      (Winner(joust, s).Some? && Winner(joust, s).value > 0 ==>
         joust(s[Winner(joust, s).value], s[Winner(joust, s).value - 1]) == 1)
  {
    if Winner(joust, s).Some? {
      WinnerBeatsAllButPredecessor(joust, s);
    }
    forall c: nat | Best(joust, s, c)
      ensures Winner(joust, s) == Some(c)
    {
      BestIsUnbeaten(joust, s, c);
      BestIsFound(joust, s, c);
    }
  }

  /** Three candidates in a broken chain, in the order that hides the break. */
  lemma {:induction false} BrokenChainIsNotExact<T>(joust: Joust<T>, a: T, b: T, c: T)
    requires joust(a, b) == 1 && joust(b, c) == 1 && joust(a, c) != 1
    requires joust(b, a) == -1
    ensures Winner(joust, [b, c, a]) == Some(2) && !Best(joust, [b, c, a], 2)
  {
    var s := [b, c, a];
    assert Walk(joust, s, 2, 3, true) == Some((2, true));
    assert Walk(joust, s, 0, 2, false) == Walk(joust, s, 2, 3, true);
    assert Walk(joust, s, 0, 1, false) == Walk(joust, s, 0, 2, false);
    assert s[1] == c;
  }

  /** Over every list drawn from a set of candidates, transitivity is exactly what
      the skipped comparison relies on. */
  lemma {:induction false} ExactIffTransitive<T(!new)>(joust: Joust<T>, all: set<T>)
    requires forall a, b :: a in all && b in all && a != b ==> -1 <= joust(a, b) <= 1 && joust(a, b) == -joust(b, a)
    ensures
      (forall s: seq<T> :: s != [] && Distinct(s) && (forall x :: x in s ==> x in all) ==> Exact(joust, s))
      <==>
      (forall a, b, c | a in all && b in all && c in all && a != b && b != c && a != c ::
         joust(a, b) == 1 && joust(b, c) == 1 ==> joust(a, c) == 1)
  {
    if forall a, b, c | a in all && b in all && c in all && a != b && b != c && a != c ::
         joust(a, b) == 1 && joust(b, c) == 1 ==> joust(a, c) == 1 {
      forall s: seq<T> | s != [] && Distinct(s) && forall x :: x in s ==> x in all
        ensures Exact(joust, s)
      {
        assert forall i :: 0 <= i < |s| ==> s[i] in all;
        forall c: nat
          ensures Winner(joust, s) == Some(c) <==> Best(joust, s, c)
        {
          if Winner(joust, s) == Some(c) {
            WinnerBeatsAllButPredecessor(joust, s);
          } else if Best(joust, s, c) {
            BestIsFound(joust, s, c);
          }
        }
      }
    } else {
      var a, b, c :| a in all && b in all && c in all && a != b && b != c && a != c
        && joust(a, b) == 1 && joust(b, c) == 1 && joust(a, c) != 1;
      BrokenChainIsNotExact(joust, a, b, c);
      var s := [b, c, a];
      assert Distinct(s) && !Exact(joust, s);
    }
  }

  /** The first loop makes one joust fewer than there are candidates, at most, and
      one fewer still if it ends with a later champion that met no predecessor. */
  lemma {:induction false} WalkCostBound<T>(joust: Joust<T>, s: seq<T>, c: nat, k: nat, compared: bool)
    requires c < k <= |s|
    ensures WalkCost(joust, s, c, k) <= |s| - k
    ensures var r := Walk(joust, s, c, k, compared);
      r.Some? && !r.value.1 && (compared || r.value.0 != c) ==> WalkCost(joust, s, c, k) <= |s| - k - 1
    decreases |s| - k
  {
    if k < |s| {
      var fate := joust(s[c], s[k]);
      if fate == 1 {
        WalkCostBound(joust, s, c, k + 1, compared);
      } else if fate == 0 {
        if k + 1 < |s| {
          WalkCostBound(joust, s, k + 1, k + 2, false);
        }
      } else {
        WalkCostBound(joust, s, k, k + 1, true);
      }
    }
  }

  lemma {:induction false} ChecksBound<T>(joust: Joust<T>, s: seq<T>, c: nat, n: nat, from: nat)
    requires from <= n <= |s| && c < |s|
    ensures Checks(joust, s, c, n, from) <= n - from
    decreases n - from
  {
    if from < n {
      ChecksBound(joust, s, c, n, from + 1);
    }
  }

  /** For two candidates or more and any joust whatever: at most 2n - 3 jousts. */
  lemma {:induction false} JoustsBound<T>(joust: Joust<T>, s: seq<T>)
    requires |s| >= 2
    ensures WalkCost(joust, s, 0, 1) + CheckCost(joust, s) <= 2 * |s| - 3
  {
    WalkCostBound(joust, s, 0, 1, false);
    var r := Walk(joust, s, 0, 1, false);
    if r.Some? {
      ChecksBound(joust, s, r.value.0, Unmet(r.value.0, r.value.1), 0);
    }
  }

  ghost predicate AllTie<T>(joust: Joust<T>, s: seq<T>) {
    forall i, j :: 0 <= i < |s| && 0 <= j < |s| && i != j ==> joust(s[i], s[j]) == 0
  }

  lemma {:induction false} TiesWalk<T>(joust: Joust<T>, s: seq<T>, c: nat, compared: bool)
    requires AllTie(joust, s) && c < |s|
    ensures var r := Walk(joust, s, c, c + 1, compared);
      if (|s| - c) % 2 == 0 then r.None? else r.Some? && r.value.0 == |s| - 1 && (c < |s| - 1 ==> !r.value.1)
    ensures WalkCost(joust, s, c, c + 1) == (|s| - c) / 2
    decreases |s| - c
  {
    if c + 2 < |s| {
      TiesWalk(joust, s, c + 2, false);
    }
  }

  /** When every pair ties: exactly half the candidates, rounded up, are jousted,
      and nobody wins. */
  lemma {:induction false} AllTieCost<T>(joust: Joust<T>, s: seq<T>)
    requires |s| >= 2 && AllTie(joust, s)
    ensures Winner(joust, s).None?
    ensures WalkCost(joust, s, 0, 1) + CheckCost(joust, s) == (|s| + 1) / 2
  {
    TiesWalk(joust, s, 0, false);
  }
}
