/** What a finished layout must look like, and why it never gives two base
    subobjects of one type the same address (section 2.4 of the Itanium C++ ABI). */
module LayoutRules {
  import opened Hierarchy
  import opened EmptyOffsets

  /** Size and alignment of a virtual table pointer on the i386 target. */
  const POINTER_SIZE: nat := 4

  predicate WellFormedDecl(d: ClassDecl, n: nat) {
    && BasesBelow(d, n)
    && d.minAlign > 0
    && (forall f :: f in d.fields ==> f.size > 0 && f.align > 0)
    && (forall i, j :: 0 <= i < j < |d.virtuals| ==> d.virtuals[i] != d.virtuals[j])
  }

  function RoundUp(x: nat, a: nat): (r: nat)
    requires a > 0
    ensures x <= r < x + a && r % a == 0
  {
    var q := (x + a - 1) / a;
    assert x + a - 1 == q * a + (x + a - 1) % a;
    MultipleHasNoRest(q, a);
    q * a
  }

  lemma {:induction false} QuotientUnique(n: nat, a: nat, q: nat)
    requires a > 0 && q * a <= n < q * a + a
    ensures n / a == q
  {
    var d := n / a;
    assert n == d * a + n % a;
    assert d > q ==> d * a >= (q + 1) * a;
    assert d < q ==> (d + 1) * a <= q * a;
  }

  lemma {:induction false} MultipleHasNoRest(q: nat, a: nat)
    requires a > 0
    ensures q * a % a == 0
  {
    QuotientUnique(q * a, a, q);
    assert q * a == q * a / a * a + q * a % a;
  }

  function Max(x: nat, y: nat): nat {
    if x < y then y else x
  }

  /** TYPE_POLYMORPHIC_P: the class declares or inherits a virtual function. */
  predicate Polymorphic(w: World, c: ClassId)
    requires Ordered(w) && c < |w|
    decreases c
  {
    w[c].decl.virtuals != []
    || exists i :: 0 <= i < |w[c].decl.bases| && Polymorphic(w, w[c].decl.bases[i])
  }

  /** `determine_primary_base`: the first polymorphic direct base. */
  ghost predicate IsPrimary(w: World, d: ClassDecl, primary: Option<nat>)
    requires Ordered(w) && BasesBelow(d, |w|)
  {
    match primary
    case None => forall i :: 0 <= i < |d.bases| ==> !Polymorphic(w, d.bases[i])
    case Some(k) =>
      && k < |d.bases| && Polymorphic(w, d.bases[k])
      && forall i :: 0 <= i < k ==> !Polymorphic(w, d.bases[i])
  }

  /** The bytes taken by a virtual table pointer of the class's own. */
  function VptrSize(d: ClassDecl, primary: Option<nat>): nat {
    if primary.None? && d.virtuals != [] then POINTER_SIZE else 0
  }

  /** The `k`-th of the places tried from `start` in steps of `step`. */
  function Spot(start: nat, step: nat, k: nat): nat {
    start + k * step
  }

  /** `o` is the first of the places tried where no empty subobject clashes. */
  ghost predicate FirstFree(w: World, c: ClassId, start: nat, step: nat, taken: set<Place>, o: nat)
    requires Ordered(w) && c < |w|
  {
    exists k: nat ::
      && o == Spot(start, step, k) && !Clash(w, c, o, taken)
      && forall j: nat :: j < k ==> Clash(w, c, Spot(start, step, j), taken)
  }

  /** Where a direct base of type `c` goes when `pos` bytes are in use and the
      empty subobjects in `taken` are placed. */
  ghost predicate Fits(w: World, c: ClassId, pos: nat, taken: set<Place>, o: nat)
    requires Ordered(w) && c < |w|
  {
    && w[c].align > 0
    && if !IsEmptyClass(w, c) then FirstFree(w, c, RoundUp(pos, w[c].align), w[c].align, taken, o)
       else if !Clash(w, c, 0, taken) then o == 0
       else FirstFree(w, c, RoundUp(pos, w[c].align), w[c].align, taken, o)
  }

  /** Base number `base` has been put at `offset`. */
  datatype Placement = Placement(base: nat, offset: nat)

  ghost predicate ValidPlacements(d: ClassDecl, pls: seq<Placement>) {
    forall j :: 0 <= j < |pls| ==> pls[j].base < |d.bases|
  }

  /** The bytes in use after the virtual table pointer and the bases in `pls`. */
  ghost function PosAfter(w: World, d: ClassDecl, vptr: nat, pls: seq<Placement>): nat
    requires Ordered(w) && BasesBelow(d, |w|) && ValidPlacements(d, pls)
  {
    if pls == [] then vptr
    else
      var last := pls[|pls| - 1];
      if IsEmptyClass(w, d.bases[last.base]) then PosAfter(w, d, vptr, pls[..|pls| - 1])
      else last.offset + w[d.bases[last.base]].nvsize
  }

  /** The alignment asked for by the non-empty bases in `pls`. */
  ghost function AlignAfter(w: World, d: ClassDecl, start: nat, pls: seq<Placement>): (a: nat)
    requires Ordered(w) && BasesBelow(d, |w|) && ValidPlacements(d, pls)
    ensures a >= start
  {
    if pls == [] then start
    else
      var b := d.bases[pls[|pls| - 1].base];
      var before := AlignAfter(w, d, start, pls[..|pls| - 1]);
      if IsEmptyClass(w, b) then before else Max(before, w[b].align)
  }

  /** The empty subobjects of the bases in `pls`. */
  ghost function TakenAfter(w: World, d: ClassDecl, pls: seq<Placement>): set<Place>
    requires Ordered(w) && BasesBelow(d, |w|) && ValidPlacements(d, pls)
  {
    if pls == [] then {}
    else
      var last := pls[|pls| - 1];
      TakenAfter(w, d, pls[..|pls| - 1]) + EmptySubobjects(w, d.bases[last.base], last.offset)
  }

  /** Each base in `pls` was placed by `Fits`, given the ones before it. */
  ghost predicate AllFit(w: World, d: ClassDecl, vptr: nat, pls: seq<Placement>)
    requires Ordered(w) && BasesBelow(d, |w|) && ValidPlacements(d, pls)
  {
    forall j :: 0 <= j < |pls| ==> FitsAt(w, d, vptr, pls, j)
  }

  ghost predicate FitsAt(w: World, d: ClassDecl, vptr: nat, pls: seq<Placement>, j: nat)
    requires Ordered(w) && BasesBelow(d, |w|) && ValidPlacements(d, pls) && j < |pls|
  {
    Fits(w, d.bases[pls[j].base], PosAfter(w, d, vptr, pls[..j]), TakenAfter(w, d, pls[..j]), pls[j].offset)
  }

  /** The primary base is allocated first, the others in declaration order. */
  ghost function AllocationOrder(n: nat, primary: Option<nat>): (s: seq<nat>)
    requires primary.Some? ==> primary.value < n
    ensures |s| == n && forall i: nat :: i in s <==> i < n
  {
    match primary
    case None => Others(n, n)
    case Some(k) => [k] + Others(n, k)
  }

  /** The numbers below `n` other than `k`, in order. */
  ghost function Others(n: nat, k: nat): (s: seq<nat>)
    ensures |s| == if k < n then n - 1 else n
    ensures forall x: nat :: x in s <==> x < n && x != k
    ensures forall i, j :: 0 <= i < j < |s| ==> s[i] < s[j]
  {
    if n == 0 then []
    else if n - 1 == k then Others(n - 1, k)
    else
      var before := Others(n - 1, k);
      assert forall i :: 0 <= i < |before| ==> before[i] in before;
      before + [n - 1]
  }

  function PlaceFields(pos: nat, fields: seq<Field>): (r: nat)
    requires forall f :: f in fields ==> f.size > 0 && f.align > 0
    ensures r >= pos
    ensures fields != [] ==> r > pos
  {
    if fields == [] then pos
    else
      var n := |fields| - 1;
      RoundUp(PlaceFields(pos, fields[..n]), fields[n].align) + fields[n].size
  }

  /** Where the members go when `pos` bytes are in use: each at the next multiple of its
      alignment. */
  function FieldOffsets(pos: nat, fields: seq<Field>): (r: seq<nat>)
    requires forall f :: f in fields ==> f.size > 0 && f.align > 0
    ensures |r| == |fields|
  {
    if fields == [] then []
    else
      var n := |fields| - 1;
      FieldOffsets(pos, fields[..n]) + [RoundUp(PlaceFields(pos, fields[..n]), fields[n].align)]
  }

  function FieldsAlign(align: nat, fields: seq<Field>): (r: nat)
    ensures r >= align
  {
    if fields == [] then align
    else Max(FieldsAlign(align, fields[..|fields| - 1]), fields[|fields| - 1].align)
  }

  /** `end_of_class`: the end of the base that reaches furthest. */
  function EndOfBases(w: World, d: ClassDecl, offsets: seq<nat>, k: nat): (e: nat)
    requires Ordered(w) && BasesBelow(d, |w|) && |offsets| == |d.bases| && k <= |offsets|
    ensures forall i :: 0 <= i < k ==>
      offsets[i] + (if IsEmptyClass(w, d.bases[i]) then w[d.bases[i]].size else w[d.bases[i]].nvsize) <= e
  {
    if k == 0 then 0
    else
      var b := d.bases[k - 1];
      Max(EndOfBases(w, d, offsets, k - 1),
          offsets[k - 1] + if IsEmptyClass(w, b) then w[b].size else w[b].nvsize)
  }

  /** The class contains only padding: no virtual table pointer, no member, no
      non-empty base. */
  predicate OnlyPadding(w: World, d: ClassDecl, primary: Option<nat>)
    requires Ordered(w) && BasesBelow(d, |w|)
  {
    VptrSize(d, primary) == 0 && d.fields == []
    && forall i :: 0 <= i < |d.bases| ==> IsEmptyClass(w, d.bases[i])
  }

  /** The bytes in use once everything is placed and protruding empty bases are
      covered; a class with nothing in it gets one byte. */
  function FinalPos(pos: nat, eoc: nat, empty: bool): nat {
    if eoc == 0 && empty then Max(pos, eoc) + 1 else Max(pos, eoc)
  }

  /** The offsets come from placing the bases one after the other, as `pls`
      records. */
  ghost predicate PlacedBy(w: World, d: ClassDecl, primary: Option<nat>, offsets: seq<nat>, pls: seq<Placement>)
    requires Ordered(w) && BasesBelow(d, |w|)
  {
    && |offsets| == |d.bases|
    && IsPrimary(w, d, primary)
    && ValidPlacements(d, pls)
    && |pls| == |d.bases|
    && (forall j :: 0 <= j < |pls| ==> pls[j].base == AllocationOrder(|d.bases|, primary)[j])
    && (forall j :: 0 <= j < |pls| ==> offsets[pls[j].base] == pls[j].offset)
    && AllFit(w, d, VptrSize(d, primary), pls)
  }

  /** The alignment of the class before its bases are placed. */
  function StartAlign(d: ClassDecl, primary: Option<nat>): (a: nat)
    ensures a >= d.minAlign
  {
    if VptrSize(d, primary) > 0 then Max(d.minAlign, POINTER_SIZE) else d.minAlign
  }

  /** The sizes and alignment in `info` follow from those placements. */
  ghost predicate SizedBy(w: World, info: ClassInfo, pls: seq<Placement>)
    requires Ordered(w) && WellFormedDecl(info.decl, |w|)
    requires |info.offsets| == |info.decl.bases| && ValidPlacements(info.decl, pls)
  {
    var d := info.decl;
    var align := FieldsAlign(AlignAfter(w, d, StartAlign(d, info.primary), pls), d.fields);
    var eoc := EndOfBases(w, d, info.offsets, |d.bases|);
    var empty := OnlyPadding(w, d, info.primary);
    var start := PosAfter(w, d, VptrSize(d, info.primary), pls);
    var pos := FinalPos(PlaceFields(start, d.fields), eoc, empty);
    && info.align == align && info.members == FieldOffsets(start, d.fields)
    && info.size == RoundUp(pos, align)
    && info.nvsize == if empty then 0 else if d.pod then info.size else pos
  }

  /** `info` is the layout of a class whose bases are complete in `w`. */
  ghost predicate LaidOut(w: World, info: ClassInfo)
    requires Ordered(w)
  {
    WellFormedDecl(info.decl, |w|) && HasPlacements(w, info)
  }

  ghost predicate HasPlacements(w: World, info: ClassInfo)
    requires Ordered(w) && WellFormedDecl(info.decl, |w|)
  {
    exists pls :: PlacedBy(w, info.decl, info.primary, info.offsets, pls) && SizedBy(w, info, pls)
  }

  ghost predicate LaidOutInTurn(w: World, c: ClassId)
    requires c < |w|
  {
    Ordered(w[..c]) && LaidOut(w[..c], w[c])
  }

  /** Every class of `w` was laid out after its bases. */
  ghost predicate AllLaidOut(w: World) {
    Ordered(w) && forall c :: 0 <= c < |w| ==> LaidOutInTurn(w, c)
  }
}
