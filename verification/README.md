# Class layout, virtual tables and overload resolution of the bundled C++ front end

The repository carries the C++ front end of GCC 3.2 (`haribote/omake/tolsrc/go_0023s/cp`).
This project models its two hardest components and one small loop beside it, and proves
what each of them is for.

**Classes.** A class is a number, its direct bases are smaller numbers, and a base
subobject is a path of base indices (`Hierarchy`). `EmptyOffsets` is the table of empty
subobjects and the walk over it; `BinfoTree` the nodes whose offsets are overwritten;
`BaseLayout` and `ClassLayout` the speculative placement loops of a class under
construction; `SlotLists` the linked lists of slots that a base shares with its class until
it gets its own; `Dispatching` the index and the class by which a virtual function is called;
`Vtables` the walk that updates both; `ClassFinisher` completes any number of classes, one
after the other. `LayoutRules` and `VtableRules` say, without any of those
loops, what a layout and a table must be, and `LayoutTheorem` and the end of `VtableRules`
prove what follows from that: distinct subobjects of one type have distinct addresses, and
a virtual call through any subobject, by the index and the class recorded for the function,
reaches the final overrider with the right adjustment. `AlignmentTheorem` says of every such
layout that bases, members and sizes are aligned, in order and without gaps, and
`VptrTheorem` that virtual tables and addresses of polymorphic subobjects match.
`FinalOverrider` is what the search for the final overrider keeps from visit to visit.
`SharedBases` has hierarchies with virtual bases, and the lookup of a base in them;
`SharedOverrider` is the search over all paths in such a hierarchy, and `OverriderTheorem`
says when it is right. `VtblInit` is the entries at negative indices, `Vtt` the virtual
table table and `VttTheorem` what it holds, by paths, `BasePath` pointer conversions,
`MethodVec` the method vector, `ClassStack` the stack of open classes. Sections 2.4, 2.5 and
2.6 of the Itanium C++ ABI are the standard behind these.

**Overload resolution.** `CallArgs` checks arity, finds conversions and builds the call;
`Building` builds conversion sequences, `Admission` says which there are, and `Qualification`
what the comparisons of qualifiers at every level mean; `Conversions` ranks them, and
`Ranking` says how far that is an order; `Joust` compares two candidates, and `TieBreaks`
has what decides if no argument does; `Candidates` and `Tourney` are the linked list and the
tournament over it; `Choice` puts them together, `Preference` says which function is called
by the kinds of conversions, and `Miscalls` has calls that come out wrong. Sections 4, 8.5.3
and 13.3 of ISO/IEC 14882:1998 are the standard.

**Command line.** `CmdLine` is the two-pass splitter.

## What turned out false

- The tournament skips a comparison. It is right on every list of candidates exactly if
  `joust` is transitive (`Tourney.ExactIffTransitive`), and `joust` is when conversions are
  graded, as they are when only their ranks count (`Choice.GradedChoiceIsExact`).
  `compare_ics` does not grade them, because derivation does not:
  `Miscalls.AmbiguousCallAccepted` is a call of three functions that is ambiguous, and is
  accepted in one order of the candidates. A function better than all others is found in
  any case (`Choice.BestFunctionIsChosen`).
- Being better does not always carry over, even for one argument. Where a pointer to D may
  only lose a const badly, D* is better than B*, and B* is better than void*, but D* is not
  better than void*, because D is not a base of itself (`Miscalls.BadCallAccepted`). Without
  a user-defined conversion in the first sequence, this is exactly when it fails: all ranks
  equal, a pointer to a class that is not a base first, and a pointer to void last
  (`Ranking.BetterCarriesOver`).
- The rules about derivation look at the type that the expression has before it decays. An
  array of D is converted to B* no better than to A*, where a pointer to D would be
  (`Ranking.ArraysAreNotRanked`, and a call in `Miscalls.ArrayIsAmbiguous`).
- `compare_ics` is antisymmetric on canonical sequences except when both are bad and the two
  halves of the tie-break disagree, in which case each is worse than the other
  (`Conversions.CompareAntisymmetric`, with a pair of sequences in `Conversions.BothWorse`).
  One int argument can have both sequences; then the candidate that comes second is called,
  whichever it is (`Miscalls.OrderDecides`).
- `strictly_overrides` says in its comment that it does not care about ambiguity, but the
  lookup it calls finds nothing for an ambiguous base. So it is not transitive, and the
  search for the final overrider can depend on the order of the bases. With V { f },
  H: virtual V { f }, G: H { f }, X: H, F: G, X { f }, a class T: H, G, F is given F::f,
  although the f of its base H is not overridden, and a class T: F, G, H is reported as
  ambiguous (`OverriderTheorem.AcceptedInOneOrder`, `OverriderTheorem.AmbiguousInTheOther`).
  For one subobject of a virtual base, the search is right in every class that can still
  be declared if and only if no three classes whose functions it can come to first are such
  that the second is a unique base of the first, the third a unique base of the second, and
  an ambiguous base of the first (`OverriderTheorem.ExactIffNoBrokenChain`).
- A pointer to a data member that only gains a qualifier is not ranked as an exact match, as
  other pointers are, but as a conversion, because the types pointed to are compared as they
  are (`Admission.MemberPointers`).
- A pointer that wraps round to address zero passes for a null pointer: converting to a base
  in two steps is converting in one exactly unless the base in between is there
  (`BasePath.ConversionsCompose`).
- Converting a base pointer to a derived class and back is the identity except for the
  pointer whose derived object would be at address zero (`BasePath.BackAndThere`).

## Model

| member | source | states |
|---|---|---|
| `LayoutTheorem.DistinctSubobjectsDistinctAddresses` | haribote/omake/tolsrc/go_0023s/cp/class.c:3421-3856 | in every hierarchy laid out by the rules, two different base subobjects of one type, empty or not, direct or not, never have the same offset |
| `LayoutTheorem.LaidOutNested` | haribote/omake/tolsrc/go_0023s/cp/class.c:4677-4715 | every non-empty subobject, at any depth, lies within the size of the class without virtual bases |
| `LayoutTheorem.BasesApart` | haribote/omake/tolsrc/go_0023s/cp/class.c:3815-3856 | any two direct bases share no byte and no place of an empty subobject |
| `LayoutTheorem.DifferentBasesApart` | haribote/omake/tolsrc/go_0023s/cp/class.c:3754-3809 | subobjects of one type below different direct bases have different offsets |
| `LayoutTheorem.PrimaryAtZero` | haribote/omake/tolsrc/go_0023s/cp/class.c:5015-5030 | the primary base is at offset zero, which the compiler asserts |
| `AlignmentTheorem.SubobjectsAligned` | haribote/omake/tolsrc/go_0023s/cp/class.c:3629-3697 | in every such hierarchy, with alignments that are powers of two, every base subobject that is not empty, at any depth, is at a multiple of the alignment of its class, which divides that of the whole class |
| `AlignmentTheorem.DirectBaseAligned` | haribote/omake/tolsrc/go_0023s/cp/class.c:3629-3745 | a direct base, empty or not, is at a multiple of its own alignment |
| `AlignmentTheorem.MembersLaidOut` | haribote/omake/tolsrc/go_0023s/cp/class.c:4799-4860 | every data member is aligned, behind the virtual table pointer, all bases that are not empty and all members before it, with no gap that its alignment does not ask for |
| `AlignmentTheorem.SizesAreRight` | haribote/omake/tolsrc/go_0023s/gcc/stor-layout.c:1104-1148 | the size is a multiple of the alignment and positive; everything in the class ends within it, and the last thing less than one alignment before its end; the size without tail padding ends with something, except that the padding of a POD is its own |
| `AlignmentTheorem.AlignIsLargest` | haribote/omake/tolsrc/go_0023s/gcc/stor-layout.c:715-1040 | the alignment of a class is the largest that its declaration, its virtual table pointer, a base that is not empty or a data member asks for |
| `AlignmentTheorem.AlignSuits` | haribote/omake/tolsrc/go_0023s/gcc/stor-layout.c:715-1040 | it is a multiple of each of these, if they are powers of two |
| `AlignmentTheorem.BasesInOrder` | haribote/omake/tolsrc/go_0023s/cp/class.c:3815-3856 | of the bases that are not empty the primary one comes first, then the others in declaration order, each behind the one before |
| `AlignmentTheorem.BaseIsTight` | haribote/omake/tolsrc/go_0023s/cp/class.c:3629-3697 | a base with no empty subobject leaves no gap that its alignment does not ask for |
| `AlignmentTheorem.EmptyBaseStays` | haribote/omake/tolsrc/go_0023s/cp/class.c:3705-3745 | an empty base is at offset zero, unless an empty subobject of it would be where another base has one of its type |
| `AlignmentTheorem.VptrIsFirst` | haribote/omake/tolsrc/go_0023s/cp/class.c:4783-4797 | bases that are not empty leave room for the virtual table pointer |
| `AlignmentTheorem.VptrAtZero` | haribote/omake/tolsrc/go_0023s/cp/class.c:1583-1728 | a polymorphic class has a virtual table pointer at offset zero: its own exactly if no direct base is polymorphic, otherwise that of its first polymorphic base |
| `AlignmentTheorem.PolymorphicMeansVirtual` | haribote/omake/tolsrc/go_0023s/cp/class.c:1583-1728 | a class is polymorphic exactly if it or some base, at any depth, declares a virtual function |
| `AlignmentTheorem.EmptyMeansNothing` | haribote/omake/tolsrc/go_0023s/cp/class.c:4757-4956 | a class is empty exactly if it has no virtual table pointer, no data member, and empty bases only |
| `EmptyOffsets.EmptySubobjectsAreEmptyPaths` | haribote/omake/tolsrc/go_0023s/cp/class.c:3487-3580 | the recursive set of empty subobjects is exactly what the paths to empty classes reach, at their offsets |
| `EmptyOffsets.NoneBefore` | haribote/omake/tolsrc/go_0023s/cp/class.c:3500-3501 | no subobject lies before its object, so that the walk may stop at the largest recorded offset |
| `EmptyOffsets.OffsetTable.WalkSubobjectOffsets` | haribote/omake/tolsrc/go_0023s/cp/class.c:3487-3580 | recording adds exactly the empty subobjects; checking changes nothing, and finds a clash if there is one up to the largest offset |
| `EmptyOffsets.OffsetTable.RecordSubobjectOffset` | haribote/omake/tolsrc/go_0023s/cp/class.c:3424-3447 | an empty class is recorded at its offset, anything else is not |
| `EmptyOffsets.OffsetTable.CheckSubobjectOffset` | haribote/omake/tolsrc/go_0023s/cp/class.c:3452-3474 | true exactly if the class is empty and recorded there |
| `EmptyOffsets.OffsetTable.RecordSubobjectOffsets` | haribote/omake/tolsrc/go_0023s/cp/class.c:3586-3595 | the whole subtree is recorded |
| `EmptyOffsets.OffsetTable.LayoutConflictP` | haribote/omake/tolsrc/go_0023s/cp/class.c:3601-3621 | true exactly if an empty subobject would land on a recorded one of its class, in spite of the shortcuts |
| `BaseLayout.LayoutNonemptyBase` | haribote/omake/tolsrc/go_0023s/cp/class.c:3629-3697 | the loop ends at the first aligned offset without a clash, a multiple of the alignment of the base, restores the record in between, and moves the whole base subtree there |
| `BaseLayout.LayoutEmptyBase` | haribote/omake/tolsrc/go_0023s/cp/class.c:3705-3745 | the loop ends where the base is, or else at the first free offset from the end of the class upwards, and answers whether it moved |
| `BaseLayout.BuildBaseField` | haribote/omake/tolsrc/go_0023s/cp/class.c:3754-3809 | one base is placed where the rules say, and everything in it is recorded |
| `BaseLayout.AccountsNext` | haribote/omake/tolsrc/go_0023s/cp/class.c:3754-3809 | the record of bytes, alignment and recorded places stays right from base to base |
| `BinfoTree.PropagateBinfoOffsets` | haribote/omake/tolsrc/go_0023s/cp/class.c:4467-4518 | every node of the subtree moves by exactly the given amount, the primary base once |
| `BinfoTree.GetPrimaryBinfo` | haribote/omake/tolsrc/go_0023s/cp/class.c:6467-6545 | the first direct base whose type is that of the primary base, and none exactly if the class has none |
| `BinfoTree.UnshareBaseBinfos` | haribote/omake/tolsrc/go_0023s/cp/tree.c:673-701 | fresh nodes for a base and everything below it, at the offsets of the base's own class |
| `ClassLayout.DeterminePrimaryBase` | haribote/omake/tolsrc/go_0023s/cp/class.c:1583-1728 | the first polymorphic direct base, or none |
| `ClassLayout.BuildBaseFields` | haribote/omake/tolsrc/go_0023s/cp/class.c:3815-3856 | the primary base first, then the others in declaration order, each placed by the rules given the earlier ones |
| `ClassLayout.PlaceDataMembers` | haribote/omake/tolsrc/go_0023s/cp/class.c:4799-4860 | the data members are placed one after the other, where the rules say |
| `ClassLayout.EndOfClass` | haribote/omake/tolsrc/go_0023s/cp/class.c:4677-4715 | the largest end of a direct base, an empty one counting with its full size |
| `ClassLayout.LayoutClassType` | haribote/omake/tolsrc/go_0023s/cp/class.c:4757-4956 | the layout of a class obeys the rules, from which `AlignmentTheorem` and `LayoutTheorem` follow, and every node of its bases is where the layout says |
| `Hierarchy.PathConcat` | haribote/omake/tolsrc/go_0023s/cp/class.c:4462-4518 | along every path the offset of A in D is that of B in D plus that of A in B |
| `VtableRules.DispatchReachesFinalOverrider` | haribote/omake/tolsrc/go_0023s/cp/class.c:2422-2635 | for every subobject and every slot its own class gave it, the table used through that subobject holds the final overrider there, and its delta leads from the subobject to the overrider's |
| `VtableRules.OverriderIsOutermost` | haribote/omake/tolsrc/go_0023s/cp/class.c:2195-2403 | no class around the final overrider's declares the function |
| `VtableRules.OverriderIsOnPath` | haribote/omake/tolsrc/go_0023s/cp/class.c:2240-2275 | the final overrider is on the way to the subobject or on its chain of primary bases |
| `VtableRules.OverriderDeclares` | haribote/omake/tolsrc/go_0023s/cp/search.c:1890-1924 | the final overrider's class declares the function |
| `VtableRules.ChainKeepsSigs` | haribote/omake/tolsrc/go_0023s/cp/class.c:1564-1579 | a primary base's slots come first in the derived table, in their order |
| `VtableRules.ChainKeepsOverrider` | haribote/omake/tolsrc/go_0023s/cp/class.c:2422-2535 | a base and the class it is primary in have the same final overriders, so they can share a table |
| `VtableRules.PrimaryChainAtZero` | haribote/omake/tolsrc/go_0023s/cp/class.c:5015-5030 | primary bases of primary bases are all at the same address |
| `VptrTheorem.OneTablePerAddress` | haribote/omake/tolsrc/go_0023s/cp/class.c:2539-2577 | in every hierarchy laid out by the rules, two subobjects that get virtual tables of their own are at different addresses |
| `VptrTheorem.EveryPointerHasTable` | haribote/omake/tolsrc/go_0023s/cp/class.c:2539-2577 | at the address of every polymorphic subobject there is one that gets a table |
| `VtableRules.SigsAreVirtuals` | haribote/omake/tolsrc/go_0023s/cp/class.c:1564-1579 | the primary table has a slot for exactly the functions that the class or a class on its chain of primary bases declares |
| `VtableRules.TablesStayRight` | haribote/omake/tolsrc/go_0023s/cp/class.c:5046-5096 | completing further classes leaves earlier tables right |
| `Vtables.OverriderOnPath` | haribote/omake/tolsrc/go_0023s/cp/class.c:2240-2275 | along the path to a base, the first class that declares the function, with its offset |
| `Vtables.FindFinalOverrider` | haribote/omake/tolsrc/go_0023s/cp/class.c:2357-2403 | without virtual bases, the walk over all paths to the base ends with its final overrider, and with the overrider's offset |
| `Vtables.UpdateVtableEntryForFn` | haribote/omake/tolsrc/go_0023s/cp/class.c:2426-2535 | the slot gets the final overrider and the distance to it |
| `SlotLists.Table.CopyVirtuals` | haribote/omake/tolsrc/go_0023s/cp/class.c:597-615 | a list of new nodes with the same slots |
| `SlotLists.Table.MakeNewVtable` | haribote/omake/tolsrc/go_0023s/cp/class.c:678-723 | the first call gives the subobject a list of its own, later ones do nothing |
| `SlotLists.Table.ModifyVtableEntry` | haribote/omake/tolsrc/go_0023s/cp/class.c:732-778 | one entry is overwritten in place, in a new list if the subobject still shared that of its class, where the entry is found again by its function; a function that had no DECL_VINDEX and DECL_VIRTUAL_CONTEXT gets those of the function it replaces, if that has them, and no other function's change |
| `SlotLists.Table.ChainOn` | haribote/omake/tolsrc/go_0023s/cp/class.c:5093-5095 | new entries at the end of the list |
| `SlotLists.ListsApart` | haribote/omake/tolsrc/go_0023s/cp/class.c:690-694 | lists of different subobjects have no node in common |
| `Vtables.ModifySlots` | haribote/omake/tolsrc/go_0023s/cp/class.c:2539-2577 | a new list, whose entries, updated in step with the list of the class, hold the right slots; no node that there was before is written to; after each entry every function that has an index still finds itself there, and functions settled before keep theirs |
| `Vtables.VtableGroup.DfsModifyVtables` | haribote/omake/tolsrc/go_0023s/cp/class.c:2539-2577 | exactly the subobjects below that need a list get one, it is right, and the lists of the bases' own classes stay as they were; the functions of the class that its primary base has can be called afterwards |
| `Vtables.AppendNewVirtuals` | haribote/omake/tolsrc/go_0023s/cp/class.c:2588-2635 | the functions that are new get consecutive indices from the base's VSIZE on, and the class itself as their context, whatever an overridden function gave them; nothing else changes, and VSIZE ends one past the last |
| `Vtables.InheritedOrNew` | haribote/omake/tolsrc/go_0023s/cp/class.c:2609-2632 | a declared function is in the updated table exactly if the primary base has its signature |
| `Dispatching.OverriderCallable` | haribote/omake/tolsrc/go_0023s/cp/class.c:765-777 | taking over the index and the context of a function of a base makes an overrider callable by them, leaves all others callable, and changes nothing that was settled |
| `Dispatching.NewCallable` | haribote/omake/tolsrc/go_0023s/cp/class.c:2602-2632 | with the new functions indexed, every function of the class is callable, and its context is the class itself exactly if the primary base does not have the function |
| `ClassFinisher.Finisher.FinishStruct` | haribote/omake/tolsrc/go_0023s/cp/class.c:4985-5164 | completing a class lays it out and builds its lists rightly, VSIZE being the length of the list, makes all its functions callable, and leaves every earlier class, list, index and context as it was |
| `ClassFinisher.Finisher.FinishAll` | haribote/omake/tolsrc/go_0023s/cp/class.c:4985-5164 | the same for any sequence of declarations |
| `ClassFinisher.FinishedClassesAreRight` | haribote/omake/tolsrc/go_0023s/cp/class.c:4985-5164 | after any run: addresses are unique, and a call through any subobject, by any slot of the static type's table, reaches the final overrider with the right adjustment |
| `ClassFinisher.CallByIndex` | haribote/omake/tolsrc/go_0023s/cp/call.c:4356-4371 | after any run: once an object, as part of any complete object, is converted to DECL_VIRTUAL_CONTEXT of a function, along whichever path leads there, slot DECL_VINDEX of the table used there has the final overrider of the function as seen from its own class, and the adjustment from the converted object |
| `ClassFinisher.EveryFunctionCallable` | haribote/omake/tolsrc/go_0023s/cp/call.c:4358-4364 | every virtual function of a completed class has an index and a context, the class has the context as a base, as the call asserts, and no conversion is needed exactly if the primary base does not have the function |
| `ClassFinisher.SameOverrider` | haribote/omake/tolsrc/go_0023s/cp/class.c:767-774 | it does not matter through which base of a declaring class the function is called |
| `FinalOverrider.FinalOverriderData.Visit` | haribote/omake/tolsrc/go_0023s/cp/class.c:2280-2345 | one visit changes the partial answer as the specification's step does |
| `FinalOverrider.StepSound` | haribote/omake/tolsrc/go_0023s/cp/class.c:2280-2345 | the answer stays sound: a best overrider dominates everything visited, and otherwise the candidates cover everything visited and nothing dominates |
| `FinalOverrider.WalkIsExact` | haribote/omake/tolsrc/go_0023s/cp/class.c:2195-2403 | with a strict partial order the walk ends with a function exactly when one visited overrider strictly overrides every other |
| `FinalOverrider.WalkOrderIrrelevant` | haribote/omake/tolsrc/go_0023s/cp/class.c:2195-2403 | the answer does not depend on the order of the visits |
| `FinalOverrider.ExactIffTransitive` | haribote/omake/tolsrc/go_0023s/cp/class.c:2637-2653 | for an asymmetric relation the walk is exact on all visits if and only if the relation is transitive |
| `SharedBases.LookupBase` | haribote/omake/tolsrc/go_0023s/cp/search.c:187-364 | with access ignored, a base is found exactly if the class has one subobject of its type, shared or not; the kind says whether there is none, the class itself, or more than one; the assertion in the loop holds |
| `SharedBases.PathsAreAll` | haribote/omake/tolsrc/go_0023s/cp/search.c:1691-1750 | the depth-first walk meets exactly the paths of the hierarchy |
| `SharedOverrider.StrictlyOverridesByLookup` | haribote/omake/tolsrc/go_0023s/cp/class.c:2637-2653 | one function overrides another exactly if its class has the other's as a unique proper base |
| `SharedOverrider.WalkPath` | haribote/omake/tolsrc/go_0023s/cp/class.c:2240-2250 | along a path, the outermost class that declares the function, with its offset |
| `SharedOverrider.Walk` | haribote/omake/tolsrc/go_0023s/cp/class.c:2222-2350 | the visits are the overriders along all paths to the declaring base, which type and offset tell, in the order of the walk |
| `SharedOverrider.FindFinalOverrider` | haribote/omake/tolsrc/go_0023s/cp/class.c:2357-2403 | the answer for those visits, and none if it is ambiguous |
| `OverriderTheorem.ExactIffNoBrokenChain` | haribote/omake/tolsrc/go_0023s/cp/class.c:2222-2403 | for any declaring subobject of a virtual base: in every class that can still be declared, laid out in any way, the search ends with the visited overrider that strictly overrides all others and with none if there is none such, if and only if no chain of unique bases among the classes it can come to first ends in an ambiguous base |
| `OverriderTheorem.FirstIsEntry` | haribote/omake/tolsrc/go_0023s/cp/class.c:2240-2250 | whatever path leads to the declaring base, it first comes to the function of a class around the virtual base or to the first one within it |
| `OverriderTheorem.TransitiveIsEnough` | haribote/omake/tolsrc/go_0023s/cp/class.c:2222-2403 | if overriding is transitive among these functions, the search in any class is right |
| `OverriderTheorem.WrongOverrider` | haribote/omake/tolsrc/go_0023s/cp/class.c:2280-2305 | a class with the three classes of a broken chain as bases, the overridden ones first, is given a function that does not override all others |
| `OverriderTheorem.AmbiguousOverrider` | haribote/omake/tolsrc/go_0023s/cp/class.c:2280-2345 | with the same bases the other way round it is ambiguous |
| `OverriderTheorem.AcceptedInOneOrder` | haribote/omake/tolsrc/go_0023s/cp/class.c:2644-2653 | five classes and a sixth for which the first happens |
| `OverriderTheorem.AmbiguousInTheOther` | haribote/omake/tolsrc/go_0023s/cp/class.c:2644-2653 | the same six for which the second happens |
| `OverriderTheorem.ChainOfOverriders` | haribote/omake/tolsrc/go_0023s/cp/class.c:2644-2653 | of three functions in a chain the first fails to override the last exactly if the last one's class is an ambiguous base |
| `OverriderTheorem.OverridingAsymmetric` | haribote/omake/tolsrc/go_0023s/cp/class.c:2644-2653 | no two functions override each other |
| `OverriderTheorem.NonVirtualIsExact` | haribote/omake/tolsrc/go_0023s/cp/class.c:2357-2403 | for a base that is not within a virtual base the search is always right |
| `VtblInit.VtblInitData.AddVbase` | haribote/omake/tolsrc/go_0023s/cp/class.c:7627-7682 | a virtual base not yet marked gets the next index, and its entry lands there; the abort happens exactly if the base's own class recorded another index |
| `VtblInit.VtblInitData.BuildVbaseOffsets` | haribote/omake/tolsrc/go_0023s/cp/class.c:7585-7684 | the entries of the virtual bases not yet there follow, in the order of the binfo chain; no abort if they are where they are expected |
| `VtblInit.VtblInitData.AddVcall` | haribote/omake/tolsrc/go_0023s/cp/class.c:7826-7895 | a slot gets the index of an entry for a function of its signature, or for a destructor if it is of one, and shares it with no other function |
| `VtblInit.VtblInitData.AddVcalls` | haribote/omake/tolsrc/go_0023s/cp/class.c:7724-7756 | exactly the functions introduced in the virtual base and its non-virtual bases get an index, and each index is right |
| `VtblInit.SlotIsIntroduced` | haribote/omake/tolsrc/go_0023s/cp/class.c:7724-7833 | the slots that get an index are of functions that the virtual base or a class below it, reached through non-virtual bases, introduces |
| `VtblInit.IntroducedIsSlot` | haribote/omake/tolsrc/go_0023s/cp/class.c:7724-7756 | and all of these get one, a primary base having its slots in the list of the class that it is primary in |
| `VtblInit.IndicesShared` | haribote/omake/tolsrc/go_0023s/cp/class.c:7838-7860 | two slots have one index exactly if their functions have one signature, or both are destructors |
| `VtblInit.OwnAdjustment` | haribote/omake/tolsrc/go_0023s/cp/class.c:7862-7888 | where functions of one signature are overridden in one class, the entry of every slot adjusts to the very function of that slot |
| `VtblInit.VtblInitData.BuildNegative` | haribote/omake/tolsrc/go_0023s/cp/class.c:7561-7578 | every recorded index is where its entry lands; with non-virtual primary bases the entries begin with those of the primary base, and the abort is unreachable |
| `VtblInit.PrimaryIndicesKept` | haribote/omake/tolsrc/go_0023s/cp/class.c:7568-7577 | a class keeps the indices of its primary base |
| `VtblInit.LandsInTable` | haribote/omake/tolsrc/go_0023s/cp/class.c:7547-7555 | after the reversal, what came out as entry number k is at index -(k+1) from the address point |
| `VtblInit.BuildFunctions` | haribote/omake/tolsrc/go_0023s/cp/class.c:7462-7549 | the function entries are in slot order after the reversal |
| `VtblInit.OffsetToWhole` | haribote/omake/tolsrc/go_0023s/cp/class.c:7917-7931 | the offset-to-top entry leads back from the most primary base |
| `VtblInit.BuildVtblInitializer` | haribote/omake/tolsrc/go_0023s/cp/class.c:7410-7556 | in the finished table function i is at index i, type information at -1, offset to top at -2, and every other entry at the index recorded for it; where functions of one signature are overridden in one class, the vcall offset found for a slot is the distance to the class of its own function, and slots share an index exactly if their signatures are the same or both are destructors |
| `VtblInit.VtableFinisher.FinishPrimary` | haribote/omake/tolsrc/go_0023s/cp/class.c:7639-7658 | class after class, with non-virtual primary bases there is no abort and the recorded indices find the right offsets |
| `VtblInit.VtableFinisher.FinishSecondary` | haribote/omake/tolsrc/go_0023s/cp/class.c:7585-7684 | in the table of any base subobject of any complete object, the index that the base's own class recorded for a virtual base holds the distance to that virtual base |
| `VtblInit.ChainIsRecorded` | haribote/omake/tolsrc/go_0023s/cp/class.c:7648-7660 | the consistency check holds for every subobject whose primary bases are not virtual |
| `Vtt.VttBuilder.BuildVtt` | haribote/omake/tolsrc/go_0023s/cp/class.c:6944-7046 | the VTT is the primary pointer, the sub-VTTs of non-virtual bases, the secondary pointers, the sub-VTTs of virtual bases; the running index is the pointer size times the number of entries; exactly the right subobjects have BINFO_VPTR_INDEX and BINFO_SUBVTT_INDEX, and each points at its entry or its whole sub-VTT |
| `Vtt.VttBuilder.BuildSubVtt` | haribote/omake/tolsrc/go_0023s/cp/class.c:6944-7046 | a sub-VTT is emitted in one piece at the index recorded for it, and disturbs nothing recorded before |
| `Vtt.VttBuilder.AddSecondary` | haribote/omake/tolsrc/go_0023s/cp/class.c:6993-7020 | the pointers collected backwards end up in the order of the walk, at the indices recorded during it |
| `Vtt.VttBuilder.WalkNode` | haribote/omake/tolsrc/go_0023s/cp/search.c:1691-1735 | the walk is in preorder and leaves out what is marked |
| `Vtt.VttBuilder.Climb` | haribote/omake/tolsrc/go_0023s/cp/class.c:7098-7106 | the base of which, in turn, the virtual base is primary |
| `Vtt.VttBuilder.VisitNode` | haribote/omake/tolsrc/go_0023s/cp/class.c:7055-7113 | one visit takes the next index if the subobject needs a pointer |
| `Vtt.VttBuilder.Unmark` | haribote/omake/tolsrc/go_0023s/cp/search.c:1740-1748 | the second walk clears exactly the marks of the subobjects reached |
| `Vtt.SecondaryIsComplete` | haribote/omake/tolsrc/go_0023s/cp/class.c:7115-7132 | the first walk meets every subobject, shared virtual bases included, exactly once |
| `VttTheorem.WalkIsPreorder` | haribote/omake/tolsrc/go_0023s/cp/search.c:1691-1735 | each subobject is visited along some path, the visit knows whether that path passes a virtual base, and the paths come in preorder |
| `VttTheorem.ReachedByPath` | haribote/omake/tolsrc/go_0023s/cp/class.c:7115-7132 | every subobject is reached by a path through the one copy of each virtual base |
| `VttTheorem.PathsReach` | haribote/omake/tolsrc/go_0023s/cp/class.c:7115-7132 | and nothing else is |
| `VttTheorem.PointersInOrder` | haribote/omake/tolsrc/go_0023s/cp/class.c:7055-7113 | each subobject that asks for a secondary virtual pointer has it behind those visited before, and there are no others; for the complete object that of a virtual base leads to the outermost base it is primary in, and in a sub-VTT each leads to its own table |
| `VttTheorem.SharesWithOutermost` | haribote/omake/tolsrc/go_0023s/cp/class.c:7101-7108 | the base whose table a virtual base uses is the outermost that it is primary in, in turn |
| `VttTheorem.VttInOrder` | haribote/omake/tolsrc/go_0023s/cp/class.c:6957-7019 | a class without virtual bases has no VTT; otherwise the primary virtual pointer comes first, then the sub-VTTs, then the secondary pointers, and nothing else |
| `VttTheorem.BaseBlock` | haribote/omake/tolsrc/go_0023s/cp/class.c:6982-6989 | the sub-VTT of a direct non-virtual base is behind those of the bases before it; a virtual base has none there |
| `VttTheorem.VbaseBlock` | haribote/omake/tolsrc/go_0023s/cp/class.c:7021-7032 | the sub-VTT of a virtual base is behind those of the virtual bases before it |
| `VttTheorem.ConstructedIsSubNode` | haribote/omake/tolsrc/go_0023s/cp/class.c:6957-6989 | each non-virtual base, at any depth, that is reached through classes with virtual bases and has some itself has a sub-VTT inside |
| `VttTheorem.SubNodeIsConstructed` | haribote/omake/tolsrc/go_0023s/cp/class.c:6957-6989 | and no other subobject has |
| `BasePath.ConvertMoves` | haribote/omake/tolsrc/go_0023s/cp/class.c:249-364 | the expression built keeps the null pointer null and moves any other by the offset, with or without the null test |
| `BasePath.ConversionsCompose` | haribote/omake/tolsrc/go_0023s/cp/class.c:249-364 | converting in two steps is converting along the joined path, on every pointer, exactly unless the base in between would be at address zero |
| `BasePath.ThereAndBack` | haribote/omake/tolsrc/go_0023s/cp/class.c:249-364 | derived to base and back is the identity on every pointer, null included, unless the base would wrap round to address zero |
| `BasePath.BackAndThere` | haribote/omake/tolsrc/go_0023s/cp/class.c:249-364 | base to derived and back is the identity exactly unless the derived object would be at address zero |
| `BasePath.DifferentBasesDifferentPointers` | haribote/omake/tolsrc/go_0023s/cp/class.c:249-364 | converted pointers to two subobjects of one type are equal only if the subobjects are the same |
| `MethodVec.ClassType.AddMethod` | haribote/omake/tolsrc/go_0023s/cp/class.c:802-988 | through growth and sliding, the vector holds the table with the method in front of its slot, or the unchanged table if a function is in the way; and which of the two it was |
| `MethodVec.ClassType.FindSlot` | haribote/omake/tolsrc/go_0023s/cp/class.c:836-842 | the slot of the name, or the first empty one |
| `MethodVec.ClassType.MakeRoom` | haribote/omake/tolsrc/go_0023s/cp/class.c:868-905 | everything from the first ordinary method on slides up by one, and nothing is lost |
| `MethodVec.ClassType.Grow` | haribote/omake/tolsrc/go_0023s/cp/class.c:844-866 | the vector doubles, or grows by one after an error, and holds the same |
| `MethodVec.AddedKeepsWellFormed` | haribote/omake/tolsrc/go_0023s/cp/class.c:802-988 | constructors in slot 0, destructors in slot 1, conversions before the rest, one slot per name and one name per slot, and no two functions of a slot in conflict (unless the class is a template) |
| `MethodVec.AddedOverloads` | haribote/omake/tolsrc/go_0023s/cp/class.c:979-981 | a method that is let in joins its own slot, in front, and no other slot changes |
| `MethodVec.RunIsJoined` | haribote/omake/tolsrc/go_0023s/cp/class.c:802-988 | after any run, each slot holds what a plain list kept for its name alone would hold |
| `MethodVec.EntersIfDifferent` | haribote/omake/tolsrc/go_0023s/cp/class.c:916-959 | outside a template, a method gets in exactly if it differs from every function of its name in being a template, in its parameters, in the qualifiers of its object (which do not count next to a static function), or, for a conversion operator, in its result |
| `MethodVec.WhoDefers` | haribote/omake/tolsrc/go_0023s/cp/class.c:955-974 | a function of the class that is in conflict is always an error; one from a using-declaration gives way silently if only functions of the class itself are in its way, and is an error if none of those is |
| `MethodVec.OverloadsDiffer` | haribote/omake/tolsrc/go_0023s/cp/class.c:802-988 | after any run, any two functions of a slot are different in that sense |
| `MethodVec.NothingLost` | haribote/omake/tolsrc/go_0023s/cp/class.c:802-988 | after any run, every method that was added is in its slot, or an earlier one that it does not differ from |
| `ClassStack.ClassScopes.PushClass` | haribote/omake/tolsrc/go_0023s/cp/class.c:5452-5532 | one more scope, with the access that the class starts with, private after `class` and public otherwise, whether or not the stack had to double |
| `ClassStack.ClassScopes.PopClass` | haribote/omake/tolsrc/go_0023s/cp/class.c:5555-5569 | the scope below is current again, with the access it had |
| `ClassStack.ClassScopes.CurrentlyOpen` | haribote/omake/tolsrc/go_0023s/cp/class.c:5575-5586 | true exactly if the class is among the open ones |
| `ClassStack.ClassScopes.PushNestedClass` | haribote/omake/tolsrc/go_0023s/cp/class.c:5615-5636 | all enclosing classes are opened, outermost first, then the class |
| `ClassStack.ClassScopes.VisitNested` | haribote/omake/tolsrc/go_0023s/cp/class.c:5613-5648 | pushing a nested class and popping it is the identity at any depth |
| `ClassStack.ClassScopes.Perform` | haribote/omake/tolsrc/go_0023s/cp/class.c:5452-5569 | any balanced run restores name, type, access, depth and everything below |
| `Building.StandardIsCanonical` | haribote/omake/tolsrc/go_0023s/cp/call.c:689-902 | every sequence that `standard_conversion` builds is canonical and starts from the type converted |
| `Building.BindingOfReferenceIsCanonical` | haribote/omake/tolsrc/go_0023s/cp/call.c:1097-1243 | so is every reference binding, direct, through a conversion function, or to a temporary |
| `Building.ByUserIsCanonical` | haribote/omake/tolsrc/go_0023s/cp/call.c:2403-2589 | so is what a user-defined conversion leaves, its result converted further |
| `Building.ImplicitIsCanonical` | haribote/omake/tolsrc/go_0023s/cp/call.c:1250-1298 | whatever the types, the expression and the user-defined conversions, `implicit_conversion` builds a canonical sequence |
| `Building.CandidateIsCanonical` | haribote/omake/tolsrc/go_0023s/cp/call.c:1372-1432 | the conversions of every candidate are canonical, the one of the implicit object and those for an ellipsis included |
| `Admission.ClassPointers` | haribote/omake/tolsrc/go_0023s/cp/call.c:780-839 | a pointer to a class converts properly to a pointer to a class exactly if that is the class itself or a base of it, and no qualifier is lost; it is an exact match in the first case and a conversion in the second |
| `Admission.PointersToVoid` | haribote/omake/tolsrc/go_0023s/cp/call.c:780-839 | a pointer converts properly to a pointer to void exactly if it is to an object and no qualifier is lost |
| `Admission.OtherPointers` | haribote/omake/tolsrc/go_0023s/cp/call.c:780-839 | a pointer to void converts to no other pointer, a pointer to a scalar only to one to the same type, if no qualifier is lost |
| `Admission.PointersToPointers` | haribote/omake/tolsrc/go_0023s/cp/call.c:818-835 | a pointer to a pointer converts exactly to what is similar, loses no qualifier at any level, and gains one only if all levels outside it are const |
| `Admission.MemberPointers` | haribote/omake/tolsrc/go_0023s/cp/call.c:798-813 | a pointer to a data member converts to one of a class of which its own is a base, if no qualifier is lost |
| `Admission.MemberFunctionPointers` | haribote/omake/tolsrc/go_0023s/cp/call.c:841-860 | so does a pointer to a member function of the same type |
| `Admission.NullPointers` | haribote/omake/tolsrc/go_0023s/cp/call.c:756-763 | the null pointer constant converts to every pointer and pointer to member |
| `Admission.NumbersAndPointers` | haribote/omake/tolsrc/go_0023s/cp/call.c:764-771 | without one, no number converts properly to a pointer, and no pointer to a number other than bool |
| `Admission.Classes` | haribote/omake/tolsrc/go_0023s/cp/call.c:887-902 | a class converts to itself and its bases and to nothing else, but for user-defined conversions |
| `Admission.LvaluesBind` | haribote/omake/tolsrc/go_0023s/cp/call.c:1117-1160 | an lvalue of class type binds directly to a reference to its class or a base that is at least as qualified, whatever else it could be converted by |
| `Admission.TemporariesNeedConst` | haribote/omake/tolsrc/go_0023s/cp/call.c:1183-1201 | what is not an lvalue, or of class type, does not bind to a reference to anything but const |
| `Admission.BindingKeepsQualifiers` | haribote/omake/tolsrc/go_0023s/cp/call.c:1223-1231 | no reference binds to its own type more qualified |
| `Admission.ConstBindsTemporary` | haribote/omake/tolsrc/go_0023s/cp/call.c:1223-1242 | a reference to const binds to whatever converts to its type, and the binding is of the same kind as that conversion |
| `Admission.ByConversionFunction` | haribote/omake/tolsrc/go_0023s/cp/call.c:2472-2588 | a conversion function is used exactly if its result converts without another one; the whole is bad if either part is, and keeps the rank of the second one |
| `Admission.ByConstructors` | haribote/omake/tolsrc/go_0023s/cp/call.c:2575-2588 | a constructor leaves nothing to convert |
| `Admission.UserIsLast` | haribote/omake/tolsrc/go_0023s/cp/call.c:1250-1298 | a user-defined conversion is tried only if there is no standard one and a class is involved, and an ambiguous one is bad |
| `Admission.ObjectIsBinding` | haribote/omake/tolsrc/go_0023s/cp/call.c:4788-4818 | the sequence for the object of a method is compared as the binding of a reference to that object: an exact match for its own class and a conversion for a base |
| `Conversions.CompareAntisymmetric` | haribote/omake/tolsrc/go_0023s/cp/call.c:4848-5181 | on canonical sequences swapping the arguments negates the answer, if and only if the two are not both bad with a tie-break that disagrees; if they are, both answers are -1 |
| `Conversions.BothWorse` | haribote/omake/tolsrc/go_0023s/cp/call.c:4897-4909 | two bad sequences from an int that are each worse than the other |
| `Conversions.SubsequenceAsymmetric` | haribote/omake/tolsrc/go_0023s/cp/call.c:4727-4762 | no two canonical sequences from one type are proper subsequences of each other |
| `Conversions.SignatureAsymmetric` | haribote/omake/tolsrc/go_0023s/cp/typeck.c:6628-6669 | no qualification signature is a proper subset of itself, at any number of levels |
| `Qualification.SignatureMeaning` | haribote/omake/tolsrc/go_0023s/cp/typeck.c:6628-6669 | with -1, `comp_ptr_ttypes_real` says exactly that the types are similar, no level loses a qualifier, and some level gains one |
| `Qualification.QualificationMeaning` | haribote/omake/tolsrc/go_0023s/cp/typeck.c:6628-6669 | otherwise, that the types are similar, no level loses a qualifier, and a level gains one only if all levels outside it are const |
| `Qualification.CompareQualsMeaning` | haribote/omake/tolsrc/go_0023s/cp/typeck.c:1293-1306 | 1 exactly if the first has the qualifiers of the second and more, -1 the other way round |
| `Conversions.CompareDerivationAntisymmetric` | haribote/omake/tolsrc/go_0023s/cp/call.c:5002-5157 | the rules about derivation, for pointers, pointers to members, classes and references, are antisymmetric |
| `Conversions.ReferredIsCanonical` | haribote/omake/tolsrc/go_0023s/cp/call.c:4788-4839 | rewriting an implicit object and taking off a reference binding keep a sequence canonical |
| `Ranking.BetterCarriesOver` | haribote/omake/tolsrc/go_0023s/cp/call.c:4848-5181 | of three sequences that `implicit_conversion` builds for one expression, to any types, values or references, the first without a user-defined conversion: if each is better than the next, the first is better than the last, exactly unless their ranks are the same, the first leads to a pointer to a class that is not a base of the class pointed to, and the last to a pointer to void |
| `Ranking.TwoReasons` | haribote/omake/tolsrc/go_0023s/cp/call.c:4965-5178 | sequences for one expression that no rank tells apart are told apart by derivation or by qualification, and what derivation says is not affected by qualification |
| `Ranking.SubsequenceIsOver` | haribote/omake/tolsrc/go_0023s/cp/call.c:4727-4762 | among such sequences the only proper subsequence is a pointer conversion of the same one qualified |
| `Ranking.SubsequenceMeaning` | haribote/omake/tolsrc/go_0023s/cp/call.c:4727-4762 | one sequence is a subsequence of another exactly if, lvalue transformations apart, its last conversion is the same, between the same types, as some conversion strictly inside the other |
| `Ranking.DerivationIsNearer` | haribote/omake/tolsrc/go_0023s/cp/call.c:5002-5157 | the rules about derivation, in one table over what the types are about |
| `Ranking.SourcesAreNearer` | haribote/omake/tolsrc/go_0023s/cp/call.c:5002-5157 | and in one table over what they start from, for one target |
| `Ranking.NearerTransitive` | haribote/omake/tolsrc/go_0023s/cp/call.c:5046-5110 | these rules carry over from one target to the next, exactly except across the gap at void |
| `Ranking.TighterTransitive` | haribote/omake/tolsrc/go_0023s/cp/call.c:5159-5178 | so do, without exception, being a proper subsequence, a smaller qualification signature and a less qualified reference, in any mixture |
| `Ranking.MoreQualifiedTransitive` | haribote/omake/tolsrc/go_0023s/cp/typeck.c:6628-6669 | qualification signatures are transitive, at any number of levels |
| `Ranking.ImplicitIsSeen` | haribote/omake/tolsrc/go_0023s/cp/call.c:1250-1298 | a sequence without a user-defined conversion is the one conversion to its type, a direct binding, or the binding of a temporary that is not of a base class |
| `Ranking.ArraysAreNotRanked` | haribote/omake/tolsrc/go_0023s/cp/call.c:4953-5001 | sequences that start from an array are told apart by qualification only |
| `Joust.Joust` | haribote/omake/tolsrc/go_0023s/cp/call.c:5234-5503 | the loops and early exits decide as the rules do: viability, then better on some argument and worse on none, then templates, second conversions, built-in operators, and the worst rank if the arguments conflict or nothing else decides |
| `Joust.CompareArguments` | haribote/omake/tolsrc/go_0023s/cp/call.c:5268-5333 | the loop tells a conflict, and otherwise which candidate some argument is better for, static and non-static members being lined up |
| `Joust.WorstRanks` | haribote/omake/tolsrc/go_0023s/cp/call.c:5469-5483 | the worst ranks of both candidates |
| `Joust.OutcomeAntisymmetric` | haribote/omake/tolsrc/go_0023s/cp/call.c:5234-5503 | swapping two distinguishable candidates negates the outcome |
| `Joust.OutcomeSwaps` | haribote/omake/tolsrc/go_0023s/cp/call.c:5234-5503 | if on some arguments both conversions are bad and each is worse, the outcome is negated if and only if there is no such argument, or each candidate is better on some argument, or viability decides; a win is a defeat of the other in any case |
| `TieBreaks.TemplateLoses` | haribote/omake/tolsrc/go_0023s/cp/call.c:5379-5386 | if no argument decides, a function that is not from a template is better than one that is |
| `TieBreaks.MoreSpecializedWins` | haribote/omake/tolsrc/go_0023s/cp/call.c:5388-5412 | of two templates the more specialized one is, for the arguments that count |
| `TieBreaks.SecondConversionDecides` | haribote/omake/tolsrc/go_0023s/cp/call.c:5414-5427 | if templates do not decide, the better second conversion does |
| `TieBreaks.BuiltinLoses` | haribote/omake/tolsrc/go_0023s/cp/call.c:5429-5459 | then any other function is better than a built-in operator of the same parameters |
| `TieBreaks.RedeclarationsAreOne` | haribote/omake/tolsrc/go_0023s/cp/call.c:5461-5465 | then of two declarations of one function the first is taken |
| `TieBreaks.DuplicatesAreOne` | haribote/omake/tolsrc/go_0023s/cp/call.c:5249-5253 | of two candidates that are one function the first is taken, without a look at the arguments |
| `TieBreaks.ExtensionDecides` | haribote/omake/tolsrc/go_0023s/cp/call.c:5467-5499 | if different arguments prefer different functions, the one is taken of which every conversion is of a better kind than some one of the other; neither, if pedantic |
| `Candidates.SpliceViable` | haribote/omake/tolsrc/go_0023s/cp/call.c:2341-2356 | the list is filtered in place, keeping its order |
| `Candidates.AnyViable` | haribote/omake/tolsrc/go_0023s/cp/call.c:2331-2339 | true exactly if the filtered list is not empty |
| `Tourney.Tourney` | haribote/omake/tolsrc/go_0023s/cp/call.c:5510-5559 | the two loops over the list pick the specified winner, with the specified number of jousts |
| `Tourney.WinnerBeatsAllButPredecessor` | haribote/omake/tolsrc/go_0023s/cp/call.c:5543-5556 | for any antisymmetric joust the winner beats all others except perhaps the one just before it, which then lost to a candidate the winner beats |
| `Tourney.BestIsFound` | haribote/omake/tolsrc/go_0023s/cp/call.c:5510-5559 | for any joust whatever, a candidate that beats all others, and to which all others lose, is returned |
| `Tourney.SecondIsReturned` | haribote/omake/tolsrc/go_0023s/cp/call.c:5521-5541 | of two candidates of which the first loses to the second, the second is returned, whatever the second does against the first |
| `Tourney.WinnerIsAbove` | haribote/omake/tolsrc/go_0023s/cp/call.c:5510-5559 | for any joust whatever, if the candidates of some group beat all others and these lose to them, and the group is not empty, the winner, if there is one, is of the group |
| `Tourney.TransitiveIsExact` | haribote/omake/tolsrc/go_0023s/cp/call.c:5510-5559 | if the joust is transitive as well, c is returned exactly when c beats all others, and nothing exactly when nobody does |
| `Tourney.ExactIffPredecessorBeaten` | haribote/omake/tolsrc/go_0023s/cp/call.c:5546-5549 | on one list the answer is right exactly if the winner beats its immediate predecessor |
| `Tourney.ExactIffTransitive` | haribote/omake/tolsrc/go_0023s/cp/call.c:5510-5559 | it is right on all lists from a set of candidates if and only if the joust is transitive there |
| `Tourney.JoustsBound` | haribote/omake/tolsrc/go_0023s/cp/call.c:5505-5508 | for two candidates or more and any joust whatever, at most 2n-3 jousts |
| `Tourney.AllTieCost` | haribote/omake/tolsrc/go_0023s/cp/call.c:5505-5508 | if every pair ties, exactly half of n jousts, rounded up, and no winner |
| `Choice.ChooseFunction` | haribote/omake/tolsrc/go_0023s/cp/call.c:2671-2694 | the function called is the winner among the viable candidates, or none |
| `Choice.GradedChoiceIsExact` | haribote/omake/tolsrc/go_0023s/cp/call.c:5234-5559 | with graded conversions the joust is antisymmetric and transitive, so that the winner is really better than every other candidate, and is found if there is one |
| `Choice.JoustTransitive` | haribote/omake/tolsrc/go_0023s/cp/call.c:5234-5503 | of three candidates with graded conversions the first beats the third, through every combination of dominance, templates, built-in operators and worst ranks |
| `Choice.RanksAreGraded` | haribote/omake/tolsrc/go_0023s/cp/call.c:576-580 | conversions compared by ICS_RANK alone are graded |
| `Choice.BestFunctionIsChosen` | haribote/omake/tolsrc/go_0023s/cp/call.c:5510-5559 | of candidates with the conversions that `implicit_conversion` builds, compared as they really are, one better than all others is always chosen, bad conversions that upset the comparison included |
| `Choice.JoustSwaps` | haribote/omake/tolsrc/go_0023s/cp/call.c:5234-5503 | a joust of two such candidates is negated when they are swapped, exactly if no two bad conversions upset it; a win is a defeat of the other in any case |
| `Choice.ContestIsAntisymmetric` | haribote/omake/tolsrc/go_0023s/cp/call.c:5234-5503 | the joust of such candidates is antisymmetric exactly if no two bad conversions upset one |
| `Preference.KindDecides` | haribote/omake/tolsrc/go_0023s/cp/call.c:4888-4894 | of two canonical sequences one of a better kind is better, whatever else is in them; the kinds are, best first: exact match, promotion, conversion, pointer to bool, user-defined, ellipsis, bad |
| `Preference.LessBad` | haribote/omake/tolsrc/go_0023s/cp/call.c:4897-4909 | of two bad sequences one is better that has a better standard rank, or no user-defined conversion where the other has one, and is not worse in the other respect |
| `Preference.OutrankingIsChosen` | haribote/omake/tolsrc/go_0023s/cp/call.c:5268-5559 | a function that has conversions of a better kind for some argument, and better or the same ones for all others, than each other viable function is called, wherever it is in the list |
| `Preference.ProperBeatsBad` | haribote/omake/tolsrc/go_0023s/cp/call.c:5243-5248 | a function without a bad conversion beats every one with one, either way round |
| `Preference.ChosenIsProper` | haribote/omake/tolsrc/go_0023s/cp/call.c:5243-5248 | if there is a function without a bad conversion, the one that is called, if any, has none |
| `Preference.BadIsLessViable` | haribote/omake/tolsrc/go_0023s/cp/call.c:1424-1435 | a candidate is viable -1 exactly if some conversion is bad |
| `Preference.BadIsViable` | haribote/omake/tolsrc/go_0023s/cp/call.c:2331-2356 | such a candidate is considered unless the compiler is pedantic; one with viability 0 never is |
| `Preference.ArithmeticKinds` | haribote/omake/tolsrc/go_0023s/cp/call.c:860-886 | an arithmetic value converts to every integer, floating and bool type: exactly to its own, by a promotion to what it promotes to, by a conversion to any other |
| `Preference.EnumerationsAreApart` | haribote/omake/tolsrc/go_0023s/cp/call.c:772-779 | and to no enumeration properly, but its own |
| `Preference.PointerToBoolean` | haribote/omake/tolsrc/go_0023s/cp/call.c:860-871 | a pointer, or a pointer to member, converts to bool, and that is of a kind of its own |
| `Preference.OnlyToBoolean` | haribote/omake/tolsrc/go_0023s/cp/call.c:860-886 | every other standard conversion is of a better kind |
| `Preference.BetterKindIsCalled` | haribote/omake/tolsrc/go_0023s/cp/call.c:4888-5559 | of two functions of one parameter the one is called to which the argument has the better kind of conversion, in either order |
| `Preference.PromotionIsCalled` | haribote/omake/tolsrc/go_0023s/cp/call.c:879-885 | of two functions of arithmetic types the one of the type of the argument is called, or else that of the type that it promotes to, in either order |
| `Miscalls.AmbiguousCallAccepted` | haribote/omake/tolsrc/go_0023s/cp/call.c:5543-5556 | three functions of two pointers, with the conversions that `implicit_conversion` builds for any two pointer arguments, lvalues or not, none better than both others, of which the tournament picks one |
| `Miscalls.ToBaseIsBuilt` | haribote/omake/tolsrc/go_0023s/cp/call.c:756-800 | the conversion of a pointer to a base class that `implicit_conversion` builds |
| `Miscalls.ToBaseRanked` | haribote/omake/tolsrc/go_0023s/cp/call.c:5080-5110 | of two conversions of a pointer to a base, that to the more derived class is better, and unrelated classes tie |
| `Miscalls.OrderDecides` | haribote/omake/tolsrc/go_0023s/cp/call.c:4893-4909 | two functions, of a pointer and of a class that an int converts to ambiguously, called with one int: each loses to the other, and the second in the list is called |
| `Miscalls.BadCallAccepted` | haribote/omake/tolsrc/go_0023s/cp/call.c:5064-5078 | three functions of D*, B* and void* called with a pointer to const D, none better than both others, of which the tournament picks one |
| `Miscalls.ToUnconstIsBuilt` | haribote/omake/tolsrc/go_0023s/cp/call.c:783-835 | the bad conversions that `implicit_conversion` builds in that call |
| `Miscalls.ArrayIsAmbiguous` | haribote/omake/tolsrc/go_0023s/cp/call.c:4978-5001 | functions of B* and A* called with an array of D are ambiguous, though the conversion of a pointer to D to B* is better |
| `CallArgs.CheckArity` | haribote/omake/tolsrc/go_0023s/cp/call.c:1351-1370 | passes exactly if every parameter left over has a default and there is no surplus argument without an ellipsis |
| `CallArgs.SufficientParms` | haribote/omake/tolsrc/go_0023s/cp/call.c:615-624 | true exactly if all parameters have defaults |
| `CallArgs.AddFunctionCandidate` | haribote/omake/tolsrc/go_0023s/cp/call.c:1327-1444 | viability is 0, -1 or 1 as arity, missing conversions and bad conversions say, and a viable candidate has for each argument its conversion sequence |
| `CallArgs.ObjectArgument` | haribote/omake/tolsrc/go_0023s/cp/call.c:1392-1425 | the object of a method is converted to a pointer to the class that the function is taken to come from, as qualified as its own `this`, and the sequence is marked |
| `CallArgs.OtherArguments` | haribote/omake/tolsrc/go_0023s/cp/call.c:1395-1422 | any other argument is converted to its parameter, or goes to the ellipsis as it is |
| `CallArgs.BuildOverCall` | haribote/omake/tolsrc/go_0023s/cp/call.c:4212-4247 | the converted arguments, then the defaults, then the ellipsis arguments |
| `CallArgs.CallCandidate` | haribote/omake/tolsrc/go_0023s/cp/call.c:4144-4247 | a viable candidate is called with one argument for each declared parameter, in order, then one for each surplus argument, each passed by the conversion that overload resolution found for it |
| `CallArgs.ViableIsComplete` | haribote/omake/tolsrc/go_0023s/cp/call.c:1363-1370 | viable means that nothing is missing: defaults, ellipsis, conversions |
| `CmdLine.ConvCmdLine1` | haribote/omake/tolsrc/go_0023s/drv_osa/cmdline.c:3-26 | argc is the number of words, argv[i] points at the i-th in a buffer of strlen+1 bytes that is never overrun, argv[argc] is null |
| `CmdLine.SplitWords` | haribote/omake/tolsrc/go_0023s/drv_osa/cmdline.c:7-15 | the first pass leaves the words one after the other, each with its NUL |
| `CmdLine.FindWords` | haribote/omake/tolsrc/go_0023s/drv_osa/cmdline.c:16-23 | the second pass finds the starts again |
| `CmdLine.WordsAreWords` | haribote/omake/tolsrc/go_0023s/drv_osa/cmdline.c:8-15 | words consist of bytes above blank, and only the first may be empty |
| `CmdLine.WordsOfJoin` | haribote/omake/tolsrc/go_0023s/drv_osa/cmdline.c:8-15 | splitting any words joined by single blanks gives these words |
| `CmdLine.Resplit` | haribote/omake/tolsrc/go_0023s/drv_osa/cmdline.c:8-15 | splitting again what was split and joined changes nothing |

## Left out

- Virtual bases in the layout and dispatch modules: `layout_virtual_bases` places non-empty ones without a conflict check. `SharedBases`, `SharedOverrider`, `OverriderTheorem`, `VtblInit` and `Vtt` do have them.
- Data members of class or array type, bit-fields and static members: the walk over subobjects stops before the last element of an array, and of `place_field` only the rounding up to the alignment and the largest alignment are modelled.
- Sizes and offsets in bits: everything is in whole bytes, without wrap-around, except in `BasePath`, where addresses wrap at 32 bits.
- The `POD` flag, alignment attributes and the list of virtual functions of a class are inputs; nothing checks that they fit together.
- CLASSTYPE_NEARLY_EMPTY_P, CLASSTYPE_VFIELDS and run-time type information objects.
- SharedBases: access checking, and the kind of a base that is found apart from whether it is the class itself. Offsets are any that are different for different subobjects of one type.
- SlotLists: BV_VCALL_INDEX, the declarations of the tables, and the sharing of BINFO_VTABLE.
- VtblInit: a primary base is one of the direct bases, where a virtual one can be further away.
- Lost primary bases, pure virtual functions, function descriptors and construction vtables in `VtblInit`; which virtual tables a construction vtable group holds, and restoring BINFO_VTABLE, in `Vtt`.
- VtblInit.VtblInitData.AddVcalls: that the same vcall index serves a base in every class derived from it is not stated; it holds only along non-virtual primary bases, where there are no vcall entries.
- VtblInit.VtableFinisher.FinishPrimary: with a virtual base among the primary bases nothing is stated about the abort, because vcall offsets then come between the entries.
- Building: which user-defined conversion is chosen, and facts about scalar types and expressions, are inputs; an expression of the form `A::p` and error types are not modelled, nor is the check of accessibility and ambiguity when the sequence is applied.
- Conversions: an identity conversion without an expression has no operand type; the compiler would dereference a null pointer when it compares two of them, the model says they are the same.
- Conversions.ReferredIsCanonical: `maybe_handle_ref_bind` copies flags into a shared node; the model copies the node.
- Ranking.BetterCarriesOver: nothing is said when the first sequence has a user-defined conversion, which starts from the return type of a function that is an input here; nor of sequences for an implicit object or an ellipsis, which `add_function_candidate` marks later.
- Pointers to member functions are records but never classes; derivation is about classes without virtual bases.
- Joust: the warnings it gives or stores; two candidates of different lengths that are not a static and a non-static member make it abort.
- Joust.OutcomeAntisymmetric: `more_specialized` is told the number of arguments of the first candidate only, so its antisymmetry is assumed for the numbers of both.
- Choice.GradedChoiceIsExact: candidates with second conversions, or with one conversion more for a non-static member than for a static one, are not covered.
- Templates, except as names that `more_specialized` orders; building the candidate list; how user-defined conversions choose functions.
- CallArgs: the artificial arguments of constructors, which are passed as they are; what conversions, defaults and promotions turn an argument into; eliding copies.
- MethodVec: binding the name in the class scope.
- ClassStack: binding levels, the cache of the previous class, and the names used in a class.
- ClassStack.ClassScopes.PopNestedClass: pops what `push_nested_class` pushed; on another stack it would pop by the nesting of the current class.
- CmdLine: a failing allocation.
- Diagnostics, dumps, the Java interface, template instantiation, RTL and `delete_duplicate_fields_1`.
