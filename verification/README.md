# A verified model of llvm-dimeta's type recovery

llvm-dimeta recovers source types for allocations in LLVM IR from debug metadata. This project models the parts of
`lib/type` that carry state across recursion, loops and callbacks, and proves what they compute. LLVM itself is
abstracted: type metadata is a finite labelled graph, IR is a finite directed graph of values.

`dafny verify dfyconfig.toml` checks everything.

## Main results

1. The type parser, two coupled stack machines driven by a visitor over a cyclic graph, returns the meaning of a type **if
   and only if** the type is faithful, a condition that can be read off the graph (`Fidelity.WalkDenotesExactlyFaithful`,
   `DimetaParse.MakeDimetadata`). Even where members are misread, the result has the name, size, tag and encoding of its
   node (`NodeFacts.WalkSaysEnd`). Whatever it returns, nesting is bounded and a compound is flagged as recurring exactly
   if it is an ancestor (`OutputShape.WalkIsWellShaped`).
2. The worklist engine terminates for any callbacks, with a bound on the calls (`DefUse.RunsEnd`), follows simple walks only
   (`DefUse.PathsAreSimpleWalks`), goes depth first with the value offered last (`DefUseOrder.RunIsTraversal`), and matches
   exactly the reachable values if callbacks depend on the value (`DefUseReach.MatchesExactlyReached`).
3. The paths found for a heap call are exactly the ones that the data flow asks for: to the calls and returns that take the
   allocation, and back from each write of it to every variable, argument, global or call that can hold it. The last user
   of the call comes first, if it takes the allocation, and a matcher being shared by all anchors does not change the type
   (`HeapCall.TypeForHeapCall`).
4. For every graph, byte and member, the search by byte offset returns the member **if and only if** some way to it is hit
   last, which can be computed from the layout alone (`Ways.CandidateIsLastHit`). This is not always the member that covers
   the byte: earlier pointers can move the search or end it. A slot (a member declared as a pointer, reference, pointer to
   member or array) of a plain struct is always found by each of its bytes (`PlainStructs.PlainSlotsAreFound`). Where only
   the part in front of the slot is as in C layouts, it is found **if and only if** its bytes, computed without the offsets
   that the search leaves out, cover the byte (`Slots.SlotIsFoundExactlyIfMet`). Constant indices resolve to the data member that they name, with its type
   (`Gep.ResolveGepIndexToType`), and pick the same slot as a byte exactly where the search meets it, single-member structs
   that are skipped included (`Gep.IndicesAndBytesAgree`).
5. Every value that is written is read back (`RoundTrip.LocatedTypeReadsBack`, `RoundTrip.CompileUnitsReadBack`), although
   empty and zero fields are not written; what a document says is stated field by field (`DocumentFields`).
6. Pointer levels counted apart from the parser agree with its qualifiers (`LocatedType.LocatedTypeFor`), and the shape
   order is the only stable one (`Shapes.StableSortIsUnique`).

## What is modelled

**The type parser** (`DIVisitor.h`, `DIParser.cpp`, `DimetaParse.cpp`). A depth-first visitor walks a cyclic graph,
threads one mutable `current_` through the whole walk, pushes and pops a stack of metadata, and drives a second stack
machine that builds the output tree.

* `TypeGraph`: the graph. Its subset type `Graph` demands that every cycle passes through a compound and that elements
  are of the kinds that can occur; `Conforms` adds that bases lead to compounds, enumerations to basic types, and that
  only members lead to the compiler's vtable pointer.
* `TypeTree`, `ParseState`: the output tree, and the metadata record with its effects on it. The fields of the record are
  grouped by purpose: `place` (where the finished type goes) and `trail` (what the chain of modifiers adds).
* `TypeParser.DITypeParser`, `EventVisitor.DIEventVisitor`: the two stack machines as classes with the source's fields.
  Every event and every visit is a method whose contract gives the whole new state. The two element loops, the two cases
  of `traverseCompositeType` and the part of `traverseDerivedType` in front of the base type are methods of their own.
* `Walk`: what the machines compute, with the two stacks gone but `current_` still threaded. Every traversal method is
  proved to have exactly this effect, to keep the stacks in step and to restore path and depth counters.
* `Denotation`: what a type means, without any threading; and `Faithful`, the condition under which the parser finds it.
  A type is unfaithful when a chain ends in void anywhere but directly under a pointer (as `const void *` does), or when
  a base class follows an element whose traversal ends with an enumerator. `Fidelity` proves that this is exact.
* `NodeFacts`: what the output says about the node at the end of a chain, tag by tag and without the parser's helpers.
* `Deviations`: one small input for each of the two families, with what the parser returns for it.
* `OutputShape`: the shape of every output.
* `LocatedType`, `Shapes`: pointer levels counted apart from the parser's qualifiers, and the Fortran shape order.

**The worklist engine** (`DefUseAnalysis.h`, `ValuePath.h`) **and its clients** (`DataflowAnalysis.cpp`, `Dimeta.cpp`).
A value is marked seen when its path is popped, and paths are not tested again then, so a value can be processed
repeatedly. The three callbacks are functions of the history of matched paths: this covers stateful and path-dependent
callbacks. `DefUse` is the engine as a step function, with termination and the simple-walk invariant; `DefUseOrder` states the order of
the calls about the log alone; `DefUseReach`
treats callbacks that depend on the value only; `DefUseChain` is the class that updates its two fields in place.
`Dataflow` has the two matchers and searches for heap calls, `HeapCall` the loop over anchors. `find_type` is an arbitrary
partial function from paths to types. A matcher is replayed over the log of a finished traversal instead of being called
back; its verdict depends on the path alone, so the two come to the same.

**Struct slots** (`DIUtil.cpp`, `GEP.cpp`). `ByteOffset` has the visitor that looks for the member at a byte, as a class
and as recursion. `Silence` computes what the search leaves of the byte, says what it passes by, and what keeps its offset
base. `Ways` names a member by its *way*, the positions that lead to it through whatever the search enters, pointers
included, and characterises the result for every graph. `Slots` treats pointers and arrays that are reached through
embedded structs and base classes: what covers the byte, what the search meets, and when the two coincide. `PlainStructs`
is a condition on the struct alone. `Gep` has the entry point for constant indices, with the loop that skips single-member
structs and the loop over the indices. `LayoutDeviation` and `GepDeviation` have small layouts on which the two go right
and wrong.

**Serialization** (`DimetaIO.cpp`). A document (`Yaml`) is a tree of mappings, sequences and scalars; keys are an
enumeration and their order in a mapping is not represented. `DimetaIO` has the output and input directions, the latter
reading into a target that already holds values; `RoundTrip` has the proofs, `DocumentFields` says which keys a document has,
what stands under them, and which of them input asks for.

## Where code and expectation differ

* `const void *` emits no event and leaves `current_` dirty. A member of that type vanishes, and its qualifiers reappear
  on the next member (`Deviations.ConstVoidMemberIsLost`). On its own the type comes out as the default-constructed,
  nameless compound (`DimetaParse.MakeDimetadata`).
* A base class after an element whose traversal ends with an enumerator is filed as a member
  (`Fidelity.BaseAfterEnumeratorIsMisfiled`), for instance the second of two base classes if the last member of the first
  one is of enumeration type (`Deviations.SecondBaseIsLost`).
* The byte search adds the offset of a member only if it is declared with the struct type itself. Members of a struct that
  is declared through a typedef, or of a base class, are looked for without that offset (`Slots.Meets`); so a struct at a
  non-zero offset hides its members behind a typedef (`LayoutDeviation.TypedefMisleadsSearch`).
* The source expects that at most one composite ever matches the byte (lib/type/DIUtil.cpp:140-141). But the search enters
  what a pointer leads to, with the bytes of the struct that holds the pointer. So an earlier pointer to a struct that has
  a pointer at the byte ends the search, and a slot inside an embedded struct is missed
  (`LayoutDeviation.EarlierPointerEndsSearch`); if no base is moved, a slot that would be met is found exactly if nothing
  before it ends the search (`Slots.SlotIsFoundExactlyIfReached`). An earlier pointer to a struct that has a struct at the
  byte moves the base, and even a top-level pointer is missed (`LayoutDeviation.EarlierPointerMovesBase`). The condition
  for both is that the slot is hit (`Slots.SlotIsFoundExactlyIfHit`).
* It stops only at members that are declared directly as pointers or arrays. A scalar, and a pointer declared through a
  typedef or with `const`, is displaced by anything that is visited later and covers what is left of the byte
  (`LayoutDeviation.ScalarIsOverwritten`, `LayoutDeviation.AliasedPointerIsDisplaced`).
* An index counts positions in the list of elements. A member function that stands between data members shifts it
  (`Gep.IndexPicksExactlyNamed`).
* Before a non-zero index, a struct with exactly one data member is skipped, whatever its first element is. A derived class
  with one member of its own is left for its base class, so the index of that member names one of the base class
  (`GepDeviation.SkipLeavesDerivedClass`). If the base class is followed by a static member of the class's own type, the
  loop does not end (`GepDeviation.SkipComesBack`); when it ends, and where, is `Gep.SkipEndsExactlyAt`.
* Input appends to the members and base classes of a target that already has some, and overwrites its offsets and sizes
  from the front (`RoundTrip.CompoundReadsInto`).

## Model

The rows follow the list of main results; within each part the result comes first.

| member | source | states |
|---|---|---|
| `Fidelity.WalkDenotesExactlyFaithful` | lib/type/DIParser.cpp:96-307 | started on clean metadata, a walk yields the denotation if and only if the type is faithful |
| `DimetaParse.MakeDimetadata` | lib/type/DimetaParse.cpp:356-363 | for a variable's or node's type the two machines return what the walk leaves, which is the denotation if and only if that type is faithful, and which says of the node at the end of the chain what it is; void that is reached otherwise gives the default type, other nodes nothing |
| `NodeFacts.WalkSaysEnd` | lib/type/DimetaParse.cpp:178-214 | for every graph, also while members are misread: a compound has the name, identifier, byte size and tag of its node; a basic type its name, encoding and byte size, null pointers, functions and strings without a size included; void* and vtable pointers are named as such |
| `NodeFacts.ParsedSaysEnd` | lib/type/DimetaParse.cpp:356-363 | the same for the result of the parser |
| `NodeFacts.DenotationSaysEnd` | lib/type/DimetaParse.cpp:178-214 | the same for the denotation |
| `NodeFacts.PointersEnd` | lib/type/DIParser.cpp:143-163 | a pointer to nothing is void*, and one of the compiler's name stands for the vtable |
| `EventVisitor.DIEventVisitor.TraverseType` | lib/type/DIVisitor.h:119-128 | for every type in every consistent state: the effect is one walk, stacks stay in step, path and depth are restored |
| `OutputShape.WalkIsWellShaped` | lib/type/DIParser.cpp:300-307 | every type the parser finishes, faithful or not, nests at most as deep as there are compounds off the path plus one; a compound is flagged recurring exactly if it is on the path, and is then bare; a base class is flagged empty exactly if it takes one byte and has no members |
| `OutputShape.ParsedIsWellShaped` | lib/type/DimetaParse.cpp:356-363 | the same for the result of the parser: nesting is at most the number of compounds plus one |
| `OutputShape.DenotationIsWellShaped` | lib/type/DIParser.cpp:300-307 | the same for the denotation |
| `OutputShape.OpenCompoundIsBalanced` | lib/type/DimetaParse.cpp:230-245 | every open compound has equally many offsets, sizes and members, an enumeration at most one offset and size, also while a type is misread |
| `Fidelity.FaithfulTypeIsDenoted` | lib/type/DIParser.cpp:96-307 | a faithful type is read as its denotation, and the metadata is clean afterwards unless an enumerator came last |
| `Fidelity.FaithfulElementsAreDenoted` | lib/type/DIParser.cpp:213-284 | the same for the elements of a compound: names, offsets, sizes, bases and the static split, in order |
| `Fidelity.UnfaithfulTypeIsMisread` | lib/type/DIParser.cpp:96-163 | for an unfaithful type nothing, or a different compound, takes the place of its denotation |
| `Fidelity.UnfaithfulElementsStayApart` | lib/type/DIParser.cpp:213-284 | once an element has been misread, no further element can make up for it |
| `Fidelity.BaseAfterEnumeratorIsMisfiled` | lib/type/DIParser.cpp:294-298 | the metadata is not reset after an enumerator, so a base class visited next is filed as a member under the leftover name |
| `Fidelity.EnumShape` | lib/type/DimetaParse.cpp:295-316 | however many enumerators there are, an enumeration has at most one offset and one size |
| `Deviations.ConstVoidMemberIsLost` | lib/type/DIParser.cpp:143-150 | a member of type const void* is missing from the output and its qualifiers reappear on the next member |
| `Deviations.ConstVoidIsUnfaithful` | lib/type/DIParser.cpp:143-150 | that struct is not faithful |
| `Deviations.SecondBaseIsLost` | lib/type/DIParser.cpp:165-173 | of two base classes, the first ending in a member of enumeration type, the second comes out as a member |
| `ChainLemmas.WalkFollowsChain` | lib/type/DIParser.cpp:96-163 | a walk collects exactly the links of its chain and then does what the end of the chain asks for |
| `ChainLemmas.ChainAppends` | lib/type/DimetaParse.cpp:100-152 | qualifiers appear in chain order; every array contributes the product of its subranges |
| `ChainLemmas.ChainNames` | lib/type/DimetaParse.cpp:154-176 | the typedef name is that of the outermost typedef |
| `ChainLemmas.ChainInfo` | lib/type/DimetaParse.cpp:154-176 | the qualifier data of a type, computed from the collected metadata, is the one read off its chain |
| `EventVisitor.CompoundSteps` | lib/type/DIParser.cpp:213-284 | opening, filling and closing a compound on two explicit stacks is one step of the recursion, with the metadata pushed on opening back in place |
| `EventVisitor.RecurringSteps` | lib/type/DIParser.cpp:300-307 | opening and closing a recurring compound delivers it empty |
| `EventVisitor.VtableSteps` | lib/type/DIParser.cpp:153-160 | the function type below a vtable pointer overwrites the result for a moment and nothing else |
| `EventVisitor.ElementStep` | lib/type/DIVisitor.h:248-253 | visiting one more element extends the compound on top of the consumer's stack by what the recursion adds |
| `EventVisitor.DIEventVisitor.TraverseDerivedType` | lib/type/DIVisitor.h:164-182 | the effect of one walk for a derived type, be it a modifier, a member or a base class |
| `EventVisitor.DIEventVisitor.TraverseCompositeType` | lib/type/DIVisitor.h:206-255 | the same for composites: compounds enter the path and leave it again, arrays never enter it |
| `EventVisitor.DIEventVisitor.TraverseRecurringCompositeType` | lib/type/DIVisitor.h:188-200 | a compound on the path is delivered empty and flagged as recurring |
| `Walk.UnvisitedShrinks` | lib/type/DIVisitor.h:224-227 | entering a compound leaves fewer compounds to enter: together with the chain, the termination measure of the visitor |
| `TypeGraph.RankDecreases` | lib/type/DIVisitor.h:164-182 | the chain below a type gets shorter with every derived type or array, although the graph is cyclic |
| `Walk.WalkKeepsPlace` | lib/type/DIParser.cpp:96-163 | whatever chain is walked, the finished type is filed where the metadata said before the walk |
| `DefUse.RunsEnd` | lib/type/DefUseAnalysis.h:54-100 | for any callbacks: if walks that end in N values are offered at most D successors each, all among the N, match is called at most 1 + (2N-1)D times and the stack is empty then |
| `DefUse.PathsAreSimpleWalks` | lib/type/DefUseAnalysis.h:31-43 | every path ever pushed or matched starts at the start, repeats no value, and each step was offered by the search after its prefix was matched |
| `DefUseReach.MatchesExactlyReached` | lib/type/DefUseAnalysis.h:65-99 | if callbacks depend on the value, a finished run is cancelled exactly if a cancelling value is reachable, and otherwise the matched values are exactly the reachable ones |
| `DefUseReach.RunsEndOnReached` | lib/type/DefUseAnalysis.h:54-100 | for such callbacks the bound holds with N the number of reachable values |
| `DefUseReach.CallsAreBounded` | lib/type/DefUseAnalysis.h:31-100 | match calls and waiting paths together never exceed one plus the out-degrees of the seen values |
| `DefUseReach.SecondPopPushesNothing` | lib/type/DefUseAnalysis.h:31-100 | because the stack is LIFO, processing a seen value again pushes nothing |
| `DefUseChain.DefUseChain.DoTraverse` | lib/type/DefUseAnalysis.h:54-100 | the loop terminates for every client, its calls are those of one complete run in depth-first order, and both sets are cleared on every exit |
| `DefUseOrder.RunIsTraversal` | lib/type/DefUseAnalysis.h:31-52 | for every client: after a call that offers unseen values, the next path extends it by the last of them; any other call takes up the value offered last among those not taken yet; nothing unseen is left out, and only a cancelling call ends the run early |
| `DefUseOrder.WorkIsWaiting` | lib/type/DefUseAnalysis.h:31-52 | the stack holds exactly what the log of calls says is waiting, in the order in which it was offered |
| `DefUseChain.RunsAreUnique` | lib/type/DefUseAnalysis.h:54-100 | client and start determine all calls and whether the run was cancelled |
| `DefUse.StepProgress` | lib/type/DefUseAnalysis.h:74-99 | a step pops one path and pushes at most one per successor; if the stack does not shrink, an unseen value is on top |
| `DefUse.StepDecreases` | lib/type/DefUseAnalysis.h:54-100 | twice the unseen values less one if the top is unseen, then the stack length, decreases lexicographically |
| `HeapCall.TypeForHeapCall` | lib/type/DataflowAnalysis.cpp:65-139 | for every program: each path leads to a call or return that takes the allocation, or back from a store or memory intrinsic that writes it to an alloca, argument, global or call; none of them is missing unless a return is reached; the first path belongs to the last user of the call, if that takes the allocation; for every find_type the first type is the same as with a fresh matcher for each anchor |
| `HeapCall.TypeForMalloclike` | lib/type/Dimeta.cpp:234-257 | the type of a local variable that takes the result directly, or of its element; otherwise the type of the first such path that has one |
| `HeapCall.AnchorPathsAreResults` | lib/type/DataflowAnalysis.cpp:98-130 | the paths of all anchors, each with a fresh matcher, are exactly these results |
| `HeapCall.FirstPathIsOfLastUser` | lib/type/DataflowAnalysis.cpp:72-130 | if the last user of the call takes the allocation, the first path ends in it, or is traced back from it if it writes memory |
| `HeapCall.LastUserIsFirstAnchor` | lib/type/DataflowAnalysis.cpp:72-86 | the anchor recorded first is the last user of the call, if that takes the allocation |
| `HeapCall.ResultsWriteNothing` | lib/type/DataflowAnalysis.cpp:98-130 | no result ends in a store or memory intrinsic |
| `HeapCall.RepetitionIsHarmless` | lib/type/DataflowAnalysis.cpp:98-130 | repeating earlier paths before new ones does not change the first path with a type |
| `HeapCall.CollectTargets` | lib/type/DataflowAnalysis.cpp:98-130 | the shared matcher keeps what it holds and appends exactly the targets of this anchor |
| `Dataflow.AnchorsAreComplete` | lib/type/DataflowAnalysis.cpp:298-391 | the search is cancelled exactly if a return is reachable; otherwise recorded paths end in exactly the consumers reachable through calls, loads, casts, phis, allocas, other instructions, and stores into memory that is copied |
| `Dataflow.AnchorsAreForward` | lib/type/DataflowAnalysis.cpp:72-86 | every path of that search follows the data flow step by step |
| `Dataflow.ForwardFollowsGraph` | lib/type/DataflowAnalysis.cpp:298-391 | on paths the engine can produce, verdict and recording depend only on the start and the last value |
| `Dataflow.TargetsAreComplete` | lib/type/DataflowAnalysis.cpp:163-288 | the backward search never cancels and its recorded paths end in exactly the targets reachable through the memory that is written, the addresses that are loaded or computed, what is cast and what phis merge |
| `Dataflow.TargetsAreBacktracks` | lib/type/DataflowAnalysis.cpp:163-288 | every step of a backtrack path is an operand that the search selects, and no earlier value is a target |
| `Dataflow.MallocAnchorMatcher.Match` | lib/type/DataflowAnalysis.cpp:298-391 | the verdict, and that a path is recorded exactly if its last value consumes the allocation |
| `Dataflow.MallocTargetMatcher.Match` | lib/type/DataflowAnalysis.cpp:236-288 | the verdict, and that a path is recorded exactly at an alloca, argument, global or non-intrinsic call |
| `Ways.CandidateIsLastHit` | lib/type/DIUtil.cpp:97-155 | for every graph, byte and element: it is the final candidate if and only if, on some way to it, the search comes through, what is left of the byte lies in it, and nothing visited afterwards covers what is then left |
| `Ways.LastHitIsCandidate` | lib/type/DIUtil.cpp:111-148 | the same for any state of the search and any prefix of the elements: the last hit is the candidate and leaves the computed rest |
| `Ways.UnsharedIsCandidate` | lib/type/DIUtil.cpp:97-155 | for a member that occurs once, the condition is about its one way |
| `PlainStructs.PlainSlotsAreFound` | lib/type/DIUtil.cpp:97-161 | in a plain struct (data in order and without overlap at every level, embedded structs at offset 0 or declared directly, base classes at offset 0, pointers leading to nothing that moves or ends the search at later bytes), every pointer or array is found by each of its bytes |
| `PlainStructs.PlainIsTidy` | lib/type/DIUtil.cpp:111-148 | such a struct is tidy and direct for the way of every pointer or array |
| `PlainStructs.PlainIsCalm` | lib/type/DIUtil.cpp:142-145 | such a struct neither moves the search nor ends it at bytes behind its data |
| `Slots.SlotIsFoundExactlyIfMet` | lib/type/DIUtil.cpp:97-155 | on a way that is tidy (what is in front does no harm at the byte, what comes later lies behind), a member declared directly as a pointer or array that covers the byte, and occurs once, is the final candidate if and only if its bytes cover the byte once offsets of typedef'd members and base classes are left out |
| `Slots.PlainSlotIsFound` | lib/type/DIUtil.cpp:97-155 | where no such offset is left out on a tidy way it is always found, wherever it points and however often it occurs |
| `Slots.SlotIsFoundExactlyIfReached` | lib/type/DIUtil.cpp:133-138 | where nothing in front moves the base, a slot that would be met is found if and only if nothing in front ends the search |
| `Slots.SlotIsFoundExactlyIfHit` | lib/type/DIUtil.cpp:111-148 | for every byte, whatever is in front: a slot with nothing but later bytes behind it, wherever it occurs, is found if and only if some way to it is hit |
| `Slots.UnsharedSlotIsFoundExactlyIfHit` | lib/type/DIUtil.cpp:111-148 | the same for the one way of a slot that occurs once |
| `Slots.CoveredIsHitExactlyIfMet` | lib/type/DIUtil.cpp:142-145 | on a tidy way, a slot that covers the byte is hit if and only if it is met |
| `Slots.DirectWayMeetsExactlyCovered` | lib/type/DIUtil.cpp:142-145 | the bytes at which a slot is met are the ones that it covers, if structs are declared without a typedef or at offset 0 and base classes are at offset 0; that the search comes through to it is the tidiness of what is in front |
| `Slots.ResolveByteOffsetToMemberOf` | lib/type/DIUtil.cpp:157-161 | the entry point returns exactly the member that is hit last, with the type it is declared with, and nothing if there is none; a slot on a tidy and direct way that covers the byte is the answer |
| `Silence.SilentTypePasses` | lib/type/DIUtil.cpp:111-148 | a type below which nothing covers the byte leaves candidate and base as they are |
| `Silence.SearchIsAt` | lib/type/DIUtil.cpp:111-148 | what the search leaves of the byte, and whether it has ended, is the computed rest, after any elements and from any state |
| `Silence.CalmElementsKeepRest` | lib/type/DIUtil.cpp:142-145 | the base is moved only by members that cover the byte and are declared with a struct type at a non-zero offset |
| `ByteOffset.DestructureComposite.VisitDerivedType` | lib/type/DIUtil.cpp:111-148 | a matching member becomes the candidate; pointers and arrays end the search, structs move the base |
| `ByteOffset.DestructureComposite.TraverseCompositeType` | lib/type/DIVisitor.h:206-255 | the visitor's effect is the plain recursion over elements, with the base never restored |
| `LayoutDeviation.TypedefHidesMembers` | lib/type/DIUtil.cpp:142-145 | the member of a nested struct at a non-zero offset is found exactly if that struct is declared without a typedef |
| `LayoutDeviation.TypedefMisleadsSearch` | lib/type/DIUtil.cpp:142-145 | with the typedef, the search returns the enclosing member |
| `LayoutDeviation.ScalarIsOverwritten` | lib/type/DIUtil.cpp:111-148 | for a byte of a scalar, the search can end at a pointer of a later sibling |
| `LayoutDeviation.TwoCovers` | lib/type/DIUtil.cpp:111-148 | that byte belongs to the scalar and not to the pointer |
| `LayoutDeviation.AliasedPointerIsDisplaced` | lib/type/DIUtil.cpp:133-137 | a pointer declared through a typedef covers the byte, yet the search goes on and ends elsewhere |
| `LayoutDeviation.PointersToStructsAreFound` | lib/type/DIUtil.cpp:111-148 | a struct whose members all point to structs is plain, so each of its pointers is found by each of its bytes |
| `LayoutDeviation.EarlierPointerEndsSearch` | lib/type/DIUtil.cpp:133-137 | a pointer to a struct with a pointer at the byte, in front of an embedded struct: the search ends at that embedded struct instead of its pointer |
| `LayoutDeviation.EarlierPointerMovesBase` | lib/type/DIUtil.cpp:142-145 | a pointer to a struct with a struct at the byte, in front of a pointer: the search ends inside that other struct |
| `LayoutDeviation.PointingCovers` | lib/type/DIUtil.cpp:111-148 | in both layouts the missed pointer covers the byte, is met, and lies in order |
| `LayoutDeviation.PointingIsNotHit` | lib/type/DIUtil.cpp:111-148 | and it is not hit |
| `Gep.IndicesAndBytesAgree` | lib/type/GEP.cpp:313-352 | at the entry point, on tidy ways: indices that lead to a pointer or array, through the structs that are skipped if any, and any byte of it pick the same member if and only if the search meets it; the type is the declared one or the array's element type |
| `Gep.PlainIndicesAndBytesAgree` | lib/type/GEP.cpp:313-352 | in a plain struct they always pick the same member |
| `Gep.ResolveGepIndexToType` | lib/type/GEP.cpp:313-352 | no indices give the composite, or the element type of an array indexed dynamically; byte accesses give what the byte search returns, or the composite; other indices give the data member of any way that they take, with its type |
| `Gep.SkippingWayIsResolved` | lib/type/GEP.cpp:199-229 | a way through skipped structs and then the positions named by the indices resolves to its data member |
| `Gep.SkipEndsExactlyAt` | lib/type/GEP.cpp:199-229 | the loop ends at the struct computed, or goes on forever exactly if it comes back to a struct |
| `Gep.SkipStaysExactlyIf` | lib/type/GEP.cpp:199-229 | no struct is skipped if and only if the number of non-static members is not one, or the selected element does not lead to a composite |
| `Gep.SkipOnceExactly` | lib/type/GEP.cpp:200-216 | one step leads to the composite behind the first position, or the second one if it starts at the same bit, and ends the loop otherwise |
| `Gep.FunctionIndexIsPassed` | lib/type/GEP.cpp:262-268 | an index of a member function is passed, and the next one counts from the same struct |
| `Gep.SkipFirstGepAccess` | lib/type/GEP.cpp:199-229 | the loop, with the structs seen kept so that an endless one can be told |
| `GepDeviation.SkipLeavesDerivedClass` | lib/type/GEP.cpp:335-349 | for a class with a base class and one member, index 1 resolves to the second member of the base class |
| `GepDeviation.IndexNamesPointer` | lib/type/GEP.cpp:231-311 | without the skip it names the member of the class itself |
| `GepDeviation.ByteNamesPointer` | lib/type/DIUtil.cpp:157-161 | so does the byte of that member |
| `GepDeviation.SkipComesBack` | lib/type/GEP.cpp:218-226 | with a static member of the class's own type behind the base class, the loop does not end |
| `Gep.IndexWayIsResolved` | lib/type/GEP.cpp:231-311 | indices that name the positions of a way through structs and classes resolve to its data member, of whatever type; its type is the declared one behind modifiers up to the first pointer, or the element type of an array that is indexed further |
| `Gep.IndexPicksExactlyNamed` | lib/type/GEP.cpp:231-279 | an index picks an element if and only if only static members lie between the position the index starts at and the element |
| `Gep.PlainPick` | lib/type/GEP.cpp:140-153 | with only data members in front, and no base classes, an index counts them; member functions may follow |
| `Gep.SlotsHaveIndexPaths` | lib/type/GEP.cpp:231-311 | where that holds on the way, and it leads through structs and classes only, its positions are the indices |
| `Gep.IterateGepIndex` | lib/type/GEP.cpp:231-311 | the loop enters structs and classes index by index and ends at pointers, arrays and the last index |
| `Gep.PickElement` | lib/type/GEP.cpp:231-279 | an index names an element, past a zero-sized first one, empty base classes and static members |
| `Gep.FindNonDerivedTypeUnlessPtr` | lib/type/GEP.cpp:155-166 | the loop stops at the first pointer-like type or at the end of the modifiers |
| `Gep.UnlessPointerIsBehind` | lib/type/GEP.cpp:155-190 | that type is the first that is a pointer, reference, pointer to member or array, or no modifier |
| `RoundTrip.LocatedTypeReadsBack` | lib/type/DimetaIO.cpp:249-255 | a located type, however deeply nested, is read back as it was written |
| `RoundTrip.CompileUnitsReadBack` | lib/type/DimetaIO.cpp:257-276 | so is a list of compile units with all their types |
| `RoundTrip.WritingIsStable` | test/verifier/TestPass.cpp:193-213 | writing, reading and writing again gives the first document |
| `RoundTrip.CompoundReadsInto` | lib/type/DimetaIO.cpp:108-123 | reading a written compound into any target appends members and base classes, overwrites offsets and sizes from the front, and keeps the identifier if none was written |
| `RoundTrip.CompoundReadsBack` | lib/type/DimetaIO.cpp:108-123 | a compound is read back as it was written |
| `RoundTrip.QualifiedFundamentalReadsBack` | lib/type/DimetaIO.cpp:188-194 | so is a qualified fundamental type |
| `RoundTrip.QualifiedCompoundReadsBack` | lib/type/DimetaIO.cpp:196-202 | so is a qualified compound |
| `RoundTrip.BaseReadsBack` | lib/type/DimetaIO.cpp:74-92 | so is a base class |
| `RoundTrip.MemberReadsBack` | lib/type/DimetaIO.cpp:232-238 | so is a member |
| `RoundTrip.TypeReadsBack` | lib/type/DimetaIO.cpp:204-223 | the builtin flag selects the alternative that was written |
| `RoundTrip.InfoReadsBack` | lib/type/DimetaIO.cpp:177-186 | array sizes, qualifiers, typedef name, vector and flags are read back although empty and zero ones are not written |
| `DocumentFields.CompoundScalarsAreWritten` | lib/type/DimetaIO.cpp:108-123 | a compound is written with name, tag text and extent, and with its identifier exactly if it has one |
| `DocumentFields.CompoundListsAreWritten` | lib/type/DimetaIO.cpp:108-123 | base classes, members and static members stand under their keys exactly if there are any |
| `DocumentFields.CompoundNumbersAreWritten` | lib/type/DimetaIO.cpp:108-123 | so do sizes and offsets |
| `DocumentFields.InfoIsWritten` | lib/type/DimetaIO.cpp:177-186 | array sizes, qualifier texts in order, typedef name, vector size and flags stand under their keys exactly if they say something |
| `DocumentFields.MemberIsWritten` | lib/type/DimetaIO.cpp:232-238 | a member is written with its name, the flag for its alternative and its content |
| `DocumentFields.BaseIsWritten` | lib/type/DimetaIO.cpp:74-92 | a base class is written with its compound, and with offset and flag if they are not zero |
| `DocumentFields.LocatedTypeIsWritten` | lib/type/DimetaIO.cpp:249-255 | a located type is written with file, function and line besides its type |
| `DocumentFields.CompileUnitIsWritten` | lib/type/DimetaIO.cpp:270-276 | a compile unit is written with its name, and its types if there are any |
| `DocumentFields.EncodingsAreWritten` | lib/type/DimetaIO.cpp:125-148 | the text of every encoding |
| `DocumentFields.CompoundNeeds` | lib/type/DimetaIO.cpp:108-123 | a compound is read if and only if name, a known tag and extent are there and whatever else is there fits; what the document leaves out is kept |
| `DocumentFields.TypeNeeds` | lib/type/DimetaIO.cpp:204-223 | a type is read if and only if the flag is there and the content fits the alternative that it decides on |
| `DocumentFields.LocatedTypeNeeds` | lib/type/DimetaIO.cpp:240-255 | a located type is read if and only if its type is, file and line are there, and a function name fits if there is one |
| `LocatedType.LocatedTypeFor` | lib/type/SourceLocType.cpp:133-167 | nothing without a location or an entry type; otherwise the location of the instruction, or else of the variable, and what the parser returns with a pointer in front exactly if its qualifiers fall short of the level, and the sizes of the recovered shape if there is one |
| `LocatedType.ResetAtOffset` | lib/type/SourceLocType.cpp:88-102 | at its own level a type is left alone; one level up, a type without further pointers in arrays gets exactly one leading pointer |
| `LocatedType.ParsedPointers` | lib/type/DimetaParse.cpp:100-115 | the parser's qualifiers hold exactly the pointers before the first array and the ones from there on, also where a compound is misread |
| `LocatedType.PointersAgree` | lib/type/Dimeta.cpp:213-232 | the same for the qualifiers of a chain |
| `LocatedType.FinalDitype` | lib/type/Dimeta.cpp:213-232 | the loop returns the type behind all modifiers and the number of pointers before the first array |
| `Shapes.StableSortIsUnique` | lib/type/SourceLocType.cpp:104-116 | every stable sort with this comparator gives the same list |
| `Shapes.StableSortIsStable` | lib/type/SourceLocType.cpp:104-116 | with the comparator, the sort permutes, orders, and keeps tied dimensions in input order |
| `Shapes.UnplacedComeLast` | lib/type/SourceLocType.cpp:104-116 | after any stable sort, non-negative indices ascend and all negative ones follow in input order |
| `Shapes.ResetShapeQualifier` | lib/type/SourceLocType.cpp:104-129 | the array sizes are the dimensions in their stable order, as unsigned 64-bit numbers; nothing else of the type changes |

## Left out

- SlotIsFoundExactlyIfMet: that a slot is met is exact for slots that occur once and cover the byte on a tidy way. Outside of that the exact condition is that some way is hit, or hit last, where what the search leaves of the byte has to be computed.
- PlainSlotsAreFound: the condition is sufficient. Unions whose members overlap, base classes at other offsets and typedef'd structs at non-zero offsets are not plain; the other results speak about them.
- IndicesAndBytesAgree: constant, non-negative indices. Indices that lead elsewhere because a struct was skipped that should not be (`GepDeviation.SkipLeavesDerivedClass`) name no slot.
- SkipFirstGepAccess: where the source would loop forever, or reads a null type (a first element that is a function, or has no type), the model returns nothing or ends the loop.
- PickElement: where the source reads past the end of the elements, the model returns nothing.
- ResetShapeQualifier: the shapes themselves come from a search for Fortran descriptors that is not modelled.
- LocatedTypeFor: the level offset is a parameter; which extraction path produces which offset is not modelled. The two possible source locations are parameters too.
- FinalDitype: the level is counted from the entry type; the member's own link in front of it, which is skipped for parsing, adds no pointer.
- TypeForMalloclike: the local variable that takes the result directly is a parameter; how it is looked up is not modelled.
- Static members whose flags combine the static bit with an access flag: the source compares the flags for equality in one place and tests a bit in another (lib/type/DIUtil.cpp:180-189); the model has one flag.
- Members without a type: the byte search reads through the null pointer there; the model passes them by.
- In-place input and qualifier changes: reading a document and `reset_pointer_qualifier` fill or change an object in place; here they are functions from its old value to its new one, so sharing between objects is not captured.
- Bit-fields: bytes are the finest unit of the slot search.
- Overflow of 64-bit products of array sizes; sizes and offsets are unbounded natural numbers.
- Fields that are written and never read: the vtable size and flag, the pointer size of arrays, the void pointer flag.
- Compounds other than enumerations with a base type, and composite elements of kinds other than members, base classes, static variables, enumerators, subranges and subprograms.
- Text syntax of documents: quoting, key order, unknown keys and diagnostics belong to LLVM's YAML library.
- `TBAA.cpp`: off by default, and its offset sum keeps only the innermost level.
- `DIRootType.cpp`, `DITypeExtractor.cpp`: pattern heuristics on loads and stores; `find_type` stands for them.
- `DIFinder.cpp`, `DIFortranTypeExtractor.cpp`, `MemoryOps.h`, call-base configuration: lookups, name tables and dispatch.
- Logging, printers, pass plugins and differences between LLVM versions.
