/** type_for_heap_call of lib/type/DataflowAnalysis.cpp and its caller type_for_malloclike of lib/type/Dimeta.cpp. The
    target matcher is shared by all anchors and never cleared, so earlier paths are recorded again and again. */
module HeapCall {
  import opened Wrappers
  import opened ValuePath
  import opened DefUse
  import opened DefUseReach
  import opened Dataflow
  import Chain = DefUseChain
  import Order = DefUseOrder

  type TypeId = nat

  /** The complete log of a bounded run. */
  ghost function LogOf(c: Client, start: Value, values: nat, degree: nat): seq<ValuePath>
    requires CallBound(values, degree) >= 0
  {
    Iterate(c, start, CallBound(values, degree)).calls
  }

  function Anchors(ir: Ir, calls: seq<ValuePath>): seq<ValuePath> {
    if calls == [] then []
    else
      var last := calls[|calls| - 1];
      Anchors(ir, calls[..|calls| - 1]) + (if IsAnchor(ir, last) then [last] else [])
  }

  function Targets(ir: Ir, calls: seq<ValuePath>): seq<ValuePath> {
    if calls == [] then []
    else
      var last := calls[|calls| - 1];
      Targets(ir, calls[..|calls| - 1]) + (if IsTarget(ir, last) then [last] else [])
  }

  /** The type found for an anchor is traced back from stores and memory intrinsics; other anchors stand for
      themselves. */
  predicate IsTraced(ir: Ir, anchor: ValuePath) {
    anchor.LastValue().Some? &&
    (ir.KindOf(anchor.LastValue().value).StoreInst? || IsMemIntrinsic(ir.KindOf(anchor.LastValue().value)))
  }

  /** A store into the allocated object itself. */
  predicate IsSelfStore(ir: Ir, call: Value, anchor: ValuePath) {
    anchor.LastValue().Some? && ir.KindOf(anchor.LastValue().value) == StoreInst(call)
  }

  /** The paths of one anchor, as a matcher of its own would record them. */
  ghost function PathsOf(ir: Ir, call: Value, degree: nat, anchor: ValuePath): seq<ValuePath>
    requires CallBound(|ir.kinds.Keys|, degree) >= 0
  {
    if IsSelfStore(ir, call, anchor) then []
    else if IsTraced(ir, anchor) then
      Targets(ir, LogOf(BackwardClient(ir), anchor.LastValue().value, |ir.kinds.Keys|, degree))
    else [anchor]
  }

  // ---- Which path comes first ---------------------------------------------------------------------------------

  /** Position `j` holds the last user of the call that is not the call itself, and it takes the allocation in. */
  predicate IsLastUser(ir: Ir, call: Value, j: nat) {
    (ir.KindOf(call).CallInst? || ir.KindOf(call).InvokeOrCallBr?) && j < |ir.Users(call)| &&
    ir.Users(call)[j] != call && (forall i :: j < i < |ir.Users(call)| ==> ir.Users(call)[i] == call) &&
    IsAnchorValue(ir, call, ir.Users(call)[j])
  }

  lemma {:induction false} LastUserIsSecond(ir: Ir, call: Value, n: nat, j: nat)
    requires IsLastUser(ir, call, j) && Iterate(ForwardClient(ir), call, n).work == []
    ensures var calls := Iterate(ForwardClient(ir), call, n).calls;
            |calls| > 1 && calls[0] == ValuePath([call]) && calls[1] == ValuePath([call, ir.Users(call)[j]])
  {
    hide IsDeferred, IsCopied, Iterate;
    var c := ForwardClient(ir);
    var calls := Iterate(c, call, n).calls;
    Order.RunIsTraversal(c, call, n);
    assert Order.Offered(c, calls, 0) == ir.Users(call);
    assert calls[..0 + 1] == [ValuePath([call])];
    forall i: nat | i < |ir.Users(call)| ensures Order.IsNew(c, calls, 0, i) <==> ir.Users(call)[i] != call {
      assert [ValuePath([call])][0].LastValue() == Some(call);
    }
    assert Order.IsLastNew(c, calls, 0, j);
    assert Order.GoesDeeper(c, calls, 0);
    assert Order.Extension(c, calls, 0, j) == ValuePath([call, ir.Users(call)[j]]) by {
      assert [call] + [ir.Users(call)[j]] == [call, ir.Users(call)[j]];
    }
  }

  lemma {:induction false} AnchorsGrow(ir: Ir, calls: seq<ValuePath>, n: nat)
    requires n <= |calls|
    ensures Anchors(ir, calls[..n]) <= Anchors(ir, calls)
    decreases |calls|
  {
    if n < |calls| {
      AnchorsGrow(ir, calls[..|calls| - 1], n);
      assert calls[..|calls| - 1][..n] == calls[..n];
    } else {
      assert calls[..n] == calls;
    }
  }

  /** The anchor that is recorded first is the last user of the call. */
  lemma {:induction false} LastUserIsFirstAnchor(ir: Ir, call: Value, n: nat, j: nat)
    requires IsLastUser(ir, call, j) && Iterate(ForwardClient(ir), call, n).work == []
    ensures var anchors := Anchors(ir, Iterate(ForwardClient(ir), call, n).calls);
            anchors != [] && anchors[0] == ValuePath([call, ir.Users(call)[j]])
  {
    LastUserIsSecond(ir, call, n, j);
    var calls := Iterate(ForwardClient(ir), call, n).calls;
    var first, second := calls[0], calls[1];
    hide Iterate;
    ForwardFollowsGraph(ir, call);
    assert IsWalk(call, first) && IsWalk(call, second);
    assert !IsAnchor(ir, first) && IsAnchor(ir, second);
    assert calls[..2] == [first, second] && [first, second][..1] == [first] && [first][..0] == [];
    assert Anchors(ir, [first]) == [] && Anchors(ir, calls[..2]) == [second];
    AnchorsGrow(ir, calls, 2);
  }

  // ---- What the paths are -------------------------------------------------------------------------------------

  /** Value `a` takes the allocation in, and the data flow from the call reaches it. */
  ghost predicate IsFlowAnchor(ir: Ir, call: Value, a: Value) {
    Reached(ForwardGraph(ir, call), call, a) && IsAnchorValue(ir, call, a)
  }

  /** `a` writes memory. */
  predicate Writes(ir: Ir, a: Value) {
    ir.KindOf(a).StoreInst? || ir.KindOf(a).MemCpyIntrinsic? || ir.KindOf(a).OtherMemIntrinsic?
  }

  /** A path to a call or return that takes the allocation. */
  ghost predicate IsHandedOver(ir: Ir, call: Value, p: ValuePath) {
    IsForwardPath(ir, call, p) && IsFlowAnchor(ir, call, p.LastValue().value) && !Writes(ir, p.LastValue().value)
  }

  /** A path back from `a`, which writes the allocation to memory, to a variable, argument, global or call. */
  ghost predicate IsTracedFrom(ir: Ir, call: Value, a: Value, p: ValuePath) {
    IsFlowAnchor(ir, call, a) && Writes(ir, a) && IsBacktrack(ir, a, p) && IsTargetValue(ir, p.LastValue().value)
  }

  ghost predicate IsResult(ir: Ir, call: Value, p: ValuePath) {
    IsHandedOver(ir, call, p) || exists a :: IsTracedFrom(ir, call, a, p)
  }

  ghost predicate IsReturned(ir: Ir, call: Value) {
    exists v: Value :: Reached(ForwardGraph(ir, call), call, v) && ir.KindOf(v).RetInst?
  }

  /** Some path leads from `a` to target `t`. */
  ghost predicate HasTrace(ir: Ir, call: Value, paths: seq<ValuePath>, a: Value, t: Value) {
    exists p :: p in paths && IsTracedFrom(ir, call, a, p) && p.LastValue() == Some(t)
  }

  ghost predicate HasPathTo(ir: Ir, call: Value, paths: seq<ValuePath>, a: Value) {
    exists p :: p in paths && IsHandedOver(ir, call, p) && p.LastValue() == Some(a)
  }

  /** Each path is such a result, and none is missing -- unless a return that is reached cuts the search short, which
      itself is among the paths then. */
  ghost predicate AreResults(ir: Ir, call: Value, paths: seq<ValuePath>) {
    (forall p :: p in paths ==> IsResult(ir, call, p)) &&
    if IsReturned(ir, call) then exists a: Value :: ir.KindOf(a).RetInst? && HasPathTo(ir, call, paths, a)
    else
      (forall a: Value :: IsFlowAnchor(ir, call, a) && !Writes(ir, a) ==> HasPathTo(ir, call, paths, a)) &&
      forall a: Value, t: Value ::
        IsFlowAnchor(ir, call, a) && Writes(ir, a) && Reached(BackwardGraph(ir), a, t) && IsTargetValue(ir, t) ==>
          HasTrace(ir, call, paths, a, t)
  }

  /** No result ends where something is written. */
  lemma {:induction false} ResultsWriteNothing(ir: Ir, call: Value, p: ValuePath)
    requires IsResult(ir, call, p)
    ensures p.values != [] && !Writes(ir, p.LastValue().value)
  {
    if !IsHandedOver(ir, call, p) {
      var a :| IsTracedFrom(ir, call, a, p);
    }
  }

  lemma {:induction false} AnchorsAre(ir: Ir, calls: seq<ValuePath>, p: ValuePath)
    ensures p in Anchors(ir, calls) <==> p in calls && IsAnchor(ir, p)
    decreases |calls|
  {
    if calls != [] {
      AnchorsAre(ir, calls[..|calls| - 1], p);
      assert calls == calls[..|calls| - 1] + [calls[|calls| - 1]];
    }
  }

  lemma {:induction false} TargetsAre(ir: Ir, calls: seq<ValuePath>, p: ValuePath)
    ensures p in Targets(ir, calls) <==> p in calls && IsTarget(ir, p)
    decreases |calls|
  {
    if calls != [] {
      TargetsAre(ir, calls[..|calls| - 1], p);
      assert calls == calls[..|calls| - 1] + [calls[|calls| - 1]];
    }
  }

  /** The paths of an anchor that writes are the traces from it. */
  lemma {:induction false} TracesAreComplete(ir: Ir, call: Value, degree: nat, anchor: ValuePath, p: ValuePath,
                                             t: Value)
    requires ir.IsClosed(degree) && CallBound(|ir.kinds.Keys|, degree) >= 0
    requires anchor.LastValue().Some? && anchor.LastValue().value in ir.kinds
    requires IsFlowAnchor(ir, call, anchor.LastValue().value) && Writes(ir, anchor.LastValue().value)
    ensures p in PathsOf(ir, call, degree, anchor) ==> IsTracedFrom(ir, call, anchor.LastValue().value, p)
    ensures Reached(BackwardGraph(ir), anchor.LastValue().value, t) && IsTargetValue(ir, t) ==>
              HasTrace(ir, call, PathsOf(ir, call, degree, anchor), anchor.LastValue().value, t)
  {
    var c, a := BackwardClient(ir), anchor.LastValue().value;
    var n := CallBound(|ir.kinds.Keys|, degree);
    BackwardIsBounded(ir, a, degree);
    RunsEnd(c, a, ir.kinds.Keys, degree);
    var calls := Iterate(c, a, n).calls;
    assert PathsOf(ir, call, degree, anchor) == Targets(ir, calls);
    hide BackwardClient, BackwardGraph, Iterate, IsBacktrack, IsFlowAnchor, Reached, Targets, PathsOf;
    forall q | q in Targets(ir, calls) ensures IsTracedFrom(ir, call, a, q) {
      TargetsAre(ir, calls, q);
      TargetsAreBacktracks(ir, a, n, q);
    }
    if Reached(BackwardGraph(ir), a, t) && IsTargetValue(ir, t) {
      TargetsAreComplete(ir, a, n, t);
      var q :| q in calls && IsTarget(ir, q) && q.LastValue() == Some(t);
      TargetsAre(ir, calls, q);
    }
  }

  /** All paths, each anchor with a fresh matcher. */
  ghost function FreshPaths(ir: Ir, call: Value, degree: nat, anchors: seq<ValuePath>): seq<ValuePath>
    requires CallBound(|ir.kinds.Keys|, degree) >= 0
  {
    if anchors == [] then []
    else
      FreshPaths(ir, call, degree, anchors[..|anchors| - 1]) + PathsOf(ir, call, degree, anchors[|anchors| - 1])
  }

  lemma {:induction false} FreshPathsAre(ir: Ir, call: Value, degree: nat, anchors: seq<ValuePath>, p: ValuePath)
    requires CallBound(|ir.kinds.Keys|, degree) >= 0
    ensures p in FreshPaths(ir, call, degree, anchors)
       <==> exists anchor :: anchor in anchors && p in PathsOf(ir, call, degree, anchor)
    decreases |anchors|
  {
    hide PathsOf;
    if anchors != [] {
      FreshPathsAre(ir, call, degree, anchors[..|anchors| - 1], p);
      assert anchors == anchors[..|anchors| - 1] + [anchors[|anchors| - 1]];
    }
  }

  /** An anchor that writes nothing stands for itself. */
  lemma {:induction false} AnchorIsHandedOver(ir: Ir, call: Value, degree: nat, anchor: ValuePath)
    requires CallBound(|ir.kinds.Keys|, degree) >= 0
    requires IsForwardPath(ir, call, anchor) && IsFlowAnchor(ir, call, anchor.LastValue().value)
    requires !Writes(ir, anchor.LastValue().value)
    ensures PathsOf(ir, call, degree, anchor) == [anchor] && IsHandedOver(ir, call, anchor)
  {
    hide IsFlowAnchor, IsForwardPath;
  }

  /** What is known about the anchors of a complete forward search. */
  ghost predicate AreFlowAnchors(ir: Ir, call: Value, anchors: seq<ValuePath>) {
    (forall p :: p in anchors ==>
       IsForwardPath(ir, call, p) && p.LastValue().value in ir.kinds && IsFlowAnchor(ir, call, p.LastValue().value)) &&
    if IsReturned(ir, call) then
      exists p :: p in anchors && p.LastValue().Some? && ir.KindOf(p.LastValue().value).RetInst?
    else forall a: Value :: IsFlowAnchor(ir, call, a) ==> exists p :: p in anchors && p.LastValue() == Some(a)
  }

  lemma {:induction false} LoggedAnchorsAre(ir: Ir, call: Value, degree: nat)
    requires ir.IsClosed(degree) && call in ir.kinds
    ensures CallBound(|ir.kinds.Keys|, degree) >= 0
    ensures AreFlowAnchors(ir, call, Anchors(ir, LogOf(ForwardClient(ir), call, |ir.kinds.Keys|, degree)))
  {
    hide IsForwardPath, IsAnchor, IsAnchorValue, Iterate, ForwardClient, ForwardGraph, Reached, Anchors;
    var c := ForwardClient(ir);
    ForwardIsBounded(ir, call, degree);
    RunsEnd(c, call, ir.kinds.Keys, degree);
    var n := CallBound(|ir.kinds.Keys|, degree);
    var calls := Iterate(c, call, n).calls;
    AnchorsAreComplete(ir, call, n);
    AnchorsHaveKinds(ir, calls);
    forall p ensures p in Anchors(ir, calls) <==> p in calls && IsAnchor(ir, p) {
      AnchorsAre(ir, calls, p);
    }
    forall p | p in Anchors(ir, calls) ensures IsForwardPath(ir, call, p) {
      AnchorsAreForward(ir, call, n, p);
    }
    if IsReturned(ir, call) {
      var p := CancelledAtReturn(ir, call, n);
      assert p in Anchors(ir, calls);
    }
  }

  /** A forward search that is cancelled ends at a return. */
  lemma {:induction false} CancelledAtReturn(ir: Ir, call: Value, n: nat) returns (p: ValuePath)
    requires Iterate(ForwardClient(ir), call, n).cancelled
    ensures p in Iterate(ForwardClient(ir), call, n).calls && IsAnchor(ir, p)
    ensures p.LastValue().Some? && ir.KindOf(p.LastValue().value).RetInst?
  {
    var s := Iterate(ForwardClient(ir), call, n);
    Order.LastCallCancels(ForwardClient(ir), call, n);
    assert Order.Cancels(ForwardClient(ir), s.calls, |s.calls| - 1);
    p := s.calls[|s.calls| - 1];
  }

  lemma {:induction false} AnchorPathsAreResults(ir: Ir, call: Value, degree: nat, anchors: seq<ValuePath>)
    requires ir.IsClosed(degree) && CallBound(|ir.kinds.Keys|, degree) >= 0 && AreFlowAnchors(ir, call, anchors)
    ensures AreResults(ir, call, FreshPaths(ir, call, degree, anchors))
  {
    hide IsForwardPath, IsFlowAnchor, Writes, IsHandedOver, IsTracedFrom, Reached, PathsOf, FreshPaths, BackwardGraph,
      IsTargetValue;
    var paths := FreshPaths(ir, call, degree, anchors);
    forall p | p in paths ensures IsResult(ir, call, p) {
      FreshPathsAre(ir, call, degree, anchors, p);
      var anchor :| anchor in anchors && p in PathsOf(ir, call, degree, anchor);
      OneAnchorIsResult(ir, call, degree, anchor, p);
    }
    forall a: Value, anchor | anchor in anchors && anchor.LastValue() == Some(a) && !Writes(ir, a)
      ensures HasPathTo(ir, call, paths, a)
    {
      AnchorIsWalk(ir, call, anchor);
      AnchorIsHandedOver(ir, call, degree, anchor);
      FreshPathsAre(ir, call, degree, anchors, anchor);
    }
    forall a: Value, t: Value, anchor |
      anchor in anchors && anchor.LastValue() == Some(a) && Writes(ir, a) && Reached(BackwardGraph(ir), a, t) &&
      IsTargetValue(ir, t)
      ensures HasTrace(ir, call, paths, a, t)
    {
      AnchorIsWalk(ir, call, anchor);
      TracesAreComplete(ir, call, degree, anchor, anchor, t);
      var p :| p in PathsOf(ir, call, degree, anchor) && IsTracedFrom(ir, call, a, p) && p.LastValue() == Some(t);
      FreshPathsAre(ir, call, degree, anchors, p);
    }
    if IsReturned(ir, call) {
      var anchor :| anchor in anchors && anchor.LastValue().Some? && ir.KindOf(anchor.LastValue().value).RetInst?;
      ReturnWritesNothing(ir, anchor.LastValue().value);
      assert HasPathTo(ir, call, paths, anchor.LastValue().value);
    }
  }

  lemma AnchorIsWalk(ir: Ir, call: Value, anchor: ValuePath)
    requires IsForwardPath(ir, call, anchor)
    ensures anchor.LastValue().Some?
  {
  }

  lemma ReturnWritesNothing(ir: Ir, v: Value)
    requires ir.KindOf(v).RetInst?
    ensures !Writes(ir, v)
  {
  }

  lemma {:induction false} OneAnchorIsResult(ir: Ir, call: Value, degree: nat, anchor: ValuePath, p: ValuePath)
    requires ir.IsClosed(degree) && CallBound(|ir.kinds.Keys|, degree) >= 0
    requires IsForwardPath(ir, call, anchor) && anchor.LastValue().value in ir.kinds
    requires IsFlowAnchor(ir, call, anchor.LastValue().value) && p in PathsOf(ir, call, degree, anchor)
    ensures IsResult(ir, call, p)
  {
    hide IsFlowAnchor, IsForwardPath, IsTracedFrom;
    AnchorIsWalk(ir, call, anchor);
    if Writes(ir, anchor.LastValue().value) {
      TracesAreComplete(ir, call, degree, anchor, p, call);
    } else {
      AnchorIsHandedOver(ir, call, degree, anchor);
    }
  }

  lemma {:induction false} SamePathsAreResults(ir: Ir, call: Value, paths: seq<ValuePath>, own: seq<ValuePath>)
    requires AreResults(ir, call, own) && forall p :: p in paths <==> p in own
    ensures AreResults(ir, call, paths)
  {
    hide IsResult, IsHandedOver, IsTracedFrom, IsFlowAnchor, Writes, Reached, BackwardGraph, IsTargetValue;
    forall a: Value | HasPathTo(ir, call, own, a) ensures HasPathTo(ir, call, paths, a) {
      var p :| p in own && IsHandedOver(ir, call, p) && p.LastValue() == Some(a);
      assert p in paths;
    }
    forall a: Value, t: Value | HasTrace(ir, call, own, a, t) ensures HasTrace(ir, call, paths, a, t) {
      var p :| p in own && IsTracedFrom(ir, call, a, p) && p.LastValue() == Some(t);
      assert p in paths;
    }
  }

  /** The first type that any path leads to; `findType` is left open. */
  function FirstType(findType: ValuePath -> Option<TypeId>, paths: seq<ValuePath>): Option<TypeId> {
    if paths == [] then None
    else if findType(paths[0]).Some? then findType(paths[0])
    else FirstType(findType, paths[1..])
  }

  lemma {:induction false} FirstTypeAppend(f: ValuePath -> Option<TypeId>, a: seq<ValuePath>, b: seq<ValuePath>)
    ensures FirstType(f, a + b) == if FirstType(f, a).Some? then FirstType(f, a) else FirstType(f, b)
    decreases |a|
  {
    if a == [] {
      assert a + b == b;
    } else {
      assert (a + b)[1..] == a[1..] + b;
      FirstTypeAppend(f, a[1..], b);
    }
  }

  lemma {:induction false} NoTypeIff(f: ValuePath -> Option<TypeId>, a: seq<ValuePath>)
    ensures FirstType(f, a) == None <==> forall p :: p in a ==> f(p) == None
    decreases |a|
  {
    if a != [] {
      NoTypeIff(f, a[1..]);
      assert a == [a[0]] + a[1..];
    }
  }

  /** Recording paths again that were recorded before does not change the first type. */
  lemma {:induction false} RepetitionIsHarmless(f: ValuePath -> Option<TypeId>, paths: seq<ValuePath>,
                                                again: seq<ValuePath>, more: seq<ValuePath>)
    requires forall p :: p in again ==> p in paths
    ensures FirstType(f, paths + (again + more)) == FirstType(f, paths + more)
  {
    FirstTypeAppend(f, paths, again + more);
    FirstTypeAppend(f, paths, more);
    FirstTypeAppend(f, again, more);
    NoTypeIff(f, paths);
    NoTypeIff(f, again);
  }

  /** `shared` is what the shared matcher has produced where fresh matchers would have produced `own`. */
  ghost predicate AgreeOnFirst(shared: seq<ValuePath>, own: seq<ValuePath>) {
    forall f :: FirstType(f, shared) == FirstType(f, own)
  }

  /** The same paths, though perhaps repeated, and the same first type. */
  ghost predicate IsAlike(shared: seq<ValuePath>, own: seq<ValuePath>) {
    AgreeOnFirst(shared, own) && forall p :: p in shared <==> p in own
  }

  lemma {:induction false} AgreeAppend(shared: seq<ValuePath>, own: seq<ValuePath>, again: seq<ValuePath>,
                                       more: seq<ValuePath>)
    requires IsAlike(shared, own) && forall p :: p in again ==> p in shared
    ensures IsAlike(shared + (again + more), own + more)
  {
    forall f
      ensures FirstType(f, shared + (again + more)) == FirstType(f, own + more)
    {
      RepetitionIsHarmless(f, shared, again, more);
      FirstTypeAppend(f, shared, more);
      FirstTypeAppend(f, own, more);
    }
  }

  /** The log that the callback sees, replayed into the anchor matcher. */
  method CollectAnchors(ir: Ir, calls: seq<ValuePath>) returns (matcher: MallocAnchorMatcher)
    ensures fresh(matcher) && matcher.anchors == Anchors(ir, calls)
  {
    matcher := new MallocAnchorMatcher();
    for i := 0 to |calls|
      invariant matcher.anchors == Anchors(ir, calls[..i])
    {
      assert calls[..i + 1][..i] == calls[..i];
      var ignored := matcher.Match(ir, calls[i]);
    }
    assert calls[..|calls|] == calls;
  }

  /** The targets of one anchor are appended to what the matcher holds already. */
  method CollectTargets(ir: Ir, chain: Chain.DefUseChain, matcher: MallocTargetMatcher, anchor: ValuePath,
                        ghost degree: nat)
    requires chain.Valid() && ir.IsClosed(degree)
    requires anchor.LastValue().Some? && anchor.LastValue().value in ir.kinds
    modifies chain, matcher
    ensures chain.Valid() && CallBound(|ir.kinds.Keys|, degree) >= 0
    ensures matcher.typesPath == old(matcher.typesPath)
                                 + Targets(ir, LogOf(BackwardClient(ir), anchor.LastValue().value, |ir.kinds.Keys|,
                                                     degree))
  {
    hide IsTarget, IsBounded, TargetVerdict, BacktrackSearch;
    var c := BackwardClient(ir);
    var start := anchor.LastValue().value;
    BackwardIsBounded(ir, start, degree);
    var calls, cancelled := chain.DoTraverse(c, start, ir.kinds.Keys, degree);
    RunIsLog(c, start, ir.kinds.Keys, degree, calls, cancelled);
    ghost var held := matcher.typesPath;
    for i := 0 to |calls|
      invariant chain.Valid() && matcher.typesPath == held + Targets(ir, calls[..i])
    {
      assert calls[..i + 1][..i] == calls[..i];
      var ignored := matcher.Match(ir, calls[i]);
    }
    assert calls[..|calls|] == calls;
  }

  lemma {:induction false} RunIsLog(c: Client, start: Value, universe: set<Value>, degree: nat,
                                    calls: seq<ValuePath>, cancelled: bool)
    requires IsBounded(c, start, universe, degree) && start in universe && Chain.IsRun(c, start, calls, cancelled)
    ensures CallBound(|universe|, degree) >= 0 && calls == LogOf(c, start, |universe|, degree)
  {
    RunsEnd(c, start, universe, degree);
    var s := Iterate(c, start, CallBound(|universe|, degree));
    assert Chain.IsRunOf(c, start, CallBound(|universe|, degree), s.calls, s.cancelled);
    Chain.RunsAreUnique(c, start, calls, cancelled, s.calls, s.cancelled);
  }

  /** The paths are exactly the results that the data flow asks for; and the first type found is the same as with a
      fresh matcher for every anchor, whatever `find_type` does. */
  method TypeForHeapCall(ir: Ir, call: Value, ghost degree: nat) returns (paths: seq<ValuePath>)
    requires ir.IsClosed(degree) && call in ir.kinds
    ensures CallBound(|ir.kinds.Keys|, degree) >= 0
    ensures var anchors := Anchors(ir, LogOf(ForwardClient(ir), call, |ir.kinds.Keys|, degree));
            AgreeOnFirst(paths, FreshPaths(ir, call, degree, anchors))
    ensures AreResults(ir, call, paths) && StartsWithLastUser(ir, call, paths)
  {
    hide AreResults, StartsWithLastUser, AreFlowAnchors, Reached, IsAlike, AgreeOnFirst, FreshPaths, PathsOf, Anchors;
    var chain := new Chain.DefUseChain();
    ForwardIsBounded(ir, call, degree);
    var calls, cancelled := chain.DoTraverse(ForwardClient(ir), call, ir.kinds.Keys, degree);
    RunIsLog(ForwardClient(ir), call, ir.kinds.Keys, degree, calls, cancelled);
    var finder := CollectAnchors(ir, calls);
    var anchors := finder.anchors;
    AnchorsHaveKinds(ir, calls);
    var backtrack := new MallocTargetMatcher();
    paths := [];
    NothingIsAlike(ir, call, degree);
    ResultsAreAlike(ir, call, degree, anchors);
    if |anchors| == 0 {
      return [];
    }
    for i := 0 to |anchors|
      invariant chain.Valid()
      invariant IsAlike(paths, FreshPaths(ir, call, degree, anchors[..i]))
      invariant forall p :: p in backtrack.typesPath ==> p in paths
    {
      var anchor := anchors[i];
      ghost var before, held := paths, backtrack.typesPath;
      if anchor.LastValue().Some? && ir.KindOf(anchor.LastValue().value) == StoreInst(call) {
        OneMoreAnchor(ir, call, degree, anchors, i, before, []);
        assert before + ([] + []) == before;
        continue;
      }
      if IsTraced(ir, anchor) {
        CollectTargets(ir, chain, backtrack, anchor, degree);
        paths := paths + backtrack.typesPath;
        OneMoreAnchor(ir, call, degree, anchors, i, before, held);
        continue;
      }
      paths := paths + [anchor];
      OneMoreAnchor(ir, call, degree, anchors, i, before, []);
      assert [] + [anchor] == [anchor];
    }
    assert anchors[..|anchors|] == anchors;
  }

  /** The first path belongs to the last user of the call: it is traced from there, if that writes memory and a target
      is reachable, and ends there otherwise. */
  ghost predicate StartsWithLastUser(ir: Ir, call: Value, paths: seq<ValuePath>) {
    forall j: nat :: IsLastUser(ir, call, j) ==>
      var u := ir.Users(call)[j];
      if Writes(ir, u) then HasTarget(ir, u) ==> paths != [] && IsTracedFrom(ir, call, u, paths[0])
      else paths != [] && paths[0] == ValuePath([call, u])
  }

  ghost predicate HasTarget(ir: Ir, a: Value) {
    exists t: Value :: Reached(BackwardGraph(ir), a, t) && IsTargetValue(ir, t)
  }

  lemma {:induction false} AgreeMeansSameHead(paths: seq<ValuePath>, own: seq<ValuePath>)
    requires AgreeOnFirst(paths, own) && own != []
    ensures paths != [] && paths[0] == own[0]
  {
    var f := (p: ValuePath) => if p == own[0] then Some(0 as TypeId) else Some(1);
    assert FirstType(f, paths) == FirstType(f, own) == f(own[0]);
  }

  lemma {:induction false} FreshPathsGrow(ir: Ir, call: Value, degree: nat, anchors: seq<ValuePath>, n: nat)
    requires CallBound(|ir.kinds.Keys|, degree) >= 0 && n <= |anchors|
    ensures FreshPaths(ir, call, degree, anchors[..n]) <= FreshPaths(ir, call, degree, anchors)
    decreases |anchors|
  {
    hide PathsOf;
    if n < |anchors| {
      FreshPathsGrow(ir, call, degree, anchors[..|anchors| - 1], n);
      assert anchors[..|anchors| - 1][..n] == anchors[..n];
    } else {
      assert anchors[..n] == anchors;
    }
  }

  lemma {:induction false} FirstPathIsOfLastUser(ir: Ir, call: Value, degree: nat, anchors: seq<ValuePath>,
                                                 paths: seq<ValuePath>)
    requires ir.IsClosed(degree) && call in ir.kinds && CallBound(|ir.kinds.Keys|, degree) >= 0
    requires anchors == Anchors(ir, LogOf(ForwardClient(ir), call, |ir.kinds.Keys|, degree))
    requires AgreeOnFirst(paths, FreshPaths(ir, call, degree, anchors))
    ensures StartsWithLastUser(ir, call, paths)
  {
    hide Iterate, Reached, AgreeOnFirst, IsAnchorValue, IsFlowAnchor, IsForwardPath, Anchors, IsTracedFrom,
      BackwardGraph, ForwardGraph, IsTargetValue;
    ForwardIsBounded(ir, call, degree);
    RunsEnd(ForwardClient(ir), call, ir.kinds.Keys, degree);
    LoggedAnchorsAre(ir, call, degree);
    forall j: nat | IsLastUser(ir, call, j)
      ensures var u := ir.Users(call)[j];
              if Writes(ir, u) then HasTarget(ir, u) ==> paths != [] && IsTracedFrom(ir, call, u, paths[0])
              else paths != [] && paths[0] == ValuePath([call, u])
    {
      LastUserIsFirstAnchor(ir, call, CallBound(|ir.kinds.Keys|, degree), j);
      var u := ir.Users(call)[j];
      var first := ValuePath([call, u]);
      assert anchors[0] == first && first in anchors;
      assert anchors[..1] == [first] && [first][..0] == [] && FreshPaths(ir, call, degree, []) == [];
      FreshPathsGrow(ir, call, degree, anchors, 1);
      var own := PathsOf(ir, call, degree, first);
      assert FreshPaths(ir, call, degree, [first]) == own;
      if !Writes(ir, u) {
        AnchorIsHandedOver(ir, call, degree, first);
        AgreeMeansSameHead(paths, FreshPaths(ir, call, degree, anchors));
      } else if t: Value :| Reached(BackwardGraph(ir), u, t) && IsTargetValue(ir, t) {
        TracesAreComplete(ir, call, degree, first, first, t);
        AgreeMeansSameHead(paths, FreshPaths(ir, call, degree, anchors));
        TracesAreComplete(ir, call, degree, first, own[0], t);
      }
    }
  }

  lemma NothingIsAlike(ir: Ir, call: Value, degree: nat)
    requires CallBound(|ir.kinds.Keys|, degree) >= 0
    ensures IsAlike([], FreshPaths(ir, call, degree, []))
  {
  }

  /** The paths of one more anchor, after paths that the shared matcher still holds. */
  lemma {:induction false} OneMoreAnchor(ir: Ir, call: Value, degree: nat, anchors: seq<ValuePath>, i: nat,
                                         shared: seq<ValuePath>, again: seq<ValuePath>)
    requires CallBound(|ir.kinds.Keys|, degree) >= 0 && i < |anchors|
    requires IsAlike(shared, FreshPaths(ir, call, degree, anchors[..i])) && forall p :: p in again ==> p in shared
    ensures IsAlike(shared + (again + PathsOf(ir, call, degree, anchors[i])),
                    FreshPaths(ir, call, degree, anchors[..i + 1]))
    ensures PathsOf(ir, call, degree, anchors[i])
         == if anchors[i].LastValue().Some? && ir.KindOf(anchors[i].LastValue().value) == StoreInst(call) then []
            else if IsTraced(ir, anchors[i]) then
              Targets(ir, LogOf(BackwardClient(ir), anchors[i].LastValue().value, |ir.kinds.Keys|, degree))
            else [anchors[i]]
  {
    assert anchors[..i + 1][..i] == anchors[..i];
    hide IsAlike;
    AgreeAppend(shared, FreshPaths(ir, call, degree, anchors[..i]), again, PathsOf(ir, call, degree, anchors[i]));
  }

  lemma {:induction false} ResultsAreAlike(ir: Ir, call: Value, degree: nat, anchors: seq<ValuePath>)
    requires ir.IsClosed(degree) && call in ir.kinds && CallBound(|ir.kinds.Keys|, degree) >= 0
    requires anchors == Anchors(ir, LogOf(ForwardClient(ir), call, |ir.kinds.Keys|, degree))
    ensures forall paths :: IsAlike(paths, FreshPaths(ir, call, degree, anchors)) ==>
                              AreResults(ir, call, paths) && StartsWithLastUser(ir, call, paths) &&
                              AgreeOnFirst(paths, FreshPaths(ir, call, degree, anchors))
  {
    hide AreResults, AreFlowAnchors, AgreeOnFirst, FreshPaths, Anchors;
    LoggedAnchorsAre(ir, call, degree);
    var own := FreshPaths(ir, call, degree, anchors);
    AnchorPathsAreResults(ir, call, degree, anchors);
    hide StartsWithLastUser;
    forall paths | IsAlike(paths, own)
      ensures AreResults(ir, call, paths) && StartsWithLastUser(ir, call, paths) && AgreeOnFirst(paths, own)
    {
      SamePathsAreResults(ir, call, paths, own);
      FirstPathIsOfLastUser(ir, call, degree, anchors, paths);
    }
  }

  /** Anchors end in values of the program. */
  lemma {:induction false} AnchorsHaveKinds(ir: Ir, calls: seq<ValuePath>)
    ensures forall p :: p in Anchors(ir, calls) ==> p.LastValue().Some? && p.LastValue().value in ir.kinds
    decreases |calls|
  {
    if calls != [] {
      AnchorsHaveKinds(ir, calls[..|calls| - 1]);
    }
  }

  /** `r` is the type of the first path that has one. */
  predicate IsTypeOfFirst(findType: ValuePath -> Option<TypeId>, paths: seq<ValuePath>, r: Option<TypeId>) {
    if r == None then forall i :: 0 <= i < |paths| ==> findType(paths[i]) == None
    else
      exists k :: 0 <= k < |paths| && findType(paths[k]) == r && forall i :: 0 <= i < k ==> findType(paths[i]) == None
  }

  lemma {:induction false} FirstTypeIs(f: ValuePath -> Option<TypeId>, paths: seq<ValuePath>)
    ensures IsTypeOfFirst(f, paths, FirstType(f, paths))
    decreases |paths|
  {
    if paths != [] && f(paths[0]) == None {
      FirstTypeIs(f, paths[1..]);
      assert forall i :: 0 < i < |paths| ==> paths[i] == paths[1..][i - 1];
      if FirstType(f, paths).Some? {
        var k :| 0 <= k < |paths[1..]| && f(paths[1..][k]) == FirstType(f, paths) &&
          forall i :: 0 <= i < k ==> f(paths[1..][i]) == None;
        assert f(paths[k + 1]) == FirstType(f, paths);
      }
    }
  }

  /** The types of all paths that have one, in order. */
  function CollectTypes(findType: ValuePath -> Option<TypeId>, paths: seq<ValuePath>): seq<TypeId> {
    if paths == [] then []
    else (if findType(paths[0]).Some? then [findType(paths[0]).value] else []) + CollectTypes(findType, paths[1..])
  }

  lemma {:induction false} CollectedFirst(f: ValuePath -> Option<TypeId>, paths: seq<ValuePath>)
    ensures FirstType(f, paths) == if CollectTypes(f, paths) == [] then None else Some(CollectTypes(f, paths)[0])
    decreases |paths|
  {
    if paths != [] {
      CollectedFirst(f, paths[1..]);
    }
  }

  /** A local variable that the result of the call is stored into straight away: its type, the element type if that is
      a composite, and whether an element is assigned. */
  datatype Local = Local(ty: TypeId, element: Option<TypeId>, arrayAccess: bool)

  method TypeForMalloclike(ir: Ir, call: Value, local: Option<Local>, findType: ValuePath -> Option<TypeId>,
                           ghost degree: nat)
    returns (r: Option<TypeId>)
    requires ir.IsClosed(degree) && call in ir.kinds
    ensures CallBound(|ir.kinds.Keys|, degree) >= 0
    ensures local.Some? ==>
              r == if local.value.arrayAccess && local.value.element.Some? then local.value.element
              else Some(local.value.ty)
    ensures var anchors := Anchors(ir, LogOf(ForwardClient(ir), call, |ir.kinds.Keys|, degree));
            local.None? ==> r == FirstType(findType, FreshPaths(ir, call, degree, anchors))
    ensures local.None? ==>
              exists paths :: AreResults(ir, call, paths) && StartsWithLastUser(ir, call, paths) &&
                              IsTypeOfFirst(findType, paths, r)
  {
    hide AreResults, StartsWithLastUser;
    ForwardIsBounded(ir, call, degree);
    RunsEnd(ForwardClient(ir), call, ir.kinds.Keys, degree);
    if local.Some? {
      if local.value.arrayAccess && local.value.element.Some? {
        return local.value.element;
      }
      return Some(local.value.ty);
    }
    var paths := TypeForHeapCall(ir, call, degree);
    var types := CollectTypes(findType, paths);
    CollectedFirst(findType, paths);
    FirstTypeIs(findType, paths);
    if |types| == 0 {
      return None;
    }
    return Some(types[0]);
  }
}
