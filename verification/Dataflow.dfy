/** The two clients of the worklist engine that lib/type/DataflowAnalysis.cpp uses for heap calls: forward from the call
    to its anchors, then backward from an anchor to the variables that hold its target. */
module Dataflow {
  import opened Wrappers
  import opened ValuePath
  import opened DefUse
  import opened DefUseReach

  /** What the clients look at in an IR value. Memory copies and other memory intrinsics are calls in LLVM. */
  datatype Kind =
    | StoreInst(ptr: Value) | LoadInst(ptr: Value) | GepInst(ptr: Value) | BitCastInst(op: Value) | SExtInst(op: Value)
    | PhiInst(incoming: seq<Value>) | AllocaInst | RetInst | CallInst | InvokeOrCallBr
    | MemCpyIntrinsic(dest: Value) | OtherMemIntrinsic | OtherIntrinsic | OtherInst
    | Argument | GlobalVar | ConstGep(ptr: Value) | ConstBitCast(op: Value) | OtherConstExpr | OtherValue

  datatype Ir = Ir(kinds: map<Value, Kind>, userLists: map<Value, seq<Value>>)
  {
    function KindOf(v: Value): Kind { if v in kinds then kinds[v] else OtherValue }

    function Users(v: Value): seq<Value> { if v in userLists then userLists[v] else [] }

    /** Operands and users are values of the function or module, at most `degree` of them each. */
    ghost predicate IsClosed(degree: nat) {
      degree > 0 &&
      (forall v :: v in userLists ==> |userLists[v]| <= degree && forall u :: u in userLists[v] ==> u in kinds) &&
      (forall v :: v in kinds ==> |Operands(kinds[v])| <= degree && forall u :: u in Operands(kinds[v]) ==> u in kinds)
    }
  }

  function Operands(k: Kind): seq<Value> {
    match k
    case StoreInst(p) => [p]
    case LoadInst(p) => [p]
    case GepInst(p) => [p]
    case BitCastInst(o) => [o]
    case SExtInst(o) => [o]
    case PhiInst(incoming) => incoming
    case MemCpyIntrinsic(d) => [d]
    case ConstGep(p) => [p]
    case ConstBitCast(o) => [o]
    case _ => []
  }

  predicate IsMemIntrinsic(k: Kind) { k.MemCpyIntrinsic? || k.OtherMemIntrinsic? }

  predicate IsIntrinsic(k: Kind) { IsMemIntrinsic(k) || k.OtherIntrinsic? }

  /** A call that is not an intrinsic. */
  predicate IsCall(k: Kind) { k.CallInst? || k.InvokeOrCallBr? }

  predicate IsInstruction(k: Kind) {
    !(k.Argument? || k.GlobalVar? || k.ConstGep? || k.ConstBitCast? || k.OtherConstExpr? || k.OtherValue?)
  }

  // ---- Forward: from the heap call to its anchors -------------------------------------------------------------

  /** A store into memory that a memory intrinsic also uses is left to that intrinsic. */
  predicate IsDeferred(ir: Ir, ptr: Value) {
    exists i :: 0 <= i < |ir.Users(ptr)| && IsMemIntrinsic(ir.KindOf(ir.Users(ptr)[i]))
  }

  /** The path is recorded: its last value consumes the allocation. */
  predicate IsAnchor(ir: Ir, path: ValuePath) {
    path.LastValue().Some? &&
    match ir.KindOf(path.LastValue().value)
    case MemCpyIntrinsic(_) => true
    case OtherMemIntrinsic => true
    case RetInst => true
    case StoreInst(ptr) => Some(ptr) != path.StartValue() && !IsDeferred(ir, ptr)
    case CallInst => !path.OnlyStart()
    case InvokeOrCallBr => !path.OnlyStart()
    case _ => false
  }

  function AnchorVerdict(ir: Ir, path: ValuePath): MatchResult {
    if path.LastValue().None? then Skip
    else
      match ir.KindOf(path.LastValue().value)
      case RetInst => Cancel
      case StoreInst(ptr) => if Some(ptr) != path.StartValue() && IsDeferred(ir, ptr) then Continue else Skip
      case CallInst => Continue
      case InvokeOrCallBr => Continue
      case LoadInst(_) => Continue
      case BitCastInst(_) => Continue
      case SExtInst(_) => Continue
      case PhiInst(_) => Continue
      case AllocaInst => Continue
      case OtherInst => Continue
      case _ => Skip
  }

  /** From a store, the search goes on with the users of the memory that is written. */
  function ForwardSearch(ir: Ir, path: ValuePath): Option<seq<Value>> {
    if path.LastValue().None? then None
    else
      match ir.KindOf(path.LastValue().value)
      case StoreInst(ptr) => Some(ir.Users(ptr))
      case _ => Some(ir.Users(path.LastValue().value))
  }

  function ForwardClient(ir: Ir): Client {
    Client((h, p) => AnchorVerdict(ir, p), (h, p) => true, (h, p) => ForwardSearch(ir, p))
  }

  class MallocAnchorMatcher {
    var anchors: seq<ValuePath>

    constructor ()
      ensures anchors == []
    {
      anchors := [];
    }

    method Match(ir: Ir, path: ValuePath) returns (r: MatchResult)
      modifies this
      ensures r == AnchorVerdict(ir, path)
      ensures anchors == old(anchors) + (if IsAnchor(ir, path) then [path] else [])
    {
      if path.LastValue().None? {
        return Skip;
      }
      var kind := ir.KindOf(path.LastValue().value);
      if !IsInstruction(kind) {
        return Skip;
      }
      if IsIntrinsic(kind) {
        if IsMemIntrinsic(kind) {
          anchors := anchors + [path];
        }
        return Skip;
      }
      match kind {
        case RetInst =>
          anchors := anchors + [path];
          return Cancel;
        case StoreInst(ptr) =>
          if Some(ptr) != path.StartValue() {
            var users := ir.Users(ptr);
            for i := 0 to |users|
              invariant forall j :: 0 <= j < i ==> !IsMemIntrinsic(ir.KindOf(users[j]))
            {
              if IsMemIntrinsic(ir.KindOf(users[i])) {
                return Continue;
              }
            }
            anchors := anchors + [path];
          }
          return Skip;
        case GepInst(_) => return Skip;
        case CallInst =>
          if path.OnlyStart() {
            return Continue;
          }
          anchors := anchors + [path];
          return Continue;
        case InvokeOrCallBr =>
          if path.OnlyStart() {
            return Continue;
          }
          anchors := anchors + [path];
          return Continue;
        case _ => return Continue;
      }
    }
  }

  /** Memory at `ptr` is also used by a copy or another memory intrinsic. */
  predicate IsCopied(ir: Ir, ptr: Value) {
    exists u :: u in ir.Users(ptr) && (ir.KindOf(u).MemCpyIntrinsic? || ir.KindOf(u).OtherMemIntrinsic?)
  }

  /** The allocation is followed through calls, loads, casts, phis, allocas and other instructions, and through a store
      into memory that is copied; not through address computations, intrinsics, or anything that is no instruction. */
  predicate CarriesOn(ir: Ir, start: Value, v: Value) {
    var k := ir.KindOf(v);
    k.CallInst? || k.InvokeOrCallBr? || k.LoadInst? || k.BitCastInst? || k.SExtInst? || k.PhiInst? || k.AllocaInst? ||
    k.OtherInst? || (k.StoreInst? && k.ptr != start && IsCopied(ir, k.ptr))
  }

  /** The data flow from the allocation: to the users of a value, and from a store to those of the memory written. */
  function ForwardGraph(ir: Ir, start: Value): Graph {
    Graph((v: Value) => if ir.KindOf(v).RetInst? then Cancel else if CarriesOn(ir, start, v) then Continue else Skip,
          (v: Value) => if ir.KindOf(v).StoreInst? then ir.Users(ir.KindOf(v).ptr) else ir.Users(v))
  }

  /** The value ends an anchor path: a memory intrinsic, a return, a call other than the start, or a store that neither
      writes into the allocation itself nor into memory that is copied. */
  predicate IsAnchorValue(ir: Ir, start: Value, v: Value) {
    var k := ir.KindOf(v);
    k.MemCpyIntrinsic? || k.OtherMemIntrinsic? || k.RetInst? || ((k.CallInst? || k.InvokeOrCallBr?) && v != start) ||
    (k.StoreInst? && k.ptr != start && !IsCopied(ir, k.ptr))
  }

  lemma DeferredExactlyIfCopied(ir: Ir, ptr: Value)
    ensures IsDeferred(ir, ptr) <==> IsCopied(ir, ptr)
  {
    if u :| u in ir.Users(ptr) && (ir.KindOf(u).MemCpyIntrinsic? || ir.KindOf(u).OtherMemIntrinsic?) {
      var i :| 0 <= i < |ir.Users(ptr)| && ir.Users(ptr)[i] == u;
      assert IsMemIntrinsic(ir.KindOf(ir.Users(ptr)[i]));
    }
  }

  /** On a simple walk only the start and the last value matter. */
  lemma {:induction false} ForwardFollowsGraph(ir: Ir, start: Value)
    ensures Follows(ForwardClient(ir), start, ForwardGraph(ir, start))
    ensures forall p :: IsWalk(start, p) ==> (IsAnchor(ir, p) <==> IsAnchorValue(ir, start, p.LastValue().value))
  {
    var c, g := ForwardClient(ir), ForwardGraph(ir, start);
    hide IsDeferred, IsCopied;
    forall ptr: Value ensures IsDeferred(ir, ptr) <==> IsCopied(ir, ptr) {
      DeferredExactlyIfCopied(ir, ptr);
    }
    forall h, p | IsWalk(start, p)
      ensures c.onMatch(h, p) == g.verdict(p.LastValue().value)
      ensures Candidates(c, h, p) == g.Succ(p.LastValue().value)
    {
      assert p.StartValue() == Some(start);
    }
    forall p | IsWalk(start, p)
      ensures p.OnlyStart() <==> p.LastValue() == Some(start)
    {
    }
  }

  /** A path along the data flow from the allocation. */
  ghost predicate IsForwardPath(ir: Ir, start: Value, p: ValuePath) {
    IsWalk(start, p) &&
    forall i :: 0 <= i < |p.values| - 1 ==> p.values[i + 1] in ForwardGraph(ir, start).Succ(p.values[i])
  }

  /** Every path that the forward search matches is such a path. */
  lemma {:induction false} AnchorsAreForward(ir: Ir, start: Value, n: nat, p: ValuePath)
    requires p in Iterate(ForwardClient(ir), start, n).calls
    ensures IsForwardPath(ir, start, p)
  {
    var c := ForwardClient(ir);
    hide ForwardClient, ForwardGraph;
    CalledPathIsWalk(c, start, n, p);
    PathsAreSimpleWalks(c, start, n);
    var s := Iterate(c, start, n);
    assert IsProcessed(c, start, s, p);
    ForwardFollowsGraph(ir, start);
    JustifiedFollows(c, start, ForwardGraph(ir, start), s.calls, p);
  }

  /** A path that is justified for such a client follows its graph. */
  lemma {:induction false} JustifiedFollows(c: Client, start: Value, g: Graph, calls: seq<ValuePath>, p: ValuePath)
    requires Follows(c, start, g) && IsJustified(c, start, calls, p) && p.IsSimple()
    ensures forall i :: 0 <= i < |p.values| - 1 ==> p.values[i + 1] in g.Succ(p.values[i])
    decreases |p.values|
  {
    if |p.values| > 1 {
      var q := p.Prefix();
      JustifiedFollows(c, start, g, calls, q);
      var k: nat :| IsOffered(c, calls, k, p);
      assert IsWalk(start, q) && q.LastValue() == Some(p.values[|p.values| - 2]);
      assert p.values[|p.values| - 1] in g.Succ(p.values[|p.values| - 2]);
      forall i | 0 <= i < |p.values| - 1 ensures p.values[i + 1] in g.Succ(p.values[i]) {
        if i < |p.values| - 2 {
          assert q.values[i] == p.values[i] && q.values[i + 1] == p.values[i + 1];
        }
      }
    }
  }

  lemma {:induction false} ForwardIsBounded(ir: Ir, start: Value, degree: nat)
    requires ir.IsClosed(degree)
    ensures IsBounded(ForwardClient(ir), start, ir.kinds.Keys, degree)
  {
  }

  /** Every consumer of the allocation that is reachable through continuing values ends a recorded path, and nothing
      else does -- unless a reachable return cuts the search short. */
  lemma {:induction false} AnchorsAreComplete(ir: Ir, start: Value, n: nat)
    requires Iterate(ForwardClient(ir), start, n).work == []
    ensures var s := Iterate(ForwardClient(ir), start, n);
            var g := ForwardGraph(ir, start);
            (s.cancelled <==> exists v: Value :: Reached(g, start, v) && ir.KindOf(v).RetInst?) &&
            (forall p :: p in s.calls && IsAnchor(ir, p) ==>
               Reached(g, start, p.LastValue().value) && IsAnchorValue(ir, start, p.LastValue().value)) &&
            (!s.cancelled ==>
               forall v: Value :: Reached(g, start, v) && IsAnchorValue(ir, start, v) ==>
                 exists p :: p in s.calls && IsAnchor(ir, p) && p.LastValue() == Some(v))
  {
    hide Follows, Reached, IsAnchor, IsAnchorValue;
    var c, g := ForwardClient(ir), ForwardGraph(ir, start);
    ForwardFollowsGraph(ir, start);
    MatchesExactlyReached(c, g, start, n);
    var s := Iterate(c, start, n);
    assert s.cancelled <==> exists v: Value :: Reached(g, start, v) && ir.KindOf(v).RetInst? by {
      assert forall v: Value :: g.verdict(v) == Cancel <==> ir.KindOf(v).RetInst?;
    }
    hide ForwardGraph, ForwardClient, Iterate;
    forall p | p in s.calls
      ensures IsWalk(start, p) && IsMatched(s.calls, p.LastValue().value)
    {
      CalledPathIsWalk(c, start, n, p);
    }
    forall v: Value | !s.cancelled && Reached(g, start, v) && IsAnchorValue(ir, start, v)
      ensures exists p :: p in s.calls && IsAnchor(ir, p) && p.LastValue() == Some(v)
    {
      var k :| 0 <= k < |s.calls| && s.calls[k].LastValue() == Some(v);
      assert s.calls[k] in s.calls;
    }
  }

  lemma {:induction false} CalledPathIsWalk(c: Client, start: Value, n: nat, p: ValuePath)
    requires p in Iterate(c, start, n).calls
    ensures IsWalk(start, p) && IsMatched(Iterate(c, start, n).calls, p.LastValue().value)
  {
    PathsAreSimpleWalks(c, start, n);
    var s := Iterate(c, start, n);
    assert IsProcessed(c, start, s, p);
    var k :| 0 <= k < |s.calls| && s.calls[k] == p;
    assert s.calls[k].LastValue() == Some(p.LastValue().value);
  }

  // ---- Backward: from an anchor to the variables --------------------------------------------------------------

  /** The operands through which a target is traced back. */
  function BacktrackSearch(ir: Ir, path: ValuePath): Option<seq<Value>> {
    if path.LastValue().None? then None
    else
      match ir.KindOf(path.LastValue().value)
      case ConstGep(p) => Some([p])
      case ConstBitCast(o) => Some([o])
      case StoreInst(p) => Some([p])
      case LoadInst(p) => Some([p])
      case GepInst(p) => Some([p])
      case BitCastInst(o) => Some([o])
      case PhiInst(incoming) => Some(incoming)
      case MemCpyIntrinsic(d) => Some([d])
      case OtherMemIntrinsic => Some([])
      case OtherIntrinsic => Some([])
      case CallInst => Some([])
      case SExtInst(o) => Some([o])
      case _ => None
  }

  /** The path has arrived: its last value carries a debug type. */
  predicate IsTargetValue(ir: Ir, v: Value) {
    var k := ir.KindOf(v);
    k.AllocaInst? || k.Argument? || k.GlobalVar? || k.CallInst? || k.InvokeOrCallBr?
  }

  predicate IsTarget(ir: Ir, path: ValuePath) {
    path.LastValue().Some? && IsTargetValue(ir, path.LastValue().value)
  }

  function TargetVerdict(ir: Ir, path: ValuePath): MatchResult {
    if path.LastValue().None? then Skip
    else
      var k := ir.KindOf(path.LastValue().value);
      if k.MemCpyIntrinsic? then Continue
      else if IsIntrinsic(k) || IsTargetValue(ir, path.LastValue().value) then Skip
      else Continue
  }

  function BackwardClient(ir: Ir): Client {
    Client((h, p) => TargetVerdict(ir, p), (h, p) => true, (h, p) => BacktrackSearch(ir, p))
  }

  class MallocTargetMatcher {
    var typesPath: seq<ValuePath>

    constructor ()
      ensures typesPath == []
    {
      typesPath := [];
    }

    method Match(ir: Ir, path: ValuePath) returns (r: MatchResult)
      modifies this
      ensures r == TargetVerdict(ir, path)
      ensures typesPath == old(typesPath) + (if IsTarget(ir, path) then [path] else [])
    {
      if path.LastValue().None? {
        return Skip;
      }
      var kind := ir.KindOf(path.LastValue().value);
      if IsInstruction(kind) {
        if IsIntrinsic(kind) {
          return if kind.MemCpyIntrinsic? then Continue else Skip;
        }
        if kind.AllocaInst? {
          typesPath := typesPath + [path];
          return Skip;
        }
      }
      if kind.Argument? {
        typesPath := typesPath + [path];
        return Skip;
      }
      if kind.GlobalVar? {
        typesPath := typesPath + [path];
        return Skip;
      }
      if IsCall(kind) {
        typesPath := typesPath + [path];
        return Skip;
      }
      return Continue;
    }
  }

  lemma {:induction false} BackwardIsBounded(ir: Ir, start: Value, degree: nat)
    requires ir.IsClosed(degree)
    ensures IsBounded(BackwardClient(ir), start, ir.kinds.Keys, degree)
  {
  }

  /** A path from `start` against the data flow: each value is an operand that the search selects for the value before
      it, and only the last one may carry a debug type. */
  predicate IsBacktrack(ir: Ir, start: Value, p: ValuePath) {
    IsWalk(start, p) &&
    forall i :: 0 <= i < |p.values| - 1 ==>
                  IsSelected(ir, p.values[i], p.values[i + 1]) && !IsTargetValue(ir, p.values[i])
  }

  /** The memory that a store or copy writes, the address that a load or address computation takes, what a cast casts,
      and whatever a phi merges. */
  predicate IsSelected(ir: Ir, v: Value, operand: Value) { operand in Operands(ir.KindOf(v)) }

  /** Every path that the backward search records is such a path and ends in a target. */
  lemma {:induction false} TargetsAreBacktracks(ir: Ir, start: Value, n: nat, p: ValuePath)
    requires p in Iterate(BackwardClient(ir), start, n).calls
    ensures IsBacktrack(ir, start, p)
  {
    CalledPathIsWalk(BackwardClient(ir), start, n, p);
    PathsAreSimpleWalks(BackwardClient(ir), start, n);
    var s := Iterate(BackwardClient(ir), start, n);
    assert IsProcessed(BackwardClient(ir), start, s, p);
    JustifiedBacktracks(ir, start, s.calls, p);
  }

  lemma {:induction false} JustifiedBacktracks(ir: Ir, start: Value, calls: seq<ValuePath>, p: ValuePath)
    requires IsJustified(BackwardClient(ir), start, calls, p)
    ensures forall i :: 0 <= i < |p.values| - 1 ==>
                          IsSelected(ir, p.values[i], p.values[i + 1]) && !IsTargetValue(ir, p.values[i])
    decreases |p.values|
  {
    if |p.values| > 1 {
      JustifiedBacktracks(ir, start, calls, p.Prefix());
      var k: nat :| IsOffered(BackwardClient(ir), calls, k, p);
      var v := p.values[|p.values| - 2];
      assert p.Prefix().LastValue() == Some(v);
      assert IsSelected(ir, v, p.values[|p.values| - 1]);
      forall i | 0 <= i < |p.values| - 1
        ensures IsSelected(ir, p.values[i], p.values[i + 1]) && !IsTargetValue(ir, p.values[i])
      {
        if i < |p.values| - 2 {
          assert p.Prefix().values[i] == p.values[i] && p.Prefix().values[i + 1] == p.values[i + 1];
        }
      }
    }
  }

  /** Against the data flow: to the operands, up to targets and to intrinsics other than copies. */
  function BackwardGraph(ir: Ir): Graph {
    Graph((v: Value) => var k := ir.KindOf(v);
                        if IsTargetValue(ir, v) || k.OtherMemIntrinsic? || k.OtherIntrinsic? then Skip else Continue,
          (v: Value) => Operands(ir.KindOf(v)))
  }

  lemma {:induction false} BackwardFollowsGraph(ir: Ir, start: Value)
    ensures Follows(BackwardClient(ir), start, BackwardGraph(ir))
  {
    var c, g := BackwardClient(ir), BackwardGraph(ir);
    forall h, p | IsWalk(start, p)
      ensures c.onMatch(h, p) == g.verdict(p.LastValue().value)
      ensures Candidates(c, h, p) == g.Succ(p.LastValue().value)
    {
    }
  }

  /** The recorded paths end in exactly the targets that are reachable against the data flow. */
  lemma {:induction false} TargetsAreComplete(ir: Ir, start: Value, n: nat, v: Value)
    requires Iterate(BackwardClient(ir), start, n).work == [] && IsTargetValue(ir, v)
    ensures var s := Iterate(BackwardClient(ir), start, n);
            !s.cancelled &&
            (Reached(BackwardGraph(ir), start, v)
             <==> exists p :: p in s.calls && IsTarget(ir, p) && p.LastValue() == Some(v))
  {
    hide Reached, Follows;
    var c, g := BackwardClient(ir), BackwardGraph(ir);
    BackwardFollowsGraph(ir, start);
    MatchesExactlyReached(c, g, start, n);
    var s := Iterate(c, start, n);
    if Reached(g, start, v) {
      var k :| 0 <= k < |s.calls| && s.calls[k].LastValue() == Some(v);
      assert s.calls[k] in s.calls;
    }
    if p :| p in s.calls && IsTarget(ir, p) && p.LastValue() == Some(v) {
      CalledPathIsWalk(c, start, n, p);
    }
  }
}
