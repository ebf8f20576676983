/** The depth-first visitor of lib/type/DIVisitor.h with the hooks of lib/type/DIParser.cpp: it walks the cyclic graph,
    collects metadata in `current` and drives the event consumer. */
module EventVisitor {
  import opened Wrappers
  import opened TypeTree
  import opened TypeGraph
  import opened ParseState
  import opened Walk
  import opened TypeParser

  /** The state of both machines. */
  datatype Snapshot = Snapshot(
    visited: set<Id>,
    stack: seq<Meta>,
    enumBase: Option<Id>,
    isEnum: bool,
    current: Meta,
    sink: Sink)

  /** What the consumer makes of the events of one traversal. */
  function Absorb(s: Sink, o: Outcome): Sink
    requires o.item.Some? && IsFiledItem(o.item.value) ==> s.stack != []
  {
    var s := if o.stray.Some? then s.(result := o.stray.value) else s;
    if o.item.Some? then Deliver(s, o.item.value) else s
  }

  function After(s: Snapshot, o: Outcome): Snapshot
    requires o.item.Some? && IsFiledItem(o.item.value) ==> s.sink.stack != []
  {
    s.(current := o.cur, sink := Absorb(s.sink, o))
  }

  /** Inside an enumeration only the underlying type is looked up. */
  function AfterEnumBase(g: Graph, s: Snapshot, t: Option<Id>): Snapshot
    requires g.TypeOk(t)
  {
    var base := EnumBase(g, t);
    if base.None? then s else s.(current := CLEAN, enumBase := Some(base.value.0))
  }

  ghost predicate StateOk(g: Graph, s: Snapshot) {
    // the stacks have equal height and correspond entry by entry
    |s.stack| == |s.sink.stack| &&
    (forall i :: 0 <= i < |s.stack| ==> s.sink.stack[i].info == MakeInfo(s.stack[i])) &&
    (!s.isEnum ==> s.enumBase == None) &&
    s.visited <= g.Compounds()
  }

  /** `t` may be visited in state `s`. */
  predicate Ready(g: Graph, s: Snapshot, t: Option<Id>) {
    g.TypeOk(t) &&
    (IsFiled(s.current.place) ==> s.sink.stack != []) &&
    if s.isEnum then t.Some? ==> EndsInBasic(g, t)
    else
      (if s.current.place.isMember then true
       else if s.current.place.isBaseClass then EndsInCompound(g, t)
       else !EndsInVtable(g, t))
  }

  /** The effect of a walk on the state, provided the walk is allowed there. */
  function Visited(g: Graph, s: Snapshot, t: Option<Id>): Snapshot
    requires Ready(g, s, t)
  {
    WalkKeepsPlace(g, t, s.visited, s.current);
    if s.isEnum then AfterEnumBase(g, s, t) else After(s, WalkType(g, t, s.visited, s.current))
  }

  /** The end of a chain emits the event; inside an enumeration it is the underlying type. */
  lemma {:induction false} VisitedEnd(g: Graph, s: Snapshot, id: Id)
    requires Ready(g, s, Some(id)) && !IsLink(g.nodes[id])
    ensures var n := g.nodes[id];
            if s.isEnum then n.Basic? && Visited(g, s, Some(id)) == s.(current := CLEAN, enumBase := Some(id))
            else
              var o := WalkEnd(g, id, s.visited, s.current);
              (o.item.Some? ==> o.item.value.meta.place == s.current.place) &&
              (s.current.place.isMember || IsCompound(n) || !s.current.place.isBaseClass) &&
              Visited(g, s, Some(id)) == After(s, o)
  {
    WalkKeepsPlace(g, Some(id), s.visited, s.current);
    if IsVoidPointer(g.nodes[id]) {
      assert !EndsInBasic(g, Follow(g, id)) && !EndsInCompound(g, Follow(g, id));
    }
    assert WalkType(g, Some(id), s.visited, s.current) == WalkEnd(g, id, s.visited, s.current);
  }

  /** A link of a chain only adds to the trail. */
  lemma {:induction false} VisitedLink(g: Graph, s: Snapshot, id: Id)
    requires Ready(g, s, Some(id)) && IsLink(g.nodes[id])
    ensures var s' := s.(current := s.current.(trail := LinkTrail(g, s.current.trail, g.nodes[id])));
            Ready(g, s', Follow(g, id)) && Visited(g, s, Some(id)) == Visited(g, s', Follow(g, id))
  {
    var s' := s.(current := s.current.(trail := LinkTrail(g, s.current.trail, g.nodes[id])));
    assert Ready(g, s', Follow(g, id));
    if s.isEnum {
      BasicHasBase(g, Some(id));
    } else {
      assert WalkType(g, Some(id), s.visited, s.current) == WalkType(g, Follow(g, id), s.visited, s'.current);
    }
  }

  lemma {:induction false} VisitedOk(g: Graph, s: Snapshot, t: Option<Id>)
    requires StateOk(g, s) && Ready(g, s, t)
    ensures var s' := Visited(g, s, t);
            StateOk(g, s') && s'.stack == s.stack && |s'.sink.stack| == |s.sink.stack| && s'.visited == s.visited
  {
    hide MakeInfo, FileItem;
    WalkKeepsPlace(g, t, s.visited, s.current);
  }

  /** Elements of compounds are visited through the same entry point as types. */
  predicate NodeReady(g: Graph, s: Snapshot, id: Id) {
    id in g.nodes &&
    var n := g.nodes[id];
    if IsType(n) then Ready(g, s, Some(id))
    else
      match n
      case Derived(_, _, _, _, _, base) => !s.isEnum && Ready(g, s.(current := DerivedMeta(s.current, n)), base)
      case Subrange(_) => s.current.trail.arrays != []
      case Enumerator(_) =>
        s.isEnum && s.sink.stack != [] && s.enumBase.Some? && s.enumBase.value in g.nodes &&
        g.nodes[s.enumBase.value].Basic?
      case Variable(t) => !s.isEnum && Ready(g, s, t)
      case _ => true
  }

  function NodeVisited(g: Graph, s: Snapshot, id: Id): Snapshot
    requires NodeReady(g, s, id)
  {
    var n := g.nodes[id];
    if IsType(n) then Visited(g, s, Some(id))
    else
      match n
      case Derived(_, _, _, _, _, base) => Visited(g, s.(current := DerivedMeta(s.current, n)), base)
      case Subrange(count) => s.(current := s.current.(trail := SubrangeTrail(s.current.trail, count)))
      case Enumerator(name) =>
        var base := g.nodes[s.enumBase.value];
        var m := EnumeratorMeta(s.current, name, s.enumBase.value, base.sizeBits);
        s.(current := m,
        sink := s.sink.(stack := OnTop(s.sink.stack,
                                       AddEnumerator(Top(s.sink.stack), m.place, EnumeratorType(m, base)))))
      case Variable(t) => Visited(g, s, t)
      case _ => s
  }

  /** What visiting a derived type does before its base type is visited. */
  function DerivedVisited(g: Graph, s: Snapshot, id: Id): Snapshot
    requires id in g.nodes && g.nodes[id].Derived?
    requires s.current.place.isMember ==> s.sink.stack != []
  {
    var n := g.nodes[id];
    var m := s.current.(ty := Some(id), trail := DerivedTrail(s.current.trail, n));
    if IsVoidPointer(n) then
      After(s, Outcome(CLEAN, Some(FundamentalItem(m, "void", n.sizeBits, VoidEnc)), None))
    else if IsVtablePointer(n) then
      After(s, Outcome(CLEAN, Some(FundamentalItem(m, n.name, n.sizeBits, VtablePtrEnc)), None))
    else s.(current := DerivedMeta(s.current, n))
  }

  /** Visiting a derived type and then its base type is visiting the node. */
  lemma {:induction false} DerivedSteps(g: Graph, s: Snapshot, id: Id)
    requires Conforms(g) && StateOk(g, s) && NodeReady(g, s, id) && g.nodes[id].Derived?
    ensures s.current.place.isMember ==> s.sink.stack != []
    ensures IsVtablePointer(g.nodes[id]) ==> s.current.place.isMember
    ensures var s' := DerivedVisited(g, s, id);
            StateOk(g, s') && Ready(g, s', ElementType(g, id)) &&
            Visited(g, s', ElementType(g, id)) == NodeVisited(g, s, id)
  {
    assert g.NodeOk(id);
    if IsType(g.nodes[id]) {
      if IsLink(g.nodes[id]) {
        VisitedLink(g, s, id);
      } else if IsVoidPointer(g.nodes[id]) {
        VoidSteps(g, s, id);
      } else {
        VtableSteps(g, s, id);
      }
    }
  }

  lemma {:induction false} VoidSteps(g: Graph, s: Snapshot, id: Id)
    requires Conforms(g) && StateOk(g, s) && Ready(g, s, Some(id)) && IsVoidPointer(g.nodes[id])
    ensures s.current.place.isMember ==> s.sink.stack != []
    ensures var s' := DerivedVisited(g, s, id);
            StateOk(g, s') && Ready(g, s', None) && Visited(g, s', None) == Visited(g, s, Some(id))
  {
    VisitedEnd(g, s, id);
    var s' := DerivedVisited(g, s, id);
    assert s' == Visited(g, s, Some(id));
  }

  /** The function type below the vtable pointer is visited on its own and overwrites the result for a moment. */
  lemma {:induction false} VtableWalk(g: Graph, id: Id, vis: set<Id>, cur: Meta)
    requires g.TypeOk(Some(id)) && IsVtablePointer(g.nodes[id])
    ensures var n := g.nodes[id];
            n.baseType.Some? && Follow(g, id) == n.baseType && g.nodes[n.baseType.value].Subroutine? &&
            var stray := WalkEnd(g, n.baseType.value, vis, CLEAN);
            stray.cur == CLEAN && stray.stray == None && stray.item.Some? && !IsFiledItem(stray.item.value) &&
            var item := FundamentalItem(cur.(ty := Some(id), trail := DerivedTrail(cur.trail, n)), n.name, n.sizeBits,
                                        VtablePtrEnc);
            WalkEnd(g, id, vis, cur) == Outcome(CLEAN, Some(item), Some(stray.item.value.qt))
  {
    hide MakeInfo, FundamentalExtent, DerivedTrail;
    assert g.NodeOk(id);
    var sub := g.nodes[id].baseType.value;
    assert WalkType(g, Some(sub), vis, CLEAN) == WalkEnd(g, sub, vis, CLEAN);
  }

  lemma {:induction false} VtableSteps(g: Graph, s: Snapshot, id: Id)
    requires Conforms(g) && StateOk(g, s) && Ready(g, s, Some(id)) && IsVtablePointer(g.nodes[id])
    ensures s.current.place.isMember && s.sink.stack != []
    ensures var s' := DerivedVisited(g, s, id);
            StateOk(g, s') && Ready(g, s', Follow(g, id)) && Visited(g, s', Follow(g, id)) == Visited(g, s, Some(id))
  {
    hide MakeInfo, FundamentalItem, DerivedTrail, WalkEnd, WalkType;
    VtableWalk(g, id, s.visited, s.current);
    VisitedEnd(g, s, id);
    VisitedEnd(g, DerivedVisited(g, s, id), g.nodes[id].baseType.value);
  }

  /** A compound is opened: both stacks grow and the metadata starts afresh. */
  function Opened(s: Snapshot, m: Meta, n: Node): Snapshot
    requires n.Composite?
  {
    s.(isEnum := IsEnum(n), stack := s.stack + [m], current := CLEAN,
    sink := s.sink.(stack := s.sink.stack + [QualifiedCompound(MakeCompound(n), MakeInfo(m))]))
  }

  /** A compound is closed: both stacks shrink and the finished compound is delivered. */
  function Closed(s: Snapshot): Snapshot
    requires s.stack != [] && |s.stack| == |s.sink.stack|
    requires IsFiled(s.stack[|s.stack| - 1].place) ==> |s.stack| > 1
  {
    var k := |s.stack| - 1;
    var item := Item(s.stack[k], HasCompound(s.sink.stack[k]));
    s.(stack := s.stack[..k], enumBase := None, isEnum := false,
    sink := Deliver(s.sink.(stack := s.sink.stack[..k]), item))
  }

  /** A compound whose elements have been visited so far. */
  function Filled(s: Snapshot, b: Body): Snapshot
    requires s.sink.stack != []
  {
    s.(current := b.cur,
    sink := Sink(OnTop(s.sink.stack, b.compound), if b.stray.Some? then b.stray.value else s.sink.result))
  }

  /** The state in which the elements of compound `id` are visited. */
  ghost predicate IsOpen(g: Graph, s: Snapshot, id: Id) {
    g.TypeOk(Some(id)) && IsCompound(g.nodes[id]) && id in s.visited && StateOk(g, s) &&
    s.stack != [] && s.sink.stack != [] && s.current == CLEAN && Top(s.sink.stack) == MakeCompound(g.nodes[id]) &&
    s.isEnum == IsEnum(g.nodes[id]) &&
    g.TypeOk(g.nodes[id].baseType) &&
    (s.isEnum ==>
       s.enumBase == if EnumBase(g, g.nodes[id].baseType).Some? then Some(EnumBase(g, g.nodes[id].baseType).value.0)
       else None)
  }

  lemma {:induction false} FilledOk(g: Graph, s: Snapshot, id: Id, n: nat)
    requires IsOpen(g, s, id) && n <= |g.nodes[id].elements|
    ensures var s' := Filled(s, WalkElements(g, id, n, s.visited - {id}));
            StateOk(g, s') && |s'.stack| == |s'.sink.stack| && s'.visited == s.visited && (n == 0 ==> s' == s)
  {
    hide MakeInfo, MakeCompound;
  }

  lemma {:induction false} DerivedElementStep(g: Graph, s: Snapshot, id: Id, i: nat, vis: set<Id>)
    requires Conforms(g) && IsOpen(g, s, id) && i < |g.nodes[id].elements| && id !in vis && vis + {id} == s.visited
    requires !IsEnum(g.nodes[id])
    requires g.nodes[id].elements[i] in g.nodes && g.nodes[g.nodes[id].elements[i]].Derived?
    ensures var si := Filled(s, WalkElements(g, id, i, vis));
            NodeReady(g, si, g.nodes[id].elements[i]) &&
            NodeVisited(g, si, g.nodes[id].elements[i]) == Filled(s, WalkElements(g, id, i + 1, vis))
  {
    hide MakeInfo, MakeCompound, WalkElements, FileItem;
    var e := g.nodes[id].elements[i];
    assert g.NodeOk(id) && g.ElementOk(g.nodes[id], e) && NodeConforms(g, e) && g.NodeOk(e);
    var prev := WalkElements(g, id, i, vis);
    var node := g.nodes[e];
    var m := DerivedMeta(prev.cur, node);
    WalkKeepsPlace(g, node.baseType, s.visited, m);
    if !m.place.isMember {
      WalkOfCompound(g, node.baseType, s.visited, m);
    }
    WalkOfDerived(g, id, i + 1, vis);
    hide WalkType, Conforms, NodeConforms;
    assert NodeReady(g, Filled(s, prev), e);
  }

  lemma {:induction false} OtherElementStep(g: Graph, s: Snapshot, id: Id, i: nat, vis: set<Id>)
    requires Conforms(g) && IsOpen(g, s, id) && i < |g.nodes[id].elements| && id !in vis && vis + {id} == s.visited
    requires g.nodes[id].elements[i] in g.nodes && !g.nodes[g.nodes[id].elements[i]].Derived?
    ensures var si := Filled(s, WalkElements(g, id, i, vis));
            NodeReady(g, si, g.nodes[id].elements[i]) &&
            NodeVisited(g, si, g.nodes[id].elements[i]) == Filled(s, WalkElements(g, id, i + 1, vis))
  {
    hide MakeInfo, MakeCompound, WalkElements, FileItem, AddEnumerator, EnumeratorType, WalkType;
    var e := g.nodes[id].elements[i];
    assert g.NodeOk(id) && g.ElementOk(g.nodes[id], e) && NodeConforms(g, id);
    WalkOfOther(g, id, i + 1, vis);
    if g.nodes[e].Enumerator? {
      BasicHasBase(g, g.nodes[id].baseType);
    }
  }

  /** Visiting one more element is one more step of the recursion. */
  lemma {:induction false} ElementStep(g: Graph, s: Snapshot, id: Id, i: nat)
    requires Conforms(g) && IsOpen(g, s, id) && i < |g.nodes[id].elements|
    ensures var si := Filled(s, WalkElements(g, id, i, s.visited - {id}));
            NodeReady(g, si, g.nodes[id].elements[i]) &&
            NodeVisited(g, si, g.nodes[id].elements[i]) == Filled(s, WalkElements(g, id, i + 1, s.visited - {id}))
  {
    var vis := s.visited - {id};
    assert vis + {id} == s.visited;
    var e := g.nodes[id].elements[i];
    assert g.NodeOk(id) && g.ElementOk(g.nodes[id], e);
    hide NodeReady, NodeVisited, Filled, IsOpen, WalkElements;
    if g.nodes[e].Derived? {
      DerivedElementStep(g, s, id, i, vis);
    } else {
      OtherElementStep(g, s, id, i, vis);
    }
  }

  /** One round of the loop over the elements, as an implication. */
  lemma {:induction false} ElementRound(g: Graph, s: Snapshot, id: Id, i: nat)
    ensures Conforms(g) && IsOpen(g, s, id) && i < |g.nodes[id].elements| ==>
              var vis := s.visited - {id};
              var si, si' := Filled(s, WalkElements(g, id, i, vis)), Filled(s, WalkElements(g, id, i + 1, vis));
              NodeReady(g, si, g.nodes[id].elements[i]) && NodeVisited(g, si, g.nodes[id].elements[i]) == si' &&
              StateOk(g, si') && |si'.stack| == |si'.sink.stack| && si'.visited == s.visited
  {
    hide WalkElements, NodeReady, NodeVisited;
    if Conforms(g) && IsOpen(g, s, id) && i < |g.nodes[id].elements| {
      ElementStep(g, s, id, i);
      FilledOk(g, s, id, i + 1);
    }
  }

  /** A compound is opened and its base type visited. */
  lemma {:induction false} OpenSteps(g: Graph, s: Snapshot, id: Id)
    requires Conforms(g) && StateOk(g, s) && Ready(g, s, Some(id)) && IsCompound(g.nodes[id]) && id !in s.visited
    ensures g.NodeOk(id)
    ensures var n := g.nodes[id];
            var s1 := Opened(s.(visited := s.visited + {id}), CompoundMeta(s.current, id, n), n);
            StateOk(g, s1) && Ready(g, s1, n.baseType) && IsOpen(g, Visited(g, s1, n.baseType), id) &&
            var s2 := Visited(g, s1, n.baseType);
            StateOk(g, s2) && s2 == s1.(enumBase := s2.enumBase)
  {
    hide MakeInfo, MakeCompound, WalkElements, FileItem;
    assert g.NodeOk(id) && NodeConforms(g, id);
    if IsEnum(g.nodes[id]) && g.nodes[id].baseType.Some? {
      BasicHasBase(g, g.nodes[id].baseType);
    }
  }

  /** Opening a compound, visiting its base type and its elements, and closing it is visiting the compound. */
  lemma {:induction false} CompoundSteps(g: Graph, s: Snapshot, id: Id)
    requires Conforms(g) && StateOk(g, s) && Ready(g, s, Some(id)) && IsCompound(g.nodes[id]) && id !in s.visited
    ensures g.NodeOk(id)
    ensures var n := g.nodes[id];
            var s1 := Opened(s.(visited := s.visited + {id}), CompoundMeta(s.current, id, n), n);
            StateOk(g, s1) && Ready(g, s1, n.baseType) && IsOpen(g, Visited(g, s1, n.baseType), id) &&
            StateOk(g, Visited(g, s1, n.baseType)) && Visited(g, s1, n.baseType).visited == s1.visited
    ensures var n := g.nodes[id];
            var s1 := Opened(s.(visited := s.visited + {id}), CompoundMeta(s.current, id, n), n);
            var s3 := Filled(Visited(g, s1, n.baseType), WalkElements(g, id, |n.elements|, s.visited));
            s3.stack == s.stack + [CompoundMeta(s.current, id, n)] && |s3.stack| == |s3.sink.stack| &&
            (IsFiled(s.current.place) ==> |s3.stack| > 1) &&
            Closed(s3).visited == s.visited + {id} && Closed(s3).(visited := s.visited) == Visited(g, s, Some(id))
  {
    OpenSteps(g, s, id);
    VisitedEnd(g, s, id);
    hide MakeInfo, MakeCompound, WalkElements, FileItem, Visited, IsOpen, After, NodeConforms, Conforms;
    var n := g.nodes[id];
    var m := CompoundMeta(s.current, id, n);
    var s2 := Visited(g, Opened(s.(visited := s.visited + {id}), m, n), n.baseType);
    var body := WalkElements(g, id, |n.elements|, s.visited);
    CloseStep(s, Filled(s2, body), m, body);
  }

  /** An array adds its qualifier, then its subranges, and moves on to its element type. */
  lemma {:induction false} ArraySteps(g: Graph, s: Snapshot, id: Id)
    requires StateOk(g, s) && Ready(g, s, Some(id)) && IsArray(g.nodes[id])
    ensures !s.isEnum && id !in s.visited && |s.stack| == |s.sink.stack|
    ensures var n := g.nodes[id];
            var s1 := s.(current := s.current.(trail := ArrayTrail(s.current.trail, n)));
            var s2 := s.(current := s.current.(trail := SubrangesTrail(g, s1.current.trail, n.elements, |n.elements|)));
            StateOk(g, s1) && s1.current.trail.arrays != [] &&
            StateOk(g, s2) && Ready(g, s2, n.baseType) && Visited(g, s2, n.baseType) == Visited(g, s, Some(id))
    ensures var s' := Visited(g, s, Some(id)); |s'.stack| == |s'.sink.stack| && s'.visited == s.visited
  {
    hide MakeInfo, MakeCompound, FileItem;
    VisitedLink(g, s, id);
    VisitedOk(g, s, Some(id));
  }

  lemma {:induction false} CloseStep(s: Snapshot, s3: Snapshot, m: Meta, body: Body)
    requires |s.stack| == |s.sink.stack| && !s.isEnum && s.enumBase == None
    requires IsFiled(m.place) ==> s.sink.stack != []
    requires s3.stack == s.stack + [m] && s3.current == body.cur
    requires s3.sink == Sink(s.sink.stack + [QualifiedCompound(body.compound, MakeInfo(m))],
                             if body.stray.Some? then body.stray.value else s.sink.result)
    ensures Closed(s3).(visited := s.visited)
         == After(s, Outcome(body.cur, Some(CompoundItem(m, body.compound)), body.stray))
  {
    assert s3.stack[..|s.stack|] == s.stack;
    assert s3.sink.stack[..|s.stack|] == s.sink.stack;
  }

  lemma ArrayNotVisited(g: Graph, s: Snapshot, id: Id)
    requires StateOk(g, s) && id in s.visited
    ensures id in g.nodes && IsCompound(g.nodes[id])
  {
  }

  /** A compound that is already on the path is opened and closed at once. */
  lemma {:induction false} RecurringSteps(g: Graph, s: Snapshot, id: Id)
    requires StateOk(g, s) && Ready(g, s, Some(id)) && IsCompound(g.nodes[id]) && id in s.visited
    ensures var n := g.nodes[id];
            var m := CompoundMeta(s.current.(isRecurring := true), id, n);
            var s1 := Opened(s, m, n);
            g.TypeOk(Some(id)) && !s.isEnum && |s1.stack| == |s1.sink.stack| &&
            (IsFiled(m.place) ==> |s1.stack| > 1) && Closed(s1) == Visited(g, s, Some(id))
  {
    hide MakeInfo, MakeCompound, FileItem;
    var n := g.nodes[id];
    var m := CompoundMeta(s.current.(isRecurring := true), id, n);
    var s1 := Opened(s, m, n);
    VisitedEnd(g, s, id);
    CloseStep(s, s1, m, Body(CLEAN, MakeCompound(n), None));
  }

  /** The length of the chain below a node, whatever its kind. */
  ghost function ElementRank(g: Graph, id: Id): nat
    requires id in g.nodes
  {
    assert g.NodeOk(id);
    var n := g.nodes[id];
    if IsType(n) then Rank(g, Some(id))
    else if n.Derived? then 1 + Rank(g, ElementType(g, id))
    else if n.Variable? then 1 + Rank(g, n.variableType)
    else 0
  }

  class DIEventVisitor {
    const g: Graph
    const events: DITypeParser
    var visited: set<Id>
    var depthComposite: nat
    var depthDerived: nat
    var depthVar: nat
    var current: Meta
    var stack: seq<Meta>
    var enumBase: Option<Id>
    var isEnum: bool

    constructor (events: DITypeParser)
      ensures this.events == events && this.g == events.g
      ensures Snap() == Snapshot({}, [], None, false, CLEAN, events.View()) && Depth() == (0, 0, 0)
    {
      this.g, this.events := events.g, events;
      visited := {};
      depthComposite, depthDerived, depthVar := 0, 0, 0;
      current, stack := CLEAN, [];
      enumBase, isEnum := None, false;
    }

    function Snap(): Snapshot
      reads this, events
    {
      Snapshot(visited, stack, enumBase, isEnum, current, events.View())
    }

    function Depth(): (nat, nat, nat)
      reads this
    {
      (depthComposite, depthDerived, depthVar)
    }

    ghost predicate Valid()
      reads this, events
    {
      events.g == g && Conforms(g) && StateOk(g, Snap())
    }

    method TraverseType(t: Option<Id>) returns (ok: bool)
      requires Valid() && Ready(g, Snap(), t)
      modifies this, events
      ensures Depth() == old(Depth())
      ensures ok && Snap() == Visited(g, old(Snap()), t)
      decreases Unvisited(g, visited), Rank(g, t), 3
    {
      if t == None {
        return true;
      }
      match g.nodes[t.value]
      case Basic(_, _, _) => ok := TraverseBasicType(t.value);
      case Str(_, _) => ok := TraverseStringType(t.value);
      case Subroutine(_) => ok := TraverseSubroutine(t.value);
      case Derived(_, _, _, _, _, _) =>
        RankDecreases(g, t.value);
        ok := TraverseDerivedType(t.value);
      case Composite(_, _, _, _, _, _, _, _, _) => ok := TraverseCompositeType(t.value);
    }

    method TraverseBasicType(id: Id) returns (ok: bool)
      requires Valid() && Ready(g, Snap(), Some(id)) && g.nodes[id].Basic?
      modifies this, events
      ensures Depth() == old(Depth())
      ensures ok && Snap() == Visited(g, old(Snap()), Some(id))
    {
      depthVar := depthVar + 1;
      ok := VisitBasicType(id);
      // leave
      current := CLEAN;
      depthVar := depthVar - 1;
    }

    method VisitBasicType(id: Id) returns (ok: bool)
      requires Valid() && Ready(g, Snap(), Some(id)) && g.nodes[id].Basic?
      modifies this, events
      ensures Depth() == old(Depth())
      ensures ok && Snap().(current := CLEAN) == Visited(g, old(Snap()), Some(id))
    {
      VisitedEnd(g, Snap(), id);
      current := current.(ty := Some(id));
      if isEnum {
        enumBase := current.ty;
        return true;
      }
      events.MakeFundamentalEvent(current);
      return true;
    }

    method TraverseStringType(id: Id) returns (ok: bool)
      requires Valid() && Ready(g, Snap(), Some(id)) && g.nodes[id].Str?
      modifies this, events
      ensures Depth() == old(Depth())
      ensures ok && Snap() == Visited(g, old(Snap()), Some(id))
    {
      depthVar := depthVar + 1;
      VisitedEnd(g, Snap(), id);
      current := current.(ty := Some(id));
      events.MakeStringEvent(current);
      ok := true;
      // leave
      current := CLEAN;
      depthVar := depthVar - 1;
    }

    method TraverseSubroutine(id: Id) returns (ok: bool)
      requires Valid() && Ready(g, Snap(), Some(id)) && g.nodes[id].Subroutine?
      modifies this, events
      ensures Depth() == old(Depth())
      ensures ok && Snap() == Visited(g, old(Snap()), Some(id))
    {
      VisitedEnd(g, Snap(), id);
      current := current.(ty := Some(id));
      events.MakeFunctionPtrEvent(current);
      ok := true;
      // leave
      current := CLEAN;
    }

    method TraverseDerivedType(id: Id) returns (ok: bool)
      requires Valid() && NodeReady(g, Snap(), id) && g.nodes[id].Derived?
      modifies this, events
      ensures Depth() == old(Depth())
      ensures ok && Snap() == NodeVisited(g, old(Snap()), id)
      decreases Unvisited(g, visited), Rank(g, ElementType(g, id)), 4
    {
      hide Visited, NodeVisited, MakeInfo, EndsInBasic, EndsInCompound, EndsInVtable, IsType, IsModifier, IsMember,
        NodeConforms;
      ghost var t := ElementType(g, id);
      depthDerived := depthDerived + 1;
      ok := EnterDerivedType(id);
      if ok {
        ok := TraverseType(g.nodes[id].baseType);
      }
      depthDerived := depthDerived - 1;
    }

    /** The part of the traversal in front of the base type. */
    method EnterDerivedType(id: Id) returns (ok: bool)
      requires Valid() && NodeReady(g, Snap(), id) && g.nodes[id].Derived?
      modifies this, events
      ensures Depth() == old(Depth()) && visited == old(visited) && ok
      ensures Valid() && Ready(g, Snap(), ElementType(g, id))
      ensures Visited(g, Snap(), ElementType(g, id)) == NodeVisited(g, old(Snap()), id)
    {
      assert id in g.nodes;
      hide StateOk, Conforms, Ready, NodeReady, DerivedVisited, Visited, NodeVisited, IsVtablePointer;
      DerivedSteps(g, Snap(), id);
      ok := VisitDerivedType(id);
    }

    /** void* and the vtable pointer emit their event right here and reset the metadata. */
    method VisitDerivedType(id: Id) returns (ok: bool)
      requires events.g == g && id in g.nodes && g.nodes[id].Derived?
      requires current.place.isMember ==> events.compositeStack != []
      requires IsVtablePointer(g.nodes[id]) ==> current.place.isMember
      modifies this, events
      ensures Depth() == old(Depth()) && visited == old(visited)
      ensures ok && Snap() == DerivedVisited(g, old(Snap()), id)
    {
      assert g.NodeOk(id);
      var n := g.nodes[id];
      CollectDerived(n);
      if n.tag == PointerTag && n.baseType == None {
        current := current.(ty := Some(id));
        events.MakeVoidPtrEvent(current);
        current := CLEAN;
        return true;
      }
      if n.name == VTABLE_NAME {
        current := current.(ty := Some(id));
        events.MakeVtableEvent(current);
        current := CLEAN;
      }
      return true;
    }

    method CollectDerived(n: Node)
      requires n.Derived?
      modifies this`current
      ensures current == DerivedMeta(old(current), n)
    {
      current := current.(trail := current.trail.(derivedSize := n.sizeBits / 8));
      match n.tag {
        case MemberTag => MakeMember(n);
        case VariableTag =>
          if n.isStatic {
            MakeMember(n);
          }
        case TypedefTag =>
          current := current.(trail := current.trail.(typedefNames := current.trail.typedefNames + [n.name]));
        case InheritanceTag =>
          current := current.(place := current.place.(isBaseClass := true, offset := n.offsetBits / 8));
        case _ =>
          current := current.(trail := current.trail.(tags := current.trail.tags + [n.tag]));
      }
    }

    method MakeMember(n: Node)
      requires n.Derived?
      modifies this`current
      ensures current == old(current).(place := MemberPlace(old(current).place, n))
    {
      current := current.(place := current.place.(
      name := n.name,
      isMember := true,
      offset := n.offsetBits / 8,
      size := n.sizeBits / 8,
      isStatic := n.isStatic));
    }

    /** The dispatcher for types and for elements; false for nodes that the visitor ignores. */
    method InvokeIfAny(id: Id) returns (ok: bool)
      requires Valid() && NodeReady(g, Snap(), id)
      modifies this, events
      ensures Depth() == old(Depth())
      ensures Snap() == NodeVisited(g, old(Snap()), id)
      decreases Unvisited(g, visited), ElementRank(g, id), 5
    {
      if IsType(g.nodes[id]) {
        RankDecreases(g, id);
      }
      match g.nodes[id]
      case Basic(_, _, _) => ok := TraverseBasicType(id);
      case Derived(_, _, _, _, _, _) => ok := TraverseDerivedType(id);
      case Composite(_, _, _, _, _, _, _, _, _) => ok := TraverseCompositeType(id);
      case Str(_, _) => ok := TraverseStringType(id);
      case Variable(_) => ok := TraverseVariable(id);
      case Enumerator(_) => ok := TraverseNode(id);
      case Subrange(_) => ok := TraverseNode(id);
      case Subroutine(_) => ok := TraverseSubroutine(id);
      case Ignored => ok := false;
    }

    method TraverseVariable(id: Id) returns (ok: bool)
      requires Valid() && NodeReady(g, Snap(), id) && g.nodes[id].Variable?
      modifies this, events
      ensures Depth() == old(Depth())
      ensures ok && Snap() == NodeVisited(g, old(Snap()), id)
      decreases Unvisited(g, visited), ElementRank(g, id), 4
    {
      ok := TraverseType(g.nodes[id].variableType);
    }

    method TraverseElements(id: Id)
      requires Valid() && IsOpen(g, Snap(), id)
      modifies this, events
      ensures Depth() == old(Depth())
      ensures Snap() == Filled(old(Snap()), WalkElements(g, id, |g.nodes[id].elements|, old(visited) - {id}))
      decreases Unvisited(g, visited - {id}), 0, 1
    {
      hide MakeInfo, MakeCompound, WalkElements, NodeVisited, NodeReady, Filled, StateOk, Conforms;
      ghost var s := Snap();
      assert visited - {id} + {id} == visited;
      FilledOk(g, s, id, 0);
      UnvisitedShrinks(g, visited - {id}, id);
      var elements := g.nodes[id].elements;
      for i := 0 to |elements|
        invariant Depth() == old(Depth())
        invariant Valid() && visited == s.visited && Snap() == Filled(s, WalkElements(g, id, i, s.visited - {id}))
      {
        ElementRound(g, s, id, i);
        var ignored := InvokeIfAny(elements[i]);
      }
    }

    method TraverseSubranges(id: Id)
      requires Valid() && g.TypeOk(Some(id)) && IsArray(g.nodes[id]) && current.trail.arrays != []
      modifies this, events
      ensures Depth() == old(Depth())
      ensures var elements := g.nodes[id].elements;
              Snap() == old(Snap()).(current :=
                old(current).(trail := SubrangesTrail(g, old(current).trail, elements, |elements|)))
      decreases Unvisited(g, visited), Rank(g, Some(id)), 0
    {
      ghost var s := Snap();
      var elements := g.nodes[id].elements;
      assert g.NodeOk(id);
      ghost var rank := Rank(g, Follow(g, id));
      for i := 0 to |elements|
        invariant Depth() == old(Depth()) && Valid()
        invariant Snap() == s.(current := s.current.(trail := SubrangesTrail(g, s.current.trail, elements, i)))
      {
        assert g.ElementOk(g.nodes[id], elements[i]);
        var ignored := InvokeIfAny(elements[i]);
      }
    }

    method VisitCompositeType(id: Id) returns (ok: bool)
      requires events.g == g && id in g.nodes && g.nodes[id].Composite? && !isEnum
      modifies this, events
      ensures ok && Depth() == old(Depth())
      ensures var n := g.nodes[id];
              Snap() ==
              if IsArray(n) then old(Snap()).(current := old(current).(trail := ArrayTrail(old(current).trail, n)))
              else Opened(old(Snap()), CompoundMeta(old(current), id, n), n)
    {
      var n := g.nodes[id];
      if n.tag == ArrayTag {
        var trail := current.trail;
        trail := trail.(isVector := n.isVector, tags := trail.tags + [if n.isVector then VectorTag else ArrayTag]);
        if n.isAssociated {
          trail := trail.(tags := trail.tags + [PointerTag]);
        }
        current := current.(trail := trail.(arrays := trail.arrays + [ArrayData(n.sizeBits, [], n.isVector)]));
        return true;
      }
      current := current.(ty := Some(id), isForwardDecl := n.isForwardDecl);
      isEnum := n.tag == EnumTag;
      events.MakeCompositeEvent(current);
      stack := stack + [current];
      current := CLEAN;
      return true;
    }

    method LeaveCompositeType(id: Id)
      requires id in g.nodes && g.nodes[id].Composite? && |stack| == |events.compositeStack|
      requires IsCompound(g.nodes[id]) ==> stack != [] && (IsFiled(stack[|stack| - 1].place) ==> |stack| > 1)
      modifies this, events
      ensures Depth() == old(Depth())
      ensures Snap() == if IsArray(g.nodes[id]) then old(Snap()) else Closed(old(Snap()))
    {
      if g.nodes[id].tag == ArrayTag {
        return;
      }
      var metaForComposite := stack[|stack| - 1];
      stack := stack[..|stack| - 1];
      events.FinalizeCompositeEvent(metaForComposite);
      enumBase, isEnum := None, false;
    }

    method TraverseRecurringCompositeType(id: Id) returns (ok: bool)
      requires Valid() && Ready(g, Snap(), Some(id)) && IsCompound(g.nodes[id]) && id in visited
      modifies this, events
      ensures Depth() == old(Depth())
      ensures ok && Snap() == Visited(g, old(Snap()), Some(id))
    {
      hide MakeInfo, FileItem, MakeCompound, Visited, StateOk, Conforms, Ready;
      RecurringSteps(g, Snap(), id);
      depthComposite := depthComposite + 1;
      current := current.(isRecurring := true);
      ok := VisitCompositeType(id);
      LeaveCompositeType(id);
      depthComposite := depthComposite - 1;
    }

    /** Enumerators and subranges. */
    method TraverseNode(id: Id) returns (ok: bool)
      requires Valid() && NodeReady(g, Snap(), id) && (g.nodes[id].Enumerator? || g.nodes[id].Subrange?)
      modifies this, events
      ensures Depth() == old(Depth())
      ensures ok && Snap() == NodeVisited(g, old(Snap()), id)
    {
      match g.nodes[id]
      case Enumerator(name) =>
        current := current.(
        ty := enumBase,
        place := current.place.(
        name := name,
        offset := 0,
        size := g.nodes[enumBase.value].sizeBits / 8,
        isMember := true));
        events.MakeEnumMemberEvent(current);
        return true;
      case Subrange(count) =>
        if count.Some? {
          var arrays := current.trail.arrays;
          var last := arrays[|arrays| - 1];
          if count.value >= 0 {
            last := last.(subranges := last.subranges + [count.value]);
          } else {
            last := last.(subranges := last.subranges + [0]);
          }
          current := current.(trail := current.trail.(arrays := arrays[|arrays| - 1 := last]));
        }
        return true;
    }

    method TraverseCompositeType(id: Id) returns (ok: bool)
      requires Valid() && Ready(g, Snap(), Some(id)) && g.nodes[id].Composite?
      modifies this, events
      ensures Depth() == old(Depth())
      ensures ok && Snap() == Visited(g, old(Snap()), Some(id))
      decreases Unvisited(g, visited), Rank(g, Some(id)), 2
    {
      hide MakeInfo, MakeCompound, FileItem, Visited, WalkElements;
      if id in visited {
        ArrayNotVisited(g, Snap(), id);
        ok := TraverseRecurringCompositeType(id);
        return;
      }
      depthComposite := depthComposite + 1;
      if g.nodes[id].tag != ArrayTag {
        ok := TraverseCompound(id);
      } else {
        ok := TraverseArray(id);
      }
      depthComposite := depthComposite - 1;
    }

    /** A compound is on the path while its elements are visited. */
    method TraverseCompound(id: Id) returns (ok: bool)
      requires Valid() && Ready(g, Snap(), Some(id)) && IsCompound(g.nodes[id]) && id !in visited
      modifies this, events
      ensures Depth() == old(Depth())
      ensures ok && Snap() == Visited(g, old(Snap()), Some(id))
      decreases Unvisited(g, visited), Rank(g, Some(id)), 1
    {
      hide MakeInfo, MakeCompound, FileItem, StateOk, Conforms, Visited, WalkElements, IsOpen, Filled, Closed,
        Unvisited, Rank;
      ghost var s := Snap();
      CompoundSteps(g, s, id);
      RankDecreases(g, id);
      assert s.visited + {id} - {id} == s.visited;
      UnvisitedShrinks(g, visited, id);
      visited := visited + {id};
      ok := VisitCompositeType(id);
      if ok {
        ok := TraverseType(g.nodes[id].baseType);
        if ok {
          TraverseElements(id);
        }
      }
      LeaveCompositeType(id);
      visited := visited - {id};
    }

    /** Arrays never enter the path; their subranges are visited before their element type. */
    method TraverseArray(id: Id) returns (ok: bool)
      requires Valid() && Ready(g, Snap(), Some(id)) && IsArray(g.nodes[id])
      modifies this, events
      ensures Depth() == old(Depth())
      ensures ok && Snap() == Visited(g, old(Snap()), Some(id))
      decreases Unvisited(g, visited), Rank(g, Some(id)), 1
    {
      hide MakeInfo, MakeCompound, FileItem, StateOk, Conforms, Visited;
      ArraySteps(g, Snap(), id);
      RankDecreases(g, id);
      ok := VisitCompositeType(id);
      if ok {
        TraverseSubranges(id);
        ok := TraverseType(g.nodes[id].baseType);
      }
      LeaveCompositeType(id);
      visited := visited - {id};
    }
  }
}
