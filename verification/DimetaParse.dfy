/** The entry point of the parser: make_dimetadata of lib/type/DimetaParse.cpp. */
module DimetaParse {
  import opened Wrappers
  import opened TypeTree
  import opened TypeGraph
  import opened ParseState
  import opened Walk
  import opened TypeParser
  import opened EventVisitor
  import opened Denotation
  import opened ChainLemmas
  import opened Fidelity
  import opened NodeFacts

  /** A debug-info node that may be parsed: a variable, or a type that is not an element of a compound. */
  predicate IsRoot(g: Graph, node: Id) {
    node in g.nodes &&
    (g.nodes[node].Derived? ==> IsModifier(g.nodes[node])) &&
    (IsType(g.nodes[node]) ==> !EndsInVtable(g, Some(node)))
  }

  predicate HasType(n: Node) { n.Variable? || IsType(n) }

  function RootType(g: Graph, node: Id): (t: Option<Id>)
    requires node in g.nodes && HasType(g.nodes[node])
    ensures g.TypeOk(t)
  {
    assert g.NodeOk(node);
    if g.nodes[node].Variable? then g.nodes[node].variableType else Some(node)
  }

  /** The parser returns the denotation of the type if and only if the type is faithful; visitor and consumer end
      with empty stacks, an empty path and zero depth. */
  method MakeDimetadata(g: Graph, node: Id) returns (r: Option<QualifiedType>)
    requires Conforms(g) && IsRoot(g, node)
    ensures r.Some? <==> HasType(g.nodes[node])
    ensures r.Some? ==>
              var t := RootType(g, node);
              r.value == Parsed(g, t) && (r.value == Denote(g, t, {}, FREE) <==> Faithful(g, t, {})) &&
              if Faithful(g, t, {}) || EndOf(g, t).TypeEnd? then SaysEnd(g, t, {}, FREE, r.value)
              else EndOf(g, t).VoidEnd? && r.value == DEFAULT_TYPE
  {
    var n := g.nodes[node];
    if !(n.Variable? || n.Basic? || n.Str? || n.Subroutine? || n.Derived? || n.Composite?) {
      return None;
    }
    assert g.NodeOk(node) && NodeConforms(g, node);
    var parser := new DITypeParser(g);
    var visitor := new DIEventVisitor(parser);
    ghost var s := visitor.Snap();
    ghost var t := RootType(g, node);
    var ok;
    if n.Variable? {
      ok := visitor.TraverseVariable(node);
    } else {
      ok := visitor.TraverseType(Some(node));
    }
    assert visitor.Snap() == Visited(g, s, t);
    assert visitor.visited == {} && visitor.Depth() == (0, 0, 0) && visitor.stack == [];
    r := Some(parser.result);
    RootResult(g, t, s);
    if Faithful(g, t, {}) || EndOf(g, t).TypeEnd? {
      ParsedSaysEnd(g, t);
    }
  }

  lemma {:induction false} RootResult(g: Graph, t: Option<Id>, s: Snapshot)
    requires Conforms(g) && Ready(g, s, t)
    requires s == Snapshot({}, [], None, false, CLEAN, Sink([], DEFAULT_TYPE))
    ensures Visited(g, s, t).sink.result == Parsed(g, t)
    ensures (Visited(g, s, t).sink.result == Denote(g, t, {}, FREE)) <==> Faithful(g, t, {})
    ensures EndOf(g, t).VoidEnd? && !Faithful(g, t, {}) ==> Visited(g, s, t).sink.result == DEFAULT_TYPE
  {
    hide MakeInfo, Info, FundamentalExtent, MakeCompound, Visited, WalkElements, DenoteCompound;
    RootItem(g, t, s);
    WalkDenotesExactlyFaithful(g, t, {}, CLEAN, FREE);
    WalkFollowsChain(g, t, {}, CLEAN);
  }

  lemma {:induction false} RootItem(g: Graph, t: Option<Id>, s: Snapshot)
    requires Conforms(g) && Ready(g, s, t)
    requires s == Snapshot({}, [], None, false, CLEAN, Sink([], DEFAULT_TYPE))
    ensures Visited(g, s, t).sink.result == Parsed(g, t)
  {
    hide MakeInfo, FundamentalExtent, MakeCompound, WalkType;
    WalkKeepsPlace(g, t, {}, CLEAN);
  }
}
