/** What one traversal of the visitor does to the two machines, written as plain recursion: `current_` is threaded
    through, the two explicit stacks are gone. The class EventVisitor is proved to do exactly this. */
module Walk {
  import opened Wrappers
  import opened TypeTree
  import opened TypeGraph
  import opened ParseState

  /** The effect of traversing one type: the metadata left in `current_`, the finished type (if an event was
      emitted at all), and a free-standing type that transiently overwrites the result. */
  datatype Outcome = Outcome(cur: Meta, item: Option<Item>, stray: Option<QualifiedType>)

  /** The effect of traversing the elements of a compound. */
  datatype Body = Body(cur: Meta, compound: Compound, stray: Option<QualifiedType>)

  /** How many compounds are not yet on the traversal path. */
  ghost function Unvisited(g: Graph, vis: set<Id>): nat { |g.Compounds() - vis| }

  lemma {:induction false} UnvisitedShrinks(g: Graph, vis: set<Id>, id: Id)
    requires id in g.Compounds() && id !in vis
    ensures Unvisited(g, vis + {id}) < Unvisited(g, vis)
  {
    assert g.Compounds() - vis == (g.Compounds() - (vis + {id})) + {id};
  }

  function SubrangesTrail(g: Graph, t: Trail, elements: seq<Id>, n: nat): (r: Trail)
    requires t.arrays != [] && n <= |elements|
    ensures |r.arrays| == |t.arrays|
  {
    if n == 0 then t
    else
      var prev := SubrangesTrail(g, t, elements, n - 1);
      var e := elements[n - 1];
      if e in g.nodes && g.nodes[e].Subrange? then SubrangeTrail(prev, g.nodes[e].count) else prev
  }

  /** A node after which the visitor just moves on to the base type. */
  predicate IsLink(n: Node) {
    IsArray(n) || (n.Derived? && !IsVoidPointer(n) && !IsVtablePointer(n))
  }

  /** An array contributes its qualifier and its subranges before its element type is visited. */
  function LinkTrail(g: Graph, t: Trail, n: Node): Trail
    requires IsLink(n)
  {
    if n.Derived? then DerivedTrail(t, n) else SubrangesTrail(g, ArrayTrail(t, n), n.elements, |n.elements|)
  }

  function WalkType(g: Graph, t: Option<Id>, vis: set<Id>, cur: Meta): Outcome
    requires g.TypeOk(t)
    decreases Unvisited(g, vis), Rank(g, t), 2, 0
  {
    if t.None? then Outcome(cur, None, None)
    else if IsLink(g.nodes[t.value]) then
      WalkType(g, Follow(g, t.value), vis, cur.(trail := LinkTrail(g, cur.trail, g.nodes[t.value])))
    else WalkEnd(g, t.value, vis, cur)
  }

  /** The end of a chain emits an event. */
  function WalkEnd(g: Graph, id: Id, vis: set<Id>, cur: Meta): Outcome
    requires g.TypeOk(Some(id)) && !IsLink(g.nodes[id])
    decreases Unvisited(g, vis), Rank(g, Some(id)), 1, 0
  {
    var n := g.nodes[id];
    match n
    case Basic(name, size, ate) =>
      Outcome(CLEAN, Some(FundamentalItem(cur.(ty := Some(id)), name, size, BasicTypeEncoding(name, ate))), None)
    case Str(name, size) =>
      Outcome(CLEAN, Some(FundamentalItem(cur.(ty := Some(id)), StringName(name), size, StringEnc)), None)
    case Subroutine(size) =>
      Outcome(CLEAN, Some(FundamentalItem(cur.(ty := Some(id)), "", size, FunctionPtrEnc)), None)
    case Derived(_, name, size, _, _, _) =>
      var m := cur.(ty := Some(id), trail := DerivedTrail(cur.trail, n));
      if IsVoidPointer(n) then
        Outcome(CLEAN, Some(FundamentalItem(m, "void", size, VoidEnc)), None)
      else
        // the function type below the vtable pointer is visited with the metadata reset
        var rest := WalkType(g, Follow(g, id), vis, CLEAN);
        Outcome(rest.cur, Some(FundamentalItem(m, name, size, VtablePtrEnc)),
                if rest.item.Some? then Some(rest.item.value.qt) else rest.stray)
    case Composite(_, _, _, _, _, _, _, _, _) =>
      if id in vis then
        Outcome(CLEAN, Some(CompoundItem(CompoundMeta(cur.(isRecurring := true), id, n), MakeCompound(n))), None)
      else
        var body := WalkElements(g, id, |n.elements|, vis);
        Outcome(body.cur, Some(CompoundItem(CompoundMeta(cur, id, n), body.compound)), body.stray)
  }

  /** The first `n` elements of compound `c`, which is being entered with `vis` on the path. */
  function WalkElements(g: Graph, c: Id, n: nat, vis: set<Id>): Body
    requires g.TypeOk(Some(c)) && IsCompound(g.nodes[c]) && c !in vis && n <= |g.nodes[c].elements|
    decreases Unvisited(g, vis), Rank(g, Some(c)), 0, n
  {
    if n == 0 then Body(CLEAN, MakeCompound(g.nodes[c]), None)
    else
      var prev := WalkElements(g, c, n - 1, vis);
      var e := g.nodes[c].elements[n - 1];
      assert g.NodeOk(c) && g.ElementOk(g.nodes[c], e);
      var node := g.nodes[e];
      if node.Derived? then
        UnvisitedShrinks(g, vis, c);
        var o := WalkType(g, ElementType(g, e), vis + {c}, DerivedMeta(prev.cur, node));
        Body(o.cur,
             if o.item.Some? then FileItem(prev.compound, o.item.value) else prev.compound,
             if o.stray.Some? then o.stray else prev.stray)
      else if node.Enumerator? && EnumBase(g, g.nodes[c].baseType).Some? then
        var base := EnumBase(g, g.nodes[c].baseType).value;
        var m := EnumeratorMeta(prev.cur, node.name, base.0, base.1.sizeBits);
        Body(m, AddEnumerator(prev.compound, m.place, EnumeratorType(m, base.1)), prev.stray)
      else prev
  }

  /** What a member or base class is made of. */
  function ElementType(g: Graph, e: Id): (t: Option<Id>)
    requires e in g.nodes && g.nodes[e].Derived?
    ensures g.TypeOk(t)
  {
    assert g.NodeOk(e);
    g.nodes[e].baseType
  }

  /** The basic type below an enumeration, with its node. */
  function EnumBase(g: Graph, t: Option<Id>): Option<(Id, Node)>
    requires g.TypeOk(t)
    ensures EnumBase(g, t).Some? ==> EnumBase(g, t).value.1.Basic?
    decreases Rank(g, t)
  {
    if t.None? then None
    else
      var n := g.nodes[t.value];
      if n.Basic? then Some((t.value, n)) else if n.Derived? then EnumBase(g, Follow(g, t.value)) else None
  }

  lemma {:induction false} BasicHasBase(g: Graph, t: Option<Id>)
    requires g.TypeOk(t) && EndsInBasic(g, t)
    ensures EnumBase(g, t).Some? && EnumBase(g, t).value.0 in g.nodes
    ensures EnumBase(g, t).value.1 == g.nodes[EnumBase(g, t).value.0]
    decreases Rank(g, t)
  {
    if !g.nodes[t.value].Basic? {
      BasicHasBase(g, Follow(g, t.value));
    }
  }

  function StringName(name: string): string { if name == "" then "character" else name }

  function FundamentalItem(m: Meta, name: string, sizeBits: nat, enc: Encoding): Item {
    Item(m, MakeFundamental(m, name, sizeBits, enc))
  }

  function CompoundItem(m: Meta, c: Compound): Item {
    Item(m, HasCompound(QualifiedCompound(c, MakeInfo(m))))
  }

  function EnumeratorType(m: Meta, base: Node): QualifiedType
    requires base.Basic?
  {
    MakeFundamental(m, base.name, base.sizeBits, DwarfToEncoding(base.ate))
  }

  /** One more member or base class. */
  lemma {:induction false} WalkOfDerived(g: Graph, c: Id, n: nat, vis: set<Id>)
    requires g.TypeOk(Some(c)) && IsCompound(g.nodes[c]) && c !in vis && 0 < n <= |g.nodes[c].elements|
    requires g.nodes[c].elements[n - 1] in g.nodes && g.nodes[g.nodes[c].elements[n - 1]].Derived?
    ensures var prev := WalkElements(g, c, n - 1, vis);
            var e := g.nodes[c].elements[n - 1];
            var o := WalkType(g, ElementType(g, e), vis + {c}, DerivedMeta(prev.cur, g.nodes[e]));
            WalkElements(g, c, n, vis)
            == Body(o.cur, if o.item.Some? then FileItem(prev.compound, o.item.value) else prev.compound,
                    if o.stray.Some? then o.stray else prev.stray)
  {
    hide WalkType, WalkEnd, FileItem, DerivedMeta, MakeCompound;
  }

  /** One more element of another kind. */
  lemma {:induction false} WalkOfOther(g: Graph, c: Id, n: nat, vis: set<Id>)
    requires g.TypeOk(Some(c)) && IsCompound(g.nodes[c]) && c !in vis && 0 < n <= |g.nodes[c].elements|
    requires g.nodes[c].elements[n - 1] in g.nodes && !g.nodes[g.nodes[c].elements[n - 1]].Derived?
    ensures g.TypeOk(g.nodes[c].baseType)
    ensures var prev := WalkElements(g, c, n - 1, vis);
            var node := g.nodes[g.nodes[c].elements[n - 1]];
            WalkElements(g, c, n, vis)
            == if node.Enumerator? && EnumBase(g, g.nodes[c].baseType).Some? then
              var base := EnumBase(g, g.nodes[c].baseType).value;
              var m := EnumeratorMeta(prev.cur, node.name, base.0, base.1.sizeBits);
              Body(m, AddEnumerator(prev.compound, m.place, EnumeratorType(m, base.1)), prev.stray)
            else prev
  {
    hide WalkType, WalkEnd, FileItem, DerivedMeta, MakeCompound, EnumeratorType, EnumeratorMeta, AddEnumerator;
    assert g.NodeOk(c);
  }

  /** A walk hands the place it was given to the type that it finishes. */
  lemma {:induction false} WalkKeepsPlace(g: Graph, t: Option<Id>, vis: set<Id>, cur: Meta)
    requires g.TypeOk(t)
    ensures var o := WalkType(g, t, vis, cur); o.item.Some? ==> o.item.value.meta.place == cur.place
    decreases Rank(g, t)
  {
    if t.Some? && IsLink(g.nodes[t.value]) {
      WalkKeepsPlace(g, Follow(g, t.value), vis, cur.(trail := LinkTrail(g, cur.trail, g.nodes[t.value])));
    }
  }

  /** A chain that ends in a compound finishes with a compound. */
  lemma {:induction false} WalkOfCompound(g: Graph, t: Option<Id>, vis: set<Id>, cur: Meta)
    requires g.TypeOk(t) && EndsInCompound(g, t)
    ensures var o := WalkType(g, t, vis, cur); o.item.Some? && o.item.value.qt.HasCompound?
    decreases Rank(g, t)
  {
    if IsLink(g.nodes[t.value]) {
      WalkOfCompound(g, Follow(g, t.value), vis, cur.(trail := LinkTrail(g, cur.trail, g.nodes[t.value])));
    }
  }

  /** What a walk from the root leaves as the result of the parser. */
  function Parsed(g: Graph, t: Option<Id>): QualifiedType
    requires g.TypeOk(t)
  {
    var o := WalkType(g, t, {}, CLEAN);
    if o.item.Some? then o.item.value.qt else if o.stray.Some? then o.stray.value else DEFAULT_TYPE
  }
}
