/** Small struct layouts on which the search by byte offset goes right and wrong. */
module LayoutDeviation {
  import opened Wrappers
  import opened TypeGraph
  import opened Walk
  import opened ByteOffset
  import opened Silence
  import opened Ways
  import opened Slots
  import opened PlainStructs

  const LONG := Basic("long", 64, AteSigned)
  const VOID_PTR := Derived(PointerTag, "", 64, 0, false, None)

  function Struct(name: string, bytes: nat, elements: seq<Id>): Node {
    Composite(StructTag, name, "", 8 * bytes, None, elements, false, false, false)
  }

  /** A member of 8 bytes. */
  function Field(name: string, byte: nat, ty: Id): Node { Derived(MemberTag, name, 64, 8 * byte, false, Some(ty)) }

  function Alias(name: string, ty: Id): Node { Derived(TypedefTag, name, 0, 0, false, Some(ty)) }

  // ---- Structs of few members ---------------------------------------------------------------------------------

  /** A struct of one member that is a scalar or points to nothing. */
  predicate IsSingleton(g: Graph, c: Id, m: Id, ty: Id) {
    {c, m, ty} <= g.nodes.Keys && (g.nodes[ty] == LONG || g.nodes[ty] == VOID_PTR) &&
    g.nodes[c].Composite? && g.nodes[c] == Struct(g.nodes[c].name, 8, [m]) &&
    g.nodes[m].Derived? && g.nodes[m] == Field(g.nodes[m].name, 0, ty)
  }

  lemma {:induction false} SingletonSearch(g: Graph, c: Id, m: Id, ty: Id, byte: nat, vis: set<Id>, s: Search)
    requires IsSingleton(g, c, m, ty) && c !in vis && !s.terminate
    ensures SearchType(g, byte, Some(c), vis, s) == VisitMember(g, byte, m, s).0
  {
    var s1 := VisitMember(g, byte, m, s).0;
    assert SearchElements(g, byte, c, 0, vis, s) == s;
    assert SearchType(g, byte, None, vis + {c}, s1) == s1;
    assert SearchType(g, byte, Some(ty), vis + {c}, s1) == s1;
    UnvisitedShrinks(g, vis, c);
    assert SearchElements(g, byte, c, 1, vis, s) == SearchElement(g, byte, m, vis + {c}, s);
  }

  /** The way to the first member of an embedded struct. */
  lemma {:induction false} WayInto(g: Graph, c: Id, i: nat, d: Id)
    requires g.TypeOk(Some(c)) && IsCompound(g.nodes[c]) && i < |g.nodes[c].elements|
    requires var e := Element(g, c, i);
             IsField(g, e) && Embedded(g, ElementType(g, e)) == Some(d) && d != c && IsWay(g, d, {} + {c}, [0])
    ensures IsWay(g, c, {}, [i, 0]) && IsByValue(g, c, {}, [i, 0]) && [i, 0][1..] == [0]
    ensures Next(g, c, {}, [i, 0]) == d && Target(g, c, {}, [i, 0]) == Element(g, d, 0)
  {
    EmbeddedIsEntered(g, ElementType(g, Element(g, c, i)), {} + {c});
    assert [i, 0][1..] == [0];
    hide Embedded, Entered;
    assert IsWay(g, c, {}, [i, 0]);
  }

  /** The search visits two members one after the other. */
  lemma {:induction false} PairSearch(g: Graph, c: Id, a: Id, b: Id, byte: nat, vis: set<Id>, s: Search)
    requires {c, a, b} <= g.nodes.Keys && IsCompound(g.nodes[c]) && g.nodes[c].elements == [a, b]
    requires c !in vis && !s.terminate
    ensures SearchType(g, byte, Some(c), vis, s)
         == SearchElement(g, byte, b, vis + {c}, SearchElement(g, byte, a, vis + {c}, s))
  {
    hide SearchElement;
    UnvisitedShrinks(g, vis, c);
    assert SearchElements(g, byte, c, 0, vis, s) == s;
    assert SearchElements(g, byte, c, 1, vis, s) == SearchElement(g, byte, a, vis + {c}, s);
  }

  // ---- A struct declared through a typedef --------------------------------------------------------------------

  /** struct Out { long x; Inner in; } with struct Inner { void *p; }: `in` has the declared type `inner`. */
  predicate IsNested(g: RawGraph, inner: Id) {
    g.nodes.Keys == {0, 1, 2, 3, 4, 5, 6, 7} && (inner == 3 || inner == 6) &&
    g.nodes[0] == Struct("Out", 16, [1, 2]) && g.nodes[1] == Field("x", 0, 7) && g.nodes[2] == Field("in", 8, inner) &&
    g.nodes[3] == Struct("Inner", 8, [4]) && g.nodes[4] == Field("p", 0, 5) && g.nodes[5] == VOID_PTR &&
    g.nodes[6] == Alias("inner_t", 3) && g.nodes[7] == LONG
  }

  lemma {:induction false} NestedChainsEnd(g: RawGraph, inner: Id)
    requires IsNested(g, inner)
    ensures forall id {:trigger g.ChainEnds(id)} :: id in g.nodes ==> g.ChainEnds(id)
  {
    assert g.ChainLength(7, 1) && g.ChainLength(5, 1) && g.ChainLength(3, 1) && g.ChainLength(0, 1);
    assert g.ChainLength(4, 2) && g.ChainLength(1, 2) && g.ChainLength(6, 2);
    assert g.ChainLength(2, if inner == 3 then 2 else 3);
  }

  lemma {:induction false} NestedIsLegal(g: RawGraph, inner: Id)
    requires IsNested(g, inner)
    ensures IsLinked(g) && Conforms(g)
  {
    NestedChainsEnd(g, inner);
    assert forall id {:trigger g.NodeOk(id)} :: id in g.nodes ==> g.NodeOk(id);
    forall id | id in g.nodes ensures NodeConforms(g, id) {
    }
  }

  lemma {:induction false} NestedIsEmbedded(g: Graph, inner: Id, vis: set<Id>)
    requires IsNested(g, inner) && 3 !in vis
    ensures Embedded(g, Some(inner)) == Some(3) && Entered(g, Some(inner), vis) == Some(3)
  {
    assert Embedded(g, Some(3)) == Some(3);
    EmbeddedIsEntered(g, Some(inner), vis);
  }

  /** The way to p, inside `in` and from Out. */
  lemma {:induction false} NestedWay(g: Graph, inner: Id)
    requires IsNested(g, inner)
    ensures IsSlotWay(g, 3, {} + {0}, [0]) && Target(g, 3, {} + {0}, [0]) == 4
    ensures IsSlotWay(g, 0, {}, [1, 0]) && Next(g, 0, {}, [1, 0]) == 3 && Target(g, 0, {}, [1, 0]) == 4
    ensures [1, 0][1..] == [0]
  {
    NestedIsEmbedded(g, inner, {} + {0});
    assert [1, 0][1..] == [0];
    assert IsWay(g, 3, {} + {0}, [0]);
    hide Embedded, Entered;
    assert Element(g, 0, 1) == 2;
  }

  /** With either type, the layout is tidy and byte 8 belongs to p. */
  lemma {:induction false} NestedIsTidy(g: Graph, inner: Id)
    requires IsNested(g, inner)
    ensures IsSlotWay(g, 0, {}, [1, 0]) && IsTidy(g, 0, {}, [1, 0], 16) && Covers(g, 0, {}, [1, 0], 8)
    ensures IsUnshared(g, 0, {}, [1, 0], 4) && Target(g, 0, {}, [1, 0]) == 4
  {
    NestedWay(g, inner);
    UnvisitedShrinks(g, {}, 0);
    NestedInside(g, inner);
    NestedFront(g, inner);
    hide Embedded, Entered, IsWay, IsByValue, AreCalm, Mention, Mentions, Unvisited;
    assert Element(g, 0, 1) == 2 && End(g, 0, {}, [1, 0]) == 16;
  }

  lemma {:induction false} NestedInside(g: Graph, inner: Id)
    requires IsNested(g, inner)
    ensures IsSlotWay(g, 3, {} + {0}, [0]) && IsTidy(g, 3, {} + {0}, [0], 16) && Covers(g, 3, {} + {0}, [0], 0)
    ensures End(g, 3, {} + {0}, [0]) == 8 && IsUnshared(g, 3, {} + {0}, [0], 4)
  {
    NestedWay(g, inner);
    assert !Mentions(g, Some(5), {} + {0} + {3}, 4);
  }

  lemma {:induction false} NestedFront(g: Graph, inner: Id)
    requires IsNested(g, inner)
    ensures AreCalm(g, 0, 1, 8, 16, {}, false) && !Mention(g, 0, 0, 1, {}, 4) && !Mention(g, 0, 2, 2, {}, 4)
  {
    UnvisitedShrinks(g, {}, 0);
    assert !Mentions(g, Some(7), {} + {0}, 4) && !Mention(g, 0, 0, 0, {}, 4);
    assert AreCalm(g, 0, 0, 8, 16, {}, false) && IsCalm(g, Some(7), 8, 16, {} + {0}, false);
  }

  /** The search meets p exactly if `in` is declared with the struct type itself. */
  lemma {:induction false} TypedefHidesMembers(g: Graph, inner: Id)
    requires IsNested(g, inner)
    ensures SearchType(g, 8, Some(0), {}, START).candidate == Some(4) <==> inner == 3
  {
    NestedWay(g, inner);
    NestedIsTidy(g, inner);
    SlotIsFoundExactlyIfMet(g, 0, [1, 0], 8, 16);
    hide IsWay, IsByValue, IsTidy, IsUnshared, SearchType, Embedded, Entered;
    assert Element(g, 0, 1) == 2;
    assert Meets(g, 3, {} + {0}, [0], Rest(g, 2, 8)) == (inner == 3);
  }

  /** Otherwise it ends with the member `in`. */
  lemma {:induction false} TypedefMisleadsSearch(g: Graph)
    requires IsNested(g, 6)
    ensures SearchType(g, 8, Some(0), {}, START).candidate == Some(2)
  {
    var found := START.(candidate := Some(2));
    PairSearch(g, 0, 1, 2, 8, {}, START);
    assert {} + {0} == {0};
    SilentScalar(g, 8, 1, 7, {0}, START);
    SingletonSearch(g, 3, 4, 5, 8, {0}, found);
    assert SearchType(g, 8, Some(6), {0}, found) == SearchType(g, 8, Some(3), {0}, found);
    hide SearchType;
    assert VisitMember(g, 8, 2, START) == (found, true) && VisitMember(g, 8, 4, found) == (found, true);
  }

  /** A scalar member that does not cover the byte is passed by. */
  lemma {:induction false} SilentScalar(g: Graph, byte: nat, m: Id, ty: Id, vis: set<Id>, s: Search)
    requires {m, ty} <= g.nodes.Keys && g.nodes[m].Derived? && ElementType(g, m) == Some(ty) && g.nodes[ty] == LONG
    requires var lower := s.offsetBase + Offset(g.nodes[m]);
             !(lower <= byte < lower + Size(g.nodes[m]))
    ensures SearchElement(g, byte, m, vis, s) == s
  {
    assert SearchType(g, byte, Some(ty), vis, s) == s;
  }

  // ---- A scalar -----------------------------------------------------------------------------------------------

  /** struct Two { A in; B q; } with struct A { long a; } and struct B { void *p; }, behind a member `long x`. */
  predicate IsTwo(g: RawGraph) {
    g.nodes.Keys == {0, 1, 2, 3, 4, 5, 6, 7, 8, 9} &&
    g.nodes[0] == Struct("Two", 24, [9, 1, 2]) && g.nodes[1] == Field("in", 8, 3) && g.nodes[2] == Field("q", 16, 5) &&
    g.nodes[3] == Struct("A", 8, [4]) && g.nodes[4] == Field("a", 0, 7) &&
    g.nodes[5] == Struct("B", 8, [6]) && g.nodes[6] == Field("p", 0, 8) &&
    g.nodes[7] == LONG && g.nodes[8] == VOID_PTR && g.nodes[9] == Field("x", 0, 7)
  }

  lemma {:induction false} TwoChainsEnd(g: RawGraph)
    requires IsTwo(g)
    ensures forall id {:trigger g.ChainEnds(id)} :: id in g.nodes ==> g.ChainEnds(id)
  {
    assert g.ChainLength(7, 1) && g.ChainLength(8, 1) && g.ChainLength(3, 1) && g.ChainLength(5, 1) &&
           g.ChainLength(0, 1);
    assert g.ChainLength(4, 2) && g.ChainLength(6, 2) && g.ChainLength(1, 2) && g.ChainLength(2, 2) &&
           g.ChainLength(9, 2);
  }

  lemma {:induction false} TwoIsLegal(g: RawGraph)
    requires IsTwo(g)
    ensures IsLinked(g) && Conforms(g)
  {
    TwoChainsEnd(g);
    assert forall id {:trigger g.NodeOk(id)} :: id in g.nodes ==> g.NodeOk(id);
    forall id | id in g.nodes ensures NodeConforms(g, id) {
    }
  }

  lemma {:induction false} TwoSteps(g: Graph, byte: nat)
    requires IsTwo(g)
    ensures var s0 := SearchElement(g, byte, 9, {0}, START);
            var s1 := SearchElement(g, byte, 1, {0}, s0);
            SearchType(g, byte, Some(0), {}, START) == SearchElement(g, byte, 2, {0}, s1)
  {
    hide SearchElement;
    var s0 := SearchElement(g, byte, 9, {0}, START);
    assert {} + {0} == {0} && SearchElements(g, byte, 0, 0, {}, START) == START;
    assert SearchElements(g, byte, 0, 1, {}, START) == s0;
    assert SearchElements(g, byte, 0, 2, {}, START) == SearchElement(g, byte, 1, {0}, s0);
  }

  /** Byte 8 belongs to the scalar a, yet the search ends at the pointer p of a later sibling, 8 bytes behind. */
  lemma {:induction false} ScalarIsOverwritten(g: Graph)
    requires IsTwo(g)
    ensures SearchType(g, 8, Some(0), {}, START).candidate == Some(6)
  {
    var inside := Search(8, Some(1), false);
    var found := inside.(candidate := Some(4));
    TwoSteps(g, 8);
    SilentScalar(g, 8, 9, 7, {0}, START);
    SingletonSearch(g, 3, 4, 7, 8, {0}, inside);
    SingletonSearch(g, 5, 6, 8, 8, {0}, found);
    hide SearchType;
    assert VisitMember(g, 8, 1, START) == (inside, true) && VisitMember(g, 8, 4, inside) == (found, true);
    assert VisitMember(g, 8, 2, found) == (found, true) && VisitMember(g, 8, 6, found).0.candidate == Some(6);
  }

  lemma {:induction false} TwoCovers(g: Graph)
    requires IsTwo(g)
    ensures IsWay(g, 0, {}, [1, 0]) && IsByValue(g, 0, {}, [1, 0]) && Covers(g, 0, {}, [1, 0], 8)
    ensures IsWay(g, 0, {}, [2, 0]) && IsByValue(g, 0, {}, [2, 0]) && !Covers(g, 0, {}, [2, 0], 8)
    ensures Target(g, 0, {}, [1, 0]) == 4 && Target(g, 0, {}, [2, 0]) == 6
  {
    TwoInside(g);
    assert Element(g, 0, 1) == 1 && Element(g, 0, 2) == 2;
    assert ElementType(g, 1) == Some(3) && ElementType(g, 2) == Some(5);
    hide Embedded, Entered, IsWay, IsByValue;
    WayInto(g, 0, 1, 3);
    WayInto(g, 0, 2, 5);
  }

  lemma {:induction false} TwoInside(g: Graph)
    requires IsTwo(g)
    ensures Embedded(g, Some(3)) == Some(3) && Embedded(g, Some(5)) == Some(5)
    ensures Element(g, 3, 0) == 4 && Element(g, 5, 0) == 6
    ensures IsWay(g, 3, {} + {0}, [0]) && IsByValue(g, 3, {} + {0}, [0]) && Covers(g, 3, {} + {0}, [0], 0)
    ensures IsWay(g, 5, {} + {0}, [0])
  {
  }

  // ---- A pointer declared through a typedef -------------------------------------------------------------------

  /** struct S { str p; T t; } with typedef void *str and struct T { void *q; }. */
  predicate IsAliased(g: RawGraph) {
    g.nodes.Keys == {0, 1, 2, 3, 4, 5, 6} &&
    g.nodes[0] == Struct("S", 16, [1, 2]) && g.nodes[1] == Field("p", 0, 6) && g.nodes[2] == Field("t", 8, 3) &&
    g.nodes[3] == Struct("T", 8, [4]) && g.nodes[4] == Field("q", 0, 5) &&
    g.nodes[5] == VOID_PTR && g.nodes[6] == Alias("str", 5)
  }

  lemma {:induction false} AliasedChainsEnd(g: RawGraph)
    requires IsAliased(g)
    ensures forall id {:trigger g.ChainEnds(id)} :: id in g.nodes ==> g.ChainEnds(id)
  {
    assert g.ChainLength(5, 1) && g.ChainLength(3, 1) && g.ChainLength(0, 1);
    assert g.ChainLength(6, 2) && g.ChainLength(4, 2) && g.ChainLength(2, 2) && g.ChainLength(1, 3);
  }

  lemma {:induction false} AliasedIsLegal(g: RawGraph)
    requires IsAliased(g)
    ensures IsLinked(g) && Conforms(g)
  {
    AliasedChainsEnd(g);
    assert forall id {:trigger g.NodeOk(id)} :: id in g.nodes ==> g.NodeOk(id);
    forall id | id in g.nodes ensures NodeConforms(g, id) {
    }
  }

  /** Byte 0 belongs to p, yet the search does not stop there and ends at q. */
  lemma {:induction false} AliasedPointerIsDisplaced(g: Graph)
    requires IsAliased(g)
    ensures IsWay(g, 0, {}, [0]) && IsByValue(g, 0, {}, [0]) && Covers(g, 0, {}, [0], 0)
    ensures Target(g, 0, {}, [0]) == 1 && !IsStop(g, 1)
    ensures SearchType(g, 0, Some(0), {}, START).candidate == Some(4)
  {
    var found := START.(candidate := Some(1));
    assert Element(g, 0, 0) == 1;
    PairSearch(g, 0, 1, 2, 0, {}, START);
    assert {} + {0} == {0};
    assert SearchType(g, 0, None, {0}, found) == found && SearchType(g, 0, Some(5), {0}, found) == found;
    assert SearchType(g, 0, Some(6), {0}, found) == found;
    SingletonSearch(g, 3, 4, 5, 0, {0}, found);
    hide SearchType;
    assert VisitMember(g, 0, 1, START) == (found, true);
    assert VisitMember(g, 0, 2, found) == (found, true) && VisitMember(g, 0, 4, found).0.candidate == Some(4);
  }

  // ---- Pointers to other structs ------------------------------------------------------------------------------

  /** struct Link { Link *prev; Pair *first; Pair *second; } with struct Pair { long x; long y; }. */
  predicate IsLinkLayout(g: RawGraph) {
    g.nodes.Keys == {0, 1, 2, 3, 4, 5, 6, 7, 8, 9} &&
    g.nodes[0] == Struct("Link", 24, [1, 2, 3]) && g.nodes[1] == Field("prev", 0, 8) &&
    g.nodes[2] == Field("first", 8, 9) && g.nodes[3] == Field("second", 16, 9) &&
    g.nodes[4] == Struct("Pair", 16, [5, 6]) && g.nodes[5] == Field("x", 0, 7) && g.nodes[6] == Field("y", 8, 7) &&
    g.nodes[7] == LONG && g.nodes[8] == Derived(PointerTag, "", 64, 0, false, Some(0)) &&
    g.nodes[9] == Derived(PointerTag, "", 64, 0, false, Some(4))
  }

  lemma {:induction false} LinkChainsEnd(g: RawGraph)
    requires IsLinkLayout(g)
    ensures forall id {:trigger g.ChainEnds(id)} :: id in g.nodes ==> g.ChainEnds(id)
  {
    assert g.ChainLength(7, 1) && g.ChainLength(4, 1) && g.ChainLength(0, 1) && g.ChainLength(5, 2) &&
           g.ChainLength(6, 2);
    assert g.ChainLength(8, 2) && g.ChainLength(9, 2) && g.ChainLength(1, 3) && g.ChainLength(2, 3) &&
           g.ChainLength(3, 3);
  }

  lemma {:induction false} LinkIsLegal(g: RawGraph)
    requires IsLinkLayout(g)
    ensures IsLinked(g) && Conforms(g)
  {
    LinkChainsEnd(g);
    assert forall id {:trigger g.NodeOk(id)} :: id in g.nodes ==> g.NodeOk(id);
    forall id | id in g.nodes ensures NodeConforms(g, id) {
    }
  }

  lemma {:induction false} PairIsCalm(g: Graph, lo: nat, hi: nat, mayStop: bool)
    requires IsLinkLayout(g)
    ensures IsCalm(g, Some(9), lo, hi, {0}, mayStop) && IsCalm(g, Some(8), lo, hi, {0}, mayStop)
  {
    UnvisitedShrinks(g, {0}, 4);
    assert IsCalm(g, Some(7), lo, hi, {0} + {4}, mayStop);
    assert AreCalm(g, 4, 0, lo, hi, {0}, mayStop) && AreCalm(g, 4, 1, lo, hi, {0}, mayStop) &&
           AreCalm(g, 4, 2, lo, hi, {0}, mayStop);
    assert IsCalm(g, Some(4), lo, hi, {0}, mayStop) && IsCalm(g, Some(0), lo, hi, {0}, mayStop);
  }

  lemma {:induction false} LinkElements(g: Graph, i: nat)
    requires IsLinkLayout(g) && i < 3
    ensures IsRange(g, 0, i, i + 1, {}) && g.nodes[i + 1].Derived?
    ensures Element(g, 0, i) == i + 1 && ElementType(g, i + 1) == Some(if i == 0 then 8 else 9)
    ensures Part(g, i + 1, {} + {0}) == None && Reach(g, i + 1, {} + {0}) == 8 * i + 8
  {
  }

  /** The layout is plain, although every member points to a struct. */
  lemma {:induction false} LinkIsPlain(g: Graph, hi: nat)
    requires IsLinkLayout(g)
    ensures IsPlain(g, 0, {}, hi, false) && Extent(g, 0, 3, {}) == 24
  {
    LinkElements(g, 0);
    LinkElements(g, 1);
    LinkElements(g, 2);
    forall i | 0 <= i < 3 ensures IsPlainElement(g, 0, i, {}, hi, false) {
      LinkElementIsPlain(g, i, hi);
    }
    hide IsPlainElement, Reach;
    assert Extent(g, 0, 0, {}) == 0 && Extent(g, 0, 1, {}) == 8 && Extent(g, 0, 2, {}) == 16;
  }

  lemma {:induction false} LinkElementIsPlain(g: Graph, i: nat, hi: nat)
    requires IsLinkLayout(g) && i < 3
    ensures IsPlainElement(g, 0, i, {}, hi, false)
  {
    hide IsLinkLayout, IsPlain, IsCalm, HasLaterPart, IsInOrder, Part, Reach, Unvisited;
    assert {} + {0} == {0};
    LinkElements(g, i);
    LinkIsInOrder(g, i);
    PairIsCalm(g, 8 * i + 8, hi, !HasLaterPart(g, 0, i, {}));
  }

  lemma {:induction false} LinkIsInOrder(g: Graph, i: nat)
    requires IsLinkLayout(g) && i < 3
    ensures IsInOrder(g, 0, i, {})
  {
    LinkElements(g, 0);
    LinkElements(g, 1);
    LinkElements(g, 2);
    hide Reach, Element;
  }

  /** So all three pointers are found. */
  lemma {:induction false} PointersToStructsAreFound(g: Graph, byte: nat)
    requires IsLinkLayout(g) && byte < 24
    ensures SearchType(g, byte, Some(0), {}, START).candidate == Some(byte / 8 + 1)
  {
    var i := byte / 8;
    LinkIsPlain(g, 24);
    LinkElements(g, i);
    assert IsSlotWay(g, 0, {}, [i]) && Covers(g, 0, {}, [i], byte) && Target(g, 0, {}, [i]) == i + 1;
    hide IsPlain, SearchType;
    PlainSlotsAreFound(g, 0, [i], byte);
  }

  // ---- A pointer in front that leads to the byte --------------------------------------------------------------

  /** struct S { T *t; In in; } with struct T { long a; void *q; } and struct In { void *p; }; if `moved`,
      struct S { T *t; void *p; } with struct T { long a; U u; } and struct U { long x; }. */
  predicate IsPointing(g: RawGraph, moved: bool) {
    g.nodes.Keys == {0, 1, 2, 3, 4, 5, 6, 7, 8, 9, 10} &&
    g.nodes[0] == Struct("S", 16, [1, 2]) && g.nodes[1] == Field("t", 0, 8) && g.nodes[3].Composite? &&
    g.nodes[2] == (if moved then Field("p", 8, 5) else Field("in", 8, 3)) &&
    g.nodes[3] == (if moved then Struct("U", 8, [4]) else Struct("In", 8, [4])) &&
    g.nodes[4] == (if moved then Field("x", 0, 10) else Field("p", 0, 5)) && g.nodes[5] == VOID_PTR &&
    g.nodes[6] == Struct("T", 16, [7, 9]) && g.nodes[7] == Field("a", 0, 10) &&
    g.nodes[8] == Derived(PointerTag, "", 64, 0, false, Some(6)) &&
    g.nodes[9] == (if moved then Field("u", 8, 3) else Field("q", 8, 5)) && g.nodes[10] == LONG
  }

  lemma {:induction false} PointingChainsEnd(g: RawGraph, moved: bool)
    requires IsPointing(g, moved)
    ensures forall id {:trigger g.ChainEnds(id)} :: id in g.nodes ==> g.ChainEnds(id)
  {
    assert g.ChainLength(0, 1) && g.ChainLength(3, 1) && g.ChainLength(5, 1) && g.ChainLength(6, 1) &&
           g.ChainLength(10, 1);
    assert g.ChainLength(2, 2) && g.ChainLength(4, 2) && g.ChainLength(7, 2) && g.ChainLength(8, 2) &&
           g.ChainLength(9, 2) && g.ChainLength(1, 3);
  }

  lemma {:induction false} PointingIsLegal(g: RawGraph, moved: bool)
    requires IsPointing(g, moved)
    ensures IsLinked(g) && Conforms(g)
  {
    PointingChainsEnd(g, moved);
    forall id {:trigger g.NodeOk(id)} | id in g.nodes ensures g.NodeOk(id) { PointingNode(g, moved, id); }
    assert IsLinked(g);
    forall id | id in g.nodes ensures NodeConforms(g, id) {
      PointingNode(g, moved, id);
      hide IsPointing;
    }
  }

  lemma {:induction false} PointingNode(g: RawGraph, moved: bool, id: Id)
    requires IsPointing(g, moved) && id in g.nodes
    ensures g.NodeOk(id) && !IsInheritance(g.nodes[id]) && !IsEnum(g.nodes[id]) && !g.nodes[id].Variable?
  {
    if id == 0 || id == 3 || id == 6 {
      PointingStruct(g, moved, id);
    } else {
      PointingOther(g, moved, id);
    }
    hide IsPointing;
  }

  lemma {:induction false} PointingStruct(g: RawGraph, moved: bool, id: Id)
    requires IsPointing(g, moved) && (id == 0 || id == 3 || id == 6)
    ensures g.NodeOk(id) && g.nodes[id].Composite? && !IsEnum(g.nodes[id])
  {
  }

  lemma {:induction false} PointingOther(g: RawGraph, moved: bool, id: Id)
    requires IsPointing(g, moved) && id in g.nodes && id != 0 && id != 3 && id != 6
    ensures g.NodeOk(id) && !g.nodes[id].Composite? && !IsInheritance(g.nodes[id]) && !g.nodes[id].Variable?
  {
    assert g.TypeOk(Some(3)) && g.TypeOk(Some(5)) && g.TypeOk(Some(6)) && g.TypeOk(Some(8)) && g.TypeOk(Some(10));
    hide IsType, IsModifier;
  }

  /** The pointer does not cover byte 8, but the second member of what it points to does. */
  lemma {:induction false} PointedIsEntered(g: Graph, moved: bool)
    requires IsPointing(g, moved)
    ensures SearchElement(g, 8, 1, {0}, START) == SearchElement(g, 8, 9, {0} + {6}, START)
  {
    PairSearch(g, 6, 7, 9, 8, {0}, START);
    SilentScalar(g, 8, 7, 10, {0} + {6}, START);
    hide SearchElement;
    assert SearchType(g, 8, Some(8), {0}, START) == SearchType(g, 8, Some(6), {0}, START);
    assert SearchElement(g, 8, 1, {0}, START) == SearchType(g, 8, Some(8), {0}, START) by {
      PointerIsFollowed(g, moved);
    }
  }

  lemma {:induction false} PointerIsFollowed(g: Graph, moved: bool)
    requires IsPointing(g, moved)
    ensures SearchElement(g, 8, 1, {0}, START) == SearchType(g, 8, Some(8), {0}, START)
  {
    hide SearchType;
  }

  /** Byte 8 belongs to p, yet the search ends at the member `in`: the pointer q, behind t, has ended it before. */
  lemma {:induction false} EarlierPointerEndsSearch(g: Graph)
    requires IsPointing(g, false)
    ensures SearchType(g, 8, Some(0), {}, START).candidate == Some(2)
  {
    var ended := Search(0, Some(9), true);
    var found := Search(8, Some(2), true);
    PairSearch(g, 0, 1, 2, 8, {}, START);
    PointedIsEntered(g, false);
    assert {} + {0} == {0} && VisitMember(g, 8, 9, START) == (ended, false);
    assert SearchElement(g, 8, 1, {0}, START) == ended;
    TerminatedTypePasses(g, 8, Some(3), {0}, found);
    hide SearchType;
    assert VisitMember(g, 8, 2, ended) == (found, true);
  }

  /** Byte 8 belongs to p, yet the search ends at x: the struct u, behind t, has moved the base. */
  lemma {:induction false} EarlierPointerMovesBase(g: Graph)
    requires IsPointing(g, true)
    ensures SearchType(g, 8, Some(0), {}, START).candidate == Some(4)
  {
    var moved := Search(8, Some(9), false);
    var found := Search(8, Some(4), false);
    PairSearch(g, 0, 1, 2, 8, {}, START);
    PointedIsEntered(g, true);
    SingletonSearch(g, 3, 4, 10, 8, {0} + {6}, moved);
    assert SearchType(g, 8, Some(5), {0}, found) == found;
    hide SearchType;
    assert {} + {0} == {0} && VisitMember(g, 8, 9, START) == (moved, true);
    assert VisitMember(g, 8, 4, moved) == (found, true);
    assert SearchElement(g, 8, 1, {0}, START) == found;
    assert VisitMember(g, 8, 2, found) == (found, true);
  }

  /** In both layouts p is a slot that is looked for where it is. */
  lemma {:induction false} PointingCovers(g: Graph, moved: bool)
    requires IsPointing(g, moved)
    ensures var way := if moved then [1] else [1, 0];
            IsSlotWay(g, 0, {}, way) && Target(g, 0, {}, way) == (if moved then 2 else 4) &&
            IsOrdered(g, 0, {}, way) && IsDirect(g, 0, {}, way) && Covers(g, 0, {}, way, 8) && Meets(g, 0, {}, way, 8)
  {
    assert Element(g, 0, 1) == 2;
    if !moved {
      PointingInside(g);
      hide Embedded, Entered, IsWay, IsByValue;
      WayInto(g, 0, 1, 3);
      DirectWayMeetsExactlyCovered(g, 0, {}, [1, 0], 8);
      hide Meets;
    }
  }

  lemma {:induction false} PointingInside(g: Graph)
    requires IsPointing(g, false)
    ensures Embedded(g, ElementType(g, 2)) == Some(3) && Element(g, 3, 0) == 4
    ensures IsSlotWay(g, 3, {} + {0}, [0]) && IsDirect(g, 3, {} + {0}, [0]) && Covers(g, 3, {} + {0}, [0], 0)
    ensures IsOrdered(g, 3, {} + {0}, [0]) && End(g, 3, {} + {0}, [0]) == 8
  {
  }

  /** So it would be met, but it is not hit. */
  lemma {:induction false} PointingIsNotHit(g: Graph, moved: bool)
    requires IsPointing(g, moved)
    ensures var way := if moved then [1] else [1, 0];
            IsWay(g, 0, {}, way) && !IsHit(g, 0, {}, way, Left(8, false))
  {
    PointingCovers(g, moved);
    if moved {
      EarlierPointerMovesBase(g);
    } else {
      EarlierPointerEndsSearch(g);
    }
    var way := if moved then [1] else [1, 0];
    hide IsPointing, IsWay, IsHit, IsOrdered, SearchType, Target;
    if IsHit(g, 0, {}, way, Left(8, false)) {
      HitSlotIsFound(g, 0, way, 8, Target(g, 0, {}, way));
    }
  }
}
