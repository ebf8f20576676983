/** Two small inputs on which the parser does not return the meaning of the type. */
module Deviations {
  import opened Wrappers
  import opened TypeTree
  import opened TypeGraph
  import opened ParseState
  import opened Walk
  import opened Denotation
  import opened Fidelity

  const INT := Basic("int", 32, AteSigned)

  /** struct S { const void *p; int x; } */
  predicate IsConstVoid(g: RawGraph) {
    g.nodes.Keys == {0, 1, 2, 3, 4, 5} &&
    g.nodes[0] == Composite(StructTag, "S", "", 128, None, [1, 4], false, false, false) &&
    g.nodes[1] == Derived(MemberTag, "p", 64, 0, false, Some(2)) &&
    g.nodes[2] == Derived(PointerTag, "", 64, 0, false, Some(3)) &&
    g.nodes[3] == Derived(ConstTag, "", 0, 0, false, None) &&
    g.nodes[4] == Derived(MemberTag, "x", 32, 64, false, Some(5)) &&
    g.nodes[5] == INT
  }

  lemma {:induction false} ConstVoidIsLegal(g: RawGraph)
    requires IsConstVoid(g)
    ensures IsLinked(g) && Conforms(g)
  {
    assert g.ChainLength(3, 1) && g.ChainLength(5, 1) && g.ChainLength(0, 1);
    assert g.ChainLength(2, 2) && g.ChainLength(4, 2) && g.ChainLength(1, 3);
    assert IsLinked(g);
    forall id | id in g.nodes ensures NodeConforms(g, id) {
    }
  }

  /** The member p is missing from the output, and its qualifiers reappear on x. */
  lemma {:induction false} ConstVoidMemberIsLost(g: Graph)
    requires IsConstVoid(g)
    ensures var item := WalkType(g, Some(0), {}, CLEAN).item;
            item.Some? && item.value.qt.HasCompound? &&
            item.value.qt.compound.ty.members ==
            [Member("x", HasFundamental(QualifiedFundamental(
                                          Fundamental("int", 4, SignedIntEnc), NO_INFO.(qual := [QPtr, QConst]))))]
  {
    var p := DerivedMeta(CLEAN, g.nodes[1]);
    var left := p.(trail := Trail([PointerTag, ConstTag], [], [], false, 0));
    ConstVoidWalk(g, p, left);
    assert WalkElements(g, 0, 0, {}) == Body(CLEAN, MakeCompound(g.nodes[0]), None);
    assert {} + {0} == {0};
    assert WalkElements(g, 0, 1, {}) == Body(left, MakeCompound(g.nodes[0]), None);
    var x := DerivedMeta(left, g.nodes[4]);
    ConstVoidInt(g, x);
    assert WalkElements(g, 0, 2, {}).compound
        == FileItem(MakeCompound(g.nodes[0]), WalkType(g, Some(5), {0}, x).item.value);
  }

  lemma {:induction false} ConstVoidWalk(g: Graph, p: Meta, left: Meta)
    requires IsConstVoid(g) && p.trail == Trail([], [], [], false, 8)
    requires left == p.(trail := Trail([PointerTag, ConstTag], [], [], false, 0))
    ensures WalkType(g, Some(2), {0}, p) == Outcome(left, None, None)
  {
    hide MakeInfo;
    var below := p.(trail := Trail([PointerTag], [], [], false, 8));
    assert [] + [PointerTag] == [PointerTag] && [PointerTag] + [ConstTag] == [PointerTag, ConstTag];
    assert LinkTrail(g, p.trail, g.nodes[2]) == below.trail && LinkTrail(g, below.trail, g.nodes[3]) == left.trail;
    assert WalkType(g, None, {0}, left) == Outcome(left, None, None);
    assert WalkType(g, Some(3), {0}, below) == Outcome(left, None, None);
  }

  lemma {:induction false} ConstVoidInt(g: Graph, x: Meta)
    requires IsConstVoid(g) && x.trail == Trail([PointerTag, ConstTag], [], [], false, 4)
    requires !x.place.isStatic && !x.isRecurring && !x.isForwardDecl
    ensures var item := WalkType(g, Some(5), {0}, x).item;
            item.Some? && item.value.meta.place == x.place &&
            item.value.qt == HasFundamental(QualifiedFundamental(
                                              Fundamental("int", 4, SignedIntEnc), NO_INFO.(qual := [QPtr, QConst])))
  {
    assert MakeQualifiers([PointerTag]) == [QPtr];
    assert [PointerTag, ConstTag][..1] == [PointerTag];
    assert MakeQualifiers([PointerTag, ConstTag]) == [QPtr, QConst];
    assert MakeInfo(x) == NO_INFO.(qual := [QPtr, QConst]);
    assert !Contains("int", "nullptr");
  }

  lemma {:induction false} ConstVoidIsUnfaithful(g: Graph)
    requires IsConstVoid(g)
    ensures !Faithful(g, Some(0), {})
  {
    assert EndOf(g, None) == VoidEnd && EndOf(g, Some(3)) == VoidEnd && EndOf(g, Some(2)) == VoidEnd;
    assert Links(g, Some(3)) == [g.nodes[3]];
    assert Links(g, Some(2)) == [g.nodes[2], g.nodes[3]];
    assert !Faithful(g, Some(2), {} + {0});
    assert !FaithfulElement(g, 0, 0, {});
    assert !FaithfulElements(g, 0, 1, {});
  }

  /** struct D : B, C {} with struct B { E e; } and enum E { A }. */
  predicate IsEnumInBase(g: RawGraph) {
    g.nodes.Keys == {0, 1, 2, 3, 4, 5, 6, 7, 8} &&
    g.nodes[0] == Composite(StructTag, "D", "", 64, None, [1, 2], false, false, false) &&
    g.nodes[1] == Derived(InheritanceTag, "", 0, 0, false, Some(3)) &&
    g.nodes[2] == Derived(InheritanceTag, "", 0, 32, false, Some(4)) &&
    g.nodes[3] == Composite(StructTag, "B", "", 32, None, [5], false, false, false) &&
    g.nodes[4] == Composite(StructTag, "C", "", 32, None, [], false, false, false) &&
    g.nodes[5] == Derived(MemberTag, "e", 32, 0, false, Some(6)) &&
    g.nodes[6] == Composite(EnumTag, "E", "", 32, Some(7), [8], false, false, false) &&
    g.nodes[7] == INT && g.nodes[8] == Enumerator("A")
  }

  lemma {:induction false} EnumInBaseChainsEnd(g: RawGraph)
    requires IsEnumInBase(g)
    ensures forall id {:trigger g.ChainEnds(id)} :: id in g.nodes ==> g.ChainEnds(id)
  {
    assert g.ChainLength(0, 1) && g.ChainLength(3, 1) && g.ChainLength(4, 1) && g.ChainLength(6, 1);
    assert g.ChainLength(7, 1) && g.ChainLength(8, 1);
    assert g.ChainLength(1, 2) && g.ChainLength(2, 2) && g.ChainLength(5, 2);
  }

  lemma {:induction false} EnumInBaseIsLinked(g: RawGraph)
    requires IsEnumInBase(g)
    ensures IsLinked(g)
  {
    EnumInBaseChainsEnd(g);
    assert forall id {:trigger g.NodeOk(id)} :: id in g.nodes ==> g.NodeOk(id);
  }

  lemma {:induction false} EnumInBaseConforms(g: Graph)
    requires IsEnumInBase(g)
    ensures Conforms(g)
  {
    hide IsLinked;
    assert EndsInBasic(g, Some(7)) && EndsInCompound(g, Some(3)) && EndsInCompound(g, Some(4));
    forall id | id in g.nodes ensures NodeConforms(g, id) {
    }
  }

  lemma {:induction false} EnumMember(g: Graph, path: set<Id>)
    requires IsEnumInBase(g) && 6 !in path
    ensures Faithful(g, Some(6), path) && LeavesEnumerator(g, Some(6), path)
  {
    assert EndOf(g, Some(6)) == TypeEnd(6);
    assert EndsWithEnumerator(g, 6, 1, path) && FaithfulElements(g, 6, 0, path) && FaithfulElements(g, 6, 1, path);
  }

  /** The first member of `c` is faithful and leaves an enumerator if its type does. */
  lemma {:induction false} FirstElement(g: Graph, c: Id, e: Id, t: Id, path: set<Id>)
    requires g.TypeOk(Some(c)) && IsCompound(g.nodes[c]) && c !in path && |g.nodes[c].elements| > 0
    requires g.nodes[c].elements[0] == e && e in g.nodes && g.nodes[e].Derived? && ElementType(g, e) == Some(t)
    requires Faithful(g, Some(t), path + {c}) && LeavesEnumerator(g, Some(t), path + {c})
    ensures FaithfulElements(g, c, 1, path) && EndsWithEnumerator(g, c, 1, path)
  {
    UnvisitedShrinks(g, path, c);
    hide Faithful, LeavesEnumerator;
    assert FaithfulElements(g, c, 0, path);
    assert g.NodeOk(c) && g.ElementOk(g.nodes[c], e);
  }

  lemma {:induction false} FirstBase(g: Graph)
    requires IsEnumInBase(g)
    ensures FaithfulElements(g, 0, 1, {}) && EndsWithEnumerator(g, 0, 1, {})
  {
    EnumMember(g, {} + {0} + {3});
    FirstElement(g, 3, 5, 6, {} + {0});
    assert EndOf(g, Some(3)) == TypeEnd(3);
    FirstElement(g, 0, 1, 3, {});
  }

  /** D comes out with one base class, and with the other one as a member. */
  lemma {:induction false} SecondBaseIsLost(g: Graph)
    requires IsEnumInBase(g)
    ensures var c := WalkElements(g, 0, 2, {}).compound; |c.bases| == 1 && |c.members| == 1
  {
    EnumInBaseConforms(g);
    FirstBase(g);
    hide EndsWithEnumerator, FaithfulElements, Denote;
    FaithfulElementsAreDenoted(g, 0, 1, {});
    BaseAfterEnumeratorIsMisfiled(g, 0, 2, {});
    DenotationAdds(g, 0, 1, {});
    assert DenoteCompound(g, 0, 0, {}) == Bare(g.nodes[0]);
  }
}
