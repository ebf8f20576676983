/** Struct layouts on which the constant indices of an address computation lead astray. */
module GepDeviation {
  import opened Wrappers
  import opened TypeGraph
  import opened Walk
  import opened ByteOffset
  import opened Silence
  import opened Ways
  import opened Slots
  import opened Gep
  import opened LayoutDeviation

  const BASE := Derived(InheritanceTag, "", 0, 0, false, Some(3))

  /** class D : B { void *p; } with struct B { long a; long b; }; if `looping`,
      class D : B { static D d; long x; }. */
  predicate IsDerivedClass(g: RawGraph, looping: bool) {
    g.nodes.Keys == {0, 1, 2, 3, 4, 5, 6, 7, 8} &&
    g.nodes[0] == Struct("D", 24, if looping then [1, 8, 2] else [1, 2]) && g.nodes[1] == BASE &&
    g.nodes[2] == (if looping then Field("x", 16, 7) else Field("p", 16, 5)) &&
    g.nodes[3] == Struct("B", 16, [4, 6]) && g.nodes[4] == Field("a", 0, 7) && g.nodes[5] == VOID_PTR &&
    g.nodes[6] == Field("b", 8, 7) && g.nodes[7] == LONG &&
    g.nodes[8] == Derived(MemberTag, "d", 0, 0, true, Some(0))
  }

  lemma {:induction false} DerivedChainsEnd(g: RawGraph, looping: bool)
    requires IsDerivedClass(g, looping)
    ensures forall id {:trigger g.ChainEnds(id)} :: id in g.nodes ==> g.ChainEnds(id)
  {
    assert g.ChainLength(0, 1) && g.ChainLength(3, 1) && g.ChainLength(5, 1) && g.ChainLength(7, 1);
    assert g.ChainLength(1, 2) && g.ChainLength(2, 2) && g.ChainLength(4, 2) && g.ChainLength(6, 2) &&
           g.ChainLength(8, 2);
  }

  lemma {:induction false} DerivedIsLinked(g: RawGraph, looping: bool)
    requires IsDerivedClass(g, looping)
    ensures IsLinked(g)
  {
    DerivedChainsEnd(g, looping);
    assert forall id {:trigger g.NodeOk(id)} :: id in g.nodes ==> g.NodeOk(id);
  }

  lemma {:induction false} DerivedIsLegal(g: RawGraph, looping: bool)
    requires IsDerivedClass(g, looping)
    ensures IsLinked(g) && Conforms(g)
  {
    DerivedIsLinked(g, looping);
    assert EndsInCompound(g, Some(3));
    forall id | id in g.nodes ensures NodeConforms(g, id) {
    }
  }

  /** Index 1 names p in D. */
  lemma {:induction false} IndexNamesPointer(g: Graph)
    requires IsDerivedClass(g, false)
    ensures IsSlotWay(g, 0, {}, [1]) && IsIndexWay(g, 0, {}, [1], [1]) && Target(g, 0, {}, [1]) == 2
    ensures Covers(g, 0, {}, [1], 16) && Resolve(g, 0, [1]).member == Some(2)
  {
    NoEmptyBase(g);
    hide EmptyPositions, Unvisited;
    assert IsWay(g, 0, {}, [1]);
    assert IsNamed(g, 0, 1, 1);
    IndexWayIsResolved(g, 0, {}, [1], [1]);
    hide Resolve;
  }

  /** So does byte 16. */
  lemma {:induction false} ByteNamesPointer(g: Graph)
    requires IsDerivedClass(g, false)
    ensures SearchType(g, 16, Some(0), {}, START).candidate == Some(2)
  {
    PairSearch(g, 0, 1, 2, 16, {}, START);
    PairSearch(g, 3, 4, 6, 16, {0}, START);
    SilentScalar(g, 16, 4, 7, {0} + {3}, START);
    SilentScalar(g, 16, 6, 7, {0} + {3}, START);
    hide SearchType;
    assert {} + {0} == {0} && VisitMember(g, 16, 1, START) == (START, true);
    assert VisitMember(g, 16, 2, START).0.candidate == Some(2);
  }

  lemma {:induction false} NoEmptyBase(g: Graph)
    requires IsDerivedClass(g, false)
    ensures Element(g, 0, 0) == 1 && Element(g, 0, 1) == 2 && EmptyPositions(g, 0, 2) == {}
  {
    assert Element(g, 3, 0) == 4 && IsDataMember(g.nodes[4]);
    assert !LacksData(g, 1) && !LacksData(g, 2);
  }

  lemma {:induction false} DerivedHasOneMember(g: Graph, looping: bool)
    requires IsDerivedClass(g, looping)
    ensures HasOneMember(g, 0) && !HasOneMember(g, 3) && FirstElement(g, 0) == if looping then 8 else 1
  {
    assert CountMembers(g, 3, 0) == 0 && CountMembers(g, 3, 1) == 1 && CountMembers(g, 3, 2) == 2;
    assert CountMembers(g, 0, 0) == 0 && CountMembers(g, 0, 1) == 0;
    assert CountMembers(g, 0, 2) == if looping then 0 else 1;
    assert looping ==> CountMembers(g, 0, 3) == 1;
  }

  lemma {:induction false} DerivedSkips(g: Graph, looping: bool)
    requires IsDerivedClass(g, looping)
    ensures SkipOnce(g, 0) == Some(if looping then 0 else 3) && SkipOnce(g, 3) == None
  {
    DerivedHasOneMember(g, looping);
    assert UnlessPointer(g, Some(3)) == Some(3) && UnlessPointer(g, Some(0)) == Some(0);
    hide HasOneMember, FirstElement;
  }

  /** But D has one member, so the entry point skips to B, where index 1 is b. */
  lemma {:induction false} SkipLeavesDerivedClass(g: Graph)
    requires IsDerivedClass(g, false)
    ensures SkipAll(g, 0, {}) == Some(3)
    ensures ByIndices(g, 0, GepIndices([1], true, false, false)) == Some(GepIndexToType(Some(7), Some(6)))
  {
    DerivedSkips(g, false);
    assert SkipAll(g, 3, {} + {0}) == Some(3);
    hide SkipOnce;
    assert Element(g, 3, 1) == 6 && EmptyBases(g, 3, 0) == 0 && EmptyBases(g, 3, 1) == 0 && EmptyBases(g, 3, 2) == 0;
    assert Pick(g, 3, 1) == Some(6) && UnlessPointer(g, Some(7)) == Some(7);
  }

  /** With a static member of its own type behind the base class, the entry point does not end. */
  lemma {:induction false} SkipComesBack(g: Graph)
    requires IsDerivedClass(g, true)
    ensures IsEndless(g, 0) && ByIndices(g, 0, GepIndices([1], true, false, false)) == None
  {
    DerivedSkips(g, true);
    assert SkipAll(g, 0, {} + {0}) == None;
    SkipEndsExactlyAt(g, 0, 0);
  }
}
