/** Finding the struct member at a byte offset: DestructureComposite of lib/type/DIUtil.cpp. The visitor descends into
    every member, matching or not, and never restores its offset base. */
module ByteOffset {
  import opened Wrappers
  import opened TypeGraph
  import opened Walk

  predicate IsNonStaticMember(n: Node) { n.Derived? && n.tag == MemberTag && !n.isStatic }

  predicate IsPointerLike(n: Node) {
    n.Derived? && (n.tag == ArrayTag || n.tag == ReferenceTag || n.tag == PointerTag || n.tag == PtrToMemberTag)
  }

  /** The search stops at a member of this type. */
  predicate IsTerminal(n: Node) { IsPointerLike(n) || IsArray(n) }

  /** `terminate`, `offset_base_` and the candidate member. */
  datatype Search = Search(offsetBase: nat, candidate: Option<Id>, terminate: bool)

  // ---- One traversal, as plain recursion ----------------------------------------------------------------------

  function SearchType(g: Graph, byte: nat, t: Option<Id>, vis: set<Id>, s: Search): Search
    requires g.TypeOk(t)
    decreases Unvisited(g, vis), Rank(g, t), 1, 0
  {
    if t.None? then s
    else
      var n := g.nodes[t.value];
      if n.Derived? then SearchType(g, byte, Follow(g, t.value), vis, s)
      else if !n.Composite? || t.value in vis || s.terminate then s
      else if IsArray(n) then SearchType(g, byte, Follow(g, t.value), vis, s)
      else SearchElements(g, byte, t.value, |n.elements|, vis, s)
  }

  function SearchElements(g: Graph, byte: nat, c: Id, n: nat, vis: set<Id>, s: Search): Search
    requires g.TypeOk(Some(c)) && IsCompound(g.nodes[c]) && c !in vis && n <= |g.nodes[c].elements|
    decreases Unvisited(g, vis), Rank(g, Some(c)), 0, n
  {
    if n == 0 then s
    else
      var prev := SearchElements(g, byte, c, n - 1, vis, s);
      var e := g.nodes[c].elements[n - 1];
      assert g.NodeOk(c) && g.ElementOk(g.nodes[c], e);
      UnvisitedShrinks(g, vis, c);
      SearchElement(g, byte, e, vis + {c}, prev)
  }

  function SearchElement(g: Graph, byte: nat, e: Id, vis: set<Id>, s: Search): Search
    requires e in g.nodes
    decreases Unvisited(g, vis), if g.nodes[e].Derived? then Rank(g, ElementType(g, e)) else 0, 2, 0
  {
    var n := g.nodes[e];
    if !n.Derived? then s
    else
      var s' := VisitMember(g, byte, e, s);
      if s'.1 then SearchType(g, byte, ElementType(g, e), vis, s'.0) else s'.0
  }

  /** visitDerivedType: the new state, and whether to descend. */
  function VisitMember(g: Graph, byte: nat, e: Id, s: Search): (Search, bool)
    requires e in g.nodes && g.nodes[e].Derived?
  {
    var n := g.nodes[e];
    var offset := s.offsetBase + n.offsetBits / 8;
    var t := ElementType(g, e);
    if !IsNonStaticMember(n) || !(offset <= byte < offset + n.sizeBits / 8) || t.None? then (s, true)
    else if IsTerminal(g.nodes[t.value]) then (s.(candidate := Some(e), terminate := true), false)
    else if g.nodes[t.value].Composite? then (s.(candidate := Some(e), offsetBase := offset), true)
    else (s.(candidate := Some(e)), true)
  }

  const START := Search(0, None, false)

  // ---- The visitor --------------------------------------------------------------------------------------------

  datatype StructMember = StructMember(member: Id, typeOfMember: Option<Id>)

  class DestructureComposite {
    const g: Graph
    const byteIndex: nat
    var visited: set<Id>
    var offsetBase: nat
    var outermostCandidate: Option<Id>
    var terminate: bool

    constructor (g: Graph, index: nat)
      ensures this.g == g && byteIndex == index && visited == {} && View() == START
    {
      this.g, byteIndex := g, index;
      visited, offsetBase, outermostCandidate, terminate := {}, 0, None, false;
    }

    function View(): Search
      reads this
    {
      Search(offsetBase, outermostCandidate, terminate)
    }

    method VisitDerivedType(e: Id) returns (descend: bool)
      requires e in g.nodes && g.nodes[e].Derived?
      modifies this`offsetBase, this`outermostCandidate, this`terminate
      ensures (View(), descend) == VisitMember(g, byteIndex, e, old(View()))
    {
      assert g.NodeOk(e);
      var derived := g.nodes[e];
      if !(derived.tag == MemberTag && !derived.isStatic) {
        return true;
      }
      var offset := offsetBase + derived.offsetBits / 8;
      var lowerBound := offset;
      var upperBound := offset + derived.sizeBits / 8;
      if byteIndex >= lowerBound && byteIndex < upperBound && derived.baseType.Some? {
        var memberType := g.nodes[derived.baseType.value];
        outermostCandidate := Some(e);
        if IsPointerLike(memberType) || IsArray(memberType) {
          terminate := true;
          return false;
        }
        if memberType.Composite? {
          offsetBase := offset;
        }
      }
      return true;
    }

    method TraverseType(t: Option<Id>)
      requires g.TypeOk(t) && Conforms(g)
      modifies this
      ensures visited == old(visited) && View() == SearchType(g, byteIndex, t, visited, old(View()))
      decreases Unvisited(g, visited), Rank(g, t), 3
    {
      if t == None {
        return;
      }
      if g.nodes[t.value].Derived? {
        RankDecreases(g, t.value);
        TraverseDerivedType(t.value);
        LinkSearch(g, byteIndex, t.value, visited, old(View()));
      } else if g.nodes[t.value].Composite? {
        TraverseCompositeType(t.value);
      }
    }

    method TraverseDerivedType(e: Id)
      requires e in g.nodes && g.nodes[e].Derived? && Conforms(g)
      modifies this
      ensures visited == old(visited) && View() == SearchElement(g, byteIndex, e, visited, old(View()))
      decreases Unvisited(g, visited), Rank(g, ElementType(g, e)), 4
    {
      var descend := VisitDerivedType(e);
      if !descend {
        return;
      }
      TraverseType(ElementType(g, e));
    }

    method TraverseCompositeType(c: Id)
      requires g.TypeOk(Some(c)) && g.nodes[c].Composite? && Conforms(g)
      modifies this
      ensures visited == old(visited) && View() == SearchType(g, byteIndex, Some(c), visited, old(View()))
      decreases Unvisited(g, visited), Rank(g, Some(c)), 2
    {
      if c in visited {
        return;
      }
      ghost var vis, s := visited, View();
      var isNotArray := g.nodes[c].tag != ArrayTag;
      assert g.NodeOk(c) && NodeConforms(g, c);
      RankDecreases(g, c);
      if isNotArray {
        UnvisitedShrinks(g, visited, c);
        visited := visited + {c};
      }
      // visitCompositeType
      if terminate {
        visited := visited - {c};
        assert visited == vis;
        return;
      }
      TraverseType(g.nodes[c].baseType);
      if isNotArray {
        EnumBaseIsSilent(g, byteIndex, g.nodes[c].baseType, visited, s);
        var elements := g.nodes[c].elements;
        for i := 0 to |elements|
          invariant visited == vis + {c}
          invariant View() == SearchElements(g, byteIndex, c, i, vis, s)
        {
          assert g.ElementOk(g.nodes[c], elements[i]);
          if g.nodes[elements[i]].Derived? {
            TraverseDerivedType(elements[i]);
          }
        }
      }
      visited := visited - {c};
      assert visited == vis;
    }
  }

  /** A modifier is a link of the chain and nothing more. */
  lemma {:induction false} LinkSearch(g: Graph, byte: nat, id: Id, vis: set<Id>, s: Search)
    requires g.TypeOk(Some(id)) && g.nodes[id].Derived?
    ensures SearchElement(g, byte, id, vis, s) == SearchType(g, byte, Some(id), vis, s)
  {
    assert ElementType(g, id) == Follow(g, id);
  }

  lemma {:induction false} EnumBaseIsSilent(g: Graph, byte: nat, t: Option<Id>, vis: set<Id>, s: Search)
    requires g.TypeOk(t) && (t.Some? ==> EndsInBasic(g, t))
    ensures SearchType(g, byte, t, vis, s) == s
    decreases Rank(g, t)
  {
    if t.Some? && g.nodes[t.value].Derived? {
      EnumBaseIsSilent(g, byte, Follow(g, t.value), vis, s);
    }
  }
}
