/** The shape of everything that the parser puts out, faithful or not, and of every denoted type: nesting is bounded
    although the graph is cyclic, recurring compounds are empty, the parallel lists of a compound have matching lengths,
    and exactly the base classes without data are flagged. */
module OutputShape {
  import opened Wrappers
  import opened TypeTree
  import opened TypeGraph
  import opened ParseState
  import opened Walk
  import opened Denotation

  /** Offsets and sizes run parallel to the members; an enumeration has at most one of each. */
  predicate IsBalanced(c: Compound) {
    |c.offsets| == |c.sizes| &&
    if c.tag == EnumCompound then |c.offsets| <= 1 && c.bases == [] && c.staticMembers == []
    else |c.offsets| == |c.members|
  }

  predicate IsBare(c: Compound) {
    c.offsets == [] && c.sizes == [] && c.bases == [] && c.members == [] && c.staticMembers == []
  }

  /** A base class is flagged as empty exactly if it takes one byte and has no members. */
  predicate IsFlagged(b: BaseClass) { b.isEmptyBaseClass <==> b.base.ty.extent == 1 && b.base.ty.members == [] }

  /** Compounds nest at most `depth` deep; each is balanced, and bare if it is flagged as recurring. */
  ghost predicate WellShaped(qt: QualifiedType, depth: nat)
    decreases depth, 0
  {
    qt.HasCompound? ==>
      depth > 0 &&
      var c := qt.compound.ty;
      IsBalanced(c) && (qt.compound.info.isRecurring ==> IsBare(c)) && EntriesShaped(c, depth - 1)
  }

  ghost predicate EntriesShaped(c: Compound, depth: nat)
    decreases depth, 1
  {
    (forall m :: m in c.members ==> WellShaped(m.member, depth)) &&
    (forall m :: m in c.staticMembers ==> WellShaped(m.member, depth)) &&
    (forall b :: b in c.bases ==> WellShaped(HasCompound(b.base), depth) && IsFlagged(b))
  }

  /** Below the path, at most the compounds that are not on it can nest, plus one recurring one; a compound is flagged
      recurring exactly when it is on the path. */
  lemma {:induction false} DenotationIsWellShaped(g: Graph, t: Option<Id>, path: set<Id>, use: Use)
    requires Conforms(g) && g.TypeOk(t)
    ensures var qt := Denote(g, t, path, use);
            WellShaped(qt, Unvisited(g, path) + 1) &&
            (qt.HasCompound? ==> EndOf(g, t).TypeEnd? && (qt.compound.info.isRecurring <==> EndOf(g, t).id in path))
    decreases Unvisited(g, path), 1, 0
  {
    hide FundamentalExtent;
    if EndOf(g, t).TypeEnd? && IsCompound(g.nodes[EndOf(g, t).id]) {
      var id := EndOf(g, t).id;
      if id !in path {
        ElementsAreWellShaped(g, id, |g.nodes[id].elements|, path);
      }
    }
  }

  lemma {:induction false} AddedIsShaped(c: Compound, element: Node, qt: QualifiedType, depth: nat)
    requires element.Derived? && IsBalanced(c) && c.tag != EnumCompound && EntriesShaped(c, depth) &&
             WellShaped(qt, depth)
    ensures var d := AddElement(c, element, qt); IsBalanced(d) && EntriesShaped(d, depth) && d.tag == c.tag
  {
    hide WellShaped;
  }

  lemma {:induction false} ElementsAreWellShaped(g: Graph, c: Id, n: nat, path: set<Id>)
    requires Conforms(g) && g.TypeOk(Some(c)) && IsCompound(g.nodes[c]) && c !in path && n <= |g.nodes[c].elements|
    ensures var d := DenoteCompound(g, c, n, path);
            IsBalanced(d) && EntriesShaped(d, Unvisited(g, path)) &&
            (d.tag == EnumCompound <==> g.nodes[c].tag == EnumTag)
    decreases Unvisited(g, path), 0, n
  {
    hide Denote, Conforms;
    if n > 0 {
      ElementsAreWellShaped(g, c, n - 1, path);
      var e := g.nodes[c].elements[n - 1];
      assert g.NodeOk(c) && g.ElementOk(g.nodes[c], e);
      if g.nodes[e].Derived? {
        UnvisitedShrinks(g, path, c);
        var qt := Denote(g, ElementType(g, e), path + {c}, UseOf(g.nodes[e]));
        DenotationIsWellShaped(g, ElementType(g, e), path + {c}, UseOf(g.nodes[e]));
        DeeperIsFine(qt, Unvisited(g, path + {c}) + 1, Unvisited(g, path));
        hide WellShaped, EntriesShaped, IsBalanced, AddElement;
        AddedIsShaped(DenoteCompound(g, c, n - 1, path), g.nodes[e], qt, Unvisited(g, path));
      } else {
        hide WellShaped, EntriesShaped, IsBalanced;
        OtherIsShaped(g, c, n, path);
      }
    }
  }

  /** An enumerator, or an element that adds nothing. */
  lemma {:induction false} OtherIsShaped(g: Graph, c: Id, n: nat, path: set<Id>)
    requires g.TypeOk(Some(c)) && IsCompound(g.nodes[c]) && c !in path && 0 < n <= |g.nodes[c].elements|
    requires g.nodes[c].elements[n - 1] in g.nodes && !g.nodes[g.nodes[c].elements[n - 1]].Derived?
    ensures var was, d := DenoteCompound(g, c, n - 1, path), DenoteCompound(g, c, n, path);
            d.tag == was.tag && (IsBalanced(was) && (was.tag == EnumCompound <==> g.nodes[c].tag == EnumTag) ==>
              IsBalanced(d)) &&
            (EntriesShaped(was, Unvisited(g, path)) ==> EntriesShaped(d, Unvisited(g, path)))
  {
    hide Denote;
    assert g.NodeOk(c) && g.ElementOk(g.nodes[c], g.nodes[c].elements[n - 1]);
  }

  lemma {:induction false} DeeperIsFine(qt: QualifiedType, depth: nat, more: nat)
    requires WellShaped(qt, depth) && depth <= more
    ensures WellShaped(qt, more)
    decreases depth
  {
    if qt.HasCompound? {
      var c := qt.compound.ty;
      forall m | m in c.members {
        DeeperIsFine(m.member, depth - 1, more - 1);
      }
      forall m | m in c.staticMembers {
        DeeperIsFine(m.member, depth - 1, more - 1);
      }
      forall b | b in c.bases {
        DeeperIsFine(HasCompound(b.base), depth - 1, more - 1);
      }
    }
  }

  /** The parser keeps every open compound balanced, also while it reads a type that it does not read correctly. */
  lemma {:induction false} OpenCompoundIsBalanced(g: Graph, c: Id, n: nat, vis: set<Id>)
    requires g.TypeOk(Some(c)) && IsCompound(g.nodes[c]) && c !in vis && n <= |g.nodes[c].elements|
    ensures var a := WalkElements(g, c, n, vis).compound;
            IsBalanced(a) && (a.tag == EnumCompound <==> g.nodes[c].tag == EnumTag)
    ensures IsEnum(g.nodes[c]) ==> !WalkElements(g, c, n, vis).cur.place.isStatic
  {
    if n > 0 {
      OpenCompoundIsBalanced(g, c, n - 1, vis);
      var e := g.nodes[c].elements[n - 1];
      assert g.NodeOk(c) && g.ElementOk(g.nodes[c], e);
      if g.nodes[e].Derived? {
        WalkOfDerived(g, c, n, vis);
      } else {
        WalkOfOther(g, c, n, vis);
      }
      hide WalkType, WalkElements, EnumeratorType;
    }
  }

  // ---- What the parser puts out -------------------------------------------------------------------------------

  /** What a walk leaves: nesting is bounded, recurring compounds are bare, and a function type below a vtable pointer
      is no compound. */
  ghost predicate LeavesShaped(g: Graph, t: Option<Id>, path: set<Id>, o: Outcome)
    requires g.TypeOk(t)
  {
    !o.cur.isRecurring && (o.stray.Some? ==> o.stray.value.HasFundamental?) &&
    (o.item.Some? ==> WellShaped(o.item.value.qt, Unvisited(g, path) + 1)) &&
    (o.item.Some? && o.item.value.qt.HasCompound? ==>
       EndOf(g, t).TypeEnd? && (o.item.value.qt.compound.info.isRecurring <==> EndOf(g, t).id in path))
  }

  /** Every type that the parser finishes is well shaped, faithful or not: compounds nest at most as deep as there are
      compounds off the path, plus one, and one is flagged as recurring exactly if it is on the path. */
  lemma {:induction false} WalkIsWellShaped(g: Graph, t: Option<Id>, path: set<Id>, cur: Meta)
    requires g.TypeOk(t) && !cur.isRecurring
    ensures LeavesShaped(g, t, path, WalkType(g, t, path, cur))
    decreases Unvisited(g, path), 1, Rank(g, t)
  {
    hide FundamentalExtent;
    if t.Some? {
      var n := g.nodes[t.value];
      if IsLink(n) {
        WalkIsWellShaped(g, Follow(g, t.value), path, cur.(trail := LinkTrail(g, cur.trail, n)));
      } else if IsCompound(n) && t.value !in path {
        BodyIsWellShaped(g, t.value, |n.elements|, path);
        OpenCompoundIsBalanced(g, t.value, |n.elements|, path);
      } else if n.Derived? {
        VtableItself(g, t.value, path, cur);
      } else {
        assert WalkType(g, t, path, cur) == WalkEnd(g, t.value, path, cur);
        assert IsCompound(n) ==> IsBalanced(MakeCompound(n)) && EntriesShaped(MakeCompound(n), Unvisited(g, path));
      }
    }
  }

  lemma {:induction false} VtableItself(g: Graph, id: Id, path: set<Id>, cur: Meta)
    requires g.TypeOk(Some(id)) && g.nodes[id].Derived? && !IsLink(g.nodes[id])
    ensures LeavesShaped(g, Some(id), path, WalkType(g, Some(id), path, cur))
  {
    hide MakeInfo, FundamentalExtent;
    assert g.NodeOk(id);
    if IsVtablePointer(g.nodes[id]) {
      var sub := g.nodes[id].baseType;
      assert WalkType(g, sub, path, CLEAN) == WalkEnd(g, sub.value, path, CLEAN);
    }
  }

  lemma {:induction false} BodyIsWellShaped(g: Graph, c: Id, n: nat, path: set<Id>)
    requires g.TypeOk(Some(c)) && IsCompound(g.nodes[c]) && c !in path && n <= |g.nodes[c].elements|
    ensures var b := WalkElements(g, c, n, path);
            !b.cur.isRecurring && (b.stray.Some? ==> b.stray.value.HasFundamental?) &&
            EntriesShaped(b.compound, Unvisited(g, path))
    decreases Unvisited(g, path), 0, n
  {
    hide WalkType, WalkEnd, MakeInfo, EnumeratorType, WellShaped, FileItem, AddEnumerator, EnumeratorMeta;
    if n > 0 {
      BodyIsWellShaped(g, c, n - 1, path);
      var prev := WalkElements(g, c, n - 1, path);
      var e := g.nodes[c].elements[n - 1];
      assert g.NodeOk(c) && g.ElementOk(g.nodes[c], e);
      if g.nodes[e].Derived? {
        UnvisitedShrinks(g, path, c);
        WalkOfDerived(g, c, n, path);
        hide WalkElements;
        var cur := DerivedMeta(prev.cur, g.nodes[e]);
        var o := WalkType(g, ElementType(g, e), path + {c}, cur);
        WalkIsWellShaped(g, ElementType(g, e), path + {c}, cur);
        if o.item.Some? {
          DeeperIsFine(o.item.value.qt, Unvisited(g, path + {c}) + 1, Unvisited(g, path));
          FiledIsShaped(prev.compound, o.item.value, Unvisited(g, path));
        }
      } else {
        WalkOfOther(g, c, n, path);
        hide WalkElements;
        if g.nodes[e].Enumerator? && EnumBase(g, g.nodes[c].baseType).Some? {
          var base := EnumBase(g, g.nodes[c].baseType).value;
          EnumeratorIsShaped(prev, g.nodes[e].name, base.0, base.1, Unvisited(g, path));
        }
      }
    }
  }

  lemma {:induction false} FiledIsShaped(c: Compound, item: Item, depth: nat)
    requires EntriesShaped(c, depth) && WellShaped(item.qt, depth)
    ensures EntriesShaped(FileItem(c, item), depth)
  {
    hide WellShaped;
  }

  lemma {:induction false} EnumeratorIsShaped(b: Body, name: string, ty: Id, base: Node, depth: nat)
    requires EntriesShaped(b.compound, depth) && base.Basic? && !b.cur.isRecurring
    ensures var m := EnumeratorMeta(b.cur, name, ty, base.sizeBits);
            EntriesShaped(AddEnumerator(b.compound, m.place, EnumeratorType(m, base)), depth) && !m.isRecurring
  {
  }

  /** The result of the parser nests at most as deep as there are compounds, plus one. */
  lemma {:induction false} ParsedIsWellShaped(g: Graph, t: Option<Id>)
    requires g.TypeOk(t)
    ensures WellShaped(Parsed(g, t), |g.Compounds()| + 1)
  {
    WalkIsWellShaped(g, t, {}, CLEAN);
    hide WalkType;
    assert g.Compounds() - {} == g.Compounds();
  }
}
