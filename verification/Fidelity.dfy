/** The main result about the parser: a walk finishes with the denotation of its type if and only if the type is
    Faithful. The two failing families are void reached through anything but a pointer, and a base class visited
    right after an enumerator. */
module Fidelity {
  import opened Wrappers
  import opened TypeTree
  import opened TypeGraph
  import opened ParseState
  import opened Walk
  import opened Denotation
  import opened ChainLemmas

  /** What an enumerator leaves in `current_`: only its own member data. */
  predicate IsEnumLeftover(m: Meta) {
    m.trail == CLEAN.trail && m.place.isMember && !m.place.isStatic && !m.place.isBaseClass &&
    !m.isRecurring && !m.isForwardDecl
  }

  predicate IsLeftover(m: Meta, afterEnumerator: bool) {
    if afterEnumerator then IsEnumLeftover(m) else m == CLEAN
  }

  // ---- Faithful types are read correctly ----------------------------------------------------------------------

  lemma {:induction false} ContainsExactly(s: string, part: string)
    requires part != ""
    ensures Contains(s, part) <==> exists i :: 0 <= i <= |s| && HasAt(s, i, part)
    decreases |s|
  {
    if |part| <= |s| {
      ContainsExactly(s[1..], part);
      if i :| 0 <= i <= |s[1..]| && HasAt(s[1..], i, part) {
        assert s[1..][i..i + |part|] == s[i + 1..i + 1 + |part|];
        assert HasAt(s, i + 1, part);
      }
      if i :| 0 <= i <= |s| && HasAt(s, i, part) {
        if i == 0 {
          assert s[..|part|] == part;
        } else {
          assert s[1..][i - 1..i - 1 + |part|] == s[i..i + |part|];
          assert HasAt(s[1..], i - 1, part);
        }
      }
      if s[..|part|] == part {
        assert HasAt(s, 0, part);
      }
    }
  }

  /** The metadata at the end of a chain. */
  function AtEnd(g: Graph, t: Option<Id>, cur: Meta): Meta
    requires g.TypeOk(t)
  {
    cur.(trail := AddLinks(g, cur.trail, Links(g, t)))
  }

  /** What it says, whatever the end adds. */
  lemma {:induction false} EndInfo(g: Graph, t: Option<Id>, cur: Meta, use: Use, ty: Option<Id>, fwd: bool, rec: bool)
    requires g.TypeOk(t) && FreshFor(cur, use)
    ensures var m := AtEnd(g, t, cur);
            m.trail.derivedSize == DerivedBytes(Links(g, t), use.ownSize) && m.place == cur.place &&
            !m.isForwardDecl && !m.isRecurring &&
            MakeInfo(m.(ty := ty, isForwardDecl := fwd, isRecurring := rec)) == Info(g, Links(g, t), use, fwd, rec)
  {
    ChainInfo(g, t, cur, use);
    hide MakeInfo, Info, Links, AddLinks;
  }

  /** A basic type, string or function is built as its node and its position say. */
  lemma {:induction false} LeafIsDenoted(g: Graph, t: Option<Id>, path: set<Id>, cur: Meta, use: Use)
    requires g.TypeOk(t) && EndOf(g, t).TypeEnd? && !g.nodes[EndOf(g, t).id].Composite? && FreshFor(cur, use)
    ensures var o := WalkEnd(g, EndOf(g, t).id, path, AtEnd(g, t, cur));
            o.cur == CLEAN && o.item.Some? && o.item.value.meta.place == cur.place &&
            o.item.value.qt == Denote(g, t, path, use)
  {
    hide MakeInfo, Info, Links, DerivedBytes, Contains, AtEnd, AddLinks;
    var id := EndOf(g, t).id;
    var m := AtEnd(g, t, cur);
    EndInfo(g, t, cur, use, Some(id), false, false);
    assert m.(ty := Some(id), isForwardDecl := false, isRecurring := false) == m.(ty := Some(id));
    hide EndOf;
    if g.nodes[id].Basic? {
      ContainsExactly(g.nodes[id].name, "nullptr");
    }
  }

  /** So is a compound, if its elements are. */
  lemma {:induction false} CompoundIsDenoted(g: Graph, t: Option<Id>, path: set<Id>, cur: Meta, use: Use)
    requires g.TypeOk(t) && EndOf(g, t).TypeEnd? && IsCompound(g.nodes[EndOf(g, t).id]) && FreshFor(cur, use)
    requires var id := EndOf(g, t).id;
             var n := |g.nodes[id].elements|;
             id !in path ==> WalkElements(g, id, n, path).compound == DenoteCompound(g, id, n, path)
    ensures var id := EndOf(g, t).id;
            var o := WalkEnd(g, id, path, AtEnd(g, t, cur));
            o.cur == (if id in path then CLEAN else WalkElements(g, id, |g.nodes[id].elements|, path).cur) &&
            o.item.Some? && o.item.value.meta.place == cur.place && o.item.value.qt == Denote(g, t, path, use)
  {
    hide MakeInfo, Info, Links, WalkElements, DenoteCompound, AtEnd, EndOf;
    var id := EndOf(g, t).id;
    var n := g.nodes[id];
    var m := AtEnd(g, t, cur);
    EndInfo(g, t, cur, use, Some(id), n.isForwardDecl, id in path);
    var inner := CompoundMeta(if id in path then m.(isRecurring := true) else m, id, n);
    assert inner == m.(ty := Some(id), isForwardDecl := n.isForwardDecl, isRecurring := id in path);
  }

  lemma {:induction false} FaithfulTypeIsDenoted(g: Graph, t: Option<Id>, path: set<Id>, cur: Meta, use: Use)
    requires Conforms(g) && g.TypeOk(t) && Faithful(g, t, path) && FreshFor(cur, use)
    ensures var o := WalkType(g, t, path, cur);
            o.item.Some? && o.item.value.meta.place == cur.place &&
            o.item.value.qt == Denote(g, t, path, use) &&
            IsLeftover(o.cur, LeavesEnumerator(g, t, path))
    decreases Unvisited(g, path), 1, 0
  {
    hide MakeInfo, Info, Conforms, WalkElements, DenoteCompound;
    var links := Links(g, t);
    var m := AtEnd(g, t, cur);
    WalkFollowsChain(g, t, path, cur);
    EndInfo(g, t, cur, use, m.ty, false, false);
    hide Links, AddLinks, WalkType;
    assert m == m.(ty := m.ty, isForwardDecl := false, isRecurring := false);
    match EndOf(g, t)
    case VoidEnd =>
      VoidIsInnermost(links, 0);
    case VtableEnd(ptr) =>
    case TypeEnd(id) =>
      if IsCompound(g.nodes[id]) {
        if id !in path {
          FaithfulElementsAreDenoted(g, id, |g.nodes[id].elements|, path);
        }
        hide WalkEnd, Denote;
        CompoundIsDenoted(g, t, path, cur, use);
      } else {
        hide WalkEnd, Denote;
        LeafIsDenoted(g, t, path, cur, use);
      }
  }

  lemma {:induction false} VoidIsInnermost(links: seq<Node>, d: nat)
    requires links != [] && IsVoidPointer(links[|links| - 1])
    ensures PointerBytes(links, d) == links[|links| - 1].sizeBits / 8
    decreases |links|
  {
    if |links| > 1 {
      VoidIsInnermost(links[1..], if links[0].Derived? && links[0].tag == PointerTag then links[0].sizeBits / 8 else d);
    }
  }

  lemma {:induction false} FaithfulElementsAreDenoted(g: Graph, c: Id, n: nat, path: set<Id>)
    requires Conforms(g) && g.TypeOk(Some(c)) && IsCompound(g.nodes[c]) && c !in path && n <= |g.nodes[c].elements|
    requires FaithfulElements(g, c, n, path)
    ensures var b := WalkElements(g, c, n, path);
            b.compound == DenoteCompound(g, c, n, path) && IsLeftover(b.cur, EndsWithEnumerator(g, c, n, path))
    decreases Unvisited(g, path), 0, n
  {
    hide MakeInfo, Info, FundamentalExtent;
    if n > 0 {
      FaithfulElementsAreDenoted(g, c, n - 1, path);
      assert FaithfulElement(g, c, n - 1, path);
      var e := g.nodes[c].elements[n - 1];
      assert g.NodeOk(c) && g.ElementOk(g.nodes[c], e);
      var node := g.nodes[e];
      if node.Derived? {
        UnvisitedShrinks(g, path, c);
        DerivedElementIsDenoted(g, c, n, path);
      } else if node.Enumerator? {
        EnumeratorIsDenoted(g, c, n, path);
      }
    }
  }

  /** One more member or base class, on both sides. */
  lemma {:induction false} DerivedElementAdds(g: Graph, c: Id, n: nat, path: set<Id>)
    requires g.TypeOk(Some(c)) && IsCompound(g.nodes[c]) && c !in path && 0 < n <= |g.nodes[c].elements|
    requires g.nodes[c].elements[n - 1] in g.nodes && g.nodes[g.nodes[c].elements[n - 1]].Derived?
    ensures var e := g.nodes[c].elements[n - 1];
            var prev := WalkElements(g, c, n - 1, path);
            var o := WalkType(g, ElementType(g, e), path + {c}, DerivedMeta(prev.cur, g.nodes[e]));
            WalkElements(g, c, n, path).cur == o.cur &&
            WalkElements(g, c, n, path).compound
            == (if o.item.Some? then FileItem(prev.compound, o.item.value) else prev.compound)
    ensures var e := g.nodes[c].elements[n - 1];
            DenoteCompound(g, c, n, path)
            == AddElement(DenoteCompound(g, c, n - 1, path), g.nodes[e],
                          Denote(g, ElementType(g, e), path + {c}, UseOf(g.nodes[e])))
    ensures var e := g.nodes[c].elements[n - 1];
            EndsWithEnumerator(g, c, n, path) == LeavesEnumerator(g, ElementType(g, e), path + {c})
  {
    hide MakeInfo, Info, FundamentalExtent, WalkType, WalkEnd, Denote, MakeCompound, FileItem, AddElement,
      LeavesEnumerator, DerivedMeta;
    assert g.NodeOk(c) && g.ElementOk(g.nodes[c], g.nodes[c].elements[n - 1]);
  }

  lemma {:induction false} DerivedElementIsDenoted(g: Graph, c: Id, n: nat, path: set<Id>)
    requires Conforms(g) && g.TypeOk(Some(c)) && IsCompound(g.nodes[c]) && c !in path && 0 < n <= |g.nodes[c].elements|
    requires FaithfulElement(g, c, n - 1, path)
    requires g.nodes[c].elements[n - 1] in g.nodes && g.nodes[g.nodes[c].elements[n - 1]].Derived?
    requires var b := WalkElements(g, c, n - 1, path);
             b.compound == DenoteCompound(g, c, n - 1, path) && IsLeftover(b.cur, EndsWithEnumerator(g, c, n - 1, path))
    ensures var b := WalkElements(g, c, n, path);
            b.compound == DenoteCompound(g, c, n, path) && IsLeftover(b.cur, EndsWithEnumerator(g, c, n, path))
    decreases Unvisited(g, path), 0, n, 0
  {
    hide MakeInfo, Info, FundamentalExtent, WalkType, WalkEnd, Denote, Faithful, WalkElements, DenoteCompound,
      EndsWithEnumerator, LeavesEnumerator;
    var e := g.nodes[c].elements[n - 1];
    assert g.NodeOk(c) && g.ElementOk(g.nodes[c], e);
    var node := g.nodes[e];
    UnvisitedShrinks(g, path, c);
    DerivedElementAdds(g, c, n, path);
    var prev := WalkElements(g, c, n - 1, path);
    var cur := DerivedMeta(prev.cur, node);
    LeftoverIsFresh(prev.cur, node);
    FaithfulTypeIsDenoted(g, ElementType(g, e), path + {c}, cur, UseOf(node));
    hide FileItem, AddElement, DerivedMeta, FreshFor;
    FiledAsDenoted(prev.compound, node, WalkType(g, ElementType(g, e), path + {c}, cur).item.value,
                   Denote(g, ElementType(g, e), path + {c}, UseOf(node)));
  }

  /** What is left over does not show in the next member, nor in the next base class unless an enumerator came last. */
  lemma {:induction false} LeftoverIsFresh(left: Meta, element: Node)
    requires IsMember(element) || IsInheritance(element)
    requires left == CLEAN || (IsEnumLeftover(left) && IsMember(element))
    ensures FreshFor(DerivedMeta(left, element), UseOf(element))
    ensures IsPlaceOf(DerivedMeta(left, element).place, element)
  {
  }

  /** The place says what the element says. */
  predicate IsPlaceOf(p: Place, element: Node) {
    if IsMember(element) then
      p.isMember && p.isStatic == element.isStatic && p.name == element.name &&
      p.offset == element.offsetBits / 8 && p.size == element.sizeBits / 8
    else IsInheritance(element) && !p.isMember && p.isBaseClass && p.offset == element.offsetBits / 8
  }

  lemma {:induction false} FiledAsDenoted(c: Compound, element: Node, item: Item, qt: QualifiedType)
    requires IsPlaceOf(item.meta.place, element) && item.qt == qt
    ensures element.Derived? && FileItem(c, item) == AddElement(c, element, qt)
  {
  }

  lemma {:induction false} CompoundEnd(g: Graph, t: Option<Id>)
    requires g.TypeOk(t) && EndsInCompound(g, t)
    ensures EndOf(g, t).TypeEnd? && IsCompound(g.nodes[EndOf(g, t).id])
    decreases Rank(g, t)
  {
    if !IsCompound(g.nodes[t.value]) {
      CompoundEnd(g, Follow(g, t.value));
    }
  }

  /** However many enumerators there are, an enumeration has at most one offset and one size. */
  lemma {:induction false} EnumShape(g: Graph, c: Id, n: nat, path: set<Id>)
    requires g.TypeOk(Some(c)) && IsEnum(g.nodes[c]) && c !in path && n <= |g.nodes[c].elements|
    ensures var d := DenoteCompound(g, c, n, path);
            g.NodeOk(c) &&
            var base := EnumBase(g, g.nodes[c].baseType);
            (d.offsets == [] && d.sizes == []) ||
            (base.Some? && d.offsets == [0] && d.sizes == [base.value.1.sizeBits / 8])
  {
    assert g.NodeOk(c);
    if n > 0 {
      assert g.ElementOk(g.nodes[c], g.nodes[c].elements[n - 1]);
      EnumShape(g, c, n - 1, path);
    }
  }

  lemma {:induction false} EnumeratorIsDenoted(g: Graph, c: Id, n: nat, path: set<Id>)
    requires Conforms(g) && g.TypeOk(Some(c)) && IsCompound(g.nodes[c]) && c !in path && 0 < n <= |g.nodes[c].elements|
    requires g.nodes[c].elements[n - 1] in g.nodes && g.nodes[g.nodes[c].elements[n - 1]].Enumerator?
    requires var b := WalkElements(g, c, n - 1, path);
             b.compound == DenoteCompound(g, c, n - 1, path) && IsLeftover(b.cur, EndsWithEnumerator(g, c, n - 1, path))
    ensures var b := WalkElements(g, c, n, path);
            b.compound == DenoteCompound(g, c, n, path) && IsEnumLeftover(b.cur)
  {
    assert g.NodeOk(c) && g.ElementOk(g.nodes[c], g.nodes[c].elements[n - 1]) && NodeConforms(g, c);
    EnumShape(g, c, n - 1, path);
    BasicHasBase(g, g.nodes[c].baseType);
    var prev := WalkElements(g, c, n - 1, path);
    var base := EnumBase(g, g.nodes[c].baseType).value;
    var m := EnumeratorMeta(prev.cur, g.nodes[g.nodes[c].elements[n - 1]].name, base.0, base.1.sizeBits);
    assert MakeInfo(m) == NO_INFO && EnumeratorType(m, base.1) == EnumeratorDenotation(base.1);
    WalkOfOther(g, c, n, path);
    hide WalkElements, EnumeratorType, EnumeratorDenotation, MakeInfo, WalkType, Denote, EndsWithEnumerator;
  }

  // ---- Other types are not ------------------------------------------------------------------------------------

  function Total(c: Compound): nat { |c.members| + |c.staticMembers| + |c.bases| }

  predicate DifferAt<T(==)>(a: seq<T>, d: seq<T>, i: nat) { i < |a| && i < |d| && a[i] != d[i] }

  /** A difference that further elements cannot undo. */
  ghost predicate Apart(a: Compound, d: Compound) {
    |a.bases| < |d.bases| || Total(a) < Total(d) ||
    (exists i :: DifferAt(a.members, d.members, i)) ||
    (exists i :: DifferAt(a.staticMembers, d.staticMembers, i)) ||
    (exists i :: DifferAt(a.bases, d.bases, i))
  }

  predicate Prefixed(a: Compound, b: Compound) {
    a.members <= b.members && a.staticMembers <= b.staticMembers && a.bases <= b.bases
  }

  lemma {:induction false} ApartPersists(a: Compound, d: Compound, a': Compound, d': Compound)
    requires Apart(a, d) && Prefixed(a, a') && Prefixed(d, d')
    requires |a'.bases| - |a.bases| <= |d'.bases| - |d.bases| && Total(a') - Total(a) <= Total(d') - Total(d)
    ensures Apart(a', d')
  {
    if i :| DifferAt(a.members, d.members, i) {
      assert DifferAt(a'.members, d'.members, i);
    } else if i :| DifferAt(a.staticMembers, d.staticMembers, i) {
      assert DifferAt(a'.staticMembers, d'.staticMembers, i);
    } else if i :| DifferAt(a.bases, d.bases, i) {
      assert DifferAt(a'.bases, d'.bases, i);
    }
  }

  /** An element of compound `c` that adds an entry, and one that adds a base class. */
  predicate AddsEntry(g: Graph, e: Id) { e in g.nodes && (g.nodes[e].Derived? || g.nodes[e].Enumerator?) }

  predicate AddsBase(g: Graph, e: Id) { e in g.nodes && IsInheritance(g.nodes[e]) }

  function Count(b: bool): nat { if b then 1 else 0 }

  /** One element adds at most one entry to the walked compound, and a base class only where there is one. */
  lemma {:induction false} WalkAddsAtMost(g: Graph, c: Id, n: nat, path: set<Id>)
    requires g.TypeOk(Some(c)) && IsCompound(g.nodes[c]) && c !in path && 0 < n <= |g.nodes[c].elements|
    ensures var a, a' := WalkElements(g, c, n - 1, path).compound, WalkElements(g, c, n, path).compound;
            var e := g.nodes[c].elements[n - 1];
            Prefixed(a, a') && |a'.bases| <= |a.bases| + Count(AddsBase(g, e)) &&
            Total(a') <= Total(a) + Count(AddsEntry(g, e))
  {
    hide MakeInfo, MakeCompound, FundamentalExtent, WalkType, WalkEnd, EnumeratorType;
    var e := g.nodes[c].elements[n - 1];
    assert g.NodeOk(c) && g.ElementOk(g.nodes[c], e);
    if g.nodes[e].Derived? {
      WalkOfDerived(g, c, n, path);
      WalkKeepsPlace(g, ElementType(g, e), path + {c}, DerivedMeta(WalkElements(g, c, n - 1, path).cur, g.nodes[e]));
    } else {
      WalkOfOther(g, c, n, path);
    }
    hide WalkElements;
  }

  lemma {:induction false} DenotationAdds(g: Graph, c: Id, n: nat, path: set<Id>)
    requires Conforms(g) && g.TypeOk(Some(c)) && IsCompound(g.nodes[c]) && c !in path && 0 < n <= |g.nodes[c].elements|
    ensures var d, d' := DenoteCompound(g, c, n - 1, path), DenoteCompound(g, c, n, path);
            var e := g.nodes[c].elements[n - 1];
            Prefixed(d, d') && |d'.bases| == |d.bases| + Count(AddsBase(g, e)) &&
            Total(d') == Total(d) + Count(AddsEntry(g, e))
  {
    hide Info, MakeCompound, FundamentalExtent, EnumeratorDenotation;
    var e := g.nodes[c].elements[n - 1];
    assert g.NodeOk(c) && g.ElementOk(g.nodes[c], e) && NodeConforms(g, e) && NodeConforms(g, c);
    if IsInheritance(g.nodes[e]) {
      UnvisitedShrinks(g, path, c);
      CompoundEnd(g, ElementType(g, e));
    } else if g.nodes[e].Enumerator? {
      BasicHasBase(g, g.nodes[c].baseType);
    }
  }

  /** What an unfaithful type leaves in place of its denotation: nothing, or another compound. */
  predicate Misread(item: Option<Item>, qt: QualifiedType) {
    item.Some? ==> item.value.qt.HasCompound? && qt.HasCompound? && item.value.qt.compound.ty != qt.compound.ty
  }

  lemma {:induction false} UnfaithfulTypeIsMisread(g: Graph, t: Option<Id>, path: set<Id>, cur: Meta, use: Use)
    requires Conforms(g) && g.TypeOk(t) && !Faithful(g, t, path)
    ensures Misread(WalkType(g, t, path, cur).item, Denote(g, t, path, use))
    decreases Unvisited(g, path), 1, 0
  {
    hide MakeInfo, Info, FundamentalExtent;
    WalkFollowsChain(g, t, path, cur);
    if EndOf(g, t).TypeEnd? {
      var id := EndOf(g, t).id;
      UnfaithfulElementsStayApart(g, id, |g.nodes[id].elements|, path);
    }
  }

  lemma {:induction false} UnfaithfulElementsStayApart(g: Graph, c: Id, n: nat, path: set<Id>)
    requires Conforms(g) && g.TypeOk(Some(c)) && IsCompound(g.nodes[c]) && c !in path && n <= |g.nodes[c].elements|
    requires !FaithfulElements(g, c, n, path)
    ensures Apart(WalkElements(g, c, n, path).compound, DenoteCompound(g, c, n, path))
    decreases Unvisited(g, path), 0, n
  {
    hide MakeInfo, Info, FundamentalExtent, WalkElements, DenoteCompound;
    if !FaithfulElements(g, c, n - 1, path) {
      UnfaithfulElementsStayApart(g, c, n - 1, path);
      WalkAddsAtMost(g, c, n, path);
      DenotationAdds(g, c, n, path);
      ApartPersists(WalkElements(g, c, n - 1, path).compound, DenoteCompound(g, c, n - 1, path),
                    WalkElements(g, c, n, path).compound, DenoteCompound(g, c, n, path));
    } else {
      FaithfulElementsAreDenoted(g, c, n - 1, path);
      UnfaithfulElementSetsApart(g, c, n, path);
    }
  }

  /** The first unfaithful element: its type is misread, or a base class is filed as a member. */
  lemma {:induction false} UnfaithfulElementSetsApart(g: Graph, c: Id, n: nat, path: set<Id>)
    requires Conforms(g) && g.TypeOk(Some(c)) && IsCompound(g.nodes[c]) && c !in path && 0 < n <= |g.nodes[c].elements|
    requires !FaithfulElement(g, c, n - 1, path)
    requires var b := WalkElements(g, c, n - 1, path);
             b.compound == DenoteCompound(g, c, n - 1, path) && IsLeftover(b.cur, EndsWithEnumerator(g, c, n - 1, path))
    ensures Apart(WalkElements(g, c, n, path).compound, DenoteCompound(g, c, n, path))
    decreases Unvisited(g, path), 0, n, 0
  {
    hide MakeInfo, Info, FundamentalExtent, WalkType, WalkEnd, Denote, MakeCompound, Apart, WalkElements,
      DenoteCompound, EndsWithEnumerator, LeavesEnumerator, AddElement, FileItem, Conforms;
    var e := g.nodes[c].elements[n - 1];
    assert g.NodeOk(c) && g.ElementOk(g.nodes[c], e);
    var node := g.nodes[e];
    UnvisitedShrinks(g, path, c);
    var t := ElementType(g, e);
    var prev := WalkElements(g, c, n - 1, path);
    var cur := DerivedMeta(prev.cur, node);
    var item := WalkType(g, t, path + {c}, cur).item;
    var qt := Denote(g, t, path + {c}, UseOf(node));
    WalkKeepsPlace(g, t, path + {c}, cur);
    DerivedElementAdds(g, c, n, path);
    DenotationAdds(g, c, n, path);
    ElementPlace(prev.cur, node);
    hide DerivedMeta;
    if !Faithful(g, t, path + {c}) {
      UnfaithfulTypeIsMisread(g, t, path + {c}, cur, UseOf(node));
    }
    if item.None? || (cur.place.isMember && IsInheritance(node)) {
      if item.Some? {
        MemberAddsNoBase(prev.compound, item.value);
      }
      FewerIsApart(WalkElements(g, c, n, path).compound, DenoteCompound(g, c, n, path));
    } else {
      MisreadIsApart(prev.compound, node, cur.place, item.value, qt);
    }
  }

  lemma MemberAddsNoBase(c: Compound, item: Item)
    requires item.meta.place.isMember
    ensures FileItem(c, item).bases == c.bases
  {
  }

  /** Where an element is filed, also behind a leftover. */
  lemma {:induction false} ElementPlace(left: Meta, element: Node)
    requires element.Derived?
    ensures var p := DerivedMeta(left, element).place;
            (IsMember(element) ==> p.isMember && p.isStatic == element.isStatic) &&
            (IsInheritance(element) ==> p.isBaseClass && p.isMember == left.place.isMember)
  {
  }

  lemma {:induction false} FewerIsApart(a: Compound, d: Compound)
    requires |a.bases| < |d.bases| || Total(a) < Total(d)
    ensures Apart(a, d)
  {
  }

  /** A misread type is filed next to its denotation, where the two differ. */
  lemma {:induction false} MisreadIsApart(c: Compound, element: Node, p: Place, item: Item, qt: QualifiedType)
    requires (IsMember(element) && p.isMember && p.isStatic == element.isStatic)
          || (IsInheritance(element) && !p.isMember && p.isBaseClass)
    requires item.meta.place == p && Misread(Some(item), qt)
    ensures Apart(FileItem(c, item), AddElement(c, element, qt))
  {
    var a, d := FileItem(c, item), AddElement(c, element, qt);
    if IsInheritance(element) {
      assert DifferAt(a.bases, d.bases, |c.bases|);
    } else if element.isStatic {
      assert DifferAt(a.staticMembers, d.staticMembers, |c.staticMembers|);
    } else {
      assert DifferAt(a.members, d.members, |c.members|);
    }
  }

  // ---- Both directions ----------------------------------------------------------------------------------------

  /** Started on fresh metadata, a walk finishes with the denotation exactly for the faithful types. */
  lemma {:induction false} WalkDenotesExactlyFaithful(g: Graph, t: Option<Id>, path: set<Id>, cur: Meta, use: Use)
    requires Conforms(g) && g.TypeOk(t) && FreshFor(cur, use)
    ensures var item := WalkType(g, t, path, cur).item;
            (item.Some? && item.value.qt == Denote(g, t, path, use)) <==> Faithful(g, t, path)
  {
    if Faithful(g, t, path) {
      FaithfulTypeIsDenoted(g, t, path, cur, use);
    } else {
      UnfaithfulTypeIsMisread(g, t, path, cur, use);
    }
  }

  /** A base class right after an enumerator is filed as a member under the enumerator's name. */
  lemma {:induction false} BaseAfterEnumeratorIsMisfiled(g: Graph, c: Id, n: nat, path: set<Id>)
    requires Conforms(g) && g.TypeOk(Some(c)) && IsCompound(g.nodes[c]) && c !in path && 0 < n <= |g.nodes[c].elements|
    requires AddsBase(g, g.nodes[c].elements[n - 1])
    requires FaithfulElements(g, c, n - 1, path) && EndsWithEnumerator(g, c, n - 1, path)
    ensures var prev, b := WalkElements(g, c, n - 1, path), WalkElements(g, c, n, path);
            var k := |prev.compound.members|;
            b.compound.bases == prev.compound.bases && |b.compound.members| == k + 1 &&
            b.compound.members[k].name == prev.cur.place.name && b.compound.members[k].member.HasCompound?
  {
    hide MakeInfo, WalkType, WalkEnd, MakeCompound;
    FaithfulElementsAreDenoted(g, c, n - 1, path);
    var e := g.nodes[c].elements[n - 1];
    assert g.NodeOk(c) && g.ElementOk(g.nodes[c], e) && NodeConforms(g, e);
    UnvisitedShrinks(g, path, c);
    var cur := DerivedMeta(WalkElements(g, c, n - 1, path).cur, g.nodes[e]);
    WalkKeepsPlace(g, ElementType(g, e), path + {c}, cur);
    WalkOfCompound(g, ElementType(g, e), path + {c}, cur);
  }
}
