/** The metadata that the visitor accumulates along a chain, read back from the links of the chain. */
module ChainLemmas {
  import opened Wrappers
  import opened TypeTree
  import opened TypeGraph
  import opened ParseState
  import opened Walk
  import opened Denotation

  predicate IsChainLink(n: Node) { IsModifier(n) || IsArray(n) }

  function AddLink(g: Graph, t: Trail, n: Node): Trail {
    if IsArray(n) then SubrangesTrail(g, ArrayTrail(t, n), n.elements, |n.elements|)
    else if n.Derived? then DerivedTrail(t, n)
    else t
  }

  function AddLinks(g: Graph, t: Trail, links: seq<Node>): Trail
    decreases |links|
  {
    if links == [] then t else AddLinks(g, AddLink(g, t, links[0]), links[1..])
  }

  lemma {:induction false} LinksAreChainLinks(g: Graph, t: Option<Id>)
    requires g.TypeOk(t)
    ensures forall n :: n in Links(g, t) ==> IsChainLink(n)
    decreases Rank(g, t)
  {
    if t.Some? && (g.nodes[t.value].Derived? || IsArray(g.nodes[t.value])) {
      LinksAreChainLinks(g, Follow(g, t.value));
    }
  }

  /** A walk follows the links of its chain and then does what the end of the chain asks for. */
  lemma {:induction false} WalkFollowsChain(g: Graph, t: Option<Id>, vis: set<Id>, cur: Meta)
    requires g.TypeOk(t)
    ensures var o := WalkType(g, t, vis, cur);
            var links := Links(g, t);
            var m := cur.(trail := AddLinks(g, cur.trail, links));
            match EndOf(g, t)
            case VoidEnd =>
              o.stray == None &&
              if links != [] && IsVoidPointer(links[|links| - 1]) then
                o.cur == CLEAN && o.item.Some? && o.item.value.meta.place == cur.place &&
                o.item.value.qt == MakeFundamental(m, "void", links[|links| - 1].sizeBits, VoidEnc)
              else o.item == None
            case VtableEnd(ptr) =>
              o.cur == CLEAN && o.item.Some? && o.item.value.meta.place == cur.place &&
              o.item.value.qt == MakeFundamental(m, ptr.name, ptr.sizeBits, VtablePtrEnc)
            case TypeEnd(id) => o == WalkEnd(g, id, vis, m)
    decreases Rank(g, t)
  {
    hide MakeInfo, FundamentalExtent;
    if t.Some? {
      var n := g.nodes[t.value];
      if IsLink(n) {
        var m := cur.(trail := LinkTrail(g, cur.trail, n));
        var next := Follow(g, t.value);
        WalkFollowsChain(g, next, vis, m);
        assert Links(g, t) == [n] + Links(g, next);
        assert AddLinks(g, cur.trail, Links(g, t)) == AddLinks(g, m.trail, Links(g, next));
      } else if n.Derived? {
        assert g.NodeOk(t.value);
        assert Links(g, t) == [n];
        var trail := DerivedTrail(cur.trail, n);
        assert AddLinks(g, cur.trail, [n]) == trail;
        OwnTypeIrrelevant(cur.(trail := trail), t, "void", n.sizeBits, VoidEnc);
        OwnTypeIrrelevant(cur.(trail := trail), t, n.name, n.sizeBits, VtablePtrEnc);
        if IsVtablePointer(n) {
          VtableEndIsClean(g, t.value, vis, cur);
        }
      }
    }
  }

  lemma OwnTypeIrrelevant(m: Meta, t: Option<Id>, name: string, sizeBits: nat, enc: Encoding)
    ensures MakeFundamental(m.(ty := t), name, sizeBits, enc) == MakeFundamental(m, name, sizeBits, enc)
  {
  }

  lemma {:induction false} VtableEndIsClean(g: Graph, id: Id, vis: set<Id>, cur: Meta)
    requires g.TypeOk(Some(id)) && IsVtablePointer(g.nodes[id])
    ensures WalkType(g, Some(id), vis, cur).cur == CLEAN
  {
    assert g.NodeOk(id);
    var sub := g.nodes[id].baseType;
    assert WalkType(g, sub, vis, CLEAN) == WalkEnd(g, sub.value, vis, CLEAN);
  }

  // ---- What accumulates ---------------------------------------------------------------------------------------

  /** `r` is `t` with more subranges in its last array, which multiply to `factor`. */
  predicate HasMoreSubranges(t: Trail, r: Trail, factor: nat)
    requires t.arrays != []
  {
    var k := |t.arrays| - 1;
    |r.arrays| == |t.arrays| && r == t.(arrays := r.arrays) && r.arrays[..k] == t.arrays[..k] &&
    r.arrays[k] == t.arrays[k].(subranges := r.arrays[k].subranges) &&
    Product(r.arrays[k].subranges) == Product(t.arrays[k].subranges) * factor
  }

  lemma {:induction false} OneMoreSubrange(t: Trail, prev: Trail, factor: nat, count: Option<int>)
    requires t.arrays != [] && HasMoreSubranges(t, prev, factor)
    ensures HasMoreSubranges(t, SubrangeTrail(prev, count),
                             factor * (if count.Some? then AtLeastZero(count.value) else 1))
  {
    if count.Some? {
      var k := |t.arrays| - 1;
      var s, x := prev.arrays[k].subranges, AtLeastZero(count.value);
      assert (s + [x])[..|s|] == s;
      Associate(Product(t.arrays[k].subranges), factor, x);
    }
  }

  lemma {:induction false} SubrangesOnly(g: Graph, t: Trail, elements: seq<Id>, n: nat)
    requires t.arrays != [] && n <= |elements|
    ensures HasMoreSubranges(t, SubrangesTrail(g, t, elements, n), ElementCount(g, elements[..n]))
  {
    if n > 0 {
      SubrangesOnly(g, t, elements, n - 1);
      assert elements[..n][..n - 1] == elements[..n - 1];
      var prev := SubrangesTrail(g, t, elements, n - 1);
      var e := elements[n - 1];
      var count := if e in g.nodes && g.nodes[e].Subrange? then g.nodes[e].count else None;
      OneMoreSubrange(t, prev, ElementCount(g, elements[..n - 1]), count);
      hide HasMoreSubranges;
      assert SubrangesTrail(g, t, elements, n) == SubrangeTrail(prev, count);
    }
  }

  lemma Associate(a: nat, b: nat, c: nat)
    ensures (a * b) * c == a * (b * c)
  {
  }

  /** One array appends one entry, whose subranges multiply to its element count. */
  lemma {:induction false} ArrayAppends(g: Graph, t: Trail, n: Node)
    requires IsArray(n)
    ensures var r := AddLink(g, t, n);
            |r.arrays| == |t.arrays| + 1 && r.arrays[..|t.arrays|] == t.arrays &&
            r.typedefNames == t.typedefNames && r.derivedSize == t.derivedSize && r.isVector == n.isVector &&
            r.tags
            == t.tags + [if n.isVector then VectorTag else ArrayTag] + (if n.isAssociated then [PointerTag] else []) &&
            r.arrays[|t.arrays|].isVector == n.isVector && r.arrays[|t.arrays|].sizeBits == n.sizeBits &&
            Product(r.arrays[|t.arrays|].subranges) == ElementCount(g, n.elements)
  {
    SubrangesOnly(g, ArrayTrail(t, n), n.elements, |n.elements|);
    assert n.elements[..|n.elements|] == n.elements;
  }

  lemma {:induction false} QualifiersAppend(tags: seq<Tag>, t: Tag)
    ensures MakeQualifiers(tags + [t])
         == MakeQualifiers(tags) + (if DwarfToQual(t) == QNone then [] else [DwarfToQual(t)])
  {
    assert (tags + [t])[..|tags|] == tags;
  }

  lemma {:induction false} ArrayAddsQualifiers(g: Graph, t: Trail, n: Node)
    requires IsArray(n)
    ensures MakeQualifiers(AddLink(g, t, n).tags) == MakeQualifiers(t.tags) + LinkQualifiers(n)
  {
    ArrayAppends(g, t, n);
    hide AddLink, MakeQualifiers, ElementCount;
    var tag := if n.isVector then VectorTag else ArrayTag;
    QualifiersAppend(t.tags, tag);
    if n.isAssociated {
      QualifiersAppend(t.tags + [tag], PointerTag);
    } else {
      assert t.tags + [tag] + [] == t.tags + [tag];
    }
  }

  lemma {:induction false} ModifierAddsQualifiers(g: Graph, t: Trail, n: Node)
    requires IsModifier(n)
    ensures MakeQualifiers(AddLink(g, t, n).tags) == MakeQualifiers(t.tags) + LinkQualifiers(n)
  {
    assert AddLink(g, t, n).tags == if n.tag == TypedefTag then t.tags else t.tags + [n.tag];
    hide AddLink, MakeQualifiers;
    if n.tag != TypedefTag {
      QualifiersAppend(t.tags, n.tag);
    }
  }

  lemma {:induction false} LinkAdds(g: Graph, t: Trail, n: Node)
    requires IsChainLink(n)
    ensures var r := AddLink(g, t, n);
            MakeQualifiers(r.tags) == MakeQualifiers(t.tags) + LinkQualifiers(n) &&
            MakeArraySizes(r.arrays)
            == MakeArraySizes(t.arrays) + (if IsArray(n) then [ElementCount(g, n.elements)] else []) &&
            MakeVectorSize(r.arrays)
            == (if IsArray(n) && n.isVector then n.sizeBits / 8 else MakeVectorSize(t.arrays)) &&
            r.isVector == (if IsArray(n) then n.isVector else t.isVector) &&
            r.derivedSize == (if n.Derived? then n.sizeBits / 8 else t.derivedSize)
  {
    hide DwarfToQual, LinkQualifiers;
    if IsArray(n) {
      ArrayAddsQualifiers(g, t, n);
      ArrayAppends(g, t, n);
      var r := AddLink(g, t, n);
      assert r.arrays[..|r.arrays| - 1] == t.arrays;
    } else {
      ModifierAddsQualifiers(g, t, n);
    }
  }

  /** Everything that a chain adds to a trail, read off its links: the lists... */
  lemma {:induction false} ChainAppends(g: Graph, t: Trail, links: seq<Node>)
    requires forall n :: n in links ==> IsChainLink(n)
    ensures var r := AddLinks(g, t, links);
            MakeQualifiers(r.tags) == MakeQualifiers(t.tags) + Qualifiers(links) &&
            MakeArraySizes(r.arrays) == MakeArraySizes(t.arrays) + ArraySizes(g, links)
    decreases |links|
  {
    hide AddLink, LinkQualifiers, ElementCount, MakeQualifiers, MakeArraySizes, MakeVectorSize;
    if links != [] {
      var next := AddLink(g, t, links[0]);
      LinkAdds(g, t, links[0]);
      ChainAppends(g, next, links[1..]);
      assert MakeQualifiers(t.tags) + Qualifiers(links)
          == MakeQualifiers(t.tags) + LinkQualifiers(links[0]) + Qualifiers(links[1..]);
    }
  }

  /** ... and the values that the innermost link decides. */
  lemma {:induction false} ChainDecides(g: Graph, t: Trail, links: seq<Node>)
    requires forall n :: n in links ==> IsChainLink(n)
    ensures var r := AddLinks(g, t, links);
            MakeVectorSize(r.arrays) == VectorBytes(links, MakeVectorSize(t.arrays)) &&
            r.isVector == IsVectorType(links, t.isVector) &&
            r.derivedSize == DerivedBytes(links, t.derivedSize)
    decreases |links|
  {
    hide AddLink, LinkQualifiers, ElementCount, MakeQualifiers, MakeArraySizes, MakeVectorSize;
    if links != [] {
      LinkAdds(g, t, links[0]);
      ChainDecides(g, AddLink(g, t, links[0]), links[1..]);
    }
  }

  /** The first typedef collected is the outermost one. */
  lemma {:induction false} ChainNames(g: Graph, t: Trail, links: seq<Node>)
    requires forall n :: n in links ==> IsChainLink(n)
    ensures var names := AddLinks(g, t, links).typedefNames;
            t.typedefNames <= names &&
            (t.typedefNames == [] ==>
               (names == [] <==> TypedefName(links) == None) && (names != [] ==> TypedefName(links) == Some(names[0])))
    decreases |links|
  {
    if links != [] {
      if IsArray(links[0]) {
        ArrayAppends(g, t, links[0]);
      }
      ChainNames(g, AddLink(g, t, links[0]), links[1..]);
    }
  }

  /** The metadata holds nothing but what the position `use` put there. */
  predicate FreshFor(m: Meta, use: Use) {
    m.trail == Trail([], [], [], false, use.ownSize) && m.place.isStatic == use.isStatic &&
    m.place.size == use.memberSize && !m.isRecurring && !m.isForwardDecl
  }

  /** From fresh metadata, the accumulated information is exactly what the links say. */
  lemma {:induction false} ChainInfo(g: Graph, t: Option<Id>, cur: Meta, use: Use)
    requires g.TypeOk(t) && FreshFor(cur, use)
    ensures var links := Links(g, t);
            var m := cur.(trail := AddLinks(g, cur.trail, links));
            m.trail.derivedSize == DerivedBytes(links, use.ownSize) &&
            forall ty, fwd, rec ::
              MakeInfo(m.(ty := ty, isForwardDecl := fwd, isRecurring := rec)) == Info(g, links, use, fwd, rec)
  {
    var links := Links(g, t);
    LinksAreChainLinks(g, t);
    ChainAppends(g, cur.trail, links);
    ChainDecides(g, cur.trail, links);
    ChainNames(g, cur.trail, links);
    assert MakeQualifiers([]) + Qualifiers(links) == Qualifiers(links);
    assert MakeArraySizes([]) + ArraySizes(g, links) == ArraySizes(g, links);
  }
}
