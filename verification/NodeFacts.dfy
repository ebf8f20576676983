/** What the output says about the node at the end of a chain, field by field and tag by tag. */
module NodeFacts {
  import opened Wrappers
  import opened TypeTree
  import opened TypeGraph
  import opened ParseState
  import opened Walk
  import opened Denotation
  import opened ChainLemmas
  import opened Fidelity

  /** Name, identifier, tag and the size in bytes are those of the node. */
  predicate IsHeadOf(c: Compound, n: Node)
    requires n.Composite?
  {
    c.name == n.name && c.identifier == n.identifier && 8 * c.extent <= n.sizeBits < 8 * (c.extent + 1) &&
    (c.tag == StructCompound <==> n.tag == StructTag) && (c.tag == ClassCompound <==> n.tag == ClassTag) &&
    (c.tag == UnionCompound <==> n.tag == UnionTag) && (c.tag == EnumCompound <==> n.tag == EnumTag) &&
    c.tag != EnumClassCompound
  }

  predicate IsEncodedAs(ate: BasicEncoding, enc: Encoding) {
    match enc
    case SignedIntEnc => ate == AteSigned
    case UnsignedIntEnc => ate == AteUnsigned
    case SignedCharEnc => ate == AteSignedChar
    case UnsignedCharEnc => ate == AteUnsignedChar
    case FloatEnc => ate == AteFloat
    case ComplexEnc => ate == AteComplexFloat
    case BoolEnc => ate == AteBoolean
    case UTFCharEnc => ate == AteUtf
    case UnknownEnc => ate == AteOther
    case _ => false
  }

  /** A null pointer or function that has no size takes the one of the member, else the one of the derived type around
      it, else the size of an address. */
  predicate IsAddressSize(extent: nat, memberSize: nat, derivedSize: nat) {
    (memberSize > 0 ==> extent == memberSize) && (memberSize == 0 && derivedSize > 0 ==> extent == derivedSize) &&
    (memberSize == 0 && derivedSize == 0 ==> extent == 8)
  }

  /** A basic type, string or function, in a position of the given sizes. */
  predicate IsReadAs(f: Fundamental, n: Node, memberSize: nat, derivedSize: nat) {
    match n
    case Basic(name, size, ate) =>
      f.name == name && (size >= 8 ==> 8 * f.extent <= size < 8 * (f.extent + 1)) &&
      if MentionsNullptr(name) then
        f.encoding == NullptrEnc && (size < 8 ==> IsAddressSize(f.extent, memberSize, derivedSize))
      else IsEncodedAs(ate, f.encoding) && (size < 8 ==> f.extent == 0)
    case Str(name, size) =>
      f.name == (if name == "" then "character" else name) && f.encoding == StringEnc &&
      if size < 8 then f.extent == 1 else 8 * f.extent <= size < 8 * (f.extent + 1)
    case Subroutine(size) =>
      f.name == "" && f.encoding == FunctionPtrEnc &&
      if size < 8 then IsAddressSize(f.extent, memberSize, derivedSize)
      else 8 * f.extent <= size < 8 * (f.extent + 1)
    case _ => false
  }

  /** What type `t`, used as `use` below the compounds `path`, says about the end of its chain. */
  predicate SaysEnd(g: Graph, t: Option<Id>, path: set<Id>, use: Use, qt: QualifiedType)
    requires g.TypeOk(t)
  {
    match EndOf(g, t)
    case VoidEnd =>
      var links := Links(g, t);
      links != [] && links[|links| - 1].Derived? && links[|links| - 1].tag == PointerTag && qt.HasFundamental? &&
      qt.fundamental.ty == Fundamental("void", links[|links| - 1].sizeBits / 8, VoidEnc)
    case VtableEnd(ptr) =>
      qt.HasFundamental? && ptr.name == "__vtbl_ptr_type" &&
      qt.fundamental.ty == Fundamental("__vtbl_ptr_type", ptr.sizeBits / 8, VtablePtrEnc)
    case TypeEnd(id) =>
      var n := g.nodes[id];
      if n.Composite? then
        qt.HasCompound? && IsHeadOf(qt.compound.ty, n) && qt.compound.info.isForwardDecl == n.isForwardDecl &&
        (id in path ==> qt.compound.info.isRecurring && qt.compound.ty.members == [] && qt.compound.ty.bases == [])
      else
        qt.HasFundamental? &&
        IsReadAs(qt.fundamental.ty, n, use.memberSize, DerivedBytes(Links(g, t), use.ownSize))
  }

  lemma {:induction false} DenotedHead(g: Graph, c: Id, n: nat, path: set<Id>)
    requires g.TypeOk(Some(c)) && IsCompound(g.nodes[c]) && c !in path && n <= |g.nodes[c].elements|
    ensures IsHeadOf(DenoteCompound(g, c, n, path), g.nodes[c])
    decreases n
  {
    hide Denote;
    if n > 0 {
      DenotedHead(g, c, n - 1, path);
      hide IsHeadOf;
      assert IsHeadOf(DenoteCompound(g, c, n - 1, path), g.nodes[c]);
      OneMoreKeepsHead(g, c, n, path);
    }
  }

  lemma {:induction false} OneMoreKeepsHead(g: Graph, c: Id, n: nat, path: set<Id>)
    requires g.TypeOk(Some(c)) && IsCompound(g.nodes[c]) && c !in path && 0 < n <= |g.nodes[c].elements|
    ensures IsHeadOf(DenoteCompound(g, c, n - 1, path), g.nodes[c]) ==>
              IsHeadOf(DenoteCompound(g, c, n, path), g.nodes[c])
  {
    hide Denote;
  }

  /** Whatever the elements do, faithful or not, the head stays. */
  lemma {:induction false} WalkedHead(g: Graph, c: Id, n: nat, path: set<Id>)
    requires g.TypeOk(Some(c)) && IsCompound(g.nodes[c]) && c !in path && n <= |g.nodes[c].elements|
    ensures IsHeadOf(WalkElements(g, c, n, path).compound, g.nodes[c])
    decreases n
  {
    if n > 0 {
      WalkedHead(g, c, n - 1, path);
      var e := g.nodes[c].elements[n - 1];
      assert g.NodeOk(c) && g.ElementOk(g.nodes[c], e);
      if g.nodes[e].Derived? {
        WalkOfDerived(g, c, n, path);
      } else {
        WalkOfOther(g, c, n, path);
      }
      hide WalkElements, WalkType, EnumeratorType;
    }
  }

  lemma {:induction false} DenotationSaysEnd(g: Graph, t: Option<Id>, path: set<Id>, use: Use)
    requires g.TypeOk(t) && Faithful(g, t, path)
    ensures SaysEnd(g, t, path, use, Denote(g, t, path, use))
  {
    hide DenoteCompound, FaithfulElements, IsHeadOf;
    match EndOf(g, t)
    case VoidEnd => VoidIsInnermost(Links(g, t), 0);
    case VtableEnd(ptr) => VtableIsNamed(g, t);
    case TypeEnd(id) =>
      if IsCompound(g.nodes[id]) && id !in path {
        DenotedHead(g, id, |g.nodes[id].elements|, path);
      } else if IsCompound(g.nodes[id]) {
        BareHead(g.nodes[id]);
      }
  }

  /** A pointer to nothing is void*, and one of the compiler's name stands for the vtable. */
  lemma {:induction false} PointersEnd(g: Graph, id: Id, path: set<Id>)
    requires g.TypeOk(Some(id)) && g.nodes[id].Derived? && g.nodes[id].tag == PointerTag
    ensures g.nodes[id].baseType == None ==> EndOf(g, Some(id)) == VoidEnd && Faithful(g, Some(id), path)
    ensures g.nodes[id].baseType.Some? && g.nodes[id].name == "__vtbl_ptr_type" ==>
              EndOf(g, Some(id)) == VtableEnd(g.nodes[id])
  {
    if g.nodes[id].baseType == None {
      assert g.Next(id) == None && Links(g, None) == [];
      assert EndOf(g, None) == VoidEnd;
    }
  }

  lemma {:induction false} BareHead(n: Node)
    requires n.Composite?
    ensures IsHeadOf(Bare(n), n) && IsHeadOf(MakeCompound(n), n)
  {
  }

  lemma {:induction false} VtableIsNamed(g: Graph, t: Option<Id>)
    requires g.TypeOk(t) && EndOf(g, t).VtableEnd?
    ensures EndOf(g, t).ptr.name == "__vtbl_ptr_type"
    decreases Rank(g, t)
  {
    if !IsVtablePointer(g.nodes[t.value]) {
      VtableIsNamed(g, Follow(g, t.value));
    }
  }

  /** For every graph: what the parser reads says the same about the end of the chain, even where the elements of a
      compound are misread. */
  lemma {:induction false} WalkSaysEnd(g: Graph, t: Option<Id>, path: set<Id>, cur: Meta, use: Use)
    requires Conforms(g) && g.TypeOk(t) && FreshFor(cur, use) && (Faithful(g, t, path) || EndOf(g, t).TypeEnd?)
    ensures var item := WalkType(g, t, path, cur).item;
            item.Some? && SaysEnd(g, t, path, use, item.value.qt)
  {
    if Faithful(g, t, path) {
      FaithfulTypeIsDenoted(g, t, path, cur, use);
      DenotationSaysEnd(g, t, path, use);
    } else {
      hide MakeInfo, WalkElements, Links, AddLinks, IsHeadOf;
      var id := EndOf(g, t).id;
      WalkFollowsChain(g, t, path, cur);
      hide WalkType;
      WalkedHead(g, id, |g.nodes[id].elements|, path);
      UnfaithfulIsOpened(g, t, path, cur.(trail := AddLinks(g, cur.trail, Links(g, t))));
    }
  }

  lemma {:induction false} UnfaithfulIsOpened(g: Graph, t: Option<Id>, path: set<Id>, m: Meta)
    requires g.TypeOk(t) && !Faithful(g, t, path) && EndOf(g, t).TypeEnd?
    ensures var id := EndOf(g, t).id;
            var n := g.nodes[id];
            IsCompound(n) && id !in path &&
            WalkEnd(g, id, path, m).item == Some(CompoundItem(CompoundMeta(m, id, n),
                                                              WalkElements(g, id, |n.elements|, path).compound))
  {
    hide MakeInfo, WalkElements;
  }

  lemma {:induction false} ParsedSaysEnd(g: Graph, t: Option<Id>)
    requires Conforms(g) && g.TypeOk(t) && (Faithful(g, t, {}) || EndOf(g, t).TypeEnd?)
    ensures SaysEnd(g, t, {}, FREE, Parsed(g, t))
  {
    hide WalkType, SaysEnd, Faithful;
    WalkSaysEnd(g, t, {}, CLEAN, FREE);
  }
}
