/** What a type in the debug info means, read off the graph directly: every chain is cut into its links and its end,
    every compound lists its members, static members and base classes in order. Neither the parser's state nor its
    helpers are involved. */
module Denotation {
  import opened Wrappers
  import opened TypeTree
  import opened TypeGraph
  import opened Walk

  // ---- Chains -------------------------------------------------------------------------------------------------

  /** Where a chain stops: at nothing (void), at the compiler's vtable pointer, or at a proper type. */
  datatype End = VoidEnd | VtableEnd(ptr: Node) | TypeEnd(id: Id)

  /** The derived types and arrays of a chain, outermost first. */
  function Links(g: Graph, t: Option<Id>): seq<Node>
    requires g.TypeOk(t)
    decreases Rank(g, t)
  {
    if t.None? then []
    else
      var n := g.nodes[t.value];
      if IsVtablePointer(n) then [n]
      else if n.Derived? || IsArray(n) then [n] + Links(g, Follow(g, t.value))
      else []
  }

  function EndOf(g: Graph, t: Option<Id>): (e: End)
    requires g.TypeOk(t)
    ensures e.VtableEnd? ==> e.ptr.Derived?
    ensures e.TypeEnd? ==>
              var id := e.id; g.TypeOk(Some(id)) && !g.nodes[id].Derived? && !IsArray(g.nodes[id])
    decreases Rank(g, t)
  {
    if t.None? then VoidEnd
    else
      var n := g.nodes[t.value];
      if IsVtablePointer(n) then VtableEnd(n)
      else if n.Derived? || IsArray(n) then EndOf(g, Follow(g, t.value))
      else TypeEnd(t.value)
  }

  // ---- What the links of a chain say --------------------------------------------------------------------------

  function LinkQualifiers(n: Node): seq<Qualifier> {
    if IsArray(n) then
      [if n.isVector then QVector else QArray] + (if n.isAssociated then [QPtr] else [])
    else if n.Derived? then
      match n.tag
      case PointerTag => [QPtr]
      case ReferenceTag => [QRef]
      case ConstTag => [QConst]
      case PtrToMemberTag => [QPtrToMember]
      case ArrayTag => [QArray]
      case VectorTag => [QVector]
      case _ => []
    else []
  }

  function Qualifiers(links: seq<Node>): seq<Qualifier> {
    if links == [] then [] else LinkQualifiers(links[0]) + Qualifiers(links[1..])
  }

  /** The number of elements of an array: the product of its constant subranges. */
  function ElementCount(g: Graph, elements: seq<Id>): nat {
    if elements == [] then 1
    else
      var e := elements[|elements| - 1];
      ElementCount(g, elements[..|elements| - 1]) *
      (if e in g.nodes && g.nodes[e].Subrange? && g.nodes[e].count.Some? then AtLeastZero(g.nodes[e].count.value)
       else 1)
  }

  function AtLeastZero(count: int): nat { if count > 0 then count else 0 }

  function ArraySizes(g: Graph, links: seq<Node>): seq<nat> {
    if links == [] then []
    else (if IsArray(links[0]) then [ElementCount(g, links[0].elements)] else []) + ArraySizes(g, links[1..])
  }

  /** The outermost typedef. */
  function TypedefName(links: seq<Node>): Option<string> {
    if links == [] then None
    else if links[0].Derived? && links[0].tag == TypedefTag then Some(links[0].name)
    else TypedefName(links[1..])
  }

  /** The innermost array decides; `d` if there is none. */
  function IsVectorType(links: seq<Node>, d: bool): bool {
    if links == [] then d else IsVectorType(links[1..], if IsArray(links[0]) then links[0].isVector else d)
  }

  /** The size of the innermost vector; `d` if there is none. */
  function VectorBytes(links: seq<Node>, d: nat): nat {
    if links == [] then d
    else VectorBytes(links[1..], if IsArray(links[0]) && links[0].isVector then links[0].sizeBits / 8 else d)
  }

  /** The size of the innermost derived type; `d` if there is none. */
  function DerivedBytes(links: seq<Node>, d: nat): nat {
    if links == [] then d else DerivedBytes(links[1..], if links[0].Derived? then links[0].sizeBits / 8 else d)
  }

  /** The size of the innermost pointer; `d` if there is none. */
  function PointerBytes(links: seq<Node>, d: nat): nat {
    if links == [] then d
    else PointerBytes(links[1..],
                      if links[0].Derived? && links[0].tag == PointerTag then links[0].sizeBits / 8 else d)
  }

  // ---- Types --------------------------------------------------------------------------------------------------

  /** The position a type is used in: a free-standing type, or a member or base class of the given size. */
  datatype Use = Use(isStatic: bool, memberSize: nat, ownSize: nat)

  const FREE := Use(false, 0, 0)

  function UseOf(element: Node): Use
    requires element.Derived?
  {
    if IsMember(element) then Use(element.isStatic, element.sizeBits / 8, element.sizeBits / 8)
    else Use(false, 0, element.sizeBits / 8)
  }

  function Info(g: Graph, links: seq<Node>, use: Use, isForwardDecl: bool, isRecurring: bool): QualInfo {
    QualInfo(
      ArraySizes(g, links),
      Qualifiers(links) + (if use.isStatic then [QStatic] else []),
      if TypedefName(links).Some? then TypedefName(links).value else "",
      VectorBytes(links, 0),
      IsVectorType(links, false),
      isForwardDecl,
      isRecurring)
  }

  function DenoteFundamental(g: Graph, links: seq<Node>, use: Use, name: string, extent: nat,
                             enc: Encoding): QualifiedType {
    HasFundamental(QualifiedFundamental(Fundamental(name, extent, enc), Info(g, links, use, false, false)))
  }

  /** The meaning of type `t` used as `use`, below the compounds `path`. */
  function Denote(g: Graph, t: Option<Id>, path: set<Id>, use: Use): QualifiedType
    requires g.TypeOk(t)
    decreases Unvisited(g, path), 1, 0
  {
    var links := Links(g, t);
    match EndOf(g, t)
    case VoidEnd => DenoteFundamental(g, links, use, "void", PointerBytes(links, 0), VoidEnc)
    case VtableEnd(ptr) => DenoteFundamental(g, links, use, ptr.name, ptr.sizeBits / 8, VtablePtrEnc)
    case TypeEnd(id) =>
      var n := g.nodes[id];
      match n
      case Basic(name, size, ate) =>
        if MentionsNullptr(name) then
          DenoteFundamental(g, links, use, name, AddressBytes(size, links, use), NullptrEnc)
        else DenoteFundamental(g, links, use, name, size / 8, EncodingOf(ate))
      case Str(name, size) =>
        DenoteFundamental(g, links, use, if |name| > 0 then name else "character", if size < 8 then 1 else size / 8,
                          StringEnc)
      case Subroutine(size) => DenoteFundamental(g, links, use, "", AddressBytes(size, links, use), FunctionPtrEnc)
      case Composite(_, _, _, _, _, _, _, _, _) =>
        var compound := if id in path then Bare(n) else DenoteCompound(g, id, |n.elements|, path);
        HasCompound(QualifiedCompound(compound, Info(g, links, use, n.isForwardDecl, id in path)))
  }

  /** A null pointer or function without a size is as large as the member, the innermost derived type, or an address. */
  function AddressBytes(sizeBits: nat, links: seq<Node>, use: Use): nat {
    if sizeBits >= 8 then sizeBits / 8
    else if use.memberSize != 0 then use.memberSize
    else if DerivedBytes(links, use.ownSize) != 0 then DerivedBytes(links, use.ownSize)
    else 8
  }

  predicate HasAt(name: string, i: nat, part: string) { i + |part| <= |name| && name[i..i + |part|] == part }

  predicate MentionsNullptr(name: string) { exists i :: 0 <= i <= |name| && HasAt(name, i, "nullptr") }

  function EncodingOf(ate: BasicEncoding): Encoding {
    if ate.AteSigned? then SignedIntEnc
    else if ate.AteUnsigned? then UnsignedIntEnc
    else if ate.AteSignedChar? then SignedCharEnc
    else if ate.AteUnsignedChar? then UnsignedCharEnc
    else if ate.AteFloat? then FloatEnc
    else if ate.AteComplexFloat? then ComplexEnc
    else if ate.AteBoolean? then BoolEnc
    else if ate.AteUtf? then UTFCharEnc
    else UnknownEnc
  }

  /** A compound without its elements. */
  function Bare(n: Node): Compound
    requires n.Composite?
  {
    var tag :=
      if n.tag.StructTag? then StructCompound
      else if n.tag.ClassTag? then ClassCompound
      else if n.tag.UnionTag? then UnionCompound
      else if n.tag.EnumTag? then EnumCompound
      else UnknownCompound;
    NO_COMPOUND.(name := n.name, identifier := n.identifier, tag := tag, extent := n.sizeBits / 8)
  }

  /** Compound `c` with its first `n` elements; a compound on the path is not opened again. */
  function DenoteCompound(g: Graph, c: Id, n: nat, path: set<Id>): Compound
    requires g.TypeOk(Some(c)) && IsCompound(g.nodes[c]) && c !in path && n <= |g.nodes[c].elements|
    decreases Unvisited(g, path), 0, n
  {
    if n == 0 then Bare(g.nodes[c])
    else
      var prev := DenoteCompound(g, c, n - 1, path);
      var e := g.nodes[c].elements[n - 1];
      assert g.NodeOk(c) && g.ElementOk(g.nodes[c], e);
      var node := g.nodes[e];
      if node.Derived? then
        UnvisitedShrinks(g, path, c);
        AddElement(prev, node, Denote(g, ElementType(g, e), path + {c}, UseOf(node)))
      else if node.Enumerator? && EnumBase(g, g.nodes[c].baseType).Some? then
        // an enumeration occupies the storage of one value of its underlying type
        var base := EnumBase(g, g.nodes[c].baseType).value.1;
        prev.(offsets := [0], sizes := [base.sizeBits / 8],
        members := prev.members + [Member(node.name, EnumeratorDenotation(base))])
      else prev
  }

  /** A compound with one more base class, static member or member. */
  function AddElement(c: Compound, element: Node, qt: QualifiedType): Compound
    requires element.Derived?
  {
    if IsInheritance(element) then
      if qt.HasCompound? then
        // one byte without members is storage that the derived class may reuse
        var isEmpty := |qt.compound.ty.members| == 0 && qt.compound.ty.extent == 1;
        c.(bases := c.bases + [BaseClass(qt.compound, element.offsetBits / 8, isEmpty)])
      else c
    else if element.isStatic then
      c.(staticMembers := c.staticMembers + [Member(element.name, qt)])
    else
      c.(offsets := c.offsets + [element.offsetBits / 8], sizes := c.sizes + [element.sizeBits / 8],
      members := c.members + [Member(element.name, qt)])
  }

  function EnumeratorDenotation(base: Node): QualifiedType
    requires base.Basic?
  {
    HasFundamental(QualifiedFundamental(Fundamental(base.name, base.sizeBits / 8, EncodingOf(base.ate)), NO_INFO))
  }

  // ---- When the parser is faithful ----------------------------------------------------------------------------

  /** The last thing visited below `t` is an enumerator: nothing resets the metadata after it. */
  predicate LeavesEnumerator(g: Graph, t: Option<Id>, path: set<Id>)
    requires g.TypeOk(t)
    decreases Unvisited(g, path), 1, 0
  {
    match EndOf(g, t)
    case TypeEnd(id) =>
      IsCompound(g.nodes[id]) && id !in path && EndsWithEnumerator(g, id, |g.nodes[id].elements|, path)
    case _ => false
  }

  predicate EndsWithEnumerator(g: Graph, c: Id, n: nat, path: set<Id>)
    requires g.TypeOk(Some(c)) && IsCompound(g.nodes[c]) && c !in path && n <= |g.nodes[c].elements|
    decreases Unvisited(g, path), 0, n
  {
    n > 0 &&
    var e := g.nodes[c].elements[n - 1];
    assert g.NodeOk(c) && g.ElementOk(g.nodes[c], e);
    if g.nodes[e].Enumerator? then true
    else if g.nodes[e].Derived? then
      UnvisitedShrinks(g, path, c);
      LeavesEnumerator(g, ElementType(g, e), path + {c})
    else EndsWithEnumerator(g, c, n - 1, path)
  }

  /** Below `t`, void occurs only directly under a pointer and no base class follows an enumerator. */
  predicate Faithful(g: Graph, t: Option<Id>, path: set<Id>)
    requires g.TypeOk(t)
    decreases Unvisited(g, path), 1, 0
  {
    match EndOf(g, t)
    case VoidEnd =>
      var links := Links(g, t);
      links != [] && IsVoidPointer(links[|links| - 1])
    case VtableEnd(_) => true
    case TypeEnd(id) =>
      IsCompound(g.nodes[id]) && id !in path ==> FaithfulElements(g, id, |g.nodes[id].elements|, path)
  }

  predicate FaithfulElements(g: Graph, c: Id, n: nat, path: set<Id>)
    requires g.TypeOk(Some(c)) && IsCompound(g.nodes[c]) && c !in path && n <= |g.nodes[c].elements|
    decreases Unvisited(g, path), 0, n
  {
    n == 0 ||
    (FaithfulElements(g, c, n - 1, path) && FaithfulElement(g, c, n - 1, path))
  }

  predicate FaithfulElement(g: Graph, c: Id, i: nat, path: set<Id>)
    requires g.TypeOk(Some(c)) && IsCompound(g.nodes[c]) && c !in path && i < |g.nodes[c].elements|
    decreases Unvisited(g, path), 0, i
  {
    var e := g.nodes[c].elements[i];
    assert g.NodeOk(c) && g.ElementOk(g.nodes[c], e);
    g.nodes[e].Derived? ==>
      (IsInheritance(g.nodes[e]) ==> !EndsWithEnumerator(g, c, i, path)) &&
      (UnvisitedShrinks(g, path, c);
       Faithful(g, ElementType(g, e), path + {c}))
  }
}
