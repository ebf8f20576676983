/** What the event visitor collects on its way down (lib/type/DIParser.h) and how lib/type/DimetaParse.cpp turns a
    finished collection into an output type. */
module ParseState {
  import opened Wrappers
  import opened TypeTree
  import opened TypeGraph

  datatype ArrayData = ArrayData(sizeBits: nat, subranges: seq<nat>, isVector: bool)

  /** Where the type under construction belongs: a member (static or not), a base class, or nowhere. */
  datatype Place = Place(name: string, offset: nat, size: nat, isMember: bool, isStatic: bool, isBaseClass: bool)

  /** What the derived types and arrays on the way have contributed so far. */
  datatype Trail = Trail(tags: seq<Tag>, typedefNames: seq<string>, arrays: seq<ArrayData>, isVector: bool,
                         derivedSize: nat)

  datatype Meta = Meta(ty: Option<Id>, place: Place, trail: Trail, isRecurring: bool, isForwardDecl: bool)

  const CLEAN := Meta(None, Place("", 0, 0, false, false, false), Trail([], [], [], false, 0), false, false)

  // ---- Collecting ---------------------------------------------------------------------------------------------

  function MemberPlace(p: Place, n: Node): Place
    requires n.Derived?
  {
    p.(name := n.name, isMember := true, offset := n.offsetBits / 8, size := n.sizeBits / 8, isStatic := n.isStatic)
  }

  function DerivedPlace(p: Place, n: Node): Place
    requires n.Derived?
  {
    match n.tag
    case MemberTag => MemberPlace(p, n)
    case VariableTag => if n.isStatic then MemberPlace(p, n) else p
    case InheritanceTag => p.(isBaseClass := true, offset := n.offsetBits / 8)
    case _ => p
  }

  function DerivedTrail(t: Trail, n: Node): Trail
    requires n.Derived?
  {
    var t := t.(derivedSize := n.sizeBits / 8);
    if n.tag == TypedefTag then t.(typedefNames := t.typedefNames + [n.name])
    else if IsModifier(n) then t.(tags := t.tags + [n.tag])
    else t
  }

  function DerivedMeta(m: Meta, n: Node): Meta
    requires n.Derived?
  {
    m.(place := DerivedPlace(m.place, n), trail := DerivedTrail(m.trail, n))
  }

  /** An array opens with no subranges; "associated" marks a Fortran pointer. */
  function ArrayTrail(t: Trail, n: Node): Trail
    requires IsArray(n)
  {
    t.(isVector := n.isVector,
    tags := t.tags + [if n.isVector then VectorTag else ArrayTag] + (if n.isAssociated then [PointerTag] else []),
    arrays := t.arrays + [ArrayData(n.sizeBits, [], n.isVector)])
  }

  /** A constant count is stored, a negative one as 0; other counts are dropped. */
  function SubrangeTrail(t: Trail, count: Option<int>): Trail
    requires t.arrays != []
  {
    if count.None? then t
    else
      var last := t.arrays[|t.arrays| - 1];
      t.(arrays := t.arrays[|t.arrays| - 1 := last.(subranges := last.subranges + [Clamp(count.value)])])
  }

  function Clamp(count: int): nat { if count < 0 then 0 else count }

  function CompoundMeta(m: Meta, id: Id, n: Node): Meta
    requires n.Composite?
  {
    m.(ty := Some(id), isForwardDecl := n.isForwardDecl)
  }

  function EnumeratorMeta(m: Meta, name: string, enumBase: Id, sizeBits: nat): Meta {
    m.(ty := Some(enumBase), place := m.place.(name := name, offset := 0, size := sizeBits / 8, isMember := true))
  }

  // ---- Building output types ----------------------------------------------------------------------------------

  function DwarfToQual(t: Tag): Qualifier {
    match t
    case PointerTag => QPtr
    case ReferenceTag => QRef
    case ConstTag => QConst
    case PtrToMemberTag => QPtrToMember
    case ArrayTag => QArray
    case VectorTag => QVector
    case _ => QNone
  }

  function MakeQualifiers(tags: seq<Tag>): seq<Qualifier> {
    if tags == [] then []
    else
      var q := DwarfToQual(tags[|tags| - 1]);
      MakeQualifiers(tags[..|tags| - 1]) + (if q == QNone then [] else [q])
  }

  function Product(s: seq<nat>): nat {
    if s == [] then 1 else Product(s[..|s| - 1]) * s[|s| - 1]
  }

  function MakeArraySizes(arrays: seq<ArrayData>): seq<nat> {
    if arrays == [] then [] else MakeArraySizes(arrays[..|arrays| - 1]) + [Product(arrays[|arrays| - 1].subranges)]
  }

  /** The size of the last vector type collected. */
  function MakeVectorSize(arrays: seq<ArrayData>): nat {
    if arrays == [] then 0
    else
      var last := arrays[|arrays| - 1];
      if last.isVector then last.sizeBits / 8 else MakeVectorSize(arrays[..|arrays| - 1])
  }

  function MakeInfo(m: Meta): QualInfo {
    QualInfo(
      MakeArraySizes(m.trail.arrays),
      MakeQualifiers(m.trail.tags) + (if m.place.isStatic then [QStatic] else []),
      if m.trail.typedefNames == [] then "" else m.trail.typedefNames[0],
      MakeVectorSize(m.trail.arrays),
      m.trail.isVector,
      m.isForwardDecl,
      m.isRecurring)
  }

  function DwarfToCompound(t: Tag): CompoundTag {
    match t
    case EnumTag => EnumCompound
    case ClassTag => ClassCompound
    case StructTag => StructCompound
    case UnionTag => UnionCompound
    case _ => UnknownCompound
  }

  function DwarfToEncoding(e: BasicEncoding): Encoding {
    match e
    case AteFloat => FloatEnc
    case AteSigned => SignedIntEnc
    case AteUnsigned => UnsignedIntEnc
    case AteUnsignedChar => UnsignedCharEnc
    case AteSignedChar => SignedCharEnc
    case AteBoolean => BoolEnc
    case AteUtf => UTFCharEnc
    case AteComplexFloat => ComplexEnc
    case AteOther => UnknownEnc
  }

  predicate Contains(s: string, part: string)
    requires part != ""
  {
    |part| <= |s| && (s[..|part|] == part || Contains(s[1..], part))
  }

  function BasicTypeEncoding(name: string, ate: BasicEncoding): Encoding {
    if Contains(name, "nullptr") then NullptrEnc else DwarfToEncoding(ate)
  }

  const POINTER_SIZE := 8

  /** A zero size is replaced for null pointers, function pointers and strings. */
  function FundamentalExtent(sizeBits: nat, enc: Encoding, memberSize: nat, derivedSize: nat): nat {
    var size := sizeBits / 8;
    if size != 0 then size
    else if enc == NullptrEnc || enc == FunctionPtrEnc then
      if memberSize > 0 then memberSize else if derivedSize > 0 then derivedSize else POINTER_SIZE
    else if enc == StringEnc then 1
    else 0
  }

  function MakeFundamental(m: Meta, name: string, sizeBits: nat, enc: Encoding): QualifiedType {
    HasFundamental(QualifiedFundamental(
                     Fundamental(name, FundamentalExtent(sizeBits, enc, m.place.size, m.trail.derivedSize), enc),
                     MakeInfo(m)))
  }

  function MakeCompound(n: Node): Compound
    requires n.Composite?
  {
    Compound(n.name, n.identifier, DwarfToCompound(n.tag), n.sizeBits / 8, [], [], [], [], [])
  }

  // ---- Filing finished types ----------------------------------------------------------------------------------

  /** A finished type together with the metadata that decides where it goes. */
  datatype Item = Item(meta: Meta, qt: QualifiedType)

  predicate IsFiled(p: Place) { p.isMember || p.isBaseClass }

  /** Members and bases go to the innermost open compound. */
  function FileItem(c: Compound, item: Item): Compound {
    var p := item.meta.place;
    if p.isMember then AddMember(c, p, item.qt)
    else if p.isBaseClass && item.qt.HasCompound? then AddBase(c, p.offset, item.qt.compound)
    else c
  }

  function AddMember(c: Compound, p: Place, qt: QualifiedType): Compound {
    if p.isStatic then c.(staticMembers := c.staticMembers + [Member(p.name, qt)])
    else c.(offsets := c.offsets + [p.offset], sizes := c.sizes + [p.size], members := c.members + [Member(p.name, qt)])
  }

  function AddBase(c: Compound, offset: nat, base: QualifiedCompound): Compound {
    c.(bases := c.bases + [BaseClass(base, offset, base.ty.extent == 1 && base.ty.members == [])])
  }

  /** Enumerators are members, but only the first offset and size are kept. */
  function AddEnumerator(c: Compound, p: Place, qt: QualifiedType): Compound {
    var c := AddMember(c, p, qt);
    c.(sizes := c.sizes[..Min(1, |c.sizes|)], offsets := c.offsets[..Min(1, |c.offsets|)])
  }

  function Min(a: nat, b: nat): nat { if a < b then a else b }
}
