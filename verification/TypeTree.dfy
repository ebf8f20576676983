/** The output data model (lib/type/DimetaData.h): trees of qualified types. */
module TypeTree {

  datatype Qualifier = QNone | QConst | QPtr | QRef | QPtrToMember | QArray | QVector | QStatic

  datatype CompoundTag = UnknownCompound | StructCompound | ClassCompound | UnionCompound | EnumCompound
                       | EnumClassCompound

  datatype Encoding =
    | UnknownEnc | FloatEnc | CharEnc | IntEnc | SignedEnc | UnsignedEnc | BoolEnc | PaddingEnc | VoidEnc
    | VtablePtrEnc | NullptrEnc | UTFCharEnc | ComplexEnc | FunctionPtrEnc | StringEnc
    | SignedCharEnc | UnsignedCharEnc | SignedIntEnc | UnsignedIntEnc

  datatype Fundamental = Fundamental(name: string, extent: nat, encoding: Encoding)

  datatype Compound = Compound(
    name: string,
    identifier: string,
    tag: CompoundTag,
    extent: nat,
    offsets: seq<nat>,
    sizes: seq<nat>,
    bases: seq<BaseClass>,
    members: seq<Member>,
    staticMembers: seq<Member>)

  /** The fields that the template QualType<T> adds to a fundamental or compound type. */
  datatype QualInfo = QualInfo(
    arraySize: seq<nat>,
    qual: seq<Qualifier>,
    typedefName: string,
    vectorSize: nat,
    isVector: bool,
    isForwardDecl: bool,
    isRecurring: bool)

  datatype QualifiedFundamental = QualifiedFundamental(ty: Fundamental, info: QualInfo)

  datatype QualifiedCompound = QualifiedCompound(ty: Compound, info: QualInfo)

  datatype QualifiedType = HasCompound(compound: QualifiedCompound) | HasFundamental(fundamental: QualifiedFundamental)

  datatype BaseClass = BaseClass(base: QualifiedCompound, offset: nat, isEmptyBaseClass: bool)

  datatype Member = Member(name: string, member: QualifiedType)

  const NO_INFO := QualInfo([], [], "", 0, false, false, false)

  const NO_COMPOUND := Compound("", "", UnknownCompound, 0, [], [], [], [], [])

  /** A default-constructed variant holds its first alternative. */
  const DEFAULT_TYPE := HasCompound(QualifiedCompound(NO_COMPOUND, NO_INFO))

  datatype SourceLocation = SourceLocation(file: string, function_: string, line: nat)

  datatype LocatedType = LocatedType(location: SourceLocation, ty: QualifiedType)

  function InfoOf(qt: QualifiedType): QualInfo {
    match qt
    case HasCompound(c) => c.info
    case HasFundamental(f) => f.info
  }

  function WithInfo(qt: QualifiedType, info: QualInfo): QualifiedType {
    match qt
    case HasCompound(c) => HasCompound(c.(info := info))
    case HasFundamental(f) => HasFundamental(f.(info := info))
  }
}
