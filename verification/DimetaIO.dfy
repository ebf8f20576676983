/** The YAML mapping of the output types (lib/type/DimetaIO.cpp). Each mapping is used in both directions: output reads
    a value, input fills a target in place -- modelled as a function from the old target to the new one. */
module DimetaIO {
  import opened Wrappers
  import opened TypeTree
  import opened Yaml

  datatype CompileUnitTypes = CompileUnitTypes(name: string, types: seq<QualifiedType>)

  const NO_FUNDAMENTAL := Fundamental("", 0, UnknownEnc)

  const NO_QUALIFIED_COMPOUND := QualifiedCompound(NO_COMPOUND, NO_INFO)

  // ---- Enumerations -------------------------------------------------------------------------------------------

  function TagText(t: CompoundTag): string {
    match t
    case ClassCompound => "class"
    case StructCompound => "struct"
    case UnionCompound => "union"
    case EnumCompound => "enum"
    case EnumClassCompound => "enum_class"
    case UnknownCompound => "unknown"
  }

  function ReadTag(d: Doc): Result<CompoundTag> {
    var s :- AsText(d);
    if s == "class" then Ok(ClassCompound)
    else if s == "struct" then Ok(StructCompound)
    else if s == "union" then Ok(UnionCompound)
    else if s == "enum" then Ok(EnumCompound)
    else if s == "enum_class" then Ok(EnumClassCompound)
    else if s == "unknown" then Ok(UnknownCompound)
    else Err
  }

  function EncodingText(e: Encoding): string {
    match e
    case UnknownEnc => "unknown"
    case BoolEnc => "bool"
    case CharEnc => "char"
    case FloatEnc => "float"
    case IntEnc => "int"
    case SignedEnc => "signed"
    case UnsignedEnc => "unsigned"
    case SignedCharEnc => "signed_char"
    case UnsignedCharEnc => "unsigned_char"
    case SignedIntEnc => "signed_int"
    case UnsignedIntEnc => "unsigned_int"
    case PaddingEnc => "padding"
    case VoidEnc => "void_ptr"
    case VtablePtrEnc => "vtable_ptr"
    case NullptrEnc => "nullptr"
    case UTFCharEnc => "utf_char"
    case ComplexEnc => "complex"
    case FunctionPtrEnc => "function_ptr"
    case StringEnc => "string"
  }

  function ReadEncoding(d: Doc): Result<Encoding> {
    var s :- AsText(d);
    if s == "unknown" then Ok(UnknownEnc)
    else if s == "bool" then Ok(BoolEnc)
    else if s == "char" then Ok(CharEnc)
    else if s == "float" then Ok(FloatEnc)
    else if s == "int" then Ok(IntEnc)
    else if s == "signed" then Ok(SignedEnc)
    else if s == "unsigned" then Ok(UnsignedEnc)
    else if s == "signed_char" then Ok(SignedCharEnc)
    else if s == "unsigned_char" then Ok(UnsignedCharEnc)
    else if s == "signed_int" then Ok(SignedIntEnc)
    else if s == "unsigned_int" then Ok(UnsignedIntEnc)
    else if s == "padding" then Ok(PaddingEnc)
    else if s == "void_ptr" then Ok(VoidEnc)
    else if s == "vtable_ptr" then Ok(VtablePtrEnc)
    else if s == "nullptr" then Ok(NullptrEnc)
    else if s == "utf_char" then Ok(UTFCharEnc)
    else if s == "complex" then Ok(ComplexEnc)
    else if s == "function_ptr" then Ok(FunctionPtrEnc)
    else if s == "string" then Ok(StringEnc)
    else Err
  }

  function QualifierText(q: Qualifier): string {
    match q
    case QNone => "none"
    case QConst => "const"
    case QPtr => "ptr"
    case QRef => "ref"
    case QPtrToMember => "ptr_to_mem"
    case QArray => "array"
    case QVector => "vector"
    case QStatic => "static"
  }

  function ReadQualifier(d: Doc): Result<Qualifier> {
    var s :- AsText(d);
    if s == "none" then Ok(QNone)
    else if s == "const" then Ok(QConst)
    else if s == "ptr" then Ok(QPtr)
    else if s == "ref" then Ok(QRef)
    else if s == "ptr_to_mem" then Ok(QPtrToMember)
    else if s == "array" then Ok(QArray)
    else if s == "vector" then Ok(QVector)
    else if s == "static" then Ok(QStatic)
    else Err
  }

  // ---- Qualified types, output --------------------------------------------------------------------------------

  function QualifierTexts(qs: seq<Qualifier>): Doc {
    Seq(seq(|qs|, i requires 0 <= i < |qs| => Text(QualifierText(qs[i]))))
  }

  function WriteInfo(q: QualInfo): map<Key, Doc> {
    Put(KArray, q.arraySize != [], Nums(q.arraySize),
        Put(KQualifiers, q.qual != [], QualifierTexts(q.qual),
            Put(KTypedef, q.typedefName != "", Text(q.typedefName),
                Put(KVector, q.isVector, Flag(q.isVector),
                    Put(KVectorSize, q.vectorSize != 0, Num(q.vectorSize),
                        Put(KForwardDecl, q.isForwardDecl, Flag(q.isForwardDecl),
                            Put(KRecurring, q.isRecurring, Flag(q.isRecurring), map[])))))))
  }

  function WriteFundamental(f: Fundamental): Doc {
    Map(Put(KName, true, Text(f.name),
            Put(KExtent, true, Num(f.extent),
                Put(KEncoding, true, Text(EncodingText(f.encoding)), map[]))))
  }

  function WriteQualifiedFundamental(f: QualifiedFundamental): Doc {
    Map(Put(KFundamental, true, WriteFundamental(f.ty), WriteInfo(f.info)))
  }

  function WriteQualifiedCompound(c: QualifiedCompound): Doc
    decreases c
  {
    Map(Put(KCompound, true, WriteCompound(c.ty), WriteInfo(c.info)))
  }

  function WriteCompound(c: Compound): Doc
    decreases c
  {
    Map(Put(KName, true, Text(c.name),
            Put(KIdentifier, c.identifier != "", Text(c.identifier),
                Put(KType, true, Text(TagText(c.tag)),
                    Put(KExtent, true, Num(c.extent),
                        Put(KSizes, c.sizes != [], Nums(c.sizes),
                            Put(KOffsets, c.offsets != [], Nums(c.offsets),
                                Put(KBase, c.bases != [], WriteBases(c.bases),
                                    Put(KMembers, c.members != [], WriteMembers(c.members),
                                        Put(KStaticMembers, c.staticMembers != [], WriteMembers(c.staticMembers),
                                            map[]))))))))))
  }

  function WriteBases(bs: seq<BaseClass>): Doc
    decreases bs
  {
    Seq(seq(|bs|, i requires 0 <= i < |bs| => WriteBase(bs[i])))
  }

  function WriteBase(b: BaseClass): Doc
    decreases b
  {
    Map(Put(KBaseClass, true, WriteQualifiedCompound(b.base),
            Put(KOffset, b.offset != 0, Num(b.offset),
                Put(KEBO, b.isEmptyBaseClass, Flag(b.isEmptyBaseClass), map[]))))
  }

  function WriteMembers(ms: seq<Member>): Doc
    decreases ms
  {
    Seq(seq(|ms|, i requires 0 <= i < |ms| => WriteMember(ms[i])))
  }

  function WriteMember(m: Member): Doc
    decreases m
  {
    Map(Put(KName, true, Text(m.name), WriteType(m.member)))
  }

  /** A qualified type is written into the mapping of its owner. */
  function WriteType(t: QualifiedType): map<Key, Doc>
    decreases t
  {
    var content := match t
      case HasFundamental(f) => WriteQualifiedFundamental(f)
      case HasCompound(c) => WriteQualifiedCompound(c);
    Put(KBuiltin, true, Flag(t.HasFundamental?), Put(KType, true, content, map[]))
  }

  function WriteLocation(l: SourceLocation): Doc {
    Map(Put(KFile, true, Text(l.file), Put(KFunction, true, Text(l.function_), Put(KLine, true, Num(l.line), map[]))))
  }

  function WriteLocatedType(l: LocatedType): Doc {
    Map(Put(KSourceLoc, true, WriteLocation(l.location), WriteType(l.ty)))
  }

  function WriteTypes(ts: seq<QualifiedType>): Doc {
    Seq(seq(|ts|, i requires 0 <= i < |ts| => Map(WriteType(ts[i]))))
  }

  function WriteCompileUnit(cu: CompileUnitTypes): Doc {
    Map(Put(KCUName, true, Text(cu.name), Put(KTypes, cu.types != [], WriteTypes(cu.types), map[])))
  }

  function WriteCompileUnits(cus: seq<CompileUnitTypes>): Doc {
    Seq(seq(|cus|, i requires 0 <= i < |cus| => WriteCompileUnit(cus[i])))
  }

  // ---- Qualified types, input ---------------------------------------------------------------------------------

  function ReadQualifiers(items: seq<Doc>): Result<seq<Qualifier>>
    decreases |items|
  {
    if items == [] then Ok([])
    else
      var head :- ReadQualifier(items[0]);
      var tail :- ReadQualifiers(items[1..]);
      Ok([head] + tail)
  }

  function OptionalQualifiers(d: Doc, key: Key, target: seq<Qualifier>): Result<seq<Qualifier>> {
    match Get(d, key)
    case Some(v) =>
      if !v.Seq? then Err
      else
        var read :- ReadQualifiers(v.items);
        Ok(Overwrite(target, read))
    case None => Ok(target)
  }

  function ReadInfo(d: Doc, target: QualInfo): Result<QualInfo> {
    var arraySize :- OptionalNums(d, KArray, target.arraySize);
    var qual :- OptionalQualifiers(d, KQualifiers, target.qual);
    var typedefName :- OptionalText(d, KTypedef, target.typedefName);
    var isVector :- OptionalFlag(d, KVector, target.isVector);
    var vectorSize :- OptionalNum(d, KVectorSize, target.vectorSize);
    var isForwardDecl :- OptionalFlag(d, KForwardDecl, target.isForwardDecl);
    var isRecurring :- OptionalFlag(d, KRecurring, target.isRecurring);
    Ok(QualInfo(arraySize, qual, typedefName, vectorSize, isVector, isForwardDecl, isRecurring))
  }

  function ReadFundamental(d: Doc, target: Fundamental): Result<Fundamental> {
    var nameDoc :- Required(d, KName);
    var name :- AsText(nameDoc);
    var extent :- OptionalNum(d, KExtent, target.extent);
    var encodingDoc :- Required(d, KEncoding);
    var encoding :- ReadEncoding(encodingDoc);
    Ok(Fundamental(name, extent, encoding))
  }

  function ReadQualifiedFundamental(d: Doc, target: QualifiedFundamental): Result<QualifiedFundamental> {
    var typeDoc :- Required(d, KFundamental);
    var ty :- ReadFundamental(typeDoc, target.ty);
    var info :- ReadInfo(d, target.info);
    Ok(QualifiedFundamental(ty, info))
  }

  function ReadQualifiedCompound(d: Doc, target: QualifiedCompound): Result<QualifiedCompound>
    decreases d, 1
  {
    var typeDoc :- Required(d, KCompound);
    var ty :- ReadCompound(typeDoc, target.ty);
    var info :- ReadInfo(d, target.info);
    Ok(QualifiedCompound(ty, info))
  }

  /** Vectors are overwritten; lists of members and base classes grow at the end. */
  function ReadCompound(d: Doc, target: Compound): Result<Compound>
    decreases d, 1
  {
    var nameDoc :- Required(d, KName);
    var name :- AsText(nameDoc);
    var identifier :- OptionalText(d, KIdentifier, target.identifier);
    var tagDoc :- Required(d, KType);
    var tag :- ReadTag(tagDoc);
    var extentDoc :- Required(d, KExtent);
    var extent :- AsNum(extentDoc);
    var sizes :- OptionalNums(d, KSizes, target.sizes);
    var offsets :- OptionalNums(d, KOffsets, target.offsets);
    var bases :- (match Get(d, KBase)
                  case Some(v) => if v.Seq? then ReadBases(v, |v.items|) else Err
                  case None => Ok([]));
    var members :- (match Get(d, KMembers)
                    case Some(v) => if v.Seq? then ReadMembers(v, |v.items|) else Err
                    case None => Ok([]));
    var staticMembers :- (match Get(d, KStaticMembers)
                          case Some(v) => if v.Seq? then ReadMembers(v, |v.items|) else Err
                          case None => Ok([]));
    Ok(Compound(name, identifier, tag, extent, offsets, sizes, target.bases + bases, target.members + members,
                target.staticMembers + staticMembers))
  }

  function ReadBases(d: Doc, n: nat): Result<seq<BaseClass>>
    requires d.Seq? && n <= |d.items|
    decreases d, 0, n
  {
    if n == 0 then Ok([])
    else
      var init :- ReadBases(d, n - 1);
      var last :- ReadBase(d.items[n - 1], BaseClass(NO_QUALIFIED_COMPOUND, 0, false));
      Ok(init + [last])
  }

  function ReadBase(d: Doc, target: BaseClass): Result<BaseClass>
    decreases d, 1
  {
    var baseDoc :- Required(d, KBaseClass);
    var base :- ReadQualifiedCompound(baseDoc, target.base);
    var offset :- OptionalNum(d, KOffset, target.offset);
    var isEmptyBaseClass :- OptionalFlag(d, KEBO, target.isEmptyBaseClass);
    Ok(BaseClass(base, offset, isEmptyBaseClass))
  }

  function ReadMembers(d: Doc, n: nat): Result<seq<Member>>
    requires d.Seq? && n <= |d.items|
    decreases d, 0, n
  {
    if n == 0 then Ok([])
    else
      var init :- ReadMembers(d, n - 1);
      var last :- ReadMember(d.items[n - 1]);
      Ok(init + [last])
  }

  function ReadMember(d: Doc): Result<Member>
    decreases d, 2
  {
    var nameDoc :- Required(d, KName);
    var name :- AsText(nameDoc);
    var member :- ReadType(d);
    Ok(Member(name, member))
  }

  /** The flag decides which alternative is emplaced, afresh, before it is filled. */
  function ReadType(d: Doc): Result<QualifiedType>
    decreases d, 1
  {
    var builtinDoc :- Required(d, KBuiltin);
    var builtin :- AsFlag(builtinDoc);
    var typeDoc :- Required(d, KType);
    if builtin then
      var f :- ReadQualifiedFundamental(typeDoc, QualifiedFundamental(NO_FUNDAMENTAL, NO_INFO));
      Ok(HasFundamental(f))
    else
      var c :- ReadQualifiedCompound(typeDoc, NO_QUALIFIED_COMPOUND);
      Ok(HasCompound(c))
  }

  function ReadLocation(d: Doc, target: SourceLocation): Result<SourceLocation> {
    var fileDoc :- Required(d, KFile);
    var file :- AsText(fileDoc);
    var function_ :- OptionalText(d, KFunction, target.function_);
    var lineDoc :- Required(d, KLine);
    var line :- AsNum(lineDoc);
    Ok(SourceLocation(file, function_, line))
  }

  function ReadLocatedType(d: Doc, target: LocatedType): Result<LocatedType> {
    var locationDoc :- Required(d, KSourceLoc);
    var location :- ReadLocation(locationDoc, target.location);
    var ty :- ReadType(d);
    Ok(LocatedType(location, ty))
  }

  function ReadTypes(items: seq<Doc>): Result<seq<QualifiedType>>
    decreases |items|
  {
    if items == [] then Ok([])
    else
      var head :- ReadType(items[0]);
      var tail :- ReadTypes(items[1..]);
      Ok([head] + tail)
  }

  function ReadCompileUnit(d: Doc, target: CompileUnitTypes): Result<CompileUnitTypes> {
    var nameDoc :- Required(d, KCUName);
    var name :- AsText(nameDoc);
    match Get(d, KTypes)
    case Some(v) =>
      if !v.Seq? then Err
      else
        var read :- ReadTypes(v.items);
        Ok(CompileUnitTypes(name, Overwrite(target.types, read)))
    case None => Ok(CompileUnitTypes(name, target.types))
  }

  function ReadCompileUnits(items: seq<Doc>): Result<seq<CompileUnitTypes>>
    decreases |items|
  {
    if items == [] then Ok([])
    else
      var head :- ReadCompileUnit(items[0], CompileUnitTypes("", []));
      var tail :- ReadCompileUnits(items[1..]);
      Ok([head] + tail)
  }
}
