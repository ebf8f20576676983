/** What a document says, field by field: which keys a written mapping has, what stands under them, and which of them
    input asks for. */
module DocumentFields {
  import opened Wrappers
  import opened TypeTree
  import opened Yaml
  import opened DimetaIO

  /** The field is there exactly if `present`, and then holds `value`. */
  predicate HasField(d: Doc, key: Key, present: bool, value: Doc) {
    d.Map? && (key in d.fields <==> present) && (present ==> d.fields[key] == value)
  }

  predicate HasNumbers(d: Doc, key: Key, ns: seq<nat>) {
    d.Map? && (key in d.fields <==> ns != []) &&
    (ns != [] ==>
       d.fields[key].Seq? && |d.fields[key].items| == |ns| &&
       forall i :: 0 <= i < |ns| ==> d.fields[key].items[i] == Num(ns[i]))
  }

  /** The keys of a mapping are among these. */
  predicate HasOnly(d: Doc, keys: set<Key>) { d.Map? && d.fields.Keys <= keys }

  // ---- Texts --------------------------------------------------------------------------------------------------

  lemma TagsAreWritten()
    ensures TagText(StructCompound) == "struct" && TagText(ClassCompound) == "class"
    ensures TagText(UnionCompound) == "union" && TagText(EnumCompound) == "enum"
    ensures TagText(EnumClassCompound) == "enum_class" && TagText(UnknownCompound) == "unknown"
  {
  }

  lemma QualifiersAreWritten()
    ensures QualifierText(QConst) == "const" && QualifierText(QPtr) == "ptr" && QualifierText(QRef) == "ref"
    ensures QualifierText(QPtrToMember) == "ptr_to_mem" && QualifierText(QArray) == "array"
    ensures QualifierText(QVector) == "vector" && QualifierText(QStatic) == "static" && QualifierText(QNone) == "none"
  {
  }

  lemma EncodingsAreWritten()
    ensures EncodingText(UnknownEnc) == "unknown" && EncodingText(BoolEnc) == "bool" && EncodingText(CharEnc) == "char"
    ensures EncodingText(FloatEnc) == "float" && EncodingText(IntEnc) == "int" && EncodingText(SignedEnc) == "signed"
    ensures EncodingText(UnsignedEnc) == "unsigned" && EncodingText(SignedCharEnc) == "signed_char"
    ensures EncodingText(UnsignedCharEnc) == "unsigned_char" && EncodingText(SignedIntEnc) == "signed_int"
    ensures EncodingText(UnsignedIntEnc) == "unsigned_int" && EncodingText(PaddingEnc) == "padding"
    ensures EncodingText(VoidEnc) == "void_ptr" && EncodingText(VtablePtrEnc) == "vtable_ptr"
    ensures EncodingText(NullptrEnc) == "nullptr" && EncodingText(UTFCharEnc) == "utf_char"
    ensures EncodingText(ComplexEnc) == "complex" && EncodingText(FunctionPtrEnc) == "function_ptr"
    ensures EncodingText(StringEnc) == "string"
  {
  }

  // ---- Mappings -----------------------------------------------------------------------------------------------

  lemma {:induction false} InfoIsWritten(q: QualInfo)
    ensures var d := Map(WriteInfo(q));
            HasNumbers(d, KArray, q.arraySize) &&
            (KQualifiers in d.fields <==> q.qual != []) &&
            (q.qual != [] ==>
               d.fields[KQualifiers].Seq? && |d.fields[KQualifiers].items| == |q.qual| &&
               forall i :: 0 <= i < |q.qual| ==> d.fields[KQualifiers].items[i] == Text(QualifierText(q.qual[i]))) &&
            HasField(d, KTypedef, q.typedefName != "", Text(q.typedefName)) &&
            HasField(d, KVector, q.isVector, Flag(true)) &&
            HasField(d, KVectorSize, q.vectorSize != 0, Num(q.vectorSize)) &&
            HasField(d, KForwardDecl, q.isForwardDecl, Flag(true)) &&
            HasField(d, KRecurring, q.isRecurring, Flag(true)) &&
            HasOnly(d, {KArray, KQualifiers, KTypedef, KVector, KVectorSize, KForwardDecl, KRecurring})
  {
  }

  lemma {:induction false} FundamentalIsWritten(f: QualifiedFundamental)
    ensures var d := WriteQualifiedFundamental(f);
            var info := WriteInfo(f.info);
            d.Map? && d.fields.Keys == info.Keys + {KFundamental} &&
            (forall k :: k in info && k != KFundamental ==> d.fields[k] == info[k]) &&
            var t := d.fields[KFundamental];
            HasField(t, KName, true, Text(f.ty.name)) && HasField(t, KExtent, true, Num(f.ty.extent)) &&
            HasField(t, KEncoding, true, Text(EncodingText(f.ty.encoding))) && HasOnly(t, {KName, KExtent, KEncoding})
  {
  }

  lemma {:induction false} CompoundIsWritten(c: QualifiedCompound)
    ensures var d := WriteQualifiedCompound(c);
            var info := WriteInfo(c.info);
            d.Map? && d.fields.Keys == info.Keys + {KCompound} &&
            (forall k :: k in info && k != KCompound ==> d.fields[k] == info[k]) &&
            d.fields[KCompound] == WriteCompound(c.ty)
  {
  }

  /** A compound: scalars always ... */
  lemma {:induction false} CompoundScalarsAreWritten(c: Compound)
    ensures var d := WriteCompound(c);
            HasField(d, KName, true, Text(c.name)) &&
            HasField(d, KIdentifier, c.identifier != "", Text(c.identifier)) &&
            HasField(d, KType, true, Text(TagText(c.tag))) && HasField(d, KExtent, true, Num(c.extent))
    ensures HasOnly(WriteCompound(c),
                    {KName, KIdentifier, KType, KExtent, KSizes, KOffsets, KBase, KMembers, KStaticMembers})
  {
    hide WriteBases, WriteMembers, Nums, TagText;
  }

  /** ... and lists only if they are not empty. */
  lemma {:induction false} CompoundListsAreWritten(c: Compound)
    ensures var d := WriteCompound(c);
            HasField(d, KBase, c.bases != [], WriteBases(c.bases)) &&
            HasField(d, KMembers, c.members != [], WriteMembers(c.members)) &&
            HasField(d, KStaticMembers, c.staticMembers != [], WriteMembers(c.staticMembers))
  {
    hide WriteBases, WriteMembers, Nums, TagText;
  }

  lemma {:induction false} CompoundNumbersAreWritten(c: Compound)
    ensures var d := WriteCompound(c);
            HasField(d, KSizes, c.sizes != [], Nums(c.sizes)) && HasField(d, KOffsets, c.offsets != [], Nums(c.offsets))
  {
    hide WriteBases, WriteMembers, Nums, TagText;
  }

  lemma {:induction false} BaseIsWritten(b: BaseClass)
    ensures var d := WriteBase(b);
            HasField(d, KBaseClass, true, WriteQualifiedCompound(b.base)) &&
            HasField(d, KOffset, b.offset != 0, Num(b.offset)) && HasField(d, KEBO, b.isEmptyBaseClass, Flag(true)) &&
            HasOnly(d, {KBaseClass, KOffset, KEBO})
  {
    hide WriteQualifiedCompound;
  }

  /** The mapping says whether the type is a fundamental one, and holds the content of that alternative. */
  predicate SaysType(d: Doc, t: QualifiedType) {
    HasField(d, KBuiltin, true, Flag(t.HasFundamental?)) &&
    match t
    case HasFundamental(f) => HasField(d, KType, true, WriteQualifiedFundamental(f))
    case HasCompound(c) => HasField(d, KType, true, WriteQualifiedCompound(c))
  }

  lemma {:induction false} MemberIsWritten(m: Member)
    ensures var d := WriteMember(m);
            HasField(d, KName, true, Text(m.name)) && SaysType(d, m.member) && HasOnly(d, {KName, KBuiltin, KType})
  {
    hide WriteQualifiedCompound, WriteQualifiedFundamental;
  }

  /** Lists hold one entry after the other. */
  lemma {:induction false} ListsAreWritten(bs: seq<BaseClass>, ms: seq<Member>, ns: seq<nat>)
    ensures Nums(ns).Seq? && |Nums(ns).items| == |ns| && forall i :: 0 <= i < |ns| ==> Nums(ns).items[i] == Num(ns[i])
    ensures WriteBases(bs).Seq? && |WriteBases(bs).items| == |bs|
    ensures forall i :: 0 <= i < |bs| ==> WriteBases(bs).items[i] == WriteBase(bs[i])
    ensures WriteMembers(ms).Seq? && |WriteMembers(ms).items| == |ms|
    ensures forall i :: 0 <= i < |ms| ==> WriteMembers(ms).items[i] == WriteMember(ms[i])
  {
    hide WriteBase, WriteMember;
  }

  lemma {:induction false} LocatedTypeIsWritten(l: LocatedType)
    ensures var d := WriteLocatedType(l);
            SaysType(d, l.ty) && HasOnly(d, {KSourceLoc, KBuiltin, KType}) && KSourceLoc in d.fields &&
            var s := d.fields[KSourceLoc];
            HasField(s, KFile, true, Text(l.location.file)) &&
            HasField(s, KFunction, true, Text(l.location.function_)) &&
            HasField(s, KLine, true, Num(l.location.line)) && HasOnly(s, {KFile, KFunction, KLine})
  {
    hide WriteQualifiedCompound, WriteQualifiedFundamental;
  }

  lemma {:induction false} CompileUnitIsWritten(cu: CompileUnitTypes)
    ensures var d := WriteCompileUnit(cu);
            HasField(d, KCUName, true, Text(cu.name)) && HasOnly(d, {KCUName, KTypes}) &&
            (KTypes in d.fields <==> cu.types != []) &&
            (cu.types != [] ==>
               d.fields[KTypes].Seq? && |d.fields[KTypes].items| == |cu.types| &&
               forall i :: 0 <= i < |cu.types| ==> SaysType(d.fields[KTypes].items[i], cu.types[i]))
  {
    hide WriteQualifiedCompound, WriteQualifiedFundamental;
  }

  // ---- What input asks for ------------------------------------------------------------------------------------

  predicate HasText(d: Doc, key: Key) { d.Map? && key in d.fields && d.fields[key].Text? }

  predicate HasNumber(d: Doc, key: Key) { d.Map? && key in d.fields && d.fields[key].Num? }

  /** An optional field, if it is there, is a list of numbers. */
  predicate MayHaveNumbers(d: Doc, key: Key)
    requires d.Map?
  {
    key in d.fields ==> d.fields[key].Seq? && forall x :: x in d.fields[key].items ==> x.Num?
  }

  lemma {:induction false} NumbersAreRead(items: seq<Doc>)
    ensures ReadNums(items).Ok? <==> forall x :: x in items ==> x.Num?
    decreases |items|
  {
    if items != [] {
      NumbersAreRead(items[1..]);
      assert items == [items[0]] + items[1..];
    }
  }

  predicate MayHaveBases(d: Doc)
    requires d.Map?
  {
    KBase in d.fields ==>
      var v := d.fields[KBase]; v.Seq? && ReadBases(v, |v.items|).Ok?
  }

  predicate MayHaveMembers(d: Doc, key: Key)
    requires d.Map?
  {
    key in d.fields ==>
      var v := d.fields[key]; v.Seq? && ReadMembers(v, |v.items|).Ok?
  }

  /** Input of a compound succeeds exactly if name, a known type and extent are there, and what else there is fits; what
      is not mentioned is kept. */
  lemma {:induction false} CompoundNeeds(d: Doc, target: Compound)
    ensures ReadCompound(d, target).Ok? <==>
            HasText(d, KName) && HasText(d, KType) && ReadTag(d.fields[KType]).Ok? && HasNumber(d, KExtent) &&
            (KIdentifier in d.fields ==> HasText(d, KIdentifier)) &&
            MayHaveNumbers(d, KSizes) && MayHaveNumbers(d, KOffsets) && MayHaveBases(d) &&
            MayHaveMembers(d, KMembers) && MayHaveMembers(d, KStaticMembers)
    ensures ReadCompound(d, target).Ok? ==>
              var c := ReadCompound(d, target).value;
              c.name == d.fields[KName].text && TagText(c.tag) == d.fields[KType].text &&
              c.extent == d.fields[KExtent].num &&
              (KIdentifier !in d.fields ==> c.identifier == target.identifier) &&
              (KSizes !in d.fields ==> c.sizes == target.sizes) &&
              (KOffsets !in d.fields ==> c.offsets == target.offsets) &&
              (KBase !in d.fields ==> c.bases == target.bases) &&
              (KMembers !in d.fields ==> c.members == target.members) &&
              (KStaticMembers !in d.fields ==> c.staticMembers == target.staticMembers)
  {
    hide ReadBases, ReadMembers, ReadNums, Overwrite;
    if d.Map? && KSizes in d.fields && d.fields[KSizes].Seq? {
      NumbersAreRead(d.fields[KSizes].items);
    }
    if d.Map? && KOffsets in d.fields && d.fields[KOffsets].Seq? {
      NumbersAreRead(d.fields[KOffsets].items);
    }
  }

  lemma {:induction false} FundamentalNeeds(d: Doc, target: Fundamental)
    ensures ReadFundamental(d, target).Ok? <==>
            HasText(d, KName) && KEncoding in d.fields && ReadEncoding(d.fields[KEncoding]).Ok? &&
            (KExtent in d.fields ==> HasNumber(d, KExtent))
    ensures ReadFundamental(d, target).Ok? ==>
              var f := ReadFundamental(d, target).value;
              f.name == d.fields[KName].text && ReadEncoding(d.fields[KEncoding]) == Ok(f.encoding) &&
              (KExtent !in d.fields ==> f.extent == target.extent)
  {
    hide ReadEncoding;
  }

  /** Of the two alternatives, the flag decides which content is read; a member has a name besides, a base class a
      compound. */
  lemma {:induction false} TypeNeeds(d: Doc)
    ensures ReadType(d).Ok? <==>
            d.Map? && KBuiltin in d.fields && d.fields[KBuiltin].Flag? && KType in d.fields &&
            if d.fields[KBuiltin].flag then
              ReadQualifiedFundamental(d.fields[KType], QualifiedFundamental(NO_FUNDAMENTAL, NO_INFO)).Ok?
            else ReadQualifiedCompound(d.fields[KType], NO_QUALIFIED_COMPOUND).Ok?
    ensures ReadType(d).Ok? ==> (ReadType(d).value.HasFundamental? <==> d.fields[KBuiltin].flag)
    ensures ReadMember(d).Ok? <==> HasText(d, KName) && ReadType(d).Ok?
    ensures ReadMember(d).Ok? ==> ReadMember(d) == Ok(Member(d.fields[KName].text, ReadType(d).value))
    ensures forall target :: ReadBase(d, target).Ok? ==> d.Map? && KBaseClass in d.fields
  {
    hide ReadQualifiedCompound, ReadQualifiedFundamental;
  }

  lemma {:induction false} LocatedTypeNeeds(d: Doc, target: LocatedType)
    ensures ReadLocatedType(d, target).Ok? <==>
            d.Map? && KSourceLoc in d.fields && ReadType(d).Ok? &&
            var s := d.fields[KSourceLoc];
            HasText(s, KFile) && HasNumber(s, KLine) && (KFunction in s.fields ==> HasText(s, KFunction))
    ensures ReadLocatedType(d, target).Ok? ==>
              var l := ReadLocatedType(d, target).value;
              var s := d.fields[KSourceLoc];
              ReadType(d) == Ok(l.ty) && l.location.file == s.fields[KFile].text &&
              l.location.line == s.fields[KLine].num &&
              (KFunction !in s.fields ==> l.location.function_ == target.location.function_)
  {
    hide ReadType;
  }

  /** Input into a vector replaces its elements from the front and keeps the rest of a longer one. */
  lemma OverwritesFromFront<T>(target: seq<T>, read: seq<T>)
    ensures |Overwrite(target, read)| == if |read| < |target| then |target| else |read|
    ensures forall i :: 0 <= i < |Overwrite(target, read)| ==>
                          Overwrite(target, read)[i] == if i < |read| then read[i] else target[i]
  {
  }
}
