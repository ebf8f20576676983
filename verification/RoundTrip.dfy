/** Reading back what was written gives the original value, although empty and zero fields are not written. */
module RoundTrip {
  import opened Wrappers
  import opened TypeTree
  import opened Yaml
  import opened DimetaIO

  lemma {:induction false} TagsReadBack(t: CompoundTag)
    ensures ReadTag(Text(TagText(t))) == Ok(t)
  {
  }

  lemma {:induction false} EncodingsReadBack(e: Encoding)
    ensures ReadEncoding(Text(EncodingText(e))) == Ok(e)
  {
  }

  lemma {:induction false} QualifiersReadBack(qs: seq<Qualifier>)
    ensures ReadQualifiers(QualifierTexts(qs).items) == Ok(qs)
  {
    if qs != [] {
      QualifiersReadBack(qs[1..]);
      assert QualifierTexts(qs).items[1..] == QualifierTexts(qs[1..]).items;
      assert ReadQualifier(QualifierTexts(qs).items[0]) == Ok(qs[0]);
      assert qs == [qs[0]] + qs[1..];
    }
  }

  /** The fields of a qualified type, next to the field that holds the type itself. */
  lemma {:induction false} InfoReadsBack(key: Key, value: Doc, q: QualInfo)
    requires key == KCompound || key == KFundamental
    ensures var d := Map(Put(key, true, value, WriteInfo(q)));
            Get(d, key) == Some(value) && ReadInfo(d, NO_INFO) == Ok(q)
  {
    var d := Map(Put(key, true, value, WriteInfo(q)));
    InfoGets(key, value, q);
    hide ReadNums, ReadQualifiers, Nums, QualifierTexts, ReadInfo, WriteInfo, Put, Find, Get, OptionalNums,
      OptionalQualifiers, OptionalText;
    NumsReadBack(d, KArray, q.arraySize, []);
    QualifiersFieldReadsBack(d, q.qual);
    TextReadsBack(d, KTypedef, q.typedefName, "");
    hide Overwrite;
    assert Overwrite([], q.arraySize) == q.arraySize by {
      OverwriteEmpty(q.arraySize);
    }
    InfoFromFields(d, q);
  }

  lemma {:induction false} InfoGets(key: Key, value: Doc, q: QualInfo)
    requires key == KCompound || key == KFundamental
    ensures var d := Map(Put(key, true, value, WriteInfo(q)));
            Get(d, key) == Some(value) &&
            Get(d, KArray) == When(q.arraySize != [], Nums(q.arraySize)) &&
            Get(d, KQualifiers) == When(q.qual != [], QualifierTexts(q.qual)) &&
            Get(d, KTypedef) == When(q.typedefName != "", Text(q.typedefName)) &&
            Get(d, KVector) == When(q.isVector, Flag(q.isVector)) &&
            Get(d, KVectorSize) == When(q.vectorSize != 0, Num(q.vectorSize)) &&
            Get(d, KForwardDecl) == When(q.isForwardDecl, Flag(q.isForwardDecl)) &&
            Get(d, KRecurring) == When(q.isRecurring, Flag(q.isRecurring))
  {
    InfoFields(q);
    hide Nums, QualifierTexts, WriteInfo;
    FindPut(key, true, value, WriteInfo(q));
  }

  function When(present: bool, d: Doc): Option<Doc> { if present then Some(d) else None }

  lemma {:induction false} InfoFields(q: QualInfo)
    ensures var fs := WriteInfo(q);
            Find(fs, KArray) == When(q.arraySize != [], Nums(q.arraySize)) &&
            Find(fs, KQualifiers) == When(q.qual != [], QualifierTexts(q.qual)) &&
            Find(fs, KTypedef) == When(q.typedefName != "", Text(q.typedefName)) &&
            Find(fs, KVector) == When(q.isVector, Flag(q.isVector)) &&
            Find(fs, KVectorSize) == When(q.vectorSize != 0, Num(q.vectorSize)) &&
            Find(fs, KForwardDecl) == When(q.isForwardDecl, Flag(q.isForwardDecl)) &&
            Find(fs, KRecurring) == When(q.isRecurring, Flag(q.isRecurring))
  {
    hide Nums, QualifierTexts, Put, Find;
    FindInInfo(q.arraySize != [], q.qual != [], q.typedefName != "", q.isVector, q.vectorSize != 0, q.isForwardDecl,
               q.isRecurring, Nums(q.arraySize), QualifierTexts(q.qual), Text(q.typedefName), Flag(q.isVector),
               Num(q.vectorSize), Flag(q.isForwardDecl), Flag(q.isRecurring));
  }

  lemma {:induction false} FindInInfo(p1: bool, p2: bool, p3: bool, p4: bool, p5: bool, p6: bool, p7: bool,
                                      d1: Doc, d2: Doc, d3: Doc, d4: Doc, d5: Doc, d6: Doc, d7: Doc)
    ensures var fs := Put(KArray, p1, d1, Put(KQualifiers, p2, d2, Put(KTypedef, p3, d3, Put(KVector, p4, d4,
                      Put(KVectorSize, p5, d5, Put(KForwardDecl, p6, d6, Put(KRecurring, p7, d7, map[])))))));
            Find(fs, KArray) == When(p1, d1) && Find(fs, KQualifiers) == When(p2, d2) &&
            Find(fs, KTypedef) == When(p3, d3) && Find(fs, KVector) == When(p4, d4) &&
            Find(fs, KVectorSize) == When(p5, d5) && Find(fs, KForwardDecl) == When(p6, d6) &&
            Find(fs, KRecurring) == When(p7, d7)
  {
  }

  /** All fields read back one by one read back together. */
  lemma {:induction false} InfoFromFields(d: Doc, q: QualInfo)
    requires OptionalNums(d, KArray, []) == Ok(q.arraySize) && OptionalQualifiers(d, KQualifiers, []) == Ok(q.qual)
    requires OptionalText(d, KTypedef, "") == Ok(q.typedefName) && OptionalFlag(d, KVector, false) == Ok(q.isVector)
    requires OptionalNum(d, KVectorSize, 0) == Ok(q.vectorSize)
    requires OptionalFlag(d, KForwardDecl, false) == Ok(q.isForwardDecl)
    requires OptionalFlag(d, KRecurring, false) == Ok(q.isRecurring)
    ensures ReadInfo(d, NO_INFO) == Ok(q)
  {
    hide OptionalNums, OptionalQualifiers, OptionalText, OptionalFlag, OptionalNum;
  }

  lemma OverwriteEmpty(ns: seq<nat>)
    ensures Overwrite([], ns) == ns
  {
    assert ns + [] == ns;
  }

  lemma {:induction false} NumsReadBack(d: Doc, key: Key, ns: seq<nat>, target: seq<nat>)
    requires Get(d, key) == When(ns != [], Nums(ns))
    ensures OptionalNums(d, key, target) == Ok(Overwrite(target, ns))
  {
    ReadWrittenNums(ns);
    assert Overwrite(target, []) == target;
  }

  lemma {:induction false} QualifiersFieldReadsBack(d: Doc, qs: seq<Qualifier>)
    requires Get(d, KQualifiers) == When(qs != [], QualifierTexts(qs))
    ensures OptionalQualifiers(d, KQualifiers, []) == Ok(qs)
  {
    QualifiersReadBack(qs);
    assert qs + [] == qs;
  }

  lemma {:induction false} TextReadsBack(d: Doc, key: Key, s: string, target: string)
    requires Get(d, key) == When(s != "", Text(s))
    ensures OptionalText(d, key, target) == Ok(if s == "" then target else s)
  {
  }

  lemma {:induction false} FundamentalReadsBack(f: Fundamental)
    ensures ReadFundamental(WriteFundamental(f), NO_FUNDAMENTAL) == Ok(f)
  {
    EncodingsReadBack(f.encoding);
  }

  lemma {:induction false} QualifiedFundamentalReadsBack(f: QualifiedFundamental)
    ensures ReadQualifiedFundamental(WriteQualifiedFundamental(f), QualifiedFundamental(NO_FUNDAMENTAL, NO_INFO))
         == Ok(f)
  {
    hide WriteInfo, ReadInfo, WriteFundamental, ReadFundamental;
    FundamentalReadsBack(f.ty);
    InfoReadsBack(KFundamental, WriteFundamental(f.ty), f.info);
  }

  lemma {:induction false} QualifiedCompoundReadsBack(c: QualifiedCompound)
    ensures ReadQualifiedCompound(WriteQualifiedCompound(c), NO_QUALIFIED_COMPOUND) == Ok(c)
    decreases c
  {
    hide WriteInfo, ReadInfo, WriteCompound, ReadCompound;
    CompoundReadsBack(c.ty);
    InfoReadsBack(KCompound, WriteCompound(c.ty), c.info);
  }

  lemma {:induction false} CompoundReadsBack(c: Compound)
    ensures ReadCompound(WriteCompound(c), NO_COMPOUND) == Ok(c)
    decreases c, 1
  {
    CompoundReadsInto(c, NO_COMPOUND);
    OverwriteEmpty(c.sizes);
    OverwriteEmpty(c.offsets);
    assert [] + c.bases == c.bases && [] + c.members == c.members && [] + c.staticMembers == c.staticMembers;
  }

  /** A compound read into one that already holds something: members and base classes are appended, offsets and sizes
      overwritten from the front, and an empty identifier leaves the old one. */
  function ReadInto(c: Compound, target: Compound): Compound {
    c.(identifier := if c.identifier == "" then target.identifier else c.identifier,
    sizes := Overwrite(target.sizes, c.sizes), offsets := Overwrite(target.offsets, c.offsets),
    bases := target.bases + c.bases, members := target.members + c.members,
    staticMembers := target.staticMembers + c.staticMembers)
  }

  lemma {:induction false} CompoundReadsInto(c: Compound, target: Compound)
    ensures ReadCompound(WriteCompound(c), target) == Ok(ReadInto(c, target))
    decreases c, 0
  {
    hide WriteBases, WriteMembers, ReadTag, TagText, Nums, ReadNums, ReadBases, ReadMembers, ReadCompound, Overwrite;
    TagsReadBack(c.tag);
    BasesReadBack(c.bases, |c.bases|);
    MembersReadBack(c.members, |c.members|);
    MembersReadBack(c.staticMembers, |c.staticMembers|);
    assert c.bases[..|c.bases|] == c.bases && c.members[..|c.members|] == c.members;
    assert c.staticMembers[..|c.staticMembers|] == c.staticMembers;
    var d := WriteCompound(c);
    CompoundFields(c);
    hide WriteCompound;
    TextReadsBack(d, KIdentifier, c.identifier, target.identifier);
    NumsReadBack(d, KSizes, c.sizes, target.sizes);
    NumsReadBack(d, KOffsets, c.offsets, target.offsets);
    CompoundFromFields(d, c, target);
  }

  lemma {:induction false} CompoundFields(c: Compound)
    ensures var d := WriteCompound(c);
            d.Map? &&
            Get(d, KName) == Some(Text(c.name)) &&
            Get(d, KIdentifier) == When(c.identifier != "", Text(c.identifier)) &&
            Get(d, KType) == Some(Text(TagText(c.tag))) &&
            Get(d, KExtent) == Some(Num(c.extent)) &&
            Get(d, KSizes) == When(c.sizes != [], Nums(c.sizes)) &&
            Get(d, KOffsets) == When(c.offsets != [], Nums(c.offsets)) &&
            Get(d, KBase) == When(c.bases != [], WriteBases(c.bases)) &&
            Get(d, KMembers) == When(c.members != [], WriteMembers(c.members)) &&
            Get(d, KStaticMembers) == When(c.staticMembers != [], WriteMembers(c.staticMembers))
  {
    hide Find, Put, Nums, WriteBases, WriteMembers, TagText;
    FindInCompound(c.identifier != "", c.sizes != [], c.offsets != [], c.bases != [], c.members != [],
                   c.staticMembers != [], Text(c.name), Text(c.identifier), Text(TagText(c.tag)), Num(c.extent),
                   Nums(c.sizes), Nums(c.offsets), WriteBases(c.bases), WriteMembers(c.members),
                   WriteMembers(c.staticMembers));
  }

  lemma {:induction false} FindInCompound(p2: bool, p5: bool, p6: bool, p7: bool, p8: bool, p9: bool, d1: Doc, d2: Doc,
                                          d3: Doc, d4: Doc, d5: Doc, d6: Doc, d7: Doc, d8: Doc, d9: Doc)
    ensures var fs := Put(KName, true, d1, Put(KIdentifier, p2, d2, Put(KType, true, d3, Put(KExtent, true, d4,
                      Put(KSizes, p5, d5, Put(KOffsets, p6, d6, Put(KBase, p7, d7, Put(KMembers, p8, d8,
                      Put(KStaticMembers, p9, d9, map[])))))))));
            Find(fs, KName) == Some(d1) && Find(fs, KIdentifier) == When(p2, d2) && Find(fs, KType) == Some(d3) &&
            Find(fs, KExtent) == Some(d4) && Find(fs, KSizes) == When(p5, d5) && Find(fs, KOffsets) == When(p6, d6) &&
            Find(fs, KBase) == When(p7, d7) && Find(fs, KMembers) == When(p8, d8) &&
            Find(fs, KStaticMembers) == When(p9, d9)
  {
  }

  lemma {:induction false} CompoundFromFields(d: Doc, c: Compound, target: Compound)
    requires Get(d, KName) == Some(Text(c.name))
    requires OptionalText(d, KIdentifier, target.identifier)
          == Ok(if c.identifier == "" then target.identifier else c.identifier)
    requires Get(d, KType).Some? && ReadTag(Get(d, KType).value) == Ok(c.tag)
    requires Get(d, KExtent) == Some(Num(c.extent))
    requires OptionalNums(d, KSizes, target.sizes) == Ok(Overwrite(target.sizes, c.sizes))
    requires OptionalNums(d, KOffsets, target.offsets) == Ok(Overwrite(target.offsets, c.offsets))
    requires match Get(d, KBase)
             case Some(v) => v.Seq? && ReadBases(v, |v.items|) == Ok(c.bases)
             case None => c.bases == []
    requires match Get(d, KMembers)
             case Some(v) => v.Seq? && ReadMembers(v, |v.items|) == Ok(c.members)
             case None => c.members == []
    requires match Get(d, KStaticMembers)
             case Some(v) => v.Seq? && ReadMembers(v, |v.items|) == Ok(c.staticMembers)
             case None => c.staticMembers == []
    ensures ReadCompound(d, target) == Ok(ReadInto(c, target))
  {
    hide Overwrite, OptionalNums, OptionalText, ReadTag, ReadBases, ReadMembers, Get;
  }

  lemma {:induction false} BasesReadBack(bs: seq<BaseClass>, n: nat)
    requires n <= |bs|
    ensures WriteBases(bs).Seq? && |WriteBases(bs).items| == |bs| && ReadBases(WriteBases(bs), n) == Ok(bs[..n])
    decreases bs, n
  {
    hide ReadBase;
    if n > 0 {
      BasesReadBack(bs, n - 1);
      BaseReadsBack(bs[n - 1]);
      assert bs[..n] == bs[..n - 1] + [bs[n - 1]];
    }
  }

  lemma {:induction false} BaseReadsBack(b: BaseClass)
    ensures ReadBase(WriteBase(b), BaseClass(NO_QUALIFIED_COMPOUND, 0, false)) == Ok(b)
    decreases b
  {
    hide ReadQualifiedCompound, WriteQualifiedCompound;
    QualifiedCompoundReadsBack(b.base);
  }

  lemma {:induction false} MembersReadBack(ms: seq<Member>, n: nat)
    requires n <= |ms|
    ensures WriteMembers(ms).Seq? && |WriteMembers(ms).items| == |ms| && ReadMembers(WriteMembers(ms), n) == Ok(ms[..n])
    decreases ms, n
  {
    hide ReadMember;
    if n > 0 {
      MembersReadBack(ms, n - 1);
      MemberReadsBack(ms[n - 1]);
      assert ms[..n] == ms[..n - 1] + [ms[n - 1]];
    }
  }

  lemma {:induction false} MemberReadsBack(m: Member)
    ensures ReadMember(WriteMember(m)) == Ok(m)
    decreases m
  {
    hide ReadType, WriteType;
    OwnedTypeReadsBack(KName, Text(m.name), m.member);
  }

  /** A qualified type is found again in the mapping of its owner. */
  lemma {:induction false} TypeReadsBack(t: QualifiedType, owner: Doc)
    requires Get(owner, KBuiltin) == Some(Flag(t.HasFundamental?))
    requires Get(owner, KType) == Some(match t
                                       case HasFundamental(f) => WriteQualifiedFundamental(f)
                                       case HasCompound(c) => WriteQualifiedCompound(c))
    ensures ReadType(owner) == Ok(t)
    decreases t, 0
  {
    hide ReadQualifiedCompound, ReadQualifiedFundamental, WriteQualifiedFundamental, WriteQualifiedCompound;
    match t
    case HasFundamental(f) => QualifiedFundamentalReadsBack(f);
    case HasCompound(c) => QualifiedCompoundReadsBack(c);
  }

  lemma {:induction false} OwnedTypeReadsBack(key: Key, value: Doc, t: QualifiedType)
    requires key == KName || key == KSourceLoc
    ensures var owner := Map(Put(key, true, value, WriteType(t)));
            Get(owner, key) == Some(value) && ReadType(owner) == Ok(t)
    decreases t, 1
  {
    hide ReadType, WriteQualifiedFundamental, WriteQualifiedCompound;
    var owner := Map(Put(key, true, value, WriteType(t)));
    var content := match t
      case HasFundamental(f) => WriteQualifiedFundamental(f)
      case HasCompound(c) => WriteQualifiedCompound(c);
    assert WriteType(t) == Put(KBuiltin, true, Flag(t.HasFundamental?), Put(KType, true, content, map[]));
    TypeReadsBack(t, owner);
  }

  /** The default-constructed target of the input functions. */
  const NO_LOCATED_TYPE := LocatedType(SourceLocation("", "", 0), DEFAULT_TYPE)

  lemma {:induction false} LocatedTypeReadsBack(l: LocatedType)
    ensures ReadLocatedType(WriteLocatedType(l), NO_LOCATED_TYPE) == Ok(l)
  {
    hide ReadType, WriteType;
    OwnedTypeReadsBack(KSourceLoc, WriteLocation(l.location), l.ty);
  }

  lemma {:induction false} TypesReadBack(ts: seq<QualifiedType>)
    ensures WriteTypes(ts).Seq? && ReadTypes(WriteTypes(ts).items) == Ok(ts)
  {
    hide ReadType, WriteQualifiedFundamental, WriteQualifiedCompound;
    if ts != [] {
      TypesReadBack(ts[1..]);
      TypeReadsBack(ts[0], Map(WriteType(ts[0])));
      assert WriteTypes(ts).items[1..] == WriteTypes(ts[1..]).items;
      assert ts == [ts[0]] + ts[1..];
    }
  }

  lemma {:induction false} CompileUnitReadsBack(cu: CompileUnitTypes)
    ensures ReadCompileUnit(WriteCompileUnit(cu), CompileUnitTypes("", [])) == Ok(cu)
  {
    hide WriteTypes, ReadTypes;
    TypesReadBack(cu.types);
    assert cu.types + [] == cu.types;
  }

  lemma {:induction false} CompileUnitsReadBack(cus: seq<CompileUnitTypes>)
    ensures ReadCompileUnits(WriteCompileUnits(cus).items) == Ok(cus)
  {
    hide ReadCompileUnit, WriteCompileUnit;
    if cus != [] {
      CompileUnitsReadBack(cus[1..]);
      CompileUnitReadsBack(cus[0]);
      assert WriteCompileUnits(cus).items[1..] == WriteCompileUnits(cus[1..]).items;
      assert cus == [cus[0]] + cus[1..];
    }
  }

  /** The test oracle: what is written, read and written again is written the same. */
  lemma {:induction false} WritingIsStable(l: LocatedType)
    ensures var read := ReadLocatedType(WriteLocatedType(l), NO_LOCATED_TYPE);
            read.Ok? && WriteLocatedType(read.value) == WriteLocatedType(l)
  {
    LocatedTypeReadsBack(l);
  }
}
