/** The type of an allocation: located_type_for of lib/type/SourceLocType.cpp. Pointer levels are counted apart from the
    parser's qualifier list, by final_ditype of lib/type/Dimeta.cpp; reset_pointer_qualifier reconciles the two. */
module LocatedType {
  import opened Wrappers
  import opened TypeTree
  import opened TypeGraph
  import opened ParseState
  import opened Walk
  import opened Denotation
  import opened ChainLemmas
  import opened Fidelity
  import opened NodeFacts
  import opened DimetaParse
  import opened Shapes

  function PointerCount(quals: seq<Qualifier>): nat {
    if quals == [] then 0 else (if quals[0] == QPtr then 1 else 0) + PointerCount(quals[1..])
  }

  /** The pointers of a chain before its first array. */
  function PointerLevel(links: seq<Node>): nat {
    if links == [] || IsArray(links[0]) then 0
    else (if links[0].Derived? && links[0].tag == PointerTag then 1 else 0) + PointerLevel(links[1..])
  }

  /** The links from the first array on. */
  function FromFirstArray(links: seq<Node>): seq<Node> {
    if links == [] || IsArray(links[0]) then links else FromFirstArray(links[1..])
  }

  /** The base type of an allocation and its pointer level; a void* chain stops at its last derived type. */
  method FinalDitype(g: Graph, root: Option<Id>) returns (ty: Option<Id>, level: nat)
    requires g.TypeOk(root)
    ensures ty.Some? == root.Some?
    ensures root.Some? ==> g.TypeOk(ty) && (!g.nodes[ty.value].Derived? || g.nodes[ty.value].baseType == None)
    ensures !EndsInVtable(g, root) ==> level == PointerLevel(Links(g, root)) && EndOf(g, ty) == EndOf(g, root)
  {
    if root.None? {
      return None, 0;
    }
    level := 0;
    var t := root.value;
    while g.nodes[t].Derived?
      invariant g.TypeOk(Some(t))
      invariant !EndsInVtable(g, root) ==>
                  !EndsInVtable(g, Some(t)) && EndOf(g, Some(t)) == EndOf(g, root) &&
                  level + PointerLevel(Links(g, Some(t))) == PointerLevel(Links(g, root))
      decreases Rank(g, Some(t))
    {
      var n := g.nodes[t];
      RankDecreases(g, t);
      if !EndsInVtable(g, Some(t)) {
        FirstLink(g, t);
      }
      if n.tag == PointerTag {
        level := level + 1;
      }
      if n.baseType == None {
        return Some(t), level;
      }
      t := n.baseType.value;
    }
    return Some(t), level;
  }

  lemma {:induction false} FirstLink(g: Graph, t: Id)
    requires g.TypeOk(Some(t)) && g.nodes[t].Derived? && !EndsInVtable(g, Some(t))
    ensures var n := g.nodes[t];
            var next := Follow(g, t);
            next == n.baseType && !EndsInVtable(g, next) && EndOf(g, next) == EndOf(g, Some(t)) &&
            PointerLevel(Links(g, Some(t))) == (if n.tag == PointerTag then 1 else 0) + PointerLevel(Links(g, next))
  {
    var next := Follow(g, t);
    assert Links(g, Some(t)) == [g.nodes[t]] + Links(g, next);
  }

  lemma {:induction false} PointersAppend(a: seq<Qualifier>, b: seq<Qualifier>)
    ensures PointerCount(a + b) == PointerCount(a) + PointerCount(b)
    decreases |a|
  {
    if a == [] {
      assert a + b == b;
    } else {
      PointersAppend(a[1..], b);
      assert (a + b)[1..] == a[1..] + b;
    }
  }

  /** The parser's list holds the pointers that final_ditype counts, and the ones from the first array on. */
  lemma {:induction false} PointersAgree(links: seq<Node>)
    requires forall n :: n in links ==> IsChainLink(n)
    ensures PointerCount(Qualifiers(links))
         == PointerLevel(links) + PointerCount(Qualifiers(FromFirstArray(links)))
    decreases |links|
  {
    if links != [] && !IsArray(links[0]) {
      PointersAgree(links[1..]);
      PointersAppend(LinkQualifiers(links[0]), Qualifiers(links[1..]));
    }
  }

  function WithPointer(qt: QualifiedType): QualifiedType {
    WithInfo(qt, InfoOf(qt).(qual := [QPtr] + InfoOf(qt).qual))
  }

  /** One pointer is put in front if the list holds fewer than the level asks for. */
  function ResetPointerQualifier(qt: QualifiedType, level: int): QualifiedType {
    if PointerCount(InfoOf(qt).qual) < level then WithPointer(qt) else qt
  }

  /** The entry type of an allocation: of a data member, static or not, the type it is declared with. */
  function EntryType(g: Graph, entry: Id): (t: Option<Id>)
    requires g.NodeOk(entry) && (IsMember(g.nodes[entry]) || IsType(g.nodes[entry]))
    ensures g.TypeOk(t)
  {
    var n := g.nodes[entry];
    if n.Derived? && (n.tag == MemberTag || (n.tag == VariableTag && n.isStatic)) then n.baseType else Some(entry)
  }

  /** What is known about an allocation. Its pointer level is the level of its chain plus `levelOffset`. */
  datatype Allocation = Allocation(
    diLocation: Option<SourceLocation>,
    diVariable: Option<SourceLocation>,
    entryType: Option<Id>,
    levelOffset: int,
    shapes: Option<seq<IndexDim>>)

  /** Where the instruction stands, or else where the variable is declared. */
  function LocationFor(a: Allocation): Option<SourceLocation> {
    if a.diLocation.Some? then a.diLocation else a.diVariable
  }

  predicate HasEntry(g: Graph, a: Allocation) {
    a.entryType.Some? &&
    var entry := a.entryType.value;
    entry in g.nodes && g.NodeOk(entry) && (IsMember(g.nodes[entry]) || IsType(g.nodes[entry])) &&
    EntryType(g, entry).Some? && !EndsInVtable(g, EntryType(g, entry))
  }

  /** The chain, and the level that it is to have, leave a pointer missing. */
  predicate LacksPointer(g: Graph, t: Option<Id>, levelOffset: int)
    requires g.TypeOk(t)
  {
    var links := Links(g, t);
    if Faithful(g, t, {}) || EndOf(g, t).TypeEnd? then PointerCount(Qualifiers(FromFirstArray(links))) < levelOffset
    else PointerLevel(links) + levelOffset > 0
  }

  /** `r` is what the parser returns, with a pointer in front if one is missing, and the array sizes of a shape that was
      recovered. */
  ghost predicate IsReconciled(parsed: QualifiedType, r: QualifiedType, lacksPointer: bool,
                               shapes: Option<seq<IndexDim>>)
  {
    var was, now := InfoOf(parsed), InfoOf(r);
    now.qual == (if lacksPointer then [QPtr] + was.qual else was.qual) &&
    (match shapes case None => now.arraySize == was.arraySize case Some(dims) => AreSizesOf(now.arraySize, dims)) &&
    now == was.(qual := now.qual, arraySize := now.arraySize) &&
    match (parsed, r)
    case (HasCompound(a), HasCompound(b)) => b.ty == a.ty
    case (HasFundamental(a), HasFundamental(b)) => b.ty == a.ty
    case _ => false
  }

  method LocatedTypeFor(g: Graph, a: Allocation) returns (r: Option<LocatedType>)
    requires Conforms(g) && (a.entryType.Some? ==> HasEntry(g, a))
    ensures r.Some? <==> (a.diLocation.Some? || a.diVariable.Some?) && a.entryType.Some?
    ensures r.Some? ==>
              var t := EntryType(g, a.entryType.value);
              r.value.location == (if a.diLocation.Some? then a.diLocation.value else a.diVariable.value) &&
              (Faithful(g, t, {}) ==> Parsed(g, t) == Denote(g, t, {}, FREE)) &&
              IsReconciled(Parsed(g, t), r.value.ty, LacksPointer(g, t, a.levelOffset), a.shapes)
  {
    hide Parsed, Denote, Faithful, EndsInVtable, AreSizesOf, SaysEnd, IsReconciled, LacksPointer, ResetPointerQualifier;
    hide PointerLevel, Links, EndOf, WithPointer, WithInfo, Conforms;
    if LocationFor(a) == None || a.entryType == None {
      return None;
    }
    var entry := a.entryType.value;
    var ty := entry;
    if IsMember(g.nodes[entry]) {
      ty := g.nodes[entry].baseType.value;
    }
    var final, level := FinalDitype(g, Some(ty));
    var parsed := MakeDimetadata(g, ty);
    var qt := ResetPointerQualifier(parsed.value, level + a.levelOffset);
    PointerIsReset(g, Some(ty), a.levelOffset);
    ghost var lacksPointer := LacksPointer(g, Some(ty), a.levelOffset);
    ChangesAreReconciled(parsed.value, lacksPointer);
    if a.shapes.Some? {
      qt := ResetShapeQualifier(qt, a.shapes.value);
      ShapeIsReconciled(parsed.value, lacksPointer, InfoOf(qt).arraySize, a.shapes.value);
    }
    r := Some(LocatedType(LocationFor(a).value, qt));
  }

  /** The level that is counted asks for a pointer exactly if one is missing. */
  lemma {:induction false} PointerIsReset(g: Graph, t: Option<Id>, levelOffset: int)
    requires Conforms(g) && g.TypeOk(t) && !EndsInVtable(g, t)
    requires Faithful(g, t, {}) || EndOf(g, t).TypeEnd? || Parsed(g, t) == DEFAULT_TYPE
    ensures ResetPointerQualifier(Parsed(g, t), PointerLevel(Links(g, t)) + levelOffset)
         == if LacksPointer(g, t, levelOffset) then WithPointer(Parsed(g, t)) else Parsed(g, t)
  {
    hide Parsed, Faithful, Links, FromFirstArray, EndsInVtable;
    NoVtableEnd(g, t);
    if Faithful(g, t, {}) || EndOf(g, t).TypeEnd? {
      ParsedPointers(g, t);
    }
  }

  lemma {:induction false} ChangesAreReconciled(parsed: QualifiedType, lacksPointer: bool)
    ensures IsReconciled(parsed, if lacksPointer then WithPointer(parsed) else parsed, lacksPointer, None)
  {
  }

  /** A recovered shape changes nothing else. */
  lemma {:induction false} ShapeIsReconciled(parsed: QualifiedType, lacksPointer: bool, sizes: seq<nat>,
                                             dims: seq<IndexDim>)
    ensures var qt := if lacksPointer then WithPointer(parsed) else parsed;
            AreSizesOf(sizes, dims) ==>
              IsReconciled(parsed, WithInfo(qt, InfoOf(qt).(arraySize := sizes)), lacksPointer, Some(dims))
  {
    hide AreSizesOf;
  }

  lemma {:induction false} NoVtableEnd(g: Graph, t: Option<Id>)
    requires g.TypeOk(t) && !EndsInVtable(g, t)
    ensures !EndOf(g, t).VtableEnd?
    decreases Rank(g, t)
  {
    if t.Some? && (g.nodes[t.value].Derived? || IsArray(g.nodes[t.value])) {
      NoVtableEnd(g, Follow(g, t.value));
    }
  }

  lemma {:induction false} DenotedPointers(g: Graph, t: Option<Id>)
    requires g.TypeOk(t)
    ensures var links := Links(g, t);
            PointerCount(InfoOf(Denote(g, t, {}, FREE)).qual)
            == PointerLevel(links) + PointerCount(Qualifiers(FromFirstArray(links)))
  {
    hide FundamentalExtent, DenoteCompound;
    var links := Links(g, t);
    LinksAreChainLinks(g, t);
    PointersAgree(links);
    assert Qualifiers(links) + [] == Qualifiers(links);
  }

  /** The parser's qualifiers are right even where the compound behind them is misread. */
  lemma {:induction false} ParsedQualifiers(g: Graph, t: Option<Id>)
    requires g.TypeOk(t) && EndOf(g, t).TypeEnd?
    ensures InfoOf(Parsed(g, t)).qual == Qualifiers(Links(g, t))
  {
    hide FundamentalExtent, WalkElements, MakeInfo, Links, AddLinks, Qualifiers, BasicTypeEncoding, MakeCompound;
    ChainInfo(g, t, CLEAN, FREE);
    WalkFollowsChain(g, t, {}, CLEAN);
    hide WalkType;
    var m := CLEAN.(trail := AddLinks(g, CLEAN.trail, Links(g, t)));
    assert m == m.(ty := m.ty, isForwardDecl := m.isForwardDecl, isRecurring := m.isRecurring);
  }

  lemma {:induction false} ParsedPointers(g: Graph, t: Option<Id>)
    requires Conforms(g) && g.TypeOk(t) && (Faithful(g, t, {}) || EndOf(g, t).TypeEnd?)
    ensures var links := Links(g, t);
            PointerCount(InfoOf(Parsed(g, t)).qual)
            == PointerLevel(links) + PointerCount(Qualifiers(FromFirstArray(links)))
  {
    if EndOf(g, t).TypeEnd? {
      ParsedQualifiers(g, t);
      LinksAreChainLinks(g, t);
      PointersAgree(Links(g, t));
    } else {
      hide Denote, WalkType, Links;
      FaithfulTypeIsDenoted(g, t, {}, CLEAN, FREE);
      DenotedPointers(g, t);
    }
  }

  /** At the level of its own chain a type is left alone; one level up, one without arrays gets exactly one pointer. */
  lemma {:induction false} ResetAtOffset(g: Graph, t: Option<Id>)
    requires g.TypeOk(t)
    ensures var links := Links(g, t);
            var qt := Denote(g, t, {}, FREE);
            ResetPointerQualifier(qt, PointerLevel(links)) == qt &&
            (PointerCount(Qualifiers(FromFirstArray(links))) == 0 ==>
               ResetPointerQualifier(qt, PointerLevel(links) + 1) == WithPointer(qt) &&
               PointerCount(InfoOf(WithPointer(qt)).qual) == PointerLevel(links) + 1)
  {
    hide FundamentalExtent, DenoteCompound, Links, FromFirstArray;
    DenotedPointers(g, t);
    var qt := Denote(g, t, {}, FREE);
    hide Denote;
    assert InfoOf(WithPointer(qt)).qual[1..] == InfoOf(qt).qual;
  }
}
