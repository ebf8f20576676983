/** The event consumer of lib/type/DimetaParse.cpp: a stack of open compounds and one result. */
module TypeParser {
  import opened Wrappers
  import opened TypeTree
  import opened TypeGraph
  import opened ParseState
  import opened Walk

  /** The state of the consumer. */
  datatype Sink = Sink(stack: seq<QualifiedCompound>, result: QualifiedType)

  /** Base classes are compounds; anything else outside a member is free-standing. */
  predicate IsFiledItem(i: Item) { i.meta.place.isMember || (i.meta.place.isBaseClass && i.qt.HasCompound?) }

  function OnTop(stack: seq<QualifiedCompound>, c: Compound): seq<QualifiedCompound>
    requires stack != []
  {
    stack[|stack| - 1 := stack[|stack| - 1].(ty := c)]
  }

  function Top(stack: seq<QualifiedCompound>): Compound
    requires stack != []
  {
    stack[|stack| - 1].ty
  }

  /** A finished type is filed in the innermost open compound, or becomes the result. */
  function Deliver(s: Sink, i: Item): Sink
    requires IsFiledItem(i) ==> s.stack != []
  {
    if IsFiledItem(i) then s.(stack := OnTop(s.stack, FileItem(Top(s.stack), i))) else s.(result := i.qt)
  }

  class DITypeParser {
    const g: Graph
    var compositeStack: seq<QualifiedCompound>
    var result: QualifiedType

    constructor (g: Graph)
      ensures this.g == g && View() == Sink([], DEFAULT_TYPE)
    {
      this.g := g;
      compositeStack, result := [], DEFAULT_TYPE;
    }

    function View(): Sink
      reads this
    {
      Sink(compositeStack, result)
    }

    method EmplaceResult(qt: QualifiedType)
      modifies this`result
      ensures result == qt
    {
      result := qt;
    }

    method EmplaceMember(qt: QualifiedType, p: Place)
      requires compositeStack != []
      modifies this`compositeStack
      ensures compositeStack == OnTop(old(compositeStack), AddMember(Top(old(compositeStack)), p, qt))
    {
      var containing := Top(compositeStack);
      if p.isStatic {
        containing := containing.(staticMembers := containing.staticMembers + [Member(p.name, qt)]);
      } else {
        containing := containing.(
        offsets := containing.offsets + [p.offset],
        sizes := containing.sizes + [p.size],
        members := containing.members + [Member(p.name, qt)]);
      }
      compositeStack := OnTop(compositeStack, containing);
    }

    method EmplaceFundamental(m: Meta, name: string, sizeBits: nat, enc: Encoding)
      requires m.place.isMember ==> compositeStack != []
      modifies this
      ensures View() == Deliver(old(View()), FundamentalItem(m, name, sizeBits, enc))
    {
      var qt := MakeFundamental(m, name, sizeBits, enc);
      if m.place.isMember {
        EmplaceMember(qt, m.place);
        return;
      }
      EmplaceResult(qt);
    }

    predicate Describes(m: Meta)
    {
      m.ty.Some? && m.ty.value in g.nodes
    }

    method MakeFundamentalEvent(m: Meta)
      requires Describes(m) && g.nodes[m.ty.value].Basic?
      requires m.place.isMember ==> compositeStack != []
      modifies this
      ensures var n := g.nodes[m.ty.value];
              View() == Deliver(old(View()), FundamentalItem(m, n.name, n.sizeBits, BasicTypeEncoding(n.name, n.ate)))
    {
      var n := g.nodes[m.ty.value];
      var enc := if n.name != "" && Contains(n.name, "nullptr") then NullptrEnc else DwarfToEncoding(n.ate);
      EmplaceFundamental(m, n.name, n.sizeBits, enc);
    }

    method MakeFunctionPtrEvent(m: Meta)
      requires Describes(m) && g.nodes[m.ty.value].Subroutine?
      requires m.place.isMember ==> compositeStack != []
      modifies this
      ensures View() == Deliver(old(View()), FundamentalItem(m, "", g.nodes[m.ty.value].sizeBits, FunctionPtrEnc))
    {
      EmplaceFundamental(m, "", g.nodes[m.ty.value].sizeBits, FunctionPtrEnc);
    }

    method MakeVoidPtrEvent(m: Meta)
      requires Describes(m) && g.nodes[m.ty.value].Derived?
      requires m.place.isMember ==> compositeStack != []
      modifies this
      ensures View() == Deliver(old(View()), FundamentalItem(m, "void", g.nodes[m.ty.value].sizeBits, VoidEnc))
    {
      EmplaceFundamental(m, "void", g.nodes[m.ty.value].sizeBits, VoidEnc);
    }

    method MakeStringEvent(m: Meta)
      requires Describes(m) && g.nodes[m.ty.value].Str?
      requires m.place.isMember ==> compositeStack != []
      modifies this
      ensures var n := g.nodes[m.ty.value];
              View() == Deliver(old(View()), FundamentalItem(m, StringName(n.name), n.sizeBits, StringEnc))
    {
      var n := g.nodes[m.ty.value];
      EmplaceFundamental(m, if n.name == "" then "character" else n.name, n.sizeBits, StringEnc);
    }

    method MakeVtableEvent(m: Meta)
      requires Describes(m) && g.nodes[m.ty.value].Derived?
      requires m.place.isMember && compositeStack != []
      modifies this
      ensures var n := g.nodes[m.ty.value];
              View() == Deliver(old(View()), FundamentalItem(m, n.name, n.sizeBits, VtablePtrEnc))
    {
      var n := g.nodes[m.ty.value];
      EmplaceFundamental(m, n.name, n.sizeBits, VtablePtrEnc);
    }

    method MakeEnumMemberEvent(m: Meta)
      requires Describes(m) && g.nodes[m.ty.value].Basic?
      requires m.place.isMember && compositeStack != []
      modifies this
      ensures var top := Top(old(compositeStack));
              View() == Sink(OnTop(old(compositeStack),
                                   AddEnumerator(top, m.place, EnumeratorType(m, g.nodes[m.ty.value]))),
                             old(result))
    {
      var n := g.nodes[m.ty.value];
      EmplaceFundamental(m, n.name, n.sizeBits, DwarfToEncoding(n.ate));
      var enumType := Top(compositeStack);
      ghost var kept := AddEnumerator(Top(old(compositeStack)), m.place, EnumeratorType(m, n));
      assert enumType.(sizes := kept.sizes, offsets := kept.offsets) == kept;
      if |enumType.sizes| > 1 {
        enumType := enumType.(sizes := enumType.sizes[..1]);
      }
      if |enumType.offsets| > 1 {
        enumType := enumType.(offsets := enumType.offsets[..1]);
      }
      assert enumType.sizes == kept.sizes && enumType.offsets == kept.offsets;
      compositeStack := OnTop(compositeStack, enumType);
    }

    method MakeCompositeEvent(m: Meta)
      requires Describes(m) && g.nodes[m.ty.value].Composite?
      modifies this`compositeStack
      ensures compositeStack
           == old(compositeStack) + [QualifiedCompound(MakeCompound(g.nodes[m.ty.value]), MakeInfo(m))]
    {
      compositeStack := compositeStack + [QualifiedCompound(MakeCompound(g.nodes[m.ty.value]), MakeInfo(m))];
    }

    method FinalizeCompositeEvent(m: Meta)
      requires compositeStack != []
      requires IsFiled(m.place) ==> |compositeStack| > 1
      modifies this
      ensures var n := |old(compositeStack)| - 1;
              View() == Deliver(Sink(old(compositeStack)[..n], old(result)),
                                Item(m, HasCompound(old(compositeStack)[n])))
    {
      var finalized := compositeStack[|compositeStack| - 1];
      compositeStack := compositeStack[..|compositeStack| - 1];
      if m.place.isMember {
        EmplaceMember(HasCompound(finalized), m.place);
        return;
      }
      if m.place.isBaseClass {
        var sizeOne := finalized.ty.extent == 1;
        var emptyMembers := |finalized.ty.members| == 0;
        var base := BaseClass(finalized, m.place.offset, sizeOne && emptyMembers);
        var containing := Top(compositeStack);
        compositeStack := OnTop(compositeStack, containing.(bases := containing.bases + [base]));
        return;
      }
      EmplaceResult(HasCompound(finalized));
    }
  }
}
