/** The debug-info graph that the visitors walk: finite, labelled and possibly cyclic. */
module TypeGraph {
  import opened Wrappers

  type Id = nat

  datatype Tag =
    | PointerTag | ReferenceTag | ConstTag | PtrToMemberTag | TypedefTag | OtherTag
    | MemberTag | VariableTag | InheritanceTag
    | ArrayTag | VectorTag
    | StructTag | ClassTag | UnionTag | EnumTag

  datatype BasicEncoding =
    | AteFloat | AteSigned | AteUnsigned | AteUnsignedChar | AteSignedChar | AteBoolean | AteUtf | AteComplexFloat
    | AteOther

  datatype Node =
    | Basic(name: string, sizeBits: nat, ate: BasicEncoding)
    | Str(name: string, sizeBits: nat)
    | Subroutine(sizeBits: nat)
    | Derived(tag: Tag, name: string, sizeBits: nat, offsetBits: nat, isStatic: bool, baseType: Option<Id>)
    | Composite(tag: Tag, name: string, identifier: string, sizeBits: nat, baseType: Option<Id>,
                elements: seq<Id>, isVector: bool, isForwardDecl: bool, isAssociated: bool)
    | Subrange(count: Option<int>)
    | Enumerator(name: string)
    | Variable(variableType: Option<Id>)
    | Ignored

  const VTABLE_NAME := "__vtbl_ptr_type"

  predicate IsArray(n: Node) { n.Composite? && n.tag == ArrayTag }

  predicate IsCompound(n: Node) { n.Composite? && n.tag != ArrayTag }

  predicate IsEnum(n: Node) { n.Composite? && n.tag == EnumTag }

  /** A static or non-static data member of a compound. */
  predicate IsMember(n: Node) { n.Derived? && (n.tag == MemberTag || (n.tag == VariableTag && n.isStatic)) }

  predicate IsInheritance(n: Node) { n.Derived? && n.tag == InheritanceTag }

  /** Derived types that qualify, rename or point to another type. */
  predicate IsModifier(n: Node) {
    n.Derived? && n.tag != MemberTag && n.tag != VariableTag && n.tag != InheritanceTag
  }

  /** void* has no base type. */
  predicate IsVoidPointer(n: Node) { n.Derived? && n.tag == PointerTag && n.baseType == None }

  predicate IsVtablePointer(n: Node) { n.Derived? && n.name == VTABLE_NAME && !IsVoidPointer(n) }

  predicate IsType(n: Node) { n.Basic? || n.Str? || n.Subroutine? || n.Composite? || IsModifier(n) }

  datatype RawGraph = RawGraph(nodes: map<Id, Node>)
  {
    predicate TypeOk(t: Option<Id>) {
      t.Some? ==> t.value in nodes && IsType(nodes[t.value])
    }

    /** The next link of a chain: what a derived type or an array is made of. */
    function Next(id: Id): Option<Id>
      requires id in nodes
    {
      var n := nodes[id];
      if n.Derived? || IsArray(n) then n.baseType else None
    }

    /** The chain from `id` has exactly `k` links. */
    ghost predicate ChainLength(id: Id, k: nat)
      decreases k
    {
      id in nodes && k > 0 &&
      match Next(id)
      case None => k == 1
      case Some(next) => ChainLength(next, k - 1)
    }

    predicate DerivedOk(n: Node)
      requires n.Derived?
    {
      TypeOk(n.baseType) &&
      (n.tag == InheritanceTag ==> n.baseType.Some?) &&
      (n.name == VTABLE_NAME ==>
         n.tag == PointerTag && (n.baseType.Some? ==> nodes[n.baseType.value].Subroutine?))
    }

    predicate ElementOk(parent: Node, e: Id)
      requires parent.Composite?
    {
      e in nodes &&
      var n := nodes[e];
      n.Ignored? ||
      (if parent.tag == ArrayTag then n.Subrange?
       else if parent.tag == EnumTag then n.Enumerator? && parent.baseType.Some?
       else IsMember(n) || IsInheritance(n))
    }

    predicate CompositeOk(n: Node)
      requires n.Composite?
    {
      TypeOk(n.baseType) &&
      (IsCompound(n) && !IsEnum(n) ==> n.baseType == None) &&
      forall i :: 0 <= i < |n.elements| ==> ElementOk(n, n.elements[i])
    }

    predicate NodeOk(id: Id) {
      id in nodes &&
      var n := nodes[id];
      match n
      case Derived(_, _, _, _, _, _) => DerivedOk(n)
      case Composite(_, _, _, _, _, _, _, _, _) => CompositeOk(n)
      case Variable(t) => TypeOk(t)
      case _ => true
    }

    /** The chain from `id` ends: a cycle of the graph passes through a compound. */
    ghost predicate ChainEnds(id: Id) {
      exists k: nat :: ChainLength(id, k)
    }

    lemma ChainLengthUnique(id: Id, j: nat, k: nat)
      requires ChainLength(id, j) && ChainLength(id, k)
      ensures j == k
      decreases j
    {
      if j > 0 && k > 0 && Next(id).Some? {
        ChainLengthUnique(Next(id).value, j - 1, k - 1);
      }
    }

    ghost function Compounds(): set<Id> { set id | id in nodes && IsCompound(nodes[id]) }
  }

  ghost predicate IsLinked(g: RawGraph) {
    (forall id {:trigger g.ChainEnds(id)} :: id in g.nodes ==> g.ChainEnds(id)) &&
    (forall id {:trigger g.NodeOk(id)} :: id in g.nodes ==> g.NodeOk(id))
  }

  type Graph = g: RawGraph | IsLinked(g) ghost witness RawGraph(map[])

  /** The number of links of the chain from `t`. */
  ghost function Rank(g: Graph, t: Option<Id>): nat
    requires g.TypeOk(t)
  {
    if t.None? then 0
    else
      assert g.ChainEnds(t.value);
      var k: nat :| g.ChainLength(t.value, k);
      k
  }

  /** The next link; chains end, so recursion along them terminates. */
  function Follow(g: Graph, id: Id): (next: Option<Id>)
    requires g.TypeOk(Some(id))
    ensures g.TypeOk(next) && Rank(g, next) < Rank(g, Some(id))
  {
    RankDecreases(g, id);
    g.Next(id)
  }

  lemma {:induction false} RankDecreases(g: Graph, id: Id)
    requires g.TypeOk(Some(id))
    ensures g.TypeOk(g.Next(id)) && Rank(g, g.Next(id)) < Rank(g, Some(id))
  {
    assert g.NodeOk(id) && g.ChainEnds(id);
    var k: nat :| g.ChainLength(id, k);
    forall j: nat | g.ChainLength(id, j) { g.ChainLengthUnique(id, j, k); }
    if g.Next(id).Some? {
      forall j: nat | g.ChainLength(g.Next(id).value, j) { g.ChainLengthUnique(g.Next(id).value, j, k - 1); }
    }
  }

  /** The chain from `t` ends in a struct, class, union or enumeration. */
  predicate EndsInCompound(g: Graph, t: Option<Id>)
    requires g.TypeOk(t)
    decreases Rank(g, t)
  {
    t.Some? &&
    var n := g.nodes[t.value];
    IsCompound(n) || (n.Derived? && !IsVtablePointer(n) && EndsInCompound(g, Follow(g, t.value)))
  }

  /** The chain from `t` runs into the compiler's vtable pointer type. */
  predicate EndsInVtable(g: Graph, t: Option<Id>)
    requires g.TypeOk(t)
    decreases Rank(g, t)
  {
    t.Some? &&
    var n := g.nodes[t.value];
    IsVtablePointer(n) || ((n.Derived? || IsArray(n)) && EndsInVtable(g, Follow(g, t.value)))
  }

  /** The underlying type of an enumeration is a basic type, possibly renamed or qualified. */
  predicate EndsInBasic(g: Graph, t: Option<Id>)
    requires g.TypeOk(t)
    decreases Rank(g, t)
  {
    t.Some? &&
    var n := g.nodes[t.value];
    n.Basic? || (n.Derived? && n.name != VTABLE_NAME && EndsInBasic(g, Follow(g, t.value)))
  }

  ghost predicate NodeConforms(g: Graph, id: Id)
    requires id in g.nodes
  {
    assert g.NodeOk(id);
    var n := g.nodes[id];
    (IsInheritance(n) ==> EndsInCompound(g, n.baseType)) &&
    (IsEnum(n) && n.baseType.Some? ==> EndsInBasic(g, n.baseType)) &&
    (n.Variable? ==> !EndsInVtable(g, n.variableType))
  }

  ghost predicate Conforms(g: Graph) {
    forall id {:trigger NodeConforms(g, id)} :: id in g.nodes ==> NodeConforms(g, id)
  }
}
