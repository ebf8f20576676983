/** Finding a struct member by the constant indices of an address computation: resolve_gep_index_to_type of
    lib/type/GEP.cpp, and its agreement with the search by byte offset. */
module Gep {
  import opened Wrappers
  import opened TypeGraph
  import opened Walk
  import opened ByteOffset
  import opened Silence
  import opened Ways
  import opened Slots
  import opened PlainStructs

  datatype GepIndexToType = GepIndexToType(ty: Option<Id>, member: Option<Id>)

  const NOTHING := GepIndexToType(None, None)

  predicate IsStructOrClass(n: Node) { n.Composite? && (n.tag == StructTag || n.tag == ClassTag) }

  /** The first type of the chain that is a pointer, or that is no modifier. */
  function UnlessPointer(g: Graph, t: Option<Id>): (r: Option<Id>)
    requires g.TypeOk(t)
    ensures g.TypeOk(r)
    decreases Rank(g, t)
  {
    if t.Some? && g.nodes[t.value].Derived? && !IsPointerLike(g.nodes[t.value])
    then UnlessPointer(g, Follow(g, t.value))
    else t
  }

  method FindNonDerivedTypeUnlessPtr(g: Graph, root: Option<Id>) returns (ty: Option<Id>)
    requires g.TypeOk(root)
    ensures ty == UnlessPointer(g, root)
  {
    ty := root;
    while ty.Some? && g.nodes[ty.value].Derived?
      invariant g.TypeOk(ty) && UnlessPointer(g, ty) == UnlessPointer(g, root)
      decreases Rank(g, ty)
    {
      if IsPointerLike(g.nodes[ty.value]) {
        break;
      }
      ty := Follow(g, ty.value);
    }
  }

  // ---- Which element an index means ---------------------------------------------------------------------------

  /** A base class without members of its own. */
  predicate IsEmptyBase(g: Graph, id: Id)
    requires id in g.nodes
  {
    var n := g.nodes[id];
    assert g.NodeOk(id);
    IsInheritance(n) && g.nodes[n.baseType.value].Composite? &&
    assert g.NodeOk(n.baseType.value);
    var base := g.nodes[n.baseType.value];
    forall i :: 0 <= i < |base.elements| ==>
                  assert g.ElementOk(base, base.elements[i]); !IsNonStaticMember(g.nodes[base.elements[i]])
  }

  function EmptyBases(g: Graph, c: Id, n: nat): (count: nat)
    requires g.TypeOk(Some(c)) && g.nodes[c].Composite? && n <= |g.nodes[c].elements|
  {
    if n == 0 then 0 else EmptyBases(g, c, n - 1) + if IsEmptyBase(g, Element(g, c, n - 1)) then 1 else 0
  }

  predicate HaveSameOffset(m: Node, n: Node) { m.Derived? && n.Derived? && m.offsetBits == n.offsetBits }

  /** From `e` at position `i`, the first element that is not static; None where the source reads past the end. */
  function SkipStatic(g: Graph, c: Id, i: nat, e: Id): (r: Option<Id>)
    requires g.TypeOk(Some(c)) && g.nodes[c].Composite? && e in g.nodes
    ensures r.Some? ==> r.value in g.nodes
    decreases |g.nodes[c].elements| - i
  {
    var elements := g.nodes[c].elements;
    if i < |elements| && g.nodes[e].Derived? && g.nodes[e].isStatic then
      if i + 1 == |elements| then None else SkipStatic(g, c, i + 1, Element(g, c, i + 1))
    else Some(e)
  }

  function Pick(g: Graph, c: Id, index: nat): (r: Option<Id>)
    requires g.TypeOk(Some(c)) && g.nodes[c].Composite?
    ensures r.Some? ==> r.value in g.nodes
  {
    var size := |g.nodes[c].elements|;
    if index >= size then None
    else if index == 0 && size > 1 && HaveSameOffset(g.nodes[Element(g, c, 0)], g.nodes[Element(g, c, 1)]) then
      SkipStatic(g, c, 0, Element(g, c, 1))
    else if index == 0 then SkipStatic(g, c, 0, Element(g, c, 0))
    else
      var i := index + EmptyBases(g, c, size);
      if i >= size then None else SkipStatic(g, c, i, Element(g, c, i))
  }

  method PickElement(g: Graph, c: Id, index: nat) returns (r: Option<Id>)
    requires g.TypeOk(Some(c)) && g.nodes[c].Composite?
    ensures r == Pick(g, c, index)
  {
    var elements := g.nodes[c].elements;
    if index >= |elements| {
      return None;
    }
    var gepIndex, element := index, Element(g, c, index);
    if gepIndex == 0 && |elements| > 1 {
      var next := Element(g, c, 1);
      if HaveSameOffset(g.nodes[element], g.nodes[next]) {
        element := next;
      }
    }
    var emptyBases := 0;
    for i := 0 to |elements|
      invariant emptyBases == EmptyBases(g, c, i)
    {
      if IsEmptyBase(g, Element(g, c, i)) {
        emptyBases := emptyBases + 1;
      }
    }
    if gepIndex > 0 && emptyBases > 0 {
      gepIndex := gepIndex + emptyBases;
      if gepIndex >= |elements| {
        return None;
      }
      element := Element(g, c, gepIndex);
    }
    while gepIndex < |elements| && g.nodes[element].Derived? && g.nodes[element].isStatic
      invariant gepIndex < |elements| && element in g.nodes
      invariant SkipStatic(g, c, gepIndex, element) == Pick(g, c, index)
      decreases |elements| - gepIndex
    {
      gepIndex := gepIndex + 1;
      if gepIndex == |elements| {
        return None;
      }
      element := Element(g, c, gepIndex);
    }
    return Some(element);
  }

  // ---- Iterating over the indices -----------------------------------------------------------------------------

  /** What the indices lead to: structs and classes are entered, pointers and arrays end the iteration. */
  function Resolve(g: Graph, c: Id, indices: seq<nat>): GepIndexToType
    requires g.TypeOk(Some(c)) && g.nodes[c].Composite?
    decreases |indices|
  {
    if indices == [] then NOTHING
    else
      match Pick(g, c, indices[0])
      case None => NOTHING
      case Some(e) =>
        if !g.nodes[e].Derived? then Resolve(g, c, indices[1..])
        else
          var t := UnlessPointer(g, ElementType(g, e));
          var more := |indices| > 1;
          if t.Some? && IsStructOrClass(g.nodes[t.value]) && more then Resolve(g, t.value, indices[1..])
          else if t.Some? && IsArray(g.nodes[t.value]) && more then GepIndexToType(Follow(g, t.value), Some(e))
          else GepIndexToType(t, Some(e))
  }

  method IterateGepIndex(g: Graph, c: Id, indices: seq<nat>) returns (r: GepIndexToType)
    requires g.TypeOk(Some(c)) && g.nodes[c].Composite?
    ensures r == Resolve(g, c, indices)
  {
    var composite := c;
    for k := 0 to |indices|
      invariant g.TypeOk(Some(composite)) && g.nodes[composite].Composite?
      invariant Resolve(g, composite, indices[k..]) == Resolve(g, c, indices)
    {
      assert indices[k..][1..] == indices[k + 1..];
      var hasNext := k + 1 < |indices|;
      var element := PickElement(g, composite, indices[k]);
      if element == None {
        return NOTHING;
      }
      if g.nodes[element.value].Derived? {
        var memberType := FindNonDerivedTypeUnlessPtr(g, ElementType(g, element.value));
        if memberType.Some? && IsStructOrClass(g.nodes[memberType.value]) && hasNext {
          composite := memberType.value;
          continue;
        }
        if memberType.Some? && IsArray(g.nodes[memberType.value]) && hasNext {
          return GepIndexToType(Follow(g, memberType.value), element);
        }
        return GepIndexToType(memberType, element);
      }
    }
    return NOTHING;
  }

  // ---- Skipping structs of one member -------------------------------------------------------------------------

  /** Non-static members among the first `n` elements. */
  function CountMembers(g: Graph, c: Id, n: nat): nat
    requires g.TypeOk(Some(c)) && g.nodes[c].Composite? && n <= |g.nodes[c].elements|
  {
    if n == 0 then 0
    else CountMembers(g, c, n - 1) + if IsNonStaticMember(g.nodes[Element(g, c, n - 1)]) then 1 else 0
  }

  predicate HasOneMember(g: Graph, c: Id)
    requires g.TypeOk(Some(c)) && g.nodes[c].Composite?
    ensures HasOneMember(g, c) ==> g.nodes[c].elements != []
  {
    CountMembers(g, c, |g.nodes[c].elements|) == 1
  }

  /** The first element, or the second one if the first takes no space. */
  function FirstElement(g: Graph, c: Id): (e: Id)
    requires g.TypeOk(Some(c)) && g.nodes[c].Composite? && g.nodes[c].elements != []
    ensures e in g.nodes
  {
    var e := Element(g, c, 0);
    if |g.nodes[c].elements| > 1 && HaveSameOffset(g.nodes[e], g.nodes[Element(g, c, 1)]) then Element(g, c, 1) else e
  }

  /** One step of the loop: the struct that the first element leads to; None if the loop ends. */
  function SkipOnce(g: Graph, c: Id): (d: Option<Id>)
    requires g.TypeOk(Some(c)) && g.nodes[c].Composite?
    ensures g.TypeOk(d) && (d.Some? ==> g.nodes[d.value].Composite?)
  {
    if !HasOneMember(g, c) || !g.nodes[FirstElement(g, c)].Derived? then None
    else
      var t := UnlessPointer(g, ElementType(g, FirstElement(g, c)));
      if t.Some? && g.nodes[t.value].Composite? then t else None
  }

  /** Where `n` steps lead; None if the loop ends before. */
  function Skip(g: Graph, c: Id, n: nat): (d: Option<Id>)
    requires g.TypeOk(Some(c)) && g.nodes[c].Composite?
    ensures g.TypeOk(d) && (d.Some? ==> g.nodes[d.value].Composite?)
  {
    if n == 0 then Some(c)
    else
      match Skip(g, c, n - 1)
      case None => None
      case Some(d) => SkipOnce(g, d)
  }

  /** The loop ends at `d`. */
  ghost predicate EndsAt(g: Graph, c: Id, d: Id)
    requires g.TypeOk(Some(c)) && g.nodes[c].Composite?
  {
    exists n: nat :: Skip(g, c, n) == Some(d) && SkipOnce(g, d) == None
  }

  ghost predicate IsEndless(g: Graph, c: Id)
    requires g.TypeOk(Some(c)) && g.nodes[c].Composite?
  {
    forall n: nat :: Skip(g, c, n).Some?
  }

  /** The loop goes through `s` to `c`. */
  ghost predicate ComesTo(g: Graph, s: Id, c: Id) {
    g.TypeOk(Some(s)) && g.nodes[s].Composite? && exists k: nat :: k > 0 && Skip(g, s, k) == Some(c)
  }

  /** Where the loop ends; None if it comes back to a struct in `seen`, the structs that it went through. */
  function SkipAll(g: Graph, c: Id, seen: set<Id>): (d: Option<Id>)
    requires g.TypeOk(Some(c)) && g.nodes[c].Composite?
    ensures g.TypeOk(d) && (d.Some? ==> g.nodes[d.value].Composite?)
    decreases |g.nodes.Keys - seen|
  {
    if c in seen then None
    else
      match SkipOnce(g, c)
      case None => Some(c)
      case Some(d) =>
        assert g.nodes.Keys - (seen + {c}) == (g.nodes.Keys - seen) - {c};
        SkipAll(g, d, seen + {c})
  }

  lemma {:induction false} SkipAdds(g: Graph, c: Id, m: nat, n: nat)
    requires g.TypeOk(Some(c)) && g.nodes[c].Composite? && Skip(g, c, m).Some?
    ensures Skip(g, c, m + n) == Skip(g, Skip(g, c, m).value, n)
    decreases n
  {
    if n > 0 {
      SkipAdds(g, c, m, n - 1);
    }
  }

  lemma {:induction false} SkipComesThrough(g: Graph, c: Id, n: nat, k: nat)
    requires g.TypeOk(Some(c)) && g.nodes[c].Composite? && n <= k && Skip(g, c, k).Some?
    ensures Skip(g, c, n).Some?
    decreases k
  {
    if n < k {
      SkipComesThrough(g, c, n, k - 1);
    }
  }

  /** A loop that comes back to where it started never ends. */
  lemma {:induction false} ComingBackIsEndless(g: Graph, c: Id, k: nat, n: nat)
    requires g.TypeOk(Some(c)) && g.nodes[c].Composite? && k > 0 && Skip(g, c, k) == Some(c)
    ensures Skip(g, c, n).Some?
    decreases n
  {
    if n > k {
      SkipAdds(g, c, k, n - k);
      ComingBackIsEndless(g, c, k, n - k);
    } else {
      SkipComesThrough(g, c, n, k);
    }
  }

  lemma {:induction false} SkipAhead(g: Graph, c: Id, d: Id, seen: set<Id>)
    requires g.TypeOk(Some(c)) && g.nodes[c].Composite? && SkipOnce(g, c) == Some(d)
    requires forall s :: s in seen ==> ComesTo(g, s, c)
    ensures forall s :: s in seen + {c} ==> ComesTo(g, s, d)
    ensures forall n: nat :: Skip(g, c, n + 1) == Skip(g, d, n)
  {
    assert Skip(g, c, 0) == Some(c) && Skip(g, c, 1) == Some(d);
    forall s | s in seen ensures ComesTo(g, s, d) {
      var k: nat :| k > 0 && Skip(g, s, k) == Some(c);
      assert Skip(g, s, k + 1) == Some(d);
    }
    forall n: nat ensures Skip(g, c, n + 1) == Skip(g, d, n) {
      SkipAdds(g, c, 1, n);
    }
  }

  /** `seen` are structs from which the loop came to `c`. */
  lemma {:induction false} SkipAllIsEnd(g: Graph, c: Id, seen: set<Id>)
    requires g.TypeOk(Some(c)) && g.nodes[c].Composite? && forall s :: s in seen ==> ComesTo(g, s, c)
    ensures match SkipAll(g, c, seen)
            case None => IsEndless(g, c)
            case Some(d) => EndsAt(g, c, d)
    decreases |g.nodes.Keys - seen|
  {
    if c in seen {
      assert ComesTo(g, c, c);
      var k: nat :| k > 0 && Skip(g, c, k) == Some(c);
      forall n: nat ensures Skip(g, c, n).Some? { ComingBackIsEndless(g, c, k, n); }
    } else if SkipOnce(g, c).None? {
      assert Skip(g, c, 0) == Some(c);
    } else {
      var d := SkipOnce(g, c).value;
      SkipAhead(g, c, d, seen);
      assert g.nodes.Keys - (seen + {c}) == (g.nodes.Keys - seen) - {c};
      SkipAllIsEnd(g, d, seen + {c});
      EndIsAhead(g, c, d, SkipAll(g, d, seen + {c}));
      hide SkipOnce, ComesTo, IsEndless, EndsAt;
    }
  }

  lemma {:induction false} EndIsAhead(g: Graph, c: Id, d: Id, end: Option<Id>)
    requires g.TypeOk(Some(c)) && g.nodes[c].Composite? && SkipOnce(g, c) == Some(d)
    requires forall n: nat :: Skip(g, c, n + 1) == Skip(g, d, n)
    requires if end.None? then IsEndless(g, d) else EndsAt(g, d, end.value)
    ensures if end.None? then IsEndless(g, c) else EndsAt(g, c, end.value)
  {
    hide SkipOnce;
    if end.None? {
      forall n: nat ensures Skip(g, c, n).Some? {
        if n > 0 { assert Skip(g, d, n - 1).Some? && Skip(g, c, n - 1 + 1) == Skip(g, d, n - 1); }
      }
    } else {
      var n: nat :| Skip(g, d, n) == end;
      assert Skip(g, c, n + 1) == end;
    }
  }

  lemma {:induction false} NothingBehindEnd(g: Graph, c: Id, m: nat, n: nat, d: Id)
    requires g.TypeOk(Some(c)) && g.nodes[c].Composite? && m < n
    requires Skip(g, c, m) == Some(d) && SkipOnce(g, d) == None
    ensures Skip(g, c, n) == None
    decreases n
  {
    if m < n - 1 {
      NothingBehindEnd(g, c, m, n - 1, d);
    }
  }

  lemma {:induction false} EndIsUnique(g: Graph, c: Id, d: Id, d': Id)
    requires g.TypeOk(Some(c)) && g.nodes[c].Composite? && EndsAt(g, c, d)
    ensures !IsEndless(g, c) && (EndsAt(g, c, d') ==> d' == d)
  {
    var m: nat :| Skip(g, c, m) == Some(d);
    NothingBehindEnd(g, c, m, m + 1, d);
    if EndsAt(g, c, d') {
      var n: nat :| Skip(g, c, n) == Some(d');
      if m < n {
        NothingBehindEnd(g, c, m, n, d);
      } else if n < m {
        NothingBehindEnd(g, c, n, m, d');
      }
    }
  }

  /** The loop ends at exactly one struct, or never. */
  lemma {:induction false} SkipEndsExactlyAt(g: Graph, c: Id, d: Id)
    requires g.TypeOk(Some(c)) && g.nodes[c].Composite?
    ensures SkipAll(g, c, {}) == Some(d) <==> EndsAt(g, c, d)
    ensures SkipAll(g, c, {}) == None <==> IsEndless(g, c)
  {
    SkipAllIsEnd(g, c, {});
    var end := SkipAll(g, c, {});
    if end.Some? {
      EndIsUnique(g, c, end.value, d);
    } else if EndsAt(g, c, d) {
      EndIsUnique(g, c, d, d);
    }
  }

  /** Position `i` holds the only data member of `c`. */
  predicate IsOnlyMember(g: Graph, c: Id, i: nat)
    requires g.TypeOk(Some(c)) && g.nodes[c].Composite?
  {
    i < |g.nodes[c].elements| && IsDataMember(g.nodes[Element(g, c, i)]) &&
    forall j :: 0 <= j < |g.nodes[c].elements| && j != i ==> !IsDataMember(g.nodes[Element(g, c, j)])
  }

  /** The first position, or the second one if what is listed there starts at the same bit. */
  function FirstPosition(g: Graph, c: Id): (i: nat)
    requires g.TypeOk(Some(c)) && g.nodes[c].Composite?
    ensures g.nodes[c].elements != [] ==> i < |g.nodes[c].elements|
  {
    if |g.nodes[c].elements| < 2 then 0
    else
      var m, n := g.nodes[Element(g, c, 0)], g.nodes[Element(g, c, 1)];
      if m.Derived? && n.Derived? && m.offsetBits == n.offsetBits then 1 else 0
  }

  /** Nothing is skipped: there is not exactly one data member, or the first position leads to no composite. */
  predicate IsStaying(g: Graph, c: Id)
    requires g.TypeOk(Some(c)) && g.nodes[c].Composite?
  {
    forall i :: 0 <= i < |g.nodes[c].elements| && IsOnlyMember(g, c, i) ==>
                  var e := Element(g, c, FirstPosition(g, c));
                  g.nodes[e].Derived? ==>
                    var t := Behind(g, ElementType(g, e));
                    t.Some? ==> !g.nodes[t.value].Composite?
  }

  /** The positions of data members among the first `n`. */
  function MemberPositions(g: Graph, c: Id, n: nat): set<nat>
    requires g.TypeOk(Some(c)) && g.nodes[c].Composite? && n <= |g.nodes[c].elements|
  {
    set j: nat | j < n && IsDataMember(g.nodes[Element(g, c, j)])
  }

  lemma {:induction false} MembersAreCounted(g: Graph, c: Id, n: nat)
    requires g.TypeOk(Some(c)) && g.nodes[c].Composite? && n <= |g.nodes[c].elements|
    ensures CountMembers(g, c, n) == |MemberPositions(g, c, n)|
    decreases n
  {
    if n > 0 {
      MembersAreCounted(g, c, n - 1);
      assert IsDataMember(g.nodes[Element(g, c, n - 1)]) <==> IsNonStaticMember(g.nodes[Element(g, c, n - 1)]);
      hide IsDataMember, IsNonStaticMember;
      if IsDataMember(g.nodes[Element(g, c, n - 1)]) {
        assert MemberPositions(g, c, n) == MemberPositions(g, c, n - 1) + {n - 1};
      } else {
        assert MemberPositions(g, c, n) == MemberPositions(g, c, n - 1);
      }
    }
  }

  /** The count is one exactly if there is an only member. */
  lemma {:induction false} OneMemberIsOnly(g: Graph, c: Id)
    requires g.TypeOk(Some(c)) && g.nodes[c].Composite?
    ensures HasOneMember(g, c) <==> exists i :: 0 <= i < |g.nodes[c].elements| && IsOnlyMember(g, c, i)
  {
    var all := MemberPositions(g, c, |g.nodes[c].elements|);
    MembersAreCounted(g, c, |g.nodes[c].elements|);
    hide CountMembers, IsOnlyMember, MemberPositions;
    forall i: nat ensures IsOnlyMember(g, c, i) <==> all == {i} {
      OnlyMemberIsAll(g, c, i);
    }
    if |all| == 1 {
      var i :| i in all;
      SingletonIs(all, i);
      OnlyMemberIsAll(g, c, i);
    }
  }

  lemma SingletonIs(s: set<nat>, i: nat)
    requires |s| == 1 && i in s
    ensures s == {i}
  {
    assert |s - {i}| == 0 && s == {i} + (s - {i});
  }

  lemma {:induction false} OnlyMemberIsAll(g: Graph, c: Id, i: nat)
    requires g.TypeOk(Some(c)) && g.nodes[c].Composite?
    ensures var all := MemberPositions(g, c, |g.nodes[c].elements|);
            (IsOnlyMember(g, c, i) <==> all == {i}) && (i in all ==> i < |g.nodes[c].elements|)
  {
    var all := MemberPositions(g, c, |g.nodes[c].elements|);
    hide IsDataMember;
    if all == {i} {
      assert i in all;
      forall j | 0 <= j < |g.nodes[c].elements| && j != i ensures !IsDataMember(g.nodes[Element(g, c, j)]) {
        assert j !in all;
      }
    }
  }

  lemma {:induction false} UnlessPointerIsBehind(g: Graph, t: Option<Id>)
    requires g.TypeOk(t)
    ensures UnlessPointer(g, t) == Behind(g, t)
    decreases Rank(g, t)
  {
    if t.Some? && g.nodes[t.value].Derived? && !IsPointerOrArray(g.nodes[t.value]) {
      UnlessPointerIsBehind(g, Follow(g, t.value));
    }
  }

  /** One step of the loop, exactly. */
  lemma {:induction false} SkipOnceExactly(g: Graph, c: Id)
    requires g.TypeOk(Some(c)) && g.nodes[c].Composite?
    ensures if IsStaying(g, c) then SkipOnce(g, c) == None
            else
              g.nodes[c].elements != [] &&
              var e := Element(g, c, FirstPosition(g, c));
              g.nodes[e].Derived? && SkipOnce(g, c) == Behind(g, ElementType(g, e)) && SkipOnce(g, c).Some?
  {
    hide HasOneMember, IsOnlyMember, Behind, UnlessPointer;
    OneMemberIsOnly(g, c);
    if HasOneMember(g, c) {
      assert FirstElement(g, c) == Element(g, c, FirstPosition(g, c));
      if g.nodes[FirstElement(g, c)].Derived? {
        UnlessPointerIsBehind(g, ElementType(g, FirstElement(g, c)));
      }
    }
  }

  /** No struct is skipped if and only if that holds. */
  lemma {:induction false} SkipStaysExactlyIf(g: Graph, c: Id)
    requires g.TypeOk(Some(c)) && g.nodes[c].Composite?
    ensures SkipAll(g, c, {}) == Some(c) <==> IsStaying(g, c)
  {
    hide SkipOnce, IsStaying;
    SkipOnceExactly(g, c);
    SkipEndsExactlyAt(g, c, c);
    assert Skip(g, c, 0) == Some(c);
  }

  /** The source's loop does not end where it comes back to a struct; the model then returns nothing. */
  method SkipFirstGepAccess(g: Graph, c: Id) returns (r: Option<Id>)
    requires g.TypeOk(Some(c)) && g.nodes[c].Composite?
    ensures r == SkipAll(g, c, {})
  {
    var composite, seen := c, {};
    while true
      invariant g.TypeOk(Some(composite)) && g.nodes[composite].Composite?
      invariant SkipAll(g, composite, seen) == SkipAll(g, c, {})
      decreases |g.nodes.Keys - seen|
    {
      if composite in seen {
        return None;
      }
      var members := 0;
      var elements := g.nodes[composite].elements;
      for i := 0 to |elements|
        invariant members == CountMembers(g, composite, i)
      {
        if IsNonStaticMember(g.nodes[Element(g, composite, i)]) {
          members := members + 1;
        }
      }
      if members != 1 {
        return Some(composite);
      }
      var element := FirstElement(g, composite);
      if !g.nodes[element].Derived? {
        return Some(composite);
      }
      var next := FindNonDerivedTypeUnlessPtr(g, ElementType(g, element));
      if next == None || !g.nodes[next.value].Composite? {
        return Some(composite);
      }
      assert g.nodes.Keys - (seen + {composite}) == (g.nodes.Keys - seen) - {composite};
      composite, seen := next.value, seen + {composite};
    }
  }

  // ---- The entry point ----------------------------------------------------------------------------------------

  /** The constant indices of an address computation; `skipFirst` says that the leading one was dropped. */
  datatype GepIndices = GepIndices(indices: seq<nat>, skipFirst: bool, byteAccess: bool, dynamicAccess: bool)

  predicate Skips(gep: GepIndices) { gep.skipFirst && gep.indices != [] && gep.indices[0] != 0 }

  /** What the indices lead to from the entry point; None where the source does not end. */
  function ByIndices(g: Graph, c: Id, gep: GepIndices): Option<GepIndexToType>
    requires g.TypeOk(Some(c)) && g.nodes[c].Composite?
  {
    match if Skips(gep) then SkipAll(g, c, {}) else Some(c)
    case None => None
    case Some(d) => Some(Resolve(g, d, gep.indices))
  }

  method ResolveGepIndexToType(g: Graph, c: Id, gep: GepIndices) returns (r: Option<GepIndexToType>)
    requires Conforms(g) && g.TypeOk(Some(c)) && g.nodes[c].Composite?
    ensures gep.indices == [] ==>
              var element := gep.dynamicAccess && IsArray(g.nodes[c]);
              r == Some(GepIndexToType(if element then Follow(g, c) else Some(c), None))
    ensures gep.indices != [] && gep.byteAccess ==>
              match SearchType(g, gep.indices[0], Some(c), {}, START).candidate
              case None => r == Some(GepIndexToType(Some(c), None))
              case Some(e) => e in g.nodes && IsField(g, e) && r == Some(GepIndexToType(ElementType(g, e), Some(e)))
    ensures gep.indices != [] && !gep.byteAccess ==> r == ByIndices(g, c, gep)
    ensures IsCompound(g.nodes[c]) && !gep.byteAccess ==> FollowsWays(g, c, gep, r)
  {
    hide FollowsWays, SearchType, Resolve, SkipAll;
    if IsCompound(g.nodes[c]) {
      WaysAreFollowed(g, c, gep);
      if gep.indices == [] {
        NoWayWithoutIndices(g, c, gep);
      }
    }
    if gep.indices == [] {
      if gep.dynamicAccess && IsArray(g.nodes[c]) {
        return Some(GepIndexToType(Follow(g, c), None));
      }
      return Some(GepIndexToType(Some(c), None));
    }
    if gep.byteAccess {
      var result := ResolveByteOffsetToMemberOf(g, c, gep.indices[0]);
      CandidateIsField(g, Some(c), gep.indices[0]);
      match result {
        case Some(found) => return Some(GepIndexToType(found.typeOfMember, Some(found.member)));
        case None => return Some(GepIndexToType(Some(c), None));
      }
    }
    var composite := c;
    if gep.skipFirst && gep.indices[0] != 0 {
      var end := SkipFirstGepAccess(g, c);
      if end == None {
        return None;
      }
      composite := end.value;
    }
    var type_ := IterateGepIndex(g, composite, gep.indices);
    return Some(type_);
  }

  // ---- Exactly which element an index means -------------------------------------------------------------------

  /** A base class without data members. */
  predicate LacksData(g: Graph, e: Id)
    requires e in g.nodes
  {
    var n := g.nodes[e];
    n.Derived? && n.tag == InheritanceTag && ElementType(g, e).Some? &&
    var base := ElementType(g, e).value;
    g.nodes[base].Composite? &&
    forall i :: 0 <= i < |g.nodes[base].elements| ==> !IsDataMember(g.nodes[Element(g, base, i)])
  }

  /** The positions of such base classes among the first `n`. */
  function EmptyPositions(g: Graph, c: Id, n: nat): set<nat>
    requires g.TypeOk(Some(c)) && g.nodes[c].Composite? && n <= |g.nodes[c].elements|
  {
    set j: nat | j < n && LacksData(g, Element(g, c, j))
  }

  lemma {:induction false} EmptyBasesAreCounted(g: Graph, c: Id, n: nat)
    requires g.TypeOk(Some(c)) && g.nodes[c].Composite? && n <= |g.nodes[c].elements|
    ensures EmptyBases(g, c, n) == |EmptyPositions(g, c, n)|
    decreases n
  {
    if n > 0 {
      EmptyBasesAreCounted(g, c, n - 1);
      EmptyBaseLacksData(g, Element(g, c, n - 1));
      hide IsEmptyBase, LacksData;
      if LacksData(g, Element(g, c, n - 1)) {
        assert EmptyPositions(g, c, n) == EmptyPositions(g, c, n - 1) + {n - 1};
      } else {
        assert EmptyPositions(g, c, n) == EmptyPositions(g, c, n - 1);
      }
    }
  }

  lemma {:induction false} EmptyBaseLacksData(g: Graph, e: Id)
    requires e in g.nodes
    ensures IsEmptyBase(g, e) <==> LacksData(g, e)
  {
    assert g.NodeOk(e);
    if g.nodes[e].Derived? && g.nodes[e].tag == InheritanceTag {
      var base := g.nodes[e].baseType.value;
      assert g.NodeOk(base);
      if g.nodes[base].Composite? {
        assert forall i :: 0 <= i < |g.nodes[base].elements| ==> Element(g, base, i) == g.nodes[base].elements[i];
      }
    }
  }

  /** Where the choice of an element starts: an index counts positions, but not those of empty base classes. */
  function Start(g: Graph, c: Id, index: nat): nat
    requires g.TypeOk(Some(c)) && g.nodes[c].Composite?
  {
    if index > 0 then index + |EmptyPositions(g, c, |g.nodes[c].elements|)| else FirstPosition(g, c)
  }

  predicate IsStaticMember(n: Node) { n.Derived? && n.isStatic }

  /** From the start for `index` up to position `i` there are only static members. */
  predicate IsNamed(g: Graph, c: Id, index: nat, i: nat)
    requires g.TypeOk(Some(c)) && g.nodes[c].Composite? && i < |g.nodes[c].elements|
  {
    Start(g, c, index) <= i && forall j :: Start(g, c, index) <= j < i ==> IsStaticMember(g.nodes[Element(g, c, j)])
  }

  /** The choice starts there, and passes static members. */
  lemma {:induction false} PickStarts(g: Graph, c: Id, index: nat)
    requires g.TypeOk(Some(c)) && g.nodes[c].Composite? && index < |g.nodes[c].elements|
    ensures var k := Start(g, c, index);
            Pick(g, c, index)
            == if k < |g.nodes[c].elements| then SkipStatic(g, c, k, Element(g, c, k)) else None
  {
    EmptyBasesAreCounted(g, c, |g.nodes[c].elements|);
    hide EmptyBases, EmptyPositions;
  }

  lemma {:induction false} SkipStaticLands(g: Graph, c: Id, k: nat, i: nat)
    requires g.TypeOk(Some(c)) && g.nodes[c].Composite? && k < |g.nodes[c].elements| && i < |g.nodes[c].elements|
    requires !IsStaticMember(g.nodes[Element(g, c, i)])
    requires forall j, j' :: 0 <= j < j' < |g.nodes[c].elements| ==> g.nodes[c].elements[j] != g.nodes[c].elements[j']
    ensures SkipStatic(g, c, k, Element(g, c, k)) == Some(Element(g, c, i))
       <==> k <= i && forall j :: k <= j < i ==> IsStaticMember(g.nodes[Element(g, c, j)])
    decreases |g.nodes[c].elements| - k
  {
    if IsStaticMember(g.nodes[Element(g, c, k)]) && k + 1 < |g.nodes[c].elements| {
      SkipStaticLands(g, c, k + 1, i);
    }
  }

  /** An index means exactly the position that it names: a function or another member in between makes it miss. */
  lemma {:induction false} IndexPicksExactlyNamed(g: Graph, c: Id, index: nat, i: nat)
    requires g.TypeOk(Some(c)) && g.nodes[c].Composite? && index < |g.nodes[c].elements| && i < |g.nodes[c].elements|
    requires !IsStaticMember(g.nodes[Element(g, c, i)])
    requires forall j, j' :: 0 <= j < j' < |g.nodes[c].elements| ==> g.nodes[c].elements[j] != g.nodes[c].elements[j']
    ensures Pick(g, c, index) == Some(Element(g, c, i)) <==> IsNamed(g, c, index, i)
  {
    var k := Start(g, c, index);
    PickStarts(g, c, index);
    hide Pick, Start;
    if k < |g.nodes[c].elements| {
      SkipStaticLands(g, c, k, i);
    }
  }

  lemma {:induction false} NamedIsPicked(g: Graph, c: Id, index: nat, i: nat)
    requires g.TypeOk(Some(c)) && g.nodes[c].Composite? && index < |g.nodes[c].elements| && i < |g.nodes[c].elements|
    requires !IsStaticMember(g.nodes[Element(g, c, i)]) && IsNamed(g, c, index, i)
    ensures Pick(g, c, index) == Some(Element(g, c, i))
  {
    PickStarts(g, c, index);
    hide Pick, Start;
    SkipStaticReaches(g, c, Start(g, c, index), i);
  }

  lemma {:induction false} SkipStaticReaches(g: Graph, c: Id, k: nat, i: nat)
    requires g.TypeOk(Some(c)) && g.nodes[c].Composite? && k <= i < |g.nodes[c].elements|
    requires !IsStaticMember(g.nodes[Element(g, c, i)])
    requires forall j :: k <= j < i ==> IsStaticMember(g.nodes[Element(g, c, j)])
    ensures SkipStatic(g, c, k, Element(g, c, k)) == Some(Element(g, c, i))
    decreases i - k
  {
    if k < i {
      SkipStaticReaches(g, c, k + 1, i);
    }
  }

  /** Only data members up to position `i`, and no base class; the one at `i` has a size and ends before later ones. */
  predicate IsCounted(g: Graph, c: Id, i: nat)
    requires g.TypeOk(Some(c)) && IsCompound(g.nodes[c]) && i < |g.nodes[c].elements|
  {
    var m := g.nodes[Element(g, c, i)];
    m.Derived? && Size(m) > 0 && LaterLieBehind(g, c, i, Offset(m) + Size(m)) &&
    (forall j :: 0 <= j <= i ==> IsField(g, Element(g, c, j))) &&
    (forall j :: 0 <= j < |g.nodes[c].elements| ==> !IsInheritance(g.nodes[Element(g, c, j)])) &&
    (i == 0 && |g.nodes[c].elements| > 1 ==> !IsStaticMember(g.nodes[Element(g, c, 1)]))
  }

  /** There an index counts the data members; member functions may follow. */
  lemma {:induction false} PlainPick(g: Graph, c: Id, i: nat)
    requires g.TypeOk(Some(c)) && IsCompound(g.nodes[c]) && i < |g.nodes[c].elements| && IsCounted(g, c, i)
    ensures IsNamed(g, c, i, i) && Pick(g, c, i) == Some(Element(g, c, i))
  {
    assert EmptyPositions(g, c, |g.nodes[c].elements|) == {};
    if |g.nodes[c].elements| > 1 {
      assert g.NodeOk(c) && g.ElementOk(g.nodes[c], Element(g, c, 1));
    }
    NamedIsPicked(g, c, i, i);
  }

  // ---- Agreement with the byte offset -------------------------------------------------------------------------

  predicate IsRecord(n: Node) { n.Composite? && (n.tag == StructTag || n.tag == ClassTag) }

  /** The indices name the positions of the way, which leads through structs and classes. More indices may follow,
      unless the target is a struct or class itself. */
  predicate IsIndexWay(g: Graph, c: Id, vis: set<Id>, way: seq<nat>, indices: seq<nat>)
    requires g.TypeOk(Some(c)) && IsCompound(g.nodes[c]) && c !in vis && IsWay(g, c, vis, way)
    requires IsByValue(g, c, vis, way)
    decreases |way|
  {
    indices != [] && indices[0] < |g.nodes[c].elements| && IsNamed(g, c, indices[0], way[0]) &&
    !IsStaticMember(g.nodes[Element(g, c, way[0])]) &&
    if |way| > 1 then
      |indices| > 1 && IsRecord(g.nodes[Next(g, c, vis, way)]) &&
      IsIndexWay(g, Next(g, c, vis, way), vis + {c}, way[1..], indices[1..])
    else
      var t := Behind(g, ElementType(g, Element(g, c, way[0])));
      |indices| > 1 && t.Some? ==> !IsRecord(g.nodes[t.value])
  }

  /** On the way, every position counts data members, and every compound is a struct or class. */
  predicate IsCountedWay(g: Graph, c: Id, vis: set<Id>, way: seq<nat>)
    requires g.TypeOk(Some(c)) && IsCompound(g.nodes[c]) && c !in vis && IsWay(g, c, vis, way)
    requires IsByValue(g, c, vis, way)
    decreases |way|
  {
    IsCounted(g, c, way[0]) &&
    (|way| > 1 ==>
       IsRecord(g.nodes[Next(g, c, vis, way)]) && IsCountedWay(g, Next(g, c, vis, way), vis + {c}, way[1..]))
  }

  /** Then the way is its own list of indices: every slot that a byte can name has indices. */
  lemma {:induction false} SlotsHaveIndexPaths(g: Graph, c: Id, vis: set<Id>, way: seq<nat>)
    requires g.TypeOk(Some(c)) && IsCompound(g.nodes[c]) && c !in vis && IsWay(g, c, vis, way)
    requires IsByValue(g, c, vis, way) && IsCountedWay(g, c, vis, way)
    ensures IsIndexWay(g, c, vis, way, way)
    decreases |way|
  {
    PlainPick(g, c, way[0]);
    assert IsField(g, Element(g, c, way[0]));
    if |way| > 1 {
      hide IsCounted, IsNamed;
      SlotsHaveIndexPaths(g, Next(g, c, vis, way), vis + {c}, way[1..]);
    }
  }

  /** The type of a member that indices lead to: what its values are behind modifiers, a pointer where there is one; but
      the element type of an array, if `more` indices follow. */
  predicate IsIndexedType(g: Graph, e: Id, more: bool, ty: Option<Id>)
    requires e in g.nodes && IsField(g, e)
  {
    var t := Behind(g, ElementType(g, e));
    ty == if more && t.Some? && IsArray(g.nodes[t.value]) then g.nodes[t.value].baseType else t
  }

  /** The indices of any data member resolve to it. */
  lemma {:induction false} IndexWayIsResolved(g: Graph, c: Id, vis: set<Id>, way: seq<nat>, indices: seq<nat>)
    requires g.TypeOk(Some(c)) && IsCompound(g.nodes[c]) && c !in vis && IsWay(g, c, vis, way)
    requires IsByValue(g, c, vis, way) && IsIndexWay(g, c, vis, way, indices)
    ensures Resolve(g, c, indices).member == Some(Target(g, c, vis, way))
    ensures IsIndexedType(g, Target(g, c, vis, way), |indices| > |way|, Resolve(g, c, indices).ty)
    decreases |way|
  {
    hide IsNamed, UnlessPointer, Behind;
    var e := Element(g, c, way[0]);
    NamedIsPicked(g, c, indices[0], way[0]);
    UnlessPointerIsBehind(g, ElementType(g, e));
    if |way| > 1 {
      assert UnlessPointer(g, ElementType(g, e)) == Some(Next(g, c, vis, way));
      IndexWayIsResolved(g, Next(g, c, vis, way), vis + {c}, way[1..], indices[1..]);
    }
  }

  /** An index of a member function or the like is passed: the next index counts from the same struct. */
  lemma {:induction false} FunctionIndexIsPassed(g: Graph, c: Id, indices: seq<nat>, i: nat)
    requires g.TypeOk(Some(c)) && g.nodes[c].Composite? && indices != [] && indices[0] < |g.nodes[c].elements|
    requires i < |g.nodes[c].elements| && IsNamed(g, c, indices[0], i) && !g.nodes[Element(g, c, i)].Derived?
    ensures Resolve(g, c, indices) == Resolve(g, c, indices[1..])
    ensures |indices| == 1 ==> Resolve(g, c, indices) == GepIndexToType(None, None)
  {
    NamedIsPicked(g, c, indices[0], i);
  }

  /** The way leads through the structs that are skipped, and then takes the positions that the indices name. */
  predicate IsSkippingWay(g: Graph, c: Id, vis: set<Id>, way: seq<nat>, indices: seq<nat>)
    requires g.TypeOk(Some(c)) && IsCompound(g.nodes[c]) && c !in vis && IsWay(g, c, vis, way)
    requires IsByValue(g, c, vis, way)
    decreases |way|
  {
    if IsStaying(g, c) then IsIndexWay(g, c, vis, way, indices)
    else
      |way| > 1 && Element(g, c, way[0]) == Element(g, c, FirstPosition(g, c)) &&
      IsSkippingWay(g, Next(g, c, vis, way), vis + {c}, way[1..], indices)
  }

  /** The part of the way that the indices name. */
  function Named(g: Graph, c: Id, vis: set<Id>, way: seq<nat>): nat
    requires g.TypeOk(Some(c)) && IsCompound(g.nodes[c]) && c !in vis && IsWay(g, c, vis, way)
    decreases |way|
  {
    if |way| == 1 || IsStaying(g, c) then |way| else Named(g, Next(g, c, vis, way), vis + {c}, way[1..])
  }

  /** Structs are skipped in front of a non-zero index, if the leading index was dropped. */
  predicate IsSkipping(gep: GepIndices) { gep.indices != [] && gep.skipFirst && gep.indices[0] > 0 }

  /** The way that the entry point takes for these indices. */
  predicate IsGepWay(g: Graph, c: Id, way: seq<nat>, gep: GepIndices)
    requires g.TypeOk(Some(c)) && IsCompound(g.nodes[c]) && IsWay(g, c, {}, way) && IsByValue(g, c, {}, way)
  {
    gep.indices != [] &&
    if IsSkipping(gep) then IsSkippingWay(g, c, {}, way, gep.indices) else IsIndexWay(g, c, {}, way, gep.indices)
  }

  /** Indices are left behind the way. */
  predicate HasMore(g: Graph, c: Id, way: seq<nat>, gep: GepIndices)
    requires g.TypeOk(Some(c)) && IsCompound(g.nodes[c]) && IsWay(g, c, {}, way)
  {
    |gep.indices| > if IsSkipping(gep) then Named(g, c, {}, way) else |way|
  }

  lemma {:induction false} SkippingWayIsResolved(g: Graph, c: Id, vis: set<Id>, way: seq<nat>, indices: seq<nat>,
                                                 seen: set<Id>)
    requires g.TypeOk(Some(c)) && IsCompound(g.nodes[c]) && c !in vis && IsWay(g, c, vis, way)
    requires IsByValue(g, c, vis, way) && IsSkippingWay(g, c, vis, way, indices) && seen <= vis
    ensures var end := SkipAll(g, c, seen);
            end.Some? && Resolve(g, end.value, indices).member == Some(Target(g, c, vis, way)) &&
            IsIndexedType(g, Target(g, c, vis, way), |indices| > Named(g, c, vis, way),
                          Resolve(g, end.value, indices).ty)
    decreases |way|
  {
    hide IsStaying, FirstPosition, Resolve, IsIndexedType, SkipOnce, Behind;
    SkipOnceExactly(g, c);
    if IsStaying(g, c) {
      IndexWayIsResolved(g, c, vis, way, indices);
    } else {
      SkippingWayIsResolved(g, Next(g, c, vis, way), vis + {c}, way[1..], indices, seen + {c});
    }
  }

  /** The indices of any data member resolve to it, from the entry point too. */
  lemma {:induction false} GepWayIsResolved(g: Graph, c: Id, way: seq<nat>, gep: GepIndices)
    requires g.TypeOk(Some(c)) && IsCompound(g.nodes[c]) && IsWay(g, c, {}, way) && IsByValue(g, c, {}, way)
    requires IsGepWay(g, c, way, gep)
    ensures ByIndices(g, c, gep).Some? && ByIndices(g, c, gep).value.member == Some(Target(g, c, {}, way))
    ensures IsIndexedType(g, Target(g, c, {}, way), HasMore(g, c, way, gep), ByIndices(g, c, gep).value.ty)
  {
    hide Resolve, SkipAll, IsIndexedType, IsSkippingWay, IsIndexWay;
    if IsSkipping(gep) {
      SkippingWayIsResolved(g, c, {}, way, gep.indices, {});
    } else {
      IndexWayIsResolved(g, c, {}, way, gep.indices);
    }
  }

  /** Whatever way the indices take, its member is the result, with its type. */
  ghost predicate FollowsWays(g: Graph, c: Id, gep: GepIndices, r: Option<GepIndexToType>)
    requires g.TypeOk(Some(c)) && IsCompound(g.nodes[c])
  {
    forall way :: IsWay(g, c, {}, way) && IsByValue(g, c, {}, way) && IsGepWay(g, c, way, gep) ==>
                    r.Some? && r.value.member == Some(Target(g, c, {}, way)) &&
                    IsIndexedType(g, Target(g, c, {}, way), HasMore(g, c, way, gep), r.value.ty)
  }

  lemma NoWayWithoutIndices(g: Graph, c: Id, gep: GepIndices)
    requires g.TypeOk(Some(c)) && IsCompound(g.nodes[c]) && gep.indices == []
    ensures forall r :: FollowsWays(g, c, gep, r)
  {
  }

  lemma {:induction false} WaysAreFollowed(g: Graph, c: Id, gep: GepIndices)
    requires g.TypeOk(Some(c)) && IsCompound(g.nodes[c])
    ensures FollowsWays(g, c, gep, ByIndices(g, c, gep))
  {
    hide IsWay, IsByValue, IsGepWay, Target, IsIndexedType, HasMore, ByIndices;
    forall way | IsWay(g, c, {}, way) && IsByValue(g, c, {}, way) && IsGepWay(g, c, way, gep)
      ensures var r := ByIndices(g, c, gep);
              r.Some? && r.value.member == Some(Target(g, c, {}, way)) &&
              IsIndexedType(g, Target(g, c, {}, way), HasMore(g, c, way, gep), r.value.ty)
    {
      GepWayIsResolved(g, c, way, gep);
    }
  }

  /** At the entry point, the two ways to a slot pick the same member if and only if the search by byte offset meets it;
      they always do where no offset is left out. */
  lemma {:induction false} IndicesAndBytesAgree(g: Graph, c: Id, way: seq<nat>, gep: GepIndices, byte: nat)
    requires g.TypeOk(Some(c)) && IsCompound(g.nodes[c]) && IsSlotWay(g, c, {}, way) && IsGepWay(g, c, way, gep)
    requires IsTidy(g, c, {}, way, byte + 1) && Covers(g, c, {}, way, byte)
    requires IsDirect(g, c, {}, way) || IsUnshared(g, c, {}, way, Target(g, c, {}, way))
    ensures ByIndices(g, c, gep).Some?
    ensures ByIndices(g, c, gep).value.member == SearchType(g, byte, Some(c), {}, START).candidate
       <==> Meets(g, c, {}, way, byte)
    ensures IsDirect(g, c, {}, way) ==> Meets(g, c, {}, way, byte)
  {
    GepWayIsResolved(g, c, way, gep);
    hide IsWay, IsByValue, Target, IsTidy, SearchType, IsUnshared, ByIndices;
    if IsDirect(g, c, {}, way) {
      DirectWayMeetsExactlyCovered(g, c, {}, way, byte);
      PlainSlotIsFound(g, c, way, byte, byte + 1);
    } else {
      SlotIsFoundExactlyIfMet(g, c, way, byte, byte + 1);
    }
  }

  /** On a plain struct they always do. */
  lemma {:induction false} PlainIndicesAndBytesAgree(g: Graph, c: Id, way: seq<nat>, gep: GepIndices, byte: nat)
    requires g.TypeOk(Some(c)) && IsCompound(g.nodes[c]) && IsSlotWay(g, c, {}, way) && IsGepWay(g, c, way, gep)
    requires IsPlain(g, c, {}, Extent(g, c, |g.nodes[c].elements|, {}), false) && Covers(g, c, {}, way, byte)
    ensures ByIndices(g, c, gep).Some?
    ensures ByIndices(g, c, gep).value.member == SearchType(g, byte, Some(c), {}, START).candidate
  {
    PlainSlotsAreFound(g, c, way, byte);
    hide IsPlain, IsTidy, SearchType, Covers;
    GepWayIsResolved(g, c, way, gep);
  }
}
