/** A condition on a struct alone under which the search by byte offset finds every slot. */
module PlainStructs {
  import opened Wrappers
  import opened TypeGraph
  import opened Walk
  import opened ByteOffset
  import opened Silence
  import opened Ways
  import opened Slots

  /** The struct, class or union that a member or base class embeds, unless it is on the path. */
  function Part(g: Graph, e: Id, vis: set<Id>): (d: Option<Id>)
    requires e in g.nodes
    ensures d.Some? ==> g.TypeOk(d) && IsCompound(g.nodes[d.value]) && d.value !in vis
  {
    if !g.nodes[e].Derived? || !IsHop(g, e) then None
    else
      var d := Embedded(g, ElementType(g, e));
      if d.Some? && d.value !in vis && !IsEnum(g.nodes[d.value]) then d else None
  }

  // ---- Extents ------------------------------------------------------------------------------------------------

  /** Where the data of an element ends. */
  function Reach(g: Graph, e: Id, vis: set<Id>): nat
    requires e in g.nodes
    decreases Unvisited(g, vis), 1, 0
  {
    var n := g.nodes[e];
    if !n.Derived? then 0
    else if IsField(g, e) then Offset(n) + Size(n)
    else
      match Part(g, e, vis)
      case None => 0
      case Some(d) => Offset(n) + Extent(g, d, |g.nodes[d].elements|, vis)
  }

  /** Where the data of the first `n` elements ends. */
  function Extent(g: Graph, c: Id, n: nat, vis: set<Id>): nat
    requires IsRange(g, c, 0, n, vis)
    decreases Unvisited(g, vis), 0, n
  {
    if n == 0 then 0
    else
      var before := Extent(g, c, n - 1, vis);
      UnvisitedShrinks(g, vis, c);
      var reach := Reach(g, Element(g, c, n - 1), vis + {c});
      if before < reach then reach else before
  }

  lemma {:induction false} ReachIsInExtent(g: Graph, c: Id, i: nat, n: nat, vis: set<Id>)
    requires IsRange(g, c, 0, n, vis) && i < n
    ensures Reach(g, Element(g, c, i), vis + {c}) <= Extent(g, c, n, vis)
    decreases n
  {
    if i < n - 1 {
      ReachIsInExtent(g, c, i, n - 1, vis);
    }
  }

  // ---- Plain structs ------------------------------------------------------------------------------------------

  /** Some element behind position `i` embeds a struct. */
  predicate HasLaterPart(g: Graph, c: Id, i: nat, vis: set<Id>)
    requires g.TypeOk(Some(c)) && IsCompound(g.nodes[c])
  {
    exists j :: i < j < |g.nodes[c].elements| && Part(g, Element(g, c, j), vis + {c}).Some?
  }

  /** Later members and base classes lie behind the data of the element at position `i`. */
  predicate IsInOrder(g: Graph, c: Id, i: nat, vis: set<Id>)
    requires IsRange(g, c, i, i + 1, vis)
  {
    forall j :: i < j < |g.nodes[c].elements| ==>
      var n := g.nodes[Element(g, c, j)];
      IsDataMember(n) || IsInheritance(n) ==> Reach(g, Element(g, c, i), vis + {c}) <= Offset(n)
  }

  /** The struct lies within the member, and its members are looked for where they are: it is at offset 0 or declared
      without a typedef. */
  predicate IsPlaced(g: Graph, e: Id, d: Id, vis: set<Id>)
    requires e in g.nodes && IsHop(g, e) && g.TypeOk(Some(d)) && IsCompound(g.nodes[d]) && d !in vis
  {
    var n := g.nodes[e];
    (Offset(n) == 0 || (IsField(g, e) && IsCompound(g.nodes[ElementType(g, e).value]))) &&
    (IsField(g, e) ==> Extent(g, d, |g.nodes[d].elements|, vis) <= Size(n))
  }

  /** Below byte `hi`, the struct is laid out as C structs are: the data of its elements does not overlap and is listed
      in order, at every level, and what its other members point to is calm behind them. If `strict`, or in front of an
      embedded struct, no pointer may lead to a slot there. */
  predicate IsPlain(g: Graph, c: Id, vis: set<Id>, hi: nat, strict: bool)
    requires IsRange(g, c, 0, 0, vis)
    decreases Unvisited(g, vis), 1
  {
    forall i :: 0 <= i < |g.nodes[c].elements| ==> IsPlainElement(g, c, i, vis, hi, strict)
  }

  predicate IsPlainElement(g: Graph, c: Id, i: nat, vis: set<Id>, hi: nat, strict: bool)
    requires IsRange(g, c, i, i + 1, vis)
    decreases Unvisited(g, vis), 0
  {
    var e := Element(g, c, i);
    g.nodes[e].Derived? ==>
      IsInOrder(g, c, i, vis) &&
      var strictHere := strict || HasLaterPart(g, c, i, vis);
      match Part(g, e, vis + {c})
      case Some(d) =>
        UnvisitedShrinks(g, vis, c);
        IsPlaced(g, e, d, vis + {c}) && IsPlain(g, d, vis + {c}, hi, strictHere)
      case None => IsCalm(g, ElementType(g, e), Reach(g, e, vis + {c}), hi, vis + {c}, !strictHere)
  }

  // ---- Plain structs are calm behind their data ---------------------------------------------------------------

  lemma {:induction false} EnteredIsCalm(g: Graph, t: Option<Id>, lo: nat, hi: nat, vis: set<Id>, mayStop: bool)
    requires g.TypeOk(t) && Entered(g, t, vis).Some?
    requires var d := Entered(g, t, vis).value; AreCalm(g, d, |g.nodes[d].elements|, lo, hi, vis, mayStop)
    ensures IsCalm(g, t, lo, hi, vis, mayStop)
    decreases Rank(g, t)
  {
    if !IsCompound(g.nodes[t.value]) {
      EnteredIsCalm(g, Follow(g, t.value), lo, hi, vis, mayStop);
    }
  }

  /** The first `n` elements of a plain struct, if their data ends in front of `lo`. */
  lemma {:induction false} PlainIsCalm(g: Graph, c: Id, n: nat, lo: nat, hi: nat, vis: set<Id>, strict: bool,
                                       mayStop: bool)
    requires IsRange(g, c, 0, n, vis) && IsPlain(g, c, vis, hi, strict) && Extent(g, c, n, vis) <= lo
    requires forall i :: 0 <= i < n && !strict && !HasLaterPart(g, c, i, vis) ==> mayStop
    ensures AreCalm(g, c, n, lo, hi, vis, mayStop)
    decreases Unvisited(g, vis), 1, n
  {
    if n > 0 {
      PlainIsCalm(g, c, n - 1, lo, hi, vis, strict, mayStop);
      assert IsPlainElement(g, c, n - 1, vis, hi, strict);
      ReachIsInExtent(g, c, n - 1, n, vis);
      hide IsPlain, IsPlainElement, Extent, HasLaterPart, AreCalm, IsCalm;
      if g.nodes[Element(g, c, n - 1)].Derived? {
        assert !strict && !HasLaterPart(g, c, n - 1, vis) ==> mayStop;
        ElementIsCalm(g, c, n - 1, lo, hi, vis, strict, mayStop);
      }
      OneMoreIsCalm(g, c, n - 1, lo, hi, vis, mayStop);
    }
  }

  lemma {:induction false} OneMoreIsCalm(g: Graph, c: Id, i: nat, lo: nat, hi: nat, vis: set<Id>, mayStop: bool)
    requires IsRange(g, c, 0, i, vis) && IsRange(g, c, i, i + 1, vis) && AreCalm(g, c, i, lo, hi, vis, mayStop)
    requires var e := Element(g, c, i);
             g.nodes[e].Derived? ==>
               Reach(g, e, vis + {c}) <= lo && IsCalm(g, ElementType(g, e), lo, hi, vis + {c}, mayStop)
    ensures AreCalm(g, c, i + 1, lo, hi, vis, mayStop)
  {
    hide IsCalm;
  }

  lemma {:induction false} ElementIsCalm(g: Graph, c: Id, i: nat, lo: nat, hi: nat, vis: set<Id>, strict: bool,
                                         mayStop: bool)
    requires IsRange(g, c, i, i + 1, vis) && IsPlainElement(g, c, i, vis, hi, strict)
    requires g.nodes[Element(g, c, i)].Derived? && Reach(g, Element(g, c, i), vis + {c}) <= lo
    requires !strict && !HasLaterPart(g, c, i, vis) ==> mayStop
    ensures IsCalm(g, ElementType(g, Element(g, c, i)), lo, hi, vis + {c}, mayStop)
    decreases Unvisited(g, vis), 0, 0
  {
    var e := Element(g, c, i);
    var strictHere := strict || HasLaterPart(g, c, i, vis);
    UnvisitedShrinks(g, vis, c);
    match Part(g, e, vis + {c})
    case Some(d) =>
      EmbeddedIsEntered(g, ElementType(g, e), vis + {c});
      PlainIsCalm(g, d, |g.nodes[d].elements|, lo, hi, vis + {c}, strictHere, mayStop);
      EnteredIsCalm(g, ElementType(g, e), lo, hi, vis + {c}, mayStop);
    case None =>
      CalmWithin(g, ElementType(g, e), Reach(g, e, vis + {c}), hi, lo, hi, vis + {c}, !strictHere, mayStop);
  }

  // ---- Plain structs are tidy for every slot ------------------------------------------------------------------

  /** Only structs, classes and unions have members. */
  lemma {:induction false} WayLeavesEnums(g: Graph, c: Id, vis: set<Id>, way: seq<nat>)
    requires g.TypeOk(Some(c)) && IsCompound(g.nodes[c]) && c !in vis && IsWay(g, c, vis, way)
    ensures !IsEnum(g.nodes[c])
  {
    assert g.NodeOk(c) && g.ElementOk(g.nodes[c], Element(g, c, way[0]));
  }

  /** The first position of a way of embedded structs. */
  lemma {:induction false} FirstPart(g: Graph, c: Id, vis: set<Id>, way: seq<nat>)
    requires g.TypeOk(Some(c)) && IsCompound(g.nodes[c]) && c !in vis && IsWay(g, c, vis, way) && |way| > 1
    requires IsByValue(g, c, vis, way)
    ensures Part(g, Element(g, c, way[0]), vis + {c}) == Some(Next(g, c, vis, way))
  {
    WayLeavesEnums(g, Next(g, c, vis, way), vis + {c}, way[1..]);
  }

  lemma {:induction false} PlainFrontIsCalm(g: Graph, c: Id, vis: set<Id>, way: seq<nat>, hi: nat, strict: bool)
    requires g.TypeOk(Some(c)) && IsCompound(g.nodes[c]) && c !in vis && IsWay(g, c, vis, way)
    requires IsByValue(g, c, vis, way) && IsPlain(g, c, vis, hi, strict)
    ensures AreCalm(g, c, way[0], Offset(g.nodes[Element(g, c, way[0])]), hi, vis, |way| == 1)
  {
    var o := Offset(g.nodes[Element(g, c, way[0])]);
    if |way| > 1 {
      FirstPart(g, c, vis, way);
    }
    FrontEndsBefore(g, c, way[0], way[0], vis, hi, strict);
    PlainIsCalm(g, c, way[0], o, hi, vis, strict, |way| == 1);
  }

  lemma {:induction false} FrontEndsBefore(g: Graph, c: Id, i: nat, n: nat, vis: set<Id>, hi: nat, strict: bool)
    requires IsRange(g, c, i, i + 1, vis) && n <= i && IsPlain(g, c, vis, hi, strict)
    requires var m := g.nodes[Element(g, c, i)]; IsDataMember(m) || IsInheritance(m)
    ensures Extent(g, c, n, vis) <= Offset(g.nodes[Element(g, c, i)])
    decreases n
  {
    if n > 0 {
      FrontEndsBefore(g, c, i, n - 1, vis, hi, strict);
      assert IsPlainElement(g, c, n - 1, vis, hi, strict);
    }
  }

  /** Every slot of a plain struct. */
  lemma {:induction false} PlainIsTidy(g: Graph, c: Id, vis: set<Id>, way: seq<nat>, hi: nat, strict: bool)
    requires g.TypeOk(Some(c)) && IsCompound(g.nodes[c]) && c !in vis && IsWay(g, c, vis, way)
    requires IsByValue(g, c, vis, way) && IsPlain(g, c, vis, hi, strict)
    ensures IsTidy(g, c, vis, way, hi) && IsDirect(g, c, vis, way)
    ensures End(g, c, vis, way) <= Reach(g, Element(g, c, way[0]), vis + {c})
    decreases |way|
  {
    var e := Element(g, c, way[0]);
    assert IsPlainElement(g, c, way[0], vis, hi, strict);
    PlainFrontIsCalm(g, c, vis, way, hi, strict);
    if |way| > 1 {
      FirstPart(g, c, vis, way);
      var d := Next(g, c, vis, way);
      PlainIsTidy(g, d, vis + {c}, way[1..], hi, strict || HasLaterPart(g, c, way[0], vis));
      ReachIsInExtent(g, d, way[1], |g.nodes[d].elements|, vis + {c});
    }
  }

  lemma {:induction false} CoveredIsInside(g: Graph, c: Id, vis: set<Id>, way: seq<nat>, rel: nat)
    requires g.TypeOk(Some(c)) && IsCompound(g.nodes[c]) && c !in vis && IsWay(g, c, vis, way)
    requires IsByValue(g, c, vis, way) && Covers(g, c, vis, way, rel)
    ensures rel < End(g, c, vis, way)
    decreases |way|
  {
    if |way| > 1 {
      CoveredIsInside(g, Next(g, c, vis, way), vis + {c}, way[1..], rel - Offset(g.nodes[Element(g, c, way[0])]));
    }
  }

  /** Every slot of a plain struct is found by each of its bytes. */
  lemma {:induction false} PlainSlotsAreFound(g: Graph, c: Id, way: seq<nat>, byte: nat)
    requires g.TypeOk(Some(c)) && IsCompound(g.nodes[c]) && IsSlotWay(g, c, {}, way) && Covers(g, c, {}, way, byte)
    requires IsPlain(g, c, {}, Extent(g, c, |g.nodes[c].elements|, {}), false)
    ensures SearchType(g, byte, Some(c), {}, START).candidate == Some(Target(g, c, {}, way))
  {
    var hi := Extent(g, c, |g.nodes[c].elements|, {});
    PlainIsTidy(g, c, {}, way, hi, false);
    CoveredIsInside(g, c, {}, way, byte);
    ReachIsInExtent(g, c, way[0], |g.nodes[c].elements|, {});
    PlainSlotIsFound(g, c, way, byte, hi);
  }
}
