/** When the search by byte offset finds a struct slot: resolve_byte_offset_to_member_of of lib/type/DIUtil.cpp. A slot
    is a member declared directly as a pointer, reference, pointer to member or array; a match ends the search. */
module Slots {
  import opened Wrappers
  import opened TypeGraph
  import opened Walk
  import opened ByteOffset
  import opened Silence
  import opened Ways

  // ---- Slots in order -----------------------------------------------------------------------------------------

  /** Where the target ends, counted from the start of `c`. */
  function End(g: Graph, c: Id, vis: set<Id>, way: seq<nat>): nat
    requires g.TypeOk(Some(c)) && IsCompound(g.nodes[c]) && c !in vis && IsWay(g, c, vis, way)
    decreases |way|
  {
    var n := g.nodes[Element(g, c, way[0])];
    Offset(n) + if |way| == 1 then Size(n) else End(g, Next(g, c, vis, way), vis + {c}, way[1..])
  }

  predicate LaterLieBehind(g: Graph, c: Id, i: nat, end: nat)
    requires g.TypeOk(Some(c)) && IsCompound(g.nodes[c])
  {
    forall j :: i < j < |g.nodes[c].elements| && IsDataMember(g.nodes[Element(g, c, j)]) ==>
                  end <= Offset(g.nodes[Element(g, c, j)])
  }

  /** What comes later lies behind the target, at every level. */
  predicate IsOrdered(g: Graph, c: Id, vis: set<Id>, way: seq<nat>)
    requires g.TypeOk(Some(c)) && IsCompound(g.nodes[c]) && c !in vis && IsWay(g, c, vis, way)
    decreases |way|
  {
    LaterLieBehind(g, c, way[0], End(g, c, vis, way)) &&
    (|way| > 1 ==> IsOrdered(g, Next(g, c, vis, way), vis + {c}, way[1..]))
  }

  lemma {:induction false} LaterAreSilent(g: Graph, c: Id, i: nat, n: nat, vis: set<Id>, end: nat, rest: nat)
    requires IsRange(g, c, i + 1, n, vis) && LaterLieBehind(g, c, i, end) && rest < end
    ensures AreSilent(g, rest, c, i + 1, n, vis, false)
  {
    if i + 1 < n {
      LaterAreSilent(g, c, i, n - 1, vis, end, rest);
    }
  }

  /** Behind the first position, a hit is a hit of the rest of the way. */
  lemma {:induction false} HitBelow(g: Graph, c: Id, vis: set<Id>, way: seq<nat>, w: Left)
    requires g.TypeOk(Some(c)) && IsCompound(g.nodes[c]) && c !in vis && IsWay(g, c, vis, way) && |way| > 1
    requires IsHit(g, c, vis, way, w)
    ensures var d := Next(g, c, vis, way);
            var visit := AfterVisit(g, Element(g, c, way[0]), Front(g, c, vis, way, w));
            IsHit(g, d, vis + {c}, way[1..], visit) &&
            LeftByHit(g, d, vis + {c}, way[1..], visit) == LeftByHit(g, c, vis, way, w)
  {
    hide Front, AfterVisit, Stops, Hits;
  }

  /** `rest` lies in front of the end of the target, at every level. */
  predicate IsInside(g: Graph, c: Id, vis: set<Id>, way: seq<nat>, rest: nat)
    requires g.TypeOk(Some(c)) && IsCompound(g.nodes[c]) && c !in vis && IsWay(g, c, vis, way)
    decreases |way|
  {
    rest < End(g, c, vis, way) && (|way| > 1 ==> IsInside(g, Next(g, c, vis, way), vis + {c}, way[1..], rest))
  }

  /** What a hit leaves does. */
  lemma {:induction false} HitIsInside(g: Graph, c: Id, vis: set<Id>, way: seq<nat>, w: Left)
    requires g.TypeOk(Some(c)) && IsCompound(g.nodes[c]) && c !in vis && IsWay(g, c, vis, way)
    requires IsHit(g, c, vis, way, w)
    ensures IsInside(g, c, vis, way, LeftByHit(g, c, vis, way, w).rest)
    decreases |way|
  {
    hide LeftBy, Front, Unvisited;
    if |way| > 1 {
      HitBelow(g, c, vis, way, w);
      hide IsHit, LeftByHit, AfterVisit, Stops, Hits;
      var visit := AfterVisit(g, Element(g, c, way[0]), Front(g, c, vis, way, w));
      HitIsInside(g, Next(g, c, vis, way), vis + {c}, way[1..], visit);
    }
  }

  /** Then nothing that comes later is hit. */
  lemma {:induction false} InsideIsQuiet(g: Graph, c: Id, vis: set<Id>, way: seq<nat>, left: Left)
    requires g.TypeOk(Some(c)) && IsCompound(g.nodes[c]) && c !in vis && IsWay(g, c, vis, way)
    requires IsOrdered(g, c, vis, way) && IsInside(g, c, vis, way, left.rest) && left.ended
    ensures IsQuiet(g, c, |g.nodes[c].elements|, vis, way, left)
    decreases |way|
  {
    hide AreSilent, IsSilent, LaterLieBehind, End;
    LaterAreSilent(g, c, way[0], |g.nodes[c].elements|, vis, End(g, c, vis, way), left.rest);
    if |way| > 1 {
      InsideIsQuiet(g, Next(g, c, vis, way), vis + {c}, way[1..], left);
    }
  }

  lemma {:induction false} OrderedIsQuiet(g: Graph, c: Id, vis: set<Id>, way: seq<nat>, w: Left)
    requires g.TypeOk(Some(c)) && IsCompound(g.nodes[c]) && c !in vis && IsWay(g, c, vis, way)
    requires IsHit(g, c, vis, way, w) && IsOrdered(g, c, vis, way) && IsStop(g, Target(g, c, vis, way))
    ensures IsQuiet(g, c, |g.nodes[c].elements|, vis, way, LeftByHit(g, c, vis, way, w))
  {
    hide IsHit, IsOrdered, IsInside, IsQuiet;
    HitIsInside(g, c, vis, way, w);
    InsideIsQuiet(g, c, vis, way, LeftByHit(g, c, vis, way, w));
  }

  /** `way` leads to `x`, and the search for `byte` hits `x` there. */
  predicate HitsBy(g: Graph, c: Id, byte: nat, way: seq<nat>, x: Id)
    requires g.TypeOk(Some(c)) && IsCompound(g.nodes[c])
  {
    IsWay(g, c, {}, way) && Target(g, c, {}, way) == x && IsHit(g, c, {}, way, Left(byte, false))
  }

  /** A slot in order is the final candidate as soon as it is hit. */
  lemma {:induction false} HitSlotIsFound(g: Graph, c: Id, way: seq<nat>, byte: nat, x: Id)
    requires g.TypeOk(Some(c)) && IsCompound(g.nodes[c]) && HitsBy(g, c, byte, way, x)
    requires IsOrdered(g, c, {}, way) && IsStop(g, x)
    ensures SearchType(g, byte, Some(c), {}, START).candidate == Some(x)
  {
    OrderedIsQuiet(g, c, {}, way, Left(byte, false));
    assert LeadsTo(g, c, byte, way, x);
    CandidateIsLastHit(g, c, byte, x);
  }

  /** For every byte: a slot that is in order wherever it occurs is found if and only if it is hit somewhere. */
  lemma {:induction false} SlotIsFoundExactlyIfHit(g: Graph, c: Id, byte: nat, x: Id)
    requires g.TypeOk(Some(c)) && IsCompound(g.nodes[c]) && x in g.nodes && IsField(g, x) && IsStop(g, x)
    requires forall way :: IsWay(g, c, {}, way) && Target(g, c, {}, way) == x ==> IsOrdered(g, c, {}, way)
    ensures SearchType(g, byte, Some(c), {}, START).candidate == Some(x) <==> exists way :: HitsBy(g, c, byte, way, x)
  {
    CandidateIsLastHit(g, c, byte, x);
    hide IsHit, IsQuiet, IsOrdered, SearchType, IsWay, Target;
    if way :| LeadsTo(g, c, byte, way, x) {
      assert HitsBy(g, c, byte, way, x);
    }
    if way :| HitsBy(g, c, byte, way, x) {
      HitSlotIsFound(g, c, way, byte, x);
    }
  }

  /** A slot that occurs once needs to be in order there only. */
  lemma {:induction false} UnsharedSlotIsFoundExactlyIfHit(g: Graph, c: Id, way: seq<nat>, byte: nat)
    requires g.TypeOk(Some(c)) && IsCompound(g.nodes[c]) && IsWay(g, c, {}, way) && IsStop(g, Target(g, c, {}, way))
    requires IsOrdered(g, c, {}, way) && IsUnshared(g, c, {}, way, Target(g, c, {}, way))
    ensures SearchType(g, byte, Some(c), {}, START).candidate == Some(Target(g, c, {}, way))
       <==> IsHit(g, c, {}, way, Left(byte, false))
  {
    UnsharedIsCandidate(g, c, byte, way);
    if IsHit(g, c, {}, way, Left(byte, false)) {
      OrderedIsQuiet(g, c, {}, way, Left(byte, false));
    }
  }

  // ---- Bytes along a way of embedded structs ------------------------------------------------------------------

  /** What a value of type `t` is, behind typedefs, qualifiers and the like. */
  function Behind(g: Graph, t: Option<Id>): (r: Option<Id>)
    requires g.TypeOk(t)
    ensures g.TypeOk(r)
    decreases Rank(g, t)
  {
    if t.Some? && g.nodes[t.value].Derived? && !IsPointerOrArray(g.nodes[t.value]) then Behind(g, Follow(g, t.value))
    else t
  }

  /** The compound that a value of type `t` consists of, if it is one. */
  function Embedded(g: Graph, t: Option<Id>): (d: Option<Id>)
    requires g.TypeOk(t)
    ensures d.Some? ==> g.TypeOk(d) && IsCompound(g.nodes[d.value])
  {
    var r := Behind(g, t);
    if r.Some? && IsCompound(g.nodes[r.value]) then r else None
  }

  lemma {:induction false} EmbeddedIsEntered(g: Graph, t: Option<Id>, vis: set<Id>)
    requires g.TypeOk(t) && Embedded(g, t).Some?
    ensures Entered(g, t, vis) == if Embedded(g, t).value in vis then None else Embedded(g, t)
    decreases Rank(g, t)
  {
    if !IsCompound(g.nodes[t.value]) {
      EmbeddedIsEntered(g, Follow(g, t.value), vis);
    }
  }

  /** A data member or a base class. */
  predicate IsHop(g: Graph, e: Id)
    requires e in g.nodes
  {
    IsField(g, e) || IsInheritance(g.nodes[e])
  }

  /** Every compound on the way is embedded in the one before it. */
  predicate IsByValue(g: Graph, c: Id, vis: set<Id>, way: seq<nat>)
    requires g.TypeOk(Some(c)) && IsCompound(g.nodes[c]) && c !in vis && IsWay(g, c, vis, way)
    decreases |way|
  {
    |way| > 1 ==>
      var e := Element(g, c, way[0]);
      var d := Next(g, c, vis, way);
      IsHop(g, e) && Embedded(g, ElementType(g, e)) == Some(d) && IsByValue(g, d, vis + {c}, way[1..])
  }

  predicate IsSlotWay(g: Graph, c: Id, vis: set<Id>, way: seq<nat>)
    requires g.TypeOk(Some(c)) && IsCompound(g.nodes[c]) && c !in vis
  {
    IsWay(g, c, vis, way) && IsByValue(g, c, vis, way) && IsStop(g, Target(g, c, vis, way))
  }

  /** `rel` is not in front of `e`, and not behind it either if it is a member. */
  predicate Holds(g: Graph, e: Id, rel: nat)
    requires e in g.nodes && IsHop(g, e)
  {
    if IsField(g, e) then Hits(g, e, rel) else Offset(g.nodes[e]) <= rel
  }

  /** Byte `rel` of `c` belongs to the target. */
  predicate Covers(g: Graph, c: Id, vis: set<Id>, way: seq<nat>, rel: nat)
    requires g.TypeOk(Some(c)) && IsCompound(g.nodes[c]) && c !in vis && IsWay(g, c, vis, way)
    requires IsByValue(g, c, vis, way)
    decreases |way|
  {
    var e := Element(g, c, way[0]);
    Holds(g, e, rel) &&
    (|way| > 1 ==> Covers(g, Next(g, c, vis, way), vis + {c}, way[1..], rel - Offset(g.nodes[e])))
  }

  /** What is left of `rel` when `e` has been matched: the search subtracts an offset only for members that are declared
      with the struct type itself. */
  function Rest(g: Graph, e: Id, rel: nat): nat
    requires e in g.nodes && IsHop(g, e) && Holds(g, e, rel)
  {
    if IsField(g, e) && IsCompound(g.nodes[ElementType(g, e).value]) then rel - Offset(g.nodes[e]) else rel
  }

  /** The search matches every member of the way, as long as nothing in front of it interferes: byte `rel` belongs to
      the target once the offsets of base classes and of members declared through a typedef are left out. */
  predicate Meets(g: Graph, c: Id, vis: set<Id>, way: seq<nat>, rel: nat)
    requires g.TypeOk(Some(c)) && IsCompound(g.nodes[c]) && c !in vis && IsWay(g, c, vis, way)
    requires IsByValue(g, c, vis, way)
    decreases |way|
  {
    var e := Element(g, c, way[0]);
    Holds(g, e, rel) && (|way| > 1 ==> Meets(g, Next(g, c, vis, way), vis + {c}, way[1..], Rest(g, e, rel)))
  }

  /** No offset on the way is left out: base classes and members declared through a typedef are at offset 0. */
  predicate IsDirect(g: Graph, c: Id, vis: set<Id>, way: seq<nat>)
    requires g.TypeOk(Some(c)) && IsCompound(g.nodes[c]) && c !in vis && IsWay(g, c, vis, way)
    requires IsByValue(g, c, vis, way)
    decreases |way|
  {
    |way| > 1 ==>
      var e := Element(g, c, way[0]);
      (Offset(g.nodes[e]) == 0 || (IsField(g, e) && IsCompound(g.nodes[ElementType(g, e).value]))) &&
      IsDirect(g, Next(g, c, vis, way), vis + {c}, way[1..])
  }

  lemma {:induction false} DirectWayMeetsExactlyCovered(g: Graph, c: Id, vis: set<Id>, way: seq<nat>, rel: nat)
    requires g.TypeOk(Some(c)) && IsCompound(g.nodes[c]) && c !in vis && IsWay(g, c, vis, way)
    requires IsByValue(g, c, vis, way) && IsDirect(g, c, vis, way)
    ensures Meets(g, c, vis, way, rel) <==> Covers(g, c, vis, way, rel)
    decreases |way|
  {
    var e := Element(g, c, way[0]);
    if |way| > 1 && Holds(g, e, rel) {
      DirectWayMeetsExactlyCovered(g, Next(g, c, vis, way), vis + {c}, way[1..], Rest(g, e, rel));
    }
  }

  /** A match on the way leaves what `Rest` says. */
  lemma {:induction false} MatchLeaves(g: Graph, c: Id, vis: set<Id>, way: seq<nat>, w: Left)
    requires g.TypeOk(Some(c)) && IsCompound(g.nodes[c]) && c !in vis && IsWay(g, c, vis, way) && |way| > 1
    requires IsByValue(g, c, vis, way)
    ensures var e := Element(g, c, way[0]);
            !Stops(g, e, w.rest) && AfterVisit(g, e, w).ended == w.ended &&
            (Holds(g, e, w.rest) ==> AfterVisit(g, e, w).rest == Rest(g, e, w.rest)) &&
            (!Holds(g, e, w.rest) ==> AfterVisit(g, e, w) == w)
  {
  }

  // ---- Matches in front of the way ----------------------------------------------------------------------------

  /** In front of every position, nothing that covers the byte moves the offset base; and if not `mayStop`, nothing ends
      the search before the target. */
  predicate IsKeptTo(g: Graph, c: Id, vis: set<Id>, way: seq<nat>, rel: nat, mayStop: bool)
    requires g.TypeOk(Some(c)) && IsCompound(g.nodes[c]) && c !in vis && IsWay(g, c, vis, way)
    requires IsByValue(g, c, vis, way) && Meets(g, c, vis, way, rel)
    decreases |way|
  {
    AreCalm(g, c, way[0], rel, rel + 1, vis, |way| == 1 || mayStop) &&
    (|way| > 1 ==>
       IsKeptTo(g, Next(g, c, vis, way), vis + {c}, way[1..], Rest(g, Element(g, c, way[0]), rel), mayStop))
  }

  lemma {:induction false} EndedStays(g: Graph, t: Option<Id>, vis: set<Id>, w: Left)
    requires g.TypeOk(t) && w.ended
    ensures LeftByType(g, t, vis, w) == w
    decreases Rank(g, t)
  {
    if t.Some? && g.nodes[t.value].Derived? {
      EndedStays(g, Follow(g, t.value), vis, w);
    }
  }

  /** What is calm only because it may end the search does end it. */
  lemma {:induction false} TypeEnds(g: Graph, t: Option<Id>, vis: set<Id>, w: Left)
    requires g.TypeOk(t) && IsCalm(g, t, w.rest, w.rest + 1, vis, true)
    requires w.ended || !IsCalm(g, t, w.rest, w.rest + 1, vis, false)
    ensures LeftByType(g, t, vis, w).ended
    decreases Unvisited(g, vis), Rank(g, t), 1, 0
  {
    if w.ended {
      EndedStays(g, t, vis, w);
    } else {
      var n := g.nodes[t.value];
      if IsCompound(n) {
        ElementsEnd(g, t.value, |n.elements|, vis, w);
      } else {
        TypeEnds(g, Follow(g, t.value), vis, w);
      }
    }
  }

  lemma {:induction false} ElementsEnd(g: Graph, c: Id, n: nat, vis: set<Id>, w: Left)
    requires IsRange(g, c, 0, n, vis) && AreCalm(g, c, n, w.rest, w.rest + 1, vis, true)
    requires !AreCalm(g, c, n, w.rest, w.rest + 1, vis, false)
    ensures LeftBy(g, c, n, vis, w).ended
    decreases Unvisited(g, vis), Rank(g, Some(c)), 0, n
  {
    var e := Element(g, c, n - 1);
    var prev := LeftBy(g, c, n - 1, vis, w);
    CalmElementsKeepRest(g, c, n - 1, w.rest, w.rest + 1, vis, true, w);
    if !AreCalm(g, c, n - 1, w.rest, w.rest + 1, vis, false) {
      ElementsEnd(g, c, n - 1, vis, w);
    }
    if g.nodes[e].Derived? {
      UnvisitedShrinks(g, vis, c);
      var here := AfterVisit(g, e, prev);
      VisitEnds(g, e, prev);
      hide AfterVisit, IsHarmless, Stops, IsCalm;
      TypeEnds(g, ElementType(g, e), vis + {c}, here);
    }
  }

  /** The same for a visit. */
  lemma {:induction false} VisitEnds(g: Graph, e: Id, w: Left)
    requires e in g.nodes && (!Hits(g, e, w.rest) || IsHarmless(g, e, true))
    ensures AfterVisit(g, e, w).rest == w.rest
    ensures w.ended || (Hits(g, e, w.rest) && !IsHarmless(g, e, false)) ==> AfterVisit(g, e, w).ended
  {
  }

  /** Where the base is kept, a target that would be met is hit if and only if nothing ends the search before. */
  lemma {:induction false} KeptIsHitExactlyIfReached(g: Graph, c: Id, vis: set<Id>, way: seq<nat>, rel: nat)
    requires g.TypeOk(Some(c)) && IsCompound(g.nodes[c]) && c !in vis && IsSlotWay(g, c, vis, way)
    requires Meets(g, c, vis, way, rel) && IsKeptTo(g, c, vis, way, rel, true)
    ensures IsHit(g, c, vis, way, Left(rel, false)) <==> IsKeptTo(g, c, vis, way, rel, false)
    decreases |way|
  {
    var w := Left(rel, false);
    CalmElementsKeepRest(g, c, way[0], rel, rel + 1, vis, true, w);
    if |way| > 1 {
      var e := Element(g, c, way[0]);
      MatchLeaves(g, c, vis, way, Front(g, c, vis, way, w));
      if AreCalm(g, c, way[0], rel, rel + 1, vis, false) {
        CalmElementsKeepRest(g, c, way[0], rel, rel + 1, vis, false, w);
        KeptIsHitExactlyIfReached(g, Next(g, c, vis, way), vis + {c}, way[1..], Rest(g, e, rel));
      } else {
        ElementsEnd(g, c, way[0], vis, w);
      }
    }
  }

  /** A slot in order that would be met is found if and only if nothing ends the search before, provided that nothing
      moves the base. */
  lemma {:induction false} SlotIsFoundExactlyIfReached(g: Graph, c: Id, way: seq<nat>, byte: nat)
    requires g.TypeOk(Some(c)) && IsCompound(g.nodes[c]) && IsSlotWay(g, c, {}, way)
    requires IsOrdered(g, c, {}, way) && IsUnshared(g, c, {}, way, Target(g, c, {}, way))
    requires Meets(g, c, {}, way, byte) && IsKeptTo(g, c, {}, way, byte, true)
    ensures SearchType(g, byte, Some(c), {}, START).candidate == Some(Target(g, c, {}, way))
       <==> IsKeptTo(g, c, {}, way, byte, false)
  {
    KeptIsHitExactlyIfReached(g, c, {}, way, byte);
    UnsharedSlotIsFoundExactlyIfHit(g, c, way, byte);
  }

  // ---- Tidy layouts -------------------------------------------------------------------------------------------

  /** What comes before a position, and what is entered from there, does not reach the bytes from that position on, up
      to byte `hi`, or does no harm there. */
  predicate IsFrontCalm(g: Graph, c: Id, vis: set<Id>, way: seq<nat>, hi: nat)
    requires g.TypeOk(Some(c)) && IsCompound(g.nodes[c]) && c !in vis && IsWay(g, c, vis, way)
    decreases |way|
  {
    AreCalm(g, c, way[0], Offset(g.nodes[Element(g, c, way[0])]), hi, vis, |way| == 1) &&
    (|way| > 1 ==> IsFrontCalm(g, Next(g, c, vis, way), vis + {c}, way[1..], hi))
  }

  /** A member is at least as large as the part of the way inside it. */
  predicate IsContained(g: Graph, c: Id, vis: set<Id>, way: seq<nat>)
    requires g.TypeOk(Some(c)) && IsCompound(g.nodes[c]) && c !in vis && IsWay(g, c, vis, way)
    decreases |way|
  {
    |way| > 1 ==>
      var e := Element(g, c, way[0]);
      (IsField(g, e) ==> End(g, Next(g, c, vis, way), vis + {c}, way[1..]) <= Size(g.nodes[e])) &&
      IsContained(g, Next(g, c, vis, way), vis + {c}, way[1..])
  }

  /** A C layout as far as the target is concerned, for bytes below `hi`. The target may point anywhere. */
  predicate IsTidy(g: Graph, c: Id, vis: set<Id>, way: seq<nat>, hi: nat)
    requires g.TypeOk(Some(c)) && IsCompound(g.nodes[c]) && c !in vis && IsWay(g, c, vis, way)
  {
    IsOrdered(g, c, vis, way) && IsContained(g, c, vis, way) && IsFrontCalm(g, c, vis, way, hi)
  }

  /** What is in front of the way leaves a byte behind it as it is. */
  lemma {:induction false} FrontIsKept(g: Graph, c: Id, vis: set<Id>, way: seq<nat>, rel: nat, hi: nat)
    requires g.TypeOk(Some(c)) && IsCompound(g.nodes[c]) && c !in vis && IsWay(g, c, vis, way)
    requires IsFrontCalm(g, c, vis, way, hi) && Offset(g.nodes[Element(g, c, way[0])]) <= rel < hi
    ensures Front(g, c, vis, way, Left(rel, false)).rest == rel
    ensures |way| > 1 ==> !Front(g, c, vis, way, Left(rel, false)).ended
  {
    CalmElementsKeepRest(g, c, way[0], Offset(g.nodes[Element(g, c, way[0])]), hi, vis, |way| == 1, Left(rel, false));
  }

  lemma {:induction false} MetIsHit(g: Graph, c: Id, vis: set<Id>, way: seq<nat>, rel: nat, hi: nat)
    requires g.TypeOk(Some(c)) && IsCompound(g.nodes[c]) && c !in vis && IsWay(g, c, vis, way)
    requires IsByValue(g, c, vis, way) && Meets(g, c, vis, way, rel)
    requires IsFrontCalm(g, c, vis, way, hi) && rel < hi
    ensures IsHit(g, c, vis, way, Left(rel, false))
    decreases |way|
  {
    FrontIsKept(g, c, vis, way, rel, hi);
    if |way| > 1 {
      MatchLeaves(g, c, vis, way, Front(g, c, vis, way, Left(rel, false)));
      MetIsHit(g, Next(g, c, vis, way), vis + {c}, way[1..], Rest(g, Element(g, c, way[0]), rel), hi);
    }
  }

  /** The search looks for the target in front of byte `rel`, which is byte `tr` once no offset is left out. */
  predicate IsUnmet(g: Graph, c: Id, vis: set<Id>, way: seq<nat>, rel: nat, tr: nat)
    requires g.TypeOk(Some(c)) && IsCompound(g.nodes[c]) && c !in vis && IsWay(g, c, vis, way)
    requires IsByValue(g, c, vis, way)
  {
    End(g, c, vis, way) <= rel || (Covers(g, c, vis, way, tr) && tr <= rel && !Meets(g, c, vis, way, rel))
  }

  lemma {:induction false} StaysUnmet(g: Graph, c: Id, vis: set<Id>, way: seq<nat>, rel: nat, tr: nat)
    requires g.TypeOk(Some(c)) && IsCompound(g.nodes[c]) && c !in vis && IsWay(g, c, vis, way)
    requires IsByValue(g, c, vis, way) && IsContained(g, c, vis, way) && IsUnmet(g, c, vis, way, rel, tr)
    ensures var e := Element(g, c, way[0]);
            var o := Offset(g.nodes[e]);
            o <= rel &&
            if |way| == 1 then !Hits(g, e, rel)
            else
              var rel' := if Holds(g, e, rel) then Rest(g, e, rel) else rel;
              IsUnmet(g, Next(g, c, vis, way), vis + {c}, way[1..], rel', if tr < o then 0 else tr - o)
  {
  }

  /** A target that is not met is not hit. */
  lemma {:induction false} UnmetIsNotHit(g: Graph, c: Id, vis: set<Id>, way: seq<nat>, rel: nat, tr: nat, hi: nat)
    requires g.TypeOk(Some(c)) && IsCompound(g.nodes[c]) && c !in vis && IsWay(g, c, vis, way)
    requires IsByValue(g, c, vis, way) && IsContained(g, c, vis, way) && IsFrontCalm(g, c, vis, way, hi)
    requires IsUnmet(g, c, vis, way, rel, tr) && rel < hi
    ensures !IsHit(g, c, vis, way, Left(rel, false))
    decreases |way|
  {
    var e := Element(g, c, way[0]);
    var o := Offset(g.nodes[e]);
    StaysUnmet(g, c, vis, way, rel, tr);
    FrontIsKept(g, c, vis, way, rel, hi);
    if |way| > 1 {
      hide IsUnmet;
      MatchLeaves(g, c, vis, way, Front(g, c, vis, way, Left(rel, false)));
      var rel' := if Holds(g, e, rel) then Rest(g, e, rel) else rel;
      UnmetIsNotHit(g, Next(g, c, vis, way), vis + {c}, way[1..], rel', if tr < o then 0 else tr - o, hi);
    }
  }

  /** On a tidy layout, a slot that covers the byte is hit if and only if the search meets it. */
  lemma {:induction false} CoveredIsHitExactlyIfMet(g: Graph, c: Id, way: seq<nat>, byte: nat, hi: nat)
    requires g.TypeOk(Some(c)) && IsCompound(g.nodes[c]) && IsSlotWay(g, c, {}, way)
    requires IsTidy(g, c, {}, way, hi) && byte < hi && Covers(g, c, {}, way, byte)
    ensures IsHit(g, c, {}, way, Left(byte, false)) <==> Meets(g, c, {}, way, byte)
  {
    if Meets(g, c, {}, way, byte) {
      MetIsHit(g, c, {}, way, byte, hi);
    } else {
      UnmetIsNotHit(g, c, {}, way, byte, byte, hi);
    }
  }

  /** A slot that is met is found. */
  lemma {:induction false} MetSlotIsFound(g: Graph, c: Id, way: seq<nat>, byte: nat, hi: nat)
    requires g.TypeOk(Some(c)) && IsCompound(g.nodes[c]) && IsSlotWay(g, c, {}, way)
    requires IsTidy(g, c, {}, way, hi) && byte < hi && Meets(g, c, {}, way, byte)
    ensures SearchType(g, byte, Some(c), {}, START).candidate == Some(Target(g, c, {}, way))
  {
    MetIsHit(g, c, {}, way, byte, hi);
    HitSlotIsFound(g, c, way, byte, Target(g, c, {}, way));
  }

  /** If no offset is left out, a slot that covers the byte is always found. */
  lemma {:induction false} PlainSlotIsFound(g: Graph, c: Id, way: seq<nat>, byte: nat, hi: nat)
    requires g.TypeOk(Some(c)) && IsCompound(g.nodes[c]) && IsSlotWay(g, c, {}, way)
    requires IsTidy(g, c, {}, way, hi) && byte < hi && IsDirect(g, c, {}, way) && Covers(g, c, {}, way, byte)
    ensures SearchType(g, byte, Some(c), {}, START).candidate == Some(Target(g, c, {}, way))
  {
    DirectWayMeetsExactlyCovered(g, c, {}, way, byte);
    MetSlotIsFound(g, c, way, byte, hi);
  }

  /** On a tidy layout, a slot that covers the byte and occurs once is found if and only if the search meets it. */
  lemma {:induction false} SlotIsFoundExactlyIfMet(g: Graph, c: Id, way: seq<nat>, byte: nat, hi: nat)
    requires g.TypeOk(Some(c)) && IsCompound(g.nodes[c]) && IsSlotWay(g, c, {}, way)
    requires IsTidy(g, c, {}, way, hi) && byte < hi && IsUnshared(g, c, {}, way, Target(g, c, {}, way))
    requires Covers(g, c, {}, way, byte)
    ensures SearchType(g, byte, Some(c), {}, START).candidate == Some(Target(g, c, {}, way))
       <==> Meets(g, c, {}, way, byte)
  {
    CoveredIsHitExactlyIfMet(g, c, way, byte, hi);
    UnsharedSlotIsFoundExactlyIfHit(g, c, way, byte);
  }

  // ---- The entry point ----------------------------------------------------------------------------------------

  predicate IsAnswer(g: Graph, r: Option<StructMember>, e: Id) {
    e in g.nodes && IsField(g, e) && r == Some(StructMember(e, ElementType(g, e)))
  }

  /** Called for an array, the search looks at its elements' type. */
  method ResolveByteOffsetToMemberOf(g: Graph, c: Id, offset: nat) returns (r: Option<StructMember>)
    requires Conforms(g) && g.TypeOk(Some(c)) && g.nodes[c].Composite?
    ensures r.Some? ==> IsAnswer(g, r, r.value.member)
    ensures forall x: Id :: IsAnswer(g, r, x) <==> SearchType(g, offset, Some(c), {}, START).candidate == Some(x)
    ensures IsCompound(g.nodes[c]) ==>
              forall x: Id :: IsAnswer(g, r, x) <==> exists way :: LeadsTo(g, c, offset, way, x)
    ensures IsCompound(g.nodes[c]) ==>
              forall way :: IsSlotWay(g, c, {}, way) && IsTidy(g, c, {}, way, offset + 1) &&
                            Covers(g, c, {}, way, offset) && IsDirect(g, c, {}, way) ==>
                              IsAnswer(g, r, Target(g, c, {}, way))
  {
    var visitor := new DestructureComposite(g, offset);
    visitor.TraverseCompositeType(c);
    CandidateIsField(g, Some(c), offset);
    match visitor.outermostCandidate {
      case None => r := None;
      case Some(e) => r := Some(StructMember(e, g.nodes[e].baseType));
    }
    if IsCompound(g.nodes[c]) {
      hide SearchType, LeadsTo, IsTidy, IsDirect, IsWay, Target, IsByValue, Covers;
      forall x: Id ensures IsAnswer(g, r, x) <==> exists way :: LeadsTo(g, c, offset, way, x) {
        CandidateIsLastHit(g, c, offset, x);
      }
      forall way | IsSlotWay(g, c, {}, way) && IsTidy(g, c, {}, way, offset + 1) &&
                   Covers(g, c, {}, way, offset) && IsDirect(g, c, {}, way)
        ensures IsAnswer(g, r, Target(g, c, {}, way))
      {
        PlainSlotIsFound(g, c, way, offset, offset + 1);
      }
    }
  }

  lemma {:induction false} CandidateIsField(g: Graph, t: Option<Id>, byte: nat)
    requires g.TypeOk(t)
    ensures match SearchType(g, byte, t, {}, START).candidate
            case None => true
            case Some(e) => e in g.nodes && IsField(g, e)
  {
    SearchEntered(g, byte, byte, t, {}, START, Left(byte, false));
    var d := Entered(g, t, {});
    var found := SearchType(g, byte, t, {}, START).candidate;
    if d.Some? && found.Some? {
      CandidateIsLastHit(g, d.value, byte, found.value);
    }
  }
}
