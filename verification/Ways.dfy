/** Exactly which member the search by byte offset returns. A member is named by its way, the positions that lead to it
    through whatever the search enters: embedded structs, base classes, arrays and pointers. */
module Ways {
  import opened Wrappers
  import opened TypeGraph
  import opened Walk
  import opened ByteOffset
  import opened Silence

  /** The compound at the end of a chain, if the search enters it. */
  function Entered(g: Graph, t: Option<Id>, vis: set<Id>): (d: Option<Id>)
    requires g.TypeOk(t)
    ensures d.Some? ==> g.TypeOk(d) && IsCompound(g.nodes[d.value]) && d.value !in vis
    decreases Rank(g, t)
  {
    if t.None? then None
    else
      var n := g.nodes[t.value];
      if n.Derived? then Entered(g, Follow(g, t.value), vis)
      else if !n.Composite? || t.value in vis then None
      else if IsArray(n) then Entered(g, Follow(g, t.value), vis)
      else t
  }

  /** The search of a type is the search of that compound. */
  lemma {:induction false} SearchEntered(g: Graph, byte: nat, rel: nat, t: Option<Id>, vis: set<Id>, s: Search, w: Left)
    requires g.TypeOk(t) && !s.terminate && !w.ended
    ensures match Entered(g, t, vis)
            case None =>
              SearchType(g, byte, t, vis, s) == s && LeftByType(g, t, vis, w) == w && IsSilent(g, rel, t, vis)
            case Some(d) =>
              var n := |g.nodes[d].elements|;
              SearchType(g, byte, t, vis, s) == SearchElements(g, byte, d, n, vis, s) &&
              LeftByType(g, t, vis, w) == LeftBy(g, d, n, vis, w) &&
              IsSilent(g, rel, t, vis) == AreSilent(g, rel, d, 0, n, vis, true)
    decreases Rank(g, t)
  {
    if t.Some? {
      var n := g.nodes[t.value];
      if n.Derived? || (IsArray(n) && t.value !in vis) {
        SearchEntered(g, byte, rel, Follow(g, t.value), vis, s, w);
      }
    }
  }

  // ---- Ways ---------------------------------------------------------------------------------------------------

  /** The positions in `way` lead from compound `c` to a data member. */
  predicate IsWay(g: Graph, c: Id, vis: set<Id>, way: seq<nat>)
    requires g.TypeOk(Some(c)) && IsCompound(g.nodes[c]) && c !in vis
    decreases |way|
  {
    way != [] && way[0] < |g.nodes[c].elements| &&
    var e := Element(g, c, way[0]);
    g.nodes[e].Derived? &&
    if |way| == 1 then IsField(g, e)
    else
      var d := Entered(g, ElementType(g, e), vis + {c});
      d.Some? && IsWay(g, d.value, vis + {c}, way[1..])
  }

  /** The compound that the first position of `way` leads into. */
  function Next(g: Graph, c: Id, vis: set<Id>, way: seq<nat>): (d: Id)
    requires g.TypeOk(Some(c)) && IsCompound(g.nodes[c]) && c !in vis && IsWay(g, c, vis, way) && |way| > 1
    ensures g.TypeOk(Some(d)) && IsCompound(g.nodes[d]) && d !in vis + {c} && IsWay(g, d, vis + {c}, way[1..])
  {
    Entered(g, ElementType(g, Element(g, c, way[0])), vis + {c}).value
  }

  function Target(g: Graph, c: Id, vis: set<Id>, way: seq<nat>): (e: Id)
    requires g.TypeOk(Some(c)) && IsCompound(g.nodes[c]) && c !in vis && IsWay(g, c, vis, way)
    ensures e in g.nodes && IsField(g, e)
    decreases |way|
  {
    if |way| == 1 then Element(g, c, way[0]) else Target(g, Next(g, c, vis, way), vis + {c}, way[1..])
  }

  /** The member is a slot: it is declared directly as a pointer, reference, pointer to member or array. */
  predicate IsStop(g: Graph, e: Id)
    requires e in g.nodes && IsField(g, e)
  {
    IsPointerOrArray(g.nodes[ElementType(g, e).value])
  }

  // ---- Hits ---------------------------------------------------------------------------------------------------

  /** What is left where the first position of the way is visited. */
  function Front(g: Graph, c: Id, vis: set<Id>, way: seq<nat>, w: Left): Left
    requires g.TypeOk(Some(c)) && IsCompound(g.nodes[c]) && c !in vis && IsWay(g, c, vis, way)
  {
    LeftBy(g, c, way[0], vis, w)
  }

  /** The search comes through to the target, and what is left of the byte then lies in it. */
  predicate IsHit(g: Graph, c: Id, vis: set<Id>, way: seq<nat>, w: Left)
    requires g.TypeOk(Some(c)) && IsCompound(g.nodes[c]) && c !in vis && IsWay(g, c, vis, way)
    decreases |way|
  {
    var e := Element(g, c, way[0]);
    var front := Front(g, c, vis, way, w);
    if |way| == 1 then Hits(g, e, front.rest)
    else
      !front.ended && !Stops(g, e, front.rest) &&
      IsHit(g, Next(g, c, vis, way), vis + {c}, way[1..], AfterVisit(g, e, front))
  }

  /** What a hit leaves. */
  function LeftByHit(g: Graph, c: Id, vis: set<Id>, way: seq<nat>, w: Left): (r: Left)
    requires g.TypeOk(Some(c)) && IsCompound(g.nodes[c]) && c !in vis && IsWay(g, c, vis, way)
    requires IsHit(g, c, vis, way, w)
    ensures IsStop(g, Target(g, c, vis, way)) ==> r.ended
    decreases |way|
  {
    var visit := AfterVisit(g, Element(g, c, way[0]), Front(g, c, vis, way, w));
    if |way| == 1 then visit else LeftByHit(g, Next(g, c, vis, way), vis + {c}, way[1..], visit)
  }

  /** Behind every position, up to position `n` of `c`, and below the target, nothing covers the rest any more; once the
      search has ended, only what is not below a struct counts. */
  predicate IsQuiet(g: Graph, c: Id, n: nat, vis: set<Id>, way: seq<nat>, w: Left)
    requires g.TypeOk(Some(c)) && IsCompound(g.nodes[c]) && c !in vis && IsWay(g, c, vis, way)
    requires way[0] < n <= |g.nodes[c].elements|
    decreases |way|
  {
    AreSilent(g, w.rest, c, way[0] + 1, n, vis, !w.ended) &&
    if |way| > 1 then
      var d := Next(g, c, vis, way);
      IsQuiet(g, d, |g.nodes[d].elements|, vis + {c}, way[1..], w)
    else !w.ended ==> IsSilent(g, w.rest, ElementType(g, Element(g, c, way[0])), vis + {c})
  }

  /** The target is hit, and nothing after it. */
  predicate IsLastHit(g: Graph, c: Id, n: nat, vis: set<Id>, way: seq<nat>, w: Left)
    requires g.TypeOk(Some(c)) && IsCompound(g.nodes[c]) && c !in vis && IsWay(g, c, vis, way)
    requires way[0] < n <= |g.nodes[c].elements|
  {
    IsHit(g, c, vis, way, w) && IsQuiet(g, c, n, vis, way, LeftByHit(g, c, vis, way, w))
  }

  // ---- The candidate is the last hit --------------------------------------------------------------------------

  /** The visit to the element at position `i`, and the search below it. */
  lemma {:induction false} OneElement(g: Graph, byte: nat, c: Id, i: nat, vis: set<Id>, s: Search, w: Left)
    requires IsRange(g, c, i, i + 1, vis) && IsAt(byte, s, w) && g.nodes[Element(g, c, i)].Derived?
    ensures var e := Element(g, c, i);
            var prev, left := SearchElements(g, byte, c, i, vis, s), LeftBy(g, c, i, vis, w);
            var s1, w1 := VisitMember(g, byte, e, prev).0, AfterVisit(g, e, left);
            IsAt(byte, prev, left) && IsAt(byte, s1, w1) &&
            s1.candidate == (if Hits(g, e, left.rest) then Some(e) else prev.candidate) &&
            Unvisited(g, vis + {c}) < Unvisited(g, vis) &&
            if Stops(g, e, left.rest) then
              SearchElements(g, byte, c, i + 1, vis, s) == s1 && LeftBy(g, c, i + 1, vis, w) == w1
            else
              SearchElements(g, byte, c, i + 1, vis, s) == SearchType(g, byte, ElementType(g, e), vis + {c}, s1) &&
              LeftBy(g, c, i + 1, vis, w) == LeftByType(g, ElementType(g, e), vis + {c}, w1)
  {
    var e := Element(g, c, i);
    SearchIsAt(g, byte, c, i, vis, s, w);
    VisitIsAt(g, byte, e, SearchElements(g, byte, c, i, vis, s), LeftBy(g, c, i, vis, w));
    UnvisitedShrinks(g, vis, c);
    hide VisitMember, SearchType, LeftByType, AfterVisit, Stops, Hits;
    assert SearchElements(g, byte, c, i + 1, vis, s)
        == SearchElement(g, byte, e, vis + {c}, SearchElements(g, byte, c, i, vis, s));
  }

  /** The state behind the target, or behind the first position that leads to it. */
  lemma {:induction false} HitIsCandidate(g: Graph, byte: nat, c: Id, n: nat, vis: set<Id>, way: seq<nat>, s: Search,
                                          w: Left)
    requires g.TypeOk(Some(c)) && IsCompound(g.nodes[c]) && c !in vis && IsWay(g, c, vis, way) && IsAt(byte, s, w)
    requires way[0] < n <= |g.nodes[c].elements| && IsLastHit(g, c, n, vis, way, w)
    ensures SearchElements(g, byte, c, way[0] + 1, vis, s).candidate == Some(Target(g, c, vis, way))
    ensures LeftBy(g, c, way[0] + 1, vis, w) == LeftByHit(g, c, vis, way, w)
    decreases |way|, 0
  {
    var e := Element(g, c, way[0]);
    var left := LeftByHit(g, c, vis, way, w);
    OneElement(g, byte, c, way[0], vis, s, w);
    var s1 := VisitMember(g, byte, e, SearchElements(g, byte, c, way[0], vis, s)).0;
    var w1 := AfterVisit(g, e, Front(g, c, vis, way, w));
    hide VisitMember, AfterVisit, SearchElements, LeftBy, AreSilent, IsSilent;
    if |way| > 1 {
      assert !s1.terminate && !w1.ended by { EndedByVisit(g, e, Front(g, c, vis, way, w)); }
      SearchEntered(g, byte, left.rest, ElementType(g, e), vis + {c}, s1, w1);
      var d := Next(g, c, vis, way);
      LastHitIsCandidate(g, byte, d, |g.nodes[d].elements|, vis + {c}, way[1..], s1, w1);
    } else if !Stops(g, e, Front(g, c, vis, way, w).rest) {
      NothingBelow(g, byte, ElementType(g, e), vis + {c}, s1, w1);
    }
  }

  lemma {:induction false} EndedByVisit(g: Graph, e: Id, w: Left)
    requires e in g.nodes
    ensures AfterVisit(g, e, w).ended == (w.ended || Stops(g, e, w.rest))
  {
  }

  /** A silent type, and any type once the search has ended, changes nothing. */
  lemma {:induction false} NothingBelow(g: Graph, byte: nat, t: Option<Id>, vis: set<Id>, s: Search, w: Left)
    requires g.TypeOk(t) && IsAt(byte, s, w) && (w.ended || IsSilent(g, w.rest, t, vis))
    ensures SearchType(g, byte, t, vis, s) == s && LeftByType(g, t, vis, w) == w
  {
    if w.ended {
      TerminatedTypePasses(g, byte, t, vis, s);
    } else {
      SilentTypePasses(g, byte, w.rest, t, vis, s);
    }
    TypeSearchIsAt(g, byte, t, vis, s, w);
  }

  /** The last hit is the final candidate. */
  lemma {:induction false} LastHitIsCandidate(g: Graph, byte: nat, c: Id, n: nat, vis: set<Id>, way: seq<nat>,
                                              s: Search, w: Left)
    requires g.TypeOk(Some(c)) && IsCompound(g.nodes[c]) && c !in vis && IsWay(g, c, vis, way) && IsAt(byte, s, w)
    requires way[0] < n <= |g.nodes[c].elements| && IsLastHit(g, c, n, vis, way, w)
    ensures SearchElements(g, byte, c, n, vis, s).candidate == Some(Target(g, c, vis, way))
    ensures LeftBy(g, c, n, vis, w) == LeftByHit(g, c, vis, way, w)
    decreases |way|, 1
  {
    var left := LeftByHit(g, c, vis, way, w);
    HitIsCandidate(g, byte, c, n, vis, way, s, w);
    SearchIsAt(g, byte, c, way[0] + 1, vis, s, w);
    SearchIsAt(g, byte, c, n, vis, s, w);
    hide SearchElements, LeftBy, IsHit, LeftByHit;
    SilentElementsPass(g, byte, left.rest, c, way[0] + 1, n, vis, s, !left.ended);
  }

  // ---- Every candidate is a last hit --------------------------------------------------------------------------

  /** The last hit among the first `n` elements, if `way` is not empty; otherwise nothing there is hit. */
  predicate IsLast(g: Graph, c: Id, n: nat, vis: set<Id>, way: seq<nat>, w: Left)
    requires IsRange(g, c, 0, n, vis)
  {
    if way == [] then AreSilent(g, w.rest, c, 0, n, vis, !w.ended)
    else IsWay(g, c, vis, way) && way[0] < n && IsLastHit(g, c, n, vis, way, w)
  }

  /** Element `n` is not hit, and nothing below it. */
  predicate IsPassed(g: Graph, c: Id, n: nat, vis: set<Id>, left: Left)
    requires IsRange(g, c, n, n + 1, vis)
  {
    AreSilent(g, left.rest, c, n, n + 1, vis, !left.ended)
  }

  lemma {:induction false} SilentAndOne(g: Graph, rel: nat, c: Id, i: nat, n: nat, vis: set<Id>, deep: bool)
    requires IsRange(g, c, i, n, vis) && IsRange(g, c, n, n + 1, vis)
    requires AreSilent(g, rel, c, i, n, vis, deep) && AreSilent(g, rel, c, n, n + 1, vis, deep)
    ensures AreSilent(g, rel, c, i, n + 1, vis, deep)
  {
    hide IsSilent;
    assert AreSilent(g, rel, c, n, n, vis, deep);
  }

  /** An element that is passed leaves the last hit where it is. */
  lemma {:induction false} LastStays(g: Graph, byte: nat, c: Id, n: nat, vis: set<Id>, way: seq<nat>, s: Search,
                                     w: Left)
    requires IsRange(g, c, 0, n, vis) && IsRange(g, c, n, n + 1, vis) && IsAt(byte, s, w)
    requires IsLast(g, c, n, vis, way, w) && IsPassed(g, c, n, vis, LeftBy(g, c, n, vis, w))
    ensures IsLast(g, c, n + 1, vis, way, w)
  {
    if way == [] {
      SearchIsAt(g, byte, c, n, vis, s, w);
      SilentElementsPass(g, byte, w.rest, c, 0, n, vis, s, !w.ended);
      assert LeftBy(g, c, n, vis, w) == w;
      SilentAndOne(g, w.rest, c, 0, n, vis, !w.ended);
    } else {
      LastHitIsCandidate(g, byte, c, n, vis, way, s, w);
      var left := LeftByHit(g, c, vis, way, w);
      hide AreSilent, IsSilent, LeftBy, LeftByHit, IsHit;
      SilentAndOne(g, left.rest, c, way[0] + 1, n, vis, !left.ended);
    }
  }

  /** A hit below element `n` is the last one. */
  lemma {:induction false} LastIsBelow(g: Graph, c: Id, n: nat, vis: set<Id>, inner: seq<nat>, w: Left)
    requires IsRange(g, c, n, n + 1, vis) && IsRange(g, c, 0, n + 1, vis) && g.nodes[Element(g, c, n)].Derived?
    requires var e := Element(g, c, n);
             var left := LeftBy(g, c, n, vis, w);
             var d := Entered(g, ElementType(g, e), vis + {c});
             !left.ended && !Stops(g, e, left.rest) && inner != [] && d.Some? &&
             IsLast(g, d.value, |g.nodes[d.value].elements|, vis + {c}, inner, AfterVisit(g, e, left))
    ensures IsLast(g, c, n + 1, vis, [n] + inner, w)
  {
    assert ([n] + inner)[1..] == inner;
    hide LeftBy, AfterVisit, Stops, IsSilent;
  }

  /** A hit of element `n` itself is the last one, if nothing below it is hit. */
  lemma {:induction false} LastIsHere(g: Graph, c: Id, n: nat, vis: set<Id>, w: Left)
    requires IsRange(g, c, n, n + 1, vis) && IsRange(g, c, 0, n + 1, vis) && g.nodes[Element(g, c, n)].Derived?
    requires var e := Element(g, c, n);
             var left := LeftBy(g, c, n, vis, w);
             var after := AfterVisit(g, e, left);
             Hits(g, e, left.rest) && (!after.ended ==> IsSilent(g, after.rest, ElementType(g, e), vis + {c}))
    ensures IsLast(g, c, n + 1, vis, [n], w)
  {
    hide LeftBy, IsSilent;
  }

  /** There is a last hit among the first `n` elements, or none. */
  lemma {:induction false} FindLastHit(g: Graph, byte: nat, c: Id, n: nat, vis: set<Id>, s: Search, w: Left)
    returns (way: seq<nat>)
    requires IsRange(g, c, 0, n, vis) && IsAt(byte, s, w)
    ensures IsLast(g, c, n, vis, way, w)
    decreases Unvisited(g, vis), 0, n
  {
    if n == 0 {
      return [];
    }
    hide IsLast, IsPassed;
    way := FindLastHit(g, byte, c, n - 1, vis, s, w);
    var e := Element(g, c, n - 1);
    var left := LeftBy(g, c, n - 1, vis, w);
    if !g.nodes[e].Derived? {
      assert IsPassed(g, c, n - 1, vis, left) by { NotDerivedIsPassed(g, c, n - 1, vis, left); }
      LastStays(g, byte, c, n - 1, vis, way, s, w);
      return;
    }
    OneElement(g, byte, c, n - 1, vis, s, w);
    var s1 := VisitMember(g, byte, e, SearchElements(g, byte, c, n - 1, vis, s)).0;
    var w1 := AfterVisit(g, e, left);
    EndedByVisit(g, e, left);
    hide SearchElements, LeftBy, VisitMember, AfterVisit, AreSilent, IsSilent;
    var inner := FindBelow(g, byte, ElementType(g, e), vis + {c}, s1, w1);
    if inner != [] {
      LastIsBelow(g, c, n - 1, vis, inner, w);
      way := [n - 1] + inner;
    } else if Hits(g, e, left.rest) {
      LastIsHere(g, c, n - 1, vis, w);
      way := [n - 1];
    } else {
      MissIsPassed(g, c, n - 1, vis, left);
      LastStays(g, byte, c, n - 1, vis, way, s, w);
    }
  }

  lemma {:induction false} NotDerivedIsPassed(g: Graph, c: Id, n: nat, vis: set<Id>, left: Left)
    requires IsRange(g, c, n, n + 1, vis) && !g.nodes[Element(g, c, n)].Derived?
    ensures IsPassed(g, c, n, vis, left)
  {
    assert AreSilent(g, left.rest, c, n, n, vis, !left.ended);
  }

  lemma {:induction false} MissIsPassed(g: Graph, c: Id, n: nat, vis: set<Id>, left: Left)
    requires IsRange(g, c, n, n + 1, vis) && g.nodes[Element(g, c, n)].Derived? && !Hits(g, Element(g, c, n), left.rest)
    requires !left.ended ==> IsSilent(g, left.rest, ElementType(g, Element(g, c, n)), vis + {c})
    ensures IsPassed(g, c, n, vis, left) && AfterVisit(g, Element(g, c, n), left) == left
  {
    hide IsSilent;
    assert AreSilent(g, left.rest, c, n, n, vis, !left.ended);
  }

  /** The last hit below a type, if the search still goes on. */
  lemma {:induction false} FindBelow(g: Graph, byte: nat, t: Option<Id>, vis: set<Id>, s: Search, w: Left)
    returns (way: seq<nat>)
    requires g.TypeOk(t) && IsAt(byte, s, w)
    ensures if way == [] then w.ended || IsSilent(g, w.rest, t, vis)
            else
              !w.ended && Entered(g, t, vis).Some? &&
              IsLast(g, Entered(g, t, vis).value, |g.nodes[Entered(g, t, vis).value].elements|, vis, way, w)
    decreases Unvisited(g, vis), 1, 0
  {
    way := [];
    if !w.ended {
      SearchEntered(g, byte, w.rest, t, vis, s, w);
      var d := Entered(g, t, vis);
      if d.Some? {
        way := FindLastHit(g, byte, d.value, |g.nodes[d.value].elements|, vis, s, w);
      }
    }
  }

  // ---- The result of the search -------------------------------------------------------------------------------

  /** The search for `byte` hits `x` by this way, and nothing after it. */
  predicate LeadsTo(g: Graph, c: Id, byte: nat, way: seq<nat>, x: Id)
    requires g.TypeOk(Some(c)) && IsCompound(g.nodes[c])
  {
    IsWay(g, c, {}, way) && Target(g, c, {}, way) == x &&
    IsLastHit(g, c, |g.nodes[c].elements|, {}, way, Left(byte, false))
  }

  /** For every graph and every byte: `x` is the final candidate if and only if some way hits it last. */
  lemma {:induction false} CandidateIsLastHit(g: Graph, c: Id, byte: nat, x: Id)
    requires g.TypeOk(Some(c)) && IsCompound(g.nodes[c])
    ensures SearchType(g, byte, Some(c), {}, START).candidate == Some(x) <==> exists way :: LeadsTo(g, c, byte, way, x)
  {
    var n := |g.nodes[c].elements|;
    var w := Left(byte, false);
    var found := FindLastHit(g, byte, c, n, {}, START, w);
    if found == [] {
      SilentElementsPass(g, byte, byte, c, 0, n, {}, START, true);
    } else {
      LastHitIsCandidate(g, byte, c, n, {}, found, START, w);
      assert LeadsTo(g, c, byte, found, Target(g, c, {}, found));
    }
    forall way | LeadsTo(g, c, byte, way, x) {
      LastHitIsCandidate(g, byte, c, n, {}, way, START, w);
    }
  }

  // ---- Targets with one way -----------------------------------------------------------------------------------

  /** The target occurs nowhere else: not beside the way, and not below itself. */
  predicate IsUnshared(g: Graph, c: Id, vis: set<Id>, way: seq<nat>, x: Id)
    requires g.TypeOk(Some(c)) && IsCompound(g.nodes[c]) && c !in vis && IsWay(g, c, vis, way)
    decreases |way|
  {
    !Mention(g, c, 0, way[0], vis, x) && !Mention(g, c, way[0] + 1, |g.nodes[c].elements|, vis, x) &&
    if |way| > 1 then
      Element(g, c, way[0]) != x && IsUnshared(g, Next(g, c, vis, way), vis + {c}, way[1..], x)
    else !Mentions(g, ElementType(g, Element(g, c, way[0])), vis + {c}, x)
  }

  lemma {:induction false} MentionsEntered(g: Graph, t: Option<Id>, vis: set<Id>, x: Id)
    requires g.TypeOk(t)
    ensures Mentions(g, t, vis, x) ==
            match Entered(g, t, vis)
            case None => false
            case Some(d) => Mention(g, d, 0, |g.nodes[d].elements|, vis, x)
    decreases Rank(g, t)
  {
    if t.Some? {
      var n := g.nodes[t.value];
      if n.Derived? || (IsArray(n) && t.value !in vis) {
        MentionsEntered(g, Follow(g, t.value), vis, x);
      }
    }
  }

  lemma {:induction false} MentionWithin(g: Graph, c: Id, i: nat, j: nat, n: nat, vis: set<Id>, x: Id)
    requires IsRange(g, c, i, n, vis) && i <= j < n && Mention(g, c, j, j + 1, vis, x)
    ensures Mention(g, c, i, n, vis, x)
    decreases n
  {
    if j + 1 < n {
      MentionWithin(g, c, i, j, n - 1, vis, x);
    } else {
      assert !Mention(g, c, j, j, vis, x);
    }
  }

  /** A target is mentioned where its way begins. */
  lemma {:induction false} TargetIsMentioned(g: Graph, c: Id, vis: set<Id>, way: seq<nat>)
    requires g.TypeOk(Some(c)) && IsCompound(g.nodes[c]) && c !in vis && IsWay(g, c, vis, way)
    ensures Mention(g, c, way[0], way[0] + 1, vis, Target(g, c, vis, way))
    ensures |way| > 1 ==> Mentions(g, ElementType(g, Element(g, c, way[0])), vis + {c}, Target(g, c, vis, way))
    decreases |way|
  {
    UnvisitedShrinks(g, vis, c);
    if |way| > 1 {
      var d := Next(g, c, vis, way);
      TargetIsMentioned(g, d, vis + {c}, way[1..]);
      MentionWithin(g, d, 0, way[1], |g.nodes[d].elements|, vis + {c}, Target(g, c, vis, way));
      MentionsEntered(g, ElementType(g, Element(g, c, way[0])), vis + {c}, Target(g, c, vis, way));
    }
  }

  lemma {:induction false} OneWay(g: Graph, c: Id, vis: set<Id>, way: seq<nat>, other: seq<nat>)
    requires g.TypeOk(Some(c)) && IsCompound(g.nodes[c]) && c !in vis && IsWay(g, c, vis, way)
    requires IsWay(g, c, vis, other) && Target(g, c, vis, other) == Target(g, c, vis, way)
    requires IsUnshared(g, c, vis, way, Target(g, c, vis, way))
    ensures other == way
    decreases |way|
  {
    var x := Target(g, c, vis, way);
    TargetIsMentioned(g, c, vis, other);
    if other[0] < way[0] {
      MentionWithin(g, c, 0, other[0], way[0], vis, x);
    } else if other[0] > way[0] {
      MentionWithin(g, c, way[0] + 1, other[0], |g.nodes[c].elements|, vis, x);
    } else if |way| > 1 && |other| > 1 {
      OneWay(g, Next(g, c, vis, way), vis + {c}, way[1..], other[1..]);
    }
  }

  /** Where the target has one way only, it is the final candidate if and only if that way hits it last. */
  lemma {:induction false} UnsharedIsCandidate(g: Graph, c: Id, byte: nat, way: seq<nat>)
    requires g.TypeOk(Some(c)) && IsCompound(g.nodes[c]) && IsWay(g, c, {}, way)
    requires IsUnshared(g, c, {}, way, Target(g, c, {}, way))
    ensures SearchType(g, byte, Some(c), {}, START).candidate == Some(Target(g, c, {}, way))
       <==> IsLastHit(g, c, |g.nodes[c].elements|, {}, way, Left(byte, false))
  {
    var x := Target(g, c, {}, way);
    CandidateIsLastHit(g, c, byte, x);
    hide IsLastHit, IsWay, Target, IsUnshared, SearchType;
    if LeadsTo(g, c, byte, way, x) {
    } else if other :| LeadsTo(g, c, byte, other, x) {
      OneWay(g, c, {}, way, other);
    }
  }
}
