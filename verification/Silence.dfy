/** What the search by byte offset passes by unchanged, what it leaves of the byte, and
    what leaves its offset base alone. */
module Silence {
  import opened Wrappers
  import opened TypeGraph
  import opened Walk
  import opened ByteOffset

  function Element(g: Graph, c: Id, i: nat): (e: Id)
    requires g.TypeOk(Some(c)) && g.nodes[c].Composite? && i < |g.nodes[c].elements|
    ensures e in g.nodes
  {
    assert g.NodeOk(c) && g.ElementOk(g.nodes[c], g.nodes[c].elements[i]);
    g.nodes[c].elements[i]
  }

  /** Elements from `i` up to `n` of compound `c`. */
  predicate IsRange(g: Graph, c: Id, i: nat, n: nat, vis: set<Id>) {
    g.TypeOk(Some(c)) && IsCompound(g.nodes[c]) && c !in vis && i <= n <= |g.nodes[c].elements|
  }

  /** Offset and size in bytes. */
  function Offset(n: Node): nat
    requires n.Derived?
  {
    n.offsetBits / 8
  }

  function Size(n: Node): nat
    requires n.Derived?
  {
    n.sizeBits / 8
  }

  predicate IsDataMember(n: Node) { n.Derived? && n.tag == MemberTag && !n.isStatic }

  /** A data member with a type. */
  predicate IsField(g: Graph, e: Id)
    requires e in g.nodes
  {
    IsDataMember(g.nodes[e]) && ElementType(g, e).Some?
  }

  /** What a slot is declared with: a pointer, a reference, a pointer to member, or an array. */
  predicate IsPointerOrArray(n: Node) {
    if n.Derived? then
      n.tag == PointerTag || n.tag == ReferenceTag || n.tag == PtrToMemberTag || n.tag == ArrayTag
    else n.Composite? && n.tag == ArrayTag
  }

  /** The member `e` covers byte `rel`, counted from the offset base. */
  predicate Hits(g: Graph, e: Id, rel: nat)
    requires e in g.nodes
  {
    IsField(g, e) && Offset(g.nodes[e]) <= rel < Offset(g.nodes[e]) + Size(g.nodes[e])
  }

  // ---- Silent: nothing changes --------------------------------------------------------------------------------

  /** Nothing that is entered below `t` covers byte `rel`. */
  predicate IsSilent(g: Graph, rel: nat, t: Option<Id>, vis: set<Id>)
    requires g.TypeOk(t)
    decreases Unvisited(g, vis), Rank(g, t), 1, 0
  {
    t.Some? ==>
      var n := g.nodes[t.value];
      if n.Derived? then IsSilent(g, rel, Follow(g, t.value), vis)
      else
        n.Composite? && t.value !in vis ==>
          if IsArray(n) then IsSilent(g, rel, Follow(g, t.value), vis)
          else AreSilent(g, rel, t.value, 0, |n.elements|, vis, true)
  }

  /** The same for a range of elements; if not `deep`, only for the elements themselves. */
  predicate AreSilent(g: Graph, rel: nat, c: Id, i: nat, n: nat, vis: set<Id>, deep: bool)
    requires IsRange(g, c, i, n, vis)
    decreases Unvisited(g, vis), Rank(g, Some(c)), 0, n
  {
    i == n ||
    (AreSilent(g, rel, c, i, n - 1, vis, deep) &&
     var e := Element(g, c, n - 1);
     g.nodes[e].Derived? ==>
       !Hits(g, e, rel) && (deep ==> (UnvisitedShrinks(g, vis, c); IsSilent(g, rel, ElementType(g, e), vis + {c}))))
  }

  lemma {:induction false} SilentTypePasses(g: Graph, byte: nat, rel: nat, t: Option<Id>, vis: set<Id>, s: Search)
    requires g.TypeOk(t) && byte == s.offsetBase + rel && IsSilent(g, rel, t, vis)
    ensures SearchType(g, byte, t, vis, s) == s
    decreases Unvisited(g, vis), Rank(g, t), 1, 0
  {
    if t.Some? {
      var n := g.nodes[t.value];
      if n.Derived? || (IsArray(n) && t.value !in vis) {
        SilentTypePasses(g, byte, rel, Follow(g, t.value), vis, s);
      } else if n.Composite? && t.value !in vis {
        SilentElementsPass(g, byte, rel, t.value, 0, |n.elements|, vis, s, true);
      }
    }
  }

  /** Silent elements leave the search as it is; once it has terminated, no element is entered. */
  lemma {:induction false} SilentElementsPass(g: Graph, byte: nat, rel: nat, c: Id, i: nat, n: nat, vis: set<Id>,
                                              s: Search, deep: bool)
    requires IsRange(g, c, i, n, vis) && AreSilent(g, rel, c, i, n, vis, deep)
    requires var here := SearchElements(g, byte, c, i, vis, s);
             byte == here.offsetBase + rel && (deep || here.terminate)
    ensures SearchElements(g, byte, c, n, vis, s) == SearchElements(g, byte, c, i, vis, s)
    decreases Unvisited(g, vis), Rank(g, Some(c)), 0, n
  {
    if i < n {
      SilentElementsPass(g, byte, rel, c, i, n - 1, vis, s, deep);
      var here := SearchElements(g, byte, c, i, vis, s);
      var e := Element(g, c, n - 1);
      if g.nodes[e].Derived? {
        UnvisitedShrinks(g, vis, c);
        if deep {
          SilentTypePasses(g, byte, rel, ElementType(g, e), vis + {c}, here);
        } else {
          TerminatedTypePasses(g, byte, ElementType(g, e), vis + {c}, here);
        }
      }
    }
  }

  lemma {:induction false} TerminatedTypePasses(g: Graph, byte: nat, t: Option<Id>, vis: set<Id>, s: Search)
    requires g.TypeOk(t) && s.terminate
    ensures SearchType(g, byte, t, vis, s) == s
    decreases Rank(g, t)
  {
    if t.Some? && g.nodes[t.value].Derived? {
      TerminatedTypePasses(g, byte, Follow(g, t.value), vis, s);
    }
  }

  // ---- Left: what remains of the byte -------------------------------------------------------------------------

  /** The part of the byte that the offset base has not consumed, and whether the search has ended. */
  datatype Left = Left(rest: nat, ended: bool)

  /** What a visit to `e` itself leaves. */
  function AfterVisit(g: Graph, e: Id, w: Left): Left
    requires e in g.nodes
  {
    if !Hits(g, e, w.rest) then w
    else
      var t := g.nodes[ElementType(g, e).value];
      if IsPointerOrArray(t) then w.(ended := true)
      else if IsCompound(t) then w.(rest := w.rest - Offset(g.nodes[e]))
      else w
  }

  /** The search does not enter what `e` is made of. */
  predicate Stops(g: Graph, e: Id, rel: nat)
    requires e in g.nodes
  {
    Hits(g, e, rel) && IsPointerOrArray(g.nodes[ElementType(g, e).value])
  }

  /** What is left behind everything that is entered below `t`. */
  function LeftByType(g: Graph, t: Option<Id>, vis: set<Id>, w: Left): Left
    requires g.TypeOk(t)
    decreases Unvisited(g, vis), Rank(g, t), 1, 0
  {
    if t.None? then w
    else
      var n := g.nodes[t.value];
      if n.Derived? then LeftByType(g, Follow(g, t.value), vis, w)
      else if !n.Composite? || t.value in vis || w.ended then w
      else if IsArray(n) then LeftByType(g, Follow(g, t.value), vis, w)
      else LeftBy(g, t.value, |n.elements|, vis, w)
  }

  /** What is left behind the first `n` elements of `c`. */
  function LeftBy(g: Graph, c: Id, n: nat, vis: set<Id>, w: Left): Left
    requires IsRange(g, c, 0, n, vis)
    decreases Unvisited(g, vis), Rank(g, Some(c)), 0, n
  {
    if n == 0 then w
    else
      var prev := LeftBy(g, c, n - 1, vis, w);
      var e := Element(g, c, n - 1);
      UnvisitedShrinks(g, vis, c);
      if !g.nodes[e].Derived? || Stops(g, e, prev.rest) then AfterVisit(g, e, prev)
      else LeftByType(g, ElementType(g, e), vis + {c}, AfterVisit(g, e, prev))
  }

  /** The search is where `w` says. */
  predicate IsAt(byte: nat, s: Search, w: Left) { byte == s.offsetBase + w.rest && s.terminate == w.ended }

  lemma {:induction false} VisitIsAt(g: Graph, byte: nat, e: Id, s: Search, w: Left)
    requires e in g.nodes && g.nodes[e].Derived? && IsAt(byte, s, w)
    ensures var (s1, descend) := VisitMember(g, byte, e, s);
            IsAt(byte, s1, AfterVisit(g, e, w)) && descend == !Stops(g, e, w.rest) &&
            s1.candidate == if Hits(g, e, w.rest) then Some(e) else s.candidate
  {
  }

  lemma {:induction false} TypeSearchIsAt(g: Graph, byte: nat, t: Option<Id>, vis: set<Id>, s: Search, w: Left)
    requires g.TypeOk(t) && IsAt(byte, s, w)
    ensures IsAt(byte, SearchType(g, byte, t, vis, s), LeftByType(g, t, vis, w))
    decreases Unvisited(g, vis), Rank(g, t), 1, 0
  {
    if t.Some? {
      var n := g.nodes[t.value];
      if n.Derived? || (IsArray(n) && t.value !in vis && !w.ended) {
        TypeSearchIsAt(g, byte, Follow(g, t.value), vis, s, w);
      } else if IsCompound(n) && t.value !in vis && !w.ended {
        SearchIsAt(g, byte, t.value, |n.elements|, vis, s, w);
      }
    }
  }

  /** The search moves its offset base, and ends, exactly as computed here. */
  lemma {:induction false} SearchIsAt(g: Graph, byte: nat, c: Id, n: nat, vis: set<Id>, s: Search, w: Left)
    requires IsRange(g, c, 0, n, vis) && IsAt(byte, s, w)
    ensures IsAt(byte, SearchElements(g, byte, c, n, vis, s), LeftBy(g, c, n, vis, w))
    decreases Unvisited(g, vis), Rank(g, Some(c)), 0, n
  {
    if n > 0 {
      SearchIsAt(g, byte, c, n - 1, vis, s, w);
      var prev := SearchElements(g, byte, c, n - 1, vis, s);
      var left := LeftBy(g, c, n - 1, vis, w);
      var e := Element(g, c, n - 1);
      if g.nodes[e].Derived? {
        UnvisitedShrinks(g, vis, c);
        VisitIsAt(g, byte, e, prev, left);
        TypeSearchIsAt(g, byte, ElementType(g, e), vis + {c}, VisitMember(g, byte, e, prev).0, AfterVisit(g, e, left));
        hide VisitMember, SearchType, LeftByType, AfterVisit, Stops;
      }
    }
  }

  // ---- Mentioned: what is met at all --------------------------------------------------------------------------

  /** The element `x` is met when everything below `t` is entered. */
  predicate Mentions(g: Graph, t: Option<Id>, vis: set<Id>, x: Id)
    requires g.TypeOk(t)
    decreases Unvisited(g, vis), Rank(g, t), 1, 0
  {
    t.Some? &&
    var n := g.nodes[t.value];
    if n.Derived? then Mentions(g, Follow(g, t.value), vis, x)
    else
      n.Composite? && t.value !in vis &&
      if IsArray(n) then Mentions(g, Follow(g, t.value), vis, x) else Mention(g, t.value, 0, |n.elements|, vis, x)
  }

  predicate Mention(g: Graph, c: Id, i: nat, n: nat, vis: set<Id>, x: Id)
    requires IsRange(g, c, i, n, vis)
    decreases Unvisited(g, vis), Rank(g, Some(c)), 0, n
  {
    i < n &&
    (Mention(g, c, i, n - 1, vis, x) ||
     var e := Element(g, c, n - 1);
     g.nodes[e].Derived? &&
     (x == e || (UnvisitedShrinks(g, vis, c); Mentions(g, ElementType(g, e), vis + {c}, x))))
  }

  // ---- Calm: the offset base stays ----------------------------------------------------------------------------

  /** A match of `e` moves at most the candidate, or terminates the search where that is allowed. */
  predicate IsHarmless(g: Graph, e: Id, mayStop: bool)
    requires e in g.nodes
  {
    IsField(g, e) ==>
      var t := g.nodes[ElementType(g, e).value];
      if IsPointerOrArray(t) then mayStop else IsCompound(t) ==> Offset(g.nodes[e]) == 0
  }

  /** Whatever is entered below `t` and covers a byte between `lo` and `hi` is harmless. */
  predicate IsCalm(g: Graph, t: Option<Id>, lo: nat, hi: nat, vis: set<Id>, mayStop: bool)
    requires g.TypeOk(t)
    decreases Unvisited(g, vis), Rank(g, t), 1, 0
  {
    t.Some? ==>
      var n := g.nodes[t.value];
      if n.Derived? then IsCalm(g, Follow(g, t.value), lo, hi, vis, mayStop)
      else
        n.Composite? && t.value !in vis ==>
          if IsArray(n) then IsCalm(g, Follow(g, t.value), lo, hi, vis, mayStop)
          else AreCalm(g, t.value, |n.elements|, lo, hi, vis, mayStop)
  }

  predicate AreCalm(g: Graph, c: Id, n: nat, lo: nat, hi: nat, vis: set<Id>, mayStop: bool)
    requires IsRange(g, c, 0, n, vis)
    decreases Unvisited(g, vis), Rank(g, Some(c)), 0, n
  {
    n == 0 ||
    (AreCalm(g, c, n - 1, lo, hi, vis, mayStop) &&
     var e := Element(g, c, n - 1);
     g.nodes[e].Derived? ==>
       (Offset(g.nodes[e]) + Size(g.nodes[e]) <= lo || hi <= Offset(g.nodes[e]) || IsHarmless(g, e, mayStop)) &&
       (UnvisitedShrinks(g, vis, c);
        IsCalm(g, ElementType(g, e), lo, hi, vis + {c}, mayStop)))
  }

  /** The rest is kept, and the search ends only where that is allowed. */
  predicate IsKept(w: Left, r: Left, mayStop: bool) {
    r.rest == w.rest && (!mayStop ==> r.ended == w.ended)
  }

  lemma {:induction false} CalmTypeKeepsRest(g: Graph, t: Option<Id>, lo: nat, hi: nat, vis: set<Id>, mayStop: bool,
                                             w: Left)
    requires g.TypeOk(t) && lo <= w.rest < hi && IsCalm(g, t, lo, hi, vis, mayStop)
    ensures IsKept(w, LeftByType(g, t, vis, w), mayStop)
    decreases Unvisited(g, vis), Rank(g, t), 1, 0
  {
    if t.Some? {
      var n := g.nodes[t.value];
      if n.Derived? || (IsArray(n) && t.value !in vis) {
        CalmTypeKeepsRest(g, Follow(g, t.value), lo, hi, vis, mayStop, w);
      } else if n.Composite? && t.value !in vis {
        CalmElementsKeepRest(g, t.value, |n.elements|, lo, hi, vis, mayStop, w);
      }
    }
  }

  lemma {:induction false} CalmElementsKeepRest(g: Graph, c: Id, n: nat, lo: nat, hi: nat, vis: set<Id>, mayStop: bool,
                                                w: Left)
    requires IsRange(g, c, 0, n, vis) && lo <= w.rest < hi && AreCalm(g, c, n, lo, hi, vis, mayStop)
    ensures IsKept(w, LeftBy(g, c, n, vis, w), mayStop)
    decreases Unvisited(g, vis), Rank(g, Some(c)), 0, n
  {
    if n > 0 {
      CalmElementsKeepRest(g, c, n - 1, lo, hi, vis, mayStop, w);
      var prev := LeftBy(g, c, n - 1, vis, w);
      var e := Element(g, c, n - 1);
      if g.nodes[e].Derived? {
        UnvisitedShrinks(g, vis, c);
        CalmTypeKeepsRest(g, ElementType(g, e), lo, hi, vis + {c}, mayStop, AfterVisit(g, e, prev));
      }
    }
  }

  /** A larger range of bytes asks for more, and so does a search that must not end. */
  lemma {:induction false} CalmWithin(g: Graph, t: Option<Id>, lo: nat, hi: nat, lo': nat, hi': nat, vis: set<Id>,
                                      mayStop: bool, mayStop': bool)
    requires g.TypeOk(t) && IsCalm(g, t, lo, hi, vis, mayStop) && lo <= lo' && hi' <= hi && (mayStop ==> mayStop')
    ensures IsCalm(g, t, lo', hi', vis, mayStop')
    decreases Unvisited(g, vis), Rank(g, t), 1, 0
  {
    if t.Some? {
      var n := g.nodes[t.value];
      if n.Derived? || (IsArray(n) && t.value !in vis) {
        CalmWithin(g, Follow(g, t.value), lo, hi, lo', hi', vis, mayStop, mayStop');
      } else if n.Composite? && t.value !in vis {
        AreCalmWithin(g, t.value, |n.elements|, lo, hi, lo', hi', vis, mayStop, mayStop');
      }
    }
  }

  lemma {:induction false} AreCalmWithin(g: Graph, c: Id, n: nat, lo: nat, hi: nat, lo': nat, hi': nat, vis: set<Id>,
                                         mayStop: bool, mayStop': bool)
    requires IsRange(g, c, 0, n, vis) && AreCalm(g, c, n, lo, hi, vis, mayStop)
    requires lo <= lo' && hi' <= hi && (mayStop ==> mayStop')
    ensures AreCalm(g, c, n, lo', hi', vis, mayStop')
    decreases Unvisited(g, vis), Rank(g, Some(c)), 0, n
  {
    if n > 0 {
      AreCalmWithin(g, c, n - 1, lo, hi, lo', hi', vis, mayStop, mayStop');
      var e := Element(g, c, n - 1);
      if g.nodes[e].Derived? {
        UnvisitedShrinks(g, vis, c);
        CalmWithin(g, ElementType(g, e), lo, hi, lo', hi', vis + {c}, mayStop, mayStop');
      }
    }
  }
}
