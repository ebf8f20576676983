/** Array shapes recovered from stores of Fortran descriptors: reset_shape_qualifier of lib/type/SourceLocType.cpp. */
module Shapes {
  import opened TypeTree

  /** One dimension, and its position; a negative index is an unknown position. */
  datatype IndexDim = IndexDim(index: int, dim: int)

  /** The comparator. */
  predicate Before(lhs: IndexDim, rhs: IndexDim) {
    if lhs.index < 0 && rhs.index < 0 then false
    else if lhs.index < 0 then false
    else if rhs.index < 0 then true
    else lhs.index < rhs.index
  }

  predicate Tied(a: IndexDim, b: IndexDim) { !Before(a, b) && !Before(b, a) }

  /** What a stable sort needs of its comparator: a strict order in which ties are an equivalence. */
  lemma ComparatorIsStrictWeakOrder(a: IndexDim, b: IndexDim, c: IndexDim)
    ensures !Before(a, a)
    ensures Before(a, b) && Before(b, c) ==> Before(a, c)
    ensures Tied(a, b) && Tied(b, c) ==> Tied(a, c)
  {
  }

  // ---- Stable sorting -----------------------------------------------------------------------------------------

  predicate IsSorted(s: seq<IndexDim>) {
    forall i, j :: 0 <= i < j < |s| ==> !Before(s[j], s[i])
  }

  /** The elements of `s` tied with `x`, in their order. */
  function Ties(s: seq<IndexDim>, x: IndexDim): seq<IndexDim> {
    if s == [] then [] else (if Tied(s[0], x) then [s[0]] else []) + Ties(s[1..], x)
  }

  /** `r` is a stable sort of `s`: sorted, and every class of ties is kept as it was. */
  ghost predicate IsStableSort(s: seq<IndexDim>, r: seq<IndexDim>) {
    IsSorted(r) && forall x :: Ties(r, x) == Ties(s, x)
  }

  /** Insertion from the front, before the first element that is not smaller. */
  function Insert(x: IndexDim, s: seq<IndexDim>): seq<IndexDim> {
    if s == [] || !Before(s[0], x) then [x] + s else [s[0]] + Insert(x, s[1..])
  }

  function StableSort(s: seq<IndexDim>): seq<IndexDim> {
    if s == [] then [] else Insert(s[0], StableSort(s[1..]))
  }

  lemma {:induction false} InsertPermutes(x: IndexDim, s: seq<IndexDim>)
    ensures multiset(Insert(x, s)) == multiset(s) + multiset{x}
  {
    if s != [] && Before(s[0], x) {
      InsertPermutes(x, s[1..]);
      assert s == [s[0]] + s[1..];
    }
  }

  lemma {:induction false} InsertSorts(x: IndexDim, s: seq<IndexDim>)
    requires IsSorted(s)
    ensures IsSorted(Insert(x, s))
  {
    if s != [] && Before(s[0], x) {
      InsertSorts(x, s[1..]);
      var r := Insert(x, s[1..]);
      InsertPermutes(x, s[1..]);
      forall i | 0 <= i < |r| ensures !Before(r[i], s[0]) {
        assert r[i] in multiset(r);
        assert r[i] == x || r[i] in s[1..];
      }
    }
  }

  lemma {:induction false} InsertKeepsTies(x: IndexDim, s: seq<IndexDim>, y: IndexDim)
    ensures Ties(Insert(x, s), y) == (if Tied(x, y) then [x] else []) + Ties(s, y)
  {
    if s != [] && Before(s[0], x) {
      InsertKeepsTies(x, s[1..], y);
      assert Insert(x, s)[1..] == Insert(x, s[1..]);
    } else {
      assert ([x] + s)[1..] == s;
    }
  }

  /** The sort is stable and only permutes. */
  lemma {:induction false} StableSortIsStable(s: seq<IndexDim>)
    ensures IsStableSort(s, StableSort(s)) && multiset(StableSort(s)) == multiset(s)
  {
    if s != [] {
      StableSortIsStable(s[1..]);
      var r := StableSort(s[1..]);
      InsertPermutes(s[0], r);
      InsertSorts(s[0], r);
      forall x ensures Ties(StableSort(s), x) == Ties(s, x) {
        InsertKeepsTies(s[0], r, x);
      }
      assert s == [s[0]] + s[1..];
    }
  }

  lemma {:induction false} TiesHave(s: seq<IndexDim>, x: IndexDim, e: IndexDim)
    ensures e in Ties(s, x) <==> e in s && Tied(e, x)
  {
    if s != [] {
      TiesHave(s[1..], x, e);
    }
  }

  /** Any stable sort with this comparator gives the same list. */
  lemma {:induction false} StableSortIsUnique(s: seq<IndexDim>, r: seq<IndexDim>, q: seq<IndexDim>)
    requires IsStableSort(s, r) && IsStableSort(s, q)
    ensures r == q
    decreases |r|
  {
    forall x ensures Ties(r, x) == Ties(q, x) {
      assert Ties(r, x) == Ties(s, x);
    }
    SortedWithSameTies(r, q);
  }

  lemma {:induction false} SortedWithSameTies(r: seq<IndexDim>, q: seq<IndexDim>)
    requires IsSorted(r) && IsSorted(q) && forall x :: Ties(r, x) == Ties(q, x)
    ensures r == q
    decreases |r|
  {
    if r == [] {
      if q != [] {
        TiesHave(q, q[0], q[0]);
        TiesHave(r, q[0], q[0]);
      }
    } else {
      TiesHave(r, r[0], r[0]);
      TiesHave(q, r[0], r[0]);
      TiesHave(q, q[0], q[0]);
      TiesHave(r, q[0], q[0]);
      assert Tied(r[0], q[0]);
      assert Ties(r, r[0])[0] == r[0] && Ties(q, r[0])[0] == q[0];
      forall x ensures Ties(r[1..], x) == Ties(q[1..], x) {
        var first := if Tied(r[0], x) then [r[0]] else [];
        assert Ties(r, x) == first + Ties(r[1..], x) && Ties(q, x) == first + Ties(q[1..], x);
        assert (first + Ties(r[1..], x))[|first|..] == Ties(r[1..], x);
        assert (first + Ties(q[1..], x))[|first|..] == Ties(q[1..], x);
      }
      SortedWithSameTies(r[1..], q[1..]);
    }
  }

  // ---- The order of the dimensions ----------------------------------------------------------------------------

  const UNPLACED := IndexDim(-1, 0)

  predicate AreAscending(s: seq<IndexDim>) {
    (forall i :: 0 <= i < |s| ==> s[i].index >= 0) && forall i, j :: 0 <= i < j < |s| ==> s[i].index <= s[j].index
  }

  /** The dimensions of known position come first and ascend; those of unknown position follow in input order. */
  lemma {:induction false} UnplacedComeLast(s: seq<IndexDim>, r: seq<IndexDim>)
    requires IsStableSort(s, r)
    ensures var unplaced := Ties(s, UNPLACED);
            var k := |r| - |unplaced|;
            (forall e :: e in unplaced <==> e in s && e.index < 0) && k >= 0 && AreAscending(r[..k]) &&
            r[k..] == unplaced
  {
    forall e ensures e in Ties(s, UNPLACED) <==> e in s && e.index < 0 {
      TiesHave(s, UNPLACED, e);
    }
    assert Ties(r, UNPLACED) == Ties(s, UNPLACED);
    SortedEndsUnplaced(r);
  }

  lemma {:induction false} SortedEndsUnplaced(r: seq<IndexDim>)
    requires IsSorted(r)
    ensures var k := |r| - |Ties(r, UNPLACED)|; k >= 0 && AreAscending(r[..k]) && r[k..] == Ties(r, UNPLACED)
  {
    if r != [] {
      SortedEndsUnplaced(r[1..]);
      if r[0].index < 0 {
        FirstIsUnplaced(r);
      } else {
        FirstIsPlaced(r);
        FirstIsLeast(r);
        hide IsSorted, Ties;
        PlacedInFront(r, |r[1..]| - |Ties(r[1..], UNPLACED)|);
      }
    }
  }

  /** A first element of known position extends the ascending part. */
  lemma {:induction false} PlacedInFront(r: seq<IndexDim>, k: nat)
    requires r != [] && r[0].index >= 0 && k <= |r[1..]| && AreAscending(r[1..][..k])
    requires forall i :: 0 < i < |r| && r[i].index >= 0 ==> r[0].index <= r[i].index
    ensures AreAscending(r[..k + 1]) && r[k + 1..] == r[1..][k..]
  {
    assert r[..k + 1] == [r[0]] + r[1..][..k];
  }

  /** Behind a first element of unknown position all are unknown. */
  lemma {:induction false} FirstIsUnplaced(r: seq<IndexDim>)
    requires r != [] && IsSorted(r) && r[0].index < 0
    ensures Ties(r, UNPLACED) == r
    decreases |r|
  {
    if |r| > 1 {
      assert !Before(r[1], r[0]);
      FirstIsUnplaced(r[1..]);
    }
  }

  lemma FirstIsPlaced(r: seq<IndexDim>)
    requires r != [] && r[0].index >= 0
    ensures Ties(r, UNPLACED) == Ties(r[1..], UNPLACED)
  {
  }

  lemma FirstIsLeast(r: seq<IndexDim>)
    requires r != [] && IsSorted(r) && r[0].index >= 0
    ensures forall i :: 0 < i < |r| && r[i].index >= 0 ==> r[0].index <= r[i].index
  {
    assert forall i :: 0 < i < |r| ==> !Before(r[i], r[0]);
  }

  // ---- The replaced array sizes -------------------------------------------------------------------------------

  const WORD := 0x1_0000_0000_0000_0000

  /** Sizes are unsigned 64-bit numbers, dimensions signed ones. */
  function ArraySizeOf(d: IndexDim): nat { d.dim % WORD }

  function ArraySizesOf(s: seq<IndexDim>): (r: seq<nat>)
    ensures |r| == |s| && forall i :: 0 <= i < |r| ==> r[i] == ArraySizeOf(s[i])
  {
    if s == [] then [] else ArraySizesOf(s[..|s| - 1]) + [ArraySizeOf(s[|s| - 1])]
  }

  /** The sizes are the dimensions in their stable order, as unsigned 64-bit numbers. */
  ghost predicate AreSizesOf(sizes: seq<nat>, shapes: seq<IndexDim>) {
    forall ordered: seq<IndexDim> :: IsStableSort(shapes, ordered) ==>
                        |sizes| == |ordered| && forall i :: 0 <= i < |sizes| ==> IsSizeOf(sizes[i], ordered[i].dim)
  }

  predicate IsSizeOf(size: nat, dim: int) {
    size < 0x1_0000_0000_0000_0000 && (0 <= dim < 0x1_0000_0000_0000_0000 ==> size == dim) &&
    (-0x8000_0000_0000_0000 <= dim < 0 ==> size == dim + 0x1_0000_0000_0000_0000)
  }

  lemma {:induction false} SortedSizesAre(shapes: seq<IndexDim>)
    ensures AreSizesOf(ArraySizesOf(StableSort(shapes)), shapes)
  {
    var ordered := StableSort(shapes);
    StableSortIsStable(shapes);
    hide IsStableSort, StableSort;
    forall other | IsStableSort(shapes, other) ensures other == ordered {
      StableSortIsUnique(shapes, other, ordered);
    }
    hide ArraySizesOf;
  }

  method ResetShapeQualifier(qt: QualifiedType, shapes: seq<IndexDim>) returns (r: QualifiedType)
    ensures r == WithInfo(qt, InfoOf(qt).(arraySize := InfoOf(r).arraySize))
    ensures AreSizesOf(InfoOf(r).arraySize, shapes)
  {
    hide AreSizesOf, ArraySizeOf;
    SortedSizesAre(shapes);
    var ordered := StableSort(shapes);
    var sizes: seq<nat> := [];
    for i := 0 to |ordered|
      invariant sizes == ArraySizesOf(ordered[..i])
    {
      assert ordered[..i + 1][..i] == ordered[..i];
      sizes := sizes + [ArraySizeOf(ordered[i])];
    }
    assert ordered[..|ordered|] == ordered;
    r := WithInfo(qt, InfoOf(qt).(arraySize := sizes));
  }
}
