/** In which order the worklist engine matches paths, stated about the log of calls alone: depth first, and of the
    values that one search offers the last one first. */
module DefUseOrder {
  import opened Wrappers
  import opened ValuePath
  import opened DefUse

  // ---- What a log says ----------------------------------------------------------------------------------------

  /** What the search offers after call `k`: nothing unless that match continues. */
  function Offered(c: Client, calls: seq<ValuePath>, k: nat): seq<Value>
    requires k < |calls|
  {
    var found := c.search(calls[..k + 1], calls[k]);
    if c.onMatch(calls[..k], calls[k]) == Continue && c.shouldSearch(calls[..k + 1], calls[k]) && found.Some?
    then found.value
    else []
  }

  /** The value at position `j` is offered by call `k`, and no call up to then has matched it. */
  predicate IsNew(c: Client, calls: seq<ValuePath>, k: nat, j: nat) {
    k < |calls| && j < |Offered(c, calls, k)| && !IsMatched(calls[..k + 1], Offered(c, calls, k)[j])
  }

  /** The path of call `k`, extended by what it offers at position `j`. */
  function Extension(c: Client, calls: seq<ValuePath>, k: nat, j: nat): ValuePath {
    if k < |calls| && j < |Offered(c, calls, k)| then calls[k].Append(Offered(c, calls, k)[j]) else ValuePath([])
  }

  /** That extension has been matched before call `end`. */
  predicate IsTaken(c: Client, calls: seq<ValuePath>, k: nat, j: nat, end: nat) {
    exists m :: k < m < end && m < |calls| && calls[m] == Extension(c, calls, k, j)
  }

  /** Position `j` holds the last new value that call `k` offers. */
  ghost predicate IsLastNew(c: Client, calls: seq<ValuePath>, k: nat, j: nat) {
    IsNew(c, calls, k, j) && forall i: nat :: IsNew(c, calls, k, i) ==> i <= j
  }

  /** After a call that offers new values, the last of them is matched next, as an extension of the same path. */
  ghost predicate GoesDeeper(c: Client, calls: seq<ValuePath>, k: nat) {
    forall j: nat :: IsLastNew(c, calls, k, j) ==> k + 1 < |calls| && calls[k + 1] == Extension(c, calls, k, j)
  }

  /** Call `m` takes up the new value `j` of call `k`, and whatever was offered as new after that has been matched. */
  ghost predicate TakesUp(c: Client, calls: seq<ValuePath>, m: nat, k: nat, j: nat) {
    k < m < |calls| && IsNew(c, calls, k, j) && calls[m] == Extension(c, calls, k, j) &&
    forall i: nat, l: nat :: k <= i < m && IsNew(c, calls, i, l) && (k < i || j < l) ==> IsTaken(c, calls, i, l, m)
  }

  ghost predicate IsResumed(c: Client, calls: seq<ValuePath>, m: nat) {
    exists k: nat, j: nat :: TakesUp(c, calls, m, k, j)
  }

  predicate Cancels(c: Client, calls: seq<ValuePath>, k: nat)
    requires k < |calls|
  {
    c.onMatch(calls[..k], calls[k]) == Cancel
  }

  /** A complete traversal: it starts at `start`, goes on with what was offered last, leaves out nothing that is new
      when it is offered, and only a call that cancels ends it early. */
  ghost predicate IsTraversal(c: Client, start: Value, calls: seq<ValuePath>, cancelled: bool) {
    calls != [] && calls[0] == ValuePath([start]) &&
    (forall k: nat :: k < |calls| ==> GoesDeeper(c, calls, k)) &&
    (forall m: nat :: 0 < m < |calls| ==> IsResumed(c, calls, m)) &&
    (forall k: nat :: k < |calls| ==> (Cancels(c, calls, k) <==> cancelled && k == |calls| - 1)) &&
    (!cancelled ==> forall k: nat, j: nat :: IsNew(c, calls, k, j) ==> IsTaken(c, calls, k, j, |calls|))
  }

  // ---- The stack, read off the log ----------------------------------------------------------------------------

  /** A value that was offered as new: by which call, and at which position. */
  datatype Origin = Origin(call: nat, position: nat)

  predicate IsBefore(a: Origin, b: Origin) { a.call < b.call || (a.call == b.call && a.position < b.position) }

  /** The new values among the first `n` that call `k` offers. */
  function News(c: Client, calls: seq<ValuePath>, k: nat, n: nat): seq<Origin>
    requires k < |calls| && n <= |Offered(c, calls, k)|
  {
    if n == 0 then []
    else News(c, calls, k, n - 1) + (if IsNew(c, calls, k, n - 1) then [Origin(k, n - 1)] else [])
  }

  /** What waits after the first `n` calls; each call but the first has taken the last one. */
  function Waiting(c: Client, calls: seq<ValuePath>, n: nat): seq<Origin>
    requires n <= |calls|
  {
    if n == 0 then []
    else
      var before := Waiting(c, calls, n - 1);
      (if before == [] then [] else before[..|before| - 1]) + News(c, calls, n - 1, |Offered(c, calls, n - 1)|)
  }

  function PathsOf(c: Client, calls: seq<ValuePath>, o: seq<Origin>): (r: seq<ValuePath>)
    ensures |r| == |o|
  {
    seq(|o|, x requires 0 <= x < |o| => Extension(c, calls, o[x].call, o[x].position))
  }

  predicate IsAscending(o: seq<Origin>) { forall x, y :: 0 <= x < y < |o| ==> IsBefore(o[x], o[y]) }

  lemma {:induction false} NewsAscend(c: Client, calls: seq<ValuePath>, k: nat, n: nat)
    requires k < |calls| && n <= |Offered(c, calls, k)|
    ensures IsAscending(News(c, calls, k, n))
    ensures forall x :: x in News(c, calls, k, n) <==> x.call == k && x.position < n && IsNew(c, calls, k, x.position)
    decreases n
  {
    hide IsNew, Offered;
    if n > 0 {
      NewsAscend(c, calls, k, n - 1);
      var o := News(c, calls, k, n - 1);
      forall x | 0 <= x < |o| ensures IsBefore(o[x], Origin(k, n - 1)) {
        assert o[x] in o;
      }
    }
  }

  lemma {:induction false} WaitingAscends(c: Client, calls: seq<ValuePath>, n: nat)
    requires n <= |calls|
    ensures IsAscending(Waiting(c, calls, n))
    ensures forall x :: x in Waiting(c, calls, n) ==> x.call < n && IsNew(c, calls, x.call, x.position)
    decreases n
  {
    hide IsNew, Offered;
    if n > 0 {
      WaitingAscends(c, calls, n - 1);
      NewsAscend(c, calls, n - 1, |Offered(c, calls, n - 1)|);
      hide News;
      var before, news := Waiting(c, calls, n - 1), News(c, calls, n - 1, |Offered(c, calls, n - 1)|);
      forall x, y | 0 <= x < |before| && 0 <= y < |news| ensures IsBefore(before[x], news[y]) {
        assert before[x] in before && news[y] in news;
      }
    }
  }

  /** Later calls do not change what earlier ones offered. */
  lemma {:induction false} OfferedStays(c: Client, calls: seq<ValuePath>, more: ValuePath, k: nat)
    requires k < |calls|
    ensures Offered(c, calls + [more], k) == Offered(c, calls, k)
    ensures forall j: nat :: IsNew(c, calls + [more], k, j) <==> IsNew(c, calls, k, j)
  {
    assert (calls + [more])[..k] == calls[..k] && (calls + [more])[..k + 1] == calls[..k + 1];
  }

  lemma {:induction false} NewsStay(c: Client, calls: seq<ValuePath>, more: ValuePath, k: nat, n: nat)
    requires k < |calls| && n <= |Offered(c, calls, k)|
    ensures n <= |Offered(c, calls + [more], k)| && News(c, calls + [more], k, n) == News(c, calls, k, n)
    decreases n
  {
    OfferedStays(c, calls, more, k);
    if n > 0 {
      NewsStay(c, calls, more, k, n - 1);
    }
  }

  lemma {:induction false} WaitingStays(c: Client, calls: seq<ValuePath>, more: ValuePath, n: nat)
    requires n <= |calls|
    ensures Waiting(c, calls + [more], n) == Waiting(c, calls, n)
    decreases n
  {
    if n > 0 {
      WaitingStays(c, calls, more, n - 1);
      OfferedStays(c, calls, more, n - 1);
      NewsStay(c, calls, more, n - 1, |Offered(c, calls, n - 1)|);
    }
  }

  lemma {:induction false} PathsStay(c: Client, calls: seq<ValuePath>, more: ValuePath, o: seq<Origin>)
    requires forall x :: x in o ==> x.call < |calls|
    ensures PathsOf(c, calls + [more], o) == PathsOf(c, calls, o)
  {
    forall x | 0 <= x < |o| ensures PathsOf(c, calls + [more], o)[x] == PathsOf(c, calls, o)[x] {
      assert o[x] in o;
      OfferedStays(c, calls, more, o[x].call);
    }
  }

  lemma NewIsUnseen(c: Client, calls: seq<ValuePath>, seen: set<Value>, j: nat)
    requires calls != [] && j < |Offered(c, calls, |calls| - 1)|
    requires forall v :: v in seen <==> IsMatched(calls, v)
    ensures var k := |calls| - 1;
            var v := Offered(c, calls, k)[j];
            (IsNew(c, calls, k, j) <==> v !in seen) && Extension(c, calls, k, j) == calls[k].Append(v)
  {
    hide IsMatched, Offered;
    assert calls[..|calls| - 1 + 1] == calls;
  }

  lemma OnePath(c: Client, calls: seq<ValuePath>, x: Origin)
    ensures PathsOf(c, calls, [x]) == [Extension(c, calls, x.call, x.position)]
  {
  }

  /** A step pushes exactly the new values, in the order in which they are offered. */
  lemma {:induction false} PushesNews(c: Client, calls: seq<ValuePath>, seen: set<Value>, work: seq<ValuePath>, n: nat)
    requires calls != [] && n <= |Offered(c, calls, |calls| - 1)|
    requires forall v :: v in seen <==> IsMatched(calls, v)
    ensures var k := |calls| - 1;
            AddToWork(seen, work, Offered(c, calls, k)[..n], calls[k]) == work + PathsOf(c, calls, News(c, calls, k, n))
    decreases n
  {
    var k := |calls| - 1;
    if n > 0 {
      PushesNews(c, calls, seen, work, n - 1);
      var vals := Offered(c, calls, k);
      assert vals[..n][..n - 1] == vals[..n - 1];
      assert calls[..k + 1] == calls;
      NewIsUnseen(c, calls, seen, n - 1);
      hide IsMatched, IsNew, Offered, Extension, PathsOf;
      assert PathsOf(c, calls, [Origin(k, n - 1)]) == [Extension(c, calls, k, n - 1)] by {
        OnePath(c, calls, Origin(k, n - 1));
      }
      PathsAppend(c, calls, News(c, calls, k, n - 1), [Origin(k, n - 1)]);
    }
  }

  /** The stack of a run is what waits according to its log. */
  ghost predicate IsWaiting(c: Client, start: Value, s: State) {
    if s.cancelled then s.work == []
    else if s.calls == [] then s.work == [ValuePath([start])]
    else s.work == PathsOf(c, s.calls, Waiting(c, s.calls, |s.calls|))
  }

  lemma {:induction false} WorkIsWaiting(c: Client, start: Value, n: nat)
    ensures IsWaiting(c, start, Iterate(c, start, n))
  {
    hide PathsOk, Step, PathsOf, Waiting;
    if n == 0 {
      assert AddToWorkS({}, [], ValuePath([start])) == [ValuePath([start])];
    } else {
      WorkIsWaiting(c, start, n - 1);
      var s := Iterate(c, start, n - 1);
      if s.work != [] {
        PathsAreSimpleWalks(c, start, n - 1);
        StepKeepsWaiting(c, start, s);
      }
    }
  }

  lemma TopIsNonempty(c: Client, start: Value, s: State)
    requires PathsOk(c, start, s) && s.work != []
    ensures !Top(s).IsEmpty() && forall v :: v in s.seen <==> IsMatched(s.calls, v)
  {
    hide IsMatched, IsProcessed;
    PendingIsNonempty(c, start, s, Top(s));
  }

  /** A step in terms of the log that it extends. */
  lemma {:induction false} StepOffers(c: Client, start: Value, s: State)
    requires PathsOk(c, start, s) && s.work != []
    ensures var calls := s.calls + [Top(s)];
            var s' := Step(c, s);
            s'.calls == calls && (forall v :: v in s'.seen <==> IsMatched(calls, v)) &&
            s'.cancelled == Cancels(c, calls, |s.calls|) &&
            s'.work == if s'.cancelled then []
                       else AddToWork(s'.seen, s.work[..|s.work| - 1], Offered(c, calls, |s.calls|), Top(s))
  {
    TopIsNonempty(c, start, s);
    hide PathsOk, IsMatched, AddToWork;
    StepMatches(c, s);
    var k, calls := |s.calls|, s.calls + [Top(s)];
    assert calls[..k] == s.calls && calls[..k + 1] == calls;
  }

  lemma {:induction false} StepKeepsWaiting(c: Client, start: Value, s: State)
    requires IsWaiting(c, start, s) && PathsOk(c, start, s) && s.work != []
    ensures IsWaiting(c, start, Step(c, s))
  {
    hide PathsOk, IsMatched, PathsOf, AddToWork, Step, Offered, Cancels, News;
    StepOffers(c, start, s);
    var k, calls := |s.calls|, s.calls + [Top(s)];
    var s' := Step(c, s);
    if !s'.cancelled {
      var vals := Offered(c, calls, k);
      var before := Waiting(c, calls, k);
      assert vals[..|vals|] == vals;
      PushesNews(c, calls, s'.seen, s.work[..|s.work| - 1], |vals|);
      RestStays(c, start, s);
      PathsAppend(c, calls, if before == [] then [] else before[..|before| - 1], News(c, calls, k, |vals|));
    }
  }

  lemma {:induction false} PathsAppend(c: Client, calls: seq<ValuePath>, a: seq<Origin>, b: seq<Origin>)
    ensures PathsOf(c, calls, a + b) == PathsOf(c, calls, a) + PathsOf(c, calls, b)
  {
    hide Extension;
  }

  /** What waits below the top goes on waiting. */
  lemma {:induction false} RestStays(c: Client, start: Value, s: State)
    requires IsWaiting(c, start, s) && s.work != [] && !s.cancelled
    ensures var calls := s.calls + [Top(s)];
            var before := Waiting(c, calls, |s.calls|);
            s.work[..|s.work| - 1] == PathsOf(c, calls, if before == [] then [] else before[..|before| - 1])
  {
    hide IsNew, IsMatched;
    WaitingStays(c, s.calls, Top(s), |s.calls|);
    if s.calls != [] {
      var o := Waiting(c, s.calls, |s.calls|);
      WaitingAscends(c, s.calls, |s.calls|);
      hide Waiting, Extension, IsAscending;
      PathsStay(c, s.calls, Top(s), o);
      assert PathsOf(c, s.calls, o)[..|o| - 1] == PathsOf(c, s.calls + [Top(s)], o[..|o| - 1]);
    }
  }

  // ---- The order of the calls ---------------------------------------------------------------------------------

  /** Each call but the first takes the last that waits. */
  ghost predicate TakesLast(c: Client, calls: seq<ValuePath>, m: nat)
    requires m < |calls|
  {
    var o := Waiting(c, calls, m);
    o != [] && calls[m] == Extension(c, calls, o[|o| - 1].call, o[|o| - 1].position)
  }

  lemma {:induction false} CallsTakeLast(c: Client, start: Value, n: nat)
    ensures var calls := Iterate(c, start, n).calls;
            (calls != [] ==> calls[0] == ValuePath([start])) && forall m :: 0 < m < |calls| ==> TakesLast(c, calls, m)
  {
    hide PathsOk, Step, IsMatched, Offered, Cancels, Extension, TakesLast, AddToWork, Waiting;
    if n > 0 {
      CallsTakeLast(c, start, n - 1);
      var s := Iterate(c, start, n - 1);
      if s.work != [] {
        PathsAreSimpleWalks(c, start, n - 1);
        WorkIsWaiting(c, start, n - 1);
        StepOffers(c, start, s);
        var calls := s.calls + [Top(s)];
        forall m | 0 < m < |calls| ensures TakesLast(c, calls, m) {
          LastStays(c, s.calls, Top(s), m);
        }
      }
    }
  }

  lemma {:induction false} LastStays(c: Client, calls: seq<ValuePath>, more: ValuePath, m: nat)
    requires 0 < m <= |calls|
    requires m < |calls| ==> TakesLast(c, calls, m)
    requires m == |calls| ==>
               var o := Waiting(c, calls, m);
               o != [] && more == Extension(c, calls, o[|o| - 1].call, o[|o| - 1].position)
    ensures TakesLast(c, calls + [more], m)
  {
    hide IsNew;
    WaitingStays(c, calls, more, m);
    WaitingAscends(c, calls, m);
    var o := Waiting(c, calls, m);
    hide Waiting, IsAscending;
    assert o[|o| - 1] in o;
    OfferedStays(c, calls, more, o[|o| - 1].call);
  }

  /** What was offered as new waits, or has been taken since. */
  lemma {:induction false} NewWaitsOrIsTaken(c: Client, calls: seq<ValuePath>, n: nat, x: Origin)
    requires n <= |calls| && x.call < n && IsNew(c, calls, x.call, x.position)
    requires forall m :: 0 < m < |calls| ==> TakesLast(c, calls, m)
    ensures x in Waiting(c, calls, n) || IsTaken(c, calls, x.call, x.position, n)
    decreases n
  {
    hide IsNew, Extension, Offered;
    if x.call < n - 1 {
      NewWaitsOrIsTaken(c, calls, n - 1, x);
      var o := Waiting(c, calls, n - 1);
      if x in o {
        assert TakesLast(c, calls, n - 1) && o == o[..|o| - 1] + [o[|o| - 1]];
      }
    } else {
      NewIsPushed(c, calls, n - 1, x.position);
    }
  }

  lemma {:induction false} NewIsPushed(c: Client, calls: seq<ValuePath>, k: nat, j: nat)
    requires IsNew(c, calls, k, j)
    ensures Origin(k, j) in Waiting(c, calls, k + 1)
  {
    NewsAscend(c, calls, k, |Offered(c, calls, k)|);
    assert Origin(k, j) in News(c, calls, k, |Offered(c, calls, k)|);
    hide IsNew, News, Offered;
  }

  /** The next call takes up what was offered last. */
  lemma {:induction false} CallTakesUp(c: Client, calls: seq<ValuePath>, m: nat)
    requires 0 < m < |calls| && forall i :: 0 < i < |calls| ==> TakesLast(c, calls, i)
    ensures var o := Waiting(c, calls, m); o != [] && TakesUp(c, calls, m, o[|o| - 1].call, o[|o| - 1].position)
  {
    hide Extension, Offered, IsMatched;
    var o := Waiting(c, calls, m);
    assert TakesLast(c, calls, m);
    WaitingAscends(c, calls, m);
    hide Waiting, IsNew;
    var last := o[|o| - 1];
    assert last in o;
    forall x | x in o ensures x == last || IsBefore(x, last) {
      var i :| 0 <= i < |o| && o[i] == x;
    }
    forall i: nat, l: nat | last.call <= i < m && IsNew(c, calls, i, l) && (last.call < i || last.position < l)
      ensures IsTaken(c, calls, i, l, m)
    {
      NewWaitsOrIsTaken(c, calls, m, Origin(i, l));
    }
  }

  /** With something new, it is the last new value of the call before. */
  lemma {:induction false} CallGoesDeeper(c: Client, calls: seq<ValuePath>, k: nat, j: nat)
    requires k + 1 < |calls| && TakesLast(c, calls, k + 1) && IsLastNew(c, calls, k, j)
    ensures calls[k + 1] == Extension(c, calls, k, j)
  {
    hide Extension, Offered, IsMatched;
    var o := Waiting(c, calls, k + 1);
    NewIsPushed(c, calls, k, j);
    WaitingAscends(c, calls, k + 1);
    hide Waiting, IsNew;
    var last := o[|o| - 1];
    assert last in o;
    forall x | x in o ensures x == last || IsBefore(x, last) {
      var i :| 0 <= i < |o| && o[i] == x;
    }
  }

  /** Only the last call of a cancelled run cancels. */
  lemma {:induction false} LastCallCancels(c: Client, start: Value, n: nat)
    ensures var s := Iterate(c, start, n);
            (s.cancelled ==> s.calls != []) &&
            forall k: nat :: k < |s.calls| ==> (Cancels(c, s.calls, k) <==> s.cancelled && k == |s.calls| - 1)
  {
    hide PathsOk, Step, IsMatched, Offered, AddToWork;
    if n > 0 {
      LastCallCancels(c, start, n - 1);
      var s := Iterate(c, start, n - 1);
      if s.work != [] {
        PathsAreSimpleWalks(c, start, n - 1);
        WorkIsWaiting(c, start, n - 1);
        StepOffers(c, start, s);
        var calls := s.calls + [Top(s)];
        forall k: nat | k < |s.calls| ensures Cancels(c, calls, k) <==> Cancels(c, s.calls, k) {
          assert calls[..k] == s.calls[..k];
        }
      }
    }
  }

  /** Every finished run is such a traversal, for any client. */
  lemma {:induction false} RunIsTraversal(c: Client, start: Value, n: nat)
    requires Iterate(c, start, n).work == []
    ensures IsTraversal(c, start, Iterate(c, start, n).calls, Iterate(c, start, n).cancelled)
  {
    hide Iterate, PathsOf, Waiting, Extension, Cancels, IsTaken, IsMatched, TakesLast, TakesUp, GoesDeeper, IsNew;
    var s := Iterate(c, start, n);
    var calls := s.calls;
    WorkIsWaiting(c, start, n);
    LastCallCancels(c, start, n);
    CallsTakeLast(c, start, n);
    forall m: nat | 0 < m < |calls| ensures IsResumed(c, calls, m) {
      CallTakesUp(c, calls, m);
    }
    forall k: nat | k < |calls| ensures GoesDeeper(c, calls, k) {
      EndIsDeepest(c, calls, s.cancelled, k);
    }
    forall k: nat, j: nat | !s.cancelled && IsNew(c, calls, k, j) ensures IsTaken(c, calls, k, j, |calls|) {
      NewIsOffered(c, calls, k, j);
      NewWaitsOrIsTaken(c, calls, |calls|, Origin(k, j));
    }
  }

  lemma NewIsOffered(c: Client, calls: seq<ValuePath>, k: nat, j: nat)
    requires IsNew(c, calls, k, j)
    ensures k < |calls| && !Cancels(c, calls, k)
  {
  }

  lemma {:induction false} EndIsDeepest(c: Client, calls: seq<ValuePath>, cancelled: bool, k: nat)
    requires k < |calls| && (k + 1 < |calls| ==> TakesLast(c, calls, k + 1))
    requires if cancelled then Cancels(c, calls, |calls| - 1) else Waiting(c, calls, |calls|) == []
    ensures GoesDeeper(c, calls, k)
  {
    hide Waiting, Cancels, TakesLast, IsNew;
    forall j: nat | IsLastNew(c, calls, k, j)
      ensures k + 1 < |calls| && calls[k + 1] == Extension(c, calls, k, j)
    {
      NewIsOffered(c, calls, k, j);
      NewIsPushed(c, calls, k, j);
      if k + 1 < |calls| {
        CallGoesDeeper(c, calls, k, j);
      }
    }
  }
}
