/** Clients whose verdict and search depend only on the value that a path ends in: the engine matches exactly the
    reachable values, and a second pop of a value pushes nothing. */
module DefUseReach {
  import opened Wrappers
  import opened ValuePath
  import opened DefUse

  /** Verdict and successors as functions of the value. */
  datatype Graph = Graph(verdict: Value -> MatchResult, next: Value -> seq<Value>)
  {
    /** Where the search goes on from `v`. */
    function Succ(v: Value): seq<Value> { if verdict(v) == Continue then next(v) else [] }
  }

  /** On the paths that can arise, the client behaves like `g`; for any history. */
  ghost predicate Follows(c: Client, start: Value, g: Graph) {
    forall h, p :: IsWalk(start, p) ==>
                     c.onMatch(h, p) == g.verdict(p.LastValue().value) &&
                     Candidates(c, h, p) == g.Succ(p.LastValue().value)
  }

  /** `v` is reached from `start` in `k` steps through values on which the match continues. */
  ghost predicate ReachedIn(g: Graph, start: Value, v: Value, k: nat)
    decreases k
  {
    if k == 0 then v == start
    else exists u :: ReachedIn(g, start, u, k - 1) && v in g.Succ(u)
  }

  ghost predicate Reached(g: Graph, start: Value, v: Value) { exists k: nat :: ReachedIn(g, start, v, k) }

  lemma {:induction false} ReachedStep(g: Graph, start: Value, u: Value, v: Value)
    requires Reached(g, start, u) && v in g.Succ(u)
    ensures Reached(g, start, v)
  {
    var k: nat :| ReachedIn(g, start, u, k);
    assert ReachedIn(g, start, v, k + 1);
  }

  /** Some path above position `j` of the stack ends in `w`. */
  predicate IsAbove(work: seq<ValuePath>, j: int, w: Value) {
    exists i :: 0 <= i < |work| && j < i && work[i].LastValue() == Some(w)
  }

  /** Successors of a seen value are seen or wait on the stack ... */
  ghost predicate IsCovered(g: Graph, s: State) {
    forall v, w :: v in s.seen && w in g.Succ(v) ==> w in s.seen || IsAbove(s.work, -1, w)
  }

  /** ... above every remaining copy of that value. */
  ghost predicate IsLifo(g: Graph, s: State) {
    forall j, w :: 0 <= j < |s.work| ==> IsCoveredAt(g, s, j, w)
  }

  predicate IsCoveredAt(g: Graph, s: State, j: int, w: Value)
    requires 0 <= j < |s.work|
  {
    !s.work[j].IsEmpty() && s.work[j].LastValue().value in s.seen && w in g.Succ(s.work[j].LastValue().value) ==>
      w in s.seen || IsAbove(s.work, j, w)
  }

  ghost predicate OnlyReached(g: Graph, start: Value, s: State) {
    (forall p :: p in s.work ==> !p.IsEmpty() && Reached(g, start, p.LastValue().value)) &&
    (forall v :: v in s.seen ==> Reached(g, start, v))
  }

  /** The run is over as soon as a value cancels. */
  ghost predicate CancelOk(g: Graph, s: State) {
    if s.cancelled then s.work == [] && exists v :: v in s.seen && g.verdict(v) == Cancel
    else forall v :: v in s.seen ==> g.verdict(v) != Cancel
  }

  ghost predicate ReachInv(c: Client, g: Graph, start: Value, s: State) {
    PathsOk(c, start, s) && OnlyReached(g, start, s) && CancelOk(g, s) &&
    (s.cancelled || ((start in s.seen || IsAbove(s.work, -1, start)) && IsCovered(g, s) && IsLifo(g, s)))
  }

  /** The step taken at a path of such a client. */
  lemma {:induction false} StepOfFollower(c: Client, g: Graph, start: Value, s: State)
    requires Follows(c, start, g) && PathsOk(c, start, s) && s.work != []
    ensures !Top(s).IsEmpty()
    ensures var v := Top(s).LastValue().value;
            var seen := s.seen + {v};
            var rest := s.work[..|s.work| - 1];
            Step(c, s) ==
            if g.verdict(v) == Cancel then State([], seen, s.calls + [Top(s)], true)
            else State(AddToWork(seen, rest, g.Succ(v), Top(s)), seen, s.calls + [Top(s)], false)
  {
    hide IsJustified;
    assert IsPending(c, start, s, Top(s));
    PendingIsNonempty(c, start, s, Top(s));
    assert IsWalk(start, Top(s));
  }

  lemma {:induction false} StaysAbove(s: State, s': State, j: int, w: Value)
    requires s.work != [] && s.work[..|s.work| - 1] <= s'.work && !Top(s).IsEmpty()
    requires Top(s).LastValue().value in s'.seen
    requires IsAbove(s.work, j, w)
    ensures w in s'.seen || IsAbove(s'.work, j, w)
  {
    var i :| 0 <= i < |s.work| && j < i && s.work[i].LastValue() == Some(w);
    if i < |s.work| - 1 {
      assert s'.work[i] == s.work[..|s.work| - 1][i];
      assert s'.work[i].LastValue() == Some(w);
    }
  }

  lemma {:induction false} PushedAbove(seen: set<Value>, rest: seq<ValuePath>, vals: seq<Value>, user: ValuePath,
                                       j: int, w: Value)
    requires w in vals && w !in seen && j < |rest|
    ensures IsAbove(AddToWork(seen, rest, vals, user), j, w)
  {
    UnseenArePushed(seen, rest, vals, user);
    var r := AddToWork(seen, rest, vals, user);
    var i :| |rest| <= i < |r| && r[i] == user.Append(w);
    assert r[i].LastValue() == Some(w);
  }

  lemma {:induction false} StepKeepsLifo(c: Client, g: Graph, start: Value, s: State)
    requires Follows(c, start, g) && PathsOk(c, start, s) && s.work != []
    requires IsLifo(g, s) && !Step(c, s).cancelled
    ensures IsLifo(g, Step(c, s))
  {
    hide Follows, PathsOk, Step, Candidates;
    StepOfFollower(c, g, start, s);
    var user := Top(s);
    var v := user.LastValue().value;
    var rest := s.work[..|s.work| - 1];
    var s' := Step(c, s);
    PushedExtend(s'.seen, rest, g.Succ(v), user);
    PushedIsUnseen(s'.seen, rest, g.Succ(v), user);
    forall j, w | 0 <= j < |s'.work|
      ensures IsCoveredAt(g, s', j, w)
    {
      if j < |rest| {
        assert s'.work[j] == s.work[j] && IsCoveredAt(g, s, j, w);
        if IsAbove(s.work, j, w) {
          StaysAbove(s, s', j, w);
        }
        if w in g.Succ(v) && w !in s'.seen {
          PushedAbove(s'.seen, rest, g.Succ(v), user, j, w);
        }
      }
    }
  }

  lemma {:induction false} StepKeepsCover(c: Client, g: Graph, start: Value, s: State)
    requires Follows(c, start, g) && PathsOk(c, start, s) && s.work != []
    requires IsCovered(g, s) && !Step(c, s).cancelled
    requires start in s.seen || IsAbove(s.work, -1, start)
    ensures IsCovered(g, Step(c, s)) && (start in Step(c, s).seen || IsAbove(Step(c, s).work, -1, start))
  {
    hide Follows, PathsOk, Step, Candidates;
    StepOfFollower(c, g, start, s);
    var user := Top(s);
    var v := user.LastValue().value;
    var rest := s.work[..|s.work| - 1];
    var s' := Step(c, s);
    PushedExtend(s'.seen, rest, g.Succ(v), user);
    if start !in s.seen {
      StaysAbove(s, s', -1, start);
    }
    forall u, w | u in s'.seen && w in g.Succ(u)
      ensures w in s'.seen || IsAbove(s'.work, -1, w)
    {
      if u in s.seen && w !in s.seen {
        StaysAbove(s, s', -1, w);
      }
      if u == v && w !in s'.seen {
        PushedAbove(s'.seen, rest, g.Succ(v), user, -1, w);
      }
    }
  }

  lemma {:induction false} StepKeepsReached(c: Client, g: Graph, start: Value, s: State)
    requires Follows(c, start, g) && PathsOk(c, start, s) && s.work != []
    requires OnlyReached(g, start, s)
    ensures OnlyReached(g, start, Step(c, s))
  {
    hide Follows, PathsOk, Step, Candidates, Reached;
    StepOfFollower(c, g, start, s);
    var user := Top(s);
    assert user in s.work;
    var v := user.LastValue().value;
    var rest := s.work[..|s.work| - 1];
    forall x | x in g.Succ(v) {
      ReachedStep(g, start, v, x);
    }
    AddToWorkReached(g, start, Step(c, s).seen, rest, g.Succ(v), user);
  }

  lemma {:induction false} AddToWorkReached(g: Graph, start: Value, seen: set<Value>, work: seq<ValuePath>,
                                            vals: seq<Value>, user: ValuePath)
    requires forall p :: p in work ==> !p.IsEmpty() && Reached(g, start, p.LastValue().value)
    requires forall x :: x in vals ==> Reached(g, start, x)
    ensures forall p :: p in AddToWork(seen, work, vals, user) ==>
                          !p.IsEmpty() && Reached(g, start, p.LastValue().value)
    decreases |vals|
  {
    hide Reached;
    if vals != [] {
      AddToWorkReached(g, start, seen, work, vals[..|vals| - 1], user);
    }
  }

  lemma {:induction false} ReachInvHolds(c: Client, g: Graph, start: Value, n: nat)
    requires Follows(c, start, g)
    ensures ReachInv(c, g, start, Iterate(c, start, n))
  {
    hide Follows, PathsOk, Step, Candidates, IsLifo, IsCovered, OnlyReached;
    if n == 0 {
      InitialReachInv(c, g, start);
    } else {
      ReachInvHolds(c, g, start, n - 1);
      var s := Iterate(c, start, n - 1);
      if s.work != [] {
        StepKeepsPaths(c, start, s);
        StepKeepsReached(c, g, start, s);
        StepOfFollower(c, g, start, s);
        if !Step(c, s).cancelled {
          StepKeepsLifo(c, g, start, s);
          StepKeepsCover(c, g, start, s);
        } else {
          assert Top(s).LastValue().value in Step(c, s).seen;
        }
      }
    }
  }

  lemma {:induction false} InitialReachInv(c: Client, g: Graph, start: Value)
    ensures ReachInv(c, g, start, Initial(start))
  {
    var p := ValuePath([start]);
    assert Initial(start) == State([p], {}, [], false);
    PathsAreSimpleWalks(c, start, 0);
    assert ReachedIn(g, start, start, 0);
    assert [p][0].LastValue() == Some(start);
  }

  // ---- What the engine matches --------------------------------------------------------------------------------

  /** For every client whose verdict depends on the value only: once a run is over, it was cancelled if and only if some
      value reachable through continuing values cancels; otherwise the matched values are exactly the reachable ones. */
  lemma {:induction false} MatchesExactlyReached(c: Client, g: Graph, start: Value, n: nat)
    requires Follows(c, start, g) && Iterate(c, start, n).work == []
    ensures var s := Iterate(c, start, n);
            (s.cancelled <==> exists v :: Reached(g, start, v) && g.verdict(v) == Cancel) &&
            (forall v :: IsMatched(s.calls, v) ==> Reached(g, start, v)) &&
            (!s.cancelled ==> forall v :: Reached(g, start, v) ==> IsMatched(s.calls, v))
  {
    hide Reached;
    ReachInvHolds(c, g, start, n);
    var s := Iterate(c, start, n);
    if !s.cancelled {
      forall v | Reached(g, start, v)
        ensures v in s.seen
      {
        ReachedIsSeen(g, start, s, v);
      }
    }
  }

  lemma {:induction false} ReachedIsSeen(g: Graph, start: Value, s: State, v: Value)
    requires s.work == [] && IsCovered(g, s) && start in s.seen && Reached(g, start, v)
    ensures v in s.seen
  {
    var k: nat :| ReachedIn(g, start, v, k);
    ReachedInIsSeen(g, start, s, v, k);
  }

  lemma {:induction false} ReachedInIsSeen(g: Graph, start: Value, s: State, v: Value, k: nat)
    requires s.work == [] && IsCovered(g, s) && start in s.seen && ReachedIn(g, start, v, k)
    ensures v in s.seen
    decreases k
  {
    if k > 0 {
      var u :| ReachedIn(g, start, u, k - 1) && v in g.Succ(u);
      ReachedInIsSeen(g, start, s, u, k - 1);
    }
  }

  /** Because the stack is LIFO, popping a value again pushes nothing. */
  lemma {:induction false} SecondPopPushesNothing(c: Client, g: Graph, start: Value, n: nat)
    requires Follows(c, start, g)
    requires var s := Iterate(c, start, n);
             s.work != [] && !Top(s).IsEmpty() && Top(s).LastValue().value in s.seen
    ensures var s := Iterate(c, start, n); Step(c, s).work == s.work[..|s.work| - 1]
  {
    ReachInvHolds(c, g, start, n);
    var s := Iterate(c, start, n);
    assert !s.cancelled;
    NothingPushed(c, g, start, s);
  }

  lemma {:induction false} NothingPushed(c: Client, g: Graph, start: Value, s: State)
    requires Follows(c, start, g) && PathsOk(c, start, s) && s.work != [] && IsLifo(g, s) && CancelOk(g, s) &&
             !s.cancelled
    requires !Top(s).IsEmpty() && Top(s).LastValue().value in s.seen
    ensures Step(c, s).work == s.work[..|s.work| - 1] && Step(c, s).seen == s.seen
  {
    hide Follows, PathsOk, Step, Candidates;
    StepOfFollower(c, g, start, s);
    var v := Top(s).LastValue().value;
    var rest := s.work[..|s.work| - 1];
    assert s.seen + {v} == s.seen;
    forall w | w in g.Succ(v)
      ensures w in s.seen
    {
      assert IsCoveredAt(g, s, |s.work| - 1, w);
    }
    AddSeenPushesNothing(s.seen, rest, g.Succ(v), Top(s));
  }

  lemma {:induction false} AddSeenPushesNothing(seen: set<Value>, work: seq<ValuePath>, vals: seq<Value>,
                                                user: ValuePath)
    requires forall w :: w in vals ==> w in seen
    ensures AddToWork(seen, work, vals, user) == work
    decreases |vals|
  {
    if vals != [] {
      AddSeenPushesNothing(seen, work, vals[..|vals| - 1], user);
    }
  }

  // ---- How often the engine matches ---------------------------------------------------------------------------

  /** The sum of the out-degrees of a set of values. */
  ghost function DegreeSum(g: Graph, vs: set<Value>): nat {
    if vs == {} then 0
    else
      var v :| v in vs;
      |g.Succ(v)| + DegreeSum(g, vs - {v})
  }

  lemma {:induction false} DegreeSumAdd(g: Graph, vs: set<Value>, v: Value)
    requires v !in vs
    ensures DegreeSum(g, vs + {v}) == DegreeSum(g, vs) + |g.Succ(v)|
    decreases |vs|
  {
    var all := vs + {v};
    var u :| u in all && DegreeSum(g, all) == |g.Succ(u)| + DegreeSum(g, all - {u});
    if u == v {
      assert all - {u} == vs;
    } else {
      assert all - {u} == (vs - {u}) + {v};
      DegreeSumAdd(g, vs - {u}, v);
      assert vs == (vs - {u}) + {u};
      DegreeSumAdd(g, vs - {u}, u);
    }
  }

  /** The callback is called at most once for the start and once for every edge that leaves a matched value. */
  lemma {:induction false} CallsAreBounded(c: Client, g: Graph, start: Value, n: nat)
    requires Follows(c, start, g)
    ensures var s := Iterate(c, start, n);
            |s.calls| + |s.work| <= 1 + DegreeSum(g, s.seen)
  {
    if n == 0 {
      InitialReachInv(c, g, start);
    } else {
      CallsAreBounded(c, g, start, n - 1);
      ReachInvHolds(c, g, start, n - 1);
      var s := Iterate(c, start, n - 1);
      if s.work != [] {
        CallsStep(c, g, start, s);
      }
    }
  }

  lemma {:induction false} CallsStep(c: Client, g: Graph, start: Value, s: State)
    requires Follows(c, start, g) && PathsOk(c, start, s) && s.work != [] && IsLifo(g, s) && CancelOk(g, s) &&
             !s.cancelled
    requires |s.calls| + |s.work| <= 1 + DegreeSum(g, s.seen)
    ensures |Step(c, s).calls| + |Step(c, s).work| <= 1 + DegreeSum(g, Step(c, s).seen)
  {
    hide Follows, PathsOk, Step, Candidates, IsLifo;
    StepOfFollower(c, g, start, s);
    var v := Top(s).LastValue().value;
    if v in s.seen {
      NothingPushed(c, g, start, s);
    } else {
      DegreeSumAdd(g, s.seen, v);
      PushedIsUnseen(s.seen + {v}, s.work[..|s.work| - 1], g.Succ(v), Top(s));
    }
  }

  /** With `reached` the reachable values, of at most `degree` successors each, the general bound holds for them. */
  lemma {:induction false} RunsEndOnReached(c: Client, g: Graph, start: Value, reached: set<Value>, degree: nat)
    requires Follows(c, start, g) && forall v: Value :: v in reached <==> Reached(g, start, v)
    requires forall v :: v in reached ==> |g.Succ(v)| <= degree
    ensures |reached| > 0 && CallBound(|reached|, degree) >= 0
    ensures forall n: nat :: |Iterate(c, start, n).calls| <= CallBound(|reached|, degree)
    ensures Iterate(c, start, CallBound(|reached|, degree)).work == []
  {
    assert ReachedIn(g, start, start, 0);
    forall h, p | IsWalk(start, p) && p.LastValue().value in reached
      ensures |Candidates(c, h, p)| <= degree
      ensures forall v :: v in Candidates(c, h, p) ==> v in reached
    {
      var u := p.LastValue().value;
      assert Candidates(c, h, p) == g.Succ(u);
      forall v | v in g.Succ(u) {
        ReachedStep(g, start, u, v);
      }
    }
    RunsEnd(c, start, reached, degree);
  }
}
