/** The worklist engine of lib/type/DefUseAnalysis.h. A path is pushed if its last value is unseen; the value becomes
    seen only when the path is popped, and is not tested again then. */
module DefUse {
  import opened Wrappers
  import opened ValuePath

  datatype MatchResult = Continue | Cancel | Skip

  /** The three callbacks. Each may be stateful: it is given all paths matched so far, the current one included for
      the last two. */
  datatype Client = Client(
    onMatch: (seq<ValuePath>, ValuePath) -> MatchResult,
    shouldSearch: (seq<ValuePath>, ValuePath) -> bool,
    search: (seq<ValuePath>, ValuePath) -> Option<seq<Value>>)

  datatype State = State(work: seq<ValuePath>, seen: set<Value>, calls: seq<ValuePath>, cancelled: bool)

  function AddToWorkS(seen: set<Value>, work: seq<ValuePath>, path: ValuePath): seq<ValuePath> {
    if !path.IsEmpty() && path.LastValue().value !in seen then work + [path] else work
  }

  function AddToWork(seen: set<Value>, work: seq<ValuePath>, vals: seq<Value>, current: ValuePath): seq<ValuePath>
    decreases |vals|
  {
    if vals == [] then work
    else AddToWorkS(seen, AddToWork(seen, work, vals[..|vals| - 1], current), current.Append(vals[|vals| - 1]))
  }

  /** What the engine may push after matching `path`: nothing unless the client lets it continue. */
  function Candidates(c: Client, before: seq<ValuePath>, path: ValuePath): seq<Value> {
    if c.onMatch(before, path) == Continue && c.shouldSearch(before + [path], path) then
      match c.search(before + [path], path)
      case Some(vals) => vals
      case None => []
    else []
  }

  function Initial(start: Value): State {
    State(AddToWorkS({}, [], ValuePath([start])), {}, [], false)
  }

  function Top(s: State): ValuePath
    requires s.work != []
  {
    s.work[|s.work| - 1]
  }

  /** One iteration of the loop. */
  function Step(c: Client, s: State): State
    requires s.work != []
  {
    var user := Top(s);
    var rest := s.work[..|s.work| - 1];
    if user.IsEmpty() then s.(work := rest)
    else
      var seen := s.seen + {user.LastValue().value};
      var calls := s.calls + [user];
      if c.onMatch(s.calls, user) == Cancel then State([], seen, calls, true)
      else State(AddToWork(seen, rest, Candidates(c, s.calls, user), user), seen, calls, false)
  }

  /** The state after at most `n` iterations. */
  function Iterate(c: Client, start: Value, n: nat): State {
    if n == 0 then Initial(start)
    else
      var s := Iterate(c, start, n - 1);
      if s.work == [] then s else Step(c, s)
  }

  /** A finished run stays finished. */
  lemma {:induction false} FinishedStays(c: Client, start: Value, n: nat, m: nat)
    requires n <= m && Iterate(c, start, n).work == []
    ensures Iterate(c, start, m) == Iterate(c, start, n)
  {
    if n < m {
      FinishedStays(c, start, n, m - 1);
    }
  }

  /** What is pushed extends the current path by an unseen value of `vals`. */
  lemma {:induction false} PushedExtend(seen: set<Value>, work: seq<ValuePath>, vals: seq<Value>, current: ValuePath)
    ensures var r := AddToWork(seen, work, vals, current);
            work <= r && |r| <= |work| + |vals| &&
            forall i :: |work| <= i < |r| ==> exists v :: v in vals && v !in seen && r[i] == current.Append(v)
    decreases |vals|
  {
    if vals != [] {
      var k := |vals| - 1;
      PushedExtend(seen, work, vals[..k], current);
      var prev := AddToWork(seen, work, vals[..k], current);
      var r := AddToWork(seen, work, vals, current);
      assert r == if vals[k] in seen then prev else prev + [current.Append(vals[k])];
      hide AddToWork;
      forall i | |work| <= i < |r|
        ensures exists v :: v in vals && v !in seen && r[i] == current.Append(v)
      {
        if i < |prev| {
          var v :| v in vals[..k] && v !in seen && prev[i] == current.Append(v);
          assert v in vals;
        } else {
          assert vals[k] in vals;
        }
      }
    }
  }

  /** Every unseen value of `vals` is pushed. */
  lemma {:induction false} UnseenArePushed(seen: set<Value>, work: seq<ValuePath>, vals: seq<Value>, current: ValuePath)
    ensures var r := AddToWork(seen, work, vals, current);
            |work| <= |r| &&
            forall v :: v in vals && v !in seen ==> exists i :: |work| <= i < |r| && r[i] == current.Append(v)
    decreases |vals|
  {
    if vals != [] {
      var k := |vals| - 1;
      UnseenArePushed(seen, work, vals[..k], current);
      var prev := AddToWork(seen, work, vals[..k], current);
      var r := AddToWork(seen, work, vals, current);
      assert r == if vals[k] in seen then prev else prev + [current.Append(vals[k])];
      hide AddToWork;
      forall v | v in vals && v !in seen
        ensures exists i :: |work| <= i < |r| && r[i] == current.Append(v)
      {
        if v == vals[k] {
          assert r[|prev|] == current.Append(v);
        } else {
          assert v in vals[..k];
          var i :| |work| <= i < |prev| && prev[i] == current.Append(v);
          assert r[i] == current.Append(v);
        }
      }
    }
  }

  // ---- Simple walks -------------------------------------------------------------------------------------------

  /** `path` starts at `start` and every step was offered by the search after its prefix was matched. */
  ghost predicate IsJustified(c: Client, start: Value, calls: seq<ValuePath>, path: ValuePath)
    decreases |path.values|
  {
    path.values != [] && path.values[0] == start &&
    (|path.values| > 1 ==>
       IsJustified(c, start, calls, path.Prefix()) &&
       exists k :: IsOffered(c, calls, k, path))
  }

  ghost predicate IsOffered(c: Client, calls: seq<ValuePath>, k: nat, path: ValuePath) {
    path.values != [] && k < |calls| && calls[k] == path.Prefix() &&
    path.LastValue().value in Candidates(c, calls[..k], calls[k])
  }

  /** The path is a simple walk, and all of its values, but possibly the last, have been processed. */
  ghost predicate IsPending(c: Client, start: Value, s: State, p: ValuePath) {
    IsJustified(c, start, s.calls, p) && p.IsSimple() && forall i :: 0 <= i < |p.values| - 1 ==> p.values[i] in s.seen
  }

  ghost predicate IsProcessed(c: Client, start: Value, s: State, p: ValuePath) {
    IsJustified(c, start, s.calls, p) && p.IsSimple() && forall v :: v in p.values ==> v in s.seen
  }

  predicate IsMatched(calls: seq<ValuePath>, v: Value) {
    exists k :: 0 <= k < |calls| && calls[k].LastValue() == Some(v)
  }

  ghost predicate PathsOk(c: Client, start: Value, s: State) {
    (forall p :: p in s.work ==> IsPending(c, start, s, p)) &&
    (forall p :: p in s.calls ==> IsProcessed(c, start, s, p)) &&
    (forall v :: v in s.seen <==> IsMatched(s.calls, v))
  }

  lemma {:induction false} JustifiedLater(c: Client, start: Value, calls: seq<ValuePath>, more: ValuePath,
                                          path: ValuePath)
    requires IsJustified(c, start, calls, path)
    ensures IsJustified(c, start, calls + [more], path)
    decreases |path.values|
  {
    if |path.values| > 1 {
      JustifiedLater(c, start, calls, more, path.Prefix());
      var k: nat :| IsOffered(c, calls, k, path);
      assert (calls + [more])[..k] == calls[..k];
      assert IsOffered(c, calls + [more], k, path);
    }
  }

  /** A path stays pending or processed as the run goes on. */
  lemma {:induction false} PathLater(c: Client, start: Value, s: State, p: ValuePath)
    requires s.work != [] && !Top(s).IsEmpty()
    ensures IsPending(c, start, s, p) ==> IsPending(c, start, Step(c, s), p)
    ensures IsProcessed(c, start, s, p) ==> IsProcessed(c, start, Step(c, s), p)
    ensures IsPending(c, start, s, Top(s)) ==> IsProcessed(c, start, Step(c, s), Top(s))
  {
    forall q | IsJustified(c, start, s.calls, q) {
      JustifiedLater(c, start, s.calls, Top(s), q);
    }
  }

  /** A path that a step pushes is pending. */
  lemma {:induction false} PushedPathIsPending(c: Client, start: Value, s: State, v: Value)
    requires s.work != [] && IsPending(c, start, s, Top(s))
    requires v in Candidates(c, s.calls, Top(s)) && v !in Step(c, s).seen
    ensures IsPending(c, start, Step(c, s), Top(s).Append(v))
  {
    var user := Top(s);
    var p := user.Append(v);
    var s' := Step(c, s);
    PathLater(c, start, s, user);
    assert p.Prefix() == user;
    assert s'.calls[..|s.calls|] == s.calls;
    assert IsOffered(c, s'.calls, |s.calls|, p);
  }

  lemma {:induction false} StepMatches(c: Client, s: State)
    requires s.work != [] && !Top(s).IsEmpty()
    requires forall v :: v in s.seen <==> IsMatched(s.calls, v)
    ensures forall v :: v in Step(c, s).seen <==> IsMatched(Step(c, s).calls, v)
  {
    var calls := s.calls + [Top(s)];
    assert Step(c, s).calls == calls;
    forall v: Value
      ensures IsMatched(calls, v) <==> IsMatched(s.calls, v) || Top(s).LastValue() == Some(v)
    {
      if IsMatched(s.calls, v) {
        var k :| 0 <= k < |s.calls| && s.calls[k].LastValue() == Some(v);
        assert calls[k].LastValue() == Some(v);
      }
      if Top(s).LastValue() == Some(v) {
        assert calls[|s.calls|].LastValue() == Some(v);
      }
    }
  }

  lemma {:induction false} StepKeepsPaths(c: Client, start: Value, s: State)
    requires PathsOk(c, start, s) && s.work != []
    ensures PathsOk(c, start, Step(c, s))
  {
    hide IsJustified, Candidates;
    var user := Top(s);
    var rest := s.work[..|s.work| - 1];
    var s' := Step(c, s);
    assert IsPending(c, start, s, user);
    assert !user.IsEmpty() by { PendingIsNonempty(c, start, s, user); }
    StepMatches(c, s);
    forall p {
      PathLater(c, start, s, p);
    }
    if !s'.cancelled {
      var vals := Candidates(c, s.calls, user);
      PushedExtend(s'.seen, rest, vals, user);
      forall i | |rest| <= i < |s'.work|
        ensures IsPending(c, start, s', s'.work[i])
      {
        var v :| v in vals && v !in s'.seen && s'.work[i] == user.Append(v);
        PushedPathIsPending(c, start, s, v);
      }
    }
  }

  lemma PendingIsNonempty(c: Client, start: Value, s: State, p: ValuePath)
    requires IsPending(c, start, s, p)
    ensures !p.IsEmpty() && p.values[0] == start
  {
  }

  /** Every path that is ever pushed or matched is a simple walk from the start along the search direction. */
  lemma {:induction false} PathsAreSimpleWalks(c: Client, start: Value, n: nat)
    ensures PathsOk(c, start, Iterate(c, start, n))
  {
    hide IsProcessed, Step;
    if n == 0 {
      var p := ValuePath([start]);
      assert AddToWorkS({}, [], p) == [p];
      assert IsJustified(c, start, [], p);
    } else {
      PathsAreSimpleWalks(c, start, n - 1);
      var s := Iterate(c, start, n - 1);
      if s.work != [] {
        StepKeepsPaths(c, start, s);
      }
    }
  }

  // ---- Termination --------------------------------------------------------------------------------------------

  /** A path that the engine can produce: non-empty, simple and from `start`. */
  predicate IsWalk(start: Value, p: ValuePath) { p.values != [] && p.values[0] == start && p.IsSimple() }

  /** From a walk that ends in `universe`, at most `degree` values are offered, all of them in `universe`. */
  ghost predicate IsBounded(c: Client, start: Value, universe: set<Value>, degree: nat) {
    forall h, p :: IsWalk(start, p) && p.LastValue().value in universe ==>
                     |Candidates(c, h, p)| <= degree && forall v :: v in Candidates(c, h, p) ==> v in universe
  }

  lemma {:induction false} TopIsWalk(c: Client, start: Value, s: State)
    requires PathsOk(c, start, s) && s.work != []
    ensures IsWalk(start, Top(s))
  {
    assert IsPending(c, start, s, Top(s));
    PendingIsNonempty(c, start, s, Top(s));
  }

  predicate TopIsUnseen(s: State) {
    s.work != [] && !Top(s).IsEmpty() && Top(s).LastValue().value !in s.seen
  }

  function Fresh(s: State): nat { if TopIsUnseen(s) then 1 else 0 }

  ghost predicate IsConfined(s: State, universe: set<Value>) {
    s.seen <= universe && forall p :: p in s.work ==> !p.IsEmpty() && p.LastValue().value in universe
  }

  /** A value can be processed several times, but a step that pushes anything is at, or followed by, an unseen value. */
  lemma {:induction false} StepProgress(c: Client, start: Value, s: State, universe: set<Value>, degree: nat)
    requires IsBounded(c, start, universe, degree) && PathsOk(c, start, s) && IsConfined(s, universe) && s.work != []
    ensures var s' := Step(c, s);
            IsConfined(s', universe) && |s'.calls| == |s.calls| + 1 && |s'.seen| == |s.seen| + Fresh(s) &&
            |s'.work| <= |s.work| - 1 + degree && (|s'.work| >= |s.work| ==> Fresh(s') == 1)
  {
    hide Candidates;
    TopIsWalk(c, start, s);
    StepConfined(c, start, s, universe, degree);
    hide PathsOk;
    var user := Top(s);
    assert user in s.work;
    var rest := s.work[..|s.work| - 1];
    var s' := Step(c, s);
    var vals := Candidates(c, s.calls, user);
    if user.LastValue().value in s.seen {
      assert s'.seen == s.seen;
    }
    PushedIsUnseen(s'.seen, rest, vals, user);
  }

  /** Whatever is pushed ends in an unseen value. */
  lemma {:induction false} PushedIsUnseen(seen: set<Value>, work: seq<ValuePath>, vals: seq<Value>, current: ValuePath)
    ensures var r := AddToWork(seen, work, vals, current);
            |work| <= |r| <= |work| + |vals| &&
            forall i :: |work| <= i < |r| ==> !r[i].IsEmpty() && r[i].LastValue().value !in seen
    decreases |vals|
  {
    if vals != [] {
      PushedIsUnseen(seen, work, vals[..|vals| - 1], current);
    }
  }

  lemma {:induction false} StepConfined(c: Client, start: Value, s: State, universe: set<Value>, degree: nat)
    requires IsBounded(c, start, universe, degree) && PathsOk(c, start, s) && IsConfined(s, universe) && s.work != []
    ensures IsConfined(Step(c, s), universe)
  {
    hide Candidates;
    TopIsWalk(c, start, s);
    hide PathsOk;
    var user := Top(s);
    assert user in s.work;
    var rest := s.work[..|s.work| - 1];
    var s' := Step(c, s);
    var vals := Candidates(c, s.calls, user);
    PushedExtend(s'.seen, rest, vals, user);
    assert s'.work == [] || s'.work == AddToWork(s'.seen, rest, vals, user);
    assert s'.seen <= universe;
    hide Step, AddToWork;
    forall i | 0 <= i < |s'.work|
      ensures !s'.work[i].IsEmpty() && s'.work[i].LastValue().value in universe
    {
      if i < |rest| {
        assert s'.work[i] in s.work;
      } else {
        var v :| v in vals && v !in s'.seen && s'.work[i] == user.Append(v);
      }
    }
  }

  /** The measure of the loop: twice the unseen values, less one if the next value is unseen; then the stack. */
  ghost function Measure(s: State, universe: set<Value>): int { 2 * |universe - s.seen| - Fresh(s) }

  lemma {:induction false} StepDecreases(c: Client, start: Value, s: State, universe: set<Value>, degree: nat)
    requires IsBounded(c, start, universe, degree) && PathsOk(c, start, s) && IsConfined(s, universe) && s.work != []
    ensures var s' := Step(c, s);
            0 <= Measure(s', universe) &&
            (Measure(s', universe) < Measure(s, universe) ||
             (Measure(s', universe) == Measure(s, universe) && |s'.work| < |s.work|))
  {
    StepProgress(c, start, s, universe, degree);
    hide PathsOk, IsBounded;
    var s' := Step(c, s);
    UnseenCount(s.seen, universe);
    UnseenCount(s'.seen, universe);
    UnseenAhead(s', universe);
  }

  lemma {:induction false} UnseenCount(seen: set<Value>, universe: set<Value>)
    requires seen <= universe
    ensures |universe - seen| == |universe| - |seen|
  {
    assert universe == (universe - seen) + seen;
  }

  lemma {:induction false} UnseenAhead(s: State, universe: set<Value>)
    requires IsConfined(s, universe)
    ensures |s.seen| + Fresh(s) <= |universe|
  {
    if TopIsUnseen(s) {
      assert Top(s) in s.work;
      CardinalityAtMost(s.seen + {Top(s).LastValue().value}, universe);
    } else {
      CardinalityAtMost(s.seen, universe);
    }
  }

  lemma {:induction false} CardinalityAtMost(a: set<Value>, b: set<Value>)
    requires a <= b
    ensures |a| <= |b|
  {
    assert b == a + (b - a);
  }

  /** The number of match calls that suffices for any client, however path-dependent or stateful. */
  function CallBound(values: nat, degree: nat): int { 1 + (2 * values - 1) * degree }

  /** After `n` iterations, either the run is over or it has made `n` calls, within the budget. */
  ghost predicate InBudget(s: State, n: nat, universe: set<Value>, degree: nat) {
    IsConfined(s, universe) && |s.calls| <= n && (s.work != [] ==> |s.calls| == n) &&
    if n == 0 then |s.work| == 1 && s.seen == {}
    else |s.seen| >= 1 && |s.calls| + |s.work| <= CallBound(|s.seen|, degree) + Fresh(s) * degree
  }

  lemma {:induction false} RunStaysInBudget(c: Client, start: Value, universe: set<Value>, degree: nat, n: nat)
    requires IsBounded(c, start, universe, degree) && start in universe
    ensures InBudget(Iterate(c, start, n), n, universe, degree)
  {
    if n == 0 {
      assert AddToWorkS({}, [], ValuePath([start])) == [ValuePath([start])];
    } else {
      RunStaysInBudget(c, start, universe, degree, n - 1);
      var s := Iterate(c, start, n - 1);
      if s.work != [] {
        PathsAreSimpleWalks(c, start, n - 1);
        StepProgress(c, start, s, universe, degree);
        hide PathsOk;
        BudgetStep(s, Step(c, s), n - 1, universe, degree);
      }
    }
  }

  lemma {:induction false} BudgetStep(s: State, s': State, n: nat, universe: set<Value>, degree: nat)
    requires InBudget(s, n, universe, degree) && IsConfined(s', universe) && s.work != []
    requires |s'.calls| == |s.calls| + 1 && |s'.seen| == |s.seen| + Fresh(s)
    requires |s'.work| <= |s.work| - 1 + degree && (|s'.work| >= |s.work| ==> Fresh(s') == 1)
    ensures InBudget(s', n + 1, universe, degree)
  {
    if n == 0 {
      assert Top(s) in s.work;
    } else if Fresh(s) == 1 {
      hide IsConfined;
      assert CallBound(|s'.seen|, degree) == CallBound(|s.seen|, degree) + 2 * degree;
    }
  }

  /** Every run ends: with at most `|universe|` values of at most `degree` successors each, the callback is called at
      most 1 + (2 * |universe| - 1) * degree times. */
  lemma {:induction false} RunsEnd(c: Client, start: Value, universe: set<Value>, degree: nat)
    requires IsBounded(c, start, universe, degree) && start in universe
    ensures |universe| > 0 && CallBound(|universe|, degree) >= 0
    ensures forall n: nat :: |Iterate(c, start, n).calls| <= CallBound(|universe|, degree)
    ensures Iterate(c, start, CallBound(|universe|, degree)).work == []
  {
    CardinalityAtMost({start}, universe);
    var bound := CallBound(|universe|, degree);
    forall n: nat
      ensures |Iterate(c, start, n).calls| + |Iterate(c, start, n).work| <= bound
    {
      RunStaysInBudget(c, start, universe, degree, n);
      var s := Iterate(c, start, n);
      UnseenAhead(s, universe);
      WithinBound(|s.seen|, Fresh(s), |universe|, degree);
    }
    RunStaysInBudget(c, start, universe, degree, bound);
  }

  lemma WithinBound(seen: nat, ahead: nat, values: nat, degree: nat)
    requires ahead <= 1 && seen + ahead <= values
    ensures CallBound(seen, degree) + ahead * degree <= CallBound(values, degree)
  {
    var gap := 2 * (values - seen) - ahead;
    assert gap >= 0 && gap * degree >= 0;
    assert CallBound(values, degree) - CallBound(seen, degree) - ahead * degree == gap * degree;
  }
}
