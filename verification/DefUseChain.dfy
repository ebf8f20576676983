/** The class DefUseChain of lib/type/DefUseAnalysis.h, updating its two fields in place. */
module DefUseChain {
  import opened Wrappers
  import opened ValuePath
  import Engine = DefUse
  import opened DefUseOrder

  type Client = Engine.Client

  /** `calls` is the log of one complete run from `start`. */
  ghost predicate IsRun(c: Client, start: Value, calls: seq<ValuePath>, cancelled: bool) {
    exists n: nat :: IsRunOf(c, start, n, calls, cancelled)
  }

  ghost predicate IsRunOf(c: Client, start: Value, n: nat, calls: seq<ValuePath>, cancelled: bool) {
    var s := Engine.Iterate(c, start, n);
    s.work == [] && s.calls == calls && s.cancelled == cancelled
  }

  /** A client and a start determine the run. */
  lemma {:induction false} RunsAreUnique(c: Client, start: Value, calls: seq<ValuePath>, cancelled: bool,
                                         calls': seq<ValuePath>, cancelled': bool)
    requires IsRun(c, start, calls, cancelled) && IsRun(c, start, calls', cancelled')
    ensures calls == calls' && cancelled == cancelled'
  {
    var n: nat :| IsRunOf(c, start, n, calls, cancelled);
    var m: nat :| IsRunOf(c, start, m, calls', cancelled');
    if n <= m {
      Engine.FinishedStays(c, start, n, m);
    } else {
      Engine.FinishedStays(c, start, m, n);
    }
  }

  /** One more iteration: the values stay in bounds and the measure decreases. */
  lemma {:induction false} Iteration(c: Client, start: Value, universe: set<Value>, degree: nat, n: nat)
    requires Engine.IsBounded(c, start, universe, degree) && Engine.IsConfined(Engine.Iterate(c, start, n), universe)
    requires Engine.Iterate(c, start, n).work != []
    ensures var s, s' := Engine.Iterate(c, start, n), Engine.Iterate(c, start, n + 1);
            s' == Engine.Step(c, s) && Engine.IsConfined(s', universe) &&
            0 <= Engine.Measure(s', universe) &&
            (Engine.Measure(s', universe) < Engine.Measure(s, universe) ||
             (Engine.Measure(s', universe) == Engine.Measure(s, universe) && |s'.work| < |s.work|))
  {
    hide Engine.IsBounded, Engine.PathsOk, Engine.Step, Engine.Measure;
    var s := Engine.Iterate(c, start, n);
    Engine.PathsAreSimpleWalks(c, start, n);
    Engine.StepDecreases(c, start, s, universe, degree);
    Engine.StepConfined(c, start, s, universe, degree);
  }

  class DefUseChain {
    var workingSet: seq<ValuePath>
    var seenSet: set<Value>

    constructor ()
      ensures Valid()
    {
      workingSet, seenSet := [], {};
    }

    /** Nothing is left over between two traversals. */
    predicate Valid()
      reads this
    {
      workingSet == [] && seenSet == {}
    }

    method AddToWorkS(path: ValuePath)
      modifies this`workingSet
      ensures workingSet == Engine.AddToWorkS(seenSet, old(workingSet), path)
    {
      if !path.IsEmpty() && path.LastValue().value !in seenSet {
        workingSet := workingSet + [path];
      }
    }

    method AddToWork(vals: seq<Value>, current: ValuePath)
      modifies this`workingSet
      ensures workingSet == Engine.AddToWork(seenSet, old(workingSet), vals, current)
    {
      for i := 0 to |vals|
        invariant workingSet == Engine.AddToWork(seenSet, old(workingSet), vals[..i], current)
      {
        var path := current.Append(vals[i]);
        assert vals[..i + 1][..i] == vals[..i];
        AddToWorkS(path);
      }
      assert vals[..|vals|] == vals;
    }

    method Peek() returns (path: ValuePath)
      modifies this`workingSet
      ensures if old(workingSet) == [] then path == ValuePath([]) && workingSet == []
              else old(workingSet) == workingSet + [path]
    {
      if |workingSet| == 0 {
        return ValuePath([]);
      }
      path := workingSet[|workingSet| - 1];
      workingSet := workingSet[..|workingSet| - 1];
    }

    /** The traversal ends for every client, calls back in the stated order, and clears both sets. */
    method DoTraverse(c: Client, start: Value, ghost universe: set<Value>, ghost degree: nat)
      returns (calls: seq<ValuePath>, cancelled: bool)
      requires Valid()
      requires Engine.IsBounded(c, start, universe, degree) && start in universe
      modifies this
      ensures Valid()
      ensures IsRun(c, start, calls, cancelled) && IsTraversal(c, start, calls, cancelled)
      ensures |calls| <= Engine.CallBound(|universe|, degree)
    {
      hide Engine.IsBounded, Engine.IsConfined, Engine.Measure, IsTraversal;
      ghost var n := 0;
      calls := [];
      AddToWorkS(ValuePath([start]));
      Engine.RunsEnd(c, start, universe, degree);
      Engine.RunStaysInBudget(c, start, universe, degree, 0);
      while |workingSet| != 0
        invariant Engine.State(workingSet, seenSet, calls, false) == Engine.Iterate(c, start, n)
        invariant Engine.IsConfined(Engine.Iterate(c, start, n), universe)
        decreases Engine.Measure(Engine.State(workingSet, seenSet, calls, false), universe), |workingSet|
      {
        ghost var s := Engine.State(workingSet, seenSet, calls, false);
        Iteration(c, start, universe, degree, n);
        n := n + 1;
        var user := Peek();
        assert user == Engine.Top(s);
        if user.IsEmpty() {
          continue;
        }
        seenSet := seenSet + {user.LastValue().value};
        var verdict := c.onMatch(calls, user);
        calls := calls + [user];
        if verdict == Engine.Skip {
          continue;
        }
        if verdict == Engine.Cancel {
          workingSet, seenSet := [], {};
          assert IsRunOf(c, start, n, calls, true);
          RunIsTraversal(c, start, n);
          return calls, true;
        }
        if c.shouldSearch(calls, user) {
          var found := c.search(calls, user);
          if found.Some? {
            AddToWork(found.value, user);
          }
        }
      }
      assert IsRunOf(c, start, n, calls, false);
      RunIsTraversal(c, start, n);
      workingSet, seenSet := [], {};
      cancelled := false;
    }
  }
}
