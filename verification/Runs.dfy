/** Runs of a nondeterministic state machine, given by its step relation. */
module Runs {

  /** A finite run: every state but the first follows from the one before it by one step. */
  ghost predicate IsRun<S(!new)>(next: (S, S) -> bool, run: seq<S>) {
    |run| > 0 && forall i {:trigger run[i]} :: 0 < i < |run| ==> next(run[i - 1], run[i])
  }

  /** Some run leads from s to t. */
  ghost predicate Reachable<S(!new)>(next: (S, S) -> bool, s: S, t: S) {
    exists run :: IsRun(next, run) && run[0] == s && run[|run| - 1] == t
  }

  lemma ReachableRefl<S(!new)>(next: (S, S) -> bool, s: S)
    ensures Reachable(next, s, s)
  {
    assert IsRun(next, [s]) && [s][0] == s && [s][|[s]| - 1] == s;
  }

  lemma ReachableStep<S(!new)>(next: (S, S) -> bool, s: S, t: S, u: S)
    requires Reachable(next, s, t) && next(t, u)
    ensures Reachable(next, s, u)
  {
    var run :| IsRun(next, run) && run[0] == s && run[|run| - 1] == t;
    var longer := run + [u];
    assert IsRun(next, longer) && longer[0] == s && longer[|longer| - 1] == u;
  }

  /** Two states that lead to each other make runs of any length. */
  lemma {:induction false} TakeTurns<S(!new)>(next: (S, S) -> bool, s: S, t: S, n: nat) returns (run: seq<S>)
    requires next(s, t) && next(t, s) && n > 0
    ensures IsRun(next, run) && |run| == n
    ensures forall i :: 0 <= i < n ==> run[i] == if i % 2 == 0 then s else t
  {
    if n == 1 {
      run := [s];
    } else {
      var shorter := TakeTurns(next, s, t, n - 1);
      run := shorter + [if (n - 1) % 2 == 0 then s else t];
      assert forall i :: 0 <= i < n - 1 ==> run[i] == shorter[i];
    }
  }

  /** What holds at the start and is kept by every step holds in every state of every run. */
  lemma {:induction false} InvariantOnRun<S(!new)>(next: (S, S) -> bool, inv: S -> bool, run: seq<S>)
    requires IsRun(next, run) && inv(run[0])
    requires forall s, t :: inv(s) && next(s, t) ==> inv(t)
    ensures forall i :: 0 <= i < |run| ==> inv(run[i])
  {
    if |run| > 1 {
      var shorter := run[..|run| - 1];
      assert forall i :: 0 <= i < |shorter| ==> shorter[i] == run[i];
      InvariantOnRun(next, inv, shorter);
      var last := |run| - 1;
      assert run[last - 1] == shorter[last - 1];
      assert next(run[last - 1], run[last]);
      forall i | 0 <= i < |run| ensures inv(run[i]) {
        if i < last { assert shorter[i] == run[i]; }
      }
    }
  }

  lemma {:induction false} InvariantOnReachable<S(!new)>(next: (S, S) -> bool, inv: S -> bool, s: S, t: S)
    requires Reachable(next, s, t) && inv(s)
    requires forall s, t :: inv(s) && next(s, t) ==> inv(t)
    ensures inv(t)
  {
    var run :| IsRun(next, run) && run[0] == s && run[|run| - 1] == t;
    InvariantOnRun(next, inv, run);
  }
}
