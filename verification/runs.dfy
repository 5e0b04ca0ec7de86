/** The runs of any transition system, their continuations, and induction over them. */
module Runs {

  predicate StepAt<S>(path: seq<S>, next: (S, S) -> bool, i: int)
    requires 0 <= i < |path| - 1
  {
    next(path[i], path[i + 1])
  }

  ghost predicate IsPath<S(!new)>(path: seq<S>, next: (S, S) -> bool) {
    |path| > 0 && forall i :: 0 <= i < |path| - 1 ==> StepAt(path, next, i)
  }

  /** A run is a path from an initial state. */
  ghost predicate IsRun<S(!new)>(run: seq<S>, init: S -> bool, next: (S, S) -> bool) {
    IsPath(run, next) && init(run[0])
  }

  ghost predicate Reachable<S(!new)>(s: S, init: S -> bool, next: (S, S) -> bool) {
    exists run :: IsRun(run, init, next) && run[|run| - 1] == s
  }

  ghost predicate Joins<S(!new)>(path: seq<S>, s: S, s': S, next: (S, S) -> bool) {
    IsPath(path, next) && path[0] == s && path[|path| - 1] == s'
  }

  /** Some continuation of `s` ends in `s'`. */
  ghost predicate LeadsTo<S(!new)>(s: S, s': S, next: (S, S) -> bool) {
    exists path :: Joins(path, s, s', next)
  }

  /** What holds initially and is kept by every step holds in every state of the path. */
  lemma {:induction false} InvariantOnPath<S(!new)>(path: seq<S>, next: (S, S) -> bool, inv: S -> bool, i: nat)
    requires IsPath(path, next) && i < |path| && inv(path[0])
    requires forall s, s' :: inv(s) && next(s, s') ==> inv(s')
    ensures inv(path[i])
  {
    if i > 0 {
      InvariantOnPath(path, next, inv, i - 1);
      assert StepAt(path, next, i - 1);
    }
  }

  lemma InvariantReachable<S(!new)>(s: S, init: S -> bool, next: (S, S) -> bool, inv: S -> bool)
    requires Reachable(s, init, next)
    requires forall s :: init(s) ==> inv(s)
    requires forall s, s' :: inv(s) && next(s, s') ==> inv(s')
    ensures inv(s)
  {
    var run :| IsRun(run, init, next) && run[|run| - 1] == s;
    InvariantOnPath(run, next, inv, |run| - 1);
  }

  lemma InvariantContinues<S(!new)>(s: S, s': S, next: (S, S) -> bool, inv: S -> bool)
    requires LeadsTo(s, s', next) && inv(s)
    requires forall s, s' :: inv(s) && next(s, s') ==> inv(s')
    ensures inv(s')
  {
    var path :| Joins(path, s, s', next);
    InvariantOnPath(path, next, inv, |path| - 1);
  }

  lemma PathExtends<S(!new)>(path: seq<S>, s': S, next: (S, S) -> bool)
    requires IsPath(path, next) && next(path[|path| - 1], s')
    ensures IsPath(path + [s'], next)
  {
    var path' := path + [s'];
    forall i | 0 <= i < |path'| - 1 ensures StepAt(path', next, i) {
      if i < |path| - 1 {
        assert StepAt(path, next, i) && path'[i] == path[i] && path'[i + 1] == path[i + 1];
      }
    }
  }

  /** Every state of a run is reachable. */
  lemma RunStateReachable<S(!new)>(run: seq<S>, init: S -> bool, next: (S, S) -> bool, j: nat)
    requires IsRun(run, init, next) && j < |run|
    ensures Reachable(run[j], init, next)
  {
    var part := run[..j + 1];
    forall n | 0 <= n < |part| - 1 ensures StepAt(part, next, n) {
      assert StepAt(run, next, n) && part[n] == run[n] && part[n + 1] == run[n + 1];
    }
    assert IsRun(part, init, next) && part[|part| - 1] == run[j];
  }

  lemma StaysPut<S(!new)>(s: S, next: (S, S) -> bool)
    ensures LeadsTo(s, s, next)
  {
    assert Joins([s], s, s, next);
  }

  /** A continuation goes on with a step. */
  lemma GoesOn<S(!new)>(s: S, s': S, s'': S, next: (S, S) -> bool)
    requires LeadsTo(s, s', next) && next(s', s'')
    ensures LeadsTo(s, s'', next)
  {
    var path :| Joins(path, s, s', next);
    PathExtends(path, s'', next);
    assert Joins(path + [s''], s, s'', next);
  }

  /** What a reachable state leads to is reachable. */
  lemma StaysReachable<S(!new)>(s: S, s': S, init: S -> bool, next: (S, S) -> bool)
    requires Reachable(s, init, next) && LeadsTo(s, s', next)
    ensures Reachable(s', init, next)
  {
    var path :| Joins(path, s, s', next);
    ReachableAlong(path, init, next, |path| - 1);
  }

  lemma {:induction false} ReachableAlong<S(!new)>(path: seq<S>, init: S -> bool, next: (S, S) -> bool, i: nat)
    requires IsPath(path, next) && i < |path| && Reachable(path[0], init, next)
    ensures Reachable(path[i], init, next)
  {
    if i > 0 {
      ReachableAlong(path, init, next, i - 1);
      assert StepAt(path, next, i - 1);
      var run :| IsRun(run, init, next) && run[|run| - 1] == path[i - 1];
      PathExtends(run, path[i], next);
      var run' := run + [path[i]];
      assert IsRun(run', init, next) && run'[|run'| - 1] == path[i];
    }
  }
}
