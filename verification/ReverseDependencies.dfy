/** The symbols that depend on changed symbols, up to a bounded number of steps. */
module ReverseDependencies {
  import opened Reachability

  /** `s` is a target, or depends in at most `k` steps on one. */
  ghost predicate Within<T(!new)>(uses: set<(T, T)>, targets: set<T>, s: T, k: nat) {
    s in targets || (k > 0 && exists t :: (s, t) in uses && Within(uses, targets, t, k - 1))
  }

  /** Counting steps is counting the edges of a walk. */
  lemma {:induction false} WithinIsShortWalk<T(!new)>(uses: set<(T, T)>, targets: set<T>, s: T, k: nat)
    ensures Within(uses, targets, s, k) <==>
            exists walk :: IsWalk(uses, walk) && walk[0] == s && walk[|walk| - 1] in targets && |walk| <= k + 1
  {
    if Within(uses, targets, s, k) {
      if s in targets {
        assert IsWalk(uses, [s]) && [s][0] == s && [s][|[s]| - 1] in targets;
      } else {
        var t :| (s, t) in uses && Within(uses, targets, t, k - 1);
        WithinIsShortWalk(uses, targets, t, k - 1);
        var rest :| IsWalk(uses, rest) && rest[0] == t && rest[|rest| - 1] in targets && |rest| <= k;
        var walk := [s] + rest;
        forall i | 0 < i < |walk|
          ensures (walk[i - 1], walk[i]) in uses
        {
          assert walk[i] == rest[i - 1];
        }
        assert IsWalk(uses, walk) && walk[0] == s && walk[|walk| - 1] in targets;
      }
    }
    if walk :| IsWalk(uses, walk) && walk[0] == s && walk[|walk| - 1] in targets && |walk| <= k + 1 {
      if |walk| > 1 {
        var rest := walk[1..];
        assert (walk[0], walk[1]) in uses;
        assert IsWalk(uses, rest) && rest[0] == walk[1] && rest[|rest| - 1] in targets;
        WithinIsShortWalk(uses, targets, walk[1], k - 1);
      }
    }
  }

  lemma {:induction false} WithinGrows<T(!new)>(uses: set<(T, T)>, targets: set<T>, s: T, k: nat)
    requires Within(uses, targets, s, k)
    ensures Within(uses, targets, s, k + 1)
  {
    if s !in targets {
      var t :| (s, t) in uses && Within(uses, targets, t, k - 1);
      WithinGrows(uses, targets, t, k - 1);
    }
  }

  /** The affected set after `k` levels, and what the last level added. */
  ghost predicate IsLevel<T(!new)>(uses: set<(T, T)>, targets: set<T>, affected: set<T>, frontier: set<T>, k: nat) {
    && (forall s :: s in affected <==> Within(uses, targets, s, k))
    && (forall s :: s in frontier <==> Within(uses, targets, s, k) && (k > 0 ==> !Within(uses, targets, s, k - 1)))
  }

  lemma NextLevel<T(!new)>(uses: set<(T, T)>, targets: set<T>, affected: set<T>, frontier: set<T>, k: nat, next: set<T>)
    requires IsLevel(uses, targets, affected, frontier, k)
    requires forall s :: s in next <==> s !in affected && exists t :: t in frontier && (s, t) in uses
    ensures IsLevel(uses, targets, affected + next, next, k + 1)
  {
    forall s
      ensures Within(uses, targets, s, k + 1) <==> s in affected || s in next
    {
      if s in affected {
        WithinGrows(uses, targets, s, k);
      } else if Within(uses, targets, s, k + 1) {
        var t :| (s, t) in uses && Within(uses, targets, t, k);
        assert k > 0 && Within(uses, targets, t, k - 1) ==> Within(uses, targets, s, k);
        assert t in frontier;
      }
    }
  }

  /** Once a level adds nothing, no later one does. */
  lemma {:induction false} EmptyLevelIsLast<T(!new)>(uses: set<(T, T)>, targets: set<T>, affected: set<T>, k: nat, later: nat)
    requires IsLevel(uses, targets, affected, {}, k) && later >= k
    ensures forall s :: Within(uses, targets, s, later) <==> s in affected
    decreases later - k
  {
    if later > k {
      NextLevel(uses, targets, affected, {}, k, {});
      assert affected + {} == affected;
      EmptyLevelIsLast(uses, targets, affected, k + 1, later);
    }
  }

  /** Exactly the symbols within the configured number of steps of a changed one. */
  method AffectedSymbols<T(!new, ==)>(uses: set<(T, T)>, changed: set<T>, maximumDepth: int) returns (affected: set<T>)
    ensures forall s :: s in affected <==> Within(uses, changed, s, if maximumDepth < 0 then 0 else maximumDepth)
  {
    affected := changed;
    var frontier, depth := changed, 0;
    while depth < maximumDepth
      invariant 0 <= depth && (maximumDepth >= 0 ==> depth <= maximumDepth) && (maximumDepth < 0 ==> depth == 0)
      invariant IsLevel(uses, changed, affected, frontier, depth)
    {
      if frontier == {} {
        EmptyLevelIsLast(uses, changed, affected, depth, maximumDepth);
        break;
      }
      var next := (set use | use in uses && use.1 in frontier :: use.0) - affected;
      forall s
        ensures s in next <==> s !in affected && exists t :: t in frontier && (s, t) in uses
      {
        if t :| s !in affected && t in frontier && (s, t) in uses {
          assert (s, t).0 == s && (s, t).1 == t;
        }
      }
      NextLevel(uses, changed, affected, frontier, depth, next);
      affected, frontier, depth := affected + next, next, depth + 1;
    }
  }
}
