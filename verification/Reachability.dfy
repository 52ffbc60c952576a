/** Walks in a finite relation, and the reflexive-transitive closure they define. */
module Reachability {

  /** `walk` is a non-empty sequence whose consecutive elements are related. */
  ghost predicate IsWalk<T>(r: set<(T, T)>, walk: seq<T>) {
    && |walk| > 0
    && forall i :: 0 < i < |walk| ==> (walk[i - 1], walk[i]) in r
  }

  ghost predicate Joins<T>(r: set<(T, T)>, walk: seq<T>, a: T, b: T) {
    IsWalk(r, walk) && walk[0] == a && walk[|walk| - 1] == b
  }

  ghost predicate Reaches<T(!new)>(r: set<(T, T)>, a: T, b: T) {
    exists walk :: Joins(r, walk, a, b)
  }

  ghost predicate Symmetric<T(!new)>(r: set<(T, T)>) {
    forall a, b :: (a, b) in r ==> (b, a) in r
  }

  /** No step of `r` leaves `s`. */
  ghost predicate Closed<T(!new)>(r: set<(T, T)>, s: set<T>) {
    forall a, b :: (a, b) in r && a in s ==> b in s
  }

  lemma ReachesSelf<T(!new)>(r: set<(T, T)>, a: T)
    ensures Reaches(r, a, a)
  {
    assert Joins(r, [a], a, a);
  }

  lemma ReachesStep<T(!new)>(r: set<(T, T)>, a: T, b: T)
    requires (a, b) in r
    ensures Reaches(r, a, b)
  {
    assert Joins(r, [a, b], a, b);
  }

  lemma ReachesTransitive<T(!new)>(r: set<(T, T)>, a: T, b: T, c: T)
    requires Reaches(r, a, b) && Reaches(r, b, c)
    ensures Reaches(r, a, c)
  {
    var p :| Joins(r, p, a, b);
    var q :| Joins(r, q, b, c);
    var w := p + q[1..];
    forall i | 0 < i < |w|
      ensures (w[i - 1], w[i]) in r
    {
      if i >= |p| {
        assert w[i] == q[i - |p| + 1];
        assert w[i - 1] == q[i - |p|];
      }
    }
    assert Joins(r, w, a, c);
  }

  lemma ReachesBack<T(!new)>(r: set<(T, T)>, a: T, b: T)
    requires Symmetric(r) && Reaches(r, a, b)
    ensures Reaches(r, b, a)
  {
    var p :| Joins(r, p, a, b);
    var w := seq(|p|, i requires 0 <= i < |p| => p[|p| - 1 - i]);
    forall i | 0 < i < |w|
      ensures (w[i - 1], w[i]) in r
    {
      assert (p[|p| - 1 - i], p[|p| - i]) in r;
    }
    assert Joins(r, w, b, a);
  }

  /** The induction principle of the closure: a closed set keeps everything its members reach. */
  lemma ReachesStaysInside<T(!new)>(r: set<(T, T)>, s: set<T>, a: T, b: T)
    requires Closed(r, s) && a in s && Reaches(r, a, b)
    ensures b in s
  {
    var p :| Joins(r, p, a, b);
    WalkStaysInside(r, s, p);
  }

  lemma {:induction false} WalkStaysInside<T(!new)>(r: set<(T, T)>, s: set<T>, walk: seq<T>)
    requires Closed(r, s) && IsWalk(r, walk) && walk[0] in s
    ensures forall i :: 0 <= i < |walk| ==> walk[i] in s
  {
    if |walk| > 1 {
      var front := walk[..|walk| - 1];
      WalkStaysInside(r, s, front);
      assert (walk[|walk| - 2], walk[|walk| - 1]) in r;
      assert front[|walk| - 2] in s;
    }
  }
}
