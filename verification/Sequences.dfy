/** Facts about sequences that several components share. */
module Sequences {

  /** The multiset of images of `s` under `f`. */
  function Image<T, U>(f: T -> U, s: seq<T>): multiset<U> {
    if s == [] then multiset{} else multiset{f(s[0])} + Image(f, s[1..])
  }

  lemma {:induction false} ImageOfConcat<T, U>(f: T -> U, a: seq<T>, b: seq<T>)
    ensures Image(f, a + b) == Image(f, a) + Image(f, b)
  {
    if a == [] {
      assert a + b == b;
    } else {
      assert (a + b)[1..] == a[1..] + b;
      ImageOfConcat(f, a[1..], b);
    }
  }

  lemma ImageOfCons<T, U>(f: T -> U, x: T, s: seq<T>)
    ensures Image(f, [x] + s) == multiset{f(x)} + Image(f, s)
  {
    assert ([x] + s)[1..] == s;
  }

  lemma ImageOfAppend<T, U>(f: T -> U, s: seq<T>, x: T)
    ensures Image(f, s + [x]) == Image(f, s) + multiset{f(x)}
  {
    ImageOfConcat(f, s, [x]);
    assert [x][1..] == [];
  }

  /** Moving one element to the front leaves the rest as a multiset. */
  lemma PullToFront<T>(s: seq<T>, i: nat)
    requires i < |s|
    ensures multiset(s) == multiset{s[i]} + multiset(s[..i] + s[i + 1..])
  {
    assert s == s[..i] + [s[i]] + s[i + 1..];
  }

  lemma ImageWithout<T, U>(f: T -> U, s: seq<T>, i: nat)
    requires i < |s|
    ensures Image(f, s) == multiset{f(s[i])} + Image(f, s[..i] + s[i + 1..])
  {
    assert s == s[..i] + s[i..] && s[i..][1..] == s[i + 1..];
    ImageOfConcat(f, s[..i], s[i..]);
    ImageOfConcat(f, s[..i], s[i + 1..]);
  }

  /** Images do not depend on order. */
  lemma {:induction false} ImageIsOrderFree<T, U>(f: T -> U, a: seq<T>, b: seq<T>)
    requires multiset(a) == multiset(b)
    ensures Image(f, a) == Image(f, b)
  {
    if a == [] {
      assert |multiset(b)| == 0;
    } else {
      var i, rest := SamePick(a, b);
      ImageWithout(f, b, i);
      ImageIsOrderFree(f, a[1..], rest);
    }
  }

  /** The head of `a` occurs in its permutation `b`; dropping it from both leaves permutations. */
  lemma SamePick<T>(a: seq<T>, b: seq<T>) returns (i: nat, rest: seq<T>)
    requires multiset(a) == multiset(b) && a != []
    ensures i < |b| && b[i] == a[0] && rest == b[..i] + b[i + 1..] && multiset(a[1..]) == multiset(rest)
  {
    assert a[0] in multiset(b);
    i :| 0 <= i < |b| && b[i] == a[0];
    rest := b[..i] + b[i + 1..];
    PullToFront(b, i);
    PullToFront(a, 0);
    assert a[..0] + a[1..] == a[1..];
    CancelOne(a[0], multiset(a[1..]), multiset(rest));
  }

  lemma CancelOne<T>(x: T, m: multiset<T>, n: multiset<T>)
    requires multiset{x} + m == multiset{x} + n
    ensures m == n
  {
    assert m == (multiset{x} + m) - multiset{x} && n == (multiset{x} + n) - multiset{x};
  }

  ghost predicate NoDuplicates<T>(s: seq<T>) {
    forall i, j :: 0 <= i < j < |s| ==> s[i] != s[j]
  }

  lemma {:induction false} NoDuplicatesCountOne<T>(s: seq<T>)
    requires NoDuplicates(s)
    ensures forall x :: multiset(s)[x] == if x in s then 1 else 0
  {
    if s != [] {
      NoDuplicatesCountOne(s[1..]);
      assert s == [s[0]] + s[1..];
    }
  }

  /** Duplicate-free sequences with the same elements are permutations of each other. */
  lemma SameElementsPermute<T>(a: seq<T>, b: seq<T>)
    requires NoDuplicates(a) && NoDuplicates(b)
    requires forall x :: x in a <==> x in b
    ensures multiset(a) == multiset(b)
  {
    NoDuplicatesCountOne(a);
    NoDuplicatesCountOne(b);
  }

  lemma {:induction false} NoDuplicatesCardinality<T>(s: seq<T>)
    requires NoDuplicates(s)
    ensures |set x | x in s| == |s|
  {
    if s != [] {
      NoDuplicatesCardinality(s[1..]);
      assert (set x | x in s) == {s[0]} + set x | x in s[1..];
    }
  }

  lemma PermutationKeepsDistinct<T>(a: seq<T>, b: seq<T>)
    requires NoDuplicates(a) && multiset(a) == multiset(b)
    ensures NoDuplicates(b)
  {
    NoDuplicatesCountOne(a);
    forall i, j | 0 <= i < j < |b|
      ensures b[i] != b[j]
    {
      PullToFront(b, i);
      var rest := b[..i] + b[i + 1..];
      assert rest[j - 1] == b[j];
      assert b[j] in multiset(rest) && multiset(b)[b[i]] == 1 + multiset(rest)[b[i]];
    }
  }

  function Range(n: nat): (range: seq<nat>)
    ensures |range| == n && forall i :: 0 <= i < n ==> range[i] == i
    ensures forall i: nat :: i in range <==> i < n
  {
    if n == 0 then [] else Range(n - 1) + [n - 1]
  }

  lemma NoDuplicatesInConcat<T>(a: seq<T>, b: seq<T>)
    requires NoDuplicates(a) && NoDuplicates(b)
    requires forall x :: x in a ==> x !in b
    ensures NoDuplicates(a + b)
  {
    var s := a + b;
    forall i, j | 0 <= i < j < |s|
      ensures s[i] != s[j]
    {
      if i < |a| <= j {
        assert s[i] in a && s[j] in b;
      }
    }
  }

  /** `after` is `before` with the distinct new elements `added`. */
  ghost predicate AddedOnce<T(!new)>(before: set<T>, added: seq<T>, after: set<T>) {
    && NoDuplicates(added)
    && (forall x :: x in added ==> x !in before)
    && (forall x :: x in after <==> x in before || x in added)
  }

  lemma AddedOnceAgain<T(!new)>(start: set<T>, first: seq<T>, middle: set<T>, second: seq<T>, after: set<T>)
    requires AddedOnce(start, first, middle) && AddedOnce(middle, second, after)
    ensures AddedOnce(start, first + second, after)
  {
    NoDuplicatesInConcat(first, second);
  }

  lemma AddedOneMore<T(!new)>(before: set<T>, added: seq<T>, now: set<T>, x: T)
    requires AddedOnce(before, added, now) && x !in now
    ensures AddedOnce(before, added + [x], now + {x})
  {
    assert AddedOnce(now, [x], now + {x});
    AddedOnceAgain(before, added, now, [x], now + {x});
  }

  // ---------------------------------------------------------------- sorting

  ghost predicate TotalPreorder<T(!new)>(before: (T, T) -> bool) {
    && (forall a, b :: before(a, b) || before(b, a))
    && (forall a, b, c :: before(a, b) && before(b, c) ==> before(a, c))
  }

  ghost predicate SortedBy<T>(before: (T, T) -> bool, s: seq<T>) {
    forall i, j :: 0 <= i < j < |s| ==> before(s[i], s[j])
  }

  lemma InsertionPermutes<T>(s: seq<T>, at: nat, x: T)
    requires at <= |s|
    ensures multiset(s[..at] + [x] + s[at..]) == multiset(s) + multiset{x}
  {
    assert s == s[..at] + s[at..];
  }

  lemma InsertionKeepsOrder<T(!new)>(s: seq<T>, before: (T, T) -> bool, at: nat, x: T)
    requires TotalPreorder(before) && SortedBy(before, s) && at <= |s|
    requires (at > 0 ==> before(s[at - 1], x)) && (at < |s| ==> before(x, s[at]))
    ensures SortedBy(before, s[..at] + [x] + s[at..])
  {
    forall i | 0 <= i < |s|
      ensures if i < at then before(s[i], x) else before(x, s[i])
    {
      assert i < at - 1 ==> before(s[i], s[at - 1]);
      assert i > at ==> before(s[at], s[i]);
    }
  }

  lemma PermutationKeepsMembers<T>(a: seq<T>, b: seq<T>)
    requires multiset(a) == multiset(b)
    ensures forall x :: x in a <==> x in b
  {
    forall x
      ensures x in a <==> x in b
    {
      assert x in multiset(a) <==> x in multiset(b);
    }
  }

  /** The last place where `x` may go: it passes only the elements it must precede. */
  method FindPlace<T(!new)>(sorted: seq<T>, before: (T, T) -> bool, x: T) returns (at: nat)
    requires TotalPreorder(before)
    ensures at <= |sorted| && (at > 0 ==> before(sorted[at - 1], x)) && (at < |sorted| ==> before(x, sorted[at]))
  {
    at := |sorted|;
    while at > 0 && !before(sorted[at - 1], x)
      invariant 0 <= at <= |sorted|
      invariant at < |sorted| ==> before(x, sorted[at])
    {
      at := at - 1;
    }
  }

  method Insert<T(!new)>(sorted: seq<T>, before: (T, T) -> bool, x: T) returns (grown: seq<T>)
    requires TotalPreorder(before) && SortedBy(before, sorted)
    ensures multiset(grown) == multiset(sorted) + multiset{x} && SortedBy(before, grown)
  {
    var at := FindPlace(sorted, before, x);
    InsertionPermutes(sorted, at, x);
    InsertionKeepsOrder(sorted, before, at, x);
    grown := sorted[..at] + [x] + sorted[at..];
  }

  /** A stable insertion sort. */
  method Sort<T(!new)>(s: seq<T>, before: (T, T) -> bool) returns (sorted: seq<T>)
    requires TotalPreorder(before)
    ensures multiset(sorted) == multiset(s) && SortedBy(before, sorted)
    ensures forall x :: x in sorted <==> x in s
  {
    sorted := [];
    for n := 0 to |s|
      invariant multiset(sorted) == multiset(s[..n]) && SortedBy(before, sorted)
    {
      sorted := Insert(sorted, before, s[n]);
      assert s[..n + 1] == s[..n] + [s[n]];
    }
    assert s[..|s|] == s;
    PermutationKeepsMembers(sorted, s);
  }
}
