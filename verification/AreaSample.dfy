/** Round-robin selection across production areas of the repository. */
module AreaSample {
  import opened Sequences

  function AtLeastZero(n: int): nat {
    if n < 0 then 0 else n
  }

  function Min(a: nat, b: nat): nat {
    if a < b then a else b
  }

  /** The items of one area, in order. */
  function Bucket<T>(items: seq<T>, area: T -> string, a: string): seq<T> {
    if items == [] then [] else
      var n := |items| - 1;
      if area(items[n]) == a then Bucket(items[..n], area, a) + [items[n]] else Bucket(items[..n], area, a)
  }

  lemma {:induction false} BucketMember<T>(items: seq<T>, area: T -> string, a: string, x: T)
    ensures x in Bucket(items, area, a) <==> x in items && area(x) == a
  {
    if items != [] {
      var n := |items| - 1;
      BucketMember(items[..n], area, a, x);
      assert items == items[..n] + [items[n]];
    }
  }

  lemma BucketExtends<T>(items: seq<T>, area: T -> string, x: T, a: string)
    ensures Bucket(items + [x], area, a) == Bucket(items, area, a) + if area(x) == a then [x] else []
  {
    assert (items + [x])[..|items|] == items;
  }

  lemma {:induction false} BucketCounts<T>(items: seq<T>, area: T -> string, x: T)
    ensures multiset(Bucket(items, area, area(x)))[x] == multiset(items)[x]
  {
    if items != [] {
      var n := |items| - 1;
      BucketCounts(items[..n], area, x);
      assert items == items[..n] + [items[n]];
    }
  }

  lemma {:induction false} BucketIsDistinct<T>(items: seq<T>, area: T -> string, a: string)
    requires NoDuplicates(items)
    ensures NoDuplicates(Bucket(items, area, a))
  {
    if items != [] {
      var n := |items| - 1;
      BucketIsDistinct(items[..n], area, a);
      BucketMember(items[..n], area, a, items[n]);
    }
  }

  /** Sequences with the same buckets have the same length. */
  lemma SameBucketsSameLength<T(!new)>(a: seq<T>, b: seq<T>, area: T -> string)
    requires forall k :: Bucket(a, area, k) == Bucket(b, area, k)
    ensures |a| == |b|
  {
    forall x
      ensures multiset(a)[x] == multiset(b)[x]
    {
      BucketCounts(a, area, x);
      BucketCounts(b, area, x);
    }
    assert multiset(a) == multiset(b);
    assert |multiset(a)| == |a| && |multiset(b)| == |b|;
  }

  lemma NoMemberEmptyBucket<T>(items: seq<T>, area: T -> string, a: string)
    requires forall x :: x in items ==> area(x) != a
    ensures Bucket(items, area, a) == []
  {
    var bucket := Bucket(items, area, a);
    if |bucket| > 0 {
      BucketMember(items, area, a, bucket[0]);
    }
  }

  // ---------------------------------------------------------------- what a fair sample is

  ghost predicate IsAreaOf<T(!new)>(items: seq<T>, area: T -> string, a: string) {
    exists x :: x in items && area(x) == a
  }

  ghost predicate HasOmission<T(!new)>(items: seq<T>, area: T -> string, selected: seq<T>, a: string) {
    exists x :: x in items && area(x) == a && x !in selected
  }

  /** Area `b` lags behind area `a` by more than one item. */
  ghost predicate Lags<T>(selected: seq<T>, area: T -> string, a: string, b: string) {
    |Bucket(selected, area, a)| > |Bucket(selected, area, b)| + 1
  }

  /** Each area of the selection is a prefix of that area, and no area lags by two unless it is exhausted. */
  ghost predicate IsFair<T>(items: seq<T>, area: T -> string, selected: seq<T>) {
    && (forall a: string :: Bucket(selected, area, a) <= Bucket(items, area, a))
    && (forall a: string, b: string :: Lags(selected, area, a, b) ==> Bucket(selected, area, b) == Bucket(items, area, b))
  }

  /** Over distinct items an area has an omitted item exactly when its share is short. */
  lemma OmissionIffShort<T(!new)>(items: seq<T>, area: T -> string, selected: seq<T>, a: string)
    requires NoDuplicates(items) && IsFair(items, area, selected)
    ensures HasOmission(items, area, selected, a) <==> |Bucket(selected, area, a)| < |Bucket(items, area, a)|
  {
    var mine, all := Bucket(selected, area, a), Bucket(items, area, a);
    assert mine <= all;
    if |mine| < |all| {
      var x := all[|mine|];
      BucketMember(items, area, a, x);
      BucketMember(selected, area, a, x);
      BucketIsDistinct(items, area, a);
      assert forall k :: 0 <= k < |mine| ==> mine[k] == all[k] != x;
    } else {
      assert mine == all;
      forall x | x in items && area(x) == a
        ensures x in selected
      {
        BucketMember(items, area, a, x);
        BucketMember(selected, area, a, x);
      }
    }
  }

  // ---------------------------------------------------------------- the selection loops

  type Cursor = map<string, nat>

  /** The cursors say how much of each bucket the selection has taken. */
  ghost predicate Taken<T>(selected: seq<T>, area: T -> string, buckets: map<string, seq<T>>, cursor: Cursor) {
    cursor.Keys == buckets.Keys && forall a :: a in buckets ==> TakenFrom(selected, area, buckets[a], a, cursor[a])
  }

  ghost predicate TakenFrom<T>(selected: seq<T>, area: T -> string, bucket: seq<T>, a: string, k: nat) {
    k <= |bucket| && Bucket(selected, area, a) == bucket[..k]
  }

  /** `p` full rounds, and one more turn for the first `i` areas; an exhausted area passes its turns. */
  ghost predicate Turned<T>(areas: seq<string>, buckets: map<string, seq<T>>, cursor: Cursor, p: nat, i: nat) {
    forall j :: 0 <= j < |areas| ==> TurnsOf(buckets, cursor, areas[j], p + if j < i then 1 else 0)
  }

  ghost predicate TurnsOf<T>(buckets: map<string, seq<T>>, cursor: Cursor, a: string, turns: nat) {
    a in buckets && a in cursor && cursor[a] == Min(turns, |buckets[a]|)
  }

  /** A turn: its round, and the area whose turn it is. */
  datatype Turn = Turn(round: nat, area: nat)

  ghost predicate Precedes(a: Turn, b: Turn) {
    a.round < b.round || (a.round == b.round && a.area < b.area)
  }

  /** Each item was given in its own turn, the turns came in order, and the turn `next` is still to come. */
  ghost predicate InTurnOrder<T>(areas: seq<string>, buckets: map<string, seq<T>>, selected: seq<T>, turns: seq<Turn>,
                                 next: Turn)
  {
    && |turns| == |selected|
    && (forall k :: 0 <= k < |turns| ==> GivenAt(areas, buckets, selected[k], turns[k]) && Precedes(turns[k], next))
    && forall k, m :: 0 <= k < m < |turns| ==> Precedes(turns[k], turns[m])
  }

  ghost predicate GivenAt<T>(areas: seq<string>, buckets: map<string, seq<T>>, x: T, turn: Turn) {
    && turn.area < |areas| && areas[turn.area] in buckets
    && turn.round < |buckets[areas[turn.area]]| && x == buckets[areas[turn.area]][turn.round]
  }

  ghost predicate AreBuckets<T(!new)>(items: seq<T>, area: T -> string, buckets: map<string, seq<T>>) {
    && (forall a :: a in buckets <==> IsAreaOf(items, area, a))
    && (forall a :: a in buckets ==> buckets[a] == Bucket(items, area, a))
  }

  method FillBuckets<T(!new)>(items: seq<T>, area: T -> string) returns (buckets: map<string, seq<T>>)
    ensures AreBuckets(items, area, buckets)
  {
    buckets := map[];
    for n := 0 to |items|
      invariant AreBuckets(items[..n], area, buckets)
    {
      var x := items[n];
      var a := area(x);
      assert items[..n + 1] == items[..n] + [x];
      forall b {
        BucketExtends(items[..n], area, x, b);
      }
      if a !in buckets {
        NoMemberEmptyBucket(items[..n], area, a);
      }
      buckets := buckets[a := (if a in buckets then buckets[a] else []) + [x]];
    }
    assert items[..|items|] == items;
  }

  method SortedKeys<T>(buckets: map<string, T>, before: (string, string) -> bool) returns (areas: seq<string>)
    requires TotalPreorder(before)
    ensures SortedBy(before, areas) && NoDuplicates(areas) && forall a :: a in areas <==> a in buckets
  {
    var todo, listed := buckets.Keys, [];
    while todo != {}
      invariant NoDuplicates(listed)
      invariant forall a :: a in buckets <==> a in todo || a in listed
      invariant forall a :: a in todo ==> a !in listed
    {
      var a :| a in todo;
      todo, listed := todo - {a}, listed + [a];
    }
    areas := Sort(listed, before);
    PermutationKeepsDistinct(listed, areas);
  }

  lemma TurnTaken<T>(selected: seq<T>, area: T -> string, buckets: map<string, seq<T>>, cursor: Cursor, a: string)
    requires Taken(selected, area, buckets, cursor) && a in buckets && cursor[a] < |buckets[a]|
    requires area(buckets[a][cursor[a]]) == a
    ensures Taken(selected + [buckets[a][cursor[a]]], area, buckets, cursor[a := cursor[a] + 1])
  {
    var k := cursor[a];
    var x, moved := buckets[a][k], cursor[a := k + 1];
    forall b | b in buckets
      ensures TakenFrom(selected + [x], area, buckets[b], b, moved[b])
    {
      BucketExtends(selected, area, x, b);
      assert TakenFrom(selected, area, buckets[b], b, cursor[b]);
      if b == a {
        assert buckets[a][..k + 1] == buckets[a][..k] + [x];
      }
    }
  }

  lemma TurnCounted<T>(areas: seq<string>, buckets: map<string, seq<T>>, cursor: Cursor, p: nat, n: nat, moved: Cursor)
    requires NoDuplicates(areas) && n < |areas| && Turned(areas, buckets, cursor, p, n)
    requires moved == if cursor[areas[n]] < |buckets[areas[n]]| then cursor[areas[n] := cursor[areas[n]] + 1] else cursor
    ensures Turned(areas, buckets, moved, p, n + 1)
  {
    var next := n + 1;
    assert TurnsOf(buckets, cursor, areas[n], p + if n < n then 1 else 0);
    forall j | 0 <= j < |areas|
      ensures TurnsOf(buckets, moved, areas[j], p + if j < next then 1 else 0)
    {
      assert TurnsOf(buckets, cursor, areas[j], p + if j < n then 1 else 0);
    }
  }

  /** Passing a turn, or taking it, keeps the order. */
  lemma LaterTurn<T>(areas: seq<string>, buckets: map<string, seq<T>>, selected: seq<T>, turns: seq<Turn>, p: nat, n: nat)
    requires InTurnOrder(areas, buckets, selected, turns, Turn(p, n)) && n < |areas|
    ensures InTurnOrder(areas, buckets, selected, turns, Turn(p, n + 1))
    ensures areas[n] in buckets && p < |buckets[areas[n]]| ==>
      InTurnOrder(areas, buckets, selected + [buckets[areas[n]][p]], turns + [Turn(p, n)], Turn(p, n + 1))
  {
  }

  /** A round after its first `n` turns: either something was given, or all `n` areas were exhausted. */
  ghost predicate MidRound<T>(area: T -> string, areas: seq<string>, buckets: map<string, seq<T>>, before: seq<T>,
                              selected: seq<T>, cursor: Cursor, turns: seq<Turn>, p: nat, n: nat, progressed: bool)
  {
    && Taken(selected, area, buckets, cursor) && Turned(areas, buckets, cursor, p, n)
    && InTurnOrder(areas, buckets, selected, turns, Turn(p, n))
    && (forall x :: x in selected ==> x in before || area(x) in areas)
    && if progressed then |selected| > |before| else selected == before && Exhausted(areas, buckets, cursor, n)
  }

  /** One round of turns: each area in order gives its next item, until the limit. */
  method TakeTurns<T>(area: T -> string, areas: seq<string>, buckets: map<string, seq<T>>, limit: nat,
                      before: seq<T>, start: Cursor, ghost p: nat, ghost earlier: seq<Turn>)
    returns (selected: seq<T>, cursor: Cursor, progressed: bool, ghost i: nat, ghost turns: seq<Turn>)
    requires NoDuplicates(areas) && |before| < limit
    requires forall a, x :: a in buckets && x in buckets[a] ==> area(x) == a
    requires forall a :: a in areas <==> a in buckets
    requires Taken(before, area, buckets, start) && Turned(areas, buckets, start, p, 0)
    requires InTurnOrder(areas, buckets, before, earlier, Turn(p, 0))
    ensures i <= |areas| && MidRound(area, areas, buckets, before, selected, cursor, turns, p, i, progressed)
    ensures |selected| <= limit && (|selected| < limit ==> i == |areas|)
  {
    selected, cursor, progressed, i, turns := before, start, false, 0, earlier;
    for n := 0 to |areas|
      invariant i == n && |selected| <= limit
      invariant MidRound(area, areas, buckets, before, selected, cursor, turns, p, n, progressed)
    {
      if |selected| >= limit {
        return;
      }
      selected, cursor, progressed, turns := TakeTurn(area, areas, buckets, before, selected, cursor, progressed, p, n, turns);
      i := n + 1;
    }
  }

  /** One turn: the area's next item, if it has one left. */
  method TakeTurn<T>(area: T -> string, areas: seq<string>, buckets: map<string, seq<T>>, ghost before: seq<T>,
                     given: seq<T>, start: Cursor, already: bool, ghost p: nat, n: nat, ghost earlier: seq<Turn>)
    returns (selected: seq<T>, cursor: Cursor, progressed: bool, ghost turns: seq<Turn>)
    requires NoDuplicates(areas) && n < |areas| && areas[n] in buckets
    requires forall a, x :: a in buckets && x in buckets[a] ==> area(x) == a
    requires MidRound(area, areas, buckets, before, given, start, earlier, p, n, already)
    ensures MidRound(area, areas, buckets, before, selected, cursor, turns, p, n + 1, progressed)
    ensures |selected| <= |given| + 1
  {
    selected, cursor, progressed, turns := given, start, already, earlier;
    var a := areas[n];
    assert TurnsOf(buckets, cursor, areas[n], p + if n < n then 1 else 0);
    var index, bucket := cursor[a], buckets[a];
    TurnCounted(areas, buckets, cursor, p, n, if index < |bucket| then cursor[a := index + 1] else cursor);
    LaterTurn(areas, buckets, selected, turns, p, n);
    if index < |bucket| {
      TurnTaken(selected, area, buckets, cursor, a);
      selected := selected + [bucket[index]];
      turns := turns + [Turn(p, n)];
      cursor := cursor[a := index + 1];
      progressed := true;
    }
  }

  ghost predicate Exhausted<T>(areas: seq<string>, buckets: map<string, seq<T>>, cursor: Cursor, n: nat) {
    forall j :: 0 <= j < n && j < |areas| ==> EmptiedIn(buckets, cursor, areas[j])
  }

  ghost predicate EmptiedIn<T>(buckets: map<string, seq<T>>, cursor: Cursor, a: string) {
    a in buckets && a in cursor && cursor[a] >= |buckets[a]|
  }

  /** Items are given in rounds, area by area in sorted order. */
  ghost predicate IsRoundRobin<T(!new)>(items: seq<T>, area: T -> string, before: (string, string) -> bool, selected: seq<T>,
                                        turns: seq<Turn>)
  {
    exists areas: seq<string>, buckets: map<string, seq<T>>, next: Turn ::
      && SortedBy(before, areas) && NoDuplicates(areas) && (forall a :: a in areas <==> IsAreaOf(items, area, a))
      && AreBuckets(items, area, buckets) && InTurnOrder(areas, buckets, selected, turns, next)
  }

  /** As many items as the limit allows, shared fairly, with exactly the areas that lost an item reported. */
  method BalancedAreaSample<T(!new, ==)>(items: seq<T>, limit: int, area: T -> string, before: (string, string) -> bool)
    returns (selected: seq<T>, truncated: seq<string>, ghost turns: seq<Turn>)
    requires TotalPreorder(before)
    ensures |selected| == Min(AtLeastZero(limit), |items|)
    ensures |items| <= limit ==> selected == items
    ensures |items| > limit ==> IsRoundRobin(items, area, before, selected, turns)
    ensures IsFair(items, area, selected)
    ensures SortedBy(before, truncated) && NoDuplicates(truncated)
    ensures forall a :: a in truncated <==> HasOmission(items, area, selected, a)
  {
    if |items| <= limit {
      return items, [], [];
    }
    var buckets := FillBuckets(items, area);
    var areas := SortedKeys(buckets, before);
    selected, turns := SelectInTurns(items, AtLeastZero(limit), area, areas, buckets);
    truncated := ReportTruncated(items, area, areas, buckets, selected, before);
  }

  method SelectInTurns<T(!new)>(items: seq<T>, limit: nat, area: T -> string, areas: seq<string>, buckets: map<string, seq<T>>)
    returns (selected: seq<T>, ghost turns: seq<Turn>)
    requires limit <= |items| && AreBuckets(items, area, buckets)
    requires NoDuplicates(areas) && forall a :: a in areas <==> a in buckets
    ensures |selected| == limit && IsFair(items, area, selected)
    ensures exists next :: InTurnOrder(areas, buckets, selected, turns, next)
  {
    selected, turns := [], [];
    var cursor: Cursor := map a | a in buckets :: 0;
    ghost var p, i: nat := 0, 0;
    MembersBelong(items, area, buckets);
    while |selected| < limit
      invariant |selected| <= limit && (|selected| < limit ==> i == 0)
      invariant Taken(selected, area, buckets, cursor) && Turned(areas, buckets, cursor, p, i)
      invariant InTurnOrder(areas, buckets, selected, turns, Turn(p, i))
      invariant forall x :: x in selected ==> area(x) in areas
      decreases limit - |selected|
    {
      var progressed;
      selected, cursor, progressed, i, turns := TakeTurns(area, areas, buckets, limit, selected, cursor, p, turns);
      if !progressed {
        AllTakenIsEverything(items, area, areas, buckets, selected, cursor);
        break;
      }
      if i == |areas| {
        NextRound(areas, buckets, cursor, p);
        p, i := p + 1, 0;
      }
    }
    TurnsAreFair(items, area, areas, buckets, selected, cursor, p, i);
  }

  lemma MembersBelong<T(!new)>(items: seq<T>, area: T -> string, buckets: map<string, seq<T>>)
    requires AreBuckets(items, area, buckets)
    ensures forall a, x :: a in buckets && x in buckets[a] ==> area(x) == a
  {
    forall a, x | a in buckets && x in buckets[a]
      ensures area(x) == a
    {
      BucketMember(items, area, a, x);
    }
  }

  lemma NextRound<T>(areas: seq<string>, buckets: map<string, seq<T>>, cursor: Cursor, p: nat)
    requires Turned(areas, buckets, cursor, p, |areas|)
    ensures Turned(areas, buckets, cursor, p + 1, 0)
  {
    forall j | 0 <= j < |areas|
      ensures TurnsOf(buckets, cursor, areas[j], p + 1 + if j < 0 then 1 else 0)
    {
      assert TurnsOf(buckets, cursor, areas[j], p + if j < |areas| then 1 else 0);
    }
  }

  lemma AllTakenIsEverything<T(!new)>(items: seq<T>, area: T -> string, areas: seq<string>, buckets: map<string, seq<T>>,
                                      selected: seq<T>, cursor: Cursor)
    requires AreBuckets(items, area, buckets) && forall a :: a in areas <==> a in buckets
    requires forall x :: x in selected ==> area(x) in areas
    requires Taken(selected, area, buckets, cursor) && Exhausted(areas, buckets, cursor, |areas|)
    ensures |selected| == |items|
  {
    forall a
      ensures Bucket(selected, area, a) == Bucket(items, area, a)
    {
      if a in areas {
        var j :| 0 <= j < |areas| && areas[j] == a;
        assert EmptiedIn(buckets, cursor, areas[j]);
        assert TakenFrom(selected, area, buckets[a], a, cursor[a]);
        assert buckets[a][..cursor[a]] == buckets[a];
      } else {
        NoMemberEmptyBucket(items, area, a);
        NoMemberEmptyBucket(selected, area, a);
      }
    }
    SameBucketsSameLength(selected, items, area);
  }

  lemma TurnsAreFair<T(!new)>(items: seq<T>, area: T -> string, areas: seq<string>, buckets: map<string, seq<T>>,
                              selected: seq<T>, cursor: Cursor, p: nat, i: nat)
    requires AreBuckets(items, area, buckets) && forall a :: a in areas <==> a in buckets
    requires forall x :: x in selected ==> area(x) in areas
    requires Taken(selected, area, buckets, cursor) && Turned(areas, buckets, cursor, p, i)
    ensures IsFair(items, area, selected)
  {
    forall a: string
      ensures ShareWithin(items, area, selected, a, p)
    {
      TurnsGiveShares(items, area, areas, buckets, selected, cursor, p, i, a);
    }
    forall a: string
      ensures Bucket(selected, area, a) <= Bucket(items, area, a)
    {
      assert ShareWithin(items, area, selected, a, p);
    }
    forall a: string, b: string | Lags(selected, area, a, b)
      ensures Bucket(selected, area, b) == Bucket(items, area, b)
    {
      LaggingIsExhausted(items, area, selected, p, a, b);
    }
  }

  lemma LaggingIsExhausted<T>(items: seq<T>, area: T -> string, selected: seq<T>, p: nat, a: string, b: string)
    requires ShareWithin(items, area, selected, a, p) && ShareWithin(items, area, selected, b, p)
    requires Lags(selected, area, a, b)
    ensures Bucket(selected, area, b) == Bucket(items, area, b)
  {
    assert |Bucket(selected, area, a)| <= p + 1 && |Bucket(selected, area, b)| < p;
  }

  lemma TurnsGiveShares<T(!new)>(items: seq<T>, area: T -> string, areas: seq<string>, buckets: map<string, seq<T>>,
                                 selected: seq<T>, cursor: Cursor, p: nat, i: nat, a: string)
    requires AreBuckets(items, area, buckets) && forall b :: b in areas <==> b in buckets
    requires forall x :: x in selected ==> area(x) in areas
    requires Taken(selected, area, buckets, cursor) && Turned(areas, buckets, cursor, p, i)
    ensures ShareWithin(items, area, selected, a, p)
  {
    if a in areas {
      var j :| 0 <= j < |areas| && areas[j] == a;
      assert TurnsOf(buckets, cursor, areas[j], p + if j < i then 1 else 0);
      assert TakenFrom(selected, area, buckets[a], a, cursor[a]);
    } else {
      NoMemberEmptyBucket(items, area, a);
      NoMemberEmptyBucket(selected, area, a);
    }
  }

  ghost predicate ShareWithin<T>(items: seq<T>, area: T -> string, selected: seq<T>, a: string, p: nat) {
    ShareIs(items, area, selected, a, p) || ShareIs(items, area, selected, a, p + 1)
  }

  /** The selection holds exactly the first `turns` items of area `a`, or all of them. */
  ghost predicate ShareIs<T>(items: seq<T>, area: T -> string, selected: seq<T>, a: string, turns: nat) {
    var all := Bucket(items, area, a);
    Bucket(selected, area, a) == all[..Min(turns, |all|)]
  }

  method ReportTruncated<T(!new, ==)>(items: seq<T>, area: T -> string, areas: seq<string>, buckets: map<string, seq<T>>,
                                      selected: seq<T>, before: (string, string) -> bool)
    returns (truncated: seq<string>)
    requires SortedBy(before, areas) && NoDuplicates(areas)
    requires AreBuckets(items, area, buckets) && forall a :: a in areas <==> a in buckets
    ensures SortedBy(before, truncated) && NoDuplicates(truncated)
    ensures forall a :: a in truncated <==> HasOmission(items, area, selected, a)
  {
    truncated := [];
    ghost var from: seq<nat> := [];
    for n := 0 to |areas|
      invariant |from| == |truncated| && forall k :: 0 <= k < |from| ==> from[k] < n && truncated[k] == areas[from[k]]
      invariant forall k, m :: 0 <= k < m < |from| ==> from[k] < from[m]
      invariant forall j :: 0 <= j < n ==> (areas[j] in truncated <==> HasOmission(items, area, selected, areas[j]))
    {
      var a := areas[n];
      var bucket := buckets[a];
      forall x
        ensures x in bucket <==> x in items && area(x) == a
      {
        BucketMember(items, area, a, x);
      }
      if exists x :: x in bucket && x !in selected {
        truncated := truncated + [areas[n]];
        from := from + [n];
      }
    }
    forall a | HasOmission(items, area, selected, a)
      ensures a in areas
    {
      assert IsAreaOf(items, area, a);
    }
  }
}
