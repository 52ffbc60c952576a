/** Greedy matching of expected findings to reported ones. */
module AcceptanceMatching {
  import opened GraphSnapshot
  import opened Sequences

  /** Which finding each expectation got, by position. */
  type Pairing = map<nat, nat>

  /** Some earlier expectation holds finding `f`. */
  ghost predicate TakenBefore(pairs: Pairing, e: nat, f: nat) {
    exists d :: d in pairs && d < e && pairs[d] == f
  }

  /** Each pair matches, and no finding is used twice. */
  ghost predicate IsMatching(matches: (nat, nat) -> bool, expected: nat, findings: nat, pairs: Pairing) {
    && (forall e :: e in pairs ==> e < expected && pairs[e] < findings && matches(e, pairs[e]))
    && (forall d, e :: d in pairs && e in pairs && pairs[d] == pairs[e] ==> d == e)
  }

  /** An expectation gets the first finding that it matches and no earlier expectation holds, or none if there is none. */
  ghost predicate FirstFit(matches: (nat, nat) -> bool, findings: nat, pairs: Pairing, e: nat) {
    if e in pairs then
      && pairs[e] < findings && matches(e, pairs[e]) && !TakenBefore(pairs, e, pairs[e])
      && forall f :: 0 <= f < pairs[e] && matches(e, f) ==> TakenBefore(pairs, e, f)
    else forall f :: 0 <= f < findings && matches(e, f) ==> TakenBefore(pairs, e, f)
  }

  ghost predicate IsGreedy(matches: (nat, nat) -> bool, expected: nat, findings: nat, pairs: Pairing) {
    && (forall e :: e in pairs ==> e < expected)
    && (forall e: nat :: e < expected ==> FirstFit(matches, findings, pairs, e))
  }

  lemma GreedyIsMatching(matches: (nat, nat) -> bool, expected: nat, findings: nat, pairs: Pairing)
    requires IsGreedy(matches, expected, findings, pairs)
    ensures IsMatching(matches, expected, findings, pairs)
  {
    forall e | e in pairs
      ensures pairs[e] < findings && matches(e, pairs[e])
    {
      assert FirstFit(matches, findings, pairs, e);
    }
    forall d, e | d in pairs && e in pairs && pairs[d] == pairs[e]
      ensures d == e
    {
      assert FirstFit(matches, findings, pairs, d) && FirstFit(matches, findings, pairs, e);
    }
  }

  /** The first-fit rule leaves no choice. */
  lemma GreedyIsUnique(matches: (nat, nat) -> bool, expected: nat, findings: nat, a: Pairing, b: Pairing)
    requires IsGreedy(matches, expected, findings, a) && IsGreedy(matches, expected, findings, b)
    ensures a == b
  {
    forall e: nat | e < expected
      ensures Lookup(a, e) == Lookup(b, e)
    {
      GreedyAgreesAt(matches, expected, findings, a, b, e);
    }
    forall e: nat
      ensures (e in a <==> e in b) && (e in a ==> a[e] == b[e])
    {
      assert e < expected ==> Lookup(a, e) == Lookup(b, e);
    }
  }

  lemma {:induction false} GreedyAgreesAt(matches: (nat, nat) -> bool, expected: nat, findings: nat, a: Pairing, b: Pairing,
                                           e: nat)
    requires IsGreedy(matches, expected, findings, a) && IsGreedy(matches, expected, findings, b) && e < expected
    ensures Lookup(a, e) == Lookup(b, e)
  {
    forall d: nat | d < e
      ensures Lookup(a, d) == Lookup(b, d)
    {
      GreedyAgreesAt(matches, expected, findings, a, b, d);
    }
    forall f: nat
      ensures TakenBefore(a, e, f) <==> TakenBefore(b, e, f)
    {
      if d: nat :| d in a && d < e && a[d] == f {
        assert Lookup(a, d) == Lookup(b, d);
      }
      if d: nat :| d in b && d < e && b[d] == f {
        assert Lookup(a, d) == Lookup(b, d);
      }
    }
    assert FirstFit(matches, findings, a, e) && FirstFit(matches, findings, b, e);
  }

  // ---------------------------------------------------------------- half of optimal

  lemma {:induction false} InjectionCount(s: set<nat>, m: Pairing, t: set<nat>)
    requires forall e :: e in s ==> e in m && m[e] in t
    requires forall d, e :: d in s && e in s && m[d] == m[e] ==> d == e
    ensures |s| <= |t|
  {
    if s != {} {
      var e :| e in s;
      InjectionCount(s - {e}, m, t - {m[e]});
    }
  }

  /** The findings the greedy pairs use. */
  ghost function Used(pairs: Pairing): set<nat> {
    set e | e in pairs :: pairs[e]
  }

  lemma {:induction false} UsedCount(pairs: Pairing)
    ensures |Used(pairs)| <= |pairs|
    decreases pairs.Keys
  {
    if pairs != map[] {
      var e :| e in pairs;
      var rest := pairs - {e};
      UsedCount(rest);
      assert Used(pairs) == Used(rest) + {pairs[e]};
      assert pairs.Keys == rest.Keys + {e};
      assert |pairs| == |pairs.Keys| && |rest| == |rest.Keys|;
    }
  }

  /** Any one-to-one matching has at most twice as many pairs as the greedy one. */
  lemma GreedyIsAtLeastHalf(matches: (nat, nat) -> bool, expected: nat, findings: nat, greedy: Pairing, other: Pairing)
    requires IsGreedy(matches, expected, findings, greedy) && IsMatching(matches, expected, findings, other)
    ensures |other| <= 2 * |greedy|
  {
    var shared := set e | e in other && e in greedy;
    var blocked := set e | e in other && e !in greedy;
    forall e | e in blocked
      ensures other[e] in Used(greedy)
    {
      assert FirstFit(matches, findings, greedy, e);
      assert TakenBefore(greedy, e, other[e]);
    }
    InjectionCount(blocked, other, Used(greedy));
    UsedCount(greedy);
    assert shared <= greedy.Keys;
    SubsetCount(shared, greedy.Keys);
    assert other.Keys == shared + blocked;
    assert |other| == |other.Keys| && |greedy| == |greedy.Keys|;
  }

  lemma {:induction false} SubsetCount(a: set<nat>, b: set<nat>)
    requires a <= b
    ensures |a| <= |b|
  {
    assert b == a + (b - a);
  }

  /** The factor of two is reached: the first expectation takes the only finding the second one could have had. */
  lemma HalfIsReached() returns (matches: (nat, nat) -> bool, greedy: Pairing, best: Pairing)
    ensures IsGreedy(matches, 2, 2, greedy) && IsMatching(matches, 2, 2, best)
    ensures |best| == 2 * |greedy| == 2
  {
    matches := (e: nat, f: nat) => e == 0 || f == 0;
    greedy, best := map[0 := 0], map[0 := 1, 1 := 0];
    assert FirstFit(matches, 2, greedy, 0);
    assert TakenBefore(greedy, 1, 0);
    assert FirstFit(matches, 2, greedy, 1);
  }

  /** When no finding matches two expectations, greedy misses nothing that could be matched. */
  lemma UnsharedFindingsAreAllMatched(matches: (nat, nat) -> bool, expected: nat, findings: nat, greedy: Pairing, e: nat)
    requires IsGreedy(matches, expected, findings, greedy) && e < expected
    requires forall d: nat, f: nat :: d < expected && f < findings && matches(d, f) && matches(e, f) ==> d == e
    ensures e in greedy <==> exists f :: 0 <= f < findings && matches(e, f)
  {
    assert FirstFit(matches, findings, greedy, e);
    if e !in greedy {
      forall f: nat, d: nat | f < findings && matches(e, f) && d in greedy && d < e
        ensures greedy[d] != f
      {
        assert FirstFit(matches, findings, greedy, d);
      }
    }
  }

  // ---------------------------------------------------------------- the matching loop

  datatype Expectation = Expectation(id: string, requirement: string)

  datatype Finding = Finding(fingerprint: string, content: string)

  /** The match test by position. */
  function ByPosition(matches: (Expectation, Finding) -> bool, expected: seq<Expectation>, findings: seq<Finding>)
    : (nat, nat) -> bool
  {
    (e: nat, f: nat) => e < |expected| && f < |findings| && matches(expected[e], findings[f])
  }

  ghost predicate Increasing(s: seq<nat>) {
    forall i, j :: 0 <= i < j < |s| ==> s[i] < s[j]
  }

  method FirstMatch(matches: (nat, nat) -> bool, e: nat, remaining: seq<nat>) returns (at: Option<nat>)
    ensures at.Some? ==> at.value < |remaining| && matches(e, remaining[at.value])
    ensures forall i :: 0 <= i < (if at.Some? then at.value else |remaining|) ==> !matches(e, remaining[i])
  {
    for i := 0 to |remaining|
      invariant forall k :: 0 <= k < i ==> !matches(e, remaining[k])
    {
      if matches(e, remaining[i]) {
        return Some(i);
      }
    }
    at := None;
  }

  /** The positions left over are exactly those no pair uses. */
  ghost predicate Leftover(findings: nat, pairs: Pairing, remaining: seq<nat>) {
    && Increasing(remaining) && (forall i :: 0 <= i < |remaining| ==> remaining[i] < findings)
    && forall f: nat :: f in remaining <==> f < findings && f !in Used(pairs)
  }

  lemma TakingFirstIsFirstFit(matches: (nat, nat) -> bool, findings: nat, pairs: Pairing, remaining: seq<nat>, e: nat,
                              at: Option<nat>)
    requires Leftover(findings, pairs, remaining)
    requires forall d :: d in pairs ==> d < e
    requires at.Some? ==> at.value < |remaining| && matches(e, remaining[at.value])
    requires forall i :: 0 <= i < (if at.Some? then at.value else |remaining|) ==> !matches(e, remaining[i])
    ensures FirstFit(matches, findings, if at.Some? then pairs[e := remaining[at.value]] else pairs, e)
  {
    var next := if at.Some? then pairs[e := remaining[at.value]] else pairs;
    forall f | 0 <= f < (if at.Some? then remaining[at.value] else findings) && matches(e, f)
      ensures TakenBefore(next, e, f)
    {
      if at.Some? {
        assert remaining[at.value] in remaining;
      }
      assert forall i :: 0 <= i < |remaining| ==> remaining[i] != f;
      assert f !in remaining && f in Used(pairs);
      var d: nat :| d in pairs && pairs[d] == f;
      assert next[d] == f;
    }
    if at.Some? {
      assert remaining[at.value] in remaining;
      assert remaining[at.value] !in Used(pairs);
    }
  }

  lemma LaterPairsKeepFirstFit(matches: (nat, nat) -> bool, findings: nat, pairs: Pairing, next: Pairing, e: nat, last: nat)
    requires FirstFit(matches, findings, pairs, e) && e < last && last !in pairs
    requires next == pairs || (last in next && next == pairs[last := next[last]])
    ensures FirstFit(matches, findings, next, e)
  {
    forall f
      ensures TakenBefore(pairs, e, f) <==> TakenBefore(next, e, f)
    {
      if d: nat :| d in pairs && d < e && pairs[d] == f {
        assert next[d] == f;
      }
      if d: nat :| d in next && d < e && next[d] == f {
        assert pairs[d] == f;
      }
    }
  }

  lemma TakingKeepsLeftover(findings: nat, pairs: Pairing, remaining: seq<nat>, e: nat, at: nat)
    requires Leftover(findings, pairs, remaining) && e !in pairs && at < |remaining|
    ensures Leftover(findings, pairs[e := remaining[at]], remaining[..at] + remaining[at + 1..])
  {
    var next, rest := pairs[e := remaining[at]], remaining[..at] + remaining[at + 1..];
    assert forall i :: 0 <= i < |rest| ==> rest[i] == remaining[if i < at then i else i + 1];
    assert forall d :: d in pairs ==> d in next && next[d] == pairs[d];
    forall f
      ensures f in Used(next) <==> f in Used(pairs) || f == remaining[at]
    {
      if f in Used(pairs) {
        var d: nat :| d in pairs && pairs[d] == f;
        assert next[d] == f;
      }
      assert next[e] == remaining[at];
    }
    forall f
      ensures f in rest <==> f in remaining && f != remaining[at]
    {
      if f in remaining && f != remaining[at] {
        var i :| 0 <= i < |remaining| && remaining[i] == f;
        assert rest[if i < at then i else i - 1] == f;
      }
    }
  }

  ghost function IdsOf(expected: seq<Expectation>, positions: set<nat>): set<string> {
    set e | e in positions && e < |expected| :: expected[e].id
  }

  ghost function MissedPositions(expected: nat, pairs: Pairing): set<nat> {
    set e: nat | e < expected && e !in pairs
  }

  /** The three results report one greedy pairing. */
  ghost predicate ReportsGreedy(expected: seq<Expectation>, findings: seq<Finding>, matches: (Expectation, Finding) -> bool,
                                matched: set<string>, missed: set<string>, leftover: seq<Finding>)
  {
    exists pairs: Pairing, remaining: seq<nat> ::
      && IsGreedy(ByPosition(matches, expected, findings), |expected|, |findings|, pairs)
      && matched == IdsOf(expected, pairs.Keys) && missed == IdsOf(expected, MissedPositions(|expected|, pairs))
      && Leftover(|findings|, pairs, remaining) && leftover == Picked(findings, remaining)
  }

  method MatchFindings(expected: seq<Expectation>, findings: seq<Finding>, matches: (Expectation, Finding) -> bool)
    returns (matched: set<string>, missed: set<string>, leftover: seq<Finding>)
    ensures ReportsGreedy(expected, findings, matches, matched, missed, leftover)
  {
    var test := ByPosition(matches, expected, findings);
    var remaining := Range(|findings|);
    matched, missed := {}, {};
    ghost var pairs: Pairing := map[];
    for e := 0 to |expected|
      invariant Leftover(|findings|, pairs, remaining)
      invariant IsGreedy(test, e, |findings|, pairs)
      invariant matched == IdsOf(expected, pairs.Keys)
      invariant missed == IdsOf(expected, MissedPositions(e, pairs))
    {
      var at := FirstMatch(test, e, remaining);
      ghost var before := pairs;
      TakingFirstIsFirstFit(test, |findings|, pairs, remaining, e, at);
      if at.Some? {
        TakingKeepsLeftover(|findings|, pairs, remaining, e, at.value);
        pairs := pairs[e := remaining[at.value]];
        remaining := remaining[..at.value] + remaining[at.value + 1..];
        assert pairs.Keys == before.Keys + {e};
        assert MissedPositions(e + 1, pairs) == MissedPositions(e, before);
        matched := matched + {expected[e].id};
      } else {
        assert MissedPositions(e + 1, pairs) == MissedPositions(e, before) + {e};
        missed := missed + {expected[e].id};
      }
      forall d: nat | d < e
        ensures FirstFit(test, |findings|, pairs, d)
      {
        LaterPairsKeepFirstFit(test, |findings|, before, pairs, d, e);
      }
    }
    leftover := Picked(findings, remaining);
  }

  function Picked(findings: seq<Finding>, positions: seq<nat>): (picked: seq<Finding>)
    requires forall i :: 0 <= i < |positions| ==> positions[i] < |findings|
    ensures |picked| == |positions| && forall i :: 0 <= i < |picked| ==> picked[i] == findings[positions[i]]
  {
    if positions == [] then [] else
      [findings[positions[0]]] + Picked(findings, positions[1..])
  }

  // ---------------------------------------------------------------- the totals

  ghost predicate DistinctIds(expected: seq<Expectation>, positions: set<nat>) {
    forall d, e :: d in positions && e in positions && d < |expected| && e < |expected| && expected[d].id == expected[e].id ==> d == e
  }

  /** Counting by id loses nothing exactly when the ids are distinct. */
  lemma {:induction false} IdsCountIff(expected: seq<Expectation>, positions: set<nat>)
    requires forall e :: e in positions ==> e < |expected|
    ensures |IdsOf(expected, positions)| <= |positions|
    ensures |IdsOf(expected, positions)| == |positions| <==> DistinctIds(expected, positions)
  {
    if positions != {} {
      var e :| e in positions;
      var rest := positions - {e};
      IdsCountIff(expected, rest);
      assert IdsOf(expected, positions) == IdsOf(expected, rest) + {expected[e].id};
      if expected[e].id in IdsOf(expected, rest) {
        assert IdsOf(expected, positions) == IdsOf(expected, rest);
        var d :| d in rest && expected[d].id == expected[e].id;
        assert !DistinctIds(expected, positions);
      } else {
        assert DistinctIds(expected, positions) <==> DistinctIds(expected, rest);
      }
    }
  }

  lemma {:induction false} InjectiveUsedCount(pairs: Pairing)
    requires forall d, e :: d in pairs && e in pairs && pairs[d] == pairs[e] ==> d == e
    ensures |Used(pairs)| == |pairs|
  {
    UsedCount(pairs);
    InjectionCount(pairs.Keys, pairs, Used(pairs));
    assert |pairs| == |pairs.Keys|;
  }

  /** Every finding is paired or left over, never both. */
  lemma LeftoverCount(matches: (nat, nat) -> bool, expected: nat, findings: nat, pairs: Pairing, remaining: seq<nat>)
    requires IsMatching(matches, expected, findings, pairs) && Leftover(findings, pairs, remaining)
    ensures |remaining| + |pairs| == findings
  {
    InjectiveUsedCount(pairs);
    var left: set<nat> := set f | f in remaining;
    NoDuplicatesCardinality(remaining);
    forall f: nat
      ensures f in left || f in Used(pairs) <==> f < findings
    {
      assert f in left <==> f in remaining;
      if f in Used(pairs) {
        var e :| e in pairs && pairs[e] == f;
      }
    }
    PartitionCount(findings, left, Used(pairs));
  }

  lemma {:induction false} PartitionCount(n: nat, a: set<nat>, b: set<nat>)
    requires a !! b && forall k: nat :: k in a || k in b <==> k < n
    ensures |a| + |b| == n
  {
    if n == 0 {
      assert a == {} && b == {};
    } else {
      var last: nat := n - 1;
      assert last in a || last in b;
      PartitionCount(last, a - {last}, b - {last});
    }
  }

  /** True positives and false positives add up to the findings, and with the misses to the expectations, only for distinct ids. */
  lemma TotalsAddUpIff(matches: (nat, nat) -> bool, expected: seq<Expectation>, findings: nat, pairs: Pairing,
                       remaining: seq<nat>)
    requires IsGreedy(matches, |expected|, findings, pairs) && Leftover(findings, pairs, remaining)
    ensures var missed := MissedPositions(|expected|, pairs);
      && (|IdsOf(expected, pairs.Keys)| + |remaining| == findings <==> DistinctIds(expected, pairs.Keys))
      && (|IdsOf(expected, pairs.Keys)| + |IdsOf(expected, missed)| == |expected| <==>
          DistinctIds(expected, pairs.Keys) && DistinctIds(expected, missed))
  {
    GreedyIsMatching(matches, |expected|, findings, pairs);
    LeftoverCount(matches, |expected|, findings, pairs, remaining);
    var missed := MissedPositions(|expected|, pairs);
    IdsCountIff(expected, pairs.Keys);
    IdsCountIff(expected, missed);
    PartitionCount(|expected|, pairs.Keys, missed);
    assert |pairs| == |pairs.Keys|;
  }
}
