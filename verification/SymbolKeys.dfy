/** Snapshot-stable symbol keys: distinct for distinct symbols of one file. */
module SymbolKeys {
  import opened GraphSnapshot
  import opened Sequences

  datatype Symbol = Symbol(
    name: string, line: int, kind: string, qualifiedName: string, signature: string, textHash: ContentHash)
  {
    function Name(): string {
      if qualifiedName != "" then qualifiedName else name
    }

    function Identity(): (string, string) {
      (kind, Name())
    }

    function Variant(): (string, string, string) {
      (kind, Name(), signature)
    }
  }

  /** Hashing and joining the parts of a key is read as keeping them apart. */
  datatype SymbolKey = SymbolKey(path: FilePath, kind: string, name: string, duplicate: Option<(string, nat)>)

  predicate Before(entries: seq<Symbol>, i: nat, j: nat)
    requires i < |entries| && j < |entries|
  {
    entries[i].line < entries[j].line || (entries[i].line == entries[j].line && i < j)
  }

  ghost function Twins(entries: seq<Symbol>, identity: (string, string)): set<nat> {
    set j: nat | j < |entries| && entries[j].Identity() == identity
  }

  /** Earlier symbols of the same kind, name and signature. */
  ghost function Predecessors(entries: seq<Symbol>, i: nat): set<nat>
    requires i < |entries|
  {
    set j: nat | j < |entries| && entries[j].Variant() == entries[i].Variant() && Before(entries, j, i)
  }

  ghost function KeyAt(path: FilePath, entries: seq<Symbol>, i: nat): SymbolKey
    requires i < |entries|
  {
    var e := entries[i];
    SymbolKey(path, e.kind, e.Name(),
              if |Twins(entries, e.Identity())| > 1 then Some((e.signature, |Predecessors(entries, i)|)) else None)
  }

  /** No two symbols of a file share a key, whatever their names, kinds, signatures and lines. */
  lemma KeysAreInjective(path: FilePath, entries: seq<Symbol>, i: nat, j: nat)
    requires i < |entries| && j < |entries| && KeyAt(path, entries, i) == KeyAt(path, entries, j)
    ensures i == j
  {
    if i != j {
      var twins := Twins(entries, entries[i].Identity());
      assert {i, j} <= twins;
      SubsetCardinality({i, j}, twins);
      if Before(entries, i, j) {
        EarlierRanksLower(entries, i, j);
      } else {
        EarlierRanksLower(entries, j, i);
      }
    }
  }

  lemma EarlierRanksLower(entries: seq<Symbol>, i: nat, j: nat)
    requires i < |entries| && j < |entries| && Before(entries, i, j)
    requires entries[i].Variant() == entries[j].Variant()
    ensures |Predecessors(entries, i)| < |Predecessors(entries, j)|
  {
    assert Predecessors(entries, i) + {i} <= Predecessors(entries, j);
    assert i !in Predecessors(entries, i);
    SubsetCardinality(Predecessors(entries, i) + {i}, Predecessors(entries, j));
  }

  lemma SubsetCardinality<T>(a: set<T>, b: set<T>)
    requires a <= b
    ensures |a| <= |b|
  {
    assert b == a + (b - a);
  }

  // ---------------------------------------------------------------- the counting loops

  ghost predicate SortedIndices(entries: seq<Symbol>, order: seq<nat>) {
    && (forall k :: 0 <= k < |order| ==> order[k] < |entries|)
    && (forall a, b :: 0 <= a < b < |order| ==> Before(entries, order[a], order[b]))
  }

  /** Positions sorted by line; positions on one line keep their order. */
  method SortByLine(entries: seq<Symbol>) returns (order: seq<nat>)
    ensures SortedIndices(entries, order) && |order| == |entries|
    ensures forall i: nat :: i < |entries| <==> i in order
  {
    order := [];
    for n := 0 to |entries|
      invariant SortedIndices(entries, order) && |order| == n
      invariant forall i: nat :: i < n <==> i in order
    {
      var at := |order|;
      while at > 0 && entries[n].line < entries[order[at - 1]].line
        invariant 0 <= at <= |order|
        invariant forall k :: at <= k < |order| ==> Before(entries, n, order[k])
      {
        at := at - 1;
      }
      InsertKeepsSorted(entries, order, at, n);
      order := order[..at] + [n] + order[at..];
    }
  }

  lemma InsertKeepsSorted(entries: seq<Symbol>, order: seq<nat>, at: nat, n: nat)
    requires SortedIndices(entries, order) && at <= |order| && n < |entries|
    requires forall i: nat :: i in order <==> i < n
    requires forall k :: at <= k < |order| ==> Before(entries, n, order[k])
    requires at > 0 ==> entries[order[at - 1]].line <= entries[n].line
    ensures SortedIndices(entries, order[..at] + [n] + order[at..])
    ensures forall i: nat :: i in order[..at] + [n] + order[at..] <==> i < n + 1
  {
    InsertedMembers(order, at, n);
    forall k | 0 <= k < at
      ensures Before(entries, order[k], n)
    {
      assert order[k] in order;
      if k < at - 1 { assert Before(entries, order[k], order[at - 1]); }
    }
  }

  lemma InsertedMembers(order: seq<nat>, at: nat, n: nat)
    requires at <= |order|
    ensures forall i: nat :: i in order[..at] + [n] + order[at..] <==> i in order || i == n
  {
    assert order == order[..at] + order[at..];
  }

  function CountAt<K>(counts: map<K, nat>, k: K): nat {
    if k in counts then counts[k] else 0
  }

  /** How often each identity or variant occurs among the first positions of an order. */
  ghost function Seen<K>(entries: seq<Symbol>, order: seq<nat>, of: Symbol -> K, k: K): set<nat>
    requires forall n :: 0 <= n < |order| ==> order[n] < |entries|
  {
    set n | 0 <= n < |order| && of(entries[order[n]]) == k :: order[n]
  }

  lemma SeenGrows<K>(entries: seq<Symbol>, order: seq<nat>, of: Symbol -> K, n: nat, k: K)
    requires SortedIndices(entries, order) && n < |order|
    ensures |Seen(entries, order[..n + 1], of, k)| ==
            |Seen(entries, order[..n], of, k)| + if of(entries[order[n]]) == k then 1 else 0
  {
    var was, now := Seen(entries, order[..n], of, k), Seen(entries, order[..n + 1], of, k);
    forall x
      ensures x in now <==> x in was || (x == order[n] && of(entries[order[n]]) == k)
    {
      if x in now {
        var m :| 0 <= m < n + 1 && order[m] == x && of(entries[order[m]]) == k;
        if m < n { assert order[..n][m] == x; }
      }
      if x in was {
        var m :| 0 <= m < n && order[..n][m] == x;
        assert order[..n + 1][m] == x;
      }
      assert order[..n + 1][n] == order[n];
    }
    forall m | 0 <= m < n
      ensures order[m] != order[n]
    {
      assert Before(entries, order[m], order[n]);
    }
    if of(entries[order[n]]) == k {
      assert now == was + {order[n]};
    } else {
      assert now == was;
    }
  }

  function IdentityOf(): Symbol -> (string, string) {
    (s: Symbol) => s.Identity()
  }

  function VariantOf(): Symbol -> (string, string, string) {
    (s: Symbol) => s.Variant()
  }

  method CountIdentities(entries: seq<Symbol>, order: seq<nat>) returns (counts: map<(string, string), nat>)
    requires SortedIndices(entries, order)
    ensures forall k :: CountAt(counts, k) == |Seen(entries, order, IdentityOf(), k)|
  {
    counts := map[];
    for n := 0 to |order|
      invariant forall k :: CountAt(counts, k) == |Seen(entries, order[..n], IdentityOf(), k)|
    {
      var identity := entries[order[n]].Identity();
      forall k
        ensures |Seen(entries, order[..n + 1], IdentityOf(), k)| ==
                |Seen(entries, order[..n], IdentityOf(), k)| + if k == identity then 1 else 0
      {
        SeenGrows(entries, order, IdentityOf(), n, k);
      }
      ghost var before := counts;
      counts := counts[identity := CountAt(counts, identity) + 1];
      forall k
        ensures CountAt(counts, k) == |Seen(entries, order[..n + 1], IdentityOf(), k)|
      {
        assert CountAt(before, k) == |Seen(entries, order[..n], IdentityOf(), k)|;
      }
    }
    assert order[..|order|] == order;
  }

  method StableSymbolKeys(path: FilePath, entries: seq<Symbol>) returns (keys: map<nat, SymbolKey>)
    ensures forall i: nat :: i in keys <==> i < |entries|
    ensures forall i: nat :: i < |entries| ==> keys[i] == KeyAt(path, entries, i)
  {
    var order := SortByLine(entries);
    var counts := CountIdentities(entries, order);
    var occurrences: map<(string, string, string), nat> := map[];
    keys := map[];
    for n := 0 to |order|
      invariant forall k :: DuplicatesCounted(entries, order, n, occurrences, counts, k)
      invariant forall i: nat :: i in keys <==> i in order[..n]
      invariant forall i: nat :: i in keys ==> i < |entries| && keys[i] == KeyAt(path, entries, i)
    {
      var i := order[n];
      var e := entries[i];
      forall k
        ensures |Seen(entries, order[..n + 1], VariantOf(), k)| ==
                |Seen(entries, order[..n], VariantOf(), k)| + if k == e.Variant() then 1 else 0
      {
        SeenGrows(entries, order, VariantOf(), n, k);
      }
      SeenAreTwins(entries, order, e.Identity());
      SeenArePredecessors(entries, order, n);
      assert DuplicatesCounted(entries, order, n, occurrences, counts, e.Variant());
      ghost var before := occurrences;
      var duplicate := None;
      if CountAt(counts, e.Identity()) > 1 {
        duplicate := Some((e.signature, CountAt(occurrences, e.Variant())));
        occurrences := occurrences[e.Variant() := CountAt(occurrences, e.Variant()) + 1];
      }
      ghost var next := n + 1;
      forall k
        ensures DuplicatesCounted(entries, order, next, occurrences, counts, k)
      {
        assert DuplicatesCounted(entries, order, n, before, counts, k);
      }
      keys := keys[i := SymbolKey(path, e.kind, e.Name(), duplicate)];
      assert order[..n + 1] == order[..n] + [i];
    }
    assert order[..|order|] == order;
  }

  /** Only variants of a repeated identity are counted. */
  ghost predicate DuplicatesCounted(entries: seq<Symbol>, order: seq<nat>, n: nat,
                                    occurrences: map<(string, string, string), nat>, counts: map<(string, string), nat>,
                                    variant: (string, string, string))
    requires SortedIndices(entries, order) && n <= |order|
  {
    CountAt(counts, (variant.0, variant.1)) > 1 ==>
      CountAt(occurrences, variant) == |Seen(entries, order[..n], VariantOf(), variant)|
  }

  lemma SeenAreTwins(entries: seq<Symbol>, order: seq<nat>, identity: (string, string))
    requires SortedIndices(entries, order)
    requires forall i: nat :: i < |entries| <==> i in order
    ensures Seen(entries, order, IdentityOf(), identity) == Twins(entries, identity)
  {
    forall j | j in Twins(entries, identity)
      ensures j in Seen(entries, order, IdentityOf(), identity)
    {
      assert j in order;
      var n :| 0 <= n < |order| && order[n] == j;
    }
  }

  lemma SeenArePredecessors(entries: seq<Symbol>, order: seq<nat>, n: nat)
    requires SortedIndices(entries, order) && n < |order|
    requires forall i: nat :: i < |entries| <==> i in order
    ensures Seen(entries, order[..n], VariantOf(), entries[order[n]].Variant()) == Predecessors(entries, order[n])
  {
    var variant := entries[order[n]].Variant();
    forall m | n <= m < |order|
      ensures !Before(entries, order[m], order[n])
    {
      assert m > n ==> Before(entries, order[n], order[m]);
    }
    forall j | j in Predecessors(entries, order[n])
      ensures j in Seen(entries, order[..n], VariantOf(), variant)
    {
      assert j in order;
      var m :| 0 <= m < |order| && order[m] == j;
      assert order[..n][m] == j;
    }
    forall j | j in Seen(entries, order[..n], VariantOf(), variant)
      ensures j in Predecessors(entries, order[n])
    {
      var m :| 0 <= m < n && order[..n][m] == j;
      assert Before(entries, order[m], order[n]);
    }
  }
}
