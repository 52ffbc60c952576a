/** Greedy partition of a workset's evidence slices under a slice count and a serialized-size budget. */
module WorksetBatches {
  import opened GraphSnapshot

  /** A serialized slice is a JSON object, so it takes at least two characters. */
  type Size = n: nat | n >= 2 witness 2

  datatype Slice = Slice(id: string, size: Size)

  /** `fixedSize` counts the keys, identifiers and punctuation every batch repeats. */
  datatype Workset = Workset(fixedSize: nat, slices: seq<Slice>)

  datatype Limits = Limits(maxSlices: int, maxCharacters: int)

  datatype Batch = Batch(index: nat, count: nat, slices: seq<Slice>, total: nat, remaining: nat, isFinal: bool)

  datatype BatchError = LimitsNotPositive | SliceTooLarge(sliceId: string) | BudgetExceeded

  // ---------------------------------------------------------------- serialized size

  function Digits(n: nat): nat {
    if n < 10 then 1 else 1 + Digits(n / 10)
  }

  function SizeSum(slices: seq<Slice>): nat {
    if slices == [] then 0 else slices[0].size + SizeSum(slices[1..])
  }

  /** Elements and the two-character separators between them. */
  function ListSize(slices: seq<Slice>): nat {
    SizeSum(slices) + if slices == [] then 0 else 2 * (|slices| - 1)
  }

  function BatchSize(w: Workset, b: Batch): nat {
    w.fixedSize + ListSize(b.slices) + Digits(b.index) + Digits(b.count) + Digits(b.total) + Digits(b.remaining)
    + if b.isFinal then 4 else 5
  }

  /** The size assumed while partitioning: as if every slice made its own batch. */
  function Estimate(w: Workset, group: seq<Slice>, index: nat, remaining: nat): nat {
    BatchSize(w, Batch(index, |w.slices|, group, |w.slices|, remaining, remaining == 0))
  }

  lemma {:induction false} DigitsMonotone(a: nat, b: nat)
    requires a <= b
    ensures Digits(a) <= Digits(b)
  {
    if b >= 10 && a >= 10 {
      DigitsMonotone(a / 10, b / 10);
    }
  }

  lemma {:induction false} DigitsGrowSlowly(a: nat, k: nat)
    ensures Digits(a + k) <= Digits(a) + k
  {
    if k > 0 {
      DigitsGrowSlowly(a, k - 1);
      DigitsOfSuccessor(a + k - 1);
    }
  }

  lemma {:induction false} DigitsOfSuccessor(a: nat)
    ensures Digits(a + 1) <= Digits(a) + 1
  {
    if a >= 10 {
      if (a + 1) / 10 == a / 10 {
      } else {
        DigitsOfSuccessor(a / 10);
        assert (a + 1) / 10 == a / 10 + 1;
      }
    }
  }

  lemma {:induction false} SizeSumConcat(a: seq<Slice>, b: seq<Slice>)
    ensures SizeSum(a + b) == SizeSum(a) + SizeSum(b)
  {
    if a == [] {
      assert a + b == b;
    } else {
      assert (a + b)[1..] == a[1..] + b;
      SizeSumConcat(a[1..], b);
    }
  }

  lemma {:induction false} SizeSumAtLeast(s: seq<Slice>)
    ensures SizeSum(s) >= 2 * |s|
  {
    if s != [] {
      SizeSumAtLeast(s[1..]);
    }
  }

  // ---------------------------------------------------------------- partitions

  /** Slices `lo..hi` fit as batch number `index`. */
  ghost predicate Fits(w: Workset, limits: Limits, lo: nat, hi: nat, index: nat)
    requires lo < hi <= |w.slices|
  {
    hi - lo <= limits.maxSlices && Estimate(w, w.slices[lo..hi], index, |w.slices| - hi) <= limits.maxCharacters
  }

  /** Batch boundaries from the start up to the last cut, each batch fitting at its position. */
  ghost predicate FittingCuts(w: Workset, limits: Limits, cuts: seq<nat>) {
    && cuts != [] && cuts[0] == 0
    && (forall k :: 0 <= k < |cuts| ==> cuts[k] <= |w.slices|)
    && (forall k :: 0 < k < |cuts| ==> cuts[k - 1] < cuts[k])
    && (forall k: nat :: 0 < k < |cuts| ==> Fits(w, limits, cuts[k - 1], cuts[k], k - 1))
  }

  ghost predicate Partitions(w: Workset, limits: Limits, cuts: seq<nat>) {
    FittingCuts(w, limits, cuts) && cuts[|cuts| - 1] == |w.slices|
  }

  /** Every slice left out saves at least two characters. */
  lemma PartIsSmaller(s: seq<Slice>, lo: nat, hi: nat, lo': nat, hi': nat)
    requires lo <= lo' < hi' <= hi <= |s|
    ensures ListSize(s[lo'..hi']) + 2 * (hi - hi') <= ListSize(s[lo..hi])
  {
    var left, mid, right := s[lo..lo'], s[lo'..hi'], s[hi'..hi];
    assert s[lo..hi] == left + (mid + right);
    SizeSumConcat(left, mid + right);
    SizeSumConcat(mid, right);
    SizeSumAtLeast(right);
  }

  /** Part of a fitting batch fits too, at the same or an earlier position. */
  lemma PartFits(w: Workset, limits: Limits, lo: nat, hi: nat, index: nat, lo': nat, hi': nat, index': nat)
    requires lo <= lo' < hi' <= hi <= |w.slices| && index' <= index && Fits(w, limits, lo, hi, index)
    ensures Fits(w, limits, lo', hi', index')
  {
    PartIsSmaller(w.slices, lo, hi, lo', hi');
    DigitsGrowSlowly(|w.slices| - hi, hi - hi');
    DigitsMonotone(index', index);
  }

  /** No way of cutting reaches beyond `reach` with this many batches. */
  ghost predicate NobodyAhead(w: Workset, limits: Limits, batches: nat, reach: nat) {
    forall cuts :: FittingCuts(w, limits, cuts) && |cuts| - 1 <= batches ==> cuts[|cuts| - 1] <= reach
  }

  /** Closing a batch only when the next slice does not fit keeps the lead. */
  lemma LeadIsKept(w: Workset, limits: Limits, batches: nat, start: nat, next: nat)
    requires start < next < |w.slices| && NobodyAhead(w, limits, batches, start)
    requires !Fits(w, limits, start, next + 1, batches)
    ensures NobodyAhead(w, limits, batches + 1, next)
  {
    forall cuts | FittingCuts(w, limits, cuts) && |cuts| - 1 <= batches + 1
      ensures cuts[|cuts| - 1] <= next
    {
      var m := |cuts| - 1;
      if m == batches + 1 {
        var front := cuts[..m];
        assert FittingCuts(w, limits, front);
        assert cuts[m - 1] == front[m - 1] <= start;
        if cuts[m] > next {
          PartFits(w, limits, cuts[m - 1], cuts[m], m - 1, start, next + 1, m - 1);
        }
      }
    }
  }

  /** A slice that does not fit alone behind the lead rules out every partition. */
  lemma StuckSliceRulesOutPartitions(w: Workset, limits: Limits, batches: nat, stuck: nat, cuts: seq<nat>)
    requires stuck < |w.slices| && NobodyAhead(w, limits, batches, stuck)
    requires !Fits(w, limits, stuck, stuck + 1, batches)
    ensures !Partitions(w, limits, cuts)
  {
    if Partitions(w, limits, cuts) {
      var j := BatchHolding(w, limits, cuts, stuck);
      var front := cuts[..j + 2];
      assert FittingCuts(w, limits, front);
      if j >= batches {
        PartFits(w, limits, cuts[j], cuts[j + 1], j, stuck, stuck + 1, batches);
      }
    }
  }

  lemma BatchHolding(w: Workset, limits: Limits, cuts: seq<nat>, at: nat) returns (j: nat)
    requires Partitions(w, limits, cuts) && at < |w.slices|
    ensures j + 1 < |cuts| && cuts[j] <= at < cuts[j + 1]
  {
    j := 0;
    while j + 1 < |cuts| && cuts[j + 1] <= at
      invariant j < |cuts| && cuts[j] <= at
    {
      j := j + 1;
    }
  }

  // ---------------------------------------------------------------- the partitioning loop

  /** The groups so far are the batches the cuts delimit. */
  ghost predicate GroupsFollow(w: Workset, groups: seq<seq<Slice>>, cuts: seq<nat>) {
    && |cuts| == |groups| + 1
    && (forall k: nat :: 0 < k < |cuts| ==>
          cuts[k - 1] <= cuts[k] <= |w.slices| && groups[k - 1] == w.slices[cuts[k - 1]..cuts[k]])
  }

  ghost predicate FitsAlone(w: Workset, limits: Limits, at: nat, index: nat)
    requires at < |w.slices|
  {
    Fits(w, limits, at, at + 1, index)
  }

  /** The error names a slice that does not fit alone where the greedy partition would put it. */
  ghost predicate NamesOversizedSlice(w: Workset, limits: Limits, error: BatchError) {
    exists k: nat, index: nat :: index <= k < |w.slices| && error == SliceTooLarge(w.slices[k].id)
      && !FitsAlone(w, limits, k, index)
  }

  /** The closed groups hold the first `processed` slices, and no partition with as many batches is ahead. */
  ghost predicate Leading(w: Workset, limits: Limits, groups: seq<seq<Slice>>, processed: nat, cuts: seq<nat>) {
    && FittingCuts(w, limits, cuts) && cuts[|cuts| - 1] == processed
    && GroupsFollow(w, groups, cuts) && |groups| <= processed
    && NobodyAhead(w, limits, |groups|, processed)
  }

  lemma CutsExtend(w: Workset, limits: Limits, cuts: seq<nat>, next: nat)
    requires FittingCuts(w, limits, cuts) && cuts[|cuts| - 1] < next <= |w.slices|
    requires Fits(w, limits, cuts[|cuts| - 1], next, |cuts| - 1)
    ensures FittingCuts(w, limits, cuts + [next])
  {
    var grown := cuts + [next];
    forall k: nat | 0 < k < |grown|
      ensures grown[k - 1] < grown[k] && Fits(w, limits, grown[k - 1], grown[k], k - 1)
    {
      if k == |cuts| { assert grown[k - 1] == cuts[|cuts| - 1]; }
    }
  }

  lemma GroupsExtend(w: Workset, groups: seq<seq<Slice>>, cuts: seq<nat>, next: nat)
    requires GroupsFollow(w, groups, cuts) && cuts[|cuts| - 1] <= next <= |w.slices|
    ensures GroupsFollow(w, groups + [w.slices[cuts[|cuts| - 1]..next]], cuts + [next])
  {
  }

  lemma CloseGroup(w: Workset, limits: Limits, groups: seq<seq<Slice>>, processed: nat, next: nat, cuts: seq<nat>)
    requires Leading(w, limits, groups, processed, cuts)
    requires processed < next < |w.slices| && Fits(w, limits, processed, next, |groups|)
    requires !Fits(w, limits, processed, next + 1, |groups|)
    ensures Leading(w, limits, groups + [w.slices[processed..next]], next, cuts + [next])
  {
    CutsExtend(w, limits, cuts, next);
    GroupsExtend(w, groups, cuts, next);
    LeadIsKept(w, limits, |groups|, processed, next);
  }

  /** What holds before slice `at` is placed: a leading set of closed groups and a fitting open one. */
  ghost predicate Filling(w: Workset, limits: Limits, groups: seq<seq<Slice>>, current: seq<Slice>, processed: nat, at: nat,
                          cuts: seq<nat>) {
    && processed <= at <= |w.slices| && current == w.slices[processed..at]
    && Leading(w, limits, groups, processed, cuts)
    && (at > 0 ==> processed < at && Fits(w, limits, processed, at, |groups|))
  }

  /** The loop's size test is the fit of the open group with one slice more. */
  lemma FitsBehind(w: Workset, limits: Limits, open: seq<Slice>, done: nat, at: nat, index: nat)
    requires done <= at < |w.slices| && open == w.slices[done..at]
    ensures open + [w.slices[at]] == w.slices[done..at + 1]
    ensures Fits(w, limits, done, at + 1, index) <==>
      |open| < limits.maxSlices && Estimate(w, open + [w.slices[at]], index, |w.slices| - done - |open| - 1) <= limits.maxCharacters
  {
    assert open + [w.slices[at]] == w.slices[done..at + 1];
  }

  /** Places slice `at` behind the open group, or in a new one when it does not fit there. */
  method Place(w: Workset, limits: Limits, groups: seq<seq<Slice>>, current: seq<Slice>, processed: nat, at: nat,
               ghost cuts: seq<nat>)
    returns (r: Result<seq<seq<Slice>>, BatchError>, open: seq<Slice>, done: nat, ghost closed: seq<nat>)
    requires at < |w.slices| && Filling(w, limits, groups, current, processed, at, cuts) && limits.maxSlices >= 1
    ensures r.Success? ==> Filling(w, limits, r.value, open, done, at + 1, closed)
    ensures r.Failure? ==> NamesOversizedSlice(w, limits, r.error) && forall other :: !Partitions(w, limits, other)
  {
    var slice := w.slices[at];
    r, open, done, closed := MakeRoom(w, limits, groups, current, processed, at, cuts);
    if r.Failure? {
      return;
    }
    var kept := r.value;
    FitsBehind(w, limits, open, done, at, |kept|);
    if Estimate(w, open + [slice], |kept|, |w.slices| - done - |open| - 1) > limits.maxCharacters {
      Stuck(w, limits, |kept|, at);
      return Failure(SliceTooLarge(slice.id)), open, done, closed;
    }
    GroupGrows(w, limits, kept, open, done, at, closed);
    open := open + [slice];
  }

  /** Closes the open group if slice `at` does not fit behind it. */
  method MakeRoom(w: Workset, limits: Limits, groups: seq<seq<Slice>>, current: seq<Slice>, processed: nat, at: nat,
                  ghost cuts: seq<nat>)
    returns (r: Result<seq<seq<Slice>>, BatchError>, open: seq<Slice>, done: nat, ghost closed: seq<nat>)
    requires at < |w.slices| && Filling(w, limits, groups, current, processed, at, cuts) && limits.maxSlices >= 1
    ensures r.Success? ==> Leading(w, limits, r.value, done, closed) && done <= at && open == w.slices[done..at]
    ensures r.Success? && open != [] ==> Fits(w, limits, done, at + 1, |r.value|)
    ensures r.Failure? ==> NamesOversizedSlice(w, limits, r.error) && forall other :: !Partitions(w, limits, other)
  {
    open, done, closed := current, processed, cuts;
    FitsBehind(w, limits, open, done, at, |groups|);
    if |open| >= limits.maxSlices
      || Estimate(w, open + [w.slices[at]], |groups|, |w.slices| - done - |open| - 1) > limits.maxCharacters
    {
      if open == [] {
        Stuck(w, limits, |groups|, at);
        return Failure(SliceTooLarge(w.slices[at].id)), open, done, closed;
      }
      CloseGroup(w, limits, groups, done, at, closed);
      return Success(groups + [open]), [], done + |open|, closed + [at];
    }
    return Success(groups), open, done, closed;
  }

  lemma GroupGrows(w: Workset, limits: Limits, groups: seq<seq<Slice>>, open: seq<Slice>, done: nat, at: nat, cuts: seq<nat>)
    requires Leading(w, limits, groups, done, cuts) && done <= at < |w.slices| && open == w.slices[done..at]
    requires Fits(w, limits, done, at + 1, |groups|)
    ensures Filling(w, limits, groups, open + [w.slices[at]], done, at + 1, cuts)
  {
    assert open + [w.slices[at]] == w.slices[done..at + 1];
  }

  /** Files the last open group. */
  method Finish(w: Workset, limits: Limits, groups: seq<seq<Slice>>, current: seq<Slice>, processed: nat, ghost cuts: seq<nat>)
    returns (all: seq<seq<Slice>>, ghost closed: seq<nat>)
    requires Filling(w, limits, groups, current, processed, |w.slices|, cuts)
    ensures Partitions(w, limits, closed) && GroupsFollow(w, all, closed)
    ensures forall other :: Partitions(w, limits, other) ==> |closed| <= |other|
  {
    all, closed := groups, cuts;
    if current != [] {
      CutsExtend(w, limits, cuts, |w.slices|);
      GroupsExtend(w, groups, cuts, |w.slices|);
      all, closed := groups + [current], cuts + [|w.slices|];
    }
  }

  method Partition(w: Workset, limits: Limits) returns (r: Result<seq<seq<Slice>>, BatchError>, ghost cuts: seq<nat>)
    requires limits.maxSlices >= 1 && limits.maxCharacters >= 1
    ensures r.Success? ==> Partitions(w, limits, cuts) && GroupsFollow(w, r.value, cuts)
    ensures r.Success? ==> forall other :: Partitions(w, limits, other) ==> |cuts| <= |other|
    ensures r.Failure? ==> NamesOversizedSlice(w, limits, r.error) && forall other :: !Partitions(w, limits, other)
  {
    var groups: seq<seq<Slice>>, current: seq<Slice>, processed := [], [], 0;
    cuts := [0];
    for i := 0 to |w.slices|
      invariant Filling(w, limits, groups, current, processed, i, cuts)
    {
      r, current, processed, cuts := Place(w, limits, groups, current, processed, i, cuts);
      if r.Failure? {
        return;
      }
      groups := r.value;
    }
    groups, cuts := Finish(w, limits, groups, current, processed, cuts);
    return Success(groups), cuts;
  }

  lemma Stuck(w: Workset, limits: Limits, batches: nat, at: nat)
    requires at < |w.slices| && NobodyAhead(w, limits, batches, at) && !FitsAlone(w, limits, at, batches)
    requires batches <= at
    ensures NamesOversizedSlice(w, limits, SliceTooLarge(w.slices[at].id))
    ensures forall other :: !Partitions(w, limits, other)
  {
    forall other
      ensures !Partitions(w, limits, other)
    {
      StuckSliceRulesOutPartitions(w, limits, batches, at, other);
    }
  }

  // ---------------------------------------------------------------- the batches

  ghost function AllSlices(batches: seq<Batch>): seq<Slice> {
    if batches == [] then [] else AllSlices(batches[..|batches| - 1]) + batches[|batches| - 1].slices
  }

  /** What every batch of a partition says about itself. */
  ghost predicate DescribesItself(w: Workset, limits: Limits, batches: seq<Batch>, k: nat)
    requires k < |batches|
  {
    var b := batches[k];
    && b.slices != [] && |b.slices| <= limits.maxSlices && BatchSize(w, b) <= limits.maxCharacters
    && b.index == k && b.count == |batches| && b.total == |w.slices|
    && b.remaining + |AllSlices(batches[..k + 1])| == |w.slices|
    && (b.isFinal <==> k == |batches| - 1) && (b.isFinal <==> b.remaining == 0)
  }

  /** Batch `k` of a partition, as it is finally written. */
  function BatchAt(w: Workset, groups: seq<seq<Slice>>, processed: nat, k: nat): Batch
    requires k < |groups| && processed <= |w.slices|
  {
    Batch(k, |groups|, groups[k], |w.slices|, |w.slices| - processed, k == |groups| - 1)
  }

  /** The written size never exceeds the size assumed while partitioning, so the closing check cannot fail. */
  lemma WrittenSizeIsWithinEstimate(w: Workset, limits: Limits, groups: seq<seq<Slice>>, cuts: seq<nat>, k: nat)
    requires Partitions(w, limits, cuts) && GroupsFollow(w, groups, cuts) && k < |groups|
    ensures BatchSize(w, BatchAt(w, groups, cuts[k + 1], k)) <= limits.maxCharacters
    ensures groups[k] != [] && |groups[k]| <= limits.maxSlices
    ensures k == |groups| - 1 <==> cuts[k + 1] == |w.slices|
  {
    var next := k + 1;
    assert Fits(w, limits, cuts[next - 1], cuts[next], next - 1);
    assert groups[next - 1] == w.slices[cuts[next - 1]..cuts[next]];
    CutsAreAtLeastPositions(w, limits, cuts, |cuts| - 1);
    CutsIncrease(w, limits, cuts, next, |cuts| - 1);
    DigitsMonotone(|groups|, |w.slices|);
  }

  lemma {:induction false} CutsAreAtLeastPositions(w: Workset, limits: Limits, cuts: seq<nat>, k: nat)
    requires FittingCuts(w, limits, cuts) && k < |cuts|
    ensures k <= cuts[k]
  {
    if k > 0 {
      CutsAreAtLeastPositions(w, limits, cuts, k - 1);
    }
  }

  lemma {:induction false} CutsIncrease(w: Workset, limits: Limits, cuts: seq<nat>, a: nat, b: nat)
    requires FittingCuts(w, limits, cuts) && a <= b < |cuts|
    ensures a < b ==> cuts[a] < cuts[b]
  {
    if a < b {
      CutsIncrease(w, limits, cuts, a, b - 1);
    }
  }

  ghost predicate Written(w: Workset, groups: seq<seq<Slice>>, cuts: seq<nat>, batches: seq<Batch>)
    requires |cuts| == |groups| + 1 && |batches| <= |groups|
    requires forall k :: 0 <= k < |cuts| ==> cuts[k] <= |w.slices|
  {
    forall m: nat :: m < |batches| ==> batches[m] == BatchAt(w, groups, cuts[m + 1], m)
  }

  lemma {:induction false} WrittenBatchesConcatenate(w: Workset, limits: Limits, groups: seq<seq<Slice>>, cuts: seq<nat>,
                                                     batches: seq<Batch>)
    requires FittingCuts(w, limits, cuts) && GroupsFollow(w, groups, cuts) && |batches| <= |groups|
    requires Written(w, groups, cuts, batches)
    ensures AllSlices(batches) == w.slices[..cuts[|batches|]]
  {
    if batches != [] {
      var last := |batches|;
      WrittenBatchesConcatenate(w, limits, groups, cuts, batches[..last - 1]);
      assert batches[last - 1] == BatchAt(w, groups, cuts[last], last - 1);
      assert groups[last - 1] == w.slices[cuts[last - 1]..cuts[last]];
      assert w.slices[..cuts[last]] == w.slices[..cuts[last - 1]] + groups[last - 1];
    }
  }

  lemma WrittenBatchesDescribeThemselves(w: Workset, limits: Limits, groups: seq<seq<Slice>>, cuts: seq<nat>,
                                         batches: seq<Batch>, k: nat)
    requires Partitions(w, limits, cuts) && GroupsFollow(w, groups, cuts) && |batches| == |groups| && k < |batches|
    requires Written(w, groups, cuts, batches)
    ensures DescribesItself(w, limits, batches, k)
  {
    WrittenSizeIsWithinEstimate(w, limits, groups, cuts, k);
    WrittenBatchesConcatenate(w, limits, groups, cuts, batches[..k + 1]);
    assert batches[k] == BatchAt(w, groups, cuts[k + 1], k);
  }

  /** Writes the batches out; the closing size check is there, and never fails. */
  method WriteBatches(w: Workset, limits: Limits, groups: seq<seq<Slice>>, ghost cuts: seq<nat>)
    returns (r: Result<seq<Batch>, BatchError>)
    requires Partitions(w, limits, cuts) && GroupsFollow(w, groups, cuts)
    ensures r.Success? && |r.value| == |groups| && Written(w, groups, cuts, r.value)
  {
    var batches: seq<Batch> := [];
    var processed := 0;
    for k := 0 to |groups|
      invariant |batches| == k && processed == cuts[k]
      invariant Written(w, groups, cuts, batches)
    {
      WrittenSizeIsWithinEstimate(w, limits, groups, cuts, k);
      ghost var next: nat := k + 1;
      assert cuts[next] <= |w.slices| && groups[next - 1] == w.slices[cuts[next - 1]..cuts[next]];
      processed := processed + |groups[k]|;
      var batch := BatchAt(w, groups, processed, k);
      if BatchSize(w, batch) > limits.maxCharacters {
        return Failure(BudgetExceeded);
      }
      batches := batches + [batch];
    }
    return Success(batches);
  }

  method Batches(w: Workset, limits: Limits) returns (r: Result<seq<Batch>, BatchError>)
    ensures r == Failure(LimitsNotPositive) <==> limits.maxSlices < 1 || limits.maxCharacters < 1
    ensures r != Failure(BudgetExceeded)
    ensures limits.maxSlices >= 1 && limits.maxCharacters >= 1 ==>
      (r.Success? <==> exists cuts :: Partitions(w, limits, cuts))
    ensures r.Success? ==>
      && AllSlices(r.value) == w.slices
      && (forall k :: 0 <= k < |r.value| ==> DescribesItself(w, limits, r.value, k))
      && (forall cuts :: Partitions(w, limits, cuts) ==> |r.value| <= |cuts| - 1)
    ensures r.Failure? && r.error != LimitsNotPositive ==> NamesOversizedSlice(w, limits, r.error)
  {
    if limits.maxSlices < 1 || limits.maxCharacters < 1 {
      return Failure(LimitsNotPositive);
    }
    var partition, cuts := Partition(w, limits);
    if partition.Failure? {
      return Failure(partition.error);
    }
    r := WriteBatches(w, limits, partition.value, cuts);
    forall k | 0 <= k < |r.value|
      ensures DescribesItself(w, limits, r.value, k)
    {
      WrittenBatchesDescribeThemselves(w, limits, partition.value, cuts, r.value, k);
    }
    WrittenBatchesConcatenate(w, limits, partition.value, cuts, r.value);
    assert w.slices[..|w.slices|] == w.slices;
  }

  // ---------------------------------------------------------------- how conservative the estimate is

  /** Boundaries of non-empty batches from the first slice to the last. */
  ghost predicate IsCutting(w: Workset, cuts: seq<nat>) {
    && cuts != [] && cuts[0] == 0 && cuts[|cuts| - 1] == |w.slices|
    && (forall k :: 0 <= k < |cuts| ==> cuts[k] <= |w.slices|)
    && (forall k :: 0 < k < |cuts| ==> cuts[k - 1] < cuts[k])
  }

  /** Batch `k` of a cutting, as it would be written. */
  function PartOf(w: Workset, cuts: seq<nat>, k: nat): Batch
    requires k + 1 < |cuts| && cuts[k] <= cuts[k + 1] <= |w.slices|
  {
    Batch(k, |cuts| - 1, w.slices[cuts[k]..cuts[k + 1]], |w.slices|, |w.slices| - cuts[k + 1], k == |cuts| - 2)
  }

  /** Batch `k` meets both limits with `slack` characters to spare. */
  ghost predicate HasRoom(w: Workset, limits: Limits, cuts: seq<nat>, slack: int, k: nat)
    requires IsCutting(w, cuts) && k + 1 < |cuts|
  {
    cuts[k + 1] - cuts[k] <= limits.maxSlices && BatchSize(w, PartOf(w, cuts, k)) + slack <= limits.maxCharacters
  }

  ghost predicate AllHaveRoom(w: Workset, limits: Limits, cuts: seq<nat>, slack: int)
    requires IsCutting(w, cuts)
  {
    forall k: nat :: k + 1 < |cuts| ==> HasRoom(w, limits, cuts, slack, k)
  }

  /** Partitioning asks for room for the digits that the slice count has more than the batch count, no more and no less. */
  lemma AcceptedIffRoomForDigits(w: Workset, limits: Limits, cuts: seq<nat>)
    ensures Partitions(w, limits, cuts) <==>
            IsCutting(w, cuts) && AllHaveRoom(w, limits, cuts, Digits(|w.slices|) - Digits(|cuts| - 1))
  {
    if IsCutting(w, cuts) {
      CuttingIsAcceptedIff(w, limits, cuts);
    }
  }

  lemma CuttingIsAcceptedIff(w: Workset, limits: Limits, cuts: seq<nat>)
    requires IsCutting(w, cuts)
    ensures Partitions(w, limits, cuts) <==> AllHaveRoom(w, limits, cuts, Digits(|w.slices|) - Digits(|cuts| - 1))
  {
    var slack := Digits(|w.slices|) - Digits(|cuts| - 1);
    if AllHaveRoom(w, limits, cuts, slack) {
      forall k: nat | 0 < k < |cuts|
        ensures Fits(w, limits, cuts[k - 1], cuts[k], k - 1)
      {
        RoomIsFit(w, limits, cuts, k - 1);
      }
    }
    if Partitions(w, limits, cuts) {
      forall k: nat | k + 1 < |cuts|
        ensures HasRoom(w, limits, cuts, slack, k)
      {
        var next: nat := k + 1;
        assert Fits(w, limits, cuts[next - 1], cuts[next], next - 1);
        RoomIsFit(w, limits, cuts, k);
      }
    }
  }

  lemma RoomIsFit(w: Workset, limits: Limits, cuts: seq<nat>, k: nat)
    requires IsCutting(w, cuts) && k + 1 < |cuts|
    ensures HasRoom(w, limits, cuts, Digits(|w.slices|) - Digits(|cuts| - 1), k) <==> Fits(w, limits, cuts[k], cuts[k + 1], k)
  {
    assert k < |cuts| - 2 ==> cuts[k + 1] < cuts[k + 2];
  }

  /** Batches that leave one character less than the digits of the slice count are never refused. */
  method SlackIsAccepted(w: Workset, limits: Limits, ghost cuts: seq<nat>) returns (r: Result<seq<Batch>, BatchError>)
    requires limits.maxSlices >= 1 && limits.maxCharacters >= 1
    requires IsCutting(w, cuts) && AllHaveRoom(w, limits, cuts, Digits(|w.slices|) - 1)
    ensures r.Success? && |r.value| <= |cuts| - 1
  {
    AcceptedIffRoomForDigits(w, limits, cuts);
    var slack := Digits(|w.slices|) - Digits(|cuts| - 1);
    forall k: nat | k + 1 < |cuts|
      ensures HasRoom(w, limits, cuts, slack, k)
    {
      assert HasRoom(w, limits, cuts, Digits(|w.slices|) - 1, k);
    }
    r := Batches(w, limits);
  }

  /**
    The estimate is conservative: a budget that the written batches would meet exactly can be refused,
    because a slice that must open a batch is charged for a longer batch count.
   */
  lemma TightBudgetIsRefused()
    ensures exists w: Workset, limits: Limits ::
      && |w.slices| == 10 && (forall cuts :: !Partitions(w, limits, cuts))
      && BatchSize(w, Batch(0, 2, w.slices[..1], 10, 9, false)) <= limits.maxCharacters
      && BatchSize(w, Batch(1, 2, w.slices[1..], 10, 0, true)) <= limits.maxCharacters
  {
    var big, small := Slice("big", 200), Slice("small", 2);
    var w := Workset(0, [big] + seq(9, _ => small));
    var limits := Limits(10, BatchSize(w, Batch(0, 2, w.slices[..1], 10, 9, false)));
    assert w.slices[..1] == [big] && w.slices[1..] == seq(9, _ => small);
    assert SizeSum(w.slices[..1]) == 200 by { assert [big][1..] == []; }
    SameSizes(small, 9);
    assert !Fits(w, limits, 0, 1, 0) by { assert w.slices[0..1] == w.slices[..1]; }
    forall cuts
      ensures !Partitions(w, limits, cuts)
    {
      if Partitions(w, limits, cuts) {
        var first: nat := 1;
        assert Fits(w, limits, cuts[first - 1], cuts[first], first - 1);
        PartFits(w, limits, 0, cuts[1], 0, 0, 1, 0);
      }
    }
  }

  lemma {:induction false} SameSizes(slice: Slice, n: nat)
    ensures SizeSum(seq(n, _ => slice)) == n * slice.size
  {
    if n > 0 {
      assert seq(n, _ => slice)[1..] == seq(n - 1, _ => slice);
      SameSizes(slice, n - 1);
    }
  }
}
