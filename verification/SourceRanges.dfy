/** Line-range subtraction, and review regions for the uncovered part of every indexed route. */
module SourceRanges {
  import opened GraphSnapshot
  import opened Sequences

  // ---------------------------------------------------------------- subtracting ranges

  /** An inclusive range of lines; it is empty when `last` precedes `first`. */
  datatype LineRange = LineRange(first: int, last: int)

  predicate Has(r: LineRange, line: int) {
    r.first <= line <= r.last
  }

  ghost predicate Covers(ranges: seq<LineRange>, line: int) {
    exists r :: r in ranges && Has(r, line)
  }

  predicate Proper(ranges: seq<LineRange>) {
    forall k :: 0 <= k < |ranges| ==> ranges[k].first <= ranges[k].last
  }

  /** In order, and no two ranges share a line. */
  predicate Separated(ranges: seq<LineRange>) {
    forall i, j :: 0 <= i < j < |ranges| ==> ranges[i].last < ranges[j].first
  }

  /** One of the ranges holds all of `first..last`. */
  ghost predicate Spans(ranges: seq<LineRange>, first: int, last: int) {
    exists r :: r in ranges && r.first <= first && last <= r.last
  }

  /** What one covered range leaves of another. */
  function Cut(r: LineRange, c: LineRange): seq<LineRange> {
    if c.last < r.first || c.first > r.last then [r]
    else
      (if c.first > r.first then [LineRange(r.first, c.first - 1)] else [])
      + (if c.last < r.last then [LineRange(c.last + 1, r.last)] else [])
  }

  /** An inverted covered range whose ends lie inside `r` leaves two pieces that share lines. */
  predicate Doubles(r: LineRange, c: LineRange) {
    r.first <= c.last && c.last + 1 < c.first && c.first <= r.last
  }

  /** A piece keeps `first..last` whole exactly when the cut lies on one side of it. */
  lemma CutIsExact(r: LineRange, c: LineRange, first: int, last: int)
    requires first <= last
    ensures Spans(Cut(r, c), first, last) <==> r.first <= first && last <= r.last && (c.last < first || last < c.first)
    ensures r.first <= r.last ==> Proper(Cut(r, c))
    ensures r.first <= r.last ==> (Separated(Cut(r, c)) <==> !Doubles(r, c))
  {
    var low, high := LineRange(r.first, c.first - 1), LineRange(c.last + 1, r.last);
    assert forall x :: x in Cut(r, c) ==> x == r || x == low || x == high;
    if !(c.last < r.first || c.first > r.last) {
      assert c.first > r.first ==> low in Cut(r, c);
      assert c.last < r.last ==> high in Cut(r, c);
      if Doubles(r, c) {
        assert Cut(r, c) == [low, high];
      }
    } else {
      assert r in Cut(r, c);
    }
  }

  function Cuts(ranges: seq<LineRange>, c: LineRange): seq<LineRange> {
    if ranges == [] then [] else Cuts(ranges[..|ranges| - 1], c) + Cut(ranges[|ranges| - 1], c)
  }

  method CutAll(remaining: seq<LineRange>, c: LineRange) returns (next: seq<LineRange>)
    ensures next == Cuts(remaining, c)
  {
    next := [];
    for k := 0 to |remaining|
      invariant next == Cuts(remaining[..k], c)
    {
      next := next + Cut(remaining[k], c);
      assert remaining[..k + 1][..k] == remaining[..k];
    }
    assert remaining[..|remaining|] == remaining;
  }

  lemma SpansConcat(a: seq<LineRange>, b: seq<LineRange>, first: int, last: int)
    ensures Spans(a + b, first, last) <==> Spans(a, first, last) || Spans(b, first, last)
  {
    assert forall r :: r in a + b <==> r in a || r in b;
  }

  lemma {:induction false} CutsAreExact(ranges: seq<LineRange>, c: LineRange, first: int, last: int)
    requires first <= last
    ensures Spans(Cuts(ranges, c), first, last) <==> Spans(ranges, first, last) && (c.last < first || last < c.first)
  {
    if ranges != [] {
      var n := |ranges| - 1;
      var r := ranges[n];
      assert ranges == ranges[..n] + [r] && r in [r];
      CutsAreExact(ranges[..n], c, first, last);
      CutIsExact(r, c, first, last);
      SpansConcat(ranges[..n], [r], first, last);
      SpansConcat(Cuts(ranges[..n], c), Cut(r, c), first, last);
    }
  }

  lemma {:induction false} CutsStayProper(ranges: seq<LineRange>, c: LineRange)
    requires Proper(ranges)
    ensures Proper(Cuts(ranges, c))
  {
    if ranges != [] {
      var r := ranges[|ranges| - 1];
      CutsStayProper(ranges[..|ranges| - 1], c);
      CutIsExact(r, c, r.first, r.last);
    }
  }

  lemma CutsStayInside(ranges: seq<LineRange>, c: LineRange, x: LineRange)
    requires Proper(ranges) && x in Cuts(ranges, c)
    ensures Spans(ranges, x.first, x.last)
  {
    CutsStayProper(ranges, c);
    assert Spans(Cuts(ranges, c), x.first, x.last);
    CutsAreExact(ranges, c, x.first, x.last);
  }

  lemma {:induction false} CutsStayApart(ranges: seq<LineRange>, c: LineRange)
    requires Proper(ranges) && Separated(ranges) && forall r :: r in ranges ==> !Doubles(r, c)
    ensures Separated(Cuts(ranges, c))
  {
    if ranges != [] {
      var n := |ranges| - 1;
      var r := ranges[n];
      CutsStayApart(ranges[..n], c);
      CutIsExact(r, c, r.first, r.last);
      forall x | x in Cuts(ranges[..n], c)
        ensures x.last < r.first
      {
        CutsStayInside(ranges[..n], c, x);
      }
      SeparatedConcat(Cuts(ranges[..n], c), Cut(r, c), r.first);
    }
  }

  lemma SeparatedConcat(a: seq<LineRange>, b: seq<LineRange>, middle: int)
    requires Separated(a) && Separated(b)
    requires (forall x :: x in a ==> x.last < middle) && (forall y :: y in b ==> middle <= y.first)
    ensures Separated(a + b)
  {
  }

  // ---------------------------------------------------------------- lines that are left twice

  /** How many of the ranges hold a line. */
  function Copies(ranges: seq<LineRange>, line: int): nat {
    if ranges == [] then 0
    else Copies(ranges[..|ranges| - 1], line) + if Has(ranges[|ranges| - 1], line) then 1 else 0
  }

  lemma {:induction false} CopiesConcat(a: seq<LineRange>, b: seq<LineRange>, line: int)
    ensures Copies(a + b, line) == Copies(a, line) + Copies(b, line)
  {
    if b == [] {
      assert a + b == a;
    } else {
      assert (a + b)[..|a + b| - 1] == a + b[..|b| - 1];
      CopiesConcat(a, b[..|b| - 1], line);
    }
  }

  lemma {:induction false} SeparatedHoldOnce(ranges: seq<LineRange>, line: int)
    requires Separated(ranges)
    ensures Copies(ranges, line) <= 1
    ensures Copies(ranges, line) == 1 ==> ranges != [] && exists r :: r in ranges && Has(r, line)
  {
    if ranges != [] {
      SeparatedHoldOnce(ranges[..|ranges| - 1], line);
    }
  }

  /** Ranges that begin after a line take no copy of it away. */
  lemma {:induction false} LaterCutsKeepCopies(ranges: seq<LineRange>, c: LineRange, line: int)
    requires line < c.first
    ensures Copies(Cuts(ranges, c), line) >= Copies(ranges, line)
  {
    if ranges != [] {
      var n := |ranges| - 1;
      var r := ranges[n];
      LaterCutsKeepCopies(ranges[..n], c, line);
      CopiesConcat(Cuts(ranges[..n], c), Cut(r, c), line);
      if Has(r, line) {
        var kept := Cut(r, c)[0];
        CopiesConcat([kept], Cut(r, c)[1..], line);
        assert [kept] + Cut(r, c)[1..] == Cut(r, c) && [kept][..0] == [];
      }
    }
  }

  lemma DoubledOnce(r: LineRange, c: LineRange)
    requires Doubles(r, c)
    ensures Copies(Cut(r, c), c.first - 1) == 2
  {
    var low, high := LineRange(r.first, c.first - 1), LineRange(c.last + 1, r.last);
    var pieces := Cut(r, c);
    assert pieces == [low, high] && pieces[..1] == [low] && [low][..0] == [];
    assert Copies(pieces[..1], c.first - 1) == 1;
  }

  /** Cutting with an inverted range leaves the lines between its ends twice. */
  lemma {:induction false} DoublingCopies(ranges: seq<LineRange>, c: LineRange, r: LineRange)
    requires r in ranges && Doubles(r, c)
    ensures Copies(Cuts(ranges, c), c.first - 1) >= 2
  {
    var n := |ranges| - 1;
    CopiesConcat(Cuts(ranges[..n], c), Cut(ranges[n], c), c.first - 1);
    if ranges[n] == r {
      DoubledOnce(r, c);
    } else {
      DoublingCopies(ranges[..n], c, r);
    }
  }

  function RangeOrder(): (LineRange, LineRange) -> bool {
    (a: LineRange, b: LineRange) => a.first < b.first || (a.first == b.first && a.last <= b.last)
  }

  /** A range `c` is inverted by more than one line inside `first..last`, and nothing that starts earlier reaches it. */
  predicate DoublesFirst(first: int, last: int, covered: seq<LineRange>, c: LineRange) {
    Doubles(LineRange(first, last), c) && forall d :: d in covered && d.first < c.first ==> d.last < c.last
  }

  /** Some covered range makes the subtraction repeat lines. */
  predicate Repeats(first: int, last: int, covered: seq<LineRange>) {
    exists c :: c in covered && DoublesFirst(first, last, covered, c)
  }

  /** Parts of `first..last` outside the ranges subtracted so far: exact for every stretch of lines, not only single ones. */
  ghost predicate Exact(remaining: seq<LineRange>, first: int, last: int, done: seq<LineRange>) {
    forall a, b :: a <= b ==> (Spans(remaining, a, b) <==> first <= a && b <= last && Avoids(done, a, b))
  }

  ghost predicate Avoids(done: seq<LineRange>, a: int, b: int) {
    forall d :: d in done ==> d.last < a || b < d.first
  }

  /** Pieces are apart until a range doubles lines; from then on some line before all further ranges is there twice. */
  ghost predicate TwiceOrApart(remaining: seq<LineRange>, first: int, last: int, sorted: seq<LineRange>, n: nat)
    requires n <= |sorted|
  {
    if DoubledBefore(first, last, sorted, n) then
      exists line :: Copies(remaining, line) >= 2 && forall k :: n <= k < |sorted| ==> line < sorted[k].first
    else
      Separated(remaining)
  }

  ghost predicate DoubledBefore(first: int, last: int, sorted: seq<LineRange>, n: nat)
    requires n <= |sorted|
  {
    exists k :: 0 <= k < n && DoublesFirst(first, last, sorted, sorted[k])
  }

  lemma FirstsRise(sorted: seq<LineRange>)
    requires SortedBy(RangeOrder(), sorted)
    ensures forall i, j :: 0 <= i < j < |sorted| ==> sorted[i].first <= sorted[j].first
  {
    assert forall i, j :: 0 <= i < j < |sorted| ==> RangeOrder()(sorted[i], sorted[j]);
  }

  lemma CutStep(remaining: seq<LineRange>, first: int, last: int, sorted: seq<LineRange>, n: nat)
    requires n < |sorted| && SortedBy(RangeOrder(), sorted) && Proper(remaining)
    requires Exact(remaining, first, last, sorted[..n]) && TwiceOrApart(remaining, first, last, sorted, n)
    ensures var next := Cuts(remaining, sorted[n]);
      Proper(next) && Exact(next, first, last, sorted[..n + 1]) && TwiceOrApart(next, first, last, sorted, n + 1)
  {
    var c := sorted[n];
    var next := Cuts(remaining, c);
    CutsStayProper(remaining, c);
    FirstsRise(sorted);
    assert c in sorted[..n] && DoublesFirst(first, last, sorted, c) ==> DoubledBefore(first, last, sorted, n);
    ExactStep(remaining, first, last, sorted, n);
    if DoubledBefore(first, last, sorted, n) {
      var line :| Copies(remaining, line) >= 2 && forall k :: n <= k < |sorted| ==> line < sorted[k].first;
      LaterCutsKeepCopies(remaining, c, line);
    } else if r :| r in remaining && Doubles(r, c) {
      DoublerIsFirst(remaining, first, last, sorted, n, r);
      DoublingCopies(remaining, c, r);
    } else {
      CutsStayApart(remaining, c);
      if DoublesFirst(first, last, sorted, c) && c !in sorted[..n] {
        FirstDoublerDoubles(remaining, first, last, sorted, n);
      }
    }
  }

  lemma ExactStep(remaining: seq<LineRange>, first: int, last: int, sorted: seq<LineRange>, n: nat)
    requires n < |sorted| && Exact(remaining, first, last, sorted[..n])
    ensures Exact(Cuts(remaining, sorted[n]), first, last, sorted[..n + 1])
  {
    var c := sorted[n];
    assert sorted[..n + 1] == sorted[..n] + [c];
    forall a, b | a <= b
      ensures Spans(Cuts(remaining, c), a, b) <==> first <= a && b <= last && Avoids(sorted[..n + 1], a, b)
    {
      CutsAreExact(remaining, c, a, b);
      assert Avoids(sorted[..n + 1], a, b) <==> Avoids(sorted[..n], a, b) && (c.last < a || b < c.first);
    }
  }

  lemma DoublerIsFirst(remaining: seq<LineRange>, first: int, last: int, sorted: seq<LineRange>, n: nat, r: LineRange)
    requires n < |sorted| && SortedBy(RangeOrder(), sorted) && Exact(remaining, first, last, sorted[..n])
    requires r in remaining && Doubles(r, sorted[n])
    ensures DoublesFirst(first, last, sorted, sorted[n])
  {
    var c := sorted[n];
    assert Spans(remaining, c.last, c.first);
    FirstsRise(sorted);
    forall d | d in sorted && d.first < c.first
      ensures d.last < c.last
    {
      var k :| 0 <= k < |sorted| && sorted[k] == d;
      assert k < n && d in sorted[..n];
    }
  }

  lemma FirstDoublerDoubles(remaining: seq<LineRange>, first: int, last: int, sorted: seq<LineRange>, n: nat)
    requires n < |sorted| && SortedBy(RangeOrder(), sorted) && Exact(remaining, first, last, sorted[..n])
    requires DoublesFirst(first, last, sorted, sorted[n]) && sorted[n] !in sorted[..n]
    ensures exists r :: r in remaining && Doubles(r, sorted[n])
  {
    var c := sorted[n];
    forall d | d in sorted[..n]
      ensures d.last < c.last || c.first < d.first
    {
      var k :| 0 <= k < n && sorted[k] == d;
      assert RangeOrder()(sorted[k], sorted[n]);
    }
    assert Spans(remaining, c.last, c.first);
  }

  /** Once nothing is left, every line was covered and no later range can double any. */
  lemma NothingLeft(first: int, last: int, sorted: seq<LineRange>, n: nat)
    requires n <= |sorted| && SortedBy(RangeOrder(), sorted) && Exact([], first, last, sorted[..n])
    ensures TwiceOrApart([], first, last, sorted, n) ==> RepeatsOnlyIf([], Repeats(first, last, sorted))
    ensures forall line :: first <= line <= last ==> Covers(sorted, line)
  {
    if TwiceOrApart([], first, last, sorted, n) {
      assert !DoubledBefore(first, last, sorted, n);
      forall c | c in sorted
        ensures !DoublesFirst(first, last, sorted, c)
      {
        var k :| 0 <= k < |sorted| && sorted[k] == c;
        if k >= n && first <= c.last < c.first <= last {
          assert !Spans([], c.last, c.first);
          var d :| d in sorted[..n] && !(d.last < c.last || c.first < d.first);
          var j :| 0 <= j < n && sorted[j] == d;
          assert RangeOrder()(sorted[j], sorted[k]);
        }
      }
    }
    forall line | first <= line <= last
      ensures Covers(sorted, line)
    {
      assert !Spans([], line, line);
      var d :| d in sorted[..n] && !(d.last < line || line < d.first);
      assert d in sorted && Has(d, line);
    }
  }

  /** What the pieces left at the end are worth. */
  lemma AllSubtracted(remaining: seq<LineRange>, first: int, last: int, sorted: seq<LineRange>)
    requires Exact(remaining, first, last, sorted)
    ensures forall line :: Covers(remaining, line) <==> first <= line <= last && !Covers(sorted, line)
    ensures TwiceOrApart(remaining, first, last, sorted, |sorted|) ==> RepeatsOnlyIf(remaining, Repeats(first, last, sorted))
  {
    forall line
      ensures Covers(remaining, line) <==> first <= line <= last && !Covers(sorted, line)
    {
      assert Covers(remaining, line) <==> Spans(remaining, line, line);
      assert Avoids(sorted, line, line) <==> !Covers(sorted, line);
    }
    if TwiceOrApart(remaining, first, last, sorted, |sorted|) {
      assert Repeats(first, last, sorted) <==> DoubledBefore(first, last, sorted, |sorted|);
      if Separated(remaining) {
        forall line
          ensures Copies(remaining, line) <= 1
        {
          SeparatedHoldOnce(remaining, line);
        }
      }
    }
  }

  /** Some line is there twice if `repeats`; otherwise the ranges are in order and share no line. */
  ghost predicate RepeatsOnlyIf(ranges: seq<LineRange>, repeats: bool) {
    && (repeats <==> exists line :: Copies(ranges, line) >= 2)
    && (repeats <==> !Separated(ranges))
  }

  /** Exactly the lines of `first..last` outside every covered range, each of them once unless an inverted range doubles. */
  method SubtractCoveredRanges(first: int, last: int, covered: seq<LineRange>) returns (remaining: seq<LineRange>)
    ensures forall line :: Covers(remaining, line) <==> first <= line <= last && !Covers(covered, line)
    ensures first <= last ==> Proper(remaining) && RepeatsOnlyIf(remaining, Repeats(first, last, covered))
  {
    remaining := [LineRange(first, last)];
    assert remaining[0] in remaining;
    var sorted := Sort(covered, RangeOrder());
    assert Repeats(first, last, sorted) == Repeats(first, last, covered) by {
      assert forall c :: c in covered ==> DoublesFirst(first, last, sorted, c) == DoublesFirst(first, last, covered, c);
    }
    assert forall line :: Covers(sorted, line) == Covers(covered, line);
    for n := 0 to |sorted|
      invariant Exact(remaining, first, last, sorted[..n])
      invariant first <= last ==> Proper(remaining) && TwiceOrApart(remaining, first, last, sorted, n)
    {
      ghost var before := remaining;
      remaining := CutAll(remaining, sorted[n]);
      ExactStep(before, first, last, sorted, n);
      if first <= last {
        CutStep(before, first, last, sorted, n);
      }
      if remaining == [] {
        NothingLeft(first, last, sorted, n + 1);
        return;
      }
    }
    assert sorted[..|sorted|] == sorted;
    AllSubtracted(remaining, first, last, sorted);
  }

  /** Windows of a file are inverted only past its end, so only a range reaching past that end can be repeated. */
  lemma WindowsRepeatOnlyPastTheEnd(first: int, last: int, covered: seq<LineRange>, lines: nat)
    requires forall c :: c in covered && c.last < c.first ==> lines < c.first
    ensures Repeats(first, last, covered) ==> lines < last
  {
  }

  /** An inverted range inside the subtracted one makes the result repeat lines. */
  method InvertedRangeRepeatsLines() returns (remaining: seq<LineRange>)
    ensures Covers(remaining, 4) && exists line :: Copies(remaining, line) >= 2
  {
    var covered := [LineRange(6, 3)];
    assert covered[0] in covered && DoublesFirst(1, 10, covered, covered[0]);
    remaining := SubtractCoveredRanges(1, 10, covered);
  }

  // ---------------------------------------------------------------- regions for indexed routes

  /** A line anchor is named after its own window. */
  datatype Anchor = RouteAnchor(id: string) | SymbolAnchor(id: string) | LineAnchor(path: FilePath, first: int, last: int)

  /** What the plan asks of a window; of two specifications of one obligation the later one stays. */
  datatype Work = Work(
    tasks: set<string>, queries: set<string>, coverageRefs: set<string>,
    obligations: set<string>, obligationSpecs: map<string, string>, themes: set<string>)
  {
    function Union(other: Work): Work {
      Work(tasks + other.tasks, queries + other.queries, coverageRefs + other.coverageRefs,
           obligations + other.obligations, obligationSpecs + other.obligationSpecs, themes + other.themes)
    }

    predicate Includes(other: Work) {
      && other.tasks <= tasks && other.queries <= queries && other.coverageRefs <= coverageRefs
      && other.obligations <= obligations && other.obligationSpecs.Keys <= obligationSpecs.Keys && other.themes <= themes
    }
  }

  /** A reviewed window of one file. */
  datatype Region = Region(path: FilePath, startLine: int, endLine: int, anchor: Anchor, work: Work)

  /** `endLine` is zero when the indexer did not record one. */
  datatype Route = Route(path: FilePath, line: int, endLine: int, name: string, qualifiedName: string)
  {
    function AnchorId(): string {
      if qualifiedName != "" then qualifiedName else name
    }
  }

  datatype RegionLimits = RegionLimits(maxLines: int, maxCharacters: int)

  datatype RegionError = LimitsNotPositive | SourceUnreadable | InvalidRouteRange | LineTooLong

  /** Characters of lines `first..last`, counting each line break. */
  function TextSize(lengths: seq<nat>, first: int, last: int): nat
    requires 1 <= first && last <= |lengths|
    decreases last - first
  {
    if last < first then 0 else TextSize(lengths, first, last - 1) + lengths[last - 1] + 1
  }

  /** The part of a route that lies in its file. */
  function RouteEnd(route: Route, lengths: seq<nat>): int {
    var recorded := if route.endLine != 0 then route.endLine else route.line;
    var end := if route.line > recorded then route.line else recorded;
    if |lengths| < end then |lengths| else end
  }

  predicate CoversLine(r: Region, path: FilePath, anchor: Anchor, line: int) {
    r.path == path && r.anchor == anchor && r.startLine <= line <= r.endLine
  }

  ghost predicate LineCovered(regions: seq<Region>, path: FilePath, anchor: Anchor, line: int) {
    exists r :: r in regions && CoversLine(r, path, anchor, line)
  }

  /** The largest chunk from `cursor` that both limits allow; empty when its first line is too long. */
  method NextChunk(lengths: seq<nat>, cursor: int, last: int, limits: RegionLimits) returns (chunkEnd: int)
    requires 1 <= cursor <= last <= |lengths| && limits.maxLines >= 1 && limits.maxCharacters >= 1
    ensures cursor - 1 <= chunkEnd <= last && chunkEnd - cursor < limits.maxLines
    ensures TextSize(lengths, cursor, chunkEnd) <= limits.maxCharacters
    ensures chunkEnd == last || chunkEnd - cursor + 1 == limits.maxLines
      || TextSize(lengths, cursor, chunkEnd + 1) > limits.maxCharacters
  {
    var bound := if last < cursor + limits.maxLines - 1 then last else cursor + limits.maxLines - 1;
    var size := 0;
    chunkEnd := cursor - 1;
    while chunkEnd < bound
      invariant cursor - 1 <= chunkEnd <= bound
      invariant size == TextSize(lengths, cursor, chunkEnd) <= limits.maxCharacters
    {
      var lineSize := lengths[chunkEnd] + 1;
      if size + lineSize > limits.maxCharacters {
        return;
      }
      size := size + lineSize;
      chunkEnd := chunkEnd + 1;
    }
  }

  predicate IsLong(lengths: seq<nat>, line: int, limits: RegionLimits) {
    1 <= line <= |lengths| && lengths[line - 1] + 1 > limits.maxCharacters
  }

  /** A text within the budget has no line beyond it. */
  lemma {:induction false} ShortLines(lengths: seq<nat>, first: int, last: int, limits: RegionLimits)
    requires 1 <= first <= last + 1 <= |lengths| + 1 && TextSize(lengths, first, last) <= limits.maxCharacters
    ensures forall line :: first <= line <= last ==> !IsLong(lengths, line, limits)
    decreases last - first
  {
    if first <= last {
      ShortLines(lengths, first, last - 1, limits);
    }
  }

  // ---------------------------------------------------------------- covering the routes

  function CoveredRanges(regions: seq<Region>, path: FilePath, anchor: Anchor): seq<LineRange> {
    if regions == [] then [] else
      var front, r := CoveredRanges(regions[..|regions| - 1], path, anchor), regions[|regions| - 1];
      if r.path == path && r.anchor == anchor then front + [LineRange(r.startLine, r.endLine)] else front
  }

  lemma {:induction false} CoveredRangesAreExact(regions: seq<Region>, path: FilePath, anchor: Anchor, line: int)
    ensures Covers(CoveredRanges(regions, path, anchor), line) <==> LineCovered(regions, path, anchor, line)
    ensures forall c :: c in CoveredRanges(regions, path, anchor) ==>
      exists r :: r in regions && r.path == path && r.startLine == c.first && r.endLine == c.last
  {
    if regions != [] {
      var n := |regions| - 1;
      var r := regions[n];
      var front, range := CoveredRanges(regions[..n], path, anchor), LineRange(r.startLine, r.endLine);
      CoveredRangesAreExact(regions[..n], path, anchor, line);
      assert regions == regions[..n] + [r];
      assert LineCovered(regions, path, anchor, line) <==>
        LineCovered(regions[..n], path, anchor, line) || CoversLine(r, path, anchor, line) by {
        assert forall x :: x in regions <==> x in regions[..n] || x == r;
      }
      assert forall x :: x in front + [range] <==> x in front || x == range;
    }
  }

  /** Regions of a file start in it and are not empty, or start after its end. */
  ghost predicate Placed(regions: seq<Region>, path: FilePath, lengths: seq<nat>) {
    forall r :: r in regions && r.path == path ==> r.startLine <= r.endLine || |lengths| < r.startLine
  }

  /** Regions under one anchor of one file share no line. */
  predicate Apart(a: Region, b: Region) {
    a.path != b.path || a.anchor != b.anchor || a.endLine < b.startLine || b.endLine < a.startLine
  }

  /** Everything from position `from` on is apart from all that precedes it. */
  ghost predicate Novel(regions: seq<Region>, from: nat) {
    forall j, k :: 0 <= j < k < |regions| && from <= k ==> Apart(regions[j], regions[k])
  }

  predicate WithinLimits(r: Region, lengths: seq<nat>, limits: RegionLimits) {
    && 1 <= r.startLine <= r.endLine <= |lengths|
    && r.endLine - r.startLine < limits.maxLines
    && TextSize(lengths, r.startLine, r.endLine) <= limits.maxCharacters
  }

  predicate InvalidRange(route: Route, lengths: seq<nat>) {
    route.line < 1 || RouteEnd(route, lengths) < route.line
  }

  ghost predicate RouteLineCovered(regions: seq<Region>, route: Route, line: int) {
    LineCovered(regions, route.path, RouteAnchor(route.AnchorId()), line)
  }

  /** A line of the route that no region covers and that no chunk can hold. */
  ghost predicate Unreviewable(regions: seq<Region>, route: Route, lengths: seq<nat>, limits: RegionLimits, line: int) {
    && route.line <= line <= RouteEnd(route, lengths) && IsLong(lengths, line, limits)
    && !RouteLineCovered(regions, route, line)
  }

  ghost predicate HasUnreviewable(regions: seq<Region>, route: Route, lengths: seq<nat>, limits: RegionLimits) {
    exists line :: Unreviewable(regions, route, lengths, limits, line)
  }

  ghost predicate FirstUnreviewable(regions: seq<Region>, route: Route, lengths: seq<nat>, limits: RegionLimits, line: int) {
    && Unreviewable(regions, route, lengths, limits, line)
    && forall earlier :: earlier < line ==> !Unreviewable(regions, route, lengths, limits, earlier)
  }

  /** A region for some lines of the route. */
  predicate ChunkOf(r: Region, route: Route, lengths: seq<nat>, limits: RegionLimits) {
    && r.path == route.path && r.anchor == RouteAnchor(route.AnchorId())
    && route.line <= r.startLine && WithinLimits(r, lengths, limits)
  }

  ghost predicate CoveredUpTo(regions: seq<Region>, route: Route, next: int) {
    forall line :: route.line <= line < next ==> RouteLineCovered(regions, route, line)
  }

  /** `now` adds to `start` chunks of the route that together cover its lines before `next` and touch no region again. */
  ghost predicate Extends(start: seq<Region>, now: seq<Region>, route: Route, lengths: seq<nat>, limits: RegionLimits, next: int) {
    && |start| <= |now| && now[..|start|] == start
    && (forall k :: |start| <= k < |now| ==> ChunkOf(now[k], route, lengths, limits) && now[k].endLine < next)
    && CoveredUpTo(now, route, next)
    && Novel(now, |start|)
  }

  /** A stretch of the route's lines that no region covered at the start. */
  ghost predicate Lacking(start: seq<Region>, u: LineRange, route: Route, lengths: seq<nat>) {
    && route.line <= u.first <= u.last <= RouteEnd(route, lengths)
    && forall line :: Has(u, line) ==> !RouteLineCovered(start, route, line)
  }

  lemma ExtendOnce(start: seq<Region>, now: seq<Region>, route: Route, lengths: seq<nat>, limits: RegionLimits, u: LineRange, r: Region)
    requires Placed(start, route.path, lengths) && Lacking(start, u, route, lengths) && 1 <= route.line
    requires u.first <= r.startLine && r.endLine <= u.last && ChunkOf(r, route, lengths, limits)
    requires Extends(start, now, route, lengths, limits, r.startLine)
    ensures Extends(start, now + [r], route, lengths, limits, r.endLine + 1)
  {
    var all := now + [r];
    forall line | route.line <= line < r.endLine + 1
      ensures RouteLineCovered(all, route, line)
    {
      if line < r.startLine {
        assert RouteLineCovered(now, route, line);
        LineStaysCovered(now, all, route, line);
      } else {
        assert r in all && CoversLine(r, route.path, r.anchor, line);
      }
    }
    forall j | 0 <= j < |now|
      ensures Apart(now[j], r)
    {
      if j < |start| && !Apart(now[j], r) {
        assert now[j] == start[j] && start[j] in start;
        var shared := if now[j].startLine > r.startLine then now[j].startLine else r.startLine;
        assert CoversLine(start[j], route.path, r.anchor, shared) && Has(u, shared);
        assert RouteLineCovered(start, route, shared);
      }
    }
  }

  lemma LineStaysCovered(before: seq<Region>, after: seq<Region>, route: Route, line: int)
    requires |before| <= |after| && after[..|before|] == before && RouteLineCovered(before, route, line)
    ensures RouteLineCovered(after, route, line)
  {
    var r :| r in before && CoversLine(r, route.path, RouteAnchor(route.AnchorId()), line);
    assert r in after;
  }

  /** Chunks hold no line that is too long, so adding them settles which lines cannot be reviewed. */
  lemma ChunksHoldNoLongLine(start: seq<Region>, now: seq<Region>, route: Route, lengths: seq<nat>, limits: RegionLimits, line: int)
    requires |start| <= |now| && now[..|start|] == start
    requires forall k :: |start| <= k < |now| && now[k].path == route.path ==> WithinLimits(now[k], lengths, limits)
    requires RouteLineCovered(now, route, line) && IsLong(lengths, line, limits)
    ensures RouteLineCovered(start, route, line)
  {
    var r :| r in now && CoversLine(r, route.path, RouteAnchor(route.AnchorId()), line);
    var k :| 0 <= k < |now| && now[k] == r;
    if k < |start| {
      assert start[k] == r;
    } else {
      ShortLines(lengths, r.startLine, r.endLine, limits);
    }
  }

  /** Ranges that hold exactly the uncovered lines of the route, in order. */
  ghost predicate Missing(uncovered: seq<LineRange>, start: seq<Region>, route: Route, lengths: seq<nat>) {
    && Separated(uncovered)
    && (forall k :: 0 <= k < |uncovered| ==> Lacking(start, uncovered[k], route, lengths))
    && (forall line :: route.line <= line <= RouteEnd(route, lengths) ==>
          Covers(uncovered, line) || RouteLineCovered(start, route, line))
  }

  /** Where the work goes on once the ranges before position `n` are done. */
  function Frontier(uncovered: seq<LineRange>, n: nat, route: Route, lengths: seq<nat>): int {
    if n < |uncovered| then uncovered[n].first else RouteEnd(route, lengths) + 1
  }

  /** The lines between two missing ranges are covered already. */
  lemma SkipCovered(start: seq<Region>, now: seq<Region>, route: Route, lengths: seq<nat>, limits: RegionLimits,
                    uncovered: seq<LineRange>, n: nat, next: int)
    requires Missing(uncovered, start, route, lengths) && n <= |uncovered|
    requires Extends(start, now, route, lengths, limits, next) && next <= Frontier(uncovered, n, route, lengths)
    requires n > 0 ==> uncovered[n - 1].last < next
    ensures Extends(start, now, route, lengths, limits, Frontier(uncovered, n, route, lengths))
  {
    forall line | route.line <= line < Frontier(uncovered, n, route, lengths)
      ensures RouteLineCovered(now, route, line)
    {
      if line >= next {
        forall k | 0 <= k < |uncovered|
          ensures !Has(uncovered[k], line)
        {
          assert k < n - 1 ==> uncovered[k].last < uncovered[n - 1].first;
          assert n < k ==> uncovered[n].last < uncovered[k].first;
        }
        assert route.line <= line <= RouteEnd(route, lengths) && !Covers(uncovered, line);
        LineStaysCovered(start, now, route, line);
      }
    }
  }

  lemma MissingRanges(uncovered: seq<LineRange>, covered: seq<LineRange>, start: seq<Region>, route: Route, lengths: seq<nat>)
    requires Placed(start, route.path, lengths) && !InvalidRange(route, lengths)
    requires covered == CoveredRanges(start, route.path, RouteAnchor(route.AnchorId()))
    requires var end := RouteEnd(route, lengths);
      && (forall line :: Covers(uncovered, line) <==> route.line <= line <= end && !Covers(covered, line))
      && Proper(uncovered) && RepeatsOnlyIf(uncovered, Repeats(route.line, end, covered))
    ensures Missing(uncovered, start, route, lengths)
  {
    var anchor := RouteAnchor(route.AnchorId());
    forall line
      ensures Covers(covered, line) <==> RouteLineCovered(start, route, line)
    {
      CoveredRangesAreExact(start, route.path, anchor, line);
    }
    CoveredRangesAreExact(start, route.path, anchor, 0);
    WindowsRepeatOnlyPastTheEnd(route.line, RouteEnd(route, lengths), covered, |lengths|);
    forall k | 0 <= k < |uncovered|
      ensures Lacking(start, uncovered[k], route, lengths)
    {
      var u := uncovered[k];
      assert u in uncovered && Has(u, u.first) && Has(u, u.last);
      assert Covers(uncovered, u.first) && Covers(uncovered, u.last);
      forall line | Has(u, line)
        ensures !RouteLineCovered(start, route, line)
      {
        assert Covers(uncovered, line);
      }
    }
  }

  /** Chunks were added up to a line of `u` that is too long. */
  ghost predicate StopsIn(start: seq<Region>, now: seq<Region>, route: Route, u: LineRange, lengths: seq<nat>, limits: RegionLimits) {
    exists line :: Has(u, line) && IsLong(lengths, line, limits) && Extends(start, now, route, lengths, limits, line)
  }

  /** Chunks were added exactly for the lines before the first one that cannot be reviewed. */
  ghost predicate StopsAtFirst(start: seq<Region>, now: seq<Region>, route: Route, lengths: seq<nat>, limits: RegionLimits) {
    exists line :: FirstUnreviewable(start, route, lengths, limits, line) && Extends(start, now, route, lengths, limits, line)
  }

  class RegionPlan {
    var regions: seq<Region>

    constructor (initial: seq<Region>)
      ensures regions == initial
    {
      regions := initial;
    }

    /** Chunks one stretch of a route; every chunk is added as soon as it is cut, also before a line that is too long. */
    method AddRange(ghost start: seq<Region>, route: Route, u: LineRange, lengths: seq<nat>, limits: RegionLimits,
                    workFor: (FilePath, int, int) -> Work)
      returns (r: Result<nat, RegionError>)
      requires limits.maxLines >= 1 && limits.maxCharacters >= 1 && 1 <= route.line
      requires Placed(start, route.path, lengths) && Lacking(start, u, route, lengths)
      requires Extends(start, regions, route, lengths, limits, u.first)
      modifies this
      ensures r.Success? ==> Extends(start, regions, route, lengths, limits, u.last + 1)
      ensures r.Success? ==> |regions| == |old(regions)| + r.value
      ensures r.Success? <==> forall line :: Has(u, line) ==> !IsLong(lengths, line, limits)
      ensures r.Failure? ==> r.error == LineTooLong && StopsIn(start, regions, route, u, lengths, limits)
    {
      var cursor, added := u.first, 0;
      while cursor <= u.last
        invariant u.first <= cursor <= u.last + 1
        invariant Extends(start, regions, route, lengths, limits, cursor)
        invariant |regions| == |old(regions)| + added
        invariant forall line :: u.first <= line < cursor ==> !IsLong(lengths, line, limits)
      {
        var chunkEnd := NextChunk(lengths, cursor, u.last, limits);
        if chunkEnd < cursor {
          assert TextSize(lengths, cursor, cursor) == TextSize(lengths, cursor, cursor - 1) + lengths[cursor - 1] + 1;
          assert Has(u, cursor) && IsLong(lengths, cursor, limits);
          return Failure(LineTooLong);
        }
        var region := Region(route.path, cursor, chunkEnd, RouteAnchor(route.AnchorId()), workFor(route.path, cursor, chunkEnd));
        ShortLines(lengths, cursor, chunkEnd, limits);
        ExtendOnce(start, regions, route, lengths, limits, u, region);
        regions := regions + [region];
        added, cursor := added + 1, chunkEnd + 1;
      }
      return Success(added);
    }

    /** Adds regions for the lines of one route that no region of its anchor covers yet. */
    method AddRoute(route: Route, lengths: seq<nat>, limits: RegionLimits, workFor: (FilePath, int, int) -> Work)
      returns (r: Result<nat, RegionError>)
      requires limits.maxLines >= 1 && limits.maxCharacters >= 1 && Placed(regions, route.path, lengths)
      modifies this
      ensures r.Success? <==> !InvalidRange(route, lengths) && !HasUnreviewable(old(regions), route, lengths, limits)
      ensures r.Success? ==> Extends(old(regions), regions, route, lengths, limits, RouteEnd(route, lengths) + 1)
      ensures r.Success? ==> |regions| == |old(regions)| + r.value
      ensures r == Failure(InvalidRouteRange) <==> InvalidRange(route, lengths)
      ensures r == Failure(InvalidRouteRange) ==> regions == old(regions)
      ensures r.Failure? && r.error != InvalidRouteRange ==>
        r.error == LineTooLong && StopsAtFirst(old(regions), regions, route, lengths, limits)
    {
      var end := RouteEnd(route, lengths);
      if route.line < 1 || end < route.line {
        return Failure(InvalidRouteRange);
      }
      ghost var start := regions;
      var added := 0;
      var covered := CoveredRanges(regions, route.path, RouteAnchor(route.AnchorId()));
      var uncovered := SubtractCoveredRanges(route.line, end, covered);
      MissingRanges(uncovered, covered, start, route, lengths);
      SkipCovered(start, regions, route, lengths, limits, uncovered, 0, route.line);
      for n := 0 to |uncovered|
        invariant Extends(start, regions, route, lengths, limits, Frontier(uncovered, n, route, lengths))
        invariant |regions| == |start| + added
      {
        var step := AddRange(start, route, uncovered[n], lengths, limits, workFor);
        if step.Failure? {
          ghost var line :| Has(uncovered[n], line) && IsLong(lengths, line, limits)
            && Extends(start, regions, route, lengths, limits, line);
          assert Unreviewable(start, route, lengths, limits, line);
          NothingUnreviewableBefore(start, regions, route, lengths, limits, line);
          return Failure(step.error);
        }
        added := added + step.value;
        SkipCovered(start, regions, route, lengths, limits, uncovered, n + 1, uncovered[n].last + 1);
      }
      NothingUnreviewableBefore(start, regions, route, lengths, limits, end + 1);
      return Success(added);
    }
  }

  lemma NothingUnreviewableBefore(start: seq<Region>, now: seq<Region>, route: Route, lengths: seq<nat>, limits: RegionLimits, next: int)
    requires Extends(start, now, route, lengths, limits, next)
    ensures forall line :: line < next ==> !Unreviewable(start, route, lengths, limits, line)
  {
    forall line | line < next && route.line <= line && IsLong(lengths, line, limits)
      ensures RouteLineCovered(start, route, line)
    {
      assert RouteLineCovered(now, route, line);
      ChunksHoldNoLongLine(start, now, route, lengths, limits, line);
    }
  }

  // ---------------------------------------------------------------- covering the routes

  /** A region that reviews part of an eligible route, under its anchor and within both limits. */
  ghost predicate ForEligibleRoute(r: Region, routes: seq<Route>, eligible: set<FilePath>, sources: map<FilePath, seq<nat>>,
                                   limits: RegionLimits) {
    exists route :: route in routes && route.path in eligible && route.path in sources
      && ChunkOf(r, route, sources[route.path], limits)
  }

  /** What the regions added so far are like. */
  ghost predicate Grown(start: seq<Region>, now: seq<Region>, routes: seq<Route>, eligible: set<FilePath>,
                        sources: map<FilePath, seq<nat>>, limits: RegionLimits) {
    && |start| <= |now| && now[..|start|] == start && Novel(now, |start|)
    && forall k :: |start| <= k < |now| ==> ForEligibleRoute(now[k], routes, eligible, sources, limits)
  }

  /** Why a route cannot be covered, judged by the regions that were there at the start. */
  ghost function Fault(start: seq<Region>, route: Route, sources: map<FilePath, seq<nat>>, limits: RegionLimits): Option<RegionError> {
    if route.path !in sources then Some(SourceUnreadable)
    else if InvalidRange(route, sources[route.path]) then Some(InvalidRouteRange)
    else if HasUnreviewable(start, route, sources[route.path], limits) then Some(LineTooLong)
    else None
  }

  ghost predicate FullyCovered(regions: seq<Region>, route: Route, sources: map<FilePath, seq<nat>>) {
    route.path in sources && CoveredUpTo(regions, route, RouteEnd(route, sources[route.path]) + 1)
  }

  /** The eligible ones of the first `n` routes have no fault and are covered. */
  ghost predicate DoneUpTo(start: seq<Region>, now: seq<Region>, routes: seq<Route>, eligible: set<FilePath>,
                           sources: map<FilePath, seq<nat>>, limits: RegionLimits, n: nat)
    requires n <= |routes|
  {
    forall k :: 0 <= k < n && routes[k].path in eligible ==>
      Fault(start, routes[k], sources, limits) == None && FullyCovered(now, routes[k], sources)
  }

  /** Route `n` is the first with a fault; if one of its lines is too long, the lines before it are covered all the same. */
  ghost predicate FailsAt(start: seq<Region>, now: seq<Region>, routes: seq<Route>, eligible: set<FilePath>,
                          sources: map<FilePath, seq<nat>>, limits: RegionLimits, n: nat, error: RegionError)
    requires n < |routes|
  {
    var route := routes[n];
    && route.path in eligible && Fault(start, route, sources, limits) == Some(error)
    && DoneUpTo(start, now, routes, eligible, sources, limits, n)
    && (error == LineTooLong ==>
          exists line :: FirstUnreviewable(start, route, sources[route.path], limits, line) && CoveredUpTo(now, route, line))
  }

  function EligibleCount(routes: seq<Route>, eligible: set<FilePath>): nat {
    if routes == [] then 0
    else EligibleCount(routes[..|routes| - 1], eligible) + if routes[|routes| - 1].path in eligible then 1 else 0
  }

  /** Adds what each eligible route still lacks, in the given order; an error ends it, with what was added until then. */
  method AddUncoveredIndexedRoutes(plan: RegionPlan, routes: seq<Route>, eligible: set<FilePath>,
                                   sources: map<FilePath, seq<nat>>, limits: RegionLimits,
                                   workFor: (FilePath, int, int) -> Work)
    returns (r: Result<(nat, nat), RegionError>)
    requires forall path :: path in sources ==> Placed(plan.regions, path, sources[path])
    modifies plan
    ensures r == Failure(LimitsNotPositive) <==> limits.maxLines < 1 || limits.maxCharacters < 1
    ensures r == Failure(LimitsNotPositive) ==> plan.regions == old(plan.regions)
    ensures Grown(old(plan.regions), plan.regions, routes, eligible, sources, limits)
    ensures r.Success? ==> DoneUpTo(old(plan.regions), plan.regions, routes, eligible, sources, limits, |routes|)
    ensures r.Success? ==> r.value == (EligibleCount(routes, eligible), |plan.regions| - |old(plan.regions)|)
    ensures r.Failure? && r.error != LimitsNotPositive ==>
      exists n :: 0 <= n < |routes| && FailsAt(old(plan.regions), plan.regions, routes, eligible, sources, limits, n, r.error)
  {
    if limits.maxLines < 1 || limits.maxCharacters < 1 {
      return Failure(LimitsNotPositive);
    }
    var indexed, added := 0, 0;
    ghost var start := plan.regions;
    for n := 0 to |routes|
      invariant Grown(start, plan.regions, routes, eligible, sources, limits)
      invariant DoneUpTo(start, plan.regions, routes, eligible, sources, limits, n)
      invariant indexed == EligibleCount(routes[..n], eligible) && added == |plan.regions| - |start|
    {
      var route := routes[n];
      assert routes[..n + 1][..n] == routes[..n];
      if route.path in eligible {
        indexed := indexed + 1;
        if route.path !in sources {
          assert FailsAt(start, plan.regions, routes, eligible, sources, limits, n, SourceUnreadable);
          return Failure(SourceUnreadable);
        }
        ghost var before := plan.regions;
        StillPlaced(start, before, routes, eligible, sources, limits, route.path);
        FaultsStay(start, before, route, sources[route.path], routes, eligible, sources, limits);
        var step := plan.AddRoute(route, sources[route.path], limits, workFor);
        GrowOn(start, before, plan.regions, routes, eligible, sources, limits, n);
        if step.Failure? {
          assert FailsAt(start, plan.regions, routes, eligible, sources, limits, n, step.error);
          return Failure(step.error);
        }
        added := added + step.value;
      }
    }
    assert routes[..|routes|] == routes;
    return Success((indexed, added));
  }

  /** Added regions lie in their files. */
  lemma StillPlaced(start: seq<Region>, now: seq<Region>, routes: seq<Route>, eligible: set<FilePath>,
                    sources: map<FilePath, seq<nat>>, limits: RegionLimits, path: FilePath)
    requires Grown(start, now, routes, eligible, sources, limits)
    requires path in sources && Placed(start, path, sources[path])
    ensures Placed(now, path, sources[path])
    ensures forall k :: |start| <= k < |now| && now[k].path == path ==> WithinLimits(now[k], sources[path], limits)
  {
    forall r | r in now && r.path == path
      ensures r.startLine <= r.endLine || |sources[path]| < r.startLine
    {
      var k :| 0 <= k < |now| && now[k] == r;
      if k < |start| {
        assert r == start[k] && r in start;
      } else {
        assert ForEligibleRoute(now[k], routes, eligible, sources, limits);
      }
    }
  }

  /** Which lines of a route cannot be reviewed does not depend on the regions added meanwhile. */
  lemma FaultsStay(start: seq<Region>, now: seq<Region>, route: Route, lengths: seq<nat>, routes: seq<Route>,
                   eligible: set<FilePath>, sources: map<FilePath, seq<nat>>, limits: RegionLimits)
    requires Grown(start, now, routes, eligible, sources, limits)
    requires route.path in sources && lengths == sources[route.path] && Placed(start, route.path, lengths)
    ensures forall line :: Unreviewable(now, route, lengths, limits, line) <==> Unreviewable(start, route, lengths, limits, line)
    ensures HasUnreviewable(now, route, lengths, limits) <==> HasUnreviewable(start, route, lengths, limits)
  {
    StillPlaced(start, now, routes, eligible, sources, limits, route.path);
    forall line | IsLong(lengths, line, limits)
      ensures RouteLineCovered(now, route, line) <==> RouteLineCovered(start, route, line)
    {
      if RouteLineCovered(start, route, line) {
        LineStaysCovered(start, now, route, line);
      }
      if RouteLineCovered(now, route, line) {
        ChunksHoldNoLongLine(start, now, route, lengths, limits, line);
      }
    }
  }

  /** A further region list keeps what was done. */
  lemma GrowOn(start: seq<Region>, before: seq<Region>, after: seq<Region>, routes: seq<Route>, eligible: set<FilePath>,
               sources: map<FilePath, seq<nat>>, limits: RegionLimits, n: nat)
    requires n < |routes| && routes[n].path in eligible && routes[n].path in sources
    requires Grown(start, before, routes, eligible, sources, limits)
    requires DoneUpTo(start, before, routes, eligible, sources, limits, n)
    requires |before| <= |after| && after[..|before|] == before && Novel(after, |before|)
    requires forall k :: |before| <= k < |after| ==> ChunkOf(after[k], routes[n], sources[routes[n].path], limits)
    ensures Grown(start, after, routes, eligible, sources, limits)
    ensures DoneUpTo(start, after, routes, eligible, sources, limits, n)
  {
    assert after[..|start|] == before[..|start|];
    forall k | |start| <= k < |after|
      ensures ForEligibleRoute(after[k], routes, eligible, sources, limits)
    {
      if k < |before| {
        assert after[k] == before[k];
      } else {
        assert routes[n] in routes;
      }
    }
    forall j, k | 0 <= j < k < |after| && |start| <= k
      ensures Apart(after[j], after[k])
    {
      if k < |before| {
        assert after[j] == before[j] && after[k] == before[k];
      }
    }
    forall k | 0 <= k < n && routes[k].path in eligible
      ensures FullyCovered(after, routes[k], sources)
    {
      forall line | routes[k].line <= line < RouteEnd(routes[k], sources[routes[k].path]) + 1
        ensures RouteLineCovered(after, routes[k], line)
      {
        assert FullyCovered(before, routes[k], sources);
        LineStaysCovered(before, after, routes[k], line);
      }
    }
  }
}
