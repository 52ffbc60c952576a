/** Merging of compatible review windows without losing lines or planned work. */
module RegionMerging {
  import opened GraphSnapshot
  import opened Sequences
  import opened SourceRanges

  /** What is read from the files; an unreadable or empty file has no lines. */
  datatype Files = Files(
    lineCount: FilePath -> nat,
    contentSize: (FilePath, int, int) -> nat,
    enclosing: (FilePath, int) -> Option<Anchor>)

  datatype MergePolicy = MergePolicy(overlapRatio: real, maxGap: int, maxCharacters: int)

  function Least(a: int, b: int): int { if a <= b then a else b }

  function Greatest(a: int, b: int): int { if a <= b then b else a }

  /** The window clipped to the file, under the given or enclosing anchor. */
  function RegionFromRange(files: Files, path: FilePath, first: int, last: int, work: Work, anchor: Option<Anchor>)
    : Option<Region>
  {
    var lines := files.lineCount(path);
    if lines == 0 then None else
      var start := Greatest(1, first);
      var end := Least(lines, Greatest(start, last));
      var resolved := if anchor.Some? then anchor else files.enclosing(path, start);
      Some(Region(path, start, end, if resolved.Some? then resolved.value else LineAnchor(path, start, end), work))
  }

  predicate CanMerge(first: Region, second: Region, policy: MergePolicy) {
    first.path == second.path &&
    var overlap := Least(first.endLine, second.endLine) - Greatest(first.startLine, second.startLine) + 1;
    var secondLength := Greatest(1, second.endLine - second.startLine + 1);
    var enough := Greatest(0, overlap) as real / secondLength as real >= policy.overlapRatio;
    if first.anchor == second.anchor then enough || second.startLine - first.endLine <= policy.maxGap
    else first.anchor.LineAnchor? && second.anchor.LineAnchor? && enough
  }

  /** A window of its file; one asked for beyond the end keeps its start and ends with the file. */
  predicate InFile(files: Files, r: Region) {
    var lines := files.lineCount(r.path);
    1 <= r.startLine && 1 <= r.endLine <= lines && (r.startLine <= r.endLine || r.endLine == lines)
  }

  lemma RangesAreInFile(files: Files, path: FilePath, first: int, last: int, work: Work, anchor: Option<Anchor>)
    ensures var r := RegionFromRange(files, path, first, last, work, anchor);
      r.Some? ==> InFile(files, r.value) && r.value.path == path
  {
  }

  /** `out` reviews everything `item` was meant to review, and under the same structural anchor. */
  predicate Keeps(out: Region, item: Region) {
    && out.path == item.path && out.startLine <= item.startLine && item.endLine <= out.endLine
    && out.work.Includes(item.work)
    && (!item.anchor.LineAnchor? ==> out.anchor == item.anchor)
  }

  /** The window spanning two mergeable ones; absent when it would be too large or its file cannot be read. */
  function Merged(files: Files, policy: MergePolicy, current: Region, item: Region): Option<Region> {
    var first, last := Least(current.startLine, item.startLine), Greatest(current.endLine, item.endLine);
    var anchor := files.enclosing(current.path, if current.anchor != item.anchor then first else current.startLine);
    var candidate := RegionFromRange(files, current.path, first, last, current.work.Union(item.work), anchor);
    if candidate.None? || files.contentSize(current.path, candidate.value.startLine, candidate.value.endLine) > policy.maxCharacters
    then None
    else if current.anchor == item.anchor then Some(candidate.value.(anchor := current.anchor)) else candidate
  }

  /** The merged window keeps both windows, and what they kept before. */
  lemma MergedKeepsBoth(files: Files, policy: MergePolicy, current: Region, item: Region)
    requires InFile(files, current) && InFile(files, item) && CanMerge(current, item, policy)
    requires Merged(files, policy, current, item).Some?
    ensures var m := Merged(files, policy, current, item).value;
      && InFile(files, m) && Keeps(m, current) && Keeps(m, item)
      && m.work.obligationSpecs == current.work.obligationSpecs + item.work.obligationSpecs
      && files.contentSize(m.path, m.startLine, m.endLine) <= policy.maxCharacters
  {
  }

  ghost predicate SomeKeeps(outs: seq<Region>, item: Region) {
    exists out :: out in outs && Keeps(out, item)
  }

  /** The finished windows plus the one still open keep every item read so far. */
  ghost predicate AllKept(outs: seq<Region>, items: seq<Region>) {
    forall k :: 0 <= k < |items| ==> SomeKeeps(outs, items[k])
  }

  ghost predicate EachOriginalOrSmall(files: Files, policy: MergePolicy, outs: seq<Region>, originals: seq<Region>) {
    forall out :: out in outs ==>
      out in originals || files.contentSize(out.path, out.startLine, out.endLine) <= policy.maxCharacters
  }

  lemma KeptAfterPush(outs: seq<Region>, items: seq<Region>, item: Region)
    requires AllKept(outs, items)
    ensures AllKept(outs + [item], items + [item])
  {
    forall k | 0 <= k <= |items|
      ensures SomeKeeps(outs + [item], (items + [item])[k])
    {
      if k < |items| {
        assert SomeKeeps(outs, items[k]);
        var out :| out in outs && Keeps(out, items[k]);
        assert out in outs + [item];
      } else {
        assert item in outs + [item];
      }
    }
  }

  lemma KeptAfterMerge(front: seq<Region>, current: Region, merged: Region, items: seq<Region>, item: Region)
    requires AllKept(front + [current], items) && Keeps(merged, current) && Keeps(merged, item)
    ensures AllKept(front + [merged], items + [item])
  {
    forall k | 0 <= k <= |items|
      ensures SomeKeeps(front + [merged], (items + [item])[k])
    {
      assert merged in front + [merged];
      if k < |items| {
        assert SomeKeeps(front + [current], items[k]);
        var out :| out in front + [current] && Keeps(out, items[k]);
        if out in front {
          assert out in front + [merged];
        } else {
          assert Keeps(merged, items[k]);
        }
      }
    }
  }

  /** How the open window absorbs the next one, if it does. */
  function Absorb(files: Files, policy: MergePolicy): (Region, Region) -> Option<Region> {
    (current: Region, item: Region) => if CanMerge(current, item, policy) then Merged(files, policy, current, item) else None
  }

  /** The window that consecutive items merge into, one after the other; absent when one of them does not merge. */
  function RunOf(absorb: (Region, Region) -> Option<Region>, items: seq<Region>): Option<Region> {
    if items == [] then None
    else if |items| == 1 then Some(items[0])
    else
      var front, item := RunOf(absorb, items[..|items| - 1]), items[|items| - 1];
      if front.Some? then absorb(front.value, item) else None
  }

  /** Where run `k` ends: at the start of the next one, or with the items. */
  function EndOf(starts: seq<nat>, total: nat, k: nat): nat {
    if k + 1 < |starts| then starts[k + 1] else total
  }

  ghost predicate IsRun(absorb: (Region, Region) -> Option<Region>, items: seq<Region>, outs: seq<Region>, starts: seq<nat>, k: nat)
    requires |starts| == |outs| && k < |outs|
  {
    var end := EndOf(starts, |items|, k);
    && starts[k] < end <= |items| && RunOf(absorb, items[starts[k]..end]) == Some(outs[k])
    && (end < |items| ==> absorb(outs[k], items[end]).None?)
  }

  /** The outputs are the items cut into runs, each as long as it could be. */
  ghost predicate IsGreedyPass(absorb: (Region, Region) -> Option<Region>, items: seq<Region>, outs: seq<Region>, starts: seq<nat>) {
    && |starts| == |outs| && (items == [] <==> outs == []) && (starts != [] ==> starts[0] == 0)
    && forall k :: 0 <= k < |outs| ==> IsRun(absorb, items, outs, starts, k)
  }

  lemma RunGoesOn(absorb: (Region, Region) -> Option<Region>, items: seq<Region>, front: seq<Region>, current: Region,
                  starts: seq<nat>, item: Region)
    requires IsGreedyPass(absorb, items, front + [current], starts) && absorb(current, item).Some?
    ensures IsGreedyPass(absorb, items + [item], front + [absorb(current, item).value], starts)
  {
    var merged := absorb(current, item).value;
    var n, before, after := |front|, front + [current], front + [merged];
    forall k | 0 <= k <= n
      ensures IsRun(absorb, items + [item], after, starts, k)
    {
      assert IsRun(absorb, items, before, starts, k);
      if k < n {
        assert IsRun(absorb, items, before, starts, k + 1);
        assert (items + [item])[starts[k]..starts[k + 1]] == items[starts[k]..starts[k + 1]];
      } else {
        var run := (items + [item])[starts[n]..|items| + 1];
        assert run[..|run| - 1] == items[starts[n]..|items|];
      }
    }
  }

  lemma RunStarts(absorb: (Region, Region) -> Option<Region>, items: seq<Region>, outs: seq<Region>, starts: seq<nat>, item: Region)
    requires IsGreedyPass(absorb, items, outs, starts)
    requires outs != [] ==> absorb(outs[|outs| - 1], item).None?
    ensures IsGreedyPass(absorb, items + [item], outs + [item], starts + [|items|])
  {
    var longer := starts + [|items|];
    forall k | 0 <= k <= |outs|
      ensures IsRun(absorb, items + [item], outs + [item], longer, k)
    {
      if k < |outs| {
        assert IsRun(absorb, items, outs, starts, k);
        var end := EndOf(starts, |items|, k);
        assert k + 1 < |outs| ==> IsRun(absorb, items, outs, starts, k + 1);
        assert EndOf(longer, |items| + 1, k) == end;
        assert (items + [item])[end] == if k + 1 < |outs| then items[end] else item;
        assert (items + [item])[starts[k]..end] == items[starts[k]..end];
      } else {
        assert (items + [item])[|items|..|items| + 1] == [item];
      }
    }
  }

  /** One pass over the sorted windows of one file: it merges as long as it can, and keeps all work. */
  method MergeFile(files: Files, policy: MergePolicy, items: seq<Region>)
    returns (outs: seq<Region>, merges: nat, ghost starts: seq<nat>)
    requires forall k :: 0 <= k < |items| ==> InFile(files, items[k])
    ensures IsGreedyPass(Absorb(files, policy), items, outs, starts)
    ensures AllKept(outs, items) && |outs| + merges == |items|
    ensures EachOriginalOrSmall(files, policy, outs, items)
    ensures forall out :: out in outs ==> InFile(files, out)
  {
    var closed: seq<Region>, current: Option<Region> := [], None;
    merges, starts := 0, [];
    for n := 0 to |items|
      invariant current.None? <==> n == 0
      invariant current.None? ==> closed == []
      invariant var all := if current.Some? then closed + [current.value] else closed;
        && AllKept(all, items[..n]) && |all| + merges == n
        && EachOriginalOrSmall(files, policy, all, items)
        && IsGreedyPass(Absorb(files, policy), items[..n], all, starts)
        && forall out :: out in all ==> InFile(files, out)
    {
      var item := items[n];
      assert items[..n + 1] == items[..n] + [item];
      if current.Some? {
        assert current.value in closed + [current.value];
        if CanMerge(current.value, item, policy) {
          var m := Merged(files, policy, current.value, item);
          if m.Some? {
            MergedKeepsBoth(files, policy, current.value, item);
            KeptAfterMerge(closed, current.value, m.value, items[..n], item);
            RunGoesOn(Absorb(files, policy), items[..n], closed, current.value, starts, item);
            current, merges := m, merges + 1;
            continue;
          }
        }
        KeptAfterPush(closed + [current.value], items[..n], item);
        RunStarts(Absorb(files, policy), items[..n], closed + [current.value], starts, item);
        closed := closed + [current.value];
      } else {
        KeptAfterPush(closed, items[..n], item);
        RunStarts(Absorb(files, policy), items[..n], closed, starts, item);
      }
      starts := starts + [n];
      current := Some(item);
    }
    assert items[..|items|] == items;
    outs := if current.Some? then closed + [current.value] else closed;
  }

  // ---------------------------------------------------------------- all files

  /** The windows of one file, in order. */
  function OfPath(regions: seq<Region>, path: FilePath): seq<Region> {
    if regions == [] then [] else
      var front, r := OfPath(regions[..|regions| - 1], path), regions[|regions| - 1];
      if r.path == path then front + [r] else front
  }

  lemma {:induction false} OfPathMember(regions: seq<Region>, path: FilePath, r: Region)
    ensures r in OfPath(regions, path) <==> r in regions && r.path == path
  {
    if regions != [] {
      var n := |regions| - 1;
      OfPathMember(regions[..n], path, r);
      assert regions == regions[..n] + [regions[n]];
    }
  }

  function PathItems(byPath: map<FilePath, seq<Region>>, path: FilePath): seq<Region> {
    if path in byPath then byPath[path] else []
  }

  /** Windows by file; `order` lists the files as they are first met. */
  ghost predicate GroupsByPath(byPath: map<FilePath, seq<Region>>, order: seq<FilePath>, regions: seq<Region>) {
    && NoDuplicates(order) && (forall path :: path in order <==> path in byPath)
    && (forall path :: PathItems(byPath, path) == OfPath(regions, path))
    && TotalItems(byPath, order) == |regions|
  }

  ghost function TotalItems(byPath: map<FilePath, seq<Region>>, order: seq<FilePath>): nat {
    if order == [] then 0
    else (if order[0] in byPath then |byPath[order[0]]| else 0) + TotalItems(byPath, order[1..])
  }

  lemma {:induction false} TotalItemsAppend(byPath: map<FilePath, seq<Region>>, order: seq<FilePath>, path: FilePath)
    ensures TotalItems(byPath, order + [path]) ==
            TotalItems(byPath, order) + if path in byPath then |byPath[path]| else 0
  {
    if order == [] {
      assert order + [path] == [path] && [path][1..] == [];
    } else {
      assert (order + [path])[1..] == order[1..] + [path];
      TotalItemsAppend(byPath, order[1..], path);
    }
  }

  lemma {:induction false} TotalItemsOfUpdate(byPath: map<FilePath, seq<Region>>, order: seq<FilePath>, path: FilePath,
                                              items: seq<Region>)
    requires NoDuplicates(order)
    ensures TotalItems(byPath[path := items], order) == TotalItems(byPath, order)
      + if path in order then |items| - (if path in byPath then |byPath[path]| else 0) else 0
  {
    if order != [] {
      TotalItemsOfUpdate(byPath, order[1..], path, items);
    }
  }

  method GroupByPath(regions: seq<Region>) returns (byPath: map<FilePath, seq<Region>>, order: seq<FilePath>)
    ensures GroupsByPath(byPath, order, regions)
  {
    byPath, order := map[], [];
    for n := 0 to |regions|
      invariant GroupsByPath(byPath, order, regions[..n])
    {
      byPath, order := AddToPath(byPath, order, regions[..n], regions[n]);
      assert regions[..n + 1] == regions[..n] + [regions[n]];
    }
    assert regions[..|regions|] == regions;
  }

  method AddToPath(byPath: map<FilePath, seq<Region>>, order: seq<FilePath>, ghost regions: seq<Region>, r: Region)
    returns (grown: map<FilePath, seq<Region>>, longer: seq<FilePath>)
    requires GroupsByPath(byPath, order, regions)
    ensures GroupsByPath(grown, longer, regions + [r])
  {
    var items := PathItems(byPath, r.path);
    grown := byPath[r.path := items + [r]];
    longer := if r.path in byPath then order else order + [r.path];
    TotalItemsOfUpdate(byPath, order, r.path, items + [r]);
    forall path
      ensures PathItems(grown, path) == OfPath(regions + [r], path)
    {
    }
    if r.path !in byPath {
      TotalItemsAppend(grown, order, r.path);
      NoDuplicatesInConcat(order, [r.path]);
    }
  }

  /** Windows in reading order; `rank` orders the anchor names of windows with equal lines. */
  function RegionOrder(rank: Anchor -> int): (Region, Region) -> bool {
    (a: Region, b: Region) =>
      a.startLine < b.startLine || (a.startLine == b.startLine
        && (a.endLine < b.endLine || (a.endLine == b.endLine && rank(a.anchor) <= rank(b.anchor))))
  }

  /** The pass over one file: its windows in reading order, and what they merged into. */
  datatype FilePass = FilePass(path: FilePath, items: seq<Region>, outs: seq<Region>, starts: seq<nat>)

  ghost predicate IsPassOver(files: Files, policy: MergePolicy, rank: Anchor -> int, regions: seq<Region>, pass: FilePass) {
    && multiset(pass.items) == multiset(OfPath(regions, pass.path)) && SortedBy(RegionOrder(rank), pass.items)
    && IsGreedyPass(Absorb(files, policy), pass.items, pass.outs, pass.starts)
  }

  ghost function Outputs(passes: seq<FilePass>): seq<Region> {
    if passes == [] then [] else Outputs(passes[..|passes| - 1]) + passes[|passes| - 1].outs
  }

  /**
    Every window lies inside one merged window of its file that carries all of its work, the counts add up,
    a merged window never exceeds the character limit, and each file is merged as far as its reading order allows.
   */
  method MergeDiscoveryRegions(files: Files, policy: MergePolicy, rank: Anchor -> int, regions: seq<Region>)
    returns (merged: seq<Region>, merges: nat, ghost passes: seq<FilePass>)
    requires forall k :: 0 <= k < |regions| ==> InFile(files, regions[k])
    ensures AllKept(merged, regions)
    ensures |merged| + merges == |regions|
    ensures EachOriginalOrSmall(files, policy, merged, regions)
    ensures forall out :: out in merged ==> InFile(files, out)
    ensures merged == Outputs(passes) && forall pass :: pass in passes ==> IsPassOver(files, policy, rank, regions, pass)
  {
    var byPath, order := GroupByPath(regions);
    merged, merges, passes := [], 0, [];
    for n := 0 to |order|
      invariant |merged| + merges == TotalItems(byPath, order[..n])
      invariant AreMerged(files, policy, rank, regions, order[..n], merged, passes)
    {
      var path := order[n];
      assert path in order && order[..n + 1] == order[..n] + [path];
      var outs, count;
      ghost var pass;
      outs, count, pass := MergePath(files, policy, rank, regions, path, byPath[path]);
      TotalItemsAppend(byPath, order[..n], path);
      PassIsAdded(files, policy, rank, regions, order[..n], merged, passes, pass);
      merged, merges, passes := merged + outs, merges + count, passes + [pass];
    }
    assert order[..|order|] == order;
    forall k | 0 <= k < |regions|
      ensures SomeKeeps(merged, regions[k])
    {
      OfPathMember(regions, regions[k].path, regions[k]);
      assert PathItems(byPath, regions[k].path) == OfPath(regions, regions[k].path);
      assert regions[k].path in order;
    }
  }

  /** The windows of the files in `paths` are merged, one pass a file. */
  ghost predicate AreMerged(files: Files, policy: MergePolicy, rank: Anchor -> int, regions: seq<Region>, paths: seq<FilePath>,
                            merged: seq<Region>, passes: seq<FilePass>)
  {
    && EachOriginalOrSmall(files, policy, merged, regions) && (forall out :: out in merged ==> InFile(files, out))
    && (forall r :: r in regions && r.path in paths ==> SomeKeeps(merged, r))
    && merged == Outputs(passes) && forall pass :: pass in passes ==> IsPassOver(files, policy, rank, regions, pass)
  }

  /** What the pass over one file yields. */
  ghost predicate IsMergedPath(files: Files, policy: MergePolicy, rank: Anchor -> int, regions: seq<Region>, pass: FilePass) {
    && IsPassOver(files, policy, rank, regions, pass) && AllKept(pass.outs, pass.items)
    && EachOriginalOrSmall(files, policy, pass.outs, pass.items) && (forall out :: out in pass.outs ==> InFile(files, out))
  }

  method MergePath(files: Files, policy: MergePolicy, rank: Anchor -> int, ghost regions: seq<Region>, path: FilePath,
                   own: seq<Region>)
    returns (outs: seq<Region>, merges: nat, ghost pass: FilePass)
    requires own == OfPath(regions, path) && forall k :: 0 <= k < |regions| ==> InFile(files, regions[k])
    ensures IsMergedPath(files, policy, rank, regions, pass) && pass.path == path && pass.outs == outs
    ensures |outs| + merges == |own|
  {
    var items := Sort(own, RegionOrder(rank));
    assert |items| == |multiset(items)| == |own|;
    forall k | 0 <= k < |items|
      ensures InFile(files, items[k])
    {
      assert items[k] in items;
      OfPathMember(regions, path, items[k]);
    }
    ghost var starts;
    outs, merges, starts := MergeFile(files, policy, items);
    pass := FilePass(path, items, outs, starts);
  }

  lemma PassIsAdded(files: Files, policy: MergePolicy, rank: Anchor -> int, regions: seq<Region>, paths: seq<FilePath>,
                    merged: seq<Region>, passes: seq<FilePass>, pass: FilePass)
    requires AreMerged(files, policy, rank, regions, paths, merged, passes)
    requires IsMergedPath(files, policy, rank, regions, pass)
    ensures AreMerged(files, policy, rank, regions, paths + [pass.path], merged + pass.outs, passes + [pass])
  {
    assert (passes + [pass])[..|passes|] == passes;
    forall r
      ensures r in pass.items <==> r in regions && r.path == pass.path
    {
      OfPathMember(regions, pass.path, r);
      assert r in pass.items <==> r in multiset(pass.items);
      assert r in OfPath(regions, pass.path) <==> r in multiset(OfPath(regions, pass.path));
    }
    forall r | r in regions && r.path in paths + [pass.path]
      ensures SomeKeeps(merged + pass.outs, r)
    {
    }
  }
}
