# Verification model of the scanner's bookkeeping

The scanner lets a language model look for vulnerabilities, but decides by plain code what is reused, reviewed, merged
and counted. This project models that code in Dafny and proves what it guarantees for every input, every answer of the
model and every interleaving of workers. The language model, the context broker, the extraction tools and the files are
arbitrary inputs.

| module | component |
|---|---|
| `TargetGrouping`, `PlannerAdmission` | union-find grouping of security surfaces and the planner's own connectivity check |
| `Invalidation`, `Investigations`, `SurfacePlanning` | snapshot deltas, bounded reverse fanout, the full recheck, rebasing and reuse of plans |
| `SymbolKeys`, `ContextOverlay`, `ReverseDependencies` | symbol keys, the immutable base with its overlay, affected symbols |
| `WorksetBatches`, `SourceRanges`, `RegionMerging` | batching under a size budget, route coverage, window merging |
| `CoverageReconciliation`, `DiscoveryRun`, `InvestigationHunt` | reduction of batch answers, and the two review loops |
| `CandidateDedup`, `AcceptanceMatching` | in-place merging of repeated reports, greedy matching |
| `ModelBudget`, `AreaSample` | the shared budget, the fair sampler |
| `GraphSnapshot`, `Reachability`, `Sequences` | shared data and lemmas |

Code that updates state is a class or a method with loops, proved against declarative functions and predicates; the
properties are lemmas about those. Hashes and string-joined keys are modelled as the tuples they are made of, and text
functions (normalising, slugs, words, path areas) as arbitrary functions. Sorting uses an arbitrary total preorder where
only the order's existence matters.

Where the code does less than one would hope, the code is kept, the exact condition is proved, and an input is given:

- The planner rejects a group exactly when one of its surfaces maps to nodes that are not linked inside the group.
- Incremental invalidation and the full recheck agree exactly when edges at untouched nodes repeat equally often.
- Base plus overlay is exact unless a departed symbol is masked by a row with the same key and normalised text.
- The size assumed while batching refuses exactly the cuttings without room for the additional digits of the slice count.
- Range subtraction repeats lines exactly when an inverted covered range lies inside the range and no earlier one reaches
  its lower end. The fallback segments clip what they pass to proper overlaps, and a window that starts beyond the end of
  its file never cuts a route, so neither can be affected; an indexed registration can, but only if its location reaches
  beyond the end of its file.
- The list of obligations needing context, all terminal after an error-free run, is empty exactly when each one that ever
  asked for context was in the end answered; one that was refused or given up stays listed, so the count is too high.
- One issue reported with two known, different effect families is kept twice; so are two spellings of one path in the
  shared candidate index.
- Acceptance totals add up exactly when the expectation ids involved are distinct; greedy matching can reach only half
  of the optimum, never less.
- Releasing a reservation twice, or resetting the budget while calls are in flight, undercounts the calls in flight; the
  counter is right at every moment exactly without such releases and resets.

## Model

| member | source | states |
|---|---|---|
| `TargetGrouping.Find` | src/plaidnox_sast/graph_targets.py:290-294 | Walking to the root while halving the path returns the root and changes no index's root; parents never exceed their children, so the walk ends. |
| `TargetGrouping.Union` | src/plaidnox_sast/graph_targets.py:296-299 | Exactly the two trees become one, under the smaller root; every other index keeps its root. |
| `TargetGrouping.HalvingKeepsRoots` | src/plaidnox_sast/graph_targets.py:290-294 | Pointing an index at its grandparent moves no index to another root. |
| `TargetGrouping.LinkingMovesOneTree` | src/plaidnox_sast/graph_targets.py:296-299 | Hanging one root under a smaller one moves exactly that root's tree. |
| `TargetGrouping.JoinedRootsAreComponents` | src/plaidnox_sast/graph_targets.py:301-313 | Once shared node ids and edge ends are joined, sharing a root is being linked by a chain of touching surfaces. |
| `TargetGrouping.GroupConnectedTargets` | src/plaidnox_sast/graph_targets.py:259-352 | The groups are exactly the connected components of the mapped surfaces, with the union of their node ids and their members in inventory order; the rest is reported unmapped; another snapshot is an error. |
| `TargetGrouping.SharingAGroupIsBeingLinked` | src/plaidnox_sast/graph_targets.py:283-327 | Two mapped surfaces share a group if and only if a chain of "share a node id" or "touch the two ends of one edge" links them. |
| `TargetGrouping.NoNodeCrossesGroups` | src/plaidnox_sast/graph_targets.py:301-327 | No node id belongs to two groups. |
| `TargetGrouping.NoEdgeCrossesGroups` | src/plaidnox_sast/graph_targets.py:308-327 | No graph edge has its ends in two groups. |
| `TargetGrouping.GroupsPartitionTheInventory` | src/plaidnox_sast/graph_targets.py:276-352 | The members of all groups and the unmapped list hold every inventoried surface exactly once. |
| `PlannerAdmission.AdmitTargets` | src/plaidnox_sast/graph_planner.py:106-152 | Worklist admission of a target set returns exactly the declared verdict, whose last condition is graph connectedness and not a run of the worklist. |
| `PlannerAdmission.ReachingAllIsConnected` | src/plaidnox_sast/graph_planner.py:136-152 | Reaching every target from the first one is the same as being pairwise connected inside the targets. |
| `PlannerAdmission.GroupConnectedIffSurfacesLinked` | src/plaidnox_sast/graph_planner.py:136-152 | A group is connected in its induced subgraph exactly when each of its surfaces has its own nodes linked there. |
| `PlannerAdmission.GroupAdmittedIffSurfacesLinked` | src/plaidnox_sast/graph_planner.py:106-152 | Within the configured bounds a group is admitted if and only if each surface is linked inside it. |
| `PlannerAdmission.UnambiguousGroupsAreAdmitted` | src/plaidnox_sast/graph_planner.py:106-152 | A group whose surfaces each map to one node is never rejected. |
| `PlannerAdmission.AmbiguousSurfaceIsRejected` | src/plaidnox_sast/graph_planner.py:136-152 | Without that condition the planner can reject a group: one surface over two unrelated nodes. |
| `Invalidation.ReverseFanout` | src/plaidnox_sast/graphify_adapter.py:151-191 | The level-by-level traversal with depth and node bounds computes the recursive expansion, including when it reports truncation. |
| `Invalidation.FanoutIsExactUnlessTruncated` | src/plaidnox_sast/graphify_adapter.py:151-191 | Everything reached depends on a change; if truncation is not reported, everything that depends on a change is reached. |
| `Invalidation.RoomyBoundsAreNotTruncated` | src/plaidnox_sast/graphify_adapter.py:151-191 | Bounds with room for every dependent node and one spare level rule truncation out. |
| `Invalidation.AffectedInvestigationIds` | src/plaidnox_sast/graphify_adapter.py:122-252 | Returns exactly the ids of the investigations that own something changed or reached, or all of them when the fanout was cut; non-positive bounds are an error. |
| `Invalidation.ReachableChangeAffects` | src/plaidnox_sast/graphify_adapter.py:138-252 | For every depth and node bound, an investigation owning a node from which a changed node, an end of a changed edge or a node of a changed file is reachable is returned. |
| `Invalidation.InvestigationGraphMismatches` | src/plaidnox_sast/graphify_adapter.py:301-371 | The three passes over dependencies, neighborhoods and windows report exactly the declared mismatches. |
| `Invalidation.UnaffectedStaysClean` | src/plaidnox_sast/graphify_adapter.py:80-107 | An investigation that was clean on the previous snapshot and is not affected by the delta passes the full recheck on the current one. |
| `Invalidation.DuplicateFreeNeighborhoodsAgree` | src/plaidnox_sast/graphify_adapter.py:287-298 | Edge lists without repetitions always meet the condition of that result. |
| `Invalidation.IncrementalAgreesWithFullRecheckIff` | src/plaidnox_sast/graphify_adapter.py:80-107 | Not being affected implies passing the full recheck, for every investigation, if and only if both snapshots repeat the edges at untouched nodes equally often. |
| `Invalidation.RepeatedEdgeGoesUnnoticed` | src/plaidnox_sast/graphify_adapter.py:80-107 | That condition can fail: repeating an edge leaves the delta empty, yet the recheck reports a changed neighborhood. |
| `Investigations.RebasingForgetsTheOrigin` | src/plaidnox_sast/investigations.py:167-216 | Rebasing twice is rebasing once: the result does not depend on the snapshots the plan came from. |
| `SurfacePlanning.RebasingKeepsMismatches` | src/plaidnox_sast/graph_surface_planning.py:289-330 | Rebasing touches only what the mismatch check ignores: the rebased plan is clean exactly when the stored one is. |
| `SurfacePlanning.PreparedIsFiled` | src/plaidnox_sast/graph_surface_planning.py:208-235 | The indexes built from stored rows file every prior plan under its own stable key and snapshot. |
| `SurfacePlanning.PlanGroup` | src/plaidnox_sast/graph_surface_planning.py:241-366 | One group ends in the declared outcome (gap, kept, carried over, fresh or error), and the store records exactly the events and saves of that outcome. |
| `SurfacePlanning.PlanGroups` | src/plaidnox_sast/graph_surface_planning.py:241-379 | The loop stops at the first group that fails, and otherwise reports one outcome a group in group order, with matching saves, events and counts. |
| `SurfacePlanning.Plan` | src/plaidnox_sast/graph_surface_planning.py:190-379 | A whole run with or without a store: success exactly without conflicts and failing groups, with the accounts of every group. |
| `SurfacePlanning.OutcomeIsBound` | src/plaidnox_sast/graph_surface_planning.py:252-366 | Every investigation a group yields carries the group's key and the durable snapshot id; each reused one is free of graph mismatches. |
| `SurfacePlanning.EveryGroupIsAccountedOnce` | src/plaidnox_sast/graph_surface_planning.py:241-379 | On normal return each group yields one gap or one investigation, in group order. |
| `SurfacePlanning.UnaffectedPriorIsCarried` | src/plaidnox_sast/graph_surface_planning.py:289-340 | A prior plan that matches its group and is unaffected by the delta is carried over, never planned again. |
| `SymbolKeys.KeysAreInjective` | src/plaidnox_sast/graph.py:136-166 | No two symbols of a file share a key, whatever their names, kinds, signatures and lines. |
| `SymbolKeys.StableSymbolKeys` | src/plaidnox_sast/graph.py:136-166 | Counting identities and variants in line order gives each symbol the declared key, a rank among its twins. |
| `ContextOverlay.SnapshotTables` | src/plaidnox_sast/context_fabric.py:44-75 | Building tables file by file yields exactly the summaries and rows of the whole graph. |
| `ContextOverlay.PersistOverlay` | src/plaidnox_sast/context_fabric.py:78-123 | Succeeds exactly when nothing is stored yet or the same overlay is; a repeated call changes nothing. |
| `ContextOverlay.OverlayReproducesCurrentIff` | src/plaidnox_sast/context_fabric.py:474-548 | Base plus overlay equals the summaries computed from scratch if and only if no departed symbol is masked by a row of the same key and normalised text. |
| `ContextOverlay.OverlayReproducesCurrent` | src/plaidnox_sast/context_fabric.py:474-548 | Nothing is masked while routes have their own kind and no file with a whole-file symbol is left without entries: then base plus overlay always equals the from-scratch summaries, files without a parser included. |
| `ContextOverlay.PlaceholderCanMaskDeparture` | src/plaidnox_sast/context_fabric.py:474-548 | Otherwise it can fail: a whole-file symbol that turns into the placeholder of the same normalised text, say after a blank line was added, keeps its stale summary. |
| `ContextOverlay.ContextStore.CreateBase` | src/plaidnox_sast/context_fabric.py:294-329 | A new base holds exactly what the graph derives; the same base again is a reuse that changes nothing; contradicting data is refused without a change; other contexts are untouched. |
| `ContextOverlay.ContextStore.CreateOverlay` | src/plaidnox_sast/context_fabric.py:466-550 | Stores exactly the overlay of the two graphs, or refuses without a change when other data is stored under its id. |
| `ContextOverlay.ContextStore.EffectiveSummaries` | src/plaidnox_sast/context_fabric.py:347-370 | Writing updates and popping tombstones one by one is the declared merge, for every order of rows. |
| `ContextOverlay.OverlayRoundTrip` | src/plaidnox_sast/context_fabric.py:347-370 | Creating an overlay and reading it back leaves the base as it was and returns the current graph's summaries exactly when nothing is masked. |
| `ReverseDependencies.AffectedSymbols` | src/plaidnox_sast/context_fabric.py:707-726 | The bounded frontier search returns exactly the symbols within the configured number of steps of a changed one. |
| `ReverseDependencies.WithinIsShortWalk` | src/plaidnox_sast/context_fabric.py:713-725 | Being within so many steps is having a walk with so few edges to a changed symbol. |
| `WorksetBatches.Partition` | src/plaidnox_sast/worksets.py:286-328 | The greedy loop finds a partition with the fewest batches, or names a slice that fits nowhere; it fails exactly when no partition fits. |
| `WorksetBatches.LeadIsKept` | src/plaidnox_sast/worksets.py:286-328 | Closing a batch only when the next slice does not fit keeps the greedy cut ahead of every other way of cutting. |
| `WorksetBatches.PartFits` | src/plaidnox_sast/worksets.py:267-284 | A part of a fitting batch fits at the same or an earlier position, although smaller numbers change the digits written. |
| `WorksetBatches.WrittenSizeIsWithinEstimate` | src/plaidnox_sast/worksets.py:329-349 | The size written is at most the size assumed while partitioning, so the closing size check is unreachable. |
| `WorksetBatches.Batches` | src/plaidnox_sast/worksets.py:251-349 | The batches concatenate to the original slices; each is non-empty and within both limits; indexes, counts and remaining numbers agree, with one final batch; no partition has fewer. |
| `WorksetBatches.TightBudgetIsRefused` | src/plaidnox_sast/worksets.py:286-328 | The size assumption is not exact: a budget that two written batches would meet can be refused. |
| `WorksetBatches.AcceptedIffRoomForDigits` | src/plaidnox_sast/worksets.py:286-349 | The exact price of that assumption: a cutting is accepted if and only if every written batch has room for the digits by which the slice count is longer than the batch count. |
| `WorksetBatches.SlackIsAccepted` | src/plaidnox_sast/worksets.py:251-349 | Batches that each leave one character less than the digits of the slice count are never refused. |
| `SourceRanges.CutIsExact` | src/plaidnox_sast/optimized_ai.py:1053-1074 | A piece keeps a stretch of lines whole exactly when the cut lies on one side of it; the pieces share lines exactly when the cut is inverted with both ends inside the range. |
| `SourceRanges.SubtractCoveredRanges` | src/plaidnox_sast/optimized_ai.py:1053-1074 | Exactly the uncovered lines remain. The ranges are ordered and disjoint if and only if no inverted covered range lies inside the subtracted one without an earlier range reaching its lower end; otherwise some line is there twice. |
| `SourceRanges.InvertedRangeRepeatsLines` | src/plaidnox_sast/optimized_ai.py:1053-1074 | Subtracting the inverted range 6 to 3 from 1 to 10 leaves some line twice. |
| `SourceRanges.WindowsRepeatOnlyPastTheEnd` | src/plaidnox_sast/optimized_ai.py:742-743 | Windows are inverted only beyond the end of their file, so only a range that reaches beyond it can be left with repeated lines. |
| `SourceRanges.NextChunk` | src/plaidnox_sast/optimized_ai.py:1343-1350 | The chunk fits both limits and cannot be longer; it is empty exactly when its first line is too long. |
| `SourceRanges.RegionPlan.AddRange` | src/plaidnox_sast/optimized_ai.py:1340-1365 | Chunks of one uncovered range are added one by one, each new and within the limits; it fails exactly on a line that is too long, with everything before that line added. |
| `SourceRanges.RegionPlan.AddRoute` | src/plaidnox_sast/optimized_ai.py:1319-1365 | Succeeds exactly for a valid range without an uncovered line that is too long, and then every line of the route is in a region of its anchor. Otherwise exactly its lines before the first such line are. Added regions respect the limits and re-cover no line. |
| `SourceRanges.AddUncoveredIndexedRoutes` | src/plaidnox_sast/optimized_ai.py:1300-1368 | Succeeds exactly when no eligible route has a fault, judged by the regions at the start, and then all lines of all of them are covered. Otherwise the error is that of the first faulty route; the routes before it, and its lines before one that is too long, are covered. |
| `RegionMerging.MergedKeepsBoth` | src/plaidnox_sast/optimized_ai.py:976-1043 | The spanning window of two mergeable ones contains both, with all their work and the structural anchor; of two specifications of one obligation the later stays. |
| `RegionMerging.MergeFile` | src/plaidnox_sast/optimized_ai.py:1007-1049 | The pass cuts the sorted windows into runs, each merged as long as it could be, and keeps every window's lines and work. |
| `RegionMerging.MergeDiscoveryRegions` | src/plaidnox_sast/optimized_ai.py:989-1050 | Every input window, also one that starts beyond the end of its file, lies in one output window of its file with all of its work; outputs plus merges equals inputs; merged windows fit the character limit; each file gets one greedy pass in reading order. |
| `CoverageReconciliation.ReconcileWorksetBatches` | src/plaidnox_sast/coverage.py:136-230 | The output is exactly the passed-through observations, one reduced observation per planned obligation, and one open one per workset with absent batches; all four totals are exact. |
| `CoverageReconciliation.ReconcileObligations` | src/plaidnox_sast/coverage.py:75-133 | The five counts are the sizes of the declared sets of canonical groups. |
| `CoverageReconciliation.UnresolvedGroupsAreExact` | src/plaidnox_sast/coverage.py:98-125 | The required groups left unresolved are exactly the incomplete planned obligations, the worksets with absent batches, and the open outside ones. |
| `CoverageReconciliation.NoFalseCompletion` | src/plaidnox_sast/coverage.py:86-230 | No unresolved required group implies that every batch asked about an obligation that its first batch states as required gave exactly one resolved answer, and that no batch is absent; nothing outside a workset can mask it. |
| `CoverageReconciliation.AgreedRequirementsAreAnswered` | src/plaidnox_sast/coverage.py:86-230 | When the batches of a workset agree on what is required, the same holds for whatever any of them states as required. |
| `CoverageReconciliation.CountsIgnoreOrder` | src/plaidnox_sast/coverage.py:75-230 | The counts do not depend on the order of the observations. |
| `CoverageReconciliation.Reconcile` | src/plaidnox_sast/coverage.py:75-230 | Both passes in sequence have that guarantee, for obligations required as first stated. |
| `DiscoveryRun.AnswerStandsIffCoherent` | src/plaidnox_sast/optimized_ai.py:639-682 | An answer stands exactly when it is the only one, well formed, linked to known candidates just when it found one, and asks for context just when it needs some. |
| `DiscoveryRun.RejectedLinksAreExcused` | src/plaidnox_sast/optimized_ai.py:654-668 | The only refusal that is no contract issue is one whose links were all rejected for grounding. |
| `DiscoveryRun.CoverageState.Apply` | src/plaidnox_sast/optimized_ai.py:624-682 | Exactly the waiting obligations get the verdict on their replies; waiting list, known candidates, contract issues and grounding rejections change accordingly. |
| `DiscoveryRun.CoverageState.MarkUnresolved` | src/plaidnox_sast/optimized_ai.py:684-696 | Exactly the named obligations become unresolved without links or requests; the waiting list is left as it was. |
| `DiscoveryRun.ChooseRequests` | src/plaidnox_sast/optimized_ai.py:2019-2032 | The distinct requests in order of priority, cut at the limit; no omitted one should precede a chosen one. |
| `DiscoveryRun.CoverageState.Gather` | src/plaidnox_sast/optimized_ai.py:2033-2055 | No request is asked and no evidence accepted twice; beyond the first packet the character limit holds; nothing accepted means nothing new was found. |
| `DiscoveryRun.CoverageState.ReviewRound` | src/plaidnox_sast/optimized_ai.py:1887-2070 | A round finishes only with everything judged, out of rounds, or without new evidence for the requests that come first; it goes on only with new evidence; terminal dispositions stay; the list of obligations needing context changes only by answers that stand. |
| `DiscoveryRun.AnalyzeRegion` | src/plaidnox_sast/optimized_ai.py:1878-2098 | For any model and broker answers: each round judges exactly what waits, terminal dispositions never change, nothing is asked or delivered twice, every error-free run ends with all obligations terminal. The list of obligations needing context holds those whose last standing answer asked for context; after an error-free run it is empty if and only if every obligation that ever asked was in the end answered by the model. |
| `DiscoveryRun.ListStaysExact` | src/plaidnox_sast/optimized_ai.py:671-696 | Being listed is that some standing answer asked for context and none settled the obligation since: refusing and giving up do not unlist it. |
| `DiscoveryRun.GivingUpLeavesWaitingListed` | src/plaidnox_sast/optimized_ai.py:2008-2010 | A run in which that fails: the only answer asks for context, no round is left, nothing waits any more, yet the obligation is still listed and counted. |
| `InvestigationHunt.ReviewRound` | src/plaidnox_sast/ai.py:1370-1460 | A review passes exactly when each pending question is answered once, candidates are new and grounded, and links and requests match the statuses; then its candidates become taken. |
| `InvestigationHunt.SameCountMeansExactlyOnce` | src/plaidnox_sast/ai.py:1424-1427 | Comparing lengths and sets of ids is the same as every pending question being answered exactly once. |
| `InvestigationHunt.FetchContext` | src/plaidnox_sast/ai.py:1484-1521 | Every request counts as resolved or empty; no window or edge reference is delivered twice; a valid window is withheld only when known or over budget. |
| `InvestigationHunt.FilingKeepsSound` | src/plaidnox_sast/ai.py:1536-1541 | A sound review of waiting questions keeps the accepted candidates equal to the linked ones. |
| `InvestigationHunt.RunRound` | src/plaidnox_sast/ai.py:1469-1541 | A continuation asks exactly the waiting questions; it stops only with nothing waiting or asked, no usable broker, or no new evidence. |
| `InvestigationHunt.Hunt` | src/plaidnox_sast/ai.py:1347-1568 | For any answers: every question is reported once and none as waiting, settled questions are never asked again or changed, accepted candidates are exactly those linked, delivered characters stay within the maximum, and requests total resolved plus empty plus deferred. |
| `CandidateDedup.SamenessIsSymmetric` | src/plaidnox_sast/fingerprint.py:119-125 | Being the same candidate or cluster, and being the same issue, do not depend on the order of the two. |
| `CandidateDedup.OneIssueIsKeptTwiceIff` | src/plaidnox_sast/fingerprint.py:329-359 | Of two reports of one issue deduplication keeps both exactly when their structural keys are known and differ. |
| `CandidateDedup.ConflictingFamiliesKeepOneIssueTwice` | src/plaidnox_sast/fingerprint.py:119-125 | That happens: one issue on one line with two effect families is kept twice. |
| `CandidateDedup.AbsorbingConserves` | src/plaidnox_sast/fingerprint.py:238-272 | Folding keeps the profile, joins the non-empty task ids, keeps all merged evidence, and takes the repeat's evidence unless the list is full. |
| `CandidateDedup.Absorb` | src/plaidnox_sast/fingerprint.py:238-272 | The in-place updates are exactly that folding. |
| `CandidateDedup.AbsorbCluster` | src/plaidnox_sast/fingerprint.py:158-186 | Folding in place, where the repeat also becomes a variant unless an identical one is listed or the list is full. |
| `CandidateDedup.FoldRepeats` | src/plaidnox_sast/fingerprint.py:330-339 | Each fingerprint keeps its most confident report, in order of first appearance, and every report lives on in the one kept for its fingerprint. |
| `CandidateDedup.ClusterReports` | src/plaidnox_sast/fingerprint.py:340-356 | By falling confidence, the first seen first among equals, each report is kept if it repeats no kept one, and otherwise folded into the first that it repeats; kept ones are pairwise different. |
| `CandidateDedup.Deduplicate` | src/plaidnox_sast/fingerprint.py:329-359 | Every report survives, for one of the two folding reasons, in a kept one at least as confident that carries its task ids; kept ones are pairwise different and ordered by first appearance; the count is inputs minus outputs; no identity changes. |
| `CandidateDedup.CandidateIndex.Admit` | src/plaidnox_sast/fingerprint.py:311-326 | A candidate is admitted exactly when it repeats nothing filed under its path; otherwise the first such cluster takes it and nothing else changes. |
| `CandidateDedup.CandidateIndex.FiledCandidatesAreSameIff` | src/plaidnox_sast/fingerprint.py:301-326 | Two admitted candidates are the same exactly when their raw paths differ and their structural keys agree. |
| `CandidateDedup.SpellingsOfOnePathAreFiledApart` | src/plaidnox_sast/fingerprint.py:311-326 | That happens: any report with a structural key is admitted twice under two spellings of its path, since buckets use the raw path and keys the normalised one. |
| `AcceptanceMatching.MatchFindings` | src/plaidnox_sast/acceptance.py:218-233 | The pairing is first fit: each expectation gets the first matching finding no earlier one holds; matched, missed and leftover report it. |
| `AcceptanceMatching.GreedyIsUnique` | src/plaidnox_sast/acceptance.py:225-232 | The first-fit rule determines the pairing. |
| `AcceptanceMatching.GreedyIsAtLeastHalf` | src/plaidnox_sast/acceptance.py:218-233 | Any one-to-one matching has at most twice as many pairs. |
| `AcceptanceMatching.HalfIsReached` | src/plaidnox_sast/acceptance.py:218-233 | The factor of two is reached. |
| `AcceptanceMatching.UnsharedFindingsAreAllMatched` | src/plaidnox_sast/acceptance.py:218-233 | An expectation whose findings match nothing else is matched whenever any finding matches it. |
| `AcceptanceMatching.LeftoverCount` | src/plaidnox_sast/acceptance.py:223-233 | Pairs and leftover findings total all findings. |
| `AcceptanceMatching.TotalsAddUpIff` | src/plaidnox_sast/acceptance.py:223-233 | Counted by id, matched plus leftover totals the findings, and matched plus missed the expectations, exactly when the ids involved are distinct. |
| `ModelBudget.ModelUsageBudget.Reserve` | src/plaidnox_sast/controls.py:52-70 | Refuses for the first exceeded limit and then changes nothing; otherwise takes one call, one slot, the characters and the requested tokens. |
| `ModelBudget.ModelUsageBudget.Cancel` | src/plaidnox_sast/controls.py:72-74 | Frees a slot, never below zero, and refunds nothing else. |
| `ModelBudget.ModelUsageBudget.Complete` | src/plaidnox_sast/controls.py:76-93 | Frees a slot, charges totals and the model, and reports an exceeded total before an exceeded model. |
| `ModelBudget.ModelUsageBudget.Reset` | src/plaidnox_sast/controls.py:40-50 | Starts over with nothing used, whatever is still in flight. |
| `ModelBudget.LimitsAlwaysHold` | src/plaidnox_sast/controls.py:40-74 | In every interleaving the limits hold, the counters are sums over the reservations granted since the last reset, and cancelling refunds only the slot. |
| `ModelBudget.InflightCountsHeld` | src/plaidnox_sast/controls.py:40-93 | While workers release only what they hold and resets wait until nothing is held, the counter equals the reservations held and stays within its cap. |
| `ModelBudget.FloorNeverEngages` | src/plaidnox_sast/controls.py:40-78 | Under the same discipline the floor at zero never engages. |
| `ModelBudget.CounterIsRightIff` | src/plaidnox_sast/controls.py:40-78 | The counter is right at every moment if and only if every release gives back something held or happens when nothing is held, and every reset happens when nothing is held. |
| `ModelBudget.DoubleReleaseUndercounts` | src/plaidnox_sast/controls.py:72-74 | Releasing one reservation twice leaves the counter one short. |
| `ModelBudget.DoubleReleaseOverrunsTheCap` | src/plaidnox_sast/controls.py:72-74 | A budget at its cap then admits one call too many. |
| `ModelBudget.ResetOverrunsTheCap` | src/plaidnox_sast/controls.py:40-70 | After a reset the cap admits as many calls again as it allows, on top of those still in flight. |
| `ModelBudget.PerModelUsageSumsUp` | src/plaidnox_sast/controls.py:76-87 | Per-model cost and tokens add up to the scan totals in every reachable state. |
| `AreaSample.BalancedAreaSample` | src/plaidnox_sast/ai.py:3347-3383 | Returns as many items as the limit allows, area by area in rounds, a prefix of each area; no area lags by two unless exhausted; the truncated areas are exactly those with an omitted item. |
| `AreaSample.OmissionIffShort` | src/plaidnox_sast/ai.py:3379-3382 | Over distinct items an area has an omitted item exactly when its share is short. |

## Left out

- Language model calls, prompts, response decoding and schema validation: answers are arbitrary inputs.
- Extraction (Tree-sitter, Graphify, ripgrep), file reading and redaction: snapshots, symbols, line lengths and window
  validity are given; a redaction that changes a size is not modelled.
- SQL text, transactions and the ORM repositories: tables are maps and sets, and rows are unique by their keys.
- Collisions of hashes and of keys joined with separators: such keys are read as injective tuples.
- Mapping of surfaces to graph nodes, target order and the names of group ids: grouping starts from mapped targets.
- Planner payloads, neighborhoods and summaries given to the model: only admission of the target set is modelled.
- JSON traversal of stored investigation payloads: the ids it collects are given as sets.
- Symbol and route rows kept by an overlay, percentages and packets: only the summaries of an overlay are modelled.
- Derivation of missing canonical ids and importances: every observation carries its own.
- `CoverageReconciliation.NoFalseCompletion`: assumes that obligations planned for worksets carry digest ids and that
  outside observations do not carry a planned workset's scope, as the code that builds them arranges.
- `TargetGrouping.GroupConnectedTargets`: does not model the sorting of the groups and of the members in a group.
- `SourceRanges.AddUncoveredIndexedRoutes`: routes come in the given order; the texts of the errors are left out.
- `SurfacePlanning.Plan`: the error for a missing scan id, the plan document written before the loop, and the list of
  groups whose earlier investigation found no candidate.
- `SymbolKeys.KeysAreInjective`: keys are tuples, so names that contain the separator are not modelled.
- `ContextOverlay.ContextStore.CreateOverlay`: change and symbol rows are left out; only the summaries are stored.
- The loops that plan fallback segments and indexed registrations, and the enclosing symbol lookup, which is an arbitrary function.
- `DiscoveryRun.AnalyzeRegion`: candidate construction and the shared index are left out; a candidate is grounded or not.
- `DiscoveryRun.CoverageState.Apply`: evidence fields of a disposition other than status, links, requests and reason.
- `InvestigationHunt.Hunt`: fallback search counters, the truncation flag, reasons and checkpoint reuse are left out.
- `CandidateDedup.Deduplicate`: parts of a fingerprint that are normalised twice are normalised once, and the repository
  name, equal for all candidates of one call, is left out.
- The text rules of candidate keys, issue words and expectation matching are arbitrary functions and predicates.
- Comparison with prior reports, which repeats the greedy matching with another predicate.
- `ModelBudget.ModelUsageBudget.Complete`: cost is a real number, so rounding is not modelled.
- The per-model usage report and the metrics dictionaries, which copy fields.
- Routing, policies, configuration, reporters, command line, service, worker leases and checkpoints.
