/** One planning run over the surface groups: gap, reuse, rebase or plan, group by group. */
module SurfacePlanning {
  import opened GraphSnapshot
  import opened Investigations
  import opened Invalidation
  import opened Reachability
  import opened Sequences
  import opened TargetGrouping

  /** A stored investigation: indexed columns beside the serialized value. */
  datatype Row = Row(
    scanId: string, investigationId: InvestigationId, snapshotId: SnapshotId, stableKey: StableKey,
    evidenceHash: EvidenceHash, state: State, data: Investigation)

  datatype PlanningError = ConflictingRows | RowConflictsWithPayload | ContractViolated | ForeignCodebase
    | StaleSameScanPlan | PlannerFailed | ForeignPlan

  datatype Gap = Gap(key: StableKey, nodeIds: set<NodeId>)

  datatype Status = PlanningStarted | Failed | Reused | PlannedNow

  datatype GroupEvent = GroupEvent(key: StableKey, status: Status, investigationId: Option<InvestigationId>)

  /** Everything one run reads. `contract` stands for the schema and redaction checks. */
  datatype Run = Run(
    codebaseId: string,
    scanId: string,
    repositoryContext: string,
    snapshot: CodeGraphSnapshot,
    storageSnapshotId: Option<SnapshotId>,
    maximumTargetNodes: nat,
    invalidated: set<InvestigationId>,
    reusableNoCandidates: set<InvestigationId>,
    contract: Investigation -> bool,
    planGroup: SurfaceGroup -> Option<Investigation>)
  {
    function DurableId(): SnapshotId {
      if storageSnapshotId.Some? then storageSnapshotId.value else snapshot.Id()
    }

    function ContextHash(group: SurfaceGroup): Fingerprint {
      PlanningContext(repositoryContext, group.surfaceContext)
    }
  }

  /** The three lookups a run prepares from stored rows. */
  datatype PriorPlans = PriorPlans(existing: map<StableKey, Row>, reusable: map<StableKey, Row>, prior: map<StableKey, Row>)

  function KeyOfGroup(group: SurfaceGroup): StableKey {
    GroupKey(group.surfaceKeys)
  }

  predicate TargetsMatch(i: Investigation, nodeIds: set<NodeId>) {
    nodeIds == (if i.targetRef.nodeIds.Some? then set id | id in i.targetRef.nodeIds.value
                else if i.targetRef.nodeId.Some? then {i.targetRef.nodeId.value} else {})
  }

  predicate Valid(i: Investigation, contract: Investigation -> bool) {
    contract(i) && i.evidenceHash == EvidenceHashOf(i)
  }

  function Restore(row: Row, contract: Investigation -> bool): Result<Investigation, PlanningError> {
    var i := row.data;
    if !Valid(i, contract) then Failure(ContractViolated)
    else if i.investigationId != row.investigationId || i.snapshotId != row.snapshotId || i.stableKey != row.stableKey
            || i.evidenceHash != row.evidenceHash || i.state != row.state then Failure(RowConflictsWithPayload)
    else Success(i)
  }

  // ---------------------------------------------------------------- what one group yields

  datatype Outcome =
    | Oversized
    | Kept(investigation: Investigation)
    | Carried(investigation: Investigation)
    | Fresh(investigation: Investigation)
    | Fails(error: PlanningError)

  ghost function SameScanOutcome(run: Run, group: SurfaceGroup, row: Row): Outcome {
    var restored := Restore(row, run.contract);
    if restored.Failure? then Fails(restored.error)
    else if restored.value.codebaseId != run.codebaseId then Fails(ForeignCodebase)
    else if !Clean(restored.value, run.snapshot, Some(run.ContextHash(group)))
            || !TargetsMatch(restored.value, group.nodeIds) then Fails(StaleSameScanPlan)
    else Kept(restored.value)
  }

  ghost predicate Reusable(run: Run, group: SurfaceGroup, i: Investigation) {
    && i.codebaseId == run.codebaseId && i.investigationId !in run.invalidated
    && Clean(i, run.snapshot, Some(run.ContextHash(group))) && TargetsMatch(i, group.nodeIds)
  }

  ghost function FreshOutcome(run: Run, group: SurfaceGroup): Outcome {
    var planned := run.planGroup(group);
    if planned.None? then Fails(PlannerFailed)
    else if planned.value.stableKey != KeyOfGroup(group) then Fails(ForeignPlan)
    else
      var bound := BindStorageSnapshot(planned.value, run.DurableId());
      if bound != planned.value && !Valid(bound, run.contract) then Fails(ContractViolated) else Fresh(bound)
  }

  ghost function PriorRow(stored: PriorPlans, key: StableKey): Option<Row> {
    if key in stored.reusable then Some(stored.reusable[key]) else Lookup(stored.prior, key)
  }

  ghost function OutcomeOf(run: Run, stored: PriorPlans, group: SurfaceGroup): Outcome {
    var key := KeyOfGroup(group);
    if |group.nodeIds| > run.maximumTargetNodes then Oversized
    else if key in stored.existing then SameScanOutcome(run, group, stored.existing[key])
    else if PriorRow(stored, key).None? then FreshOutcome(run, group)
    else
      var restored := Restore(PriorRow(stored, key).value, run.contract);
      if restored.Failure? then Fails(restored.error)
      else if !Reusable(run, group, restored.value) then FreshOutcome(run, group)
      else
        var rebased := Rebase(restored.value, run.DurableId(), run.snapshot.Id());
        if Valid(rebased, run.contract) then Carried(rebased) else Fails(ContractViolated)
  }

  // ---------------------------------------------------------------- what a whole run yields

  datatype PlanningResult = PlanningResult(
    investigations: seq<Investigation>, gaps: seq<Gap>, reusedKeys: seq<StableKey>)
  {
    function With(group: SurfaceGroup, o: Outcome): PlanningResult
      requires !o.Fails?
    {
      match o
      case Oversized => this.(gaps := gaps + [Gap(KeyOfGroup(group), group.nodeIds)])
      case Fresh(i) => this.(investigations := investigations + [i])
      case Kept(i) => this.(investigations := investigations + [i], reusedKeys := reusedKeys + [KeyOfGroup(group)])
      case Carried(i) => this.(investigations := investigations + [i], reusedKeys := reusedKeys + [KeyOfGroup(group)])
    }
  }

  ghost function Investigated(run: Run, stored: PriorPlans, groups: seq<SurfaceGroup>): seq<Investigation> {
    if groups == [] then [] else
      var front, o := Investigated(run, stored, groups[..|groups| - 1]), OutcomeOf(run, stored, groups[|groups| - 1]);
      if o.Kept? || o.Carried? || o.Fresh? then front + [o.investigation] else front
  }

  ghost function GapsOf(run: Run, groups: seq<SurfaceGroup>): seq<Gap> {
    if groups == [] then [] else
      var front, g := GapsOf(run, groups[..|groups| - 1]), groups[|groups| - 1];
      if |g.nodeIds| > run.maximumTargetNodes then front + [Gap(KeyOfGroup(g), g.nodeIds)] else front
  }

  ghost function ReusedKeys(run: Run, stored: PriorPlans, groups: seq<SurfaceGroup>): seq<StableKey> {
    if groups == [] then [] else
      var front, g := ReusedKeys(run, stored, groups[..|groups| - 1]), groups[|groups| - 1];
      var o := OutcomeOf(run, stored, g);
      if o.Kept? || o.Carried? then front + [KeyOfGroup(g)] else front
  }

  /** Investigations the store receives: everything but plans it already holds for this scan. */
  ghost function SavedBy(run: Run, stored: PriorPlans, groups: seq<SurfaceGroup>): seq<Investigation> {
    if groups == [] then [] else
      var front, o := SavedBy(run, stored, groups[..|groups| - 1]), OutcomeOf(run, stored, groups[|groups| - 1]);
      front + Saving(o)
  }

  ghost function Saving(o: Outcome): seq<Investigation> {
    if o.Carried? || o.Fresh? then [o.investigation] else []
  }

  ghost function EventsOf(run: Run, stored: PriorPlans, groups: seq<SurfaceGroup>): seq<GroupEvent> {
    if groups == [] then [] else
      var front, g := EventsOf(run, stored, groups[..|groups| - 1]), groups[|groups| - 1];
      front + GroupEvents(KeyOfGroup(g), OutcomeOf(run, stored, g))
  }

  ghost function GroupEvents(key: StableKey, o: Outcome): seq<GroupEvent> {
    if o.Kept? || o.Carried? then [GroupEvent(key, Reused, Some(o.investigation.investigationId))]
    else if o.Fresh? then
      [GroupEvent(key, PlanningStarted, None), GroupEvent(key, PlannedNow, Some(o.investigation.investigationId))]
    else []
  }

  ghost predicate NoFailure(run: Run, stored: PriorPlans, groups: seq<SurfaceGroup>) {
    forall k :: 0 <= k < |groups| ==> !OutcomeOf(run, stored, groups[k]).Fails?
  }

  ghost predicate FirstFailure(run: Run, stored: PriorPlans, groups: seq<SurfaceGroup>, k: nat, error: PlanningError)
    requires k < |groups|
  {
    NoFailure(run, stored, groups[..k]) && OutcomeOf(run, stored, groups[k]) == Fails(error)
  }

  // ---------------------------------------------------------------- the run

  class PlanStore {
    var saved: seq<Investigation>
    var events: seq<GroupEvent>
    var completed: bool

    constructor ()
      ensures saved == [] && events == [] && !completed
    {
      saved, events, completed := [], [], false;
    }

    method Save(i: Investigation)
      modifies this`saved
      ensures saved == old(saved) + [i]
    {
      saved := saved + [i];
    }

    method Record(key: StableKey, status: Status, id: Option<InvestigationId>)
      modifies this`events
      ensures events == old(events) + [GroupEvent(key, status, id)]
    {
      events := events + [GroupEvent(key, status, id)];
    }

    method Complete()
      modifies this`completed
      ensures completed
    {
      completed := true;
    }
  }

  method RecheckClean(i: Investigation, s: CodeGraphSnapshot, context: Fingerprint) returns (clean: bool)
    ensures clean == Clean(i, s, Some(context))
  {
    var mismatches := InvestigationGraphMismatches(Some(i), s, Some(context));
    clean := mismatches == {};
    if !clean {
      var m :| m in mismatches;
      assert HasMismatch(i, s, Some(context), m);
    }
  }

  method KeepSameScan(run: Run, ghost stored: PriorPlans, group: SurfaceGroup, row: Row, store: PlanStore)
    returns (r: Result<Investigation, PlanningError>)
    modifies store`events
    ensures var o := SameScanOutcome(run, group, row);
      if r.Success? then o == Kept(r.value) else o == Fails(r.error)
    ensures r.Success? ==> store.events == old(store.events) + GroupEvents(KeyOfGroup(group), Kept(r.value))
  {
    var restored := Restore(row, run.contract);
    if restored.Failure? {
      return Failure(restored.error);
    }
    if restored.value.codebaseId != run.codebaseId {
      return Failure(ForeignCodebase);
    }
    var clean := RecheckClean(restored.value, run.snapshot, run.ContextHash(group));
    if !clean || !TargetsMatch(restored.value, group.nodeIds) {
      return Failure(StaleSameScanPlan);
    }
    store.Record(KeyOfGroup(group), Reused, Some(restored.value.investigationId));
    return restored;
  }

  method PlanFresh(run: Run, group: SurfaceGroup, store: PlanStore?) returns (r: Result<Investigation, PlanningError>)
    modifies if store == null then {} else {store}
    ensures var o := FreshOutcome(run, group);
      if r.Success? then o == Fresh(r.value) else o == Fails(r.error)
    ensures store != null && r.Success? ==>
      && store.saved == old(store.saved) + [r.value]
      && store.events == old(store.events) + GroupEvents(KeyOfGroup(group), Fresh(r.value))
    ensures store != null ==> store.completed == old(store.completed)
  {
    var key := KeyOfGroup(group);
    if store != null {
      store.Record(key, PlanningStarted, None);
    }
    var planned := run.planGroup(group);
    if planned.None? {
      if store != null {
        store.Record(key, Failed, None);
      }
      return Failure(PlannerFailed);
    }
    if planned.value.stableKey != key {
      return Failure(ForeignPlan);
    }
    var bound := BindStorageSnapshot(planned.value, run.DurableId());
    if bound != planned.value && !Valid(bound, run.contract) {
      return Failure(ContractViolated);
    }
    if store != null {
      store.Save(bound);
      store.Record(key, PlannedNow, Some(bound.investigationId));
    }
    return Success(bound);
  }

  datatype PriorCheck = NotReusable | Rebased(investigation: Investigation) | Rejected(error: PlanningError)

  method TryPrior(run: Run, group: SurfaceGroup, row: Row) returns (c: PriorCheck)
    ensures var restored := Restore(row, run.contract);
      c == if restored.Failure? then Rejected(restored.error)
           else if !Reusable(run, group, restored.value) then NotReusable
           else
             var rebased := Rebase(restored.value, run.DurableId(), run.snapshot.Id());
             if Valid(rebased, run.contract) then Rebased(rebased) else Rejected(ContractViolated)
  {
    var restored := Restore(row, run.contract);
    if restored.Failure? {
      return Rejected(restored.error);
    }
    var prior := restored.value;
    var clean := RecheckClean(prior, run.snapshot, run.ContextHash(group));
    if prior.codebaseId == run.codebaseId && prior.investigationId !in run.invalidated && clean
      && TargetsMatch(prior, group.nodeIds) {
      var rebased := Rebase(prior, run.DurableId(), run.snapshot.Id());
      return if Valid(rebased, run.contract) then Rebased(rebased) else Rejected(ContractViolated);
    }
    return NotReusable;
  }

  /** What the result and the store hold once the first groups are done. */
  ghost predicate Accounts(run: Run, stored: PriorPlans, groups: seq<SurfaceGroup>, r: PlanningResult) {
    && NoFailure(run, stored, groups)
    && r.investigations == Investigated(run, stored, groups)
    && r.gaps == GapsOf(run, groups)
    && r.reusedKeys == ReusedKeys(run, stored, groups)
  }

  method PlanGroup(run: Run, stored: PriorPlans, group: SurfaceGroup, store: PlanStore?)
    returns (o: Outcome)
    requires store == null ==> stored == PriorPlans(map[], map[], map[])
    modifies if store == null then {} else {store}
    ensures o == OutcomeOf(run, stored, group)
    ensures store != null && !o.Fails? ==>
      && store.events == old(store.events) + GroupEvents(KeyOfGroup(group), o)
      && store.saved == old(store.saved) + Saving(o)
    ensures store != null ==> store.completed == old(store.completed)
  {
    var key := KeyOfGroup(group);
    if |group.nodeIds| > run.maximumTargetNodes {
      return Oversized;
    }
    if key in stored.existing && store != null {
      var kept := KeepSameScan(run, stored, group, stored.existing[key], store);
      return if kept.Success? then Kept(kept.value) else Fails(kept.error);
    }
    var prior := if key in stored.reusable then Some(stored.reusable[key]) else Lookup(stored.prior, key);
    if prior.Some? {
      var checked := TryPrior(run, group, prior.value);
      if checked.Rejected? {
        return Fails(checked.error);
      }
      if checked.Rebased? {
        if store != null {
          store.Save(checked.investigation);
          store.Record(key, Reused, Some(checked.investigation.investigationId));
        }
        return Carried(checked.investigation);
      }
    }
    var planned := PlanFresh(run, group, store);
    return if planned.Success? then Fresh(planned.value) else Fails(planned.error);
  }

  /** Accounting for one more group extends every ledger by that group's entries. */
  lemma AccountsExtend(run: Run, stored: PriorPlans, groups: seq<SurfaceGroup>, n: nat, r: PlanningResult)
    requires n < |groups| && Accounts(run, stored, groups[..n], r) && !OutcomeOf(run, stored, groups[n]).Fails?
    ensures var g, o := groups[n], OutcomeOf(run, stored, groups[n]);
      && Accounts(run, stored, groups[..n + 1], r.With(g, o))
      && SavedBy(run, stored, groups[..n + 1]) == SavedBy(run, stored, groups[..n]) + Saving(o)
      && EventsOf(run, stored, groups[..n + 1]) == EventsOf(run, stored, groups[..n]) + GroupEvents(KeyOfGroup(g), o)
  {
    assert groups[..n + 1][..n] == groups[..n] && groups[..n + 1][n] == groups[n];
  }

  /** On success `persisted` counts the investigations stored by this run. */
  method PlanGroups(run: Run, stored: PriorPlans, groups: seq<SurfaceGroup>, store: PlanStore?)
    returns (r: Result<PlanningResult, PlanningError>, persisted: nat)
    requires store == null ==> stored == PriorPlans(map[], map[], map[])
    modifies if store == null then {} else {store}
    ensures r.Success? <==> NoFailure(run, stored, groups)
    ensures r.Failure? ==> exists k :: 0 <= k < |groups| && FirstFailure(run, stored, groups, k, r.error)
    ensures r.Success? ==> Accounts(run, stored, groups, r.value)
    ensures r.Success? && store != null ==>
      && store.saved == old(store.saved) + SavedBy(run, stored, groups)
      && store.events == old(store.events) + EventsOf(run, stored, groups)
      && persisted == |SavedBy(run, stored, groups)| && store.completed
  {
    var result := PlanningResult([], [], []);
    persisted := 0;
    for n := 0 to |groups|
      invariant Accounts(run, stored, groups[..n], result)
      invariant store != null ==> IsRecorded(run, stored, groups[..n], store, old(store.saved), old(store.events), persisted)
    {
      var o;
      o, result, persisted := PlanNext(run, stored, groups, n, store, result, persisted, if store == null then [] else old(store.saved),
                                       if store == null then [] else old(store.events));
      if o.Fails? {
        assert FirstFailure(run, stored, groups, n, o.error);
        return Failure(o.error), persisted;
      }
    }
    assert groups[..|groups|] == groups;
    if store != null {
      store.Complete();
    }
    return Success(result), persisted;
  }

  /** The store holds, after its earlier entries, exactly what planning these groups saves and records. */
  ghost predicate IsRecorded(run: Run, stored: PriorPlans, groups: seq<SurfaceGroup>, store: PlanStore,
                             saved: seq<Investigation>, events: seq<GroupEvent>, persisted: nat)
    reads store
  {
    && store.saved == saved + SavedBy(run, stored, groups) && store.events == events + EventsOf(run, stored, groups)
    && persisted == |SavedBy(run, stored, groups)|
  }

  /** Plans group `n` and adds it to the accounts. */
  method PlanNext(run: Run, stored: PriorPlans, groups: seq<SurfaceGroup>, n: nat, store: PlanStore?, r: PlanningResult,
                  persisted: nat, ghost saved: seq<Investigation>, ghost events: seq<GroupEvent>)
    returns (o: Outcome, next: PlanningResult, more: nat)
    requires store == null ==> stored == PriorPlans(map[], map[], map[])
    requires n < |groups| && Accounts(run, stored, groups[..n], r)
    requires store != null ==> IsRecorded(run, stored, groups[..n], store, saved, events, persisted)
    modifies if store == null then {} else {store}
    ensures o == OutcomeOf(run, stored, groups[n])
    ensures !o.Fails? ==> Accounts(run, stored, groups[..n + 1], next)
    ensures !o.Fails? && store != null ==> IsRecorded(run, stored, groups[..n + 1], store, saved, events, more)
  {
    o := PlanGroup(run, stored, groups[n], store);
    next, more := r, persisted;
    if !o.Fails? {
      AccountsExtend(run, stored, groups, n, r);
      next := r.With(groups[n], o);
      if store != null && (o.Carried? || o.Fresh?) {
        more := persisted + 1;
      }
    }
  }

  // ---------------------------------------------------------------- preparing the lookups

  /** The first row with this key that `keep` accepts. */
  function FirstWith(rows: seq<Row>, key: StableKey, keep: Row -> bool): Option<Row> {
    if rows == [] then None
    else
      var front := FirstWith(rows[..|rows| - 1], key, keep);
      var last := rows[|rows| - 1];
      if front.None? && last.stableKey == key && keep(last) then Some(last) else front
  }

  function InSnapshot(durable: SnapshotId): Row -> bool {
    (row: Row) => row.snapshotId == durable
  }

  function AmongIds(ids: set<InvestigationId>): Row -> bool {
    (row: Row) => row.investigationId in ids
  }

  function FromOtherScan(scanId: string): Row -> bool {
    (row: Row) => row.scanId != scanId
  }

  /** Two stored plans of this snapshot share a surface group. */
  ghost predicate HasConflict(rows: seq<Row>, durable: SnapshotId) {
    exists a, b :: 0 <= a < b < |rows| && rows[a].snapshotId == rows[b].snapshotId == durable
      && rows[a].stableKey == rows[b].stableKey
  }

  method IndexExisting(rows: seq<Row>, durable: SnapshotId) returns (r: Result<map<StableKey, Row>, PlanningError>)
    ensures r.Failure? <==> HasConflict(rows, durable)
    ensures r.Success? ==> forall key :: Lookup(r.value, key) == FirstWith(rows, key, InSnapshot(durable))
  {
    var existing: map<StableKey, Row> := map[];
    for n := 0 to |rows|
      invariant !HasConflict(rows[..n], durable)
      invariant forall key :: Lookup(existing, key) == FirstWith(rows[..n], key, InSnapshot(durable))
      invariant forall key :: key in existing <==> exists a :: 0 <= a < n && rows[a].snapshotId == durable && rows[a].stableKey == key
    {
      var row := rows[n];
      assert rows[..n + 1][..n] == rows[..n] && rows[..n + 1][n] == row;
      if row.snapshotId == durable {
        if row.stableKey in existing {
          return Failure(ConflictingRows);
        }
        existing := existing[row.stableKey := row];
      }
    }
    assert rows[..|rows|] == rows;
    return Success(existing);
  }

  method IndexFirst(rows: seq<Row>, keep: Row -> bool) returns (first: map<StableKey, Row>)
    ensures forall key :: Lookup(first, key) == FirstWith(rows, key, keep)
  {
    first := map[];
    for n := 0 to |rows|
      invariant forall key :: Lookup(first, key) == FirstWith(rows[..n], key, keep)
    {
      assert rows[..n + 1][..n] == rows[..n] && rows[..n + 1][n] == rows[n];
      assert FirstWith(rows[..n], rows[n].stableKey, keep) == Lookup(first, rows[n].stableKey);
      if rows[n].stableKey !in first && keep(rows[n]) {
        first := first[rows[n].stableKey := rows[n]];
      }
    }
    assert rows[..|rows|] == rows;
  }

  /** The lookups a run with a store works from. */
  ghost predicate Prepared(run: Run, scanRows: seq<Row>, codebaseRows: seq<Row>, stored: PriorPlans) {
    forall key ::
      && Lookup(stored.existing, key) == FirstWith(scanRows, key, InSnapshot(run.DurableId()))
      && Lookup(stored.reusable, key) == FirstWith(codebaseRows, key, AmongIds(run.reusableNoCandidates))
      && Lookup(stored.prior, key) == FirstWith(codebaseRows, key, FromOtherScan(run.scanId))
  }

  method Prepare(run: Run, scanRows: seq<Row>, codebaseRows: seq<Row>) returns (r: Result<PriorPlans, PlanningError>)
    ensures r.Failure? <==> HasConflict(scanRows, run.DurableId())
    ensures r.Success? ==> Prepared(run, scanRows, codebaseRows, r.value)
  {
    var existing := IndexExisting(scanRows, run.DurableId());
    if existing.Failure? {
      return Failure(existing.error);
    }
    var reusable := IndexFirst(codebaseRows, AmongIds(run.reusableNoCandidates));
    var prior := IndexFirst(codebaseRows, FromOtherScan(run.scanId));
    return Success(PriorPlans(existing.value, reusable, prior));
  }

  lemma {:induction false} FirstWithIsSound(rows: seq<Row>, key: StableKey, keep: Row -> bool)
    ensures var found := FirstWith(rows, key, keep);
      found.Some? ==> found.value in rows && found.value.stableKey == key && keep(found.value)
  {
    if rows != [] {
      FirstWithIsSound(rows[..|rows| - 1], key, keep);
    }
  }

  // ---------------------------------------------------------------- consequences

  /** Every stored plan is filed under its own key, and same-scan plans belong to the durable snapshot. */
  ghost predicate FiledCorrectly(run: Run, stored: PriorPlans) {
    && (forall key :: key in stored.existing ==>
          stored.existing[key].stableKey == key && stored.existing[key].snapshotId == run.DurableId())
    && (forall key :: key in stored.reusable ==> stored.reusable[key].stableKey == key)
    && (forall key :: key in stored.prior ==> stored.prior[key].stableKey == key)
  }

  lemma PreparedIsFiled(run: Run, scanRows: seq<Row>, codebaseRows: seq<Row>, stored: PriorPlans)
    requires Prepared(run, scanRows, codebaseRows, stored)
    ensures FiledCorrectly(run, stored)
  {
    forall key
      ensures key in stored.existing ==>
        stored.existing[key].stableKey == key && stored.existing[key].snapshotId == run.DurableId()
      ensures key in stored.reusable ==> stored.reusable[key].stableKey == key
      ensures key in stored.prior ==> stored.prior[key].stableKey == key
    {
      FirstWithIsSound(scanRows, key, InSnapshot(run.DurableId()));
      FirstWithIsSound(codebaseRows, key, AmongIds(run.reusableNoCandidates));
      FirstWithIsSound(codebaseRows, key, FromOtherScan(run.scanId));
      assert Lookup(stored.existing, key) == FirstWith(scanRows, key, InSnapshot(run.DurableId()));
    }
  }

  /** Rebasing touches only what the recheck ignores. */
  lemma RebasingKeepsMismatches(i: Investigation, storageId: SnapshotId, graphId: SnapshotId, s: CodeGraphSnapshot,
                                expectedContext: Option<Fingerprint>)
    ensures Clean(Rebase(i, storageId, graphId), s, expectedContext) <==> Clean(i, s, expectedContext)
  {
    var r := Rebase(i, storageId, graphId);
    RebasedDependenciesRead(i.dependencies, graphId);
    assert r.dependencies == RebasedAll(i.dependencies, graphId);
    forall m
      ensures HasMismatch(r, s, expectedContext, m) <==> HasMismatch(i, s, expectedContext, m)
    {
    }
    assert forall m :: HasMismatch(r, s, expectedContext, m) <==> HasMismatch(i, s, expectedContext, m);
  }

  ghost function RebasedAll(dependencies: seq<Dependency>, graphId: SnapshotId): seq<Dependency> {
    seq(|dependencies|, k requires 0 <= k < |dependencies| => RebasedDependency(dependencies[k], graphId))
  }

  /** Dependency lists that differ only in their snapshot entries. */
  ghost predicate SameReading(a: seq<Dependency>, b: seq<Dependency>) {
    && (forall d :: d in a && !d.SnapshotDependency? ==> d in b)
    && (forall d :: d in b && !d.SnapshotDependency? ==> d in a)
    && ExpectedNeighborhoods(a) == ExpectedNeighborhoods(b)
  }

  lemma {:induction false} RebasedDependenciesRead(dependencies: seq<Dependency>, graphId: SnapshotId)
    ensures SameReading(dependencies, RebasedAll(dependencies, graphId))
  {
    if dependencies != [] {
      var n := |dependencies| - 1;
      var rebased := RebasedAll(dependencies, graphId);
      RebasedDependenciesRead(dependencies[..n], graphId);
      assert rebased == RebasedAll(dependencies[..n], graphId) + [RebasedDependency(dependencies[n], graphId)];
      assert rebased[..n] == RebasedAll(dependencies[..n], graphId);
      assert dependencies == dependencies[..n] + [dependencies[n]];
    }
  }

  /** Every investigation a group yields carries the group's key and the durable snapshot; reused ones are clean. */
  lemma OutcomeIsBound(run: Run, stored: PriorPlans, group: SurfaceGroup)
    requires FiledCorrectly(run, stored)
    ensures var o := OutcomeOf(run, stored, group);
      && (o.Kept? || o.Carried? || o.Fresh? ==>
            o.investigation.stableKey == KeyOfGroup(group) && o.investigation.snapshotId == run.DurableId())
      && (o.Kept? || o.Carried? ==>
            ReusedFor(run, group, o.investigation))
      && (o.Carried? ==> SelfConsistent(o.investigation) && o.investigation.state == Planned)
  {
    var o, key := OutcomeOf(run, stored, group), KeyOfGroup(group);
    if o.Carried? {
      var prior := Restore(PriorRow(stored, key).value, run.contract).value;
      RebasingKeepsMismatches(prior, run.DurableId(), run.snapshot.Id(), run.snapshot, Some(run.ContextHash(group)));
    }
  }

  ghost function Planable(run: Run, groups: seq<SurfaceGroup>): seq<SurfaceGroup> {
    if groups == [] then [] else
      var front, g := Planable(run, groups[..|groups| - 1]), groups[|groups| - 1];
      if |g.nodeIds| > run.maximumTargetNodes then front else front + [g]
  }

  /**
    A run that ends normally accounts for each group once and in order: the oversized groups are the gaps,
    and the others correspond one to one with the investigations, each under its group's key.
   */
  lemma {:induction false} EveryGroupIsAccountedOnce(run: Run, stored: PriorPlans, groups: seq<SurfaceGroup>, r: PlanningResult)
    requires FiledCorrectly(run, stored) && Accounts(run, stored, groups, r)
    ensures |r.investigations| + |r.gaps| == |groups|
    ensures |r.investigations| == |Planable(run, groups)|
    ensures forall k :: 0 <= k < |r.investigations| ==>
      && r.investigations[k].stableKey == KeyOfGroup(Planable(run, groups)[k])
      && r.investigations[k].snapshotId == run.DurableId()
      && (Some(r.investigations[k]) == BoundPlan(run, Planable(run, groups)[k])
          || ReusedFor(run, Planable(run, groups)[k], r.investigations[k]))
  {
    if groups != [] {
      var n := |groups| - 1;
      var front := groups[..n];
      var before := PlanningResult(Investigated(run, stored, front), GapsOf(run, front), ReusedKeys(run, stored, front));
      EveryGroupIsAccountedOnce(run, stored, front, before);
      OutcomeIsBound(run, stored, groups[n]);
    }
  }

  /** A stored plan of this codebase that fits the group and passes the full recheck as it stands now. */
  ghost predicate ReusedFor(run: Run, group: SurfaceGroup, i: Investigation) {
    && i.codebaseId == run.codebaseId && TargetsMatch(i, group.nodeIds)
    && Clean(i, run.snapshot, Some(run.ContextHash(group)))
  }

  /** What planning this group afresh gives. */
  ghost function BoundPlan(run: Run, group: SurfaceGroup): Option<Investigation> {
    var planned := run.planGroup(group);
    if planned.None? then None else Some(BindStorageSnapshot(planned.value, run.DurableId()))
  }

  /**
    Incremental reuse is not wasted: a prior plan that was clean on the previous snapshot and is not affected
    by the difference is carried over, rebased, instead of being planned again.
   */
  lemma UnaffectedPriorIsCarried(run: Run, stored: PriorPlans, group: SurfaceGroup, row: Row, previous: CodeGraphSnapshot,
                                 f: Fanout)
    requires |group.nodeIds| <= run.maximumTargetNodes && KeyOfGroup(group) !in stored.existing
    requires PriorRow(stored, KeyOfGroup(group)) == Some(row) && Restore(row, run.contract).Success?
    requires row.data.codebaseId == run.codebaseId && row.data.investigationId !in run.invalidated
    requires TargetsMatch(row.data, group.nodeIds)
    requires run.contract(Rebase(row.data, run.DurableId(), run.snapshot.Id()))
    ensures
      Difference(run.snapshot, previous).Seeds() <= f.reached && NeighborhoodsAgree(run.snapshot, previous, f)
      && CarriedOver(row.data, run.snapshot, previous, f, Some(run.ContextHash(group))) ==>
      OutcomeOf(run, stored, group) == Carried(Rebase(row.data, run.DurableId(), run.snapshot.Id()))
  {
    if Difference(run.snapshot, previous).Seeds() <= f.reached && NeighborhoodsAgree(run.snapshot, previous, f)
      && CarriedOver(row.data, run.snapshot, previous, f, Some(run.ContextHash(group)))
    {
      UnaffectedStaysClean(row.data, run.snapshot, previous, f, Some(run.ContextHash(group)));
    }
  }

  method Plan(run: Run, grouping: Grouping, scanRows: seq<Row>, codebaseRows: seq<Row>, store: PlanStore?)
    returns (r: Result<PlanningResult, PlanningError>, persisted: nat, ghost stored: PriorPlans)
    modifies if store == null then {} else {store}
    ensures FiledCorrectly(run, stored)
    ensures store == null ==> stored == PriorPlans(map[], map[], map[])
    ensures store != null && !HasConflict(scanRows, run.DurableId()) ==> Prepared(run, scanRows, codebaseRows, stored)
    ensures r.Success? <==>
      NoFailure(run, stored, grouping.groups) && (store == null || !HasConflict(scanRows, run.DurableId()))
    ensures r.Success? ==> Accounts(run, stored, grouping.groups, r.value)
    ensures r.Success? && store != null ==>
      && store.saved == old(store.saved) + SavedBy(run, stored, grouping.groups)
      && store.events == old(store.events) + EventsOf(run, stored, grouping.groups)
      && persisted == |SavedBy(run, stored, grouping.groups)| && store.completed
  {
    var plans := PriorPlans(map[], map[], map[]);
    stored, persisted := plans, 0;
    if store != null {
      var prepared := Prepare(run, scanRows, codebaseRows);
      if prepared.Failure? {
        return Failure(prepared.error), 0, stored;
      }
      plans := prepared.value;
      stored := plans;
      PreparedIsFiled(run, scanRows, codebaseRows, plans);
    }
    r, persisted := PlanGroups(run, plans, grouping.groups, store);
  }
}
