/** Investigation plans: immutable values whose identity is derived from their evidence. */
module Investigations {
  import opened GraphSnapshot
  import opened TargetGrouping

  /** Distinct fingerprinted values have distinct fingerprints. */
  datatype Fingerprint =
    | SourceText(hash: ContentHash)
    | Neighborhood(edges: multiset<CodeEdge>)
    | PlanningContext(repositoryContext: string, surfaceContext: multiset<SurfaceTarget>)
    | OtherText(text: string)

  datatype EdgeKey = KeyOf(edge: CodeEdge) | ForeignKey(text: string)

  /** Entries of other kinds, or with an unusable key, read as `Ignored`. */
  datatype Dependency =
    | NodeDependency(key: NodeId, hash: Option<Fingerprint>)
    | EdgeDependency(edgeKey: EdgeKey)
    | NeighborhoodDependency(key: NodeId, hash: Option<Fingerprint>)
    | ContextDependency(hash: Option<Fingerprint>)
    | FileDependency(path: FilePath)
    | SnapshotDependency(snapshot: SnapshotId)
    | Ignored

  datatype SourceWindow = SourceWindow(path: Option<FilePath>, startLine: int, endLine: int, contentHash: Option<ContentHash>)

  datatype GraphRef = GraphRef(snapshot: Option<SnapshotId>, nodeIds: set<NodeId>, edgeKeys: set<EdgeKey>)

  /** `nested` holds node ids found deeper inside the reference. */
  datatype TargetRef = TargetRef(
    nodeIds: Option<seq<NodeId>>, nodeId: Option<NodeId>, nested: set<NodeId>, edgeKeys: set<EdgeKey>)

  datatype EvidenceHash =
    | Pending
    | EvidenceOf(
        snapshotId: SnapshotId, graphSnapshotId: Option<SnapshotId>, targetRef: TargetRef, graphRefs: seq<GraphRef>,
        sourceWindows: seq<SourceWindow>, dependencies: seq<Dependency>, coverageNotes: seq<string>,
        priorEvidenceRefs: seq<string>)

  /** Survives source edits: a surface group is named by the surfaces it holds. */
  datatype StableKey = GroupKey(surfaceKeys: multiset<string>) | NamedKey(name: string)

  datatype InvestigationId =
    | NoId
    | IdOf(codebaseId: string, stableKey: StableKey, evidence: EvidenceHash)

  datatype State = Planned | Hunting | Verified | OtherState(name: string)

  datatype Investigation = Investigation(
    investigationId: InvestigationId,
    stableKey: StableKey,
    codebaseId: string,
    snapshotId: SnapshotId,
    graphSnapshotId: Option<SnapshotId>,
    targetRef: TargetRef,
    reason: string,
    securityQuestions: seq<string>,
    graphRefs: seq<GraphRef>,
    sourceWindows: seq<SourceWindow>,
    dependencies: seq<Dependency>,
    coverageNotes: seq<string>,
    priorEvidenceRefs: seq<string>,
    evidenceHash: EvidenceHash,
    state: State,
    checkpointRef: Option<string>,
    revision: nat)

  /** Evidence identity, independent of the stable key and of execution state. */
  function EvidenceHashOf(i: Investigation): EvidenceHash {
    EvidenceOf(i.snapshotId, i.graphSnapshotId, i.targetRef, i.graphRefs, i.sourceWindows, i.dependencies,
               i.coverageNotes, i.priorEvidenceRefs)
  }

  /** Gives a draft the identity its evidence determines. */
  function Sealed(draft: Investigation): Investigation {
    var evidence := EvidenceHashOf(draft);
    draft.(evidenceHash := evidence, investigationId := IdOf(draft.codebaseId, draft.stableKey, evidence))
  }

  /** The recorded identity and evidence hash are the derived ones. */
  predicate SelfConsistent(i: Investigation) {
    && i.evidenceHash == EvidenceHashOf(i)
    && i.investigationId == IdOf(i.codebaseId, i.stableKey, i.evidenceHash)
  }

  function TargetNodes(t: TargetRef): set<NodeId> {
    (if t.nodeIds.Some? then set id | id in t.nodeIds.value else {})
    + (if t.nodeId.Some? then {t.nodeId.value} else {}) + t.nested
  }

  // ---------------------------------------------------------------- moving between snapshots

  function RebasedRef(ref: GraphRef, graphSnapshotId: SnapshotId): GraphRef {
    if ref.snapshot.Some? then ref.(snapshot := Some(graphSnapshotId)) else ref
  }

  function RebasedDependency(d: Dependency, graphSnapshotId: SnapshotId): Dependency {
    if d.SnapshotDependency? then SnapshotDependency(graphSnapshotId) else d
  }

  /** Carries a compatible prior plan onto a new scan snapshot and resets its execution state. */
  function Rebase(i: Investigation, storageSnapshotId: SnapshotId, graphSnapshotId: SnapshotId): Investigation {
    Sealed(i.(
      snapshotId := storageSnapshotId,
      graphSnapshotId := Some(graphSnapshotId),
      graphRefs := seq(|i.graphRefs|, k requires 0 <= k < |i.graphRefs| => RebasedRef(i.graphRefs[k], graphSnapshotId)),
      dependencies := seq(|i.dependencies|, k requires 0 <= k < |i.dependencies| =>
        RebasedDependency(i.dependencies[k], graphSnapshotId)),
      state := Planned,
      checkpointRef := None,
      revision := 1))
  }

  /** Binds fresh graph evidence to its durable snapshot identity. */
  function BindStorageSnapshot(i: Investigation, snapshotId: SnapshotId): Investigation {
    if i.snapshotId == snapshotId then i else Sealed(i.(snapshotId := snapshotId))
  }

  /** Rebasing again changes nothing, and a rebased plan forgets which snapshots it came from. */
  lemma RebasingForgetsTheOrigin(i: Investigation, s0: SnapshotId, g0: SnapshotId, s: SnapshotId, g: SnapshotId)
    ensures Rebase(Rebase(i, s0, g0), s, g) == Rebase(i, s, g)
  {
    var once, twice := Rebase(i, s, g), Rebase(Rebase(i, s0, g0), s, g);
    assert once.graphRefs == twice.graphRefs;
    assert once.dependencies == twice.dependencies;
  }
}
