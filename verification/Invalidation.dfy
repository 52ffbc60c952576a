/** Snapshot deltas, bounded reverse-dependency fanout, and the full evidence recheck. */
module Invalidation {
  import opened GraphSnapshot
  import opened Investigations
  import opened Reachability
  import opened Sequences

  // ---------------------------------------------------------------- snapshot difference

  datatype GraphDelta = GraphDelta(
    addedFiles: set<FilePath>, changedFiles: set<FilePath>, removedFiles: set<FilePath>,
    addedNodes: set<NodeId>, changedNodes: set<NodeId>, removedNodes: set<NodeId>,
    addedEdges: set<CodeEdge>, removedEdges: set<CodeEdge>)
  {
    function Paths(): set<FilePath> { addedFiles + changedFiles + removedFiles }

    function Nodes(): set<NodeId> { addedNodes + changedNodes + removedNodes }

    function Edges(): set<CodeEdge> { addedEdges + removedEdges }

    /** Where the fanout starts before the current snapshot's changed files are known. */
    function Seeds(): set<NodeId> {
      Nodes() + (set e | e in Edges() :: e.sourceId) + (set e | e in Edges() :: e.targetId)
    }
  }

  /** Nodes by identifier; a repeated identifier keeps its last node. */
  function NodeIndex(nodes: seq<CodeNode>): (index: map<NodeId, CodeNode>)
    ensures forall id :: id in index ==> index[id] in nodes && index[id].id == id
    ensures forall n :: n in nodes ==> n.id in index
  {
    if nodes == [] then map[] else
      var last := nodes[|nodes| - 1];
      assert nodes == nodes[..|nodes| - 1] + [last];
      NodeIndex(nodes[..|nodes| - 1])[last.id := last]
  }

  function Changed<K, V(==)>(current: map<K, V>, previous: map<K, V>): set<K> {
    set k | k in current && k in previous && current[k] != previous[k]
  }

  function EdgeSet(s: CodeGraphSnapshot): set<CodeEdge> {
    set e | e in s.edges
  }

  function Difference(current: CodeGraphSnapshot, previous: CodeGraphSnapshot): GraphDelta {
    var now, was := NodeIndex(current.nodes), NodeIndex(previous.nodes);
    GraphDelta(
      current.sourceHashes.Keys - previous.sourceHashes.Keys,
      Changed(current.sourceHashes, previous.sourceHashes),
      previous.sourceHashes.Keys - current.sourceHashes.Keys,
      now.Keys - was.Keys,
      Changed(now, was),
      was.Keys - now.Keys,
      EdgeSet(current) - EdgeSet(previous),
      EdgeSet(previous) - EdgeSet(current))
  }

  // ---------------------------------------------------------------- bounded reverse fanout

  /** A node depends on the node its edge points to. */
  ghost function DependsOn(edges: seq<CodeEdge>): set<(NodeId, NodeId)> {
    set e | e in edges :: (e.sourceId, e.targetId)
  }

  /** Nodes from which some node of `targets` can be reached. */
  ghost predicate LeadsInto(edges: seq<CodeEdge>, n: NodeId, targets: set<NodeId>) {
    exists t :: t in targets && Reaches(DependsOn(edges), n, t)
  }

  ghost function Predecessors(edges: seq<CodeEdge>, of: set<NodeId>): set<NodeId> {
    set e | e in edges && e.targetId in of :: e.sourceId
  }

  datatype Fanout = Fanout(reached: set<NodeId>, truncated: bool)

  /** What the bounded traversal reports, level by level. */
  ghost function Expand(edges: seq<CodeEdge>, reached: set<NodeId>, frontier: set<NodeId>, depth: nat, nodeLimit: int): Fanout
    decreases depth
  {
    var following := Predecessors(edges, frontier) - reached;
    if depth == 0 then Fanout(reached, Predecessors(edges, frontier) != {})
    else if following == {} then Fanout(reached, false)
    else if |reached| + |following| > nodeLimit then Fanout(reached, true)
    else Expand(edges, reached + following, following, depth - 1, nodeLimit)
  }

  ghost predicate PrefixClosed(edges: seq<CodeEdge>, reached: set<NodeId>, frontier: set<NodeId>) {
    frontier <= reached && Predecessors(edges, reached - frontier) <= reached
  }

  lemma {:induction false} ExpandKeepsReached(edges: seq<CodeEdge>, reached: set<NodeId>, frontier: set<NodeId>,
                                              depth: nat, nodeLimit: int)
    ensures reached <= Expand(edges, reached, frontier, depth, nodeLimit).reached
    decreases depth
  {
    var following := Predecessors(edges, frontier) - reached;
    if depth > 0 && following != {} && |reached| + |following| <= nodeLimit {
      ExpandKeepsReached(edges, reached + following, following, depth - 1, nodeLimit);
    }
  }

  /** The traversal reaches only nodes that lead into what it started from. */
  lemma {:induction false} ExpandReachesDependents(edges: seq<CodeEdge>, reached: set<NodeId>, frontier: set<NodeId>,
                                                   depth: nat, nodeLimit: int, n: NodeId)
    requires frontier <= reached && n in Expand(edges, reached, frontier, depth, nodeLimit).reached
    ensures LeadsInto(edges, n, reached)
    decreases depth
  {
    if n in reached {
      ReachesSelf(DependsOn(edges), n);
    } else {
      var following := Predecessors(edges, frontier) - reached;
      ExpandReachesDependents(edges, reached + following, following, depth - 1, nodeLimit, n);
      LeadingThroughPredecessors(edges, n, reached, frontier);
    }
  }

  lemma LeadingThroughPredecessors(edges: seq<CodeEdge>, n: NodeId, reached: set<NodeId>, frontier: set<NodeId>)
    requires frontier <= reached
    requires LeadsInto(edges, n, reached + (Predecessors(edges, frontier) - reached))
    ensures LeadsInto(edges, n, reached)
  {
    var steps := DependsOn(edges);
    var t :| t in reached + Predecessors(edges, frontier) && Reaches(steps, n, t);
    if t !in reached {
      var e :| e in edges && e.targetId in frontier && e.sourceId == t;
      ReachesStep(steps, t, e.targetId);
      ReachesTransitive(steps, n, t, e.targetId);
    }
  }

  /** Unless it was truncated, the traversal ends with a set closed under predecessors. */
  lemma {:induction false} UntruncatedExpandCloses(edges: seq<CodeEdge>, reached: set<NodeId>, frontier: set<NodeId>,
                                                   depth: nat, nodeLimit: int)
    requires PrefixClosed(edges, reached, frontier)
    ensures var f := Expand(edges, reached, frontier, depth, nodeLimit);
      !f.truncated ==> Predecessors(edges, f.reached) <= f.reached
    decreases depth
  {
    var following := Predecessors(edges, frontier) - reached;
    PredecessorsSplit(edges, reached, frontier);
    if depth > 0 && following != {} && |reached| + |following| <= nodeLimit {
      NextFrontierIsClosed(edges, reached, frontier);
      UntruncatedExpandCloses(edges, reached + following, following, depth - 1, nodeLimit);
    }
  }

  lemma NextFrontierIsClosed(edges: seq<CodeEdge>, reached: set<NodeId>, frontier: set<NodeId>)
    requires PrefixClosed(edges, reached, frontier)
    ensures var following := Predecessors(edges, frontier) - reached; PrefixClosed(edges, reached + following, following)
  {
    var following := Predecessors(edges, frontier) - reached;
    PredecessorsSplit(edges, reached, frontier);
    assert reached + following - following == reached;
  }

  lemma PredecessorsSplit(edges: seq<CodeEdge>, whole: set<NodeId>, part: set<NodeId>)
    requires part <= whole
    ensures Predecessors(edges, whole) == Predecessors(edges, whole - part) + Predecessors(edges, part)
  {
  }

  /** A set closed under predecessors holds every node that leads into it. */
  lemma ClosedHoldsAllLeading(edges: seq<CodeEdge>, closed: set<NodeId>, n: NodeId)
    requires Predecessors(edges, closed) <= closed && LeadsInto(edges, n, closed)
    ensures n in closed
  {
    var steps := DependsOn(edges);
    var t :| t in closed && Reaches(steps, n, t);
    var walk :| Joins(steps, walk, n, t);
    WalkBackStaysInside(edges, closed, walk);
  }

  lemma {:induction false} WalkBackStaysInside(edges: seq<CodeEdge>, closed: set<NodeId>, walk: seq<NodeId>)
    requires Predecessors(edges, closed) <= closed
    requires IsWalk(DependsOn(edges), walk) && walk[|walk| - 1] in closed
    ensures walk[0] in closed
  {
    if |walk| > 1 {
      WalkBackStaysInside(edges, closed, walk[1..]);
      assert (walk[0], walk[1]) in DependsOn(edges);
    }
  }

  /** Room for every dependent node and one spare level rule truncation out. */
  lemma {:induction false} RoomyExpandIsComplete(edges: seq<CodeEdge>, reached: set<NodeId>, frontier: set<NodeId>, depth: nat,
                                                 nodeLimit: int, closed: set<NodeId>)
    requires reached <= closed && Predecessors(edges, closed) <= closed
    requires frontier <= reached && |closed| <= nodeLimit && |closed - reached| < depth
    ensures !Expand(edges, reached, frontier, depth, nodeLimit).truncated
    decreases depth
  {
    var following := Predecessors(edges, frontier) - reached;
    assert following <= closed;
    if following != {} {
      var grown := reached + following;
      CardinalitiesSplit(closed, reached, following);
      RoomyExpandIsComplete(edges, grown, following, depth - 1, nodeLimit, closed);
    }
  }

  lemma CardinalitiesSplit(closed: set<NodeId>, reached: set<NodeId>, following: set<NodeId>)
    requires reached <= closed && following <= closed && following !! reached
    ensures |reached| + |following| <= |closed|
    ensures |closed - (reached + following)| == |closed - reached| - |following|
  {
    assert closed == reached + (closed - reached);
    assert closed - reached == following + (closed - (reached + following));
  }

  function IncomingOf(incoming: map<NodeId, set<NodeId>>, id: NodeId): set<NodeId> {
    if id in incoming then incoming[id] else {}
  }

  ghost predicate Indexes(incoming: map<NodeId, set<NodeId>>, edges: seq<CodeEdge>) {
    forall t :: IncomingOf(incoming, t) == Predecessors(edges, {t})
  }

  method IndexIncoming(edges: seq<CodeEdge>) returns (incoming: map<NodeId, set<NodeId>>)
    ensures Indexes(incoming, edges)
  {
    incoming := map[];
    for n := 0 to |edges|
      invariant Indexes(incoming, edges[..n])
    {
      var e := edges[n];
      forall t
        ensures Predecessors(edges[..n + 1], {t}) == Predecessors(edges[..n], {t}) + if t == e.targetId then {e.sourceId} else {}
      {
        assert edges[..n + 1] == edges[..n] + [e];
      }
      incoming := incoming[e.targetId := IncomingOf(incoming, e.targetId) + {e.sourceId}];
    }
    assert edges[..|edges|] == edges;
  }

  /** One level: sources of edges into the frontier that are not reached yet. */
  method Following(ghost edges: seq<CodeEdge>, incoming: map<NodeId, set<NodeId>>, frontier: set<NodeId>, reached: set<NodeId>)
    returns (following: set<NodeId>)
    requires Indexes(incoming, edges)
    ensures following == Predecessors(edges, frontier) - reached
  {
    following := set t, s | t in frontier && s in IncomingOf(incoming, t) && s !in reached :: s;
    assert forall t, s :: s in IncomingOf(incoming, t) <==> s in Predecessors(edges, {t});
  }

  method HasIncoming(ghost edges: seq<CodeEdge>, incoming: map<NodeId, set<NodeId>>, frontier: set<NodeId>)
    returns (any: bool)
    requires Indexes(incoming, edges)
    ensures any <==> Predecessors(edges, frontier) != {}
  {
    var following := Following(edges, incoming, frontier, {});
    assert Predecessors(edges, frontier) - {} == Predecessors(edges, frontier);
    any := following != {};
  }

  /** One level of the expansion: either it ends here, or it goes on from the next frontier. */
  method Advance(edges: seq<CodeEdge>, incoming: map<NodeId, set<NodeId>>, reached: set<NodeId>, frontier: set<NodeId>,
                 nodeLimit: int, ghost depth: nat)
    returns (ended: Option<Fanout>, wider: set<NodeId>, following: set<NodeId>)
    requires Indexes(incoming, edges) && depth > 0
    ensures ended.Some? ==> ended.value == Expand(edges, reached, frontier, depth, nodeLimit)
    ensures ended.None? ==>
      Expand(edges, reached, frontier, depth, nodeLimit) == Expand(edges, wider, following, depth - 1, nodeLimit)
  {
    following := Following(edges, incoming, frontier, reached);
    wider := reached + following;
    ended := if following == {} then Some(Fanout(reached, false))
             else if |reached| + |following| > nodeLimit then Some(Fanout(reached, true)) else None;
  }

  method ReverseFanout(edges: seq<CodeEdge>, seeds: set<NodeId>, depthLimit: nat, nodeLimit: int) returns (f: Fanout)
    ensures f == Expand(edges, seeds, seeds, depthLimit, nodeLimit)
  {
    var incoming := IndexIncoming(edges);
    ghost var result := Expand(edges, seeds, seeds, depthLimit, nodeLimit);
    var reached, frontier := seeds, seeds;
    var depth := depthLimit;
    while depth > 0
      invariant depth >= 0
      invariant result == Expand(edges, reached, frontier, depth, nodeLimit)
      decreases depth
    {
      var ended;
      ended, reached, frontier := Advance(edges, incoming, reached, frontier, nodeLimit, depth);
      if ended.Some? {
        return ended.value;
      }
      depth := depth - 1;
    }
    var more := HasIncoming(edges, incoming, frontier);
    return Fanout(reached, more);
  }

  // ---------------------------------------------------------------- affected investigations

  function OwnedNodes(i: Investigation): set<NodeId> {
    TargetNodes(i.targetRef)
    + (set k, id | 0 <= k < |i.graphRefs| && id in i.graphRefs[k].nodeIds :: id)
    + DependencyNodes(i.dependencies)
  }

  function DependencyNodes(dependencies: seq<Dependency>): set<NodeId> {
    set d | d in dependencies && d.NodeDependency? :: d.key
  }

  function OwnedEdges(i: Investigation): set<EdgeKey> {
    i.targetRef.edgeKeys
    + (set k, key | 0 <= k < |i.graphRefs| && key in i.graphRefs[k].edgeKeys :: key)
    + DependencyEdges(i.dependencies)
  }

  function DependencyEdges(dependencies: seq<Dependency>): set<EdgeKey> {
    set d | d in dependencies && d.EdgeDependency? :: d.edgeKey
  }

  function DependencyFiles(dependencies: seq<Dependency>): set<FilePath> {
    set d | d in dependencies && d.FileDependency? :: d.path
  }

  function WindowPaths(i: Investigation): set<FilePath> {
    set w | w in i.sourceWindows && w.path.Some? :: w.path.value
  }

  /** The investigation's explicit evidence meets the delta or the fanout. */
  ghost predicate Touched(i: Investigation, delta: GraphDelta, fanout: set<NodeId>) {
    || !(DependencyFiles(i.dependencies) !! delta.Paths())
    || !(WindowPaths(i) !! delta.Paths())
    || !(OwnedNodes(i) !! fanout)
    || (exists e :: e in delta.Edges() && KeyOf(e) in OwnedEdges(i))
    || (exists e :: e in delta.Edges() && (e.sourceId in OwnedNodes(i) || e.targetId in OwnedNodes(i)))
  }

  ghost function FanoutSeeds(delta: GraphDelta, snapshot: CodeGraphSnapshot): set<NodeId> {
    delta.Seeds() + set n | n in snapshot.nodes && n.path in delta.Paths() :: n.id
  }

  ghost function FanoutOf(delta: GraphDelta, snapshot: Option<CodeGraphSnapshot>, depthLimit: nat, nodeLimit: int): Fanout {
    if snapshot.None? then Fanout(delta.Seeds(), false)
    else var seeds := FanoutSeeds(delta, snapshot.value); Expand(snapshot.value.edges, seeds, seeds, depthLimit, nodeLimit)
  }

  ghost predicate IsAffected(i: Investigation, delta: GraphDelta, f: Fanout) {
    i.investigationId != NoId && (f.truncated || Touched(i, delta, f.reached))
  }

  method CheckTouched(i: Investigation, delta: GraphDelta, fanout: set<NodeId>) returns (touched: bool)
    ensures touched == Touched(i, delta, fanout)
  {
    var nodeIds := TargetNodes(i.targetRef) + set k, id | 0 <= k < |i.graphRefs| && id in i.graphRefs[k].nodeIds :: id;
    var edgeKeys := i.targetRef.edgeKeys + set k, key | 0 <= k < |i.graphRefs| && key in i.graphRefs[k].edgeKeys :: key;
    ghost var refNodes, refKeys := nodeIds, edgeKeys;
    for n := 0 to |i.dependencies|
      invariant nodeIds == refNodes + DependencyNodes(i.dependencies[..n])
      invariant edgeKeys == refKeys + DependencyEdges(i.dependencies[..n])
      invariant DependencyFiles(i.dependencies[..n]) !! delta.Paths()
    {
      var d := i.dependencies[n];
      assert i.dependencies[..n + 1] == i.dependencies[..n] + [d];
      if d.NodeDependency? {
        nodeIds := nodeIds + {d.key};
      } else if d.EdgeDependency? {
        edgeKeys := edgeKeys + {d.edgeKey};
      } else if d.FileDependency? && d.path in delta.Paths() {
        assert d.path in DependencyFiles(i.dependencies);
        return true;
      }
    }
    assert i.dependencies[..|i.dependencies|] == i.dependencies;
    assert nodeIds == OwnedNodes(i) && edgeKeys == OwnedEdges(i);
    return !(WindowPaths(i) !! delta.Paths())
      || !(nodeIds !! fanout)
      || (exists e | e in delta.Edges() :: KeyOf(e) in edgeKeys)
      || (exists e | e in delta.Edges() :: e.sourceId in nodeIds || e.targetId in nodeIds);
  }

  datatype BoundError = NonPositiveBound

  /** `None` stands for a record whose payload is not a mapping. */
  method AffectedInvestigationIds(investigations: seq<Option<Investigation>>, delta: GraphDelta,
                                  snapshot: Option<CodeGraphSnapshot>, depthLimit: int, nodeLimit: int)
    returns (r: Result<set<InvestigationId>, BoundError>)
    ensures r.Failure? <==> snapshot.Some? && (depthLimit < 1 || nodeLimit < 1)
    ensures r.Success? ==> forall id :: id in r.value <==>
      exists i :: Some(i) in investigations && i.investigationId == id
        && IsAffected(i, delta, FanoutOf(delta, snapshot, if depthLimit < 0 then 0 else depthLimit, nodeLimit))
  {
    var f := Fanout(delta.Seeds(), false);
    if snapshot.Some? {
      if depthLimit < 1 || nodeLimit < 1 {
        return Failure(NonPositiveBound);
      }
      var seeds := delta.Seeds() + set n | n in snapshot.value.nodes && n.path in delta.Paths() :: n.id;
      f := ReverseFanout(snapshot.value.edges, seeds, depthLimit, nodeLimit);
    }
    var affected: set<InvestigationId> := {};
    for k := 0 to |investigations|
      invariant forall id :: id in affected <==>
        exists i :: Some(i) in investigations[..k] && i.investigationId == id && IsAffected(i, delta, f)
    {
      assert investigations[..k + 1] == investigations[..k] + [investigations[k]];
      if investigations[k].Some? {
        var i := investigations[k].value;
        if i.investigationId != NoId {
          var touched := CheckTouched(i, delta, f.reached);
          if touched || f.truncated {
            affected := affected + {i.investigationId};
          }
        }
      }
    }
    assert investigations[..|investigations|] == investigations;
    return Success(affected);
  }

  /** Untruncated, the fanout is exactly the nodes that depend on a change; truncated, it still holds the changes. */
  lemma FanoutIsExactUnlessTruncated(delta: GraphDelta, snapshot: CodeGraphSnapshot, depthLimit: nat, nodeLimit: int)
    ensures var f := FanoutOf(delta, Some(snapshot), depthLimit, nodeLimit);
      && FanoutSeeds(delta, snapshot) <= f.reached
      && (forall n :: n in f.reached ==> LeadsInto(snapshot.edges, n, FanoutSeeds(delta, snapshot)))
      && (!f.truncated ==> forall n :: LeadsInto(snapshot.edges, n, FanoutSeeds(delta, snapshot)) ==> n in f.reached)
  {
    var seeds, edges := FanoutSeeds(delta, snapshot), snapshot.edges;
    var f := FanoutOf(delta, Some(snapshot), depthLimit, nodeLimit);
    ExpandKeepsReached(edges, seeds, seeds, depthLimit, nodeLimit);
    forall n | n in f.reached
      ensures LeadsInto(edges, n, seeds)
    {
      ExpandReachesDependents(edges, seeds, seeds, depthLimit, nodeLimit, n);
    }
    if !f.truncated {
      assert seeds - seeds == {};
      UntruncatedExpandCloses(edges, seeds, seeds, depthLimit, nodeLimit);
      forall n | LeadsInto(edges, n, seeds)
        ensures n in f.reached
      {
        var t :| t in seeds && Reaches(DependsOn(edges), n, t);
        assert LeadsInto(edges, n, f.reached);
        ClosedHoldsAllLeading(edges, f.reached, n);
      }
    }
  }

  /** The fanout is not cut short when both bounds leave room for every dependent node. */
  lemma RoomyBoundsAreNotTruncated(delta: GraphDelta, snapshot: CodeGraphSnapshot, depthLimit: nat, nodeLimit: int,
                                   closed: set<NodeId>)
    requires FanoutSeeds(delta, snapshot) <= closed && Predecessors(snapshot.edges, closed) <= closed
    requires |closed| <= nodeLimit && |closed - FanoutSeeds(delta, snapshot)| < depthLimit
    ensures !FanoutOf(delta, Some(snapshot), depthLimit, nodeLimit).truncated
  {
    var seeds := FanoutSeeds(delta, snapshot);
    RoomyExpandIsComplete(snapshot.edges, seeds, seeds, depthLimit, nodeLimit, closed);
  }

  /**
    Soundness for every bound: owning a node from which a changed node, an end of a changed edge or a
    node of a changed file can be reached makes an identified investigation affected.
   */
  lemma ReachableChangeAffects(i: Investigation, delta: GraphDelta, snapshot: CodeGraphSnapshot, depthLimit: nat,
                               nodeLimit: int, owned: NodeId, changed: NodeId)
    requires i.investigationId != NoId && owned in OwnedNodes(i)
    requires Reaches(DependsOn(snapshot.edges), owned, changed)
    requires
      || changed in delta.Nodes()
      || (exists e :: e in delta.Edges() && Touches(e, changed))
      || (exists n :: n in snapshot.nodes && n.id == changed && n.path in delta.Paths())
    ensures IsAffected(i, delta, FanoutOf(delta, Some(snapshot), depthLimit, nodeLimit))
  {
    assert changed in FanoutSeeds(delta, snapshot);
    FanoutIsExactUnlessTruncated(delta, snapshot, depthLimit, nodeLimit);
    var f := FanoutOf(delta, Some(snapshot), depthLimit, nodeLimit);
    if !f.truncated {
      assert LeadsInto(snapshot.edges, owned, FanoutSeeds(delta, snapshot));
      assert owned in f.reached;
    }
  }

  // ---------------------------------------------------------------- the full recheck

  datatype Mismatch =
    | InvalidPayload
    | NodeMissing
    | NodeChanged
    | EdgeMissing
    | ContextChanged
    | ContextUnavailable
    | NeighborhoodUnavailable
    | NeighborhoodChanged
    | SourceWindowChanged

  /** All edges at one node, with repetitions. */
  function Incident(edges: seq<CodeEdge>, id: NodeId): multiset<CodeEdge> {
    if edges == [] then multiset{} else
      (if Touches(edges[0], id) then multiset{edges[0]} else multiset{}) + Incident(edges[1..], id)
  }

  lemma {:induction false} IncidentCounts(edges: seq<CodeEdge>, id: NodeId, e: CodeEdge)
    ensures Incident(edges, id)[e] == if Touches(e, id) then multiset(edges)[e] else 0
  {
    if edges != [] {
      IncidentCounts(edges[1..], id, e);
      assert edges == [edges[0]] + edges[1..];
    }
  }

  /** The fingerprint of everything observed around one node; absent for an unknown node. */
  function NeighborhoodHash(s: CodeGraphSnapshot, id: NodeId): Option<Fingerprint> {
    if id in NodeIndex(s.nodes) then Some(Neighborhood(Incident(s.edges, id))) else None
  }

  /** The recorded neighborhood fingerprints; a repeated node keeps its last one. */
  function ExpectedNeighborhoods(dependencies: seq<Dependency>): map<NodeId, Fingerprint> {
    if dependencies == [] then map[] else
      var d, rest := dependencies[|dependencies| - 1], ExpectedNeighborhoods(dependencies[..|dependencies| - 1]);
      if d.NeighborhoodDependency? && d.hash.Some? then rest[d.key := d.hash.value] else rest
  }

  ghost predicate HasMismatch(i: Investigation, s: CodeGraphSnapshot, expectedContext: Option<Fingerprint>, m: Mismatch) {
    var index, expected := NodeIndex(s.nodes), ExpectedNeighborhoods(i.dependencies);
    match m
    case InvalidPayload => false
    case NodeMissing =>
      exists d :: d in i.dependencies && d.NodeDependency? && d.key !in index
    case NodeChanged =>
      exists d :: d in i.dependencies && d.NodeDependency? && d.key in index
        && d.hash != Some(SourceText(index[d.key].sourceHash))
    case EdgeMissing =>
      exists d :: d in i.dependencies && d.EdgeDependency? && !(d.edgeKey.KeyOf? && d.edgeKey.edge in s.edges)
    case ContextChanged =>
      expectedContext.Some? && exists d :: d in i.dependencies && d.ContextDependency? && d.hash != expectedContext
    case ContextUnavailable =>
      expectedContext.Some? && !exists d :: d in i.dependencies && d.ContextDependency?
    case NeighborhoodUnavailable =>
      exists id :: id in DependencyNodes(i.dependencies) && id !in expected
    case NeighborhoodChanged =>
      exists id :: id in DependencyNodes(i.dependencies) && id in expected && id in index
        && NeighborhoodHash(s, id) != Some(expected[id])
    case SourceWindowChanged =>
      exists w :: w in i.sourceWindows && WindowStale(w, s)
  }

  ghost predicate Clean(i: Investigation, s: CodeGraphSnapshot, expectedContext: Option<Fingerprint>) {
    forall m :: !HasMismatch(i, s, expectedContext, m)
  }

  /** Mismatches that one dependency shows on its own. */
  function DependencyMismatches(d: Dependency, s: CodeGraphSnapshot, expectedContext: Option<Fingerprint>): set<Mismatch> {
    var index := NodeIndex(s.nodes);
    if d.NodeDependency? then
      if d.key !in index then {NodeMissing}
      else if d.hash != Some(SourceText(index[d.key].sourceHash)) then {NodeChanged} else {}
    else if d.EdgeDependency? && !(d.edgeKey.KeyOf? && d.edgeKey.edge in s.edges) then {EdgeMissing}
    else if d.ContextDependency? && expectedContext.Some? && d.hash != expectedContext then {ContextChanged}
    else {}
  }

  /** The four mismatches found while reading the dependency list. */
  ghost predicate DependenciesShow(dependencies: seq<Dependency>, s: CodeGraphSnapshot, expectedContext: Option<Fingerprint>,
                                   m: Mismatch) {
    exists d :: d in dependencies && m in DependencyMismatches(d, s, expectedContext)
  }

  method ReadDependencies(dependencies: seq<Dependency>, s: CodeGraphSnapshot, expectedContext: Option<Fingerprint>)
    returns (mismatches: set<Mismatch>, nodeIds: set<NodeId>, neighborhoods: map<NodeId, Fingerprint>, contextFound: bool)
    ensures forall m :: m in mismatches <==> DependenciesShow(dependencies, s, expectedContext, m)
    ensures nodeIds == DependencyNodes(dependencies) && neighborhoods == ExpectedNeighborhoods(dependencies)
    ensures contextFound <==> expectedContext.Some? && NamesContext(dependencies)
  {
    mismatches, nodeIds, neighborhoods, contextFound := {}, {}, map[], false;
    for n := 0 to |dependencies|
      invariant forall m :: m in mismatches <==> DependenciesShow(dependencies[..n], s, expectedContext, m)
      invariant nodeIds == DependencyNodes(dependencies[..n]) && neighborhoods == ExpectedNeighborhoods(dependencies[..n])
      invariant contextFound <==> expectedContext.Some? && NamesContext(dependencies[..n])
    {
      var d := dependencies[n];
      ReadOneMore(dependencies, n, s, expectedContext);
      mismatches := mismatches + DependencyMismatches(d, s, expectedContext);
      if d.NodeDependency? {
        nodeIds := nodeIds + {d.key};
      } else if d.NeighborhoodDependency? && d.hash.Some? {
        neighborhoods := neighborhoods[d.key := d.hash.value];
      } else if d.ContextDependency? && expectedContext.Some? {
        contextFound := true;
      }
    }
    assert dependencies[..|dependencies|] == dependencies;
  }

  predicate NamesContext(dependencies: seq<Dependency>) {
    exists d :: d in dependencies && d.ContextDependency?
  }

  lemma ReadOneMore(dependencies: seq<Dependency>, n: nat, s: CodeGraphSnapshot, expectedContext: Option<Fingerprint>)
    requires n < |dependencies|
    ensures var front, d := dependencies[..n], dependencies[n];
      && (forall m :: DependenciesShow(dependencies[..n + 1], s, expectedContext, m) <==> DependenciesShow(front, s, expectedContext, m) || m in DependencyMismatches(d, s, expectedContext))
      && DependencyNodes(dependencies[..n + 1]) == DependencyNodes(front) + (if d.NodeDependency? then {d.key} else {})
      && ExpectedNeighborhoods(dependencies[..n + 1]) == (if d.NeighborhoodDependency? && d.hash.Some? then ExpectedNeighborhoods(front)[d.key := d.hash.value] else ExpectedNeighborhoods(front))
      && (NamesContext(dependencies[..n + 1]) <==> NamesContext(front) || d.ContextDependency?)
  {
    assert dependencies[..n + 1] == dependencies[..n] + [dependencies[n]];
    assert dependencies[..n + 1][..n] == dependencies[..n];
    assert forall d :: d in dependencies[..n + 1] <==> d in dependencies[..n] || d == dependencies[n];
  }

  /** The mismatches found while comparing recorded neighborhoods with the snapshot's. */
  ghost predicate NeighborhoodsShow(nodeIds: set<NodeId>, neighborhoods: map<NodeId, Fingerprint>, s: CodeGraphSnapshot,
                                    m: Mismatch) {
    exists id :: id in nodeIds && m in NeighborhoodMismatches(id, neighborhoods, s)
  }

  function NeighborhoodMismatches(id: NodeId, neighborhoods: map<NodeId, Fingerprint>, s: CodeGraphSnapshot): set<Mismatch> {
    if id !in neighborhoods then {NeighborhoodUnavailable}
    else
      var current := NeighborhoodHash(s, id);
      if current.None? then {NodeMissing}
      else if current.value != neighborhoods[id] then {NeighborhoodChanged} else {}
  }

  method CheckNeighborhoods(nodeIds: set<NodeId>, neighborhoods: map<NodeId, Fingerprint>, s: CodeGraphSnapshot)
    returns (mismatches: set<Mismatch>)
    ensures forall m :: m in mismatches <==> NeighborhoodsShow(nodeIds, neighborhoods, s, m)
  {
    mismatches := {};
    var pending := nodeIds;
    while pending != {}
      invariant pending <= nodeIds
      invariant forall m :: m in mismatches <==> NeighborhoodsShow(nodeIds - pending, neighborhoods, s, m)
      decreases pending
    {
      var id :| id in pending;
      ghost var before := nodeIds - pending;
      pending := pending - {id};
      assert nodeIds - pending == before + {id};
      mismatches := mismatches + NeighborhoodMismatches(id, neighborhoods, s);
    }
  }

  method CheckWindows(windows: seq<SourceWindow>, s: CodeGraphSnapshot) returns (stale: bool)
    ensures stale <==> exists w :: w in windows && WindowStale(w, s)
  {
    stale := false;
    for n := 0 to |windows|
      invariant stale <==> exists w :: w in windows[..n] && WindowStale(w, s)
    {
      assert windows[..n + 1] == windows[..n] + [windows[n]];
      if WindowStale(windows[n], s) {
        stale := true;
      }
    }
    assert windows[..|windows|] == windows;
  }

  method InvestigationGraphMismatches(value: Option<Investigation>, s: CodeGraphSnapshot, expectedContext: Option<Fingerprint>)
    returns (mismatches: set<Mismatch>)
    ensures value.None? ==> mismatches == {InvalidPayload}
    ensures value.Some? ==> forall m :: m in mismatches <==> HasMismatch(value.value, s, expectedContext, m)
  {
    if value.None? {
      return {InvalidPayload};
    }
    var i := value.value;
    var shown, nodeIds, neighborhoods, contextFound := ReadDependencies(i.dependencies, s, expectedContext);
    var around := CheckNeighborhoods(nodeIds, neighborhoods, s);
    var stale := CheckWindows(i.sourceWindows, s);
    mismatches := shown + around
      + (if expectedContext.Some? && !contextFound then {ContextUnavailable} else {})
      + (if stale then {SourceWindowChanged} else {});
    forall m
      ensures m in mismatches <==> HasMismatch(i, s, expectedContext, m)
    {
      MismatchesAreComplete(i, s, expectedContext, m);
    }
  }

  /** Reading the dependencies and comparing the neighborhoods account for every mismatch of nodes, edges and context. */
  lemma MismatchesAreComplete(i: Investigation, s: CodeGraphSnapshot, expectedContext: Option<Fingerprint>, m: Mismatch)
    ensures
      var shown := DependenciesShow(i.dependencies, s, expectedContext, m)
        || NeighborhoodsShow(DependencyNodes(i.dependencies), ExpectedNeighborhoods(i.dependencies), s, m);
      if m in {ContextUnavailable, SourceWindowChanged} then !shown else shown == HasMismatch(i, s, expectedContext, m)
  {
    var expected := ExpectedNeighborhoods(i.dependencies);
    if m == NodeMissing {
      forall id | id in DependencyNodes(i.dependencies) && NodeMissing in NeighborhoodMismatches(id, expected, s)
        ensures HasMismatch(i, s, expectedContext, m)
      {
        var d :| d in i.dependencies && d.NodeDependency? && d.key == id;
      }
    } else if m in {NeighborhoodUnavailable, NeighborhoodChanged} {
      forall id | id in DependencyNodes(i.dependencies)
        ensures m in NeighborhoodMismatches(id, expected, s) ==> HasMismatch(i, s, expectedContext, m)
      {
      }
    }
    DependencyMismatchesAreComplete(i, s, expectedContext, m);
  }

  predicate WindowStale(w: SourceWindow, s: CodeGraphSnapshot) {
    w.path.Some? && Lookup(s.sourceHashes, w.path.value) != w.contentHash
  }

  lemma DependencyMismatchesAreComplete(i: Investigation, s: CodeGraphSnapshot, expectedContext: Option<Fingerprint>,
                                        m: Mismatch)
    ensures DependenciesShow(i.dependencies, s, expectedContext, m) <==>
            m in {NodeMissing, NodeChanged, EdgeMissing, ContextChanged} && HasMismatch(i, s, expectedContext, m)
  {
    if m in {NodeMissing, NodeChanged, EdgeMissing, ContextChanged} && HasMismatch(i, s, expectedContext, m) {
      MismatchIsShown(i, s, expectedContext, m);
    }
  }

  lemma MismatchIsShown(i: Investigation, s: CodeGraphSnapshot, expectedContext: Option<Fingerprint>, m: Mismatch)
    requires m in {NodeMissing, NodeChanged, EdgeMissing, ContextChanged} && HasMismatch(i, s, expectedContext, m)
    ensures DependenciesShow(i.dependencies, s, expectedContext, m)
  {
    if HasMismatch(i, s, expectedContext, m) {
      match m
      case NodeMissing =>
        var d :| d in i.dependencies && d.NodeDependency? && d.key !in NodeIndex(s.nodes);
        assert m in DependencyMismatches(d, s, expectedContext);
      case NodeChanged =>
        var d :| d in i.dependencies && d.NodeDependency? && d.key in NodeIndex(s.nodes)
          && d.hash != Some(SourceText(NodeIndex(s.nodes)[d.key].sourceHash));
        assert m in DependencyMismatches(d, s, expectedContext);
      case EdgeMissing =>
        var d :| d in i.dependencies && d.EdgeDependency? && !(d.edgeKey.KeyOf? && d.edgeKey.edge in s.edges);
        assert m in DependencyMismatches(d, s, expectedContext);
      case ContextChanged =>
        var d :| d in i.dependencies && d.ContextDependency? && d.hash != expectedContext;
        assert m in DependencyMismatches(d, s, expectedContext);
      case _ =>
    }
  }

  // ---------------------------------------------------------------- incremental against full

  /** Nodes outside the fanout have the same incident edges in both snapshots, repetitions included. */
  ghost predicate NeighborhoodsAgree(current: CodeGraphSnapshot, previous: CodeGraphSnapshot, f: Fanout) {
    f.truncated || forall id :: id in NodeIndex(current.nodes) && id in NodeIndex(previous.nodes) && id !in f.reached ==>
      Incident(current.edges, id) == Incident(previous.edges, id)
  }

  /** An identified investigation that was clean before and is not affected. */
  ghost predicate CarriedOver(i: Investigation, current: CodeGraphSnapshot, previous: CodeGraphSnapshot, f: Fanout,
                              expectedContext: Option<Fingerprint>) {
    && i.investigationId != NoId && Clean(i, previous, expectedContext)
    && !IsAffected(i, Difference(current, previous), f)
  }

  /** A key outside the three difference sets is looked up alike in both maps. */
  lemma UnchangedKeyLooksUpAlike<K, V>(current: map<K, V>, previous: map<K, V>, k: K)
    requires k !in (current.Keys - previous.Keys) + Changed(current, previous) + (previous.Keys - current.Keys)
    ensures Lookup(current, k) == Lookup(previous, k)
  {
  }

  /** An investigation that was clean and is not affected passes the full recheck. */
  lemma UnaffectedStaysClean(i: Investigation, current: CodeGraphSnapshot, previous: CodeGraphSnapshot, f: Fanout,
                             expectedContext: Option<Fingerprint>)
    requires Difference(current, previous).Seeds() <= f.reached
    requires NeighborhoodsAgree(current, previous, f)
    requires CarriedOver(i, current, previous, f, expectedContext)
    ensures Clean(i, current, expectedContext)
  {
    forall m
      ensures !HasMismatch(i, current, expectedContext, m)
    {
      assert !HasMismatch(i, previous, expectedContext, m);
      if m in {NodeMissing, NodeChanged, NeighborhoodChanged} {
        NodesStay(i, current, previous, f, expectedContext);
        NodeMismatchesStayAway(i, current, previous, expectedContext, m);
      } else if m == EdgeMissing {
        EdgesStay(i, current, previous, expectedContext);
      } else if m == SourceWindowChanged {
        WindowsStay(i, current, previous, expectedContext);
      }
    }
  }

  lemma NodesStay(i: Investigation, current: CodeGraphSnapshot, previous: CodeGraphSnapshot, f: Fanout,
                  expectedContext: Option<Fingerprint>)
    requires Difference(current, previous).Seeds() <= f.reached && NeighborhoodsAgree(current, previous, f)
    requires CarriedOver(i, current, previous, f, expectedContext)
    ensures forall id :: id in DependencyNodes(i.dependencies) ==> LooksAlike(id, current, previous)
  {
    var delta := Difference(current, previous);
    assert OwnedNodes(i) !! f.reached;
    forall id | id in DependencyNodes(i.dependencies)
      ensures LooksAlike(id, current, previous)
    {
      assert id in OwnedNodes(i) && id !in f.reached && id !in delta.Nodes();
      UnchangedKeyLooksUpAlike(NodeIndex(current.nodes), NodeIndex(previous.nodes), id);
    }
  }

  ghost predicate LooksAlike(id: NodeId, current: CodeGraphSnapshot, previous: CodeGraphSnapshot) {
    && Lookup(NodeIndex(current.nodes), id) == Lookup(NodeIndex(previous.nodes), id)
    && NeighborhoodHash(current, id) == NeighborhoodHash(previous, id)
  }

  lemma NodeMismatchesStayAway(i: Investigation, current: CodeGraphSnapshot, previous: CodeGraphSnapshot,
                               expectedContext: Option<Fingerprint>, m: Mismatch)
    requires forall id :: id in DependencyNodes(i.dependencies) ==> LooksAlike(id, current, previous)
    requires m in {NodeMissing, NodeChanged, NeighborhoodChanged} && !HasMismatch(i, previous, expectedContext, m)
    ensures !HasMismatch(i, current, expectedContext, m)
  {
    forall d | d in i.dependencies && d.NodeDependency?
      ensures LooksAlike(d.key, current, previous)
    {
      assert d.key in DependencyNodes(i.dependencies);
    }
  }

  lemma EdgesStay(i: Investigation, current: CodeGraphSnapshot, previous: CodeGraphSnapshot,
                  expectedContext: Option<Fingerprint>)
    requires !HasMismatch(i, previous, expectedContext, EdgeMissing)
    requires forall e :: KeyOf(e) in OwnedEdges(i) ==> e !in Difference(current, previous).Edges()
    ensures !HasMismatch(i, current, expectedContext, EdgeMissing)
  {
    forall d | d in i.dependencies && d.EdgeDependency?
      ensures d.edgeKey.KeyOf? && d.edgeKey.edge in current.edges
    {
      assert d.edgeKey.KeyOf? && d.edgeKey.edge in previous.edges;
      var e := d.edgeKey.edge;
      assert KeyOf(e) in OwnedEdges(i);
      assert e !in Difference(current, previous).Edges();
    }
  }

  lemma WindowsStay(i: Investigation, current: CodeGraphSnapshot, previous: CodeGraphSnapshot,
                    expectedContext: Option<Fingerprint>)
    requires !HasMismatch(i, previous, expectedContext, SourceWindowChanged)
    requires WindowPaths(i) !! Difference(current, previous).Paths()
    ensures !HasMismatch(i, current, expectedContext, SourceWindowChanged)
  {
    forall w | w in i.sourceWindows
      ensures !WindowStale(w, current)
    {
      assert !WindowStale(w, previous);
      if w.path.Some? {
        assert w.path.value in WindowPaths(i);
        assert w.path.value !in Difference(current, previous).Paths();
        UnchangedKeyLooksUpAlike(current.sourceHashes, previous.sourceHashes, w.path.value);
      }
    }
  }

  /** Edge lists without repetitions always agree outside the fanout. */
  lemma DuplicateFreeNeighborhoodsAgree(current: CodeGraphSnapshot, previous: CodeGraphSnapshot, f: Fanout)
    requires NoDuplicates(current.edges) && NoDuplicates(previous.edges)
    requires Difference(current, previous).Seeds() <= f.reached
    ensures NeighborhoodsAgree(current, previous, f)
  {
    var delta := Difference(current, previous);
    NoDuplicatesCountOne(current.edges);
    NoDuplicatesCountOne(previous.edges);
    forall id | id !in f.reached
      ensures Incident(current.edges, id) == Incident(previous.edges, id)
    {
      forall e: CodeEdge
        ensures Incident(current.edges, id)[e] == Incident(previous.edges, id)[e]
      {
        IncidentCounts(current.edges, id, e);
        IncidentCounts(previous.edges, id, e);
        if Touches(e, id) {
          assert id in delta.Seeds() || e !in delta.Edges();
        }
      }
    }
  }

  /** A minimal investigation that depends on one node of `s` and is clean there. */
  ghost function Witness(id: NodeId, s: CodeGraphSnapshot, expectedContext: Option<Fingerprint>): Investigation
    requires id in NodeIndex(s.nodes)
  {
    Investigation(
      IdOf("", NamedKey(""), Pending), NamedKey(""), "", s.Id(), None, TargetRef(None, None, {}, {}), "", [], [], [],
      WitnessDependencies(id, s, expectedContext), [], [], Pending, Planned, None, 1)
  }

  ghost function WitnessDependencies(id: NodeId, s: CodeGraphSnapshot, expectedContext: Option<Fingerprint>): seq<Dependency>
    requires id in NodeIndex(s.nodes)
  {
    [ContextDependency(expectedContext),
     NodeDependency(id, Some(SourceText(NodeIndex(s.nodes)[id].sourceHash))),
     NeighborhoodDependency(id, NeighborhoodHash(s, id))]
  }

  lemma WitnessOwnsOneNode(id: NodeId, s: CodeGraphSnapshot, expectedContext: Option<Fingerprint>)
    requires id in NodeIndex(s.nodes)
    ensures var w := Witness(id, s, expectedContext);
      && OwnedNodes(w) == DependencyNodes(w.dependencies) == {id} && OwnedEdges(w) == {}
      && WindowPaths(w) == {} && DependencyFiles(w.dependencies) == {}
  {
    var w := Witness(id, s, expectedContext);
    assert w.dependencies[1] in w.dependencies;
    assert TargetNodes(w.targetRef) == {};
    assert DependencyNodes(w.dependencies) == {id};
    assert DependencyEdges(w.dependencies) == {};
  }

  lemma WitnessIsClean(id: NodeId, s: CodeGraphSnapshot, expectedContext: Option<Fingerprint>)
    requires id in NodeIndex(s.nodes)
    ensures var w := Witness(id, s, expectedContext);
      && Clean(w, s, expectedContext)
      && Lookup(ExpectedNeighborhoods(w.dependencies), id) == NeighborhoodHash(s, id)
  {
    var w := Witness(id, s, expectedContext);
    var d := w.dependencies;
    WitnessOwnsOneNode(id, s, expectedContext);
    assert d[0] in d;
  }

  /**
    Not being affected implies passing the full recheck, for every investigation, exactly when the two
    snapshots agree on the repetitions of edges outside the fanout.
   */
  lemma IncrementalAgreesWithFullRecheckIff(current: CodeGraphSnapshot, previous: CodeGraphSnapshot, f: Fanout,
                                            expectedContext: Option<Fingerprint>)
    requires Difference(current, previous).Seeds() <= f.reached
    ensures NeighborhoodsAgree(current, previous, f) <==>
            forall i :: CarriedOver(i, current, previous, f, expectedContext) ==> Clean(i, current, expectedContext)
  {
    if NeighborhoodsAgree(current, previous, f) {
      forall i | CarriedOver(i, current, previous, f, expectedContext)
        ensures Clean(i, current, expectedContext)
      {
        UnaffectedStaysClean(i, current, previous, f, expectedContext);
      }
    } else {
      var id :| id in NodeIndex(current.nodes) && id in NodeIndex(previous.nodes) && id !in f.reached
        && Incident(current.edges, id) != Incident(previous.edges, id);
      WitnessIsCarriedOver(current, previous, f, expectedContext, id);
      WitnessCatchesChange(current, previous, expectedContext, id);
    }
  }

  lemma WitnessIsCarriedOver(current: CodeGraphSnapshot, previous: CodeGraphSnapshot, f: Fanout,
                             expectedContext: Option<Fingerprint>, id: NodeId)
    requires Difference(current, previous).Seeds() <= f.reached && !f.truncated
    requires id in NodeIndex(previous.nodes) && id !in f.reached
    ensures CarriedOver(Witness(id, previous, expectedContext), current, previous, f, expectedContext)
  {
    var w := Witness(id, previous, expectedContext);
    WitnessIsClean(id, previous, expectedContext);
    WitnessOwnsOneNode(id, previous, expectedContext);
    var delta := Difference(current, previous);
    forall e | e in delta.Edges()
      ensures e.sourceId != id && e.targetId != id
    {
      assert e.sourceId in delta.Seeds() && e.targetId in delta.Seeds();
    }
  }

  lemma WitnessCatchesChange(current: CodeGraphSnapshot, previous: CodeGraphSnapshot,
                             expectedContext: Option<Fingerprint>, id: NodeId)
    requires id in NodeIndex(current.nodes) && id in NodeIndex(previous.nodes)
    requires Incident(current.edges, id) != Incident(previous.edges, id)
    ensures !Clean(Witness(id, previous, expectedContext), current, expectedContext)
  {
    var w := Witness(id, previous, expectedContext);
    WitnessIsClean(id, previous, expectedContext);
    WitnessOwnsOneNode(id, previous, expectedContext);
    assert id in DependencyNodes(w.dependencies);
    assert HasMismatch(w, current, expectedContext, NeighborhoodChanged);
  }

  /** Such a disagreement exists: repeating an edge leaves the delta empty but changes the neighborhood. */
  lemma RepeatedEdgeGoesUnnoticed()
    ensures exists current: CodeGraphSnapshot, previous: CodeGraphSnapshot, i: Investigation ::
      var f := FanoutOf(Difference(current, previous), Some(current), 12, 20000);
      CarriedOver(i, current, previous, f, None) && !Clean(i, current, None)
  {
    var e := CodeEdge("n", "n", "calls", "EXTRACTED", "p", 1, "h");
    var node := CodeNode("n", "p", 1, "name", "h");
    var previous := CodeGraphSnapshot(map["p" := "h"], [node], [e], "v");
    var current := previous.(edges := [e, e]);
    var delta := Difference(current, previous);
    assert EdgeSet(current) == EdgeSet(previous) == {e};
    assert delta.Edges() == {} && delta.Nodes() == {} && delta.Paths() == {};
    var f := FanoutOf(delta, Some(current), 12, 20000);
    assert FanoutSeeds(delta, current) == {};
    assert Predecessors(current.edges, {}) == {};
    assert f == Fanout({}, false);
    assert Incident([e, e][1..], "n") == multiset{e} by { assert [e, e][1..] == [e]; assert [e][1..] == []; }
    assert Incident([e], "n") == multiset{e} by { assert [e][1..] == []; }
    assert Incident(current.edges, "n")[e] == 2;
    assert node in current.nodes && node in previous.nodes;
    WitnessIsCarriedOver(current, previous, f, None, "n");
    WitnessCatchesChange(current, previous, None, "n");
  }
}
