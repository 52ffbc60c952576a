/** The planner's own check of its targets, and why grouping satisfies it. */
module PlannerAdmission {
  import opened GraphSnapshot
  import opened Reachability
  import opened Sequences
  import opened TargetGrouping

  datatype PlanningLimits = PlanningLimits(maximumTargetNodes: int, maximumNeighborNodes: int)

  datatype AdmissionError = NoTarget | ExceedsBound | ForeignBroker | UnknownNode | NotConnected

  /** Steps along graph edges, in either direction, that stay inside `ids`. */
  ghost function Induced(ids: set<NodeId>, edges: seq<CodeEdge>): set<(NodeId, NodeId)> {
    set a, b | a in ids && b in ids && Adjacent(edges, a, b) :: (a, b)
  }

  predicate EdgeJoins(e: CodeEdge, a: NodeId, b: NodeId) {
    (e.sourceId == a && e.targetId == b) || (e.sourceId == b && e.targetId == a)
  }

  ghost predicate Adjacent(edges: seq<CodeEdge>, a: NodeId, b: NodeId) {
    exists e :: e in edges && EdgeJoins(e, a, b)
  }

  ghost predicate Connected(ids: set<NodeId>, edges: seq<CodeEdge>) {
    forall a, b :: a in ids && b in ids ==> Reaches(Induced(ids, edges), a, b)
  }

  // ---------------------------------------------------------------- the admission check

  /** Drops empty identifiers and repetitions, keeping first occurrences. */
  function Distinct(ids: seq<NodeId>): (distinct: seq<NodeId>)
    ensures NoDuplicates(distinct)
    ensures forall id :: id in distinct <==> id in ids && id != ""
  {
    if ids == [] then [] else
      var front, last := Distinct(ids[..|ids| - 1]), ids[|ids| - 1];
      assert ids == ids[..|ids| - 1] + [last];
      if last == "" || last in front then front else front + [last]
  }

  function IdSet(ids: seq<NodeId>): set<NodeId> {
    set id | id in ids
  }

  function KnownIds(snapshot: CodeGraphSnapshot): set<NodeId> {
    set n | n in snapshot.nodes :: n.id
  }

  ghost function Admission(limits: PlanningLimits, broker: SnapshotId, snapshot: CodeGraphSnapshot, requested: seq<NodeId>)
    : Result<seq<NodeId>, AdmissionError>
  {
    var ids := Distinct(requested);
    if ids == [] then Failure(NoTarget)
    else if |ids| > limits.maximumTargetNodes || |ids| > limits.maximumNeighborNodes then Failure(ExceedsBound)
    else if broker != snapshot.Id() then Failure(ForeignBroker)
    else if !(IdSet(ids) <= KnownIds(snapshot)) then Failure(UnknownNode)
    else if !Connected(IdSet(ids), snapshot.edges) then Failure(NotConnected)
    else Success(ids)
  }

  ghost predicate ListsNeighbors(adjacency: map<NodeId, set<NodeId>>, ids: set<NodeId>, edges: seq<CodeEdge>) {
    adjacency.Keys == ids && forall a, b :: a in ids ==> (b in adjacency[a] <==> b in ids && Adjacent(edges, a, b))
  }

  /** For each target, the targets one edge away. */
  method BuildAdjacency(ids: set<NodeId>, edges: seq<CodeEdge>) returns (adjacency: map<NodeId, set<NodeId>>)
    ensures ListsNeighbors(adjacency, ids, edges)
  {
    adjacency := map id | id in ids :: {};
    for n := 0 to |edges|
      invariant ListsNeighbors(adjacency, ids, edges[..n])
    {
      adjacency := AddEdge(adjacency, ids, edges, n, edges[n]);
    }
    assert edges[..|edges|] == edges;
  }

  method AddEdge(adjacency: map<NodeId, set<NodeId>>, ids: set<NodeId>, ghost edges: seq<CodeEdge>, n: nat, e: CodeEdge)
    returns (grown: map<NodeId, set<NodeId>>)
    requires n < |edges| && e == edges[n] && ListsNeighbors(adjacency, ids, edges[..n])
    ensures ListsNeighbors(grown, ids, edges[..n + 1])
  {
    grown := adjacency;
    if e.sourceId in ids && e.targetId in ids {
      grown := grown[e.sourceId := grown[e.sourceId] + {e.targetId}];
      grown := grown[e.targetId := grown[e.targetId] + {e.sourceId}];
    }
    forall a, b | a in ids
      ensures b in grown[a] <==> b in ids && Adjacent(edges[..n + 1], a, b)
    {
      AdjacentGrows(edges, n, a, b);
    }
  }

  lemma AdjacentGrows(edges: seq<CodeEdge>, n: nat, a: NodeId, b: NodeId)
    requires n < |edges|
    ensures Adjacent(edges[..n + 1], a, b) <==> Adjacent(edges[..n], a, b) || EdgeJoins(edges[n], a, b)
  {
    assert edges[..n + 1] == edges[..n] + [edges[n]];
  }

  lemma IdSetOfConcat(a: seq<NodeId>, b: seq<NodeId>)
    ensures IdSet(a + b) == IdSet(a) + IdSet(b)
  {
  }

  /** Appends the unseen neighbors to the worklist, one by one. */
  method Enqueue(neighbors: set<NodeId>, pending: seq<NodeId>) returns (queued: seq<NodeId>)
    ensures IdSet(queued) == IdSet(pending) + neighbors
    ensures neighbors == {} ==> queued == pending
  {
    queued := pending;
    var unseen := neighbors;
    while unseen != {}
      invariant unseen <= neighbors
      invariant IdSet(queued) == IdSet(pending) + (neighbors - unseen)
      invariant neighbors == {} ==> queued == pending
      decreases unseen
    {
      var neighbor :| neighbor in unseen;
      IdSetOfConcat(queued, [neighbor]);
      queued := queued + [neighbor];
      unseen := unseen - {neighbor};
    }
  }

  /** What is reached so far is reachable, and only pending nodes can still lead outside it. */
  ghost predicate Exploring(steps: set<(NodeId, NodeId)>, start: NodeId, reached: set<NodeId>, pending: set<NodeId>) {
    && start in reached && pending <= reached
    && (forall b :: b in reached ==> Reaches(steps, start, b))
    && (forall a, b :: (a, b) in steps && a in reached - pending ==> b in reached)
  }

  lemma ExploringContinues(steps: set<(NodeId, NodeId)>, start: NodeId, reached: set<NodeId>, pending: set<NodeId>,
                           current: NodeId, neighbors: set<NodeId>, left: set<NodeId>)
    requires Exploring(steps, start, reached, pending) && current in pending
    requires forall b :: b in neighbors <==> (current, b) in steps
    requires (pending - {current}) + (neighbors - reached) <= left <= reached + neighbors
    ensures Exploring(steps, start, reached + neighbors, left)
  {
    forall b | b in neighbors
      ensures Reaches(steps, start, b)
    {
      ReachesStep(steps, current, b);
      ReachesTransitive(steps, start, current, b);
    }
  }

  lemma ExploringEnds(steps: set<(NodeId, NodeId)>, start: NodeId, reached: set<NodeId>)
    requires Exploring(steps, start, reached, {})
    ensures forall b :: b in reached <==> Reaches(steps, start, b)
  {
    forall b | Reaches(steps, start, b)
      ensures b in reached
    {
      ReachesStaysInside(steps, reached, start, b);
    }
  }

  /** The worklist search: everything it reaches is reachable, and nothing reachable is missed. */
  method Explore(ids: seq<NodeId>, edges: seq<CodeEdge>) returns (reached: set<NodeId>)
    requires ids != []
    ensures reached <= IdSet(ids)
    ensures forall b :: b in reached <==> Reaches(Induced(IdSet(ids), edges), ids[0], b)
  {
    var all, start := IdSet(ids), ids[0];
    ghost var steps := Induced(all, edges);
    var adjacency := BuildAdjacency(all, edges);
    reached := {start};
    var pending := [start];
    ReachesSelf(steps, start);
    while pending != []
      invariant reached <= all
      invariant Exploring(steps, start, reached, IdSet(pending))
      decreases |all - reached|, |pending|
    {
      var current, rest := pending[|pending| - 1], pending[..|pending| - 1];
      assert current in IdSet(pending);
      var neighbors := adjacency[current];
      assert pending == rest + [current];
      reached, pending := Visit(steps, start, all, reached, rest, current, neighbors);
    }
    ExploringEnds(steps, start, reached);
  }

  /** One round: adds the neighbors of the node just taken off the worklist. */
  method Visit(ghost steps: set<(NodeId, NodeId)>, ghost start: NodeId, ghost all: set<NodeId>, reached: set<NodeId>,
               rest: seq<NodeId>, current: NodeId, neighbors: set<NodeId>)
    returns (grown: set<NodeId>, queued: seq<NodeId>)
    requires Exploring(steps, start, reached, IdSet(rest + [current])) && reached <= all
    requires neighbors <= all && forall b :: b in neighbors <==> (current, b) in steps
    ensures Exploring(steps, start, grown, IdSet(queued)) && reached <= grown <= all
    ensures |all - grown| < |all - reached| || (grown == reached && queued == rest)
  {
    IdSetOfConcat(rest, [current]);
    queued := Enqueue(neighbors - reached, rest);
    ExploringContinues(steps, start, reached, IdSet(rest + [current]), current, neighbors, IdSet(queued));
    grown := reached + neighbors;
    if !(neighbors <= reached) {
      SubsetIsSmaller(all - grown, all - reached);
    }
  }

  lemma SubsetIsSmaller<T>(a: set<T>, b: set<T>)
    requires a < b
    ensures |a| < |b|
  {
    assert b == a + (b - a);
  }

  method AdmitTargets(limits: PlanningLimits, broker: SnapshotId, snapshot: CodeGraphSnapshot, requested: seq<NodeId>)
    returns (r: Result<seq<NodeId>, AdmissionError>)
    ensures r == Admission(limits, broker, snapshot, requested)
  {
    var ids := Distinct(requested);
    if ids == [] {
      return Failure(NoTarget);
    }
    if |ids| > limits.maximumTargetNodes || |ids| > limits.maximumNeighborNodes {
      return Failure(ExceedsBound);
    }
    if broker != snapshot.Id() {
      return Failure(ForeignBroker);
    }
    if !(IdSet(ids) <= KnownIds(snapshot)) {
      return Failure(UnknownNode);
    }
    if |ids| > 1 {
      var reached := Explore(ids, snapshot.edges);
      ReachingAllIsConnected(ids, snapshot.edges);
      if reached != IdSet(ids) {
        return Failure(NotConnected);
      }
    } else {
      ReachesSelf(Induced(IdSet(ids), snapshot.edges), ids[0]);
    }
    return Success(ids);
  }

  /** Reaching every target from the first one is being connected. */
  lemma ReachingAllIsConnected(ids: seq<NodeId>, edges: seq<CodeEdge>)
    requires ids != []
    ensures Connected(IdSet(ids), edges) <==>
            forall b :: b in ids ==> Reaches(Induced(IdSet(ids), edges), ids[0], b)
  {
    var steps := Induced(IdSet(ids), edges);
    if forall b :: b in ids ==> Reaches(steps, ids[0], b) {
      forall a, b | a in ids && b in ids
        ensures Reaches(steps, a, b)
      {
        ReachesBack(steps, ids[0], a);
        ReachesTransitive(steps, a, ids[0], b);
      }
    }
  }

  // ---------------------------------------------------------------- grouping meets the check

  /** The nodes of one surface are linked to each other inside its group. */
  ghost predicate LinkedInside(target: SurfaceTarget, group: SurfaceGroup, edges: seq<CodeEdge>) {
    forall a, b :: a in target.nodeIds && b in target.nodeIds ==> Reaches(Induced(group.nodeIds, edges), a, b)
  }

  /**
    A component is connected exactly when each of its surfaces is linked inside it: chains of
    touching surfaces supply every link between different surfaces.
   */
  lemma GroupConnectedIffSurfacesLinked(targets: seq<SurfaceTarget>, edges: seq<CodeEdge>, group: SurfaceGroup)
    requires IsComponent(targets, edges, group)
    ensures Connected(group.nodeIds, edges) <==>
            forall k :: 0 <= k < |group.members| ==> LinkedInside(targets[group.members[k]], group, edges)
  {
    forall k, id | 0 <= k < |group.members| && id in targets[group.members[k]].nodeIds
      ensures id in group.nodeIds
    {
    }
    if forall k :: 0 <= k < |group.members| ==> LinkedInside(targets[group.members[k]], group, edges) {
      forall a, b | a in group.nodeIds && b in group.nodeIds
        ensures Reaches(Induced(group.nodeIds, edges), a, b)
      {
        LinkedSurfacesConnect(targets, edges, group, a, b);
      }
    }
  }

  lemma LinkedSurfacesConnect(targets: seq<SurfaceTarget>, edges: seq<CodeEdge>, group: SurfaceGroup, a: NodeId, b: NodeId)
    requires IsComponent(targets, edges, group) && a in group.nodeIds && b in group.nodeIds
    requires forall k :: 0 <= k < |group.members| ==> LinkedInside(targets[group.members[k]], group, edges)
    ensures Reaches(Induced(group.nodeIds, edges), a, b)
  {
    var touch, steps := TouchPairs(targets, edges), Induced(group.nodeIds, edges);
    var k :| 0 <= k < |group.members| && a in targets[group.members[k]].nodeIds;
    var m :| 0 <= m < |group.members| && b in targets[group.members[m]].nodeIds;
    var i, j := group.members[k], group.members[m];
    var near := set n: nat | n in group.members && forall c :: c in targets[n].nodeIds ==> Reaches(steps, a, c);
    forall x: nat, y: nat | (x, y) in touch && x in near
      ensures y in near
    {
      ReachesStep(touch, x, y);
      assert y in group.members;
      TouchingNodesLink(targets, edges, group, a, x, y);
    }
    assert i in group.members && j in group.members;
    assert LinkedInside(targets[i], group, edges);
    ReachesStaysInside(touch, near, i, j);
  }

  lemma TouchingNodesLink(targets: seq<SurfaceTarget>, edges: seq<CodeEdge>, group: SurfaceGroup, a: NodeId, x: nat, y: nat)
    requires IsComponent(targets, edges, group) && x in group.members && y in group.members
    requires Touching(targets[x], targets[y], edges)
    requires forall k :: 0 <= k < |group.members| ==> LinkedInside(targets[group.members[k]], group, edges)
    requires forall c :: c in targets[x].nodeIds ==> Reaches(Induced(group.nodeIds, edges), a, c)
    ensures forall c :: c in targets[y].nodeIds ==> Reaches(Induced(group.nodeIds, edges), a, c)
  {
    var steps := Induced(group.nodeIds, edges);
    var from, to: NodeId;
    if id :| id in targets[x].nodeIds && id in targets[y].nodeIds {
      from, to := id, id;
      ReachesSelf(steps, id);
    } else {
      var e :| e in edges && ((e.sourceId in targets[x].nodeIds && e.targetId in targets[y].nodeIds)
                              || (e.targetId in targets[x].nodeIds && e.sourceId in targets[y].nodeIds));
      from, to := if e.sourceId in targets[x].nodeIds && e.targetId in targets[y].nodeIds
        then e.sourceId else e.targetId,
      if e.sourceId in targets[x].nodeIds && e.targetId in targets[y].nodeIds
        then e.targetId else e.sourceId;
      var kx :| 0 <= kx < |group.members| && group.members[kx] == x;
      var ky :| 0 <= ky < |group.members| && group.members[ky] == y;
      assert from in group.nodeIds && to in group.nodeIds && Adjacent(edges, from, to);
      ReachesStep(steps, from, to);
    }
    ReachesTransitive(steps, a, from, to);
    forall c | c in targets[y].nodeIds
      ensures Reaches(steps, a, c)
    {
      assert LinkedInside(targets[y], group, edges);
      ReachesTransitive(steps, a, to, c);
    }
  }

  /** Within the bounds, a group is admitted exactly when each of its surfaces is linked inside it. */
  lemma GroupAdmittedIffSurfacesLinked(targets: seq<SurfaceTarget>, snapshot: CodeGraphSnapshot, group: SurfaceGroup,
                                       limits: PlanningLimits, requested: seq<NodeId>)
    requires IsComponent(targets, snapshot.edges, group)
    requires forall k :: 0 <= k < |group.members| ==> targets[group.members[k]].nodeIds != {}
    requires IdSet(requested) == group.nodeIds <= KnownIds(snapshot) && "" !in requested
    requires |group.nodeIds| <= limits.maximumTargetNodes && |group.nodeIds| <= limits.maximumNeighborNodes
    ensures Admission(limits, snapshot.Id(), snapshot, requested).Success? <==>
            forall k :: 0 <= k < |group.members| ==> LinkedInside(targets[group.members[k]], group, snapshot.edges)
  {
    var ids := Distinct(requested);
    assert IdSet(ids) == group.nodeIds;
    NoDuplicatesCardinality(ids);
    var id :| id in targets[group.members[0]].nodeIds;
    assert id in group.nodeIds && id in ids;
    GroupConnectedIffSurfacesLinked(targets, snapshot.edges, group);
  }

  /** So a group whose surfaces each map to exactly one node is never rejected. */
  lemma UnambiguousGroupsAreAdmitted(targets: seq<SurfaceTarget>, snapshot: CodeGraphSnapshot, group: SurfaceGroup,
                                     limits: PlanningLimits, requested: seq<NodeId>)
    requires IsComponent(targets, snapshot.edges, group)
    requires forall k :: 0 <= k < |group.members| ==> |targets[group.members[k]].nodeIds| == 1
    requires IdSet(requested) == group.nodeIds <= KnownIds(snapshot) && "" !in requested
    requires |group.nodeIds| <= limits.maximumTargetNodes && |group.nodeIds| <= limits.maximumNeighborNodes
    ensures Admission(limits, snapshot.Id(), snapshot, requested).Success?
  {
    forall k | 0 <= k < |group.members|
      ensures targets[group.members[k]].nodeIds != {} && LinkedInside(targets[group.members[k]], group, snapshot.edges)
    {
      var ids := targets[group.members[k]].nodeIds;
      var only :| only in ids;
      assert |ids - {only}| == 0;
      assert ids == {only};
      ReachesSelf(Induced(group.nodeIds, snapshot.edges), only);
    }
    GroupAdmittedIffSurfacesLinked(targets, snapshot, group, limits, requested);
  }

  /** Without that condition admission can fail: one surface over two unrelated nodes is rejected. */
  lemma AmbiguousSurfaceIsRejected(groups: seq<SurfaceGroup>)
    requires ExactGroups([SurfaceTarget("s", {"a", "b"}, "")], [], groups)
    ensures groups != [] && forall g :: 0 <= g < |groups| ==> !Connected(groups[g].nodeIds, [])
  {
    var targets := [SurfaceTarget("s", {"a", "b"}, "")];
    assert InSomeGroup(groups, 0);
    forall g | 0 <= g < |groups|
      ensures !Connected(groups[g].nodeIds, [])
    {
      assert IsComponent(targets, [], groups[g]);
      var k := groups[g].members[0];
      assert k in groups[g].members && k == 0;
      assert "a" in targets[k].nodeIds && "b" in targets[k].nodeIds;
      var steps := Induced(groups[g].nodeIds, []);
      if Reaches(steps, "a", "b") {
        ReachesStaysInside(steps, {"a"}, "a", "b");
      }
    }
  }
}
