/** Union-find grouping of context surfaces that share or border the same graph nodes. */
module TargetGrouping {
  import opened GraphSnapshot
  import opened Reachability
  import opened Sequences

  /** A context surface, with the graph nodes its verified source locations overlap. */
  datatype SurfaceTarget = SurfaceTarget(surfaceKey: string, nodeIds: set<NodeId>, details: string)

  datatype TargetInventory = TargetInventory(snapshotId: SnapshotId, targets: seq<SurfaceTarget>)

  /** `members` are positions among the mapped targets; the other fields are what a planner receives. */
  datatype SurfaceGroup = SurfaceGroup(
    members: seq<nat>, surfaceKeys: multiset<string>, nodeIds: set<NodeId>, surfaceContext: multiset<SurfaceTarget>)

  datatype Grouping = Grouping(groups: seq<SurfaceGroup>, unmapped: multiset<string>)

  datatype GroupingError = ForeignInventory

  // ---------------------------------------------------------------- parent forest

  ghost predicate Forest(p: seq<nat>) {
    forall i :: 0 <= i < |p| ==> p[i] <= i
  }

  ghost function Root(p: seq<nat>, i: nat): (r: nat)
    requires Forest(p) && i < |p|
    ensures r <= i && p[r] == r
  {
    if p[i] == i then i else Root(p, p[i])
  }

  /** Pointing an index at its grandparent moves no index to another root. */
  lemma {:induction false} HalvingKeepsRoots(p: seq<nat>, i: nat, j: nat)
    requires Forest(p) && i < |p| && j < |p|
    ensures var q := p[i := p[p[i]]]; Forest(q) && Root(q, j) == Root(p, j)
    decreases j
  {
    var q := p[i := p[p[i]]];
    if q[j] != j {
      HalvingKeepsRoots(p, i, q[j]);
    }
  }

  /** Hanging root `hi` under the smaller root `lo` moves exactly the indices of `hi` to `lo`. */
  lemma {:induction false} LinkingMovesOneTree(p: seq<nat>, lo: nat, hi: nat, j: nat)
    requires Forest(p) && lo < hi < |p| && p[lo] == lo && p[hi] == hi && j < |p|
    ensures var q := p[hi := lo];
      Forest(q) && Root(q, j) == if Root(p, j) == hi then lo else Root(p, j)
    decreases j
  {
    var q := p[hi := lo];
    assert q[lo] == lo;
    if q[j] != j && j != hi {
      LinkingMovesOneTree(p, lo, hi, q[j]);
    }
  }

  method Find(parent: array<nat>, start: nat) returns (root: nat)
    requires Forest(parent[..]) && start < parent.Length
    modifies parent
    ensures Forest(parent[..]) && root == Root(old(parent[..]), start)
    ensures forall j :: 0 <= j < parent.Length ==> Root(parent[..], j) == Root(old(parent[..]), j)
  {
    var index: nat := start;
    while parent[index] != index
      invariant Forest(parent[..]) && index < parent.Length
      invariant forall j :: 0 <= j < parent.Length ==> Root(parent[..], j) == Root(old(parent[..]), j)
      invariant Root(parent[..], index) == Root(old(parent[..]), start)
      decreases index
    {
      ghost var before := parent[..];
      parent[index] := parent[parent[index]];
      assert parent[..] == before[index := before[before[index]]];
      forall j | 0 <= j < parent.Length
        ensures Forest(parent[..]) && Root(parent[..], j) == Root(before, j)
      {
        HalvingKeepsRoots(before, index, j);
      }
      assert parent[..][index] == parent[index];
      index := parent[index];
    }
    assert parent[..][index] == index;
    return index;
  }

  /** Merges the trees of `left` and `right`, and only those. */
  method Union(parent: array<nat>, left: nat, right: nat)
    requires Forest(parent[..]) && left < parent.Length && right < parent.Length
    modifies parent
    ensures Forest(parent[..])
    ensures forall j :: 0 <= j < parent.Length ==>
      var p := old(parent[..]);
      Root(parent[..], j) == Merged(Root(p, left), Root(p, right), Root(p, j))
  {
    var leftRoot := Find(parent, left);
    var rightRoot := Find(parent, right);
    if leftRoot != rightRoot {
      var hi: nat, lo: nat := Max(leftRoot, rightRoot), Min(leftRoot, rightRoot);
      ghost var before := parent[..];
      assert Root(before, leftRoot) == leftRoot && Root(before, rightRoot) == rightRoot;
      parent[hi] := lo;
      assert parent[..] == before[hi := lo];
      forall j | 0 <= j < parent.Length
        ensures Forest(parent[..]) && Root(parent[..], j) == if Root(before, j) == hi then lo else Root(before, j)
      {
        LinkingMovesOneTree(before, lo, hi, j);
      }
    }
  }

  function Min(a: nat, b: nat): nat { if a <= b then a else b }

  function Max(a: nat, b: nat): nat { if a <= b then b else a }

  /** The root of an index whose root was `root`, after the trees rooted at `a` and `b` merge. */
  ghost function Merged(a: nat, b: nat, root: nat): nat {
    if root == a || root == b then Min(a, b) else root
  }

  // ---------------------------------------------------------------- what grouping means

  function Mapped(targets: seq<SurfaceTarget>): (mapped: seq<SurfaceTarget>)
    ensures forall t :: t in mapped <==> t in targets && t.nodeIds != {}
  {
    if targets == [] then [] else
      (if targets[0].nodeIds == {} then [] else [targets[0]]) + Mapped(targets[1..])
  }

  function UnmappedKeys(targets: seq<SurfaceTarget>): multiset<string> {
    if targets == [] then multiset{} else
      (if targets[0].nodeIds == {} then multiset{targets[0].surfaceKey} else multiset{}) + UnmappedKeys(targets[1..])
  }

  /** Two surfaces touch when they share a node or hold the two ends of one edge. */
  ghost predicate Touching(a: SurfaceTarget, b: SurfaceTarget, edges: seq<CodeEdge>) {
    || (exists id :: id in a.nodeIds && id in b.nodeIds)
    || (exists e :: e in edges && ((e.sourceId in a.nodeIds && e.targetId in b.nodeIds)
                                   || (e.targetId in a.nodeIds && e.sourceId in b.nodeIds)))
  }

  ghost function TouchPairs(targets: seq<SurfaceTarget>, edges: seq<CodeEdge>): set<(nat, nat)> {
    set i: nat, j: nat | i < |targets| && j < |targets| && Touching(targets[i], targets[j], edges) :: (i, j)
  }

  predicate InRange(members: seq<nat>, n: nat) {
    forall k :: 0 <= k < |members| ==> members[k] < n
  }

  function NodesOf(targets: seq<SurfaceTarget>, members: seq<nat>): set<NodeId>
    requires InRange(members, |targets|)
  {
    set k, id | 0 <= k < |members| && id in targets[members[k]].nodeIds :: id
  }

  function TargetAt(targets: seq<SurfaceTarget>): nat -> SurfaceTarget {
    (i: nat) => if i < |targets| then targets[i] else SurfaceTarget("", {}, "")
  }

  function KeyAt(targets: seq<SurfaceTarget>): nat -> string {
    (i: nat) => if i < |targets| then targets[i].surfaceKey else ""
  }

  function GroupOf(targets: seq<SurfaceTarget>, members: seq<nat>): SurfaceGroup
    requires InRange(members, |targets|)
  {
    SurfaceGroup(
      members, Image(KeyAt(targets), members), NodesOf(targets, members), Image(TargetAt(targets), members))
  }

  ghost predicate Ascending(s: seq<nat>) {
    forall a, b :: 0 <= a < b < |s| ==> s[a] < s[b]
  }

  /** Each group is one component of the touching relation, described by its own members. */
  ghost predicate IsComponent(targets: seq<SurfaceTarget>, edges: seq<CodeEdge>, group: SurfaceGroup) {
    && group.members != [] && Ascending(group.members)
    && InRange(group.members, |targets|)
    && group == GroupOf(targets, group.members)
    && (forall i: nat, j: nat :: i in group.members ==>
          (j in group.members <==> j < |targets| && Reaches(TouchPairs(targets, edges), i, j)))
  }

  ghost predicate InSomeGroup(groups: seq<SurfaceGroup>, i: nat) {
    exists g :: 0 <= g < |groups| && i in groups[g].members
  }

  /** The groups are exactly the components: all of them, and none twice. */
  ghost predicate ExactGroups(targets: seq<SurfaceTarget>, edges: seq<CodeEdge>, groups: seq<SurfaceGroup>) {
    && (forall g :: 0 <= g < |groups| ==> IsComponent(targets, edges, groups[g]))
    && (forall i: nat :: i < |targets| ==> InSomeGroup(groups, i))
    && (forall g, h, i :: 0 <= g < |groups| && 0 <= h < |groups| && i in groups[g].members && i in groups[h].members
          ==> g == h)
  }

  // ---------------------------------------------------------------- the grouping loops

  /** Every index is linked to its root by a chain of touching surfaces. */
  ghost predicate Sound(p: seq<nat>, touch: set<(nat, nat)>)
    requires Forest(p)
  {
    forall i: nat :: i < |p| ==> Reaches(touch, i, Root(p, i))
  }

  /** Indices that shared a root still do. */
  ghost predicate Coarser(p: seq<nat>, q: seq<nat>)
    requires Forest(p) && Forest(q)
  {
    |p| == |q| && forall i, j :: 0 <= i < |p| && 0 <= j < |p| && Root(p, i) == Root(p, j) ==> Root(q, i) == Root(q, j)
  }

  ghost predicate ShareRoot(p: seq<nat>, s: set<nat>)
    requires Forest(p)
  {
    forall i, j :: i in s && j in s && i < |p| && j < |p| ==> Root(p, i) == Root(p, j)
  }

  lemma MergeStaysSound(p: seq<nat>, q: seq<nat>, touch: set<(nat, nat)>, left: nat, right: nat)
    requires Forest(p) && Forest(q) && |p| == |q| && left < |p| && right < |p|
    requires Sound(p, touch) && Symmetric(touch) && Reaches(touch, left, right)
    requires forall j :: 0 <= j < |p| ==> Root(q, j) == Merged(Root(p, left), Root(p, right), Root(p, j))
    ensures Sound(q, touch) && Coarser(p, q) && Root(q, left) == Root(q, right)
  {
    var a, b := Root(p, left), Root(p, right);
    ReachesBack(touch, left, a);
    ReachesTransitive(touch, a, left, right);
    ReachesTransitive(touch, a, right, b);
    ReachesBack(touch, a, b);
    forall i: nat | i < |p|
      ensures Reaches(touch, i, Root(q, i))
    {
      var r := Root(p, i);
      if r == a && Root(q, i) != r {
        ReachesTransitive(touch, i, a, b);
      } else if r == b && Root(q, i) != r {
        ReachesTransitive(touch, i, b, a);
      }
    }
  }

  /** Unions every index of `indices` with `anchor`. */
  method JoinAll(parent: array<nat>, anchor: nat, indices: set<nat>, ghost touch: set<(nat, nat)>)
    requires Forest(parent[..]) && Sound(parent[..], touch) && Symmetric(touch) && anchor < parent.Length
    requires forall k: nat :: k in indices ==> k < parent.Length && Reaches(touch, anchor, k)
    modifies parent
    ensures Forest(parent[..]) && Sound(parent[..], touch) && Coarser(old(parent[..]), parent[..])
    ensures ShareRoot(parent[..], indices)
  {
    var pending := indices;
    while pending != {}
      invariant pending <= indices
      invariant Forest(parent[..]) && Sound(parent[..], touch) && Coarser(old(parent[..]), parent[..])
      invariant forall k :: k in indices - pending ==> Root(parent[..], k) == Root(parent[..], anchor)
      decreases pending
    {
      var k: nat :| k in pending;
      ghost var before := parent[..];
      assert k in indices && Reaches(touch, anchor, k);
      Union(parent, anchor, k);
      MergeStaysSound(before, parent[..], touch, anchor, k);
      pending := pending - {k};
    }
  }

  ghost function Owners(targets: seq<SurfaceTarget>, id: NodeId): set<nat> {
    set i: nat | i < |targets| && id in targets[i].nodeIds
  }

  function TargetsAt(m: map<NodeId, set<nat>>, id: NodeId): set<nat> {
    if id in m then m[id] else {}
  }

  method AddTarget(m: map<NodeId, set<nat>>, ids: set<NodeId>, index: nat) returns (grown: map<NodeId, set<nat>>)
    ensures forall id :: TargetsAt(grown, id) == TargetsAt(m, id) + if id in ids then {index} else {}
    ensures grown.Keys == m.Keys + ids
  {
    grown := m;
    var pending := ids;
    while pending != {}
      invariant pending <= ids
      invariant grown.Keys == m.Keys + (ids - pending)
      invariant forall id :: TargetsAt(grown, id) == TargetsAt(m, id) + if id in ids - pending then {index} else {}
      decreases pending
    {
      var id :| id in pending;
      grown := grown[id := TargetsAt(grown, id) + {index}];
      pending := pending - {id};
    }
  }

  method IndexNodes(targets: seq<SurfaceTarget>) returns (nodeToTargets: map<NodeId, set<nat>>)
    ensures forall id :: TargetsAt(nodeToTargets, id) == Owners(targets, id)
    ensures forall id :: id in nodeToTargets ==> nodeToTargets[id] != {}
  {
    nodeToTargets := map[];
    for index := 0 to |targets|
      invariant forall id :: TargetsAt(nodeToTargets, id) == Owners(targets[..index], id)
      invariant forall id :: id in nodeToTargets ==> nodeToTargets[id] != {}
    {
      var before := nodeToTargets;
      nodeToTargets := AddTarget(before, targets[index].nodeIds, index);
      forall id
        ensures TargetsAt(nodeToTargets, id) == Owners(targets[..index + 1], id)
      {
      }
      forall id | id in nodeToTargets
        ensures nodeToTargets[id] != {}
      {
        assert TargetsAt(nodeToTargets, id) == TargetsAt(before, id) + if id in targets[index].nodeIds then {index} else {};
      }
    }
    assert targets[..|targets|] == targets;
  }

  method Least(s: set<nat>) returns (least: nat)
    requires s != {}
    ensures least in s && forall k: nat :: k in s ==> least <= k
  {
    least :| least in s;
    var pending := s - {least};
    while pending != {}
      invariant pending <= s && least in s
      invariant forall k: nat :: k in s ==> k in pending || least <= k
      decreases pending
    {
      var k: nat :| k in pending;
      least := Min(least, k);
      pending := pending - {k};
    }
  }

  lemma OwnersTouch(targets: seq<SurfaceTarget>, edges: seq<CodeEdge>, id: NodeId, i: nat, j: nat)
    requires i in Owners(targets, id) && j in Owners(targets, id)
    ensures Reaches(TouchPairs(targets, edges), i, j)
  {
    assert Touching(targets[i], targets[j], edges);
    ReachesStep(TouchPairs(targets, edges), i, j);
  }

  lemma EdgeOwnersTouch(targets: seq<SurfaceTarget>, edges: seq<CodeEdge>, e: CodeEdge, i: nat, j: nat)
    requires e in edges
    requires i in Owners(targets, e.sourceId) + Owners(targets, e.targetId)
    requires j in Owners(targets, e.sourceId) + Owners(targets, e.targetId)
    ensures Reaches(TouchPairs(targets, edges), i, j)
  {
    assert Touching(targets[i], targets[j], edges);
    ReachesStep(TouchPairs(targets, edges), i, j);
  }

  method JoinSharedNodes(parent: array<nat>, targets: seq<SurfaceTarget>, ghost edges: seq<CodeEdge>,
                         nodeToTargets: map<NodeId, set<nat>>)
    requires Forest(parent[..]) && parent.Length == |targets| && Sound(parent[..], TouchPairs(targets, edges))
    requires forall id :: TargetsAt(nodeToTargets, id) == Owners(targets, id)
    requires forall id :: id in nodeToTargets ==> nodeToTargets[id] != {}
    modifies parent
    ensures Forest(parent[..]) && Sound(parent[..], TouchPairs(targets, edges))
    ensures forall id :: ShareRoot(parent[..], Owners(targets, id))
  {
    ghost var touch := TouchPairs(targets, edges);
    var pending := nodeToTargets.Keys;
    while pending != {}
      invariant pending <= nodeToTargets.Keys
      invariant Forest(parent[..]) && Sound(parent[..], touch)
      invariant forall id :: id !in pending ==> ShareRoot(parent[..], Owners(targets, id))
      decreases pending
    {
      var id :| id in pending;
      var indices := nodeToTargets[id];
      assert indices == TargetsAt(nodeToTargets, id) == Owners(targets, id);
      var anchor := Least(indices);
      forall k: nat | k in indices
        ensures k < parent.Length && Reaches(touch, anchor, k)
      {
        OwnersTouch(targets, edges, id, anchor, k);
      }
      JoinAll(parent, anchor, indices, touch);
      pending := pending - {id};
    }
  }

  method JoinEdgeEnds(parent: array<nat>, targets: seq<SurfaceTarget>, edges: seq<CodeEdge>,
                      nodeToTargets: map<NodeId, set<nat>>)
    requires Forest(parent[..]) && parent.Length == |targets| && Sound(parent[..], TouchPairs(targets, edges))
    requires forall id :: TargetsAt(nodeToTargets, id) == Owners(targets, id)
    modifies parent
    ensures Forest(parent[..]) && Sound(parent[..], TouchPairs(targets, edges)) && Coarser(old(parent[..]), parent[..])
    ensures forall e :: e in edges ==>
      ShareRoot(parent[..], Owners(targets, e.sourceId) + Owners(targets, e.targetId))
  {
    ghost var touch := TouchPairs(targets, edges);
    for n := 0 to |edges|
      invariant Forest(parent[..]) && Sound(parent[..], touch) && Coarser(old(parent[..]), parent[..])
      invariant forall m :: 0 <= m < n ==>
        ShareRoot(parent[..], Owners(targets, edges[m].sourceId) + Owners(targets, edges[m].targetId))
    {
      var e := edges[n];
      var connected := TargetsAt(nodeToTargets, e.sourceId) + TargetsAt(nodeToTargets, e.targetId);
      if connected != {} {
        var anchor := Least(connected);
        forall k: nat | k in connected
          ensures k < parent.Length && Reaches(touch, anchor, k)
        {
          EdgeOwnersTouch(targets, edges, e, anchor, k);
        }
        JoinAll(parent, anchor, connected, touch);
      }
    }
  }

  /** After both loops, sharing a root is exactly being linked by a chain of touching surfaces. */
  ghost predicate RootsAreComponents(p: seq<nat>, targets: seq<SurfaceTarget>, edges: seq<CodeEdge>)
    requires Forest(p) && |p| == |targets|
  {
    forall i: nat, j: nat :: i < |p| && j < |p| ==>
      (Root(p, i) == Root(p, j) <==> Reaches(TouchPairs(targets, edges), i, j))
  }

  lemma JoinedRootsAreComponents(p: seq<nat>, targets: seq<SurfaceTarget>, edges: seq<CodeEdge>)
    requires Forest(p) && |p| == |targets| && Sound(p, TouchPairs(targets, edges))
    requires forall id :: ShareRoot(p, Owners(targets, id))
    requires forall e :: e in edges ==> ShareRoot(p, Owners(targets, e.sourceId) + Owners(targets, e.targetId))
    ensures RootsAreComponents(p, targets, edges)
  {
    var touch := TouchPairs(targets, edges);
    forall i: nat, j: nat | i < |p| && j < |p|
      ensures Root(p, i) == Root(p, j) <==> Reaches(touch, i, j)
    {
      if Root(p, i) == Root(p, j) {
        ReachesBack(touch, j, Root(p, j));
        ReachesTransitive(touch, i, Root(p, i), j);
      }
      if Reaches(touch, i, j) {
        var same := set k: nat | k < |p| && Root(p, k) == Root(p, i);
        forall a: nat, b: nat | (a, b) in touch && a in same
          ensures b in same
        {
          TouchingShareRoot(p, targets, edges, a, b);
        }
        ReachesStaysInside(touch, same, i, j);
      }
    }
  }

  lemma TouchingShareRoot(p: seq<nat>, targets: seq<SurfaceTarget>, edges: seq<CodeEdge>, a: nat, b: nat)
    requires Forest(p) && |p| == |targets| && (a, b) in TouchPairs(targets, edges)
    requires forall id :: ShareRoot(p, Owners(targets, id))
    requires forall e :: e in edges ==> ShareRoot(p, Owners(targets, e.sourceId) + Owners(targets, e.targetId))
    ensures Root(p, a) == Root(p, b)
  {
    if id :| id in targets[a].nodeIds && id in targets[b].nodeIds {
      assert a in Owners(targets, id) && b in Owners(targets, id);
    } else {
      var e :| e in edges && ((e.sourceId in targets[a].nodeIds && e.targetId in targets[b].nodeIds)
                              || (e.targetId in targets[a].nodeIds && e.sourceId in targets[b].nodeIds));
      var ends := Owners(targets, e.sourceId) + Owners(targets, e.targetId);
      assert a in ends && b in ends;
    }
  }

  ghost function Roots(p: seq<nat>): (roots: seq<nat>)
    requires Forest(p)
    ensures |roots| == |p| && forall i :: 0 <= i < |p| ==> roots[i] == Root(p, i)
  {
    seq(|p|, i requires 0 <= i < |p| => Root(p, i))
  }

  /** `components` lists each root's members in order; `order` holds the roots, each once. */
  ghost predicate ListsComponents(roots: seq<nat>, upTo: nat, components: map<nat, seq<nat>>, order: seq<nat>)
    requires upTo <= |roots|
  {
    OrdersKeys(components, order) && ListsAllMembers(roots, upTo, components)
  }

  ghost predicate OrdersKeys(components: map<nat, seq<nat>>, order: seq<nat>) {
    && (forall r :: r in order <==> r in components)
    && (forall a, b :: 0 <= a < b < |order| ==> order[a] != order[b])
  }

  ghost predicate ListsAllMembers(roots: seq<nat>, upTo: nat, components: map<nat, seq<nat>>)
    requires upTo <= |roots|
  {
    && (forall r :: r in components ==> ListsMembers(roots, upTo, r, components[r]))
    && (forall j: nat :: j < upTo ==> roots[j] in components)
  }

  ghost predicate ListsMembers(roots: seq<nat>, upTo: nat, r: nat, members: seq<nat>)
    requires upTo <= |roots|
  {
    members != [] && Ascending(members) && forall j: nat :: j in members <==> j < upTo && roots[j] == r
  }

  lemma MembersExtend(roots: seq<nat>, upTo: nat, r: nat, members: seq<nat>)
    requires upTo < |roots|
    requires members == [] || ListsMembers(roots, upTo, r, members)
    requires members == [] ==> forall j: nat :: j < upTo ==> roots[j] != r
    ensures roots[upTo] == r ==> ListsMembers(roots, upTo + 1, r, members + [upTo])
    ensures roots[upTo] != r && members != [] ==> ListsMembers(roots, upTo + 1, r, members)
  {
    if roots[upTo] == r {
      forall a, b | 0 <= a < b < |members + [upTo]|
        ensures (members + [upTo])[a] < (members + [upTo])[b]
      {
        assert members[a] in members;
      }
    }
  }

  function WithMember(components: map<nat, seq<nat>>, r: nat, index: nat): map<nat, seq<nat>> {
    components[r := (if r in components then components[r] else []) + [index]]
  }

  function WithRoot(components: map<nat, seq<nat>>, order: seq<nat>, r: nat): seq<nat> {
    if r in components then order else order + [r]
  }

  lemma ComponentsExtend(roots: seq<nat>, index: nat, components: map<nat, seq<nat>>, order: seq<nat>)
    requires index < |roots| && ListsComponents(roots, index, components, order)
    ensures var r := roots[index];
      ListsComponents(roots, index + 1, WithMember(components, r, index), WithRoot(components, order, r))
  {
    var r := roots[index];
    var grown := WithMember(components, r, index);
    forall q | q in grown
      ensures ListsMembers(roots, index + 1, q, grown[q])
    {
      MembersExtend(roots, index, q, if q in components then components[q] else []);
    }
  }

  method CollectComponents(parent: array<nat>) returns (components: map<nat, seq<nat>>, order: seq<nat>)
    requires Forest(parent[..])
    modifies parent
    ensures ListsComponents(Roots(old(parent[..])), parent.Length, components, order)
  {
    components, order := map[], [];
    ghost var roots := Roots(parent[..]);
    for index := 0 to parent.Length
      invariant Forest(parent[..]) && Roots(parent[..]) == roots
      invariant ListsComponents(roots, index, components, order)
    {
      ComponentsExtend(roots, index, components, order);
      var r := Find(parent, index);
      components, order := WithMember(components, r, index), WithRoot(components, order, r);
    }
  }

  /** Runs both union loops over a fresh parent array. */
  method FormForest(targets: seq<SurfaceTarget>, edges: seq<CodeEdge>) returns (parent: array<nat>)
    ensures fresh(parent) && Forest(parent[..]) && parent.Length == |targets|
    ensures RootsAreComponents(parent[..], targets, edges)
  {
    var nodeToTargets := IndexNodes(targets);
    parent := new nat[|targets|](i => i);
    ghost var touch := TouchPairs(targets, edges);
    forall i: nat | i < parent.Length
      ensures Reaches(touch, i, Root(parent[..], i))
    {
      ReachesSelf(touch, i);
    }
    JoinSharedNodes(parent, targets, edges, nodeToTargets);
    ghost var shared := parent[..];
    JoinEdgeEnds(parent, targets, edges, nodeToTargets);
    forall id
      ensures ShareRoot(parent[..], Owners(targets, id))
    {
      assert ShareRoot(shared, Owners(targets, id));
    }
    JoinedRootsAreComponents(parent[..], targets, edges);
  }

  method BuildGroups(targets: seq<SurfaceTarget>, edges: seq<CodeEdge>) returns (groups: seq<SurfaceGroup>)
    ensures ExactGroups(targets, edges, groups)
  {
    var parent := FormForest(targets, edges);
    ghost var p := parent[..];
    var components, order := CollectComponents(parent);
    groups := [];
    for k := 0 to |order|
      invariant |groups| == k
      invariant forall g :: 0 <= g < k ==> DescribesRoot(targets, components, order[g], groups[g])
    {
      assert order[k] in order;
      MembersInRange(Roots(p), components[order[k]], order[k]);
      groups := groups + [GroupOf(targets, components[order[k]])];
    }
    ComponentsAreExact(p, targets, edges, components, order, groups);
  }

  lemma MembersInRange(roots: seq<nat>, members: seq<nat>, r: nat)
    requires ListsMembers(roots, |roots|, r, members)
    ensures InRange(members, |roots|)
  {
    assert forall m :: 0 <= m < |members| ==> members[m] in members;
  }

  ghost predicate DescribesRoot(targets: seq<SurfaceTarget>, components: map<nat, seq<nat>>, root: nat, group: SurfaceGroup) {
    root in components && InRange(components[root], |targets|) && group == GroupOf(targets, components[root])
  }

  lemma ComponentsAreExact(p: seq<nat>, targets: seq<SurfaceTarget>, edges: seq<CodeEdge>,
                           components: map<nat, seq<nat>>, order: seq<nat>, groups: seq<SurfaceGroup>)
    requires Forest(p) && |p| == |targets| && RootsAreComponents(p, targets, edges)
    requires ListsComponents(Roots(p), |p|, components, order) && |groups| == |order|
    requires forall g :: 0 <= g < |groups| ==> DescribesRoot(targets, components, order[g], groups[g])
    ensures ExactGroups(targets, edges, groups)
  {
    forall g | 0 <= g < |groups|
      ensures IsComponent(targets, edges, groups[g])
      ensures ListsMembers(Roots(p), |p|, order[g], groups[g].members)
    {
      assert DescribesRoot(targets, components, order[g], groups[g]);
      assert ListsMembers(Roots(p), |p|, order[g], groups[g].members);
    }
    forall i: nat | i < |targets|
      ensures InSomeGroup(groups, i)
    {
      assert Root(p, i) in order;
      var g :| 0 <= g < |order| && order[g] == Root(p, i);
      assert i in groups[g].members;
    }
  }

  method GroupConnectedTargets(inventory: TargetInventory, snapshot: CodeGraphSnapshot)
    returns (r: Result<Grouping, GroupingError>)
    ensures r.Failure? <==> inventory.snapshotId != snapshot.Id()
    ensures r.Success? ==>
      && ExactGroups(Mapped(inventory.targets), snapshot.edges, r.value.groups)
      && r.value.unmapped == UnmappedKeys(inventory.targets)
  {
    if inventory.snapshotId != snapshot.Id() {
      return Failure(ForeignInventory);
    }
    var groups := BuildGroups(Mapped(inventory.targets), snapshot.edges);
    return Success(Grouping(groups, UnmappedKeys(inventory.targets)));
  }

  // ---------------------------------------------------------------- consequences

  /** Two mapped surfaces share a group exactly when a chain of touching surfaces links them. */
  lemma SharingAGroupIsBeingLinked(targets: seq<SurfaceTarget>, edges: seq<CodeEdge>, groups: seq<SurfaceGroup>,
                                   i: nat, j: nat)
    requires ExactGroups(targets, edges, groups) && i < |targets| && j < |targets|
    ensures (exists g :: 0 <= g < |groups| && i in groups[g].members && j in groups[g].members)
            <==> Reaches(TouchPairs(targets, edges), i, j)
  {
    assert InSomeGroup(groups, i);
    var g :| 0 <= g < |groups| && i in groups[g].members;
    assert IsComponent(targets, edges, groups[g]);
  }

  /** No node belongs to two groups. */
  lemma NoNodeCrossesGroups(targets: seq<SurfaceTarget>, edges: seq<CodeEdge>, groups: seq<SurfaceGroup>,
                            g: nat, h: nat, id: NodeId)
    requires ExactGroups(targets, edges, groups) && g < |groups| && h < |groups|
    requires id in groups[g].nodeIds && id in groups[h].nodeIds
    ensures g == h
  {
    NoTouchCrossesGroups(targets, edges, groups, g, h, id, id);
  }

  /** No edge has its ends in two groups. */
  lemma NoEdgeCrossesGroups(targets: seq<SurfaceTarget>, edges: seq<CodeEdge>, groups: seq<SurfaceGroup>,
                            g: nat, h: nat, e: CodeEdge)
    requires ExactGroups(targets, edges, groups) && g < |groups| && h < |groups| && e in edges
    requires e.sourceId in groups[g].nodeIds && e.targetId in groups[h].nodeIds
    ensures g == h
  {
    NoTouchCrossesGroups(targets, edges, groups, g, h, e.sourceId, e.targetId);
  }

  lemma NoTouchCrossesGroups(targets: seq<SurfaceTarget>, edges: seq<CodeEdge>, groups: seq<SurfaceGroup>,
                             g: nat, h: nat, a: NodeId, b: NodeId)
    requires ExactGroups(targets, edges, groups) && g < |groups| && h < |groups|
    requires a in groups[g].nodeIds && b in groups[h].nodeIds
    requires a == b || exists e :: e in edges && e.sourceId == a && e.targetId == b
    ensures g == h
  {
    assert IsComponent(targets, edges, groups[g]) && IsComponent(targets, edges, groups[h]);
    var k :| 0 <= k < |groups[g].members| && a in targets[groups[g].members[k]].nodeIds;
    var m :| 0 <= m < |groups[h].members| && b in targets[groups[h].members[m]].nodeIds;
    var i, j := groups[g].members[k], groups[h].members[m];
    assert Touching(targets[i], targets[j], edges);
    ReachesStep(TouchPairs(targets, edges), i, j);
    assert j in groups[g].members;
  }

  ghost function AllKeys(groups: seq<SurfaceGroup>): multiset<string> {
    if groups == [] then multiset{} else groups[0].surfaceKeys + AllKeys(groups[1..])
  }

  ghost function AllMembers(groups: seq<SurfaceGroup>): seq<nat> {
    if groups == [] then [] else groups[0].members + AllMembers(groups[1..])
  }

  function SurfaceKey(): SurfaceTarget -> string {
    (t: SurfaceTarget) => t.surfaceKey
  }

  /** The groups and the unmapped list together hold every inventoried surface exactly once. */
  lemma GroupsPartitionTheInventory(inventory: seq<SurfaceTarget>, edges: seq<CodeEdge>, groups: seq<SurfaceGroup>)
    requires ExactGroups(Mapped(inventory), edges, groups)
    ensures AllKeys(groups) + UnmappedKeys(inventory) == Image(SurfaceKey(), inventory)
  {
    var targets := Mapped(inventory);
    var range := Range(|targets|);
    var all := AllMembers(groups);
    AllKeysAreImages(targets, edges, groups);
    AllMembersHold(targets, edges, groups);
    SameElementsPermute(all, range);
    ImageIsOrderFree(KeyAt(targets), all, range);
    RangeImage(targets, |targets|);
    assert targets[..|targets|] == targets;
    KeysSplit(inventory);
  }

  lemma {:induction false} AllKeysAreImages(targets: seq<SurfaceTarget>, edges: seq<CodeEdge>, groups: seq<SurfaceGroup>)
    requires forall g :: 0 <= g < |groups| ==> IsComponent(targets, edges, groups[g])
    ensures AllKeys(groups) == Image(KeyAt(targets), AllMembers(groups))
  {
    if groups != [] {
      assert IsComponent(targets, edges, groups[0]);
      AllKeysAreImages(targets, edges, groups[1..]);
      ImageOfConcat(KeyAt(targets), groups[0].members, AllMembers(groups[1..]));
    }
  }

  ghost predicate Disjoint(groups: seq<SurfaceGroup>) {
    && (forall g :: 0 <= g < |groups| ==> Ascending(groups[g].members))
    && (forall g, h, i :: 0 <= g < |groups| && 0 <= h < |groups| && i in groups[g].members && i in groups[h].members
          ==> g == h)
  }

  lemma AllMembersHold(targets: seq<SurfaceTarget>, edges: seq<CodeEdge>, groups: seq<SurfaceGroup>)
    requires ExactGroups(targets, edges, groups)
    ensures NoDuplicates(AllMembers(groups))
    ensures forall i: nat :: i in AllMembers(groups) <==> i < |targets|
  {
    forall g | 0 <= g < |groups|
      ensures Ascending(groups[g].members) && InRange(groups[g].members, |targets|)
    {
      assert IsComponent(targets, edges, groups[g]);
    }
    MembersConcatenate(groups);
    forall i: nat
      ensures i in AllMembers(groups) <==> i < |targets|
    {
      if i < |targets| {
        assert InSomeGroup(groups, i);
      }
    }
  }

  lemma {:induction false} MembersConcatenate(groups: seq<SurfaceGroup>)
    requires Disjoint(groups)
    ensures NoDuplicates(AllMembers(groups))
    ensures forall i: nat :: i in AllMembers(groups) <==> InSomeGroup(groups, i)
  {
    if groups != [] {
      var rest := groups[1..];
      forall g, h, i | 0 <= g < |rest| && 0 <= h < |rest| && i in rest[g].members && i in rest[h].members
        ensures g == h
      {
        assert i in groups[g + 1].members && i in groups[h + 1].members;
      }
      MembersConcatenate(rest);
      forall i: nat
        ensures InSomeGroup(groups, i) <==> i in groups[0].members || InSomeGroup(rest, i)
        ensures !(i in groups[0].members && InSomeGroup(rest, i))
      {
        if g :| 0 <= g < |groups| && i in groups[g].members {
          if g > 0 { assert i in rest[g - 1].members; }
        }
        if g :| 0 <= g < |rest| && i in rest[g].members {
          assert i in groups[g + 1].members;
        }
      }
      NoDuplicatesInConcat(groups[0].members, AllMembers(rest));
    }
  }

  lemma {:induction false} RangeImage(targets: seq<SurfaceTarget>, n: nat)
    requires n <= |targets|
    ensures Image(KeyAt(targets), Range(n)) == Image(SurfaceKey(), targets[..n])
  {
    if n > 0 {
      var last: nat := n - 1;
      RangeImage(targets, last);
      ImageOfAppend<nat, string>(KeyAt(targets), Range(last), last);
      assert targets[..n] == targets[..last] + [targets[last]];
      ImageOfAppend(SurfaceKey(), targets[..last], targets[last]);
    }
  }

  lemma {:induction false} KeysSplit(inventory: seq<SurfaceTarget>)
    ensures Image(SurfaceKey(), Mapped(inventory)) + UnmappedKeys(inventory) == Image(SurfaceKey(), inventory)
  {
    if inventory != [] {
      var head, rest := inventory[0], inventory[1..];
      KeysSplit(rest);
      assert inventory == [head] + rest;
      ImageOfCons(SurfaceKey(), head, rest);
      if head.nodeIds != {} {
        ImageOfCons(SurfaceKey(), head, Mapped(rest));
      } else {
        assert Mapped(inventory) == Mapped(rest);
      }
    }
  }
}
