/** Global coverage: batch-local answers are reduced per workset, then merged per canonical obligation. */
module CoverageReconciliation {
  import opened GraphSnapshot
  import opened Sequences

  datatype Status = NoIssue | NotApplicable | CandidateFound | NeedsContext | Unresolved | UnknownStatus(text: string)

  predicate Resolved(s: Status) {
    s.NoIssue? || s.NotApplicable? || s.CandidateFound?
  }

  predicate Open(s: Status) {
    s.Unresolved? || s.NeedsContext?
  }

  /** One version of the evidence of one security surface. */
  datatype Scope = Scope(worksetId: string, evidenceHash: string)

  /** `BatchesOf` names the bookkeeping obligation that all batches of a workset exist. */
  datatype CanonicalId = Digest(text: string) | BatchesOf(scope: Scope)

  datatype Obligation = Obligation(id: CanonicalId, required: bool)

  datatype Observation = Observation(regionId: string, scope: Option<Scope>, obligation: Obligation, status: Status)

  datatype Placement = Placement(scope: Scope, index: int, count: int)

  datatype PlannedBatch = PlannedBatch(regionId: string, placement: Option<Placement>, obligations: seq<Obligation>)

  /** One obligation of one workset. */
  type Key = (Scope, CanonicalId)

  predicate Multi(b: PlannedBatch) {
    b.placement.Some? && b.placement.value.count > 1
  }

  // ---------------------------------------------------------------- what was planned

  /** The workset a region reviews; a repeated region keeps its last workset. */
  function RegionScope(batches: seq<PlannedBatch>, regionId: string): Option<Scope> {
    if batches == [] then None else
      var b := batches[|batches| - 1];
      if Multi(b) && b.regionId == regionId then Some(b.placement.value.scope)
      else RegionScope(batches[..|batches| - 1], regionId)
  }

  ghost predicate Plans(b: PlannedBatch, key: Key) {
    Multi(b) && b.placement.value.scope == key.0 && exists o :: o in b.obligations && o.id == key.1
  }

  /** The regions that were asked about one obligation of one workset. */
  ghost function PlannedRegions(batches: seq<PlannedBatch>, key: Key): set<string> {
    set b | b in batches && Plans(b, key) :: b.regionId
  }

  function FirstWithId(obligations: seq<Obligation>, id: CanonicalId): Option<Obligation> {
    if obligations == [] then None
    else if obligations[0].id == id then Some(obligations[0]) else FirstWithId(obligations[1..], id)
  }

  /** The obligation as its first batch states it. */
  function FirstObligation(batches: seq<PlannedBatch>, key: Key): Option<Obligation> {
    if batches == [] then None else
      var front, b := FirstObligation(batches[..|batches| - 1], key), batches[|batches| - 1];
      if front.Some? then front
      else if Multi(b) && b.placement.value.scope == key.0 then FirstWithId(b.obligations, key.1) else None
  }

  ghost function BatchIndices(batches: seq<PlannedBatch>, scope: Scope): set<int> {
    set b | b in batches && Multi(b) && b.placement.value.scope == scope :: b.placement.value.index
  }

  function BatchCount(batches: seq<PlannedBatch>, scope: Scope): int {
    if batches == [] then 0 else
      var b := batches[|batches| - 1];
      if Multi(b) && b.placement.value.scope == scope then b.placement.value.count
      else BatchCount(batches[..|batches| - 1], scope)
  }

  ghost predicate HasWorkset(batches: seq<PlannedBatch>, scope: Scope) {
    exists b :: b in batches && Multi(b) && b.placement.value.scope == scope
  }

  /** The integers from zero up to `n`. */
  function IndexRange(n: int): set<int> {
    if n <= 0 then {} else set i | i in Range(n)
  }

  ghost function AbsentIndices(batches: seq<PlannedBatch>, scope: Scope): set<int> {
    IndexRange(BatchCount(batches, scope)) - BatchIndices(batches, scope)
  }

  // ---------------------------------------------------------------- what was answered

  predicate Answers(batches: seq<PlannedBatch>, key: Key, regionId: string, o: Observation) {
    o.regionId == regionId && RegionScope(batches, regionId) == Some(key.0) && o.obligation.id == key.1
  }

  function StatusIfAnswer(batches: seq<PlannedBatch>, key: Key, regionId: string): Observation -> Option<Status> {
    (o: Observation) => if Answers(batches, key, regionId, o) then Some(o.status) else None
  }

  /** The answers one region gave to one obligation, in order. */
  function Got(observations: seq<Observation>, batches: seq<PlannedBatch>, key: Key, regionId: string): seq<Status> {
    if observations == [] then [] else
      var front, o := Got(observations[..|observations| - 1], batches, key, regionId), observations[|observations| - 1];
      if Answers(batches, key, regionId, o) then front + [o.status] else front
  }

  predicate ExactlyOneResolved(answers: seq<Status>) {
    |answers| == 1 && Resolved(answers[0])
  }

  /** Every region that was asked gave exactly one resolved answer, and no other region of the workset answered. */
  ghost predicate Complete(observations: seq<Observation>, batches: seq<PlannedBatch>, key: Key) {
    forall r :: if r in PlannedRegions(batches, key)
                then ExactlyOneResolved(Got(observations, batches, key, r))
                else Got(observations, batches, key, r) == []
  }

  ghost predicate AnyAnswer(observations: seq<Observation>, batches: seq<PlannedBatch>, key: Key, s: Status) {
    exists r :: s in Got(observations, batches, key, r)
  }

  ghost function ReducedStatus(observations: seq<Observation>, batches: seq<PlannedBatch>, key: Key): Status {
    if !Complete(observations, batches, key) then Unresolved
    else if AnyAnswer(observations, batches, key, CandidateFound) then CandidateFound
    else if AnyAnswer(observations, batches, key, NoIssue) then NoIssue
    else NotApplicable
  }

  /** The single observation that stands for one obligation of one workset. */
  ghost function Reduced(observations: seq<Observation>, batches: seq<PlannedBatch>, key: Key): Observation
    requires FirstObligation(batches, key).Some?
  {
    Observation(key.0.worksetId, Some(key.0), FirstObligation(batches, key).value, ReducedStatus(observations, batches, key))
  }

  function AbsenceOf(scope: Scope): Observation {
    Observation(scope.worksetId, Some(scope), Obligation(BatchesOf(scope), true), Unresolved)
  }

  function PassThrough(observations: seq<Observation>, batches: seq<PlannedBatch>): seq<Observation> {
    if observations == [] then [] else
      var front, o := PassThrough(observations[..|observations| - 1], batches), observations[|observations| - 1];
      if RegionScope(batches, o.regionId).None? then front + [o] else front
  }

  /** What the reduction hands on. */
  ghost predicate IsReduction(observations: seq<Observation>, batches: seq<PlannedBatch>, out: seq<Observation>) {
    forall o :: o in out <==>
      || o in PassThrough(observations, batches)
      || (exists key :: FirstObligation(batches, key).Some? && o == Reduced(observations, batches, key))
      || (exists scope :: HasWorkset(batches, scope) && AbsentIndices(batches, scope) != {} && o == AbsenceOf(scope))
  }

  // ---------------------------------------------------------------- canonical groups

  type GroupId = (CanonicalId, Option<Scope>)

  function GroupOf(o: Observation): GroupId {
    (o.obligation.id, o.scope)
  }

  ghost function Groups(observations: seq<Observation>): set<GroupId> {
    set o | o in observations :: GroupOf(o)
  }

  ghost predicate RequiredGroup(observations: seq<Observation>, g: GroupId) {
    exists o :: o in observations && GroupOf(o) == g && o.obligation.required
  }

  ghost predicate ResolvedGroup(observations: seq<Observation>, g: GroupId) {
    exists o :: o in observations && GroupOf(o) == g && Resolved(o.status)
  }

  ghost predicate OpenGroup(observations: seq<Observation>, g: GroupId) {
    exists o :: o in observations && GroupOf(o) == g && Open(o.status)
  }

  ghost function UnresolvedRequired(observations: seq<Observation>): set<GroupId> {
    set g | g in Groups(observations) && RequiredGroup(observations, g) && !ResolvedGroup(observations, g)
      && OpenGroup(observations, g)
  }

  ghost function UnresolvedSupporting(observations: seq<Observation>): set<GroupId> {
    set g | g in Groups(observations) && !RequiredGroup(observations, g) && !ResolvedGroup(observations, g)
      && OpenGroup(observations, g)
  }

  datatype Counts = Counts(
    total: nat, required: nat, requiredUnresolved: nat, supportingUnresolved: nat, reconciledBySibling: nat)

  ghost function CountsOf(observations: seq<Observation>): Counts {
    Counts(
      |Groups(observations)|,
      |set g | g in Groups(observations) && RequiredGroup(observations, g)|,
      |UnresolvedRequired(observations)|,
      |UnresolvedSupporting(observations)|,
      |set g | g in Groups(observations) && ResolvedGroup(observations, g) && OpenGroup(observations, g)|)
  }

  // ---------------------------------------------------------------- no false completion

  lemma {:induction false} FirstObligationIsPlanned(batches: seq<PlannedBatch>, key: Key)
    ensures FirstObligation(batches, key).Some? <==> exists b :: b in batches && Plans(b, key)
    ensures FirstObligation(batches, key).Some? ==> FirstObligation(batches, key).value.id == key.1
    ensures FirstObligation(batches, key).Some? ==> HasWorkset(batches, key.0)
  {
    if batches != [] {
      var n := |batches| - 1;
      FirstObligationIsPlanned(batches[..n], key);
      FirstWithIdFinds(batches[n].obligations, key.1);
      assert forall b :: b in batches <==> b in batches[..n] || b == batches[n] by {
        assert batches == batches[..n] + [batches[n]];
      }
      assert (exists b :: b in batches && Plans(b, key)) <==>
             (exists b :: b in batches[..n] && Plans(b, key)) || Plans(batches[n], key);
    }
  }

  lemma {:induction false} FirstWithIdFinds(obligations: seq<Obligation>, id: CanonicalId)
    ensures FirstWithId(obligations, id).Some? <==> exists o :: o in obligations && o.id == id
    ensures FirstWithId(obligations, id).Some? ==> FirstWithId(obligations, id).value.id == id
  {
    if obligations != [] {
      FirstWithIdFinds(obligations[1..], id);
      assert obligations == [obligations[0]] + obligations[1..];
    }
  }

  /** Ordinary obligations are identified by digests, and other regions do not borrow a workset's scope. */
  ghost predicate ScopesAreApart(observations: seq<Observation>, batches: seq<PlannedBatch>) {
    && (forall b, o :: b in batches && o in b.obligations ==> o.id.Digest?)
    && (forall o :: o in observations && o.scope.Some? ==> !HasWorkset(batches, o.scope.value))
  }

  lemma {:induction false} PassThroughIsOutside(observations: seq<Observation>, batches: seq<PlannedBatch>, o: Observation)
    ensures o in PassThrough(observations, batches) <==> o in observations && RegionScope(batches, o.regionId).None?
  {
    if observations != [] {
      PassThroughIsOutside(observations[..|observations| - 1], batches, o);
      assert observations == observations[..|observations| - 1] + [observations[|observations| - 1]];
    }
  }

  /** In the reduction, a workset's group holds only that workset's own observation. */
  lemma WorksetGroupsAreTheirOwn(observations: seq<Observation>, batches: seq<PlannedBatch>, out: seq<Observation>,
                                 o: Observation)
    requires IsReduction(observations, batches, out) && ScopesAreApart(observations, batches) && o in out
    ensures o.scope.Some? && HasWorkset(batches, o.scope.value) && o.obligation.id.Digest? ==>
      var key := (o.scope.value, o.obligation.id);
      FirstObligation(batches, key).Some? && o == Reduced(observations, batches, key)
    ensures o.scope.Some? && HasWorkset(batches, o.scope.value) && o.obligation.id.BatchesOf? ==>
      o == AbsenceOf(o.scope.value) && AbsentIndices(batches, o.scope.value) != {}
    ensures !(o.scope.Some? && HasWorkset(batches, o.scope.value)) ==> o in PassThrough(observations, batches)
  {
    PassThroughIsOutside(observations, batches, o);
    if o !in PassThrough(observations, batches) {
      if key: Key :| FirstObligation(batches, key).Some? && o == Reduced(observations, batches, key) {
        FirstObligationIsPlanned(batches, key);
      }
    }
  }

  /**
    The unresolved required groups are exactly those of the passed-through observations, the incomplete required
    obligations of each workset, and the worksets with absent batches. Nothing outside a workset can mask its work.
   */
  lemma UnresolvedGroupsAreExact(observations: seq<Observation>, batches: seq<PlannedBatch>, out: seq<Observation>, g: GroupId)
    requires IsReduction(observations, batches, out) && ScopesAreApart(observations, batches)
    ensures g in UnresolvedRequired(out) <==>
      if g.1.None? || !HasWorkset(batches, g.1.value) then g in UnresolvedRequired(PassThrough(observations, batches))
      else if g.0.Digest? then
        var key := (g.1.value, g.0);
        FirstObligation(batches, key).Some? && FirstObligation(batches, key).value.required
        && !Complete(observations, batches, key)
      else g.0 == BatchesOf(g.1.value) && AbsentIndices(batches, g.1.value) != {}
  {
    forall o | o in out
      ensures OwnGroup(observations, batches, o)
    {
      WorksetGroupsAreTheirOwn(observations, batches, out, o);
    }
    if g.1.None? || !HasWorkset(batches, g.1.value) {
      OutsideGroupsPass(observations, batches, out, g);
    } else if g.0.Digest? {
      WorksetGroupIsReduced(observations, batches, out, (g.1.value, g.0));
    } else {
      AbsenceGroupIsOpen(observations, batches, out, g);
    }
  }

  ghost predicate OwnGroup(observations: seq<Observation>, batches: seq<PlannedBatch>, o: Observation) {
    if o.scope.None? || !HasWorkset(batches, o.scope.value) then o in PassThrough(observations, batches)
    else if o.obligation.id.Digest? then
      var key := (o.scope.value, o.obligation.id);
      FirstObligation(batches, key).Some? && o == Reduced(observations, batches, key)
    else o == AbsenceOf(o.scope.value) && AbsentIndices(batches, o.scope.value) != {}
  }

  lemma OutsideGroupsPass(observations: seq<Observation>, batches: seq<PlannedBatch>, out: seq<Observation>, g: GroupId)
    requires IsReduction(observations, batches, out) && forall o :: o in out ==> OwnGroup(observations, batches, o)
    requires g.1.None? || !HasWorkset(batches, g.1.value)
    ensures g in UnresolvedRequired(out) <==> g in UnresolvedRequired(PassThrough(observations, batches))
  {
    var passed := PassThrough(observations, batches);
    assert forall o :: GroupOf(o) == g ==> (o in out <==> o in passed);
  }

  lemma WorksetGroupIsReduced(observations: seq<Observation>, batches: seq<PlannedBatch>, out: seq<Observation>, key: Key)
    requires IsReduction(observations, batches, out) && forall o :: o in out ==> OwnGroup(observations, batches, o)
    requires HasWorkset(batches, key.0) && key.1.Digest?
    ensures (key.1, Some(key.0)) in UnresolvedRequired(out) <==>
      FirstObligation(batches, key).Some? && FirstObligation(batches, key).value.required
      && !Complete(observations, batches, key)
  {
    var g: GroupId := (key.1, Some(key.0));
    FirstObligationIsPlanned(batches, key);
    if FirstObligation(batches, key).Some? {
      var r := Reduced(observations, batches, key);
      assert r in out && GroupOf(r) == g;
      assert forall o :: o in out && GroupOf(o) == g ==> o == r;
    } else {
      assert forall o :: o in out ==> GroupOf(o) != g;
    }
  }

  lemma AbsenceGroupIsOpen(observations: seq<Observation>, batches: seq<PlannedBatch>, out: seq<Observation>, g: GroupId)
    requires IsReduction(observations, batches, out) && forall o :: o in out ==> OwnGroup(observations, batches, o)
    requires g.1.Some? && HasWorkset(batches, g.1.value) && g.0.BatchesOf?
    ensures g in UnresolvedRequired(out) <==> g.0 == BatchesOf(g.1.value) && AbsentIndices(batches, g.1.value) != {}
  {
    var a := AbsenceOf(g.1.value);
    assert forall o :: o in out && GroupOf(o) == g ==> o == a;
    if g.0 == BatchesOf(g.1.value) && AbsentIndices(batches, g.1.value) != {} {
      assert a in out && GroupOf(a) == g;
    }
  }

  /** Region `r` was asked about a required obligation of a workset. */
  ghost predicate MustAnswer(batches: seq<PlannedBatch>, key: Key, r: string) {
    && r in PlannedRegions(batches, key)
    && FirstObligation(batches, key).Some? && FirstObligation(batches, key).value.required
  }

  /** No required work left over means every planned batch answered, and every batch exists. */
  lemma NoFalseCompletion(observations: seq<Observation>, batches: seq<PlannedBatch>, out: seq<Observation>)
    requires IsReduction(observations, batches, out) && ScopesAreApart(observations, batches)
    requires CountsOf(out).requiredUnresolved == 0
    ensures forall key, r :: MustAnswer(batches, key, r) ==> ExactlyOneResolved(Got(observations, batches, key, r))
    ensures forall scope :: HasWorkset(batches, scope) ==> AbsentIndices(batches, scope) == {}
  {
    assert UnresolvedRequired(out) == {};
    forall key: Key, r | MustAnswer(batches, key, r)
      ensures ExactlyOneResolved(Got(observations, batches, key, r))
    {
      FirstObligationIsPlanned(batches, key);
      UnresolvedGroupsAreExact(observations, batches, out, (key.1, Some(key.0)));
    }
    forall scope | HasWorkset(batches, scope)
      ensures AbsentIndices(batches, scope) == {}
    {
      UnresolvedGroupsAreExact(observations, batches, out, (BatchesOf(scope), Some(scope)));
    }
  }

  /** All batches of a workset say the same about whether an obligation is required. */
  ghost predicate BatchesAgree(batches: seq<PlannedBatch>) {
    forall b, c, o, p :: b in batches && c in batches && States(b, o) && States(c, p) ==>
      (b.placement.value.scope == c.placement.value.scope && o.id == p.id ==> o.required == p.required)
  }

  predicate States(b: PlannedBatch, o: Obligation) {
    Multi(b) && o in b.obligations
  }

  /** Some batch states the obligation as required, the first or a later one. */
  ghost predicate StatedRequired(batches: seq<PlannedBatch>, key: Key) {
    exists b, o :: b in batches && States(b, o) && b.placement.value.scope == key.0 && o.id == key.1 && o.required
  }

  lemma {:induction false} FirstObligationIsStated(batches: seq<PlannedBatch>, key: Key)
    requires FirstObligation(batches, key).Some?
    ensures var first := FirstObligation(batches, key).value;
      first.id == key.1 && exists b :: b in batches && States(b, first) && b.placement.value.scope == key.0
  {
    var n := |batches| - 1;
    if FirstObligation(batches[..n], key).Some? {
      FirstObligationIsStated(batches[..n], key);
    } else {
      FirstWithIdIsThere(batches[n].obligations, key.1);
      assert States(batches[n], FirstObligation(batches, key).value);
    }
  }

  lemma {:induction false} FirstWithIdIsThere(obligations: seq<Obligation>, id: CanonicalId)
    ensures FirstWithId(obligations, id).Some? ==>
      FirstWithId(obligations, id).value in obligations && FirstWithId(obligations, id).value.id == id
  {
    if obligations != [] {
      FirstWithIdIsThere(obligations[1..], id);
    }
  }

  /** When the batches agree, whatever any of them states as required was answered by every region asked. */
  lemma AgreedRequirementsAreAnswered(observations: seq<Observation>, batches: seq<PlannedBatch>, out: seq<Observation>)
    requires IsReduction(observations, batches, out) && ScopesAreApart(observations, batches) && BatchesAgree(batches)
    requires CountsOf(out).requiredUnresolved == 0
    ensures forall key, r :: StatedRequired(batches, key) && r in PlannedRegions(batches, key) ==>
      ExactlyOneResolved(Got(observations, batches, key, r))
  {
    NoFalseCompletion(observations, batches, out);
    forall key: Key, r | StatedRequired(batches, key) && r in PlannedRegions(batches, key)
      ensures MustAnswer(batches, key, r)
    {
      FirstStatesRequired(batches, key);
    }
  }

  lemma FirstStatesRequired(batches: seq<PlannedBatch>, key: Key)
    requires BatchesAgree(batches) && StatedRequired(batches, key)
    ensures FirstObligation(batches, key).Some? && FirstObligation(batches, key).value.required
  {
    var b, o :| b in batches && States(b, o) && b.placement.value.scope == key.0 && o.id == key.1 && o.required;
    assert Plans(b, key);
    FirstObligationIsPlanned(batches, key);
    FirstObligationIsStated(batches, key);
  }

  // ---------------------------------------------------------------- order does not matter

  lemma {:induction false} AnswersAsImage(observations: seq<Observation>, batches: seq<PlannedBatch>, key: Key, r: string,
                                          s: Status)
    ensures multiset(Got(observations, batches, key, r))[s] ==
            Image(StatusIfAnswer(batches, key, r), observations)[Some(s)]
  {
    if observations != [] {
      var n := |observations| - 1;
      var front, o, f := observations[..n], observations[n], StatusIfAnswer(batches, key, r);
      AnswersAsImage(front, batches, key, r, s);
      ImageOfAppend(f, front, o);
      assert observations == front + [o];
      var before, after := Got(front, batches, key, r), Got(observations, batches, key, r);
      assert after == if Answers(batches, key, r, o) then before + [o.status] else before;
      assert multiset(after)[s] == multiset(before)[s] + multiset{f(o)}[Some(s)];
    }
  }

  lemma AnswersIgnoreOrder(a: seq<Observation>, b: seq<Observation>, batches: seq<PlannedBatch>, key: Key, r: string)
    requires multiset(a) == multiset(b)
    ensures multiset(Got(a, batches, key, r)) == multiset(Got(b, batches, key, r))
    ensures ExactlyOneResolved(Got(a, batches, key, r)) == ExactlyOneResolved(Got(b, batches, key, r))
    ensures Got(a, batches, key, r) == [] <==> Got(b, batches, key, r) == []
  {
    var x, y := Got(a, batches, key, r), Got(b, batches, key, r);
    forall s: Status
      ensures multiset(x)[s] == multiset(y)[s]
    {
      AnswersAsImage(a, batches, key, r, s);
      AnswersAsImage(b, batches, key, r, s);
      ImageIsOrderFree(StatusIfAnswer(batches, key, r), a, b);
    }
    assert multiset(x) == multiset(y);
    assert |x| == |multiset(x)| == |multiset(y)| == |y|;
    if |x| == 1 {
      assert x[0] in multiset(x) && x[0] in multiset(y);
      assert x == [x[0]] && y == [y[0]];
    }
  }

  /** The counts depend on what was observed, not on the order in which regions reported it. */
  lemma CountsIgnoreOrder(a: seq<Observation>, b: seq<Observation>, batches: seq<PlannedBatch>,
                          outA: seq<Observation>, outB: seq<Observation>)
    requires multiset(a) == multiset(b) && IsReduction(a, batches, outA) && IsReduction(b, batches, outB)
    ensures CountsOf(outA) == CountsOf(outB)
  {
    forall key
      ensures ReducedStatus(a, batches, key) == ReducedStatus(b, batches, key)
    {
      ReductionIgnoresOrder(a, b, batches, key);
    }
    forall o
      ensures o in outA <==> o in outB
    {
      PassThroughIsOutside(a, batches, o);
      PassThroughIsOutside(b, batches, o);
      assert o in a <==> o in multiset(a);
      assert o in b <==> o in multiset(b);
    }
    SameMembersSameCounts(outA, outB);
  }

  lemma ReductionIgnoresOrder(a: seq<Observation>, b: seq<Observation>, batches: seq<PlannedBatch>, key: Key)
    requires multiset(a) == multiset(b)
    ensures ReducedStatus(a, batches, key) == ReducedStatus(b, batches, key)
  {
    forall r
      ensures ExactlyOneResolved(Got(a, batches, key, r)) == ExactlyOneResolved(Got(b, batches, key, r))
      ensures Got(a, batches, key, r) == [] <==> Got(b, batches, key, r) == []
      ensures forall s :: s in Got(a, batches, key, r) <==> s in Got(b, batches, key, r)
    {
      AnswersIgnoreOrder(a, b, batches, key, r);
      forall s
        ensures s in Got(a, batches, key, r) <==> s in Got(b, batches, key, r)
      {
        assert s in Got(a, batches, key, r) <==> s in multiset(Got(a, batches, key, r));
        assert s in Got(b, batches, key, r) <==> s in multiset(Got(b, batches, key, r));
      }
    }
    assert Complete(a, batches, key) <==> Complete(b, batches, key);
    assert forall s :: AnyAnswer(a, batches, key, s) <==> AnyAnswer(b, batches, key, s);
  }

  lemma SameMembersSameCounts(a: seq<Observation>, b: seq<Observation>)
    requires forall o :: o in a <==> o in b
    ensures CountsOf(a) == CountsOf(b)
  {
    assert Groups(a) == Groups(b);
    forall g
      ensures RequiredGroup(a, g) == RequiredGroup(b, g) && ResolvedGroup(a, g) == ResolvedGroup(b, g)
        && OpenGroup(a, g) == OpenGroup(b, g)
    {
    }
    assert UnresolvedRequired(a) == UnresolvedRequired(b);
    assert UnresolvedSupporting(a) == UnresolvedSupporting(b);
    assert (set g | g in Groups(a) && RequiredGroup(a, g)) == (set g | g in Groups(b) && RequiredGroup(b, g));
    assert (set g | g in Groups(a) && ResolvedGroup(a, g) && OpenGroup(a, g))
        == (set g | g in Groups(b) && ResolvedGroup(b, g) && OpenGroup(b, g));
  }

  // ---------------------------------------------------------------- the reduction loops

  datatype Entry = Entry(obligation: Obligation, regions: set<string>)

  ghost function EntryOf(batches: seq<PlannedBatch>, key: Key): Option<Entry> {
    var first := FirstObligation(batches, key);
    if first.None? then None else Some(Entry(first.value, PlannedRegions(batches, key)))
  }

  /** An entry after one more region of the same workset lists its obligations. */
  function EntryAfter(entry: Option<Entry>, regionId: string, obligations: seq<Obligation>, id: CanonicalId): Option<Entry> {
    var first := FirstWithId(obligations, id);
    if first.None? then entry
    else if entry.None? then Some(Entry(first.value, {regionId}))
    else Some(entry.value.(regions := entry.value.regions + {regionId}))
  }

  lemma {:induction false} FirstWithIdAppend(obligations: seq<Obligation>, o: Obligation, id: CanonicalId)
    ensures FirstWithId(obligations + [o], id) ==
      if FirstWithId(obligations, id).Some? then FirstWithId(obligations, id)
      else if o.id == id then Some(o) else None
  {
    if obligations == [] {
      assert obligations + [o] == [o] && [o][1..] == [];
    } else {
      assert (obligations + [o])[1..] == obligations[1..] + [o];
      FirstWithIdAppend(obligations[1..], o, id);
    }
  }

  ghost function FiledEntry(planned: map<Key, Entry>, scope: Scope, regionId: string, obligations: seq<Obligation>, key: Key)
    : Option<Entry>
  {
    if key.0 == scope then EntryAfter(Lookup(planned, key), regionId, obligations, key.1) else Lookup(planned, key)
  }

  method FileObligations(planned: map<Key, Entry>, scope: Scope, regionId: string, obligations: seq<Obligation>)
    returns (grown: map<Key, Entry>)
    ensures forall key :: Lookup(grown, key) == FiledEntry(planned, scope, regionId, obligations, key)
  {
    grown := planned;
    for n := 0 to |obligations|
      invariant forall key :: Lookup(grown, key) == FiledEntry(planned, scope, regionId, obligations[..n], key)
    {
      var o := obligations[n];
      assert obligations[..n + 1] == obligations[..n] + [o];
      forall id {
        FirstWithIdAppend(obligations[..n], o, id);
      }
      var key := (scope, o.id);
      ghost var before := grown;
      assert Lookup(before, key) == FiledEntry(planned, scope, regionId, obligations[..n], key);
      var entry := if key in grown then grown[key] else Entry(o, {});
      grown := grown[key := entry.(regions := entry.regions + {regionId})];
      forall other
        ensures Lookup(grown, other) == FiledEntry(planned, scope, regionId, obligations[..n + 1], other)
      {
        assert Lookup(before, other) == FiledEntry(planned, scope, regionId, obligations[..n], other);
        if other == key {
          var was := Lookup(planned, key);
          if was.Some? { assert was.value.regions + {regionId} + {regionId} == was.value.regions + {regionId}; }
          assert {regionId} + {regionId} == {regionId} && {} + {regionId} == {regionId};
        } else {
          assert Lookup(grown, other) == Lookup(before, other);
        }
      }
    }
    assert obligations[..|obligations|] == obligations;
  }

  lemma PrefixStep(batches: seq<PlannedBatch>, n: nat)
    requires n < |batches|
    ensures batches[..n + 1][..n] == batches[..n] && batches[..n + 1][n] == batches[n]
    ensures forall x :: x in batches[..n + 1] <==> x in batches[..n] || x == batches[n]
  {
    assert batches[..n + 1] == batches[..n] + [batches[n]];
  }

  lemma EntryExtends(batches: seq<PlannedBatch>, n: nat, key: Key)
    requires n < |batches|
    ensures var b := batches[n];
      EntryOf(batches[..n + 1], key) ==
        if Multi(b) && b.placement.value.scope == key.0
        then EntryAfter(EntryOf(batches[..n], key), b.regionId, b.obligations, key.1) else EntryOf(batches[..n], key)
  {
    PrefixStep(batches, n);
    FirstObligationIsPlanned(batches[..n], key);
    FirstWithIdFinds(batches[n].obligations, key.1);
    assert PlannedRegions(batches[..n + 1], key) ==
           PlannedRegions(batches[..n], key) + if Plans(batches[n], key) then {batches[n].regionId} else {};
    assert FirstObligation(batches[..n], key).None? ==> PlannedRegions(batches[..n], key) == {};
    assert {} + {batches[n].regionId} == {batches[n].regionId};
    assert PlannedRegions(batches[..n], key) + {} == PlannedRegions(batches[..n], key);
  }

  /** Which batches of a workset exist, and how many there should be. */
  ghost function ExistingBatches(batches: seq<PlannedBatch>, scope: Scope): Option<set<int>> {
    if HasWorkset(batches, scope) then Some(BatchIndices(batches, scope)) else None
  }

  lemma ExistingExtends(batches: seq<PlannedBatch>, n: nat, scope: Scope)
    requires n < |batches|
    ensures var b, front := batches[n], ExistingBatches(batches[..n], scope);
      ExistingBatches(batches[..n + 1], scope) ==
        if Multi(b) && b.placement.value.scope == scope
        then Some((if front.Some? then front.value else {}) + {b.placement.value.index}) else front
  {
    PrefixStep(batches, n);
    var b := batches[n];
    assert HasWorkset(batches[..n + 1], scope) <==>
      HasWorkset(batches[..n], scope) || (Multi(b) && b.placement.value.scope == scope);
    assert BatchIndices(batches[..n + 1], scope) == BatchIndices(batches[..n], scope)
      + if Multi(b) && b.placement.value.scope == scope then {b.placement.value.index} else {};
    assert !HasWorkset(batches[..n], scope) ==> BatchIndices(batches[..n], scope) == {};
    var front := ExistingBatches(batches[..n], scope);
    assert (if front.Some? then front.value else {}) == BatchIndices(batches[..n], scope);
    assert BatchIndices(batches[..n], scope) + {} == BatchIndices(batches[..n], scope);
  }

  method IndexObligations(batches: seq<PlannedBatch>) returns (regionKeys: map<string, Scope>, planned: map<Key, Entry>)
    ensures forall r :: Lookup(regionKeys, r) == RegionScope(batches, r)
    ensures forall key :: Lookup(planned, key) == EntryOf(batches, key)
  {
    regionKeys, planned := map[], map[];
    for n := 0 to |batches|
      invariant forall r :: Lookup(regionKeys, r) == RegionScope(batches[..n], r)
      invariant forall key :: Lookup(planned, key) == EntryOf(batches[..n], key)
    {
      var b := batches[n];
      PrefixStep(batches, n);
      forall key {
        EntryExtends(batches, n, key);
      }
      if Multi(b) {
        regionKeys := regionKeys[b.regionId := b.placement.value.scope];
        planned := FileObligations(planned, b.placement.value.scope, b.regionId, b.obligations);
      }
    }
    assert batches[..|batches|] == batches;
  }

  method IndexWorksets(batches: seq<PlannedBatch>) returns (indices: map<Scope, set<int>>, counts: map<Scope, int>)
    ensures forall scope :: Lookup(indices, scope) == ExistingBatches(batches, scope)
    ensures forall scope :: scope in indices ==> scope in counts && counts[scope] == BatchCount(batches, scope)
  {
    indices, counts := map[], map[];
    for n := 0 to |batches|
      invariant forall scope :: Lookup(indices, scope) == ExistingBatches(batches[..n], scope)
      invariant forall scope :: scope in indices ==> scope in counts && counts[scope] == BatchCount(batches[..n], scope)
    {
      var b := batches[n];
      PrefixStep(batches, n);
      ghost var before := indices;
      if Multi(b) {
        var scope := b.placement.value.scope;
        indices := indices[scope := (if scope in indices then indices[scope] else {}) + {b.placement.value.index}];
        counts := counts[scope := b.placement.value.count];
      }
      forall scope
        ensures Lookup(indices, scope) == ExistingBatches(batches[..n + 1], scope)
      {
        ExistingExtends(batches, n, scope);
        assert Lookup(before, scope) == ExistingBatches(batches[..n], scope);
      }
    }
    assert batches[..|batches|] == batches;
  }

  /** The statuses collected so far for one obligation of one workset, region by region. */
  type StatusTable = map<Key, map<string, seq<Status>>>

  function Listed(table: StatusTable, key: Key, r: string): seq<Status> {
    if key in table && r in table[key] then table[key][r] else []
  }

  predicate ListsAreFilled(table: StatusTable) {
    forall key :: key in table ==> forall r :: r in table[key] ==> table[key][r] != []
  }

  method RecordStatus(table: StatusTable, key: Key, r: string, s: Status) returns (grown: StatusTable)
    requires ListsAreFilled(table)
    ensures ListsAreFilled(grown)
    ensures forall k, q :: Listed(grown, k, q) == Listed(table, k, q) + if k == key && q == r then [s] else []
  {
    var byRegion := if key in table then table[key] else map[];
    grown := table[key := byRegion[r := (if r in byRegion then byRegion[r] else []) + [s]]];
  }

  lemma GotExtends(observations: seq<Observation>, n: nat, batches: seq<PlannedBatch>, key: Key, r: string)
    requires n < |observations|
    ensures Got(observations[..n + 1], batches, key, r) == Got(observations[..n], batches, key, r)
      + if Answers(batches, key, r, observations[n]) then [observations[n].status] else []
    ensures PassThrough(observations[..n + 1], batches) == PassThrough(observations[..n], batches)
      + if RegionScope(batches, observations[n].regionId).None? then [observations[n]] else []
  {
    assert observations[..n + 1][..n] == observations[..n];
  }

  /** Files each observation under the workset that asked for it; the others pass through in order. */
  method CollectAnswers(observations: seq<Observation>, regionKeys: map<string, Scope>, planned: map<Key, Entry>,
                        ghost batches: seq<PlannedBatch>)
    returns (passed: seq<Observation>, table: StatusTable)
    requires forall r :: Lookup(regionKeys, r) == RegionScope(batches, r)
    ensures passed == PassThrough(observations, batches) && ListsAreFilled(table)
    ensures forall key, r :: key in planned ==> Listed(table, key, r) == Got(observations, batches, key, r)
  {
    passed, table := [], map[];
    for n := 0 to |observations|
      invariant passed == PassThrough(observations[..n], batches) && ListsAreFilled(table)
      invariant forall key, r :: key in planned ==> Listed(table, key, r) == Got(observations[..n], batches, key, r)
    {
      var o := observations[n];
      ghost var before := table;
      assert Lookup(regionKeys, o.regionId) == RegionScope(batches, o.regionId);
      if o.regionId !in regionKeys {
        passed := passed + [o];
      } else {
        var key := (regionKeys[o.regionId], o.obligation.id);
        if key in planned {
          table := RecordStatus(table, key, o.regionId, o.status);
        }
      }
      forall key, r | key in planned
        ensures Listed(table, key, r) == Got(observations[..n + 1], batches, key, r)
      {
        GotExtends(observations, n, batches, key, r);
        assert Listed(before, key, r) == Got(observations[..n], batches, key, r);
      }
      GotExtends(observations, n, batches, (Scope("", ""), o.obligation.id), o.regionId);
    }
    assert observations[..|observations|] == observations;
  }

  /** Exactly the expected regions answered, each once and with a resolved status. */
  predicate TableComplete(expected: set<string>, byRegion: map<string, seq<Status>>) {
    expected == byRegion.Keys && forall r :: r in expected ==> ExactlyOneResolved(byRegion[r])
  }

  function TableStatus(expected: set<string>, byRegion: map<string, seq<Status>>): Status {
    if !TableComplete(expected, byRegion) then Unresolved
    else if exists r :: r in byRegion && CandidateFound in byRegion[r] then CandidateFound
    else if exists r :: r in byRegion && NoIssue in byRegion[r] then NoIssue
    else NotApplicable
  }

  /** The tabulated verdict on an obligation is the declared one. */
  lemma TableStatusIsReducedStatus(observations: seq<Observation>, batches: seq<PlannedBatch>, key: Key,
                                   byRegion: map<string, seq<Status>>)
    requires forall r :: r in byRegion ==> byRegion[r] != []
    requires forall r :: (if r in byRegion then byRegion[r] else []) == Got(observations, batches, key, r)
    ensures TableComplete(PlannedRegions(batches, key), byRegion) <==> Complete(observations, batches, key)
    ensures TableStatus(PlannedRegions(batches, key), byRegion) == ReducedStatus(observations, batches, key)
    ensures PlannedRegions(batches, key) - byRegion.Keys == Silent(observations, batches, key)
  {
    var expected := PlannedRegions(batches, key);
    assert forall r :: r in byRegion <==> Got(observations, batches, key, r) != [];
    if Complete(observations, batches, key) {
      forall r
        ensures r in expected <==> r in byRegion
      {
        assert if r in expected then ExactlyOneResolved(Got(observations, batches, key, r))
               else Got(observations, batches, key, r) == [];
      }
      assert expected == byRegion.Keys;
    }
    forall s: Status
      ensures AnyAnswer(observations, batches, key, s) <==> exists r :: r in byRegion && s in byRegion[r]
    {
      if AnyAnswer(observations, batches, key, s) {
        var r :| s in Got(observations, batches, key, r);
        assert r in byRegion;
      }
      if r :| r in byRegion && s in byRegion[r] {
        assert s in Got(observations, batches, key, r);
      }
    }
  }

  /** The regions that were asked about an obligation and said nothing. */
  ghost function Silent(observations: seq<Observation>, batches: seq<PlannedBatch>, key: Key): set<string> {
    set r | r in PlannedRegions(batches, key) && Got(observations, batches, key, r) == []
  }

  ghost predicate ReducesAmong(observations: seq<Observation>, batches: seq<PlannedBatch>, done: set<Key>, o: Observation) {
    exists key :: key in done && FirstObligation(batches, key).Some? && o == Reduced(observations, batches, key)
  }

  ghost predicate AbsenceAmong(batches: seq<PlannedBatch>, done: set<Scope>, o: Observation) {
    exists scope :: scope in done && AbsentIndices(batches, scope) != {} && o == AbsenceOf(scope)
  }

  ghost function Incomplete(observations: seq<Observation>, batches: seq<PlannedBatch>, keys: set<Key>): set<Key> {
    set key | key in keys && !Complete(observations, batches, key)
  }

  ghost function SilentPairs(observations: seq<Observation>, batches: seq<PlannedBatch>, keys: set<Key>): set<(Key, string)> {
    set key, r | key in keys && r in Silent(observations, batches, key) :: (key, r)
  }

  ghost function AbsentPairs(batches: seq<PlannedBatch>, scopes: set<Scope>): set<(Scope, int)> {
    set scope, i | scope in scopes && i in AbsentIndices(batches, scope) :: (scope, i)
  }

  ghost function Tagged<K, V>(k: K, s: set<V>): set<(K, V)> {
    set v | v in s :: (k, v)
  }

  lemma {:induction false} TaggedCount<K, V>(k: K, s: set<V>)
    ensures |Tagged(k, s)| == |s|
  {
    if s == {} {
      assert Tagged(k, s) == {};
    } else {
      var v :| v in s;
      TaggedCount(k, s - {v});
      assert Tagged(k, s) == Tagged(k, s - {v}) + {(k, v)};
    }
  }

  /** The observation that stands for one planned obligation. */
  method ReduceEntry(observations: seq<Observation>, ghost batches: seq<PlannedBatch>, key: Key, entry: Entry,
                     byRegion: map<string, seq<Status>>)
    returns (o: Observation, complete: bool, missing: nat)
    requires EntryOf(batches, key) == Some(entry)
    requires forall r :: r in byRegion ==> byRegion[r] != []
    requires forall r :: (if r in byRegion then byRegion[r] else []) == Got(observations, batches, key, r)
    ensures o == Reduced(observations, batches, key)
    ensures complete == Complete(observations, batches, key)
    ensures missing == |Silent(observations, batches, key)|
  {
    TableStatusIsReducedStatus(observations, batches, key, byRegion);
    complete := TableComplete(entry.regions, byRegion);
    missing := |entry.regions - byRegion.Keys|;
    o := Observation(key.0.worksetId, Some(key.0), entry.obligation, TableStatus(entry.regions, byRegion));
  }

  /** One observation per planned obligation, with the totals over all of them. */
  method ReduceObligations(observations: seq<Observation>, ghost batches: seq<PlannedBatch>, planned: map<Key, Entry>,
                           table: StatusTable)
    returns (reduced: seq<Observation>, unresolved: nat, missing: nat)
    requires forall key :: Lookup(planned, key) == EntryOf(batches, key)
    requires ListsAreFilled(table)
    requires forall key, r :: key in planned ==> Listed(table, key, r) == Got(observations, batches, key, r)
    ensures forall o :: o in reduced <==> ReducesAmong(observations, batches, planned.Keys, o)
    ensures unresolved == |Incomplete(observations, batches, planned.Keys)|
    ensures missing == |SilentPairs(observations, batches, planned.Keys)|
  {
    reduced, unresolved, missing := [], 0, 0;
    var todo := planned.Keys;
    ghost var done: set<Key> := {};
    while todo != {}
      invariant done !! todo && done + todo == planned.Keys
      invariant IsReducedOver(observations, batches, done, reduced, unresolved, missing)
    {
      var key :| key in todo;
      todo := todo - {key};
      var o, complete, silent := ReducePlanned(observations, batches, planned, table, key);
      ReduceOneMore(observations, batches, done, key, reduced, unresolved, missing, o, complete, silent);
      reduced := reduced + [o];
      unresolved := unresolved + if complete then 0 else 1;
      missing := missing + silent;
      done := done + {key};
    }
    assert done == planned.Keys;
  }

  method ReducePlanned(observations: seq<Observation>, ghost batches: seq<PlannedBatch>, planned: map<Key, Entry>,
                       table: StatusTable, key: Key)
    returns (o: Observation, complete: bool, silent: nat)
    requires key in planned && Lookup(planned, key) == EntryOf(batches, key) && ListsAreFilled(table)
    requires forall r :: Listed(table, key, r) == Got(observations, batches, key, r)
    ensures FirstObligation(batches, key).Some? && o == Reduced(observations, batches, key)
    ensures complete == Complete(observations, batches, key) && silent == |Silent(observations, batches, key)|
  {
    var byRegion := if key in table then table[key] else map[];
    forall r
      ensures (if r in byRegion then byRegion[r] else []) == Got(observations, batches, key, r)
    {
      assert Listed(table, key, r) == Got(observations, batches, key, r);
    }
    o, complete, silent := ReduceEntry(observations, batches, key, planned[key], byRegion);
  }

  /** The reduced observations and both totals over the keys in `done`. */
  ghost predicate IsReducedOver(observations: seq<Observation>, batches: seq<PlannedBatch>, done: set<Key>,
                                reduced: seq<Observation>, unresolved: nat, missing: nat)
  {
    && (forall o :: o in reduced <==> ReducesAmong(observations, batches, done, o))
    && unresolved == |Incomplete(observations, batches, done)|
    && missing == |SilentPairs(observations, batches, done)|
  }

  lemma ReduceOneMore(observations: seq<Observation>, batches: seq<PlannedBatch>, done: set<Key>, key: Key,
                      reduced: seq<Observation>, unresolved: nat, missing: nat, o: Observation, complete: bool, silent: nat)
    requires IsReducedOver(observations, batches, done, reduced, unresolved, missing) && key !in done
    requires FirstObligation(batches, key).Some? && o == Reduced(observations, batches, key)
    requires complete == Complete(observations, batches, key) && silent == |Silent(observations, batches, key)|
    ensures IsReducedOver(observations, batches, done + {key}, reduced + [o], unresolved + (if complete then 0 else 1), missing + silent)
  {
    IncompleteGrows(observations, batches, done, key);
    SilentPairsGrow(observations, batches, done, key);
    ReducesOneMore(observations, batches, done, key);
  }

  lemma ReducesOneMore(observations: seq<Observation>, batches: seq<PlannedBatch>, done: set<Key>, key: Key)
    requires FirstObligation(batches, key).Some?
    ensures forall o :: ReducesAmong(observations, batches, done + {key}, o) <==>
      ReducesAmong(observations, batches, done, o) || o == Reduced(observations, batches, key)
  {
  }

  lemma UnionCount<T>(before: set<T>, more: set<T>, after: set<T>)
    requires before !! more && forall x :: x in after <==> x in before || x in more
    ensures |after| == |before| + |more|
  {
    assert after == before + more;
  }

  lemma OneMore<T>(before: set<T>, x: T, hit: bool, after: set<T>)
    requires x !in before && forall y :: y in after <==> y in before || (hit && y == x)
    ensures |after| == |before| + if hit then 1 else 0
  {
    assert after == if hit then before + {x} else before;
  }

  lemma IncompleteGrows(observations: seq<Observation>, batches: seq<PlannedBatch>, done: set<Key>, key: Key)
    requires key !in done
    ensures |Incomplete(observations, batches, done + {key})| ==
      |Incomplete(observations, batches, done)| + if Complete(observations, batches, key) then 0 else 1
  {
    OneMore(Incomplete(observations, batches, done), key, !Complete(observations, batches, key),
            Incomplete(observations, batches, done + {key}));
  }

  lemma SilentPairsGrow(observations: seq<Observation>, batches: seq<PlannedBatch>, done: set<Key>, key: Key)
    requires key !in done
    ensures |SilentPairs(observations, batches, done + {key})| ==
      |SilentPairs(observations, batches, done)| + |Silent(observations, batches, key)|
  {
    var silent := Silent(observations, batches, key);
    TaggedCount(key, silent);
    UnionCount(SilentPairs(observations, batches, done), Tagged(key, silent), SilentPairs(observations, batches, done + {key}));
  }

  lemma AbsentPairsGrow(batches: seq<PlannedBatch>, done: set<Scope>, scope: Scope)
    requires scope !in done
    ensures |AbsentPairs(batches, done + {scope})| == |AbsentPairs(batches, done)| + |AbsentIndices(batches, scope)|
  {
    var gap := AbsentIndices(batches, scope);
    TaggedCount(scope, gap);
    UnionCount(AbsentPairs(batches, done), Tagged(scope, gap), AbsentPairs(batches, done + {scope}));
  }

  lemma AbsenceOneMore(batches: seq<PlannedBatch>, done: set<Scope>, scope: Scope)
    ensures forall o :: AbsenceAmong(batches, done + {scope}, o) <==>
      AbsenceAmong(batches, done, o) || (AbsentIndices(batches, scope) != {} && o == AbsenceOf(scope))
  {
  }

  /** One open required observation per workset whose batches do not all exist. */
  method ReportAbsences(ghost batches: seq<PlannedBatch>, indices: map<Scope, set<int>>, counts: map<Scope, int>)
    returns (absences: seq<Observation>, absent: nat)
    requires forall scope :: Lookup(indices, scope) == ExistingBatches(batches, scope)
    requires forall scope :: scope in indices ==> scope in counts && counts[scope] == BatchCount(batches, scope)
    ensures forall o :: o in absences <==> AbsenceAmong(batches, indices.Keys, o)
    ensures absent == |AbsentPairs(batches, indices.Keys)|
  {
    absences, absent := [], 0;
    var todo := indices.Keys;
    ghost var done: set<Scope> := {};
    while todo != {}
      invariant done !! todo && done + todo == indices.Keys
      invariant forall o :: o in absences <==> AbsenceAmong(batches, done, o)
      invariant absent == |AbsentPairs(batches, done)|
    {
      var scope :| scope in todo;
      todo := todo - {scope};
      var gap := IndexRange(counts[scope]) - indices[scope];
      assert Lookup(indices, scope) == ExistingBatches(batches, scope);
      assert gap == AbsentIndices(batches, scope);
      AbsentPairsGrow(batches, done, scope);
      AbsenceOneMore(batches, done, scope);
      absent := absent + |gap|;
      if gap != {} { absences := absences + [AbsenceOf(scope)]; }
      done := done + {scope};
    }
    assert done == indices.Keys;
  }

  datatype BatchMetrics = BatchMetrics(reconciled: nat, unresolved: nat, missingObservations: nat, missingBatches: nat)

  /** The obligations of multi-batch worksets. */
  ghost function PlannedKeys(batches: seq<PlannedBatch>): set<Key> {
    set b, o | b in batches && Multi(b) && o in b.obligations :: (b.placement.value.scope, o.id)
  }

  ghost function Worksets(batches: seq<PlannedBatch>): set<Scope> {
    set b | b in batches && Multi(b) :: b.placement.value.scope
  }

  lemma IndexedKeysArePlanned(batches: seq<PlannedBatch>, planned: map<Key, Entry>, indices: map<Scope, set<int>>)
    requires forall key :: Lookup(planned, key) == EntryOf(batches, key)
    requires forall scope :: Lookup(indices, scope) == ExistingBatches(batches, scope)
    ensures planned.Keys == PlannedKeys(batches) && indices.Keys == Worksets(batches)
    ensures forall key :: key in planned <==> FirstObligation(batches, key).Some?
    ensures forall scope :: scope in indices <==> HasWorkset(batches, scope)
  {
    forall key: Key
      ensures (key in planned <==> key in PlannedKeys(batches)) && (key in planned <==> FirstObligation(batches, key).Some?)
    {
      assert Lookup(planned, key) == EntryOf(batches, key);
      FirstObligationIsPlanned(batches, key);
      if b :| b in batches && Plans(b, key) {
        var o :| o in b.obligations && o.id == key.1;
        assert key == (b.placement.value.scope, o.id);
      }
    }
    forall scope
      ensures (scope in indices <==> scope in Worksets(batches)) && (scope in indices <==> HasWorkset(batches, scope))
    {
      assert Lookup(indices, scope) == ExistingBatches(batches, scope);
    }
  }

  /** Reduces batch-local answers; every total counts exactly what its name says. */
  method ReconcileWorksetBatches(observations: seq<Observation>, batches: seq<PlannedBatch>)
    returns (out: seq<Observation>, m: BatchMetrics)
    ensures IsReduction(observations, batches, out)
    ensures PassThrough(observations, batches) <= out
    ensures m == BatchMetrics(|PlannedKeys(batches)|, |Incomplete(observations, batches, PlannedKeys(batches))|,
                              |SilentPairs(observations, batches, PlannedKeys(batches))|,
                              |AbsentPairs(batches, Worksets(batches))|)
  {
    var regionKeys, planned := IndexObligations(batches);
    var indices, counts := IndexWorksets(batches);
    var passed, table := CollectAnswers(observations, regionKeys, planned, batches);
    var reduced, unresolved, missing := ReduceObligations(observations, batches, planned, table);
    var absences, absent := ReportAbsences(batches, indices, counts);
    IndexedKeysArePlanned(batches, planned, indices);
    out := passed + reduced + absences;
    m := BatchMetrics(|planned|, unresolved, missing, absent);
    PartsMakeReduction(observations, batches, planned.Keys, indices.Keys, passed, reduced, absences);
  }

  lemma PartsMakeReduction(observations: seq<Observation>, batches: seq<PlannedBatch>, keys: set<Key>, scopes: set<Scope>,
                           passed: seq<Observation>, reduced: seq<Observation>, absences: seq<Observation>)
    requires passed == PassThrough(observations, batches)
    requires forall key :: key in keys <==> FirstObligation(batches, key).Some?
    requires forall scope :: scope in scopes <==> HasWorkset(batches, scope)
    requires forall o :: o in reduced <==> ReducesAmong(observations, batches, keys, o)
    requires forall o :: o in absences <==> AbsenceAmong(batches, scopes, o)
    ensures IsReduction(observations, batches, passed + reduced + absences)
  {
    forall o
      ensures o in passed + reduced + absences <==> o in passed || o in reduced || o in absences
    {
    }
  }

  // ---------------------------------------------------------------- counting canonical obligations

  ghost predicate AreRecordsOf(observations: seq<Observation>, g: GroupId, records: seq<Observation>) {
    forall o :: o in records <==> o in observations && GroupOf(o) == g
  }

  /** The records of each canonical group, collected in order. */
  method GroupObservations(observations: seq<Observation>) returns (groups: map<GroupId, seq<Observation>>)
    ensures groups.Keys == Groups(observations)
    ensures forall g :: g in groups ==> AreRecordsOf(observations, g, groups[g])
  {
    groups := map[];
    for n := 0 to |observations|
      invariant groups.Keys == Groups(observations[..n])
      invariant forall g :: g in groups ==> AreRecordsOf(observations[..n], g, groups[g])
    {
      var o := observations[n];
      RecordsGrow(observations[..n], groups, o);
      assert observations[..n + 1] == observations[..n] + [o];
      groups := groups[GroupOf(o) := (if GroupOf(o) in groups then groups[GroupOf(o)] else []) + [o]];
    }
    assert observations[..|observations|] == observations;
  }

  lemma RecordsGrow(observations: seq<Observation>, groups: map<GroupId, seq<Observation>>, o: Observation)
    requires groups.Keys == Groups(observations) && forall g :: g in groups ==> AreRecordsOf(observations, g, groups[g])
    ensures var grown := groups[GroupOf(o) := (if GroupOf(o) in groups then groups[GroupOf(o)] else []) + [o]];
      grown.Keys == Groups(observations + [o]) && forall g :: g in grown ==> AreRecordsOf(observations + [o], g, grown[g])
  {
    var grown := groups[GroupOf(o) := (if GroupOf(o) in groups then groups[GroupOf(o)] else []) + [o]];
    assert Groups(observations + [o]) == Groups(observations) + {GroupOf(o)};
    forall g | g in grown
      ensures AreRecordsOf(observations + [o], g, grown[g])
    {
      assert g in groups ==> AreRecordsOf(observations, g, groups[g]);
    }
  }

  /** How one group's records are counted. */
  function Tally(records: seq<Observation>): (t: Counts) {
    var required, resolved, open := exists o :: o in records && o.obligation.required,
                                    exists o :: o in records && Resolved(o.status),
                                    exists o :: o in records && Open(o.status);
    Counts(1, if required then 1 else 0,
           if !resolved && open && required then 1 else 0,
           if !resolved && open && !required then 1 else 0,
           if resolved && open then 1 else 0)
  }

  function Plus(a: Counts, b: Counts): Counts {
    Counts(a.total + b.total, a.required + b.required, a.requiredUnresolved + b.requiredUnresolved,
           a.supportingUnresolved + b.supportingUnresolved, a.reconciledBySibling + b.reconciledBySibling)
  }

  datatype Column = Required | OpenRequired | OpenSupporting | SiblingResolved

  /** Whether a group counts in a column. */
  ghost predicate InColumn(observations: seq<Observation>, column: Column, g: GroupId) {
    match column
    case Required => RequiredGroup(observations, g)
    case OpenRequired => g in UnresolvedRequired(observations)
    case OpenSupporting => g in UnresolvedSupporting(observations)
    case SiblingResolved => ResolvedGroup(observations, g) && OpenGroup(observations, g)
  }

  ghost function Members(observations: seq<Observation>, column: Column, groups: set<GroupId>): set<GroupId> {
    set g | g in groups && InColumn(observations, column, g)
  }

  ghost function CountsAmong(observations: seq<Observation>, groups: set<GroupId>): Counts {
    Counts(|groups|, |Members(observations, Required, groups)|, |Members(observations, OpenRequired, groups)|,
           |Members(observations, OpenSupporting, groups)|, |Members(observations, SiblingResolved, groups)|)
  }

  lemma ColumnGrows(observations: seq<Observation>, column: Column, done: set<GroupId>, g: GroupId)
    requires g !in done
    ensures |Members(observations, column, done + {g})| ==
      |Members(observations, column, done)| + if InColumn(observations, column, g) then 1 else 0
  {
    OneMore(Members(observations, column, done), g, InColumn(observations, column, g),
            Members(observations, column, done + {g}));
  }

  lemma TallyIsPerColumn(observations: seq<Observation>, g: GroupId, records: seq<Observation>)
    requires g in Groups(observations)
    requires forall o :: o in records <==> o in observations && GroupOf(o) == g
    ensures Tally(records) == Counts(1, if InColumn(observations, Required, g) then 1 else 0,
      if InColumn(observations, OpenRequired, g) then 1 else 0, if InColumn(observations, OpenSupporting, g) then 1 else 0,
      if InColumn(observations, SiblingResolved, g) then 1 else 0)
  {
    assert RequiredGroup(observations, g) <==> exists o :: o in records && o.obligation.required;
    assert ResolvedGroup(observations, g) <==> exists o :: o in records && Resolved(o.status);
    assert OpenGroup(observations, g) <==> exists o :: o in records && Open(o.status);
  }

  lemma CountsAmongGrow(observations: seq<Observation>, done: set<GroupId>, g: GroupId, records: seq<Observation>)
    requires g !in done && g in Groups(observations) && AreRecordsOf(observations, g, records)
    ensures CountsAmong(observations, done + {g}) == Plus(CountsAmong(observations, done), Tally(records))
  {
    TallyIsPerColumn(observations, g, records);
    ColumnGrows(observations, Required, done, g);
    ColumnGrows(observations, OpenRequired, done, g);
    ColumnGrows(observations, OpenSupporting, done, g);
    ColumnGrows(observations, SiblingResolved, done, g);
  }

  /** `counts` grows by a group's tally with every group it covers. */
  ghost predicate GrowsByTally(counts: set<GroupId> -> Counts, tally: seq<Observation> -> Counts, done: set<GroupId>,
                               g: GroupId, records: seq<Observation>)
  {
    counts(done + {g}) == Plus(counts(done), tally(records))
  }

  /** Adds up the tallies of all groups, in any order. */
  method TallyGroups(groups: map<GroupId, seq<Observation>>, tally: seq<Observation> -> Counts,
                     ghost counts: set<GroupId> -> Counts)
    returns (c: Counts)
    requires counts({}) == Counts(0, 0, 0, 0, 0)
    requires forall done, g :: g in groups && g !in done ==> GrowsByTally(counts, tally, done, g, groups[g])
    ensures c == counts(groups.Keys)
  {
    c := Counts(0, 0, 0, 0, 0);
    var todo := groups.Keys;
    ghost var done: set<GroupId> := {};
    while todo != {}
      invariant done !! todo && done + todo == groups.Keys
      invariant c == counts(done)
    {
      var g :| g in todo;
      assert GrowsByTally(counts, tally, done, g, groups[g]);
      c := Plus(c, tally(groups[g]));
      todo := todo - {g};
      done := done + {g};
    }
    assert done == groups.Keys;
  }

  method ReconcileObligations(observations: seq<Observation>) returns (c: Counts)
    ensures c == CountsOf(observations)
  {
    var groups := GroupObservations(observations);
    ghost var counts := (done: set<GroupId>) => CountsAmong(observations, done);
    NoGroupsNoCounts(observations);
    forall done, g | g in groups && g !in done
      ensures GrowsByTally(counts, Tally, done, g, groups[g])
    {
      CountsAmongGrow(observations, done, g, groups[g]);
    }
    c := TallyGroups(groups, Tally, counts);
    AllGroupsAreCounted(observations);
  }

  lemma NoGroupsNoCounts(observations: seq<Observation>)
    ensures CountsAmong(observations, {}) == Counts(0, 0, 0, 0, 0)
  {
    assert forall column :: Members(observations, column, {}) == {};
  }

  lemma AllGroupsAreCounted(observations: seq<Observation>)
    ensures CountsAmong(observations, Groups(observations)) == CountsOf(observations)
  {
    var all := Groups(observations);
    assert Members(observations, OpenRequired, all) == UnresolvedRequired(observations);
    assert Members(observations, OpenSupporting, all) == UnresolvedSupporting(observations);
    assert Members(observations, Required, all) == set g | g in all && RequiredGroup(observations, g);
    assert Members(observations, SiblingResolved, all) ==
           set g | g in all && ResolvedGroup(observations, g) && OpenGroup(observations, g);
  }

  /** Both passes in sequence: an empty worklist means every planned batch of every workset answered. */
  method Reconcile(observations: seq<Observation>, batches: seq<PlannedBatch>) returns (c: Counts, m: BatchMetrics)
    requires ScopesAreApart(observations, batches)
    ensures exists out :: IsReduction(observations, batches, out) && c == CountsOf(out)
    ensures c.requiredUnresolved == 0 ==>
      forall key, r :: MustAnswer(batches, key, r) ==> ExactlyOneResolved(Got(observations, batches, key, r))
    ensures c.requiredUnresolved == 0 ==> forall scope :: HasWorkset(batches, scope) ==> AbsentIndices(batches, scope) == {}
  {
    var out: seq<Observation>;
    out, m := ReconcileWorksetBatches(observations, batches);
    c := ReconcileObligations(out);
    if c.requiredUnresolved == 0 {
      NoFalseCompletion(observations, batches, out);
    }
  }
}
