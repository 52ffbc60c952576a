/** Folding repeated candidate reports together, in place. */
module CandidateDedup {
  import opened GraphSnapshot
  import opened Sequences

  datatype Evidence = Evidence(path: string, startLine: int, endLine: int, sourceSymbol: string, sinkSymbol: string,
                               graphPath: seq<string>)

  datatype RootCause = RootCause(symbol: string, securityControl: string, brokenInvariant: string, capability: string)

  datatype Families = Families(effect: string, capability: string)

  /** The part of a candidate that says what it reports. */
  datatype Profile = Profile(ruleId: string, title: string, vulnerabilityClass: string, category: string,
                             references: set<string>, rootCause: RootCause, families: Families, evidence: Evidence)

  datatype Support = Support(path: string, startLine: int, endLine: int, attackPath: string)

  datatype Hypothesis = Hypothesis(ruleId: string, title: string, vulnerabilityClass: string, rootCause: RootCause,
                                   families: Families, path: string, startLine: int, endLine: int)

  /** Everything kept with a candidate besides its confidence: its profile, and what was merged into it. */
  datatype Metadata = Metadata(profile: Profile, duplicateReports: nat, taskIds: set<string>, support: seq<Support>,
                               context: seq<string>, variants: Option<seq<Hypothesis>>)

  /** Text functions whose details do not matter here. */
  datatype Lexicon = Lexicon(normalize: string -> string, slug: string -> string, arrows: seq<string> -> string,
                             words: (string, string, string, string) -> set<string>)

  datatype Limits = Limits(support: nat, variants: nat)

  // ---------------------------------------------------------------- identities

  datatype SemanticKey = SemanticKey(path: string, symbol: string, control: string, invariant_: string, capability: string)

  datatype EquivalenceKey = EquivalenceKey(path: string, symbol: string, effect: string, capability: string)

  function SemanticKeyOf(lex: Lexicon, p: Profile): Option<SemanticKey> {
    var symbol, control := lex.normalize(p.rootCause.symbol), lex.slug(p.rootCause.securityControl);
    if symbol == "" || control == "" then None
    else Some(SemanticKey(lex.normalize(p.evidence.path), symbol, control, lex.normalize(p.rootCause.brokenInvariant),
                          lex.normalize(p.rootCause.capability)))
  }

  function EquivalenceKeyOf(lex: Lexicon, p: Profile): Option<EquivalenceKey> {
    var path, symbol := lex.normalize(p.evidence.path), lex.normalize(p.rootCause.symbol);
    var effect, capability := lex.normalize(p.families.effect), lex.normalize(p.families.capability);
    if path == "" || symbol == "" || effect == "" || capability == "" then None
    else if effect == "unresolved" || capability == "unresolved" then None
    else Some(EquivalenceKey(path, symbol, effect, capability))
  }

  datatype Print = Print(vulnerabilityClass: string, source: string, sink: string, graphPath: string,
                         semantic: Option<SemanticKey>, equivalence: Option<EquivalenceKey>)

  /** The normalised parts that the fingerprint hashes, for one repository. */
  function PrintOf(lex: Lexicon, p: Profile): Print {
    var e := p.evidence;
    Print(lex.normalize(p.vulnerabilityClass),
          lex.normalize(if e.sourceSymbol != "" then e.sourceSymbol else e.path),
          lex.normalize(if e.sinkSymbol != "" then e.sinkSymbol else p.ruleId),
          lex.normalize(if lex.arrows(e.graphPath) != "" then lex.arrows(e.graphPath)
                        else lex.arrows([e.sourceSymbol, e.sinkSymbol])),
          SemanticKeyOf(lex, p), EquivalenceKeyOf(lex, p))
  }

  function Distance(a: int, b: int): nat {
    if a < b then b - a else a - b
  }

  function WordsOf(lex: Lexicon, p: Profile): set<string> {
    lex.words(p.title, p.vulnerabilityClass, p.category, p.evidence.sinkSymbol)
  }

  predicate IsSameIssue(lex: Lexicon, a: Profile, b: Profile, nearby: int) {
    var keyA, keyB := SemanticKeyOf(lex, a), SemanticKeyOf(lex, b);
    var references, words := a.references * b.references, WordsOf(lex, a) * WordsOf(lex, b);
    if a.evidence.path != b.evidence.path then false
    else if keyA.Some? && keyB.Some? then keyA == keyB
    else if Distance(a.evidence.startLine, b.evidence.startLine) <= nearby then references != {} || words != {}
    else
      && a.evidence.startLine <= b.evidence.endLine && b.evidence.startLine <= a.evidence.endLine
      && (references != {} || |words| >= 2)
  }

  /** Both structural families are known, and they differ. */
  predicate KeysConflict(lex: Lexicon, a: Profile, b: Profile) {
    var keyA, keyB := EquivalenceKeyOf(lex, a), EquivalenceKeyOf(lex, b);
    keyA.Some? && keyB.Some? && keyA != keyB
  }

  predicate InOneCluster(lex: Lexicon, a: Profile, b: Profile) {
    EquivalenceKeyOf(lex, a).Some? && EquivalenceKeyOf(lex, a) == EquivalenceKeyOf(lex, b)
  }

  predicate SameCandidateOrCluster(lex: Lexicon, a: Profile, b: Profile, nearby: int) {
    !KeysConflict(lex, a, b) && (IsSameIssue(lex, a, b, nearby) || InOneCluster(lex, a, b))
  }

  lemma SamenessIsSymmetric(lex: Lexicon, a: Profile, b: Profile, nearby: int)
    ensures SameCandidateOrCluster(lex, a, b, nearby) == SameCandidateOrCluster(lex, b, a, nearby)
    ensures IsSameIssue(lex, a, b, nearby) == IsSameIssue(lex, b, a, nearby)
  {
    assert a.references * b.references == b.references * a.references;
    assert WordsOf(lex, a) * WordsOf(lex, b) == WordsOf(lex, b) * WordsOf(lex, a);
  }

  /** Candidates that are the same issue are kept apart exactly when their structural families are known and differ. */
  lemma SameIssueIsKeptApartIff(lex: Lexicon, a: Profile, b: Profile, nearby: int)
    requires IsSameIssue(lex, a, b, nearby)
    ensures !SameCandidateOrCluster(lex, a, b, nearby) <==> KeysConflict(lex, a, b)
    ensures KeysConflict(lex, a, b) ==> EquivalenceKeyOf(lex, a) != EquivalenceKeyOf(lex, b) && !InOneCluster(lex, a, b)
  {
  }

  /** Reports under different paths are the same only through their structural root and families. */
  lemma AcrossPathsOnlyClustersAgree(lex: Lexicon, a: Profile, b: Profile, nearby: int)
    requires a.evidence.path != b.evidence.path
    ensures SameCandidateOrCluster(lex, a, b, nearby) <==> InOneCluster(lex, a, b)
  {
  }

  // ---------------------------------------------------------------- folding one report into another

  /** Adds the missing items in order while there is room. */
  function AddWithin<T(==)>(limit: nat, kept: seq<T>, extra: seq<T>): (all: seq<T>)
    ensures kept <= all
    decreases extra
  {
    if extra == [] then kept
    else AddWithin(limit, if |kept| < limit && extra[0] !in kept then kept + [extra[0]] else kept, extra[1..])
  }

  /** Nothing is left out while there is room, and nothing else comes in. */
  lemma {:induction false} AddWithinKeeps<T(!new)>(limit: nat, kept: seq<T>, extra: seq<T>)
    ensures var all := AddWithin(limit, kept, extra);
      && (|all| <= limit || all == kept)
      && (forall x :: x in all ==> x in kept || x in extra)
      && (|all| >= limit || forall x :: x in extra ==> x in all)
    decreases extra
  {
    if extra != [] {
      var next := if |kept| < limit && extra[0] !in kept then kept + [extra[0]] else kept;
      AddWithinKeeps(limit, next, extra[1..]);
      assert extra == [extra[0]] + extra[1..];
      assert extra[0] in next || |next| >= limit;
    }
  }

  function SupportFrom(p: Profile): Support {
    var e := p.evidence;
    Support(e.path, e.startLine, e.endLine, if e.graphPath == [] then "" else e.graphPath[|e.graphPath| - 1])
  }

  function NonEmpty(ids: set<string>): set<string> {
    set id | id in ids && id != ""
  }

  /** `kept` after the report `repeat` is folded into it. */
  function Absorbed(limits: Limits, kept: Metadata, repeat: Metadata): Metadata {
    kept.(duplicateReports := kept.duplicateReports + 1,
          taskIds := NonEmpty(kept.taskIds + repeat.taskIds),
          support := AddWithin(limits.support, kept.support, [SupportFrom(repeat.profile)] + repeat.support),
          context := AddWithin(limits.support, kept.context, repeat.context))
  }

  function HypothesisOf(p: Profile): Hypothesis {
    Hypothesis(p.ruleId, p.title, p.vulnerabilityClass, p.rootCause, p.families, p.evidence.path, p.evidence.startLine,
               p.evidence.endLine)
  }

  predicate SameHypothesis(a: Hypothesis, b: Hypothesis) {
    a.rootCause.symbol == b.rootCause.symbol && a.families == b.families && a.path == b.path
    && a.startLine == b.startLine && a.endLine == b.endLine
  }

  function VariantsAfter(limits: Limits, kept: Metadata, repeat: Metadata): seq<Hypothesis> {
    var members := if kept.variants.Some? then kept.variants.value else [HypothesisOf(kept.profile)];
    var hypothesis := HypothesisOf(repeat.profile);
    if (exists h :: h in members && SameHypothesis(h, hypothesis)) || |members| >= limits.variants then members
    else members + [hypothesis]
  }

  /** What folding promises: nothing merged earlier is lost, and the repeat's evidence is there unless the list is full. */
  lemma AbsorbingConserves(limits: Limits, kept: Metadata, repeat: Metadata)
    ensures var after := Absorbed(limits, kept, repeat);
      && after.profile == kept.profile
      && NonEmpty(kept.taskIds) + NonEmpty(repeat.taskIds) == after.taskIds
      && kept.support <= after.support && kept.context <= after.context
      && (|after.support| >= limits.support ||
          (SupportFrom(repeat.profile) in after.support && forall s :: s in repeat.support ==> s in after.support))
      && (|after.context| >= limits.support || forall c :: c in repeat.context ==> c in after.context)
  {
    var extra := [SupportFrom(repeat.profile)] + repeat.support;
    AddWithinKeeps(limits.support, kept.support, extra);
    AddWithinKeeps(limits.support, kept.context, repeat.context);
    assert extra[0] in extra;
    assert forall s :: s in repeat.support ==> s in extra;
  }

  class Candidate {
    const confidence: real
    var metadata: Metadata

    constructor (confidence: real, metadata: Metadata)
      ensures this.confidence == confidence && this.metadata == metadata
    {
      this.confidence := confidence;
      this.metadata := metadata;
    }
  }

  method AppendWithin<T(==)>(limit: nat, kept: seq<T>, extra: seq<T>) returns (all: seq<T>)
    ensures all == AddWithin(limit, kept, extra)
  {
    all := kept;
    for n := 0 to |extra|
      invariant AddWithin(limit, kept, extra) == AddWithin(limit, all, extra[n..])
    {
      assert extra[n..][0] == extra[n] && extra[n..][1..] == extra[n + 1..];
      if |all| < limit && extra[n] !in all {
        all := all + [extra[n]];
      }
    }
    assert extra[|extra|..] == [];
  }

  method Absorb(limits: Limits, kept: Candidate, repeat: Candidate)
    modifies kept
    ensures kept.metadata == Absorbed(limits, old(kept.metadata), old(repeat.metadata))
  {
    var theirs := repeat.metadata;
    kept.metadata := kept.metadata.(duplicateReports := kept.metadata.duplicateReports + 1);
    kept.metadata := kept.metadata.(taskIds := NonEmpty(kept.metadata.taskIds + theirs.taskIds));
    var support := AppendWithin(limits.support, kept.metadata.support, [SupportFrom(theirs.profile)] + theirs.support);
    kept.metadata := kept.metadata.(support := support);
    var context := AppendWithin(limits.support, kept.metadata.context, theirs.context);
    kept.metadata := kept.metadata.(context := context);
  }

  method AbsorbCluster(limits: Limits, kept: Candidate, repeat: Candidate)
    modifies kept
    ensures kept.metadata ==
      Absorbed(limits, old(kept.metadata), old(repeat.metadata)).(
        variants := Some(VariantsAfter(limits, old(kept.metadata), old(repeat.metadata))))
  {
    var members := if kept.metadata.variants.Some? then kept.metadata.variants.value else [HypothesisOf(kept.metadata.profile)];
    var hypothesis := HypothesisOf(repeat.metadata.profile);
    var known := false;
    for n := 0 to |members|
      invariant !known && forall k :: 0 <= k < n ==> !SameHypothesis(members[k], hypothesis)
    {
      if SameHypothesis(members[n], hypothesis) {
        known := true;
        break;
      }
    }
    if !known && |members| < limits.variants {
      members := members + [hypothesis];
    }
    kept.metadata := kept.metadata.(variants := Some(members));
    Absorb(limits, kept, repeat);
  }

  /** Folds `repeat` into `kept`, as a cluster member when both have the same structural root and families. */
  method Fold(lex: Lexicon, limits: Limits, kept: Candidate, repeat: Candidate)
    modifies kept
    ensures kept.metadata == Folded(lex, limits, old(kept.metadata), old(repeat.metadata))
    ensures Outgrows(old(kept.metadata), kept.metadata)
    ensures kept.metadata.taskIds == NonEmpty(old(kept.metadata.taskIds) + old(repeat.metadata.taskIds))
  {
    if InOneCluster(lex, kept.metadata.profile, repeat.metadata.profile) {
      AbsorbCluster(limits, kept, repeat);
    } else {
      Absorb(limits, kept, repeat);
    }
  }

  function Folded(lex: Lexicon, limits: Limits, kept: Metadata, repeat: Metadata): Metadata {
    var after := Absorbed(limits, kept, repeat);
    if InOneCluster(lex, kept.profile, repeat.profile) then after.(variants := Some(VariantsAfter(limits, kept, repeat)))
    else after
  }

  // ---------------------------------------------------------------- deduplicating a scan

  ghost function Snapshot(candidates: seq<Candidate>): map<Candidate, Metadata>
    reads candidates
  {
    map c | c in candidates :: c.metadata
  }

  /** `now` reports what `was` did, with all its task ids and its merged evidence in place. */
  ghost predicate Outgrows(was: Metadata, now: Metadata) {
    && now.profile == was.profile && NonEmpty(was.taskIds) <= now.taskIds
    && was.support <= now.support && was.context <= now.context && was.duplicateReports <= now.duplicateReports
  }

  /** Folding never changes what a candidate reports, and loses nothing merged into it. */
  ghost predicate Grown(before: map<Candidate, Metadata>, candidates: seq<Candidate>)
    reads candidates
  {
    forall c :: c in candidates && c in before ==> Outgrows(before[c], c.metadata)
  }

  /** The report `c` lives on in `kept`: at least as confident, and with all its task ids. */
  ghost predicate LivesIn(before: map<Candidate, Metadata>, c: Candidate, kept: Candidate)
    requires c in before
    reads kept
  {
    kept.confidence >= c.confidence && NonEmpty(before[c].taskIds) <= kept.metadata.taskIds
  }

  /** The distinct elements in order of first appearance. */
  function FirstSeen<T(==)>(s: seq<T>): seq<T> {
    if s == [] then [] else
      var n := |s| - 1;
      var front := FirstSeen(s[..n]);
      if s[n] in front then front else front + [s[n]]
  }

  lemma FirstSeenStep<T>(s: seq<T>, n: nat)
    requires n < |s|
    ensures var front := FirstSeen(s[..n]);
      FirstSeen(s[..n + 1]) == if s[n] in front then front else front + [s[n]]
  {
    assert s[..n + 1][..n] == s[..n];
  }

  lemma {:induction false} FirstSeenIsDistinct<T>(s: seq<T>)
    ensures NoDuplicates(FirstSeen(s)) && |FirstSeen(s)| <= |s|
    ensures forall i :: 0 <= i < |s| ==> s[i] in FirstSeen(s)
  {
    if s != [] {
      FirstSeenIsDistinct(s[..|s| - 1]);
    }
  }

  const NEARBY_LINES := 6

  /** How reports are fingerprinted, and which ones count as the same. */
  datatype Rules = Rules(print_: Profile -> Print, same: (Profile, Profile) -> bool)

  function RulesOf(lex: Lexicon, nearby: int): Rules {
    Rules((p: Profile) => PrintOf(lex, p), (a: Profile, b: Profile) => SameCandidateOrCluster(lex, a, b, nearby))
  }

  ghost predicate IsSymmetric(rules: Rules) {
    forall a: Profile, b: Profile :: rules.same(a, b) == rules.same(b, a)
  }

  ghost function PrintsIn(rules: Rules, before: map<Candidate, Metadata>, candidates: seq<Candidate>): seq<Print>
    requires forall c :: c in candidates ==> c in before
  {
    seq(|candidates|, i requires 0 <= i < |candidates| => rules.print_(before[candidates[i]].profile))
  }

  /** The fingerprint of each report. */
  ghost function PrintTable(rules: Rules, before: map<Candidate, Metadata>): map<Candidate, Print> {
    map c | c in before :: rules.print_(before[c].profile)
  }

  /** `u` is one of the reports done, and has fingerprint `p`. */
  ghost predicate IsKeptFor(prints: map<Candidate, Print>, done: seq<Candidate>, p: Print, u: Candidate) {
    u in done && u in prints && prints[u] == p
  }

  /** The report `c` lives on in the one kept for its fingerprint. */
  ghost predicate LivesByPrint(prints: map<Candidate, Print>, before: map<Candidate, Metadata>, c: Candidate,
                               unique: map<Print, Candidate>)
    reads unique.Values
  {
    c in before && c in prints && prints[c] in unique && LivesIn(before, c, unique[prints[c]])
  }

  /** One report per fingerprint, and every report so far lives on in the one with its fingerprint. */
  ghost predicate FoldedByPrint(prints: map<Candidate, Print>, before: map<Candidate, Metadata>, done: seq<Candidate>,
                                unique: map<Print, Candidate>)
    reads unique.Values
  {
    && (forall p :: p in unique ==> IsKeptFor(prints, done, p, unique[p]))
    && (forall c :: c in done ==> LivesByPrint(prints, before, c, unique))
  }

  /** Keeps the more confident of the two reports, with the other folded into it. */
  method FoldOne(limits: Limits, current: Candidate, c: Candidate) returns (kept: Candidate)
    modifies current, c
    ensures kept == if c.confidence > current.confidence then c else current
    ensures kept.confidence >= c.confidence && kept.confidence >= current.confidence
    ensures Outgrows(old(kept.metadata), kept.metadata)
    ensures kept.metadata.taskIds == NonEmpty(old(current.metadata.taskIds) + old(c.metadata.taskIds))
    ensures kept != c ==> c.metadata == old(c.metadata)
    ensures kept != current ==> current.metadata == old(current.metadata)
  {
    if c.confidence > current.confidence {
      Absorb(limits, c, current);
      assert old(c.metadata.taskIds) + old(current.metadata.taskIds) == old(current.metadata.taskIds) + old(c.metadata.taskIds);
      kept := c;
    } else {
      Absorb(limits, current, c);
      kept := current;
    }
  }

  /** Exact repeats are folded into the most confident report with their fingerprint. */
  method FoldRepeats(rules: Rules, limits: Limits, candidates: seq<Candidate>)
    returns (order: seq<Print>, unique: map<Print, Candidate>)
    modifies candidates
    ensures Grown(old(Snapshot(candidates)), candidates)
    ensures FoldedByPrint(PrintTable(rules, old(Snapshot(candidates))), old(Snapshot(candidates)), candidates, unique)
    ensures order == FirstSeen(PrintsIn(rules, old(Snapshot(candidates)), candidates))
    ensures NoDuplicates(order) && |order| <= |candidates| && forall p :: p in order <==> p in unique
  {
    order, unique := [], map[];
    ghost var before := Snapshot(candidates);
    ghost var table, prints := PrintTable(rules, before), PrintsIn(rules, before, candidates);
    for n := 0 to |candidates|
      invariant Grown(before, candidates)
      invariant FoldedByPrint(table, before, candidates[..n], unique)
      invariant order == FirstSeen(prints[..n])
      invariant forall p :: p in order <==> p in unique
    {
      var p := rules.print_(candidates[n].metadata.profile);
      assert prints[n] == p;
      FirstSeenStep(prints, n);
      unique := FileReport(limits, table, before, candidates, n, unique, p);
      if p !in order {
        order := order + [p];
      }
    }
    assert candidates[..|candidates|] == candidates && prints[..|candidates|] == prints;
    FirstSeenIsDistinct(prints);
  }

  method FileReport(limits: Limits, ghost prints: map<Candidate, Print>, ghost before: map<Candidate, Metadata>,
                    candidates: seq<Candidate>, n: nat, was: map<Print, Candidate>, p: Print)
    returns (unique: map<Print, Candidate>)
    requires n < |candidates|
    requires forall c :: c in candidates ==> c in before && c in prints
    requires Grown(before, candidates) && FoldedByPrint(prints, before, candidates[..n], was)
    requires prints[candidates[n]] == p
    modifies candidates
    ensures Grown(before, candidates) && FoldedByPrint(prints, before, candidates[..n + 1], unique)
    ensures unique.Keys == was.Keys + {p}
  {
    var c := candidates[n];
    assert candidates[..n + 1] == candidates[..n] + [c];
    if p !in was {
      unique := was[p := c];
    } else {
      assert IsKeptFor(prints, candidates[..n], p, was[p]);
      var kept := FoldOne(limits, was[p], c);
      unique := was[p := kept];
    }
    forall q | q in unique
      ensures IsKeptFor(prints, candidates[..n + 1], q, unique[q])
    {
      assert q in was ==> IsKeptFor(prints, candidates[..n], q, was[q]);
    }
    forall d | d in candidates[..n + 1]
      ensures LivesByPrint(prints, before, d, unique)
    {
      if d in candidates[..n] {
        assert old(LivesByPrint(prints, before, d, was));
        assert IsKeptFor(prints, candidates[..n], prints[d], was[prints[d]]);
      }
    }
  }

  // ---------------------------------------------------------------- clustering

  /** The report at `k` lives on in the one at `h`, which is itself or one of the same candidate or cluster. */
  ghost predicate HasHome(same: (Profile, Profile) -> bool, before: map<Candidate, Metadata>, reports: seq<Candidate>,
                          h: nat, k: nat)
    reads reports
  {
    && h < |reports| && k < |reports| && reports[h] in before && reports[k] in before
    && LivesIn(before, reports[k], reports[h])
    && (h == k || same(before[reports[h]].profile, before[reports[k]].profile))
  }

  ghost predicate IsHoused(same: (Profile, Profile) -> bool, before: map<Candidate, Metadata>, reports: seq<Candidate>,
                           kept: seq<nat>, k: nat)
    reads reports
  {
    exists h :: h in kept && HasHome(same, before, reports, h, k)
  }

  ghost predicate Apart(same: (Profile, Profile) -> bool, before: map<Candidate, Metadata>, reports: seq<Candidate>, kept: seq<nat>)
  {
    forall a, b :: 0 <= a < b < |kept| ==> AreApart(same, before, reports, kept[a], kept[b])
  }

  ghost predicate AreApart(same: (Profile, Profile) -> bool, before: map<Candidate, Metadata>, reports: seq<Candidate>,
                           h: nat, k: nat)
  {
    && h < |reports| && k < |reports| && reports[h] in before && reports[k] in before
    && h != k && !same(before[reports[h]].profile, before[reports[k]].profile)
  }

  /** Every home on record is kept, still a home, and the first that could be one. */
  ghost predicate AllHoused(same: (Profile, Profile) -> bool, before: map<Candidate, Metadata>, reports: seq<Candidate>,
                            kept: seq<nat>, homes: map<nat, nat>)
    reads reports
  {
    && (forall k :: k in homes ==> homes[k] in kept && HasHome(same, before, reports, homes[k], k))
    && (forall k :: k in homes ==> IsFirstMatch(same, before, reports, kept, homes[k], k))
  }

  /** The report at `h` goes before the one at `k`, which repeats it. */
  ghost predicate IsRepeated(same: (Profile, Profile) -> bool, before: map<Candidate, Metadata>, reports: seq<Candidate>,
                             h: nat, k: nat)
  {
    && Precedes(reports, h, k) && reports[h] in before && reports[k] in before
    && same(before[reports[h]].profile, before[reports[k]].profile)
  }

  /** `h` is the first kept report that the one at `k` repeats, or `k` itself when it repeats none. */
  ghost predicate IsFirstMatch(same: (Profile, Profile) -> bool, before: map<Candidate, Metadata>, reports: seq<Candidate>,
                               kept: seq<nat>, h: nat, k: nat)
  {
    && (h != k ==> IsRepeated(same, before, reports, h, k))
    && forall i :: i in kept && IsRepeated(same, before, reports, i, k) ==> h != k && (i == h || Precedes(reports, h, i))
  }

  /** Keeping a later report changes no earlier home. */
  lemma LaterKeepsFirstMatches(same: (Profile, Profile) -> bool, before: map<Candidate, Metadata>, reports: seq<Candidate>,
                               kept: seq<nat>, homes: map<nat, nat>, k: nat)
    requires forall j :: j in homes ==> IsFirstMatch(same, before, reports, kept, homes[j], j) && Precedes(reports, j, k)
    ensures forall j :: j in homes ==> IsFirstMatch(same, before, reports, kept + [k], homes[j], j)
  {
  }

  lemma KeepingStaysApart(same: (Profile, Profile) -> bool, before: map<Candidate, Metadata>, reports: seq<Candidate>,
                          kept: seq<nat>, k: nat)
    requires Apart(same, before, reports, kept) && k < |reports| && reports[k] in before
    requires forall i :: 0 <= i < |kept| ==> AreApart(same, before, reports, kept[i], k)
    ensures Apart(same, before, reports, kept + [k])
  {
  }

  function Confidences(reports: seq<Candidate>): seq<real> {
    seq(|reports|, i requires 0 <= i < |reports| => reports[i].confidence)
  }

  function At(confidences: seq<real>, i: nat): real {
    if i < |confidences| then confidences[i] else 0.0
  }

  /** More confident reports go first; among equals the one that was first seen. */
  ghost predicate Precedes(reports: seq<Candidate>, h: nat, k: nat) {
    && h < |reports| && k < |reports|
    && (reports[h].confidence > reports[k].confidence || (reports[h].confidence == reports[k].confidence && h < k))
  }

  ghost predicate AllPrecede(reports: seq<Candidate>, earlier: set<nat>, k: nat) {
    forall j :: j in earlier ==> Precedes(reports, j, k)
  }

  ghost predicate KeptPrecede(reports: seq<Candidate>, kept: seq<nat>, k: nat) {
    forall i :: 0 <= i < |kept| ==> kept[i] != k && Precedes(reports, kept[i], k)
  }

  ghost predicate Descends(reports: seq<Candidate>, positions: seq<nat>) {
    forall i, j :: 0 <= i < j < |positions| ==> Precedes(reports, positions[i], positions[j])
  }

  /** Positions in order of falling confidence. */
  method ByConfidence(reports: seq<Candidate>) returns (positions: seq<nat>)
    ensures forall i: nat :: i in positions <==> i < |reports|
    ensures NoDuplicates(positions)
    ensures Descends(reports, positions)
  {
    var confidences := Confidences(reports);
    var before := (i: nat, j: nat) =>
      At(confidences, i) > At(confidences, j) || (At(confidences, i) == At(confidences, j) && i <= j);
    positions := Sort(Range(|reports|), before);
    PermutationKeepsDistinct(Range(|reports|), positions);
    forall i, j | 0 <= i < j < |positions|
      ensures Precedes(reports, positions[i], positions[j])
    {
      assert positions[i] in positions && positions[j] in positions;
      assert before(positions[i], positions[j]) && positions[i] != positions[j];
    }
  }

  /** The kept report at position `i` of the list is the first that the one at `k` is the same as. */
  ghost predicate IsFirstAt(same: (Profile, Profile) -> bool, reports: seq<Candidate>, kept: seq<nat>, k: nat, i: nat)
    reads reports
    requires k < |reports| && forall i :: 0 <= i < |kept| ==> kept[i] < |reports|
  {
    && i < |kept| && same(reports[kept[i]].metadata.profile, reports[k].metadata.profile)
    && forall j :: 0 <= j < i ==> !same(reports[kept[j]].metadata.profile, reports[k].metadata.profile)
  }

  ghost predicate IsFirstKept(same: (Profile, Profile) -> bool, reports: seq<Candidate>, kept: seq<nat>, k: nat, h: nat)
    reads reports
    requires k < |reports| && forall i :: 0 <= i < |kept| ==> kept[i] < |reports|
  {
    exists i: nat :: IsFirstAt(same, reports, kept, k, i) && kept[i] == h
  }

  method FindKept(same: (Profile, Profile) -> bool, reports: seq<Candidate>, kept: seq<nat>, k: nat) returns (at: Option<nat>)
    requires k < |reports| && forall i :: 0 <= i < |kept| ==> kept[i] < |reports|
    ensures at.Some? ==> IsFirstKept(same, reports, kept, k, at.value)
    ensures at.None? ==>
      forall i :: 0 <= i < |kept| ==> !same(reports[kept[i]].metadata.profile, reports[k].metadata.profile)
  {
    for i := 0 to |kept|
      invariant forall j :: 0 <= j < i ==> !same(reports[kept[j]].metadata.profile, reports[k].metadata.profile)
    {
      if same(reports[kept[i]].metadata.profile, reports[k].metadata.profile) {
        assert IsFirstAt(same, reports, kept, k, i);
        return Some(kept[i]);
      }
    }
    at := None;
  }

  /** Each report, by falling confidence, is kept or folded into the first kept one that it repeats. */
  method ClusterReports(lex: Lexicon, limits: Limits, same: (Profile, Profile) -> bool, reports: seq<Candidate>)
    returns (kept: seq<nat>, ghost homes: map<nat, nat>)
    requires NoDuplicates(reports)
    modifies reports
    ensures Grown(old(Snapshot(reports)), reports)
    ensures Apart(same, old(Snapshot(reports)), reports, kept)
    ensures NoDuplicates(kept) && forall h :: h in kept ==> h < |reports|
    ensures forall k: nat :: k < |reports| ==> IsHoused(same, old(Snapshot(reports)), reports, kept, k)
    ensures AllHoused(same, old(Snapshot(reports)), reports, kept, homes) && forall k: nat :: k in homes <==> k < |reports|
    ensures Descends(reports, kept) && forall k :: k in kept <==> k in homes && homes[k] == k
  {
    ghost var before := Snapshot(reports);
    var positions := ByConfidence(reports);
    kept, homes := [], map[];
    for n := 0 to |positions|
      invariant IsClustered(same, before, reports, positions, n, kept, homes)
    {
      assert positions[n] in positions;
      kept, homes := ClusterNext(lex, limits, same, before, reports, positions, n, kept, homes);
    }
    TakenFromAreDistinct(same, before, reports, positions, kept);
    HomesHouseAll(same, before, reports, positions, kept, homes);
    forall k | k in kept
      ensures homes[k] == k
    {
      KeptIsAtHome(same, before, reports, kept, homes[k], k);
    }
  }

  /** The first `n` positions have been kept or folded. */
  ghost predicate IsClustered(same: (Profile, Profile) -> bool, before: map<Candidate, Metadata>, reports: seq<Candidate>,
                              positions: seq<nat>, n: nat, kept: seq<nat>, homes: map<nat, nat>)
    reads reports
  {
    && Grown(before, reports) && TakenFrom(positions, kept, n) && Apart(same, before, reports, kept) && Descends(reports, kept)
    && homes.Keys == Firsts(positions, n) && AllHoused(same, before, reports, kept, homes)
  }

  method ClusterNext(lex: Lexicon, limits: Limits, same: (Profile, Profile) -> bool, ghost before: map<Candidate, Metadata>,
                     reports: seq<Candidate>, positions: seq<nat>, n: nat, kept: seq<nat>, ghost homes: map<nat, nat>)
    returns (next: seq<nat>, ghost after: map<nat, nat>)
    requires NoDuplicates(reports) && forall c :: c in reports ==> c in before
    requires NoDuplicates(positions) && n < |positions| && Descends(reports, positions) && positions[n] < |reports|
    requires IsClustered(same, before, reports, positions, n, kept, homes)
    modifies reports
    ensures IsClustered(same, before, reports, positions, n + 1, next, after)
  {
    KeptComeBefore(reports, positions, n, kept);
    next, after := ClusterOne(lex, limits, same, before, reports, kept, positions[n], homes);
    assert Firsts(positions, n + 1) == Firsts(positions, n) + {positions[n]};
  }

  /** The first `n` positions. */
  ghost function Firsts(positions: seq<nat>, n: nat): set<nat> {
    set i: nat | i < n && i < |positions| :: positions[i]
  }

  /** The kept positions are among the first `n`. */
  ghost predicate TakenFrom(positions: seq<nat>, kept: seq<nat>, n: nat) {
    forall i :: 0 <= i < |kept| ==> IsAmong(positions, n, kept[i])
  }

  ghost predicate IsAmong(positions: seq<nat>, n: nat, h: nat) {
    exists j :: 0 <= j < n && j < |positions| && positions[j] == h
  }

  lemma TakenFromAreDistinct(same: (Profile, Profile) -> bool, before: map<Candidate, Metadata>, reports: seq<Candidate>,
                             positions: seq<nat>, kept: seq<nat>)
    requires TakenFrom(positions, kept, |positions|) && Apart(same, before, reports, kept)
    requires forall i: nat :: i in positions <==> i < |reports|
    ensures NoDuplicates(kept) && forall h :: h in kept ==> h < |reports|
  {
    forall i, j | 0 <= i < j < |kept|
      ensures kept[i] != kept[j]
    {
      assert AreApart(same, before, reports, kept[i], kept[j]);
    }
    forall i | 0 <= i < |kept|
      ensures kept[i] < |reports|
    {
      assert IsAmong(positions, |positions|, kept[i]);
      assert kept[i] in positions;
    }
  }

  /** What was kept so far goes before position `n`, and stays among the first once that is decided. */
  lemma KeptComeBefore(reports: seq<Candidate>, positions: seq<nat>, n: nat, kept: seq<nat>)
    requires NoDuplicates(positions) && n < |positions| && Descends(reports, positions) && TakenFrom(positions, kept, n)
    ensures KeptPrecede(reports, kept, positions[n])
    ensures TakenFrom(positions, kept, n + 1) && TakenFrom(positions, kept + [positions[n]], n + 1)
    ensures AllPrecede(reports, Firsts(positions, n), positions[n])
  {
    var grown, next := kept + [positions[n]], n + 1;
    forall i | 0 <= i < |kept|
      ensures kept[i] != positions[n] && Precedes(reports, kept[i], positions[n]) && IsAmong(positions, next, kept[i])
    {
      assert IsAmong(positions, n, kept[i]);
      var j :| 0 <= j < n && positions[j] == kept[i];
      assert Precedes(reports, positions[j], positions[n]);
    }
    assert IsAmong(positions, next, positions[n]);
    forall i | 0 <= i < |grown|
      ensures IsAmong(positions, next, grown[i])
    {
    }
  }

  lemma HomesHouseAll(same: (Profile, Profile) -> bool, before: map<Candidate, Metadata>, reports: seq<Candidate>,
                      positions: seq<nat>, kept: seq<nat>, homes: map<nat, nat>)
    requires AllHoused(same, before, reports, kept, homes)
    requires forall i: nat :: i in positions <==> i < |reports|
    requires homes.Keys == Firsts(positions, |positions|)
    ensures forall k: nat :: k < |reports| ==> IsHoused(same, before, reports, kept, k)
    ensures forall k: nat :: k in homes <==> k < |reports|
  {
    forall k: nat
      ensures k in homes <==> k < |reports|
    {
      assert k in homes <==> k in positions;
    }
    forall k: nat | k < |reports|
      ensures IsHoused(same, before, reports, kept, k)
    {
      assert homes[k] in kept && HasHome(same, before, reports, homes[k], k);
    }
  }

  lemma KeptIsAtHome(same: (Profile, Profile) -> bool, before: map<Candidate, Metadata>, reports: seq<Candidate>,
                     kept: seq<nat>, h: nat, k: nat)
    requires Apart(same, before, reports, kept) && Descends(reports, kept)
    requires h in kept && k in kept && IsFirstMatch(same, before, reports, kept, h, k)
    ensures h == k
  {
    var a :| 0 <= a < |kept| && kept[a] == h;
    var b :| 0 <= b < |kept| && kept[b] == k;
    assert a < b ==> AreApart(same, before, reports, kept[a], kept[b]);
    assert b < a ==> Precedes(reports, kept[b], kept[a]);
  }

  /** A report that repeats no kept one is kept. */
  lemma KeepOne(same: (Profile, Profile) -> bool, before: map<Candidate, Metadata>, reports: seq<Candidate>,
                kept: seq<nat>, k: nat, homes: map<nat, nat>)
    requires k < |reports| && Grown(before, reports) && forall c :: c in reports ==> c in before
    requires Apart(same, before, reports, kept) && AllHoused(same, before, reports, kept, homes) && Descends(reports, kept)
    requires KeptPrecede(reports, kept, k) && AllPrecede(reports, homes.Keys, k)
    requires forall i :: 0 <= i < |kept| ==> !same(reports[kept[i]].metadata.profile, reports[k].metadata.profile)
    ensures Apart(same, before, reports, kept + [k]) && Descends(reports, kept + [k])
    ensures AllHoused(same, before, reports, kept + [k], homes[k := k])
  {
    assert reports[k] in reports;
    forall i | 0 <= i < |kept|
      ensures AreApart(same, before, reports, kept[i], k)
    {
      assert reports[kept[i]] in reports;
    }
    KeepingStaysApart(same, before, reports, kept, k);
    LaterKeepsFirstMatches(same, before, reports, kept, homes, k);
    assert HasHome(same, before, reports, k, k);
  }

  lemma FirstKeptMatches(same: (Profile, Profile) -> bool, before: map<Candidate, Metadata>, reports: seq<Candidate>,
                         kept: seq<nat>, h: nat, k: nat)
    requires k < |reports| && Grown(before, reports) && Descends(reports, kept) && forall c :: c in reports ==> c in before
    requires forall i :: 0 <= i < |kept| ==> kept[i] < |reports| && Precedes(reports, kept[i], k)
    requires IsFirstKept(same, reports, kept, k, h)
    ensures h in kept && h < |reports| && h != k && same(reports[h].metadata.profile, reports[k].metadata.profile)
    ensures IsFirstMatch(same, before, reports, kept, h, k)
  {
    var i: nat :| IsFirstAt(same, reports, kept, k, i) && kept[i] == h;
    assert reports[h] in reports && reports[k] in reports;
    forall g | g in kept && IsRepeated(same, before, reports, g, k)
      ensures g == h || Precedes(reports, h, g)
    {
      var j :| 0 <= j < |kept| && kept[j] == g;
      assert reports[g] in reports;
      assert j > i ==> Precedes(reports, kept[i], kept[j]);
    }
  }

  /** Keeps the report at `k`, or folds it into the first kept one that it repeats. */
  method ClusterOne(lex: Lexicon, limits: Limits, same: (Profile, Profile) -> bool, ghost before: map<Candidate, Metadata>,
                    reports: seq<Candidate>, kept: seq<nat>, k: nat, ghost homes: map<nat, nat>)
    returns (next: seq<nat>, ghost after: map<nat, nat>)
    requires NoDuplicates(reports) && k < |reports| && forall c :: c in reports ==> c in before
    requires Grown(before, reports) && Apart(same, before, reports, kept)
    requires AllHoused(same, before, reports, kept, homes) && Descends(reports, kept)
    requires KeptPrecede(reports, kept, k) && AllPrecede(reports, homes.Keys, k)
    modifies reports
    ensures Grown(before, reports) && Apart(same, before, reports, next)
    ensures AllHoused(same, before, reports, next, after) && after.Keys == homes.Keys + {k}
    ensures (next == kept || next == kept + [k]) && Descends(reports, next)
  {
    assert reports[k] in reports;
    var at := FindKept(same, reports, kept, k);
    if at.None? {
      KeepOne(same, before, reports, kept, k, homes);
      next, after := kept + [k], homes[k := k];
    } else {
      FirstKeptMatches(same, before, reports, kept, at.value, k);
      MergeInto(lex, limits, same, before, reports, at.value, k, homes);
      next, after := kept, homes[k := at.value];
    }
  }

  method MergeInto(lex: Lexicon, limits: Limits, same: (Profile, Profile) -> bool, ghost before: map<Candidate, Metadata>,
                   reports: seq<Candidate>, h: nat, k: nat, ghost homes: map<nat, nat>)
    requires NoDuplicates(reports) && h < |reports| && k < |reports| && h != k
    requires forall c :: c in reports ==> c in before
    requires Grown(before, reports)
    requires reports[h].confidence >= reports[k].confidence
    requires same(reports[h].metadata.profile, reports[k].metadata.profile)
    requires forall j :: j in homes ==> HasHome(same, before, reports, homes[j], j)
    modifies reports
    ensures Grown(before, reports)
    ensures forall j :: j in homes ==> HasHome(same, before, reports, homes[j], j)
    ensures HasHome(same, before, reports, h, k)
  {
    assert reports[h] in reports && reports[k] in reports;
    Fold(lex, limits, reports[h], reports[k]);
    assert Grown(before, reports);
    forall j | j in homes
      ensures HasHome(same, before, reports, homes[j], j)
    {
      assert old(HasHome(same, before, reports, homes[j], j));
      assert reports[homes[j]] in reports;
    }
  }

  // ---------------------------------------------------------------- the whole pass

  /** `r` is a report with the fingerprint of `c`, and was kept as `k` or counted as the same candidate or cluster. */
  ghost predicate StandsFor(rules: Rules, before: map<Candidate, Metadata>, c: Candidate, r: Candidate, k: Candidate) {
    && c in before && r in before && k in before
    && rules.print_(before[r].profile) == rules.print_(before[c].profile)
    && (r == k || rules.same(before[k].profile, before[r].profile))
  }

  /** The report `c` is kept as `k`, or folded into it for one of the two reasons the source has. */
  ghost predicate SurvivesIn(rules: Rules, before: map<Candidate, Metadata>, candidates: seq<Candidate>, c: Candidate,
                             k: Candidate)
    reads k
  {
    c in before && LivesIn(before, c, k) && exists r :: r in candidates && StandsFor(rules, before, c, r, k)
  }

  ghost predicate Survives(rules: Rules, before: map<Candidate, Metadata>, candidates: seq<Candidate>, kept: seq<Candidate>,
                           c: Candidate)
    reads kept
  {
    exists k :: k in kept && SurvivesIn(rules, before, candidates, c, k)
  }

  ghost predicate AllSurvive(rules: Rules, before: map<Candidate, Metadata>, candidates: seq<Candidate>, kept: seq<Candidate>)
    reads kept
  {
    forall c {:trigger Survives(rules, before, candidates, kept, c)} :: c in candidates ==>
      Survives(rules, before, candidates, kept, c)
  }

  ghost predicate Separate(rules: Rules, before: map<Candidate, Metadata>, kept: seq<Candidate>) {
    forall i, j :: 0 <= i < j < |kept| ==> AreSeparate(rules, before, kept[i], kept[j])
  }

  ghost predicate AreSeparate(rules: Rules, before: map<Candidate, Metadata>, a: Candidate, b: Candidate) {
    && a in before && b in before && a != b
    && !rules.same(before[a].profile, before[b].profile)
  }

  ghost predicate Increasing(s: seq<nat>) {
    forall i, j :: 0 <= i < j < |s| ==> s[i] < s[j]
  }

  /** The reports come in the order in which their fingerprints first appeared. */
  ghost predicate InFirstSeenOrder(rules: Rules, before: map<Candidate, Metadata>, seen: seq<Print>, kept: seq<Candidate>,
                                   positions: seq<nat>)
  {
    && |positions| == |kept| && Increasing(positions)
    && forall i :: 0 <= i < |kept| ==> IsAtPrint(rules, before, seen, kept[i], positions[i])
  }

  ghost predicate IsAtPrint(rules: Rules, before: map<Candidate, Metadata>, seen: seq<Print>, c: Candidate, p: nat) {
    p < |seen| && c in before && rules.print_(before[c].profile) == seen[p]
  }

  lemma PositionsFit(positions: seq<nat>, n: nat)
    requires Increasing(positions) && forall i :: 0 <= i < |positions| ==> positions[i] < n
    ensures |positions| <= n
  {
    if |positions| > 0 {
      IncreasingGrows(positions, |positions| - 1);
    }
  }

  lemma {:induction false} IncreasingGrows(positions: seq<nat>, i: nat)
    requires Increasing(positions) && i < |positions|
    ensures positions[i] >= i
  {
    if i > 0 {
      IncreasingGrows(positions, i - 1);
    }
  }

  lemma RulesAreSymmetric(lex: Lexicon)
    ensures IsSymmetric(RulesOf(lex, NEARBY_LINES))
  {
    forall a: Profile, b: Profile {
      SamenessIsSymmetric(lex, a, b, NEARBY_LINES);
    }
  }

  /**
    Every report survives in a kept one that is at least as confident and carries its task ids; no two kept reports are
    the same candidate or cluster; and the count is what was folded away.
   */
  method Deduplicate(lex: Lexicon, limits: Limits, candidates: seq<Candidate>)
    returns (kept: seq<Candidate>, folded: nat, ghost positions: seq<nat>)
    modifies candidates
    ensures Grown(old(Snapshot(candidates)), candidates)
    ensures folded == |candidates| - |kept| && forall k :: k in kept ==> k in candidates
    ensures Separate(RulesOf(lex, NEARBY_LINES), old(Snapshot(candidates)), kept)
    ensures AllSurvive(RulesOf(lex, NEARBY_LINES), old(Snapshot(candidates)), candidates, kept)
    ensures InFirstSeenOrder(RulesOf(lex, NEARBY_LINES), old(Snapshot(candidates)),
                             FirstSeen(PrintsIn(RulesOf(lex, NEARBY_LINES), old(Snapshot(candidates)), candidates)),
                             kept, positions)
  {
    RulesAreSymmetric(lex);
    kept, folded, positions := DeduplicateBy(lex, RulesOf(lex, NEARBY_LINES), limits, candidates);
  }

  method DeduplicateBy(lex: Lexicon, rules: Rules, limits: Limits, candidates: seq<Candidate>)
    returns (kept: seq<Candidate>, folded: nat, ghost positions: seq<nat>)
    requires IsSymmetric(rules)
    modifies candidates
    ensures Grown(old(Snapshot(candidates)), candidates)
    ensures folded == |candidates| - |kept| && forall k :: k in kept ==> k in candidates
    ensures Separate(rules, old(Snapshot(candidates)), kept)
    ensures AllSurvive(rules, old(Snapshot(candidates)), candidates, kept)
    ensures InFirstSeenOrder(rules, old(Snapshot(candidates)),
                             FirstSeen(PrintsIn(rules, old(Snapshot(candidates)), candidates)), kept, positions)
  {
    ghost var before := Snapshot(candidates);
    var order, unique := FoldRepeats(rules, limits, candidates);
    kept, positions := ClusterUnique(lex, rules, limits, before, candidates, order, unique);
    folded := |candidates| - |kept|;
  }

  /** The second half of the pass, on one report per fingerprint. */
  method ClusterUnique(lex: Lexicon, rules: Rules, limits: Limits, ghost before: map<Candidate, Metadata>, ghost candidates: seq<Candidate>,
                       order: seq<Print>, unique: map<Print, Candidate>)
    returns (kept: seq<Candidate>, positions: seq<nat>)
    requires IsSymmetric(rules) && (forall c :: c in candidates ==> c in before) && Grown(before, candidates)
    requires FoldedByPrint(PrintTable(rules, before), before, candidates, unique)
    requires NoDuplicates(order) && forall p :: p in order <==> p in unique
    modifies candidates
    ensures Grown(before, candidates)
    ensures forall k :: k in kept ==> k in candidates
    ensures Separate(rules, before, kept)
    ensures AllSurvive(rules, before, candidates, kept)
    ensures InFirstSeenOrder(rules, before, order, kept, positions) && |kept| <= |order|
  {
    ghost var table := PrintTable(rules, before);
    var reports := ReportsOf(order, unique);
    ReportsAreKept(table, candidates, order, unique, reports);
    ghost var middle := Snapshot(reports);
    forall c | c in candidates
      ensures IsCarried(table, before, middle, order, reports, c)
    {
      CarriedByPrint(table, before, middle, order, unique, reports, c);
    }
    var clustered := ClusterFrom(lex, limits, rules, before, candidates, reports);
    kept, positions := OrderKept(reports, clustered);
    KeptAreSeparate(rules, before, middle, reports, clustered, positions, kept);
    KeptAreInOrder(rules, before, candidates, order, reports, positions, kept);
    assert IsSettled(rules, before, table, middle, candidates, order, reports, clustered, positions, kept);
    forall c | c in candidates
      ensures Survives(rules, before, candidates, kept, c)
    {
      EveryReportSurvives(rules, before, table, middle, candidates, order, reports, clustered, positions, kept, c);
    }
  }

  /** Clustering the chosen reports keeps what every report had grown to. */
  method ClusterFrom(lex: Lexicon, limits: Limits, rules: Rules, ghost before: map<Candidate, Metadata>,
                     ghost candidates: seq<Candidate>, reports: seq<Candidate>)
    returns (clustered: seq<nat>)
    requires NoDuplicates(reports) && forall r :: r in reports ==> r in candidates
    requires (forall c :: c in candidates ==> c in before) && Grown(before, candidates)
    modifies reports
    ensures Grown(before, candidates) && SameProfiles(before, old(Snapshot(reports)), reports)
    ensures Apart(rules.same, old(Snapshot(reports)), reports, clustered)
    ensures NoDuplicates(clustered) && forall h :: h in clustered ==> h < |reports|
    ensures forall k: nat :: k < |reports| ==> IsHoused(rules.same, old(Snapshot(reports)), reports, clustered, k)
  {
    ghost var middle := Snapshot(reports);
    assert forall r :: r in reports ==> Outgrows(before[r], middle[r]);
    ghost var homes;
    clustered, homes := ClusterReports(lex, limits, rules.same, reports);
    forall c | c in candidates
      ensures Outgrows(before[c], c.metadata)
    {
      if c !in reports {
        assert c.metadata == old(c.metadata);
      } else {
        assert Outgrows(before[c], middle[c]) && Outgrows(middle[c], c.metadata);
      }
    }
  }

  lemma KeptAreInOrder(rules: Rules, before: map<Candidate, Metadata>, candidates: seq<Candidate>, order: seq<Print>,
                       reports: seq<Candidate>, positions: seq<nat>, kept: seq<Candidate>)
    requires |reports| == |order|
    requires forall i :: 0 <= i < |order| ==> IsKeptFor(PrintTable(rules, before), candidates, order[i], reports[i])
    requires Increasing(positions) && |kept| == |positions|
    requires forall i :: 0 <= i < |positions| ==> positions[i] < |reports| && kept[i] == reports[positions[i]]
    ensures InFirstSeenOrder(rules, before, order, kept, positions)
    ensures forall k :: k in kept ==> k in candidates
  {
    forall i | 0 <= i < |kept|
      ensures kept[i] in candidates && IsAtPrint(rules, before, order, kept[i], positions[i])
    {
      assert IsKeptFor(PrintTable(rules, before), candidates, order[positions[i]], reports[positions[i]]);
    }
  }

  /** Where the pass stands after clustering. */
  ghost predicate IsSettled(rules: Rules, before: map<Candidate, Metadata>, table: map<Candidate, Print>,
                            middle: map<Candidate, Metadata>, candidates: seq<Candidate>, order: seq<Print>,
                            reports: seq<Candidate>, clustered: seq<nat>, positions: seq<nat>, kept: seq<Candidate>)
    reads reports
  {
    && table == PrintTable(rules, before) && SameProfiles(before, middle, reports) && |reports| == |order|
    && (forall i :: 0 <= i < |order| ==> IsKeptFor(table, candidates, order[i], reports[i]))
    && (forall k: nat :: k < |reports| ==> IsHoused(rules.same, middle, reports, clustered, k))
    && |kept| == |positions| && (forall h :: h in positions <==> h in clustered)
    && (forall i :: 0 <= i < |positions| ==> positions[i] < |reports| && kept[i] == reports[positions[i]])
  }

  /** The report `c` is carried by the one kept for its fingerprint. */
  ghost predicate IsCarried(prints: map<Candidate, Print>, before: map<Candidate, Metadata>, middle: map<Candidate, Metadata>,
                            order: seq<Print>, reports: seq<Candidate>, c: Candidate)
  {
    exists i :: 0 <= i < |order| && i < |reports| && CarriesAt(prints, before, middle, order[i], reports[i], c)
  }

  ghost predicate CarriesAt(prints: map<Candidate, Print>, before: map<Candidate, Metadata>, middle: map<Candidate, Metadata>,
                            p: Print, u: Candidate, c: Candidate)
  {
    && c in before && c in prints && u in middle && prints[c] == p
    && u.confidence >= c.confidence && NonEmpty(before[c].taskIds) <= middle[u].taskIds
  }

  lemma CarriedByPrint(prints: map<Candidate, Print>, before: map<Candidate, Metadata>, middle: map<Candidate, Metadata>,
                       order: seq<Print>, unique: map<Print, Candidate>, reports: seq<Candidate>, c: Candidate)
    requires middle == Snapshot(reports) && LivesByPrint(prints, before, c, unique)
    requires forall p :: p in order <==> p in unique
    requires |reports| == |order| && forall i :: 0 <= i < |order| ==> reports[i] == unique[order[i]]
    ensures IsCarried(prints, before, middle, order, reports, c)
  {
    var i :| 0 <= i < |order| && order[i] == prints[c];
    assert reports[i] in reports;
    assert CarriesAt(prints, before, middle, order[i], reports[i], c);
  }

  lemma ReportsAreKept(prints: map<Candidate, Print>, candidates: seq<Candidate>, order: seq<Print>,
                       unique: map<Print, Candidate>, reports: seq<Candidate>)
    requires forall p :: p in unique ==> IsKeptFor(prints, candidates, p, unique[p])
    requires NoDuplicates(order) && forall p :: p in order <==> p in unique
    requires |reports| == |order| && forall i :: 0 <= i < |order| ==> reports[i] == unique[order[i]]
    ensures NoDuplicates(reports) && forall i :: 0 <= i < |order| ==> IsKeptFor(prints, candidates, order[i], reports[i])
    ensures forall r :: r in reports ==> r in candidates
  {
    forall i | 0 <= i < |order|
      ensures IsKeptFor(prints, candidates, order[i], reports[i])
    {
      assert order[i] in order;
    }
  }

  ghost predicate SameProfiles(before: map<Candidate, Metadata>, middle: map<Candidate, Metadata>, reports: seq<Candidate>) {
    forall r :: r in reports ==> r in before && r in middle && before[r].profile == middle[r].profile
  }

  method OrderKept(reports: seq<Candidate>, clustered: seq<nat>) returns (kept: seq<Candidate>, positions: seq<nat>)
    requires NoDuplicates(clustered) && forall h :: h in clustered ==> h < |reports|
    ensures Increasing(positions) && forall h :: h in positions <==> h in clustered
    ensures |kept| == |positions| <= |reports|
    ensures forall i :: 0 <= i < |positions| ==> positions[i] < |reports| && kept[i] == reports[positions[i]]
  {
    positions := Sort(clustered, (i: nat, j: nat) => i <= j);
    PermutationKeepsDistinct(clustered, positions);
    kept := [];
    for i := 0 to |positions|
      invariant |kept| == i
      invariant forall j :: 0 <= j < i ==> positions[j] < |reports| && kept[j] == reports[positions[j]]
    {
      assert positions[i] in positions;
      kept := kept + [reports[positions[i]]];
    }
    assert forall i :: 0 <= i < |positions| ==> positions[i] in positions;
    PositionsFit(positions, |reports|);
  }

  lemma KeptAreSeparate(rules: Rules, before: map<Candidate, Metadata>, middle: map<Candidate, Metadata>,
                        reports: seq<Candidate>, clustered: seq<nat>, positions: seq<nat>, kept: seq<Candidate>)
    requires IsSymmetric(rules) && NoDuplicates(reports) && SameProfiles(before, middle, reports)
    requires Apart(rules.same, middle, reports, clustered)
    requires Increasing(positions) && |kept| == |positions| && forall h :: h in positions ==> h in clustered
    requires forall i :: 0 <= i < |positions| ==> positions[i] < |reports| && kept[i] == reports[positions[i]]
    ensures Separate(rules, before, kept)
  {
    forall i, j | 0 <= i < j < |kept|
      ensures AreSeparate(rules, before, kept[i], kept[j])
    {
      assert positions[i] in positions && positions[j] in positions;
      var a :| 0 <= a < |clustered| && clustered[a] == positions[i];
      var b :| 0 <= b < |clustered| && clustered[b] == positions[j];
      assert kept[i] in reports && kept[j] in reports;
      if a < b {
        assert AreApart(rules.same, middle, reports, clustered[a], clustered[b]);
      } else {
        assert AreApart(rules.same, middle, reports, clustered[b], clustered[a]);
        assert rules.same(before[kept[i]].profile, before[kept[j]].profile) ==
               rules.same(before[kept[j]].profile, before[kept[i]].profile);
      }
    }
  }

  lemma EveryReportSurvives(rules: Rules, before: map<Candidate, Metadata>, table: map<Candidate, Print>,
                            middle: map<Candidate, Metadata>, candidates: seq<Candidate>, order: seq<Print>, reports: seq<Candidate>, clustered: seq<nat>,
                            positions: seq<nat>, kept: seq<Candidate>, c: Candidate)
    requires IsSettled(rules, before, table, middle, candidates, order, reports, clustered, positions, kept)
    requires IsCarried(table, before, middle, order, reports, c)
    ensures Survives(rules, before, candidates, kept, c)
  {
    var i: nat :| i < |order| && CarriesAt(table, before, middle, order[i], reports[i], c);
    assert IsKeptFor(table, candidates, order[i], reports[i]);
    assert IsHoused(rules.same, middle, reports, clustered, i);
    var h: nat :| h in clustered && HasHome(rules.same, middle, reports, h, i);
    var j :| 0 <= j < |positions| && positions[j] == h;
    var k, r := reports[h], reports[i];
    assert kept[j] == k && k in reports && r in reports;
    assert StandsFor(rules, before, c, r, k);
    assert LivesIn(before, c, k);
    assert SurvivesIn(rules, before, candidates, c, k);
  }

  function ReportsOf(order: seq<Print>, unique: map<Print, Candidate>): (reports: seq<Candidate>)
    requires forall p :: p in order ==> p in unique
    ensures |reports| == |order| && forall i :: 0 <= i < |order| ==> reports[i] == unique[order[i]]
  {
    seq(|order|, i requires 0 <= i < |order| => unique[order[i]])
  }

  // ---------------------------------------------------------------- the shared index of candidates seen

  datatype Cluster = Cluster(canonical: Candidate, equivalenceKey: Option<EquivalenceKey>, members: seq<Candidate>)

  function Canonicals(clusters: seq<Cluster>): (canonicals: seq<Candidate>)
    ensures |canonicals| == |clusters| && forall i :: 0 <= i < |clusters| ==> canonicals[i] == clusters[i].canonical
  {
    seq(|clusters|, i requires 0 <= i < |clusters| => clusters[i].canonical)
  }

  /** What the index knows of one cluster. */
  datatype Filed = Filed(profile: Profile, equivalenceKey: Option<EquivalenceKey>)

  /** Filed under their own path with their own key, and no two the same. */
  ghost predicate IsFiledWell(lex: Lexicon, nearby: int, path: string, filed: seq<Filed>) {
    && (forall i :: 0 <= i < |filed| ==> filed[i].profile.evidence.path == path && filed[i].equivalenceKey == EquivalenceKeyOf(lex, filed[i].profile))
    && (forall i, j :: 0 <= i < j < |filed| ==> !SameCandidateOrCluster(lex, filed[i].profile, filed[j].profile, nearby))
  }

  ghost predicate AllFiledWell(lex: Lexicon, nearby: int, ledger: map<string, seq<Filed>>) {
    forall path :: path in ledger ==> IsFiledWell(lex, nearby, path, ledger[path])
  }

  ghost predicate NoneIsSame(lex: Lexicon, nearby: int, filed: seq<Filed>, profile: Profile) {
    forall i :: 0 <= i < |filed| ==> !SameCandidateOrCluster(lex, filed[i].profile, profile, nearby)
  }

  lemma FilingKeepsWell(lex: Lexicon, nearby: int, ledger: map<string, seq<Filed>>, path: string, profile: Profile)
    requires AllFiledWell(lex, nearby, ledger) && profile.evidence.path == path
    requires path in ledger ==> NoneIsSame(lex, nearby, ledger[path], profile)
    ensures var filed := if path in ledger then ledger[path] else [];
      AllFiledWell(lex, nearby, ledger[path := filed + [Filed(profile, EquivalenceKeyOf(lex, profile))]])
  {
  }

  function FiledAs(clusters: seq<Cluster>): (filed: seq<Filed>)
    reads Canonicals(clusters)
    ensures |filed| == |clusters|
    ensures forall i :: 0 <= i < |filed| ==> filed[i] == Filed(clusters[i].canonical.metadata.profile, clusters[i].equivalenceKey)
  {
    seq(|clusters|, i requires 0 <= i < |clusters| reads Canonicals(clusters) =>
      assert clusters[i].canonical == Canonicals(clusters)[i];
      Filed(clusters[i].canonical.metadata.profile, clusters[i].equivalenceKey))
  }

  /** The clusters keep their canonical candidates and keys; only members may be added. */
  ghost predicate SameClusters(a: seq<Cluster>, b: seq<Cluster>) {
    |a| == |b| && forall i :: 0 <= i < |a| ==> a[i].canonical == b[i].canonical && a[i].equivalenceKey == b[i].equivalenceKey
  }

  class CandidateIndex {
    const lex: Lexicon
    const limits: Limits
    const nearbyLines: int
    var kept: map<string, seq<Cluster>>

    constructor (lex: Lexicon, limits: Limits, nearbyLines: int)
      ensures Valid() && this.lex == lex && this.limits == limits && this.nearbyLines == nearbyLines && kept == map[]
    {
      this.lex, this.limits, this.nearbyLines := lex, limits, nearbyLines;
      kept := map[];
    }

    ghost function Held(): set<Candidate>
      reads this
    {
      set path, c | path in kept && c in Canonicals(kept[path]) :: c
    }

    /** What is filed under each path. */
    ghost function Ledger(): map<string, seq<Filed>>
      reads this, Held()
    {
      assert forall path, c :: path in kept && c in Canonicals(kept[path]) ==> c in Held();
      map path | path in kept :: FiledAs(kept[path])
    }

    ghost predicate Valid()
      reads this, Held()
    {
      AllFiledWell(lex, nearbyLines, Ledger())
    }

    function BucketOf(path: string): seq<Cluster>
      reads this
    {
      if path in kept then kept[path] else []
    }

    predicate Repeats(cluster: Cluster, profile: Profile)
      reads cluster.canonical
    {
      SameCandidateOrCluster(lex, cluster.canonical.metadata.profile, profile, nearbyLines)
    }

    /** Where the profile first repeats a filed cluster, or the number of clusters. */
    method FindRepeated(clusters: seq<Cluster>, profile: Profile) returns (at: nat)
      ensures at <= |clusters| && (at < |clusters| ==> Repeats(clusters[at], profile))
      ensures forall i :: 0 <= i < at ==> !Repeats(clusters[i], profile)
    {
      at := 0;
      while at < |clusters| && !Repeats(clusters[at], profile)
        invariant at <= |clusters| && forall i :: 0 <= i < at ==> !Repeats(clusters[i], profile)
      {
        at := at + 1;
      }
    }

    /** The cluster after the candidate is folded in, as a member when it shares the cluster's key. */
    method Join(cluster: Cluster, candidate: Candidate) returns (joined: Cluster)
      requires cluster.equivalenceKey == EquivalenceKeyOf(lex, cluster.canonical.metadata.profile)
      modifies cluster.canonical
      ensures joined.canonical == cluster.canonical && joined.equivalenceKey == cluster.equivalenceKey
      ensures cluster.canonical.metadata == Folded(lex, limits, old(cluster.canonical.metadata), old(candidate.metadata))
      ensures cluster.canonical.metadata.profile == old(cluster.canonical.metadata.profile)
    {
      var key := EquivalenceKeyOf(lex, candidate.metadata.profile);
      if key.Some? && key == cluster.equivalenceKey {
        joined := cluster.(members := cluster.members + [candidate]);
        AbsorbCluster(limits, cluster.canonical, candidate);
      } else {
        joined := cluster;
        Absorb(limits, cluster.canonical, candidate);
      }
    }

    method FoldInto(path: string, at: nat, candidate: Candidate)
      requires Valid() && path in kept && at < |kept[path]|
      modifies this, kept[path][at].canonical
      ensures Valid() && kept.Keys == old(kept.Keys)
      ensures SameClusters(kept[path], old(kept)[path]) && Canonicals(kept[path]) == Canonicals(old(kept)[path])
      ensures forall p :: p in kept && p != path ==> kept[p] == old(kept)[p]
      ensures var canonical := old(kept)[path][at].canonical;
        canonical.metadata == Folded(lex, limits, old(canonical.metadata), old(candidate.metadata))
    {
      var cluster := kept[path][at];
      ghost var ledger := Ledger();
      assert ledger[path][at] == Filed(cluster.canonical.metadata.profile, cluster.equivalenceKey);
      assert IsFiledWell(lex, nearbyLines, path, ledger[path]);
      var joined := Join(cluster, candidate);
      assert forall p :: p in kept ==> FiledAs(kept[p]) == ledger[p];
      assert Ledger() == ledger;
      PutBack(path, at, joined);
    }

    /** Puts a cluster with its members in the place it was taken from. */
    method PutBack(path: string, at: nat, joined: Cluster)
      requires path in kept && at < |kept[path]|
      requires joined.canonical == kept[path][at].canonical && joined.equivalenceKey == kept[path][at].equivalenceKey
      modifies this
      ensures kept == old(kept)[path := old(kept)[path][at := joined]]
      ensures Canonicals(kept[path]) == Canonicals(old(kept)[path]) && Ledger() == old(Ledger())
    {
      ghost var ledger := Ledger();
      kept := kept[path := kept[path][at := joined]];
      assert forall p :: p in kept ==> FiledAs(kept[p]) == ledger[p];
    }

    /** Files the candidate as a cluster of its own. */
    method FileNew(path: string, candidate: Candidate)
      requires Valid() && path == candidate.metadata.profile.evidence.path
      requires path in kept ==> NoneIsSame(lex, nearbyLines, FiledAs(kept[path]), candidate.metadata.profile)
      modifies this
      ensures Valid()
      ensures kept.Keys == old(kept.Keys) + {path}
      ensures Canonicals(kept[path]) == Canonicals(old(BucketOf(path))) + [candidate]
      ensures forall p :: p in kept && p != path ==> kept[p] == old(kept)[p]
    {
      var clusters := BucketOf(path);
      var profile := candidate.metadata.profile;
      var cluster := Cluster(candidate, EquivalenceKeyOf(lex, profile), [candidate]);
      ghost var ledger := Ledger();
      FilingKeepsWell(lex, nearbyLines, ledger, path, profile);
      FileCluster(path, cluster);
    }

    method FileCluster(path: string, cluster: Cluster)
      modifies this
      ensures kept == old(kept)[path := old(BucketOf(path)) + [cluster]]
      ensures var ledger := old(Ledger());
        Ledger() == ledger[path := (if path in ledger then ledger[path] else [])
                                   + [Filed(cluster.canonical.metadata.profile, cluster.equivalenceKey)]]
    {
      ghost var ledger := Ledger();
      kept := kept[path := BucketOf(path) + [cluster]];
      assert FiledAs(kept[path]) == (if path in ledger then ledger[path] else [])
                                    + [Filed(cluster.canonical.metadata.profile, cluster.equivalenceKey)];
      assert forall p :: p in kept && p != path ==> FiledAs(kept[p]) == ledger[p];
    }

    /** A candidate is admitted exactly when it repeats nothing filed under its path; otherwise the first such cluster takes it. */
    method Admit(candidate: Candidate) returns (admitted: bool, ghost at: nat)
      requires Valid()
      modifies this, Held()
      ensures Valid()
      ensures var clusters := old(BucketOf(candidate.metadata.profile.evidence.path));
        && at <= |clusters| && admitted == (at == |clusters|)
        && (forall i :: 0 <= i < at ==> !old(Repeats(clusters[i], candidate.metadata.profile)))
        && (!admitted ==> old(Repeats(clusters[at], candidate.metadata.profile)))
      ensures var path := old(candidate.metadata.profile.evidence.path);
        && kept.Keys == old(kept.Keys) + {path}
        && Canonicals(kept[path]) == Canonicals(old(BucketOf(path))) + (if admitted then [candidate] else [])
        && (forall p :: p in kept && p != path ==> p in old(kept) && kept[p] == old(kept)[p])
      ensures admitted ==> forall c :: c in old(Held()) ==> c.metadata == old(c.metadata)
      ensures !admitted ==>
        var canonical := old(BucketOf(candidate.metadata.profile.evidence.path))[at].canonical;
        && canonical.metadata == Folded(lex, limits, old(canonical.metadata), old(candidate.metadata))
        && (forall c :: c in old(Held()) && c != canonical ==> c.metadata == old(c.metadata))
    {
      var path := candidate.metadata.profile.evidence.path;
      var clusters := BucketOf(path);
      var found := FindRepeated(clusters, candidate.metadata.profile);
      at, admitted := found, found == |clusters|;
      if admitted {
        assert forall i :: 0 <= i < |clusters| ==> !Repeats(clusters[i], candidate.metadata.profile);
        FileNew(path, candidate);
      } else {
        assert clusters[found].canonical in Canonicals(kept[path]);
        FoldInto(path, found, candidate);
      }
    }

    /** Two filed candidates are the same exactly when they differ in raw path and share a structural root and families. */
    lemma FiledCandidatesAreSameIff(p: string, i: nat, q: string, j: nat)
      requires Valid() && p in kept && q in kept && i < |kept[p]| && j < |kept[q]| && (p != q || i < j)
      ensures var a, b := kept[p][i].canonical.metadata.profile, kept[q][j].canonical.metadata.profile;
        SameCandidateOrCluster(lex, a, b, nearbyLines) <==> p != q && InOneCluster(lex, a, b)
    {
      assert IsFiledWell(lex, nearbyLines, p, Ledger()[p]) && IsFiledWell(lex, nearbyLines, q, Ledger()[q]);
      var a, b := FiledAs(kept[p])[i].profile, FiledAs(kept[q])[j].profile;
      if p != q {
        AcrossPathsOnlyClustersAgree(lex, a, b, nearbyLines);
      }
    }
  }

  /** Any report with a structural key, repeated under another spelling of its path, is admitted twice. */
  method SpellingsOfOnePathAreFiledApart(lex: Lexicon, limits: Limits, nearby: int, a: Candidate, b: Candidate)
    returns (index: CandidateIndex, first: bool, second: bool)
    requires var p, q := a.metadata.profile, b.metadata.profile;
      && EquivalenceKeyOf(lex, p).Some? && q == p.(evidence := q.evidence) && p.evidence.path != q.evidence.path
      && lex.normalize(p.evidence.path) == lex.normalize(q.evidence.path)
    modifies a
    ensures first && second && index.kept.Keys == {a.metadata.profile.evidence.path, b.metadata.profile.evidence.path}
    ensures SameCandidateOrCluster(lex, a.metadata.profile, b.metadata.profile, nearby)
  {
    index := new CandidateIndex(lex, limits, nearby);
    ghost var at;
    first, at := index.Admit(a);
    second, at := index.Admit(b);
  }

  lemma BothKeptAreSeparate(rules: Rules, before: map<Candidate, Metadata>, kept: seq<Candidate>, a: Candidate, b: Candidate)
    requires a in kept && b in kept && a != b && IsSymmetric(rules) && Separate(rules, before, kept)
    ensures a in before && b in before && !rules.same(before[a].profile, before[b].profile)
  {
    var i :| 0 <= i < |kept| && kept[i] == a;
    var j :| 0 <= j < |kept| && kept[j] == b;
    if i < j {
      assert AreSeparate(rules, before, kept[i], kept[j]);
    } else {
      assert AreSeparate(rules, before, kept[j], kept[i]);
    }
  }

  lemma OnlySurvivor(rules: Rules, before: map<Candidate, Metadata>, reports: seq<Candidate>, kept: seq<Candidate>,
                     a: Candidate, b: Candidate)
    requires a in before && b in before && !rules.same(before[b].profile, before[a].profile)
    requires rules.print_(before[a].profile) != rules.print_(before[b].profile)
    requires (forall k :: k in kept ==> k == a || k == b) && (forall r :: r in reports ==> r == a || r == b)
    requires Survives(rules, before, reports, kept, a)
    ensures a in kept
  {
  }

  /** Reports of one issue are the same unless their structural keys conflict, and then their fingerprints differ. */
  lemma OneIssueIsSameOrPrintedApart(lex: Lexicon, p: Profile, q: Profile)
    requires IsSameIssue(lex, p, q, NEARBY_LINES)
    ensures var rules := RulesOf(lex, NEARBY_LINES);
      && rules.same(p, q) == rules.same(q, p) == !KeysConflict(lex, p, q)
      && (KeysConflict(lex, p, q) ==> rules.print_(p) != rules.print_(q))
  {
    SamenessIsSymmetric(lex, p, q, NEARBY_LINES);
    SameIssueIsKeptApartIff(lex, p, q, NEARBY_LINES);
  }

  lemma PairIsKeptIff(rules: Rules, before: map<Candidate, Metadata>, reports: seq<Candidate>, kept: seq<Candidate>,
                      a: Candidate, b: Candidate, p: Profile, q: Profile)
    requires a in before && b in before && before[a].profile == p && before[b].profile == q && reports == [a, b]
    requires a != b && IsSymmetric(rules) && (rules.same(p, q) || rules.print_(p) != rules.print_(q))
    requires Separate(rules, before, kept) && AllSurvive(rules, before, reports, kept) && forall k :: k in kept ==> k in reports
    ensures a in kept && b in kept <==> !rules.same(p, q)
  {
    assert reports[0] == a && reports[1] == b;
    assert Survives(rules, before, reports, kept, a) && Survives(rules, before, reports, kept, b);
    if a in kept && b in kept {
      BothKeptAreSeparate(rules, before, kept, a, b);
    } else if !rules.same(p, q) {
      OnlySurvivor(rules, before, reports, kept, a, b);
      OnlySurvivor(rules, before, reports, kept, b, a);
    }
  }

  /** Of two reports whose fingerprints differ unless they are the same, both are kept exactly when they are not. */
  method DeduplicatePair(lex: Lexicon, rules: Rules, limits: Limits, a: Candidate, b: Candidate) returns (kept: seq<Candidate>)
    requires a != b && IsSymmetric(rules)
    requires rules.same(a.metadata.profile, b.metadata.profile)
      || rules.print_(a.metadata.profile) != rules.print_(b.metadata.profile)
    modifies a, b
    ensures a in kept && b in kept <==> !rules.same(old(a.metadata.profile), old(b.metadata.profile))
  {
    var reports := [a, b];
    ghost var before := Snapshot(reports);
    assert reports[0] == a && reports[1] == b;
    ghost var p, q := before[a].profile, before[b].profile;
    var folded;
    ghost var positions;
    kept, folded, positions := DeduplicateBy(lex, rules, limits, reports);
    PairIsKeptIff(rules, before, reports, kept, a, b, p, q);
  }

  /** Two reports of one issue are both kept exactly when their structural families are known and differ. */
  method OneIssueIsKeptTwiceIff(lex: Lexicon, limits: Limits, a: Candidate, b: Candidate) returns (kept: seq<Candidate>)
    requires a != b && IsSameIssue(lex, a.metadata.profile, b.metadata.profile, NEARBY_LINES)
    modifies a, b
    ensures a in kept && b in kept <==> KeysConflict(lex, old(a.metadata.profile), old(b.metadata.profile))
  {
    OneIssueIsSameOrPrintedApart(lex, a.metadata.profile, b.metadata.profile);
    RulesAreSymmetric(lex);
    kept := DeduplicatePair(lex, RulesOf(lex, NEARBY_LINES), limits, a, b);
  }

  /** One issue on one line, reported with two effect families: both reports are kept. */
  lemma ConflictingFamiliesKeepOneIssueTwice() returns (lex: Lexicon, a: Profile, b: Profile)
    ensures IsSameIssue(lex, a, b, NEARBY_LINES) && !SameCandidateOrCluster(lex, a, b, NEARBY_LINES)
  {
    lex := Lexicon((s: string) => s, (s: string) => s, (parts: seq<string>) => "",
                   (t: string, v: string, c: string, k: string) => {});
    var root := RootCause("login", "", "", "");
    a := Profile("r", "", "", "", {"CWE-287"}, root, Families("bypass", "session"), Evidence("src", 1, 1, "", "", []));
    b := Profile("r", "", "", "", {"CWE-287"}, root, Families("takeover", "session"), Evidence("src", 1, 1, "", "", []));
    assert "CWE-287" in a.references * b.references;
    assert EquivalenceKeyOf(lex, a) == Some(EquivalenceKey("src", "login", "bypass", "session"));
    assert EquivalenceKeyOf(lex, b) == Some(EquivalenceKey("src", "login", "takeover", "session"));
    SameIssueIsKeptApartIff(lex, a, b, NEARBY_LINES);
  }
}
