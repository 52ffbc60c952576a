/** Reviewing one graph investigation in rounds, against a model and a context broker that may answer anything. */
module InvestigationHunt {
  import opened GraphSnapshot
  import opened Sequences

  datatype Status = NoIssue | NotApplicable | CandidateFound | NeedsContext | Unresolved

  /** The model's disposition of one question. */
  datatype Item = Item(id: string, status: Status, candidateIds: set<string>, requests: seq<string>, reason: string)

  datatype CandidateItem = CandidateItem(wellFormed: bool, grounded: bool, id: string)

  datatype Response = NoResponse | Response(results: seq<Item>, candidates: seq<CandidateItem>)

  datatype HuntError =
    | NoQuestions | InvalidResponse | WrongDispositions
    | MalformedCandidate | UngroundedCandidate | RepeatedCandidate
    | UnknownLink | StrayLink | StrayRequest | UnlinkedCandidate

  // ---------------------------------------------------------------- one review

  function IdsOf(results: seq<Item>): seq<string> {
    seq(|results|, i requires 0 <= i < |results| => results[i].id)
  }

  function CandidateIds(candidates: seq<CandidateItem>): seq<string> {
    seq(|candidates|, i requires 0 <= i < |candidates| => candidates[i].id)
  }

  function ElementSet<T>(s: seq<T>): set<T> {
    set x | x in s
  }

  /** New, grounded, non-empty and pairwise distinct. */
  ghost predicate CandidatesAreSound(candidates: seq<CandidateItem>, taken: set<string>) {
    && (forall c :: c in candidates ==> c.wellFormed && c.grounded && c.id != "" && c.id !in taken)
    && NoDuplicates(CandidateIds(candidates))
  }

  /** Only CANDIDATE_FOUND links candidates, at least one and only this round's; only NEEDS_CONTEXT asks. */
  predicate ItemIsSound(item: Item, candidates: set<string>) {
    && (item.status.CandidateFound? <==> item.candidateIds != {})
    && item.candidateIds <= candidates
    && (!item.status.NeedsContext? ==> item.requests == [])
  }

  ghost function LinkedIds(results: seq<Item>): set<string> {
    set item, c | item in results && c in item.candidateIds :: c
  }

  ghost predicate IsSound(pending: seq<string>, response: Response, taken: set<string>) {
    && response.Response?
    && NoDuplicates(IdsOf(response.results))
    && ElementSet(IdsOf(response.results)) == ElementSet(pending)
    && CandidatesAreSound(response.candidates, taken)
    && (forall item :: item in response.results ==> ItemIsSound(item, ElementSet(CandidateIds(response.candidates))))
    && LinkedIds(response.results) == ElementSet(CandidateIds(response.candidates))
  }

  lemma {:induction false} ElementSetCount<T>(s: seq<T>)
    ensures |ElementSet(s)| <= |s|
    ensures |ElementSet(s)| == |s| <==> NoDuplicates(s)
  {
    if s != [] {
      var n := |s| - 1;
      ElementSetCount(s[..n]);
      assert s == s[..n] + [s[n]];
      assert ElementSet(s) == ElementSet(s[..n]) + {s[n]};
      if s[n] in s[..n] {
        var i :| 0 <= i < n && s[i] == s[n];
        assert ElementSet(s) == ElementSet(s[..n]);
      } else {
        assert NoDuplicates(s) <==> NoDuplicates(s[..n]);
      }
    }
  }

  /** Comparing lengths and sets, as the source does, makes every pending question answered exactly once. */
  lemma SameCountMeansExactlyOnce(pending: seq<string>, observed: seq<string>)
    requires NoDuplicates(pending)
    ensures (|observed| == |pending| && ElementSet(observed) == ElementSet(pending)) <==>
            (NoDuplicates(observed) && ElementSet(observed) == ElementSet(pending))
  {
    ElementSetCount(pending);
    ElementSetCount(observed);
  }

  method CheckCandidates(candidates: seq<CandidateItem>, taken: set<string>) returns (r: Result<set<string>, HuntError>)
    ensures r.Success? <==> CandidatesAreSound(candidates, taken)
    ensures r.Success? ==> r.value == taken + ElementSet(CandidateIds(candidates))
  {
    var now := taken;
    ghost var ids := CandidateIds(candidates);
    for n := 0 to |candidates|
      invariant now == taken + ElementSet(ids[..n])
      invariant NoDuplicates(ids[..n])
      invariant forall i :: 0 <= i < n ==> candidates[i].wellFormed && candidates[i].grounded && candidates[i].id != "" && candidates[i].id !in taken
    {
      var c := candidates[n];
      assert ids[..n + 1] == ids[..n] + [c.id] && c in candidates;
      if !c.wellFormed { return Failure(MalformedCandidate); }
      if !c.grounded { return Failure(UngroundedCandidate); }
      if c.id == "" || c.id in now {
        if c.id in ids[..n] {
          var i :| 0 <= i < n && ids[..n][i] == c.id;
          assert ids[i] == ids[n];
        }
        return Failure(RepeatedCandidate);
      }
      now := now + {c.id};
    }
    assert ids[..|candidates|] == ids;
    r := Success(now);
  }

  method CheckItems(results: seq<Item>, candidates: set<string>) returns (r: Result<set<string>, HuntError>)
    ensures r.Success? <==> forall item :: item in results ==> ItemIsSound(item, candidates)
    ensures r.Success? ==> r.value == LinkedIds(results)
  {
    var linked: set<string> := {};
    for n := 0 to |results|
      invariant linked == LinkedIds(results[..n])
      invariant forall i :: 0 <= i < n ==> ItemIsSound(results[i], candidates)
    {
      var item := results[n];
      assert results[..n + 1] == results[..n] + [item] && item in results;
      if item.status.CandidateFound? {
        if item.candidateIds == {} || !(item.candidateIds <= candidates) { return Failure(UnknownLink); }
      } else if item.candidateIds != {} {
        return Failure(StrayLink);
      }
      if !item.status.NeedsContext? && item.requests != [] { return Failure(StrayRequest); }
      assert LinkedIds(results[..n + 1]) == LinkedIds(results[..n]) + item.candidateIds;
      linked := linked + item.candidateIds;
    }
    assert results[..|results|] == results;
    r := Success(linked);
  }

  /** A review passes exactly when it is sound; then its candidates become taken. */
  method ReviewRound(pending: seq<string>, response: Response, taken: set<string>) returns (r: Result<set<string>, HuntError>)
    requires NoDuplicates(pending)
    ensures r.Success? <==> IsSound(pending, response, taken)
    ensures r.Success? ==> r.value == taken + ElementSet(CandidateIds(response.candidates))
  {
    if response.NoResponse? { return Failure(InvalidResponse); }
    var observed := IdsOf(response.results);
    SameCountMeansExactlyOnce(pending, observed);
    if |observed| != |pending| || ElementSet(observed) != ElementSet(pending) { return Failure(WrongDispositions); }
    var checked := CheckCandidates(response.candidates, taken);
    if checked.Failure? { return checked; }
    var linked := CheckItems(response.results, ElementSet(CandidateIds(response.candidates)));
    if linked.Failure? { return Failure(linked.error); }
    if linked.value != ElementSet(CandidateIds(response.candidates)) { return Failure(UnlinkedCandidate); }
    r := checked;
  }

  // ---------------------------------------------------------------- fetching context

  datatype WindowKey = WindowKey(path: string, startLine: int, endLine: int, contentHash: string)

  /** A source window, its accepted length, and whether it still matches the repository. */
  datatype Window = Window(key: WindowKey, characters: nat, valid: bool)

  datatype BrokerReply = BrokerRaised | Resolved(windows: seq<Window>, edgeIds: seq<string>)

  /** Everything delivered so far, and what one round adds. */
  datatype Delivery = Delivery(knownWindows: set<WindowKey>, knownRefs: set<string>, windows: seq<Window>, refs: seq<string>)

  function Characters(windows: seq<Window>): nat {
    if windows == [] then 0 else Characters(windows[..|windows| - 1]) + windows[|windows| - 1].characters
  }

  function Keys(windows: seq<Window>): seq<WindowKey> {
    seq(|windows|, i requires 0 <= i < |windows| => windows[i].key)
  }

  function WindowsOf(reply: BrokerReply): seq<Window> {
    if reply.BrokerRaised? then [] else reply.windows
  }

  function EdgesOf(reply: BrokerReply): seq<string> {
    if reply.BrokerRaised? then [] else reply.edgeIds
  }

  /** What was delivered was not known, and is now. */
  ghost predicate DeliveredOnce(knownWindows: set<WindowKey>, knownRefs: set<string>, d: Delivery) {
    AddedOnce(knownWindows, Keys(d.windows), d.knownWindows) && AddedOnce(knownRefs, d.refs, d.knownRefs)
  }

  ghost predicate WithinBudget(used: nat, maximum: int, d: Delivery) {
    d.windows != [] ==> used + Characters(d.windows) <= maximum
  }

  /** A window is withheld only when it is stale or would overrun the budget; every named edge is delivered. */
  ghost predicate NothingWithheld(used: nat, maximum: int, d: Delivery, windows: seq<Window>, edges: seq<string>) {
    && (forall w :: w in windows && w.valid ==> w.key in d.knownWindows || used + Characters(d.windows) + w.characters > maximum)
    && (forall e :: e in edges && e != "" ==> e in d.knownRefs)
  }

  /** `b` continues the delivery `a`. */
  ghost predicate Continues(a: Delivery, b: Delivery) {
    a.windows <= b.windows && a.refs <= b.refs && a.knownWindows <= b.knownWindows && a.knownRefs <= b.knownRefs
  }

  lemma {:induction false} CharactersGrow(a: seq<Window>, b: seq<Window>)
    requires a <= b
    ensures Characters(a) <= Characters(b)
    decreases |b|
  {
    if a != b {
      CharactersGrow(a, b[..|b| - 1]);
    }
  }

  lemma WithholdingLasts(used: nat, maximum: int, a: Delivery, b: Delivery, windows: seq<Window>, edges: seq<string>)
    requires Continues(a, b) && NothingWithheld(used, maximum, a, windows, edges)
    ensures NothingWithheld(used, maximum, b, windows, edges)
  {
    CharactersGrow(a.windows, b.windows);
  }

  /** Adds the windows of one reply that still match the repository, are new and fit. */
  method AddWindows(before: Delivery, windows: seq<Window>, used: nat, maximum: int, ghost knownWindows: set<WindowKey>,
                    ghost knownRefs: set<string>)
    returns (d: Delivery)
    requires DeliveredOnce(knownWindows, knownRefs, before) && WithinBudget(used, maximum, before)
    ensures DeliveredOnce(knownWindows, knownRefs, d) && WithinBudget(used, maximum, d)
    ensures Continues(before, d) && NothingWithheld(used, maximum, d, windows, [])
    ensures d.refs == before.refs && d.knownRefs == before.knownRefs
    ensures forall w :: w in d.windows ==> w in before.windows || (w in windows && w.valid)
  {
    d := before;
    for n := 0 to |windows|
      invariant DeliveredOnce(knownWindows, knownRefs, d) && WithinBudget(used, maximum, d)
      invariant Continues(before, d) && NothingWithheld(used, maximum, d, windows[..n], [])
      invariant d.refs == before.refs && d.knownRefs == before.knownRefs
      invariant forall w :: w in d.windows ==> w in before.windows || (w in windows && w.valid)
    {
      var w := windows[n];
      assert windows[..n + 1] == windows[..n] + [w];
      if w.valid && w.key !in d.knownWindows && used + Characters(d.windows) + w.characters <= maximum {
        var next := d.(knownWindows := d.knownWindows + {w.key}, windows := d.windows + [w]);
        assert Keys(next.windows) == Keys(d.windows) + [w.key];
        WithholdingLasts(used, maximum, d, next, windows[..n], []);
        d := next;
      }
    }
    assert windows[..|windows|] == windows;
  }

  method AddEdges(before: Delivery, edges: seq<string>, ghost knownWindows: set<WindowKey>, ghost knownRefs: set<string>)
    returns (d: Delivery)
    requires DeliveredOnce(knownWindows, knownRefs, before)
    ensures DeliveredOnce(knownWindows, knownRefs, d)
    ensures Continues(before, d) && d.windows == before.windows && d.knownWindows == before.knownWindows
    ensures forall e :: e in edges && e != "" ==> e in d.knownRefs
    ensures forall e :: e in d.refs ==> e in before.refs || e in edges
  {
    d := before;
    for n := 0 to |edges|
      invariant DeliveredOnce(knownWindows, knownRefs, d)
      invariant Continues(before, d) && d.windows == before.windows && d.knownWindows == before.knownWindows
      invariant forall i :: 0 <= i < n && edges[i] != "" ==> edges[i] in d.knownRefs
      invariant forall e :: e in d.refs ==> e in before.refs || e in edges
    {
      var e := edges[n];
      if e != "" && e !in d.knownRefs {
        d := d.(knownRefs := d.knownRefs + {e}, refs := d.refs + [e]);
      }
    }
  }

  /** Everything the replies to the first `n` requests could deliver was delivered, or would not have fitted. */
  ghost predicate AllDelivered(broker: nat -> BrokerReply, n: nat, used: nat, maximum: int, d: Delivery) {
    forall i: nat :: i < n ==> NothingWithheld(used, maximum, d, WindowsOf(broker(i)), EdgesOf(broker(i)))
  }

  /** Asks the broker for each request; one that adds nothing counts as empty. */
  method FetchContext(requests: nat, broker: nat -> BrokerReply, used: nat, maximum: int, knownWindows: set<WindowKey>,
                      knownRefs: set<string>)
    returns (d: Delivery, resolved: nat, empty: nat)
    ensures DeliveredOnce(knownWindows, knownRefs, d) && WithinBudget(used, maximum, d)
    ensures AllDelivered(broker, requests, used, maximum, d)
    ensures resolved + empty == requests && resolved <= |d.windows| + |d.refs|
    ensures resolved == 0 <==> d.windows == [] && d.refs == []
  {
    d, resolved, empty := Delivery(knownWindows, knownRefs, [], []), 0, 0;
    for n := 0 to requests
      invariant DeliveredOnce(knownWindows, knownRefs, d) && WithinBudget(used, maximum, d)
      invariant AllDelivered(broker, n, used, maximum, d)
      invariant resolved + empty == n && resolved <= |d.windows| + |d.refs|
      invariant resolved == 0 <==> d.windows == [] && d.refs == []
    {
      var reply := broker(n);
      var withWindows := AddWindows(d, WindowsOf(reply), used, maximum, knownWindows, knownRefs);
      var next := AddEdges(withWindows, EdgesOf(reply), knownWindows, knownRefs);
      forall i: nat | i < n
        ensures NothingWithheld(used, maximum, next, WindowsOf(broker(i)), EdgesOf(broker(i)))
      {
        WithholdingLasts(used, maximum, d, next, WindowsOf(broker(i)), EdgesOf(broker(i)));
      }
      if |next.windows| > |d.windows| || |next.refs| > |d.refs| {
        resolved := resolved + 1;
      } else {
        empty := empty + 1;
      }
      d := next;
    }
  }

  // ---------------------------------------------------------------- the dispositions so far

  type Ledger = map<string, Item>

  predicate Waits(ledger: Ledger, id: string) {
    id in ledger && ledger[id].status.NeedsContext?
  }

  /** The questions that still need context, in the order of the first answers. */
  function Waiting(order: seq<string>, ledger: Ledger): (ids: seq<string>)
    ensures forall id :: id in ids <==> id in order && Waits(ledger, id)
  {
    if order == [] then [] else
      (if Waits(ledger, order[0]) then [order[0]] else []) + Waiting(order[1..], ledger)
  }

  lemma {:induction false} WaitingIsDistinct(order: seq<string>, ledger: Ledger)
    requires NoDuplicates(order)
    ensures NoDuplicates(Waiting(order, ledger))
  {
    if order != [] {
      WaitingIsDistinct(order[1..], ledger);
    }
  }

  function RequestsOf(ledger: Ledger, ids: seq<string>): seq<string> {
    if ids == [] then [] else
      (if ids[0] in ledger then ledger[ids[0]].requests else []) + RequestsOf(ledger, ids[1..])
  }

  ghost function Linked(ledger: Ledger): set<string> {
    set id, c | id in ledger && c in ledger[id].candidateIds :: c
  }

  /** Each question has its own coherent disposition, and the linked candidates are exactly those accepted. */
  ghost predicate LedgerIsSound(ids: seq<string>, ledger: Ledger, taken: set<string>) {
    && ledger.Keys == ElementSet(ids)
    && (forall id :: id in ledger ==> ledger[id].id == id && ItemIsSound(ledger[id], taken))
    && Linked(ledger) == taken
  }

  /** `after` is `before` with the results filed under their ids. */
  ghost predicate IsFiled(before: Ledger, results: seq<Item>, after: Ledger) {
    && after.Keys == before.Keys + ElementSet(IdsOf(results))
    && (forall item :: item in results ==> item.id in after && after[item.id] == item)
    && (forall id :: id in before && id !in IdsOf(results) ==> id in after && after[id] == before[id])
  }

  method FileResults(before: Ledger, results: seq<Item>) returns (after: Ledger)
    requires NoDuplicates(IdsOf(results))
    ensures IsFiled(before, results, after)
  {
    after := before;
    for n := 0 to |results|
      invariant IsFiled(before, results[..n], after)
    {
      var item := results[n];
      assert results[..n + 1] == results[..n] + [item];
      assert IdsOf(results[..n + 1]) == IdsOf(results[..n]) + [item.id];
      forall i | 0 <= i < n
        ensures results[i].id != item.id
      {
        assert IdsOf(results)[i] != IdsOf(results)[n];
      }
      after := after[item.id := item];
    }
    assert results[..|results|] == results;
  }

  /** A settled disposition stays as it is. */
  ghost predicate SettledKept(before: Ledger, after: Ledger) {
    forall id :: id in before && !Waits(before, id) ==> id in after && after[id] == before[id]
  }

  lemma FilingWaitingKeepsSettled(before: Ledger, pending: seq<string>, results: seq<Item>, after: Ledger)
    requires IsFiled(before, results, after) && ElementSet(IdsOf(results)) == ElementSet(pending)
    requires forall id :: id in pending ==> Waits(before, id)
    ensures SettledKept(before, after)
  {
    forall id | id in before && !Waits(before, id)
      ensures id in after && after[id] == before[id]
    {
      assert id in ElementSet(IdsOf(results)) <==> id in ElementSet(pending);
    }
  }

  /** A sound review of waiting questions leaves a sound ledger. */
  lemma FilingKeepsSound(ids: seq<string>, before: Ledger, pending: seq<string>, response: Response, taken: set<string>,
                         after: Ledger)
    requires LedgerIsSound(ids, before, taken) && IsSound(pending, response, taken)
    requires IsFiled(before, response.results, after)
    requires forall id :: id in pending ==> Waits(before, id)
    ensures LedgerIsSound(ids, after, taken + ElementSet(CandidateIds(response.candidates)))
  {
    var added := ElementSet(CandidateIds(response.candidates));
    var answered := ElementSet(IdsOf(response.results));
    forall id | id in answered
      ensures id in before && id in after && ItemIsAnswer(response.results, id, after[id])
    {
      var i :| 0 <= i < |response.results| && IdsOf(response.results)[i] == id;
      assert response.results[i] in response.results;
      assert id in ElementSet(pending);
    }
    forall id | id in after
      ensures after[id].id == id && ItemIsSound(after[id], taken + added)
    {
    }
    assert after.Keys == before.Keys;
    LinkedAfterFiling(before, pending, response, taken, after);
  }

  ghost predicate ItemIsAnswer(results: seq<Item>, id: string, item: Item) {
    item in results && item.id == id
  }

  lemma LinkedAfterFiling(before: Ledger, pending: seq<string>, response: Response, taken: set<string>, after: Ledger)
    requires Linked(before) == taken && IsSound(pending, response, taken) && IsFiled(before, response.results, after)
    requires forall id :: id in before ==> ItemIsSound(before[id], taken)
    requires forall id :: id in pending ==> Waits(before, id)
    requires forall id :: id in ElementSet(IdsOf(response.results)) ==> id in after && ItemIsAnswer(response.results, id, after[id])
    ensures Linked(after) == taken + ElementSet(CandidateIds(response.candidates))
  {
    forall c
      ensures c in Linked(after) <==> c in taken || c in LinkedIds(response.results)
    {
      if c in Linked(after) {
        var id :| id in after && c in after[id].candidateIds;
        if id in IdsOf(response.results) {
          assert id in ElementSet(IdsOf(response.results));
        }
      }
      if c in Linked(before) {
        var id :| id in before && c in before[id].candidateIds;
        assert id !in ElementSet(pending) by {
          assert id in pending ==> Waits(before, id);
        }
        assert id !in ElementSet(IdsOf(response.results));
        assert id in after && after[id] == before[id];
      }
      if c in LinkedIds(response.results) {
        var item :| item in response.results && c in item.candidateIds;
        assert after[item.id] == item;
      }
    }
  }

  // ---------------------------------------------------------------- the whole hunt

  /** The questions in the order of the first answers, their dispositions, and the candidates accepted so far. */
  datatype Progress = Progress(order: seq<string>, ledger: Ledger, taken: set<string>, candidates: seq<string>)

  ghost predicate ProgressIsSound(ids: seq<string>, p: Progress) {
    && LedgerIsSound(ids, p.ledger, p.taken)
    && NoDuplicates(p.order) && ElementSet(p.order) == ElementSet(ids)
    && NoDuplicates(p.candidates) && ElementSet(p.candidates) == p.taken
  }

  /** The first review covers every question. */
  method Begin(ids: seq<string>, response: Response) returns (r: Result<Progress, HuntError>)
    requires NoDuplicates(ids)
    ensures r.Success? <==> IsSound(ids, response, {})
    ensures r.Success? ==> ProgressIsSound(ids, r.value) && IsFiled(map[], response.results, r.value.ledger)
  {
    var taken := ReviewRound(ids, response, {});
    if taken.Failure? {
      return Failure(taken.error);
    }
    var ledger := FileResults(map[], response.results);
    FirstLedgerIsSound(ids, response, ledger);
    assert {} + ElementSet(CandidateIds(response.candidates)) == ElementSet(CandidateIds(response.candidates));
    r := Success(Progress(IdsOf(response.results), ledger, taken.value, CandidateIds(response.candidates)));
  }

  lemma FirstLedgerIsSound(ids: seq<string>, response: Response, ledger: Ledger)
    requires IsSound(ids, response, {}) && IsFiled(map[], response.results, ledger)
    ensures LedgerIsSound(ids, ledger, ElementSet(CandidateIds(response.candidates)))
  {
    forall id | id in ledger
      ensures ItemIsAnswer(response.results, id, ledger[id])
    {
      assert id in ElementSet(IdsOf(response.results));
      var i :| 0 <= i < |response.results| && IdsOf(response.results)[i] == id;
      assert response.results[i] in response.results;
    }
    assert ledger.Keys == ElementSet(ids);
    forall c
      ensures c in Linked(ledger) <==> c in LinkedIds(response.results)
    {
      if c in LinkedIds(response.results) {
        var item :| item in response.results && c in item.candidateIds;
        assert ledger[item.id] == item;
      }
    }
  }

  /** A later review asks only about questions that wait, and leaves the settled ones alone. */
  method Proceed(ids: seq<string>, p: Progress, pending: seq<string>, response: Response) returns (r: Result<Progress, HuntError>)
    requires ProgressIsSound(ids, p) && pending == Waiting(p.order, p.ledger)
    ensures r.Success? <==> IsSound(pending, response, p.taken)
    ensures r.Success? ==>
      && ProgressIsSound(ids, r.value) && r.value.order == p.order && SettledKept(p.ledger, r.value.ledger)
      && IsFiled(p.ledger, response.results, r.value.ledger)
      && r.value.candidates == p.candidates + CandidateIds(response.candidates)
  {
    WaitingIsDistinct(p.order, p.ledger);
    var taken := ReviewRound(pending, response, p.taken);
    if taken.Failure? {
      return Failure(taken.error);
    }
    var ledger := FileResults(p.ledger, response.results);
    FilingKeepsSound(ids, p.ledger, pending, response, p.taken, ledger);
    FilingWaitingKeepsSettled(p.ledger, pending, response.results, ledger);
    var added := CandidateIds(response.candidates);
    forall c | c in added
      ensures c !in p.candidates
    {
      var i :| 0 <= i < |response.candidates| && added[i] == c;
      assert response.candidates[i] in response.candidates;
    }
    NoDuplicatesInConcat(p.candidates, added);
    assert ElementSet(p.candidates + added) == ElementSet(p.candidates) + ElementSet(added);
    r := Success(Progress(p.order, ledger, taken.value, p.candidates + added));
  }

  datatype Limits = Limits(rounds: int, requests: int, characters: int)

  datatype Counters = Counters(total: nat, resolved: nat, empty: nat, deferred: nat, continuations: nat, characters: nat)

  datatype Disposition = Disposition(obligations: seq<Item>, candidates: seq<string>, unresolved: nat, counters: Counters)

  /** What one hunt did: whom it asked, against which candidates, with which result, and what it delivered. */
  datatype Trace = Trace(asked: seq<seq<string>>, taken: seq<set<string>>, ledgers: seq<Ledger>, windows: seq<Window>,
                         refs: seq<string>)

  ghost predicate SettledForever(ledgers: seq<Ledger>) {
    forall i, j :: 0 <= i <= j < |ledgers| ==> SettledKept(ledgers[i], ledgers[j])
  }

  lemma SettledStaysForever(ledgers: seq<Ledger>, next: Ledger)
    requires SettledForever(ledgers)
    requires ledgers != [] ==> SettledKept(ledgers[|ledgers| - 1], next)
    ensures SettledForever(ledgers + [next])
  {
    var grown := ledgers + [next];
    forall i, j | 0 <= i <= j < |grown|
      ensures SettledKept(grown[i], grown[j])
    {
      if i < |ledgers| == j {
        assert SettledKept(ledgers[i], ledgers[|ledgers| - 1]);
      }
    }
  }

  /** After the first, every review asks exactly the questions that waited. */
  ghost predicate AsksOnlyWaiting(trace: Trace, order: seq<string>) {
    && |trace.asked| <= |trace.ledgers| + 1
    && forall k :: 0 < k < |trace.asked| ==> trace.asked[k] == Waiting(order, trace.ledgers[k - 1])
  }

  /** The reviews recorded were all sound. */
  ghost predicate ReviewsWereSound(trace: Trace, model: nat -> Response, count: nat) {
    && count <= |trace.asked| && |trace.taken| == |trace.asked|
    && forall k: nat :: k < count ==> IsSound(trace.asked[k], model(k), trace.taken[k])
  }

  function AtLeastZero(n: int): nat {
    if n < 0 then 0 else n
  }

  /** A question still waiting at the end becomes unresolved; everything else is kept. */
  function Closed(item: Item): Item {
    if item.status.NeedsContext? then item.(status := Unresolved, requests := []) else item
  }

  function CountUnresolved(items: seq<Item>): nat {
    if items == [] then 0
    else CountUnresolved(items[..|items| - 1]) + if items[|items| - 1].status.Unresolved? then 1 else 0
  }

  lemma ClosingKeepsLinks(ids: seq<string>, p: Progress, obligations: seq<Item>)
    requires ProgressIsSound(ids, p) && |obligations| == |ids|
    requires forall i :: 0 <= i < |ids| ==> ids[i] in p.ledger && obligations[i] == Closed(p.ledger[ids[i]])
    ensures IdsOf(obligations) == ids && LinkedIds(obligations) == ElementSet(p.candidates)
    ensures forall item :: item in obligations ==> !item.status.NeedsContext?
  {
    forall i | 0 <= i < |ids|
      ensures obligations[i].id == ids[i] && obligations[i].candidateIds == p.ledger[ids[i]].candidateIds
    {
    }
    forall c
      ensures c in LinkedIds(obligations) <==> c in Linked(p.ledger)
    {
      if c in Linked(p.ledger) {
        var id :| id in p.ledger && c in p.ledger[id].candidateIds;
        assert id in ElementSet(ids);
        var i :| 0 <= i < |ids| && ids[i] == id;
        assert obligations[i] in obligations;
      }
    }
  }

  method CloseAll(ids: seq<string>, p: Progress, counters: Counters) returns (d: Disposition)
    requires ProgressIsSound(ids, p)
    ensures IdsOf(d.obligations) == ids && d.candidates == p.candidates && d.counters == counters
    ensures LinkedIds(d.obligations) == ElementSet(d.candidates)
    ensures forall i :: 0 <= i < |ids| ==> ids[i] in p.ledger && d.obligations[i] == Closed(p.ledger[ids[i]])
    ensures forall item :: item in d.obligations ==> !item.status.NeedsContext?
    ensures d.unresolved == CountUnresolved(d.obligations)
  {
    forall id | id in ids
      ensures id in p.ledger
    {
      assert id in ElementSet(ids);
    }
    var obligations, unresolved := CloseItems(ids, p.ledger);
    ClosingKeepsLinks(ids, p, obligations);
    d := Disposition(obligations, p.candidates, unresolved, counters);
  }

  /** The closed dispositions in the order of the questions, and how many of them are unresolved. */
  method CloseItems(ids: seq<string>, ledger: Ledger) returns (obligations: seq<Item>, unresolved: nat)
    requires forall id :: id in ids ==> id in ledger
    ensures |obligations| == |ids| && unresolved == CountUnresolved(obligations)
    ensures forall i :: 0 <= i < |ids| ==> ids[i] in ledger && obligations[i] == Closed(ledger[ids[i]])
  {
    obligations, unresolved := [], 0;
    for n := 0 to |ids|
      invariant |obligations| == n && unresolved == CountUnresolved(obligations)
      invariant forall i :: 0 <= i < n ==> ids[i] in ledger && obligations[i] == Closed(ledger[ids[i]])
    {
      var item := Closed(ledger[ids[n]]);
      assert (obligations + [item])[..n] == obligations;
      obligations := obligations + [item];
      unresolved := unresolved + if item.status.Unresolved? then 1 else 0;
    }
  }

  ghost predicate IsBalanced(c: Counters) {
    c.total == c.resolved + c.empty + c.deferred
  }

  lemma {:induction false} CharactersAdd(a: seq<Window>, b: seq<Window>)
    ensures Characters(a + b) == Characters(a) + Characters(b)
  {
    if b == [] {
      assert a + b == a;
    } else {
      assert (a + b)[..|a + b| - 1] == a + b[..|b| - 1];
      CharactersAdd(a, b[..|b| - 1]);
    }
  }

  /** Where a hunt starts: the windows and references the investigation already holds. */
  datatype Start = Start(windows: set<WindowKey>, refs: set<string>)

  /** What the hunt carries from round to round. */
  datatype Run = Run(progress: Progress, counters: Counters, known: Start)

  /** Every review was sound, only waiting questions were asked again, and nothing settled changed. */
  ghost predicate ReviewsAreSound(ids: seq<string>, p: Progress, reviews: nat, trace: Trace, model: nat -> Response) {
    && ProgressIsSound(ids, p)
    && |trace.ledgers| == |trace.asked| == |trace.taken| == reviews > 0
    && trace.ledgers[reviews - 1] == p.ledger && trace.asked[0] == ids
    && AsksOnlyWaiting(trace, p.order) && SettledForever(trace.ledgers)
    && ReviewsWereSound(trace, model, reviews)
  }

  /** ... and nothing was delivered twice, and the accounts add up. */
  ghost predicate RunIsSound(ids: seq<string>, r: Run, trace: Trace, model: nat -> Response, limits: Limits, start: Start) {
    && ReviewsAreSound(ids, r.progress, r.counters.continuations + 1, trace, model)
    && DeliveryIsSound(r, trace, limits, start) && IsBalanced(r.counters)
  }

  ghost predicate DeliveryIsSound(r: Run, trace: Trace, limits: Limits, start: Start) {
    && AddedOnce(start.windows, Keys(trace.windows), r.known.windows)
    && AddedOnce(start.refs, trace.refs, r.known.refs)
    && r.counters.characters == Characters(trace.windows) <= AtLeastZero(limits.characters)
  }

  /** The last recorded review was not sound; all before it were. */
  ghost predicate FailedAtLast(trace: Trace, model: nat -> Response) {
    var n := |trace.asked|;
    && n > 0 && |trace.taken| == n && ReviewsWereSound(trace, model, n - 1)
    && !IsSound(trace.asked[n - 1], model(n - 1), trace.taken[n - 1])
  }

  datatype Verdict = Stop | Go | Fail(error: HuntError)

  /** How many requests the waiting questions make. */
  function Asked(p: Progress): nat {
    |RequestsOf(p.ledger, Waiting(p.order, p.ledger))|
  }

  function Least(a: nat, b: int): nat {
    if a < b then a else AtLeastZero(b)
  }

  /** A round may end the hunt only with nothing waiting or asked, no usable broker, or no new evidence at all. */
  ghost predicate StopsRightly(r: Run, limits: Limits, brokerMatches: bool, broker: nat -> BrokerReply) {
    || Waiting(r.progress.order, r.progress.ledger) == [] || !brokerMatches || Asked(r.progress) == 0 || limits.requests < 1
    || AllDelivered(broker, Least(Asked(r.progress), limits.requests), r.counters.characters, limits.characters,
                    Delivery(r.known.windows, r.known.refs, [], []))
  }

  /** Fetches context for the waiting questions and counts every request once. */
  method Fetch(r: Run, limits: Limits, brokerMatches: bool, broker: nat -> BrokerReply)
    returns (verdict: Verdict, counters: Counters, d: Delivery)
    requires IsBalanced(r.counters)
    ensures !verdict.Fail? && IsBalanced(counters)
    ensures counters.continuations == r.counters.continuations && counters.characters == r.counters.characters
    ensures DeliveredOnce(r.known.windows, r.known.refs, d) && WithinBudget(r.counters.characters, limits.characters, d)
    ensures counters.total == r.counters.total + Asked(r.progress)
    ensures counters.deferred == r.counters.deferred +
      if !brokerMatches || limits.requests < 1 then Asked(r.progress) else AtLeastZero(Asked(r.progress) - limits.requests)
    ensures verdict.Stop? ==> StopsRightly(r, limits, brokerMatches, broker)
    ensures verdict.Go? ==> Waiting(r.progress.order, r.progress.ledger) != [] && (d.windows != [] || d.refs != [])
    ensures verdict.Go? ==>
      AllDelivered(broker, Least(Asked(r.progress), limits.requests), r.counters.characters, limits.characters, d)
  {
    d, counters := Delivery(r.known.windows, r.known.refs, [], []), r.counters;
    var pending := Waiting(r.progress.order, r.progress.ledger);
    if pending == [] {
      assert Asked(r.progress) == 0;
      return Stop, counters, d;
    }
    var requests := RequestsOf(r.progress.ledger, pending);
    counters := counters.(total := counters.total + |requests|);
    if !brokerMatches || requests == [] || limits.requests < 1 {
      counters := counters.(deferred := counters.deferred + |requests|);
      return Stop, counters, d;
    }
    counters := counters.(deferred := counters.deferred + AtLeastZero(|requests| - limits.requests));
    var cut := Least(|requests|, limits.requests);
    var resolved, empty;
    d, resolved, empty := FetchContext(cut, broker, r.counters.characters, limits.characters, r.known.windows, r.known.refs);
    counters := counters.(resolved := counters.resolved + resolved, empty := counters.empty + empty);
    if d.windows == [] && d.refs == [] {
      assert d.knownWindows == r.known.windows && d.knownRefs == r.known.refs;
      verdict := Stop;
    } else {
      verdict := Go;
    }
  }

  lemma ReviewsExtend(ids: seq<string>, p: Progress, reviews: nat, trace: Trace, model: nat -> Response, next: Progress,
                      d: Delivery)
    requires ReviewsAreSound(ids, p, reviews, trace, model)
    requires ProgressIsSound(ids, next) && next.order == p.order && SettledKept(p.ledger, next.ledger)
    requires IsSound(Waiting(p.order, p.ledger), model(reviews), p.taken)
    ensures ReviewsAreSound(ids, next, reviews + 1, TraceAfter(trace, Waiting(p.order, p.ledger), p.taken, next.ledger, d), model)
  {
    var after := TraceAfter(trace, Waiting(p.order, p.ledger), p.taken, next.ledger, d);
    SettledStaysForever(trace.ledgers, next.ledger);
    forall k: nat | k < reviews + 1
      ensures IsSound(after.asked[k], model(k), after.taken[k])
    {
      if k < reviews {
        assert IsSound(trace.asked[k], model(k), trace.taken[k]);
      }
    }
  }

  lemma DeliveryExtends(r: Run, trace: Trace, limits: Limits, start: Start, next: Run, after: Trace, d: Delivery)
    requires DeliveryIsSound(r, trace, limits, start)
    requires DeliveredOnce(r.known.windows, r.known.refs, d) && WithinBudget(r.counters.characters, limits.characters, d)
    requires next.known == Start(d.knownWindows, d.knownRefs)
    requires next.counters.characters == r.counters.characters + Characters(d.windows)
    requires after.windows == trace.windows + d.windows && after.refs == trace.refs + d.refs
    ensures DeliveryIsSound(next, after, limits, start)
  {
    assert Keys(after.windows) == Keys(trace.windows) + Keys(d.windows);
    AddedOnceAgain(start.windows, Keys(trace.windows), r.known.windows, Keys(d.windows), d.knownWindows);
    AddedOnceAgain(start.refs, trace.refs, r.known.refs, d.refs, d.knownRefs);
    CharactersAdd(trace.windows, d.windows);
  }

  function TraceAfter(trace: Trace, pending: seq<string>, taken: set<string>, ledger: Ledger, d: Delivery): Trace {
    Trace(trace.asked + [pending], trace.taken + [taken], trace.ledgers + [ledger], trace.windows + d.windows,
          trace.refs + d.refs)
  }

  /** One continuation: fetch context, and unless the hunt stops, review the waiting questions again. */
  method RunRound(ids: seq<string>, r: Run, limits: Limits, brokerMatches: bool, broker: nat -> BrokerReply,
                  model: nat -> Response, ghost start: Start, ghost trace: Trace)
    returns (verdict: Verdict, next: Run, ghost after: Trace)
    requires RunIsSound(ids, r, trace, model, limits, start)
    ensures !verdict.Fail? ==> RunIsSound(ids, next, after, model, limits, start)
    ensures next.counters.continuations == r.counters.continuations + if verdict.Go? then 1 else 0
    ensures verdict.Stop? ==> next == r.(counters := next.counters) && StopsRightly(next, limits, brokerMatches, broker)
    ensures verdict.Fail? ==> FailedAtLast(after, model)
  {
    var fetched, counters, d := Fetch(r, limits, brokerMatches, broker);
    if fetched.Stop? {
      next := r.(counters := counters);
      assert DeliveryIsSound(next, trace, limits, start);
      return Stop, next, trace;
    }
    verdict, next, after := AskAgain(ids, r, limits, counters, d, model, start, trace);
  }

  /** Reviews the waiting questions once more, with the context fetched for them. */
  method AskAgain(ids: seq<string>, r: Run, limits: Limits, counters: Counters, d: Delivery, model: nat -> Response,
                  ghost start: Start, ghost trace: Trace)
    returns (verdict: Verdict, next: Run, ghost after: Trace)
    requires RunIsSound(ids, r, trace, model, limits, start) && IsBalanced(counters)
    requires counters.continuations == r.counters.continuations && counters.characters == r.counters.characters
    requires DeliveredOnce(r.known.windows, r.known.refs, d) && WithinBudget(r.counters.characters, limits.characters, d)
    ensures verdict.Go? ==> RunIsSound(ids, next, after, model, limits, start)
    ensures verdict.Go? ==> next.counters.continuations == r.counters.continuations + 1
    ensures !verdict.Go? ==> verdict.Fail? && FailedAtLast(after, model) && next == r
  {
    var reviews := r.counters.continuations + 1;
    var pending := Waiting(r.progress.order, r.progress.ledger);
    var proceeded := Proceed(ids, r.progress, pending, model(reviews));
    if proceeded.Failure? {
      after := Trace(trace.asked + [pending], trace.taken + [r.progress.taken], trace.ledgers, trace.windows, trace.refs);
      FailureIsRecorded(trace, after, model, pending, r.progress.taken);
      return Fail(proceeded.error), r, after;
    }
    next := Run(proceeded.value,
                counters.(continuations := reviews, characters := counters.characters + Characters(d.windows)),
                Start(d.knownWindows, d.knownRefs));
    verdict, after := Go, TraceAfter(trace, pending, r.progress.taken, next.progress.ledger, d);
    ReviewsExtend(ids, r.progress, reviews, trace, model, next.progress, d);
    DeliveryExtends(r, trace, limits, start, next, after, d);
  }

  lemma FailureIsRecorded(trace: Trace, after: Trace, model: nat -> Response, pending: seq<string>, taken: set<string>)
    requires |trace.taken| == |trace.asked| && ReviewsWereSound(trace, model, |trace.asked|)
    requires after.asked == trace.asked + [pending] && after.taken == trace.taken + [taken]
    requires !IsSound(pending, model(|trace.asked|), taken)
    ensures FailedAtLast(after, model)
  {
    forall k: nat | k < |trace.asked|
      ensures IsSound(after.asked[k], model(k), after.taken[k])
    {
      assert IsSound(trace.asked[k], model(k), trace.taken[k]);
    }
  }

  /** The first review starts a sound run. */
  method Open(ids: seq<string>, model: nat -> Response, limits: Limits, start: Start)
    returns (r: Result<Run, HuntError>, ghost trace: Trace)
    requires NoDuplicates(ids)
    ensures r.Success? ==> RunIsSound(ids, r.value, trace, model, limits, start) && r.value.counters.continuations == 0
    ensures r.Failure? ==> FailedAtLast(trace, model)
  {
    var begun := Begin(ids, model(0));
    trace := Trace([ids], [{}], [], [], []);
    if begun.Failure? {
      return Failure(begun.error), trace;
    }
    trace := trace.(ledgers := [begun.value.ledger]);
    r := Success(Run(begun.value, Counters(0, 0, 0, 0, 0, 0), start));
  }

  /** The replies to the requests of one round, by position. */
  function RepliesIn(broker: (nat, nat) -> BrokerReply, round: nat): nat -> BrokerReply {
    (i: nat) => broker(round, i)
  }

  /** What every finished hunt reports, whatever happened on the way. */
  ghost predicate IsClosedDisposition(ids: seq<string>, limits: Limits, d: Disposition) {
    && IdsOf(d.obligations) == ids && (forall item :: item in d.obligations ==> !item.status.NeedsContext?)
    && LinkedIds(d.obligations) == ElementSet(d.candidates) && NoDuplicates(d.candidates)
    && d.unresolved == CountUnresolved(d.obligations) && IsBalanced(d.counters)
    && d.counters.characters <= AtLeastZero(limits.characters) && d.counters.continuations <= AtLeastZero(limits.rounds)
  }

  /**
    Whatever the model and the broker answer, a hunt that ends without an error reports every question once and none
    as waiting; a settled question was never asked again; the accepted candidates are exactly those linked; nothing was
    delivered twice or over budget; and every request is counted as resolved, empty or deferred.
   */
  method Hunt(ids: seq<string>, start: Start, model: nat -> Response, broker: (nat, nat) -> BrokerReply,
              brokerMatches: bool, limits: Limits)
    returns (result: Result<Disposition, HuntError>, ghost run: Run, ghost trace: Trace)
    requires NoDuplicates(ids)
    ensures result.Success? ==> IsClosedDisposition(ids, limits, result.value)
    ensures result.Success? ==>
      var d := result.value;
      && RunIsSound(ids, run, trace, model, limits, start) && d.counters == run.counters
      && (d.counters.continuations == AtLeastZero(limits.rounds) ||
          StopsRightly(run, limits, brokerMatches, RepliesIn(broker, d.counters.continuations)))
      && (forall i :: 0 <= i < |ids| ==> ids[i] in run.progress.ledger && d.obligations[i] == Closed(run.progress.ledger[ids[i]]))
    ensures ids == [] ==> result == Failure(NoQuestions)
    ensures result.Failure? ==> ids == [] || FailedAtLast(trace, model)
  {
    run, trace := Run(Progress([], map[], {}, []), Counters(0, 0, 0, 0, 0, 0), start), Trace([], [], [], [], []);
    if ids == [] {
      return Failure(NoQuestions), run, trace;
    }
    var first;
    first, trace := Open(ids, model, limits, start);
    if first.Failure? {
      return Failure(first.error), run, trace;
    }
    var r, round, running := first.value, 0, true;
    while running && round < limits.rounds
      invariant 0 <= round <= AtLeastZero(limits.rounds)
      invariant RunIsSound(ids, r, trace, model, limits, start)
      invariant r.counters.continuations <= round && (running ==> r.counters.continuations == round)
      invariant !running ==> StopsRightly(r, limits, brokerMatches, RepliesIn(broker, r.counters.continuations))
      decreases limits.rounds - round
    {
      var verdict;
      verdict, r, trace := RunRound(ids, r, limits, brokerMatches, RepliesIn(broker, round), model, start, trace);
      if verdict.Fail? {
        return Failure(verdict.error), run, trace;
      }
      running := verdict.Go?;
      round := round + 1;
    }
    run := r;
    var closed := CloseAll(ids, r.progress, r.counters);
    result := Success(closed);
  }
}
