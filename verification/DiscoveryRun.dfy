/** One source region's obligations, driven to terminal dispositions by a model whose answers are arbitrary. */
module DiscoveryRun {
  import opened GraphSnapshot
  import opened Sequences

  datatype Status = NoIssue | NotApplicable | CandidateFound | NeedsContext | Unresolved

  /** A request for repository context; it is its own key. */
  datatype Request = Request(kind: string, detail: string)

  /** What the broker found; it is its own evidence key. */
  datatype Packet = Packet(evidence: bool, body: string, characters: nat)

  datatype Issue =
    | UnknownIdentifier | Omitted | Duplicated | MalformedReply
    | UngroundedLink | StrayLink | MissingRequest | StrayRequest

  datatype Reason = Said(text: string) | Contract(issue: Issue) | NotGrounded | BudgetExhausted | NoNewEvidence

  datatype Reply =
    | Malformed
    | Reply(status: Status, candidateIds: set<string>, requests: seq<Request>, text: string)

  datatype Answer = Answer(obligationId: string, reply: Reply)

  datatype Disposition = Disposition(status: Status, candidateIds: set<string>, requests: seq<Request>, reason: Reason)

  type Ledger = map<string, Disposition>

  // ---------------------------------------------------------------- judging one answer

  /** What becomes of an obligation: its answer stands, or it is marked unresolved. */
  datatype Verdict =
    | Stands(disposition: Disposition)
    | Refused(reason: Reason, issue: Option<Issue>)

  /** Links and requests match the status, and links point at known candidates. */
  predicate Coherent(status: Status, candidateIds: set<string>, requests: seq<Request>, known: set<string>) {
    && (status.CandidateFound? <==> candidateIds != {})
    && candidateIds <= known
    && (status.NeedsContext? <==> requests != [])
  }

  function RepliesTo(results: seq<Answer>, id: string): seq<Reply> {
    if results == [] then [] else
      var front, last := RepliesTo(results[..|results| - 1], id), results[|results| - 1];
      if last.obligationId == id then front + [last.reply] else front
  }

  function Weigh(reply: Reply, known: set<string>, rejected: set<string>): Verdict {
    match reply
    case Malformed => Refused(Contract(MalformedReply), Some(MalformedReply))
    case Reply(status, candidateIds, requests, text) =>
      if status.CandidateFound? && (candidateIds == {} || !(candidateIds <= known)) then
        Refused(NotGrounded, if candidateIds != {} && candidateIds <= rejected then None else Some(UngroundedLink))
      else if !status.CandidateFound? && candidateIds != {} then Refused(Contract(StrayLink), Some(StrayLink))
      else if status.NeedsContext? && requests == [] then Refused(Contract(MissingRequest), Some(MissingRequest))
      else if !status.NeedsContext? && requests != [] then Refused(Contract(StrayRequest), Some(StrayRequest))
      else Stands(Disposition(status, candidateIds, requests, Said(text)))
  }

  function Judge(replies: seq<Reply>, known: set<string>, rejected: set<string>): Verdict {
    if replies == [] then Refused(Contract(Omitted), Some(Omitted))
    else if |replies| != 1 then Refused(Contract(Duplicated), Some(Duplicated))
    else Weigh(replies[0], known, rejected)
  }

  function Settled(v: Verdict): Disposition {
    match v
    case Stands(d) => d
    case Refused(reason, _) => Disposition(Unresolved, {}, [], reason)
  }

  /** An answer stands exactly when it is the only one, well formed and coherent; then it is kept word for word. */
  lemma AnswerStandsIffCoherent(replies: seq<Reply>, known: set<string>, rejected: set<string>)
    ensures Judge(replies, known, rejected).Stands? <==>
      |replies| == 1 && replies[0].Reply?
      && Coherent(replies[0].status, replies[0].candidateIds, replies[0].requests, known)
    ensures var d := Settled(Judge(replies, known, rejected)); Coherent(d.status, d.candidateIds, d.requests, known)
    ensures Judge(replies, known, rejected).Stands? ==>
      var d := Settled(Judge(replies, known, rejected));
      Reply(d.status, d.candidateIds, d.requests, if d.reason.Said? then d.reason.text else "") == replies[0]
  {
  }

  /** The one refusal that is no contract issue: every link points at a candidate already refused for grounding. */
  lemma RejectedLinksAreExcused(replies: seq<Reply>, known: set<string>, rejected: set<string>)
    ensures Judge(replies, known, rejected) == Refused(NotGrounded, None) <==>
      |replies| == 1 && replies[0].Reply? && replies[0].status.CandidateFound?
      && replies[0].candidateIds != {} && replies[0].candidateIds <= rejected && !(replies[0].candidateIds <= known)
    ensures forall reason :: Judge(replies, known, rejected) == Refused(reason, None) ==> reason == NotGrounded
  {
  }

  // ---------------------------------------------------------------- waiting obligations

  predicate IsTerminal(ledger: Ledger, id: string) {
    id in ledger && !ledger[id].status.NeedsContext?
  }

  /** The obligations without a terminal disposition, in order. */
  function Waiting(obligations: seq<string>, ledger: Ledger): (ids: seq<string>)
    ensures forall id :: id in ids <==> id in obligations && !IsTerminal(ledger, id)
  {
    if obligations == [] then [] else
      (if IsTerminal(ledger, obligations[0]) then [] else [obligations[0]]) + Waiting(obligations[1..], ledger)
  }

  ghost predicate AllTerminal(obligations: seq<string>, ledger: Ledger) {
    forall id :: id in obligations ==> IsTerminal(ledger, id)
  }

  /** Terminal dispositions of `before` are still there, unchanged. */
  ghost predicate TerminalsKept(before: Ledger, after: Ledger) {
    forall id :: IsTerminal(before, id) ==> id in after && after[id] == before[id]
  }

  function ElementSet<T>(s: seq<T>): set<T> {
    set x | x in s
  }

  function RepliesFiled(byId: map<string, seq<Reply>>, id: string): seq<Reply> {
    if id in byId then byId[id] else []
  }

  ghost predicate AreGrouped(byId: map<string, seq<Reply>>, results: seq<Answer>) {
    && (forall id :: RepliesFiled(byId, id) == RepliesTo(results, id))
    && (forall id :: id in byId <==> exists a :: a in results && a.obligationId == id)
  }

  lemma OneMoreReply(byId: map<string, seq<Reply>>, results: seq<Answer>, a: Answer)
    requires AreGrouped(byId, results)
    ensures AreGrouped(byId[a.obligationId := RepliesFiled(byId, a.obligationId) + [a.reply]], results + [a])
  {
    var grown, all := byId[a.obligationId := RepliesFiled(byId, a.obligationId) + [a.reply]], results + [a];
    assert all[..|results|] == results;
    forall id
      ensures RepliesFiled(grown, id) == RepliesTo(all, id)
    {
      assert RepliesFiled(byId, id) == RepliesTo(results, id);
    }
    forall id
      ensures id in grown <==> exists b :: b in all && b.obligationId == id
    {
      assert forall b :: b in all <==> b in results || b == a;
    }
  }

  /** The replies grouped by the obligation they name. */
  method GroupReplies(results: seq<Answer>) returns (byId: map<string, seq<Reply>>)
    ensures AreGrouped(byId, results)
  {
    byId := map[];
    for n := 0 to |results|
      invariant AreGrouped(byId, results[..n])
    {
      var a := results[n];
      OneMoreReply(byId, results[..n], a);
      assert results[..n + 1] == results[..n] + [a];
      byId := byId[a.obligationId := RepliesFiled(byId, a.obligationId) + [a.reply]];
    }
    assert results[..|results|] == results;
  }

  method JudgeReplies(results: seq<Answer>, known: set<string>, rejected: set<string>, ids: set<string>,
                      obligations: seq<string>)
    returns (verdicts: map<string, Verdict>, unknown: bool)
    ensures verdicts == Verdicts(results, known, rejected, ids)
    ensures unknown <==> NamesUnknown(obligations, results)
  {
    var byId := GroupReplies(results);
    unknown := exists id :: id in byId && id !in obligations;
    verdicts := map id | id in ids :: Judge(RepliesFiled(byId, id), known, rejected);
  }

  // ---------------------------------------------------------------- the state of one region

  class CoverageState {
    const obligations: seq<string>
    var dispositions: Ledger
    var requestedContext: set<Request>
    var resolvedContext: set<Packet>
    var candidateIds: set<string>
    var needsContextIds: set<string>
    var contractIssues: seq<Issue>
    var groundingRejections: nat

    /** Every disposition is coherent, and whatever still waits for context is listed as waiting. */
    ghost predicate Valid()
      reads this
    {
      && (forall id :: id in dispositions ==> id in obligations)
      && (forall id :: id in dispositions ==> CoherentEntry(dispositions[id]))
      && (forall id :: id in dispositions && dispositions[id].status.NeedsContext? ==> id in needsContextIds)
      && (forall id :: id in needsContextIds ==> id in dispositions)
    }

    ghost predicate CoherentEntry(d: Disposition)
      reads this
    {
      Coherent(d.status, d.candidateIds, d.requests, candidateIds)
    }

    constructor (ids: seq<string>)
      ensures Valid() && obligations == ids && dispositions == map[]
      ensures requestedContext == {} && resolvedContext == {} && candidateIds == {} && needsContextIds == {}
      ensures contractIssues == [] && groundingRejections == 0
    {
      obligations := ids;
      dispositions := map[];
      requestedContext, resolvedContext, candidateIds, needsContextIds := {}, {}, {}, {};
      contractIssues, groundingRejections := [], 0;
    }

    /** Unresolved is terminal; the list of waiting obligations is left as it was. */
    method MarkUnresolved(ids: seq<string>, reason: Reason)
      requires Valid() && forall id :: id in ids ==> id in obligations
      modifies `dispositions
      ensures Valid()
      ensures forall id :: Lookup(dispositions, id) == MarkedEntry(old(dispositions), ids, reason, id)
    {
      for n := 0 to |ids|
        invariant forall id :: Lookup(dispositions, id) == MarkedEntry(old(dispositions), ids[..n], reason, id)
        invariant Valid()
      {
        ghost var before := dispositions;
        dispositions := dispositions[ids[n] := Disposition(Unresolved, {}, [], reason)];
        assert ids[..n + 1] == ids[..n] + [ids[n]];
        forall id
          ensures Lookup(dispositions, id) == MarkedEntry(old(dispositions), ids[..n + 1], reason, id)
        {
          assert Lookup(before, id) == MarkedEntry(old(dispositions), ids[..n], reason, id);
        }
      }
      assert ids[..|ids|] == ids;
    }

    /** Files the verdict on one expected obligation. */
    method File(id: string, v: Verdict, known: set<string>)
      requires Valid() && id in obligations
      requires v.Stands? ==> Coherent(v.disposition.status, v.disposition.candidateIds, v.disposition.requests, known)
      modifies this
      ensures dispositions == old(dispositions)[id := Settled(v)]
      ensures candidateIds == old(candidateIds) + Settled(v).candidateIds
      ensures needsContextIds == NeedsAfter(old(needsContextIds), id, v)
      ensures contractIssues == old(contractIssues) + if v.Refused? && v.issue.Some? then [v.issue.value] else []
      ensures groundingRejections == old(groundingRejections) + if v.Refused? && v.issue.None? then 1 else 0
      ensures requestedContext == old(requestedContext) && resolvedContext == old(resolvedContext)
      ensures Valid()
    {
      match v {
        case Stands(d) =>
          dispositions := dispositions[id := d];
          candidateIds := candidateIds + d.candidateIds;
          needsContextIds := needsContextIds - {id};
          if d.status.NeedsContext? {
            needsContextIds := needsContextIds + {id};
          }
        case Refused(reason, issue) =>
          if issue.Some? {
            contractIssues := contractIssues + [issue.value];
          } else {
            groundingRejections := groundingRejections + 1;
          }
          MarkUnresolved([id], reason);
          assert Lookup(dispositions, id) == Some(Settled(v));
          assert forall other :: Lookup(dispositions, other) == Lookup(old(dispositions)[id := Settled(v)], other);
          MapsAgree(dispositions, old(dispositions)[id := Settled(v)]);
      }
    }

    /** Files every verdict, in any order. */
    method FileAll(verdicts: map<string, Verdict>, known: set<string>)
      requires Valid()
      requires forall id :: id in verdicts ==> id in obligations && CoherentVerdict(verdicts[id], known)
      modifies this
      ensures Valid()
      ensures requestedContext == old(requestedContext) && resolvedContext == old(resolvedContext)
      ensures EntriesFiled(old(dispositions), dispositions, verdicts, verdicts.Keys)
      ensures NeedsFiled(old(needsContextIds), needsContextIds, verdicts, verdicts.Keys)
      ensures groundingRejections == old(groundingRejections) + |Excused(verdicts, verdicts.Keys)|
      ensures |contractIssues| == |old(contractIssues)| + |Faulted(verdicts, verdicts.Keys)|
      ensures old(candidateIds) <= candidateIds <= old(candidateIds) + known
    {
      var todo := verdicts.Keys;
      assert verdicts.Keys - todo == {};
      while todo != {}
        invariant Valid() && todo <= verdicts.Keys
        invariant requestedContext == old(requestedContext) && resolvedContext == old(resolvedContext)
        invariant old(candidateIds) <= candidateIds <= old(candidateIds) + known
        invariant AreFiled(old(dispositions), dispositions, old(needsContextIds), needsContextIds, verdicts, verdicts.Keys - todo,
                           groundingRejections - old(groundingRejections), |contractIssues| - |old(contractIssues)|)
      {
        var id :| id in todo;
        FiledOneMore(old(dispositions), dispositions, old(needsContextIds), needsContextIds, verdicts, verdicts.Keys - todo,
                     groundingRejections - old(groundingRejections), |contractIssues| - |old(contractIssues)|, id);
        assert verdicts.Keys - (todo - {id}) == verdicts.Keys - todo + {id};
        File(id, verdicts[id], known);
        todo := todo - {id};
      }
      assert verdicts.Keys - todo == verdicts.Keys;
    }

    /** Each waiting obligation gets the verdict on its replies; nothing else is touched. */
    method Apply(results: seq<Answer>, known: set<string>, rejected: set<string>)
      requires Valid()
      modifies this
      ensures Valid()
      ensures requestedContext == old(requestedContext) && resolvedContext == old(resolvedContext)
      ensures var judged := ElementSet(Waiting(obligations, old(dispositions)));
        var verdicts := Verdicts(results, known, rejected, judged);
        && EntriesFiled(old(dispositions), dispositions, verdicts, judged)
        && NeedsFiled(old(needsContextIds), needsContextIds, verdicts, judged)
        && groundingRejections == old(groundingRejections) + |Excused(verdicts, judged)|
        && |contractIssues| == |old(contractIssues)| + |Faulted(verdicts, judged)|
             + if NamesUnknown(obligations, results) then 1 else 0
      ensures old(candidateIds) <= candidateIds <= old(candidateIds) + known
    {
      var expected := if dispositions != map[] then ElementSet(Waiting(obligations, dispositions)) else ElementSet(obligations);
      assert expected == ElementSet(Waiting(obligations, dispositions));
      var verdicts, unknown := JudgeReplies(results, known, rejected, expected, obligations);
      VerdictsAreCoherent(results, known, rejected, expected);
      if unknown {
        contractIssues := contractIssues + [UnknownIdentifier];
      }
      assert verdicts.Keys == expected;
      FileAll(verdicts, known);
    }

    /**
      Resolves requests that were never asked before. The first packet is always accepted; a later one that would
      overrun the character limit ends the round.
     */
    method Gather(round: nat, chosen: seq<Request>, broker: (nat, Request) -> BrokerReply, limit: nat)
      returns (packets: seq<Packet>, raised: bool, ghost asked: seq<Request>)
      modifies `requestedContext, `resolvedContext
      ensures AddedOnce(old(requestedContext), asked, requestedContext) && forall r :: r in asked ==> r in chosen
      ensures AddedOnce(old(resolvedContext), packets, resolvedContext)
      ensures AllFromBroker(round, broker, asked, packets)
      ensures |packets| > 1 ==> Characters(packets) <= limit
      ensures raised ==> exists r :: r in asked && broker(round, r).BrokerFailed?
      ensures packets == [] && !raised ==>
        forall r :: r in chosen ==> r in old(requestedContext) || NothingNew(broker(round, r), old(resolvedContext))
    {
      packets, raised, asked := [], false, [];
      for n := 0 to |chosen|
        invariant IsCollected(round, broker, limit, old(requestedContext), old(resolvedContext), requestedContext, resolvedContext,
                              asked, packets)
        invariant forall r :: r in asked ==> r in chosen
        invariant packets == [] ==> forall r :: r in asked ==> NothingNew(broker(round, r), old(resolvedContext))
        invariant forall i :: 0 <= i < n ==> chosen[i] in requestedContext
        invariant !raised
      {
        var r := chosen[n];
        if r !in requestedContext {
          ghost var requested, resolved, before := requestedContext, resolvedContext, packets;
          var answer;
          packets, answer := Ask(r, broker(round, r), limit, packets);
          CollectOne(round, broker, limit, old(requestedContext), old(resolvedContext), requested, resolved, asked, before, r,
                     resolvedContext, packets);
          asked := asked + [r];
          raised := answer.Raised?;
          if !answer.Continue? {
            break;
          }
        }
      }
    }

    /** Asks one request; new evidence is accepted as long as it fits behind what was accepted before. */
    method Ask(r: Request, reply: BrokerReply, limit: nat, packets: seq<Packet>) returns (all: seq<Packet>, answer: Outcome)
      modifies `requestedContext, `resolvedContext
      ensures requestedContext == old(requestedContext) + {r}
      ensures answer.Raised? <==> reply.BrokerFailed?
      ensures !answer.Continue? ==> all == packets && resolvedContext == old(resolvedContext)
      ensures answer.Finished? ==> packets != []
      ensures answer.Continue? ==>
        if NothingNew(reply, old(resolvedContext)) then all == packets && resolvedContext == old(resolvedContext)
        else all == packets + [reply.packet] && resolvedContext == old(resolvedContext) + {reply.packet}
             && (packets != [] ==> Characters(packets) + reply.packet.characters <= limit)
    {
      all, answer := packets, Continue;
      requestedContext := requestedContext + {r};
      if reply.BrokerFailed? {
        return packets, Raised;
      }
      var p := reply.packet;
      if p.evidence && p !in resolvedContext {
        if packets != [] && Characters(packets) + p.characters > limit {
          return packets, Finished;
        }
        resolvedContext := resolvedContext + {p};
        all := packets + [p];
      }
    }

    /** Grounded candidates become known, and every waiting obligation is judged. */
    method JudgeResponse(response: Response, rejectedBefore: set<string>) returns (rejected: set<string>)
      requires Valid() && !response.Failed?
      modifies this
      ensures Valid() && TerminalsKept(old(dispositions), dispositions)
      ensures requestedContext == old(requestedContext) && resolvedContext == old(resolvedContext)
      ensures old(candidateIds) <= candidateIds <= old(candidateIds) + GroundedIds(response)
      ensures rejected == rejectedBefore + RejectedIds(response)
      ensures var verdicts := VerdictsOf(response, obligations, old(dispositions), old(candidateIds) + GroundedIds(response), rejected);
        && EntriesFiled(old(dispositions), dispositions, verdicts, verdicts.Keys)
        && NeedsFiled(old(needsContextIds), needsContextIds, verdicts, verdicts.Keys)
    {
      var valid, refused := SiftCandidates(response.candidates);
      rejected := rejectedBefore + refused;
      Apply(response.results, candidateIds + valid, rejected);
      ApplyKeepsTerminals(obligations, old(dispositions), dispositions,
                          Verdicts(response.results, old(candidateIds) + valid, rejected,
                                   ElementSet(Waiting(obligations, old(dispositions)))));
    }

    /** One model round: judge the answers, then either finish or fetch new evidence for what still waits. */
    method ReviewRound(round: nat, maximum: int, response: Response, broker: (nat, Request) -> BrokerReply, rules: Rules,
                       rejectedBefore: set<string>)
      returns (outcome: Outcome, rejected: set<string>, ghost log: RoundLog)
      requires Valid() && TotalPreorder(rules.before)
      modifies this
      ensures Valid() && TerminalsKept(old(dispositions), dispositions)
      ensures old(candidateIds) <= candidateIds <= old(candidateIds) + GroundedIds(response)
      ensures AddedOnce(old(requestedContext), log.asked, requestedContext)
      ensures AddedOnce(old(resolvedContext), log.packets, resolvedContext)
      ensures rejected == rejectedBefore + RejectedIds(response)
      ensures response.Failed? ==> outcome.Raised? && dispositions == old(dispositions)
      ensures log.verdicts == VerdictsOf(response, obligations, old(dispositions), old(candidateIds) + GroundedIds(response), rejected)
      ensures EntriesFiled(old(dispositions), log.judged, log.verdicts, log.verdicts.Keys)
      ensures NeedsFiled(old(needsContextIds), needsContextIds, log.verdicts, log.verdicts.Keys)
      ensures Closes(obligations, log.judged, dispositions)
      ensures match outcome
        case Raised => Breaks(round, response, broker)
        case Finished => FinishedRightly(obligations, round, maximum, broker, rules, log, dispositions,
                                         old(requestedContext), old(resolvedContext))
        case Continue => ContinuesRightly(obligations, round, maximum, broker, rules, log, dispositions)
    {
      rejected, log := rejectedBefore, RoundLog(map[], dispositions, [], [], []);
      if response.Failed? {
        outcome := Raised;
      } else {
        rejected := JudgeResponse(response, rejectedBefore);
        outcome, log := SeekContext(round, maximum, broker, rules);
        log := log.(verdicts := VerdictsOf(response, obligations, old(dispositions), old(candidateIds) + GroundedIds(response), rejected));
      }
    }

    /** Finishes the round, or fetches new evidence for what still waits. */
    method SeekContext(round: nat, maximum: int, broker: (nat, Request) -> BrokerReply, rules: Rules)
      returns (outcome: Outcome, ghost log: RoundLog)
      requires Valid() && TotalPreorder(rules.before)
      modifies `dispositions, `requestedContext, `resolvedContext
      ensures Valid() && TerminalsKept(old(dispositions), dispositions) && log.judged == old(dispositions)
      ensures Closes(obligations, old(dispositions), dispositions)
      ensures AddedOnce(old(requestedContext), log.asked, requestedContext)
      ensures AddedOnce(old(resolvedContext), log.packets, resolvedContext)
      ensures match outcome
        case Raised => exists r :: broker(round, r).BrokerFailed?
        case Finished => FinishedRightly(obligations, round, maximum, broker, rules, log, dispositions,
                                         old(requestedContext), old(resolvedContext))
        case Continue => ContinuesRightly(obligations, round, maximum, broker, rules, log, dispositions)
    {
      log := RoundLog(map[], dispositions, [], [], []);
      var waiting := Waiting(obligations, dispositions);
      if waiting == [] {
        return Finished, log;
      }
      assert waiting[0] in waiting;
      if round >= maximum {
        GiveUp(waiting, BudgetExhausted);
        return Finished, log;
      }
      var chosen := ChooseRequests(RequestsOf(dispositions, waiting), rules);
      var packets, raised;
      ghost var asked;
      packets, raised, asked := Gather(round, chosen, broker, rules.contextLimit);
      log := RoundLog(map[], dispositions, chosen, asked, packets);
      if raised {
        return Raised, log;
      }
      if packets == [] {
        GiveUp(waiting, NoNewEvidence);
        return Finished, log;
      }
      outcome := Continue;
    }

    /** Marking everything that waits leaves only terminal dispositions, and changes no terminal one. */
    method GiveUp(waiting: seq<string>, reason: Reason)
      requires Valid() && waiting == Waiting(obligations, dispositions)
      modifies `dispositions
      ensures Valid() && AllTerminal(obligations, dispositions) && TerminalsKept(old(dispositions), dispositions)
      ensures GivenUp(obligations, old(dispositions), dispositions, reason)
    {
      MarkUnresolved(waiting, reason);
      forall id
        ensures id in obligations ==> IsTerminal(dispositions, id)
        ensures IsTerminal(old(dispositions), id) ==> id in dispositions && dispositions[id] == old(dispositions)[id]
      {
        assert Lookup(dispositions, id) == MarkedEntry(old(dispositions), waiting, reason, id);
      }
    }
  }

  // ---------------------------------------------------------------- context requests

  datatype CandidateItem = CandidateItem(id: string, grounded: bool)

  datatype Response = Failed | Response(candidates: seq<CandidateItem>, results: seq<Answer>)

  datatype BrokerReply = BrokerFailed | Found(packet: Packet)

  datatype Rules = Rules(before: (Request, Request) -> bool, requestLimit: nat, contextLimit: nat)

  datatype Outcome = Continue | Finished | Raised

  /** One round: the verdicts, the judged dispositions, the requests put first, those asked, and the new evidence. */
  datatype RoundLog = RoundLog(verdicts: map<string, Verdict>, judged: Ledger, chosen: seq<Request>, asked: seq<Request>, packets: seq<Packet>)

  /** Every waiting obligation was marked unresolved for `reason`, and nothing else changed. */
  ghost predicate GivenUp(obligations: seq<string>, before: Ledger, after: Ledger, reason: Reason) {
    forall id :: Lookup(after, id) == MarkedEntry(before, Waiting(obligations, before), reason, id)
  }

  /** A round leaves the judged dispositions as they are, or gives up on everything that waits. */
  ghost predicate Closes(obligations: seq<string>, judged: Ledger, after: Ledger) {
    || after == judged
    || GivenUp(obligations, judged, after, BudgetExhausted)
    || GivenUp(obligations, judged, after, NoNewEvidence)
  }

  /** The verdict on each waiting obligation; a failed response brings none. */
  ghost function VerdictsOf(response: Response, obligations: seq<string>, before: Ledger, known: set<string>, rejected: set<string>)
    : map<string, Verdict>
  {
    if response.Failed? then map[] else Verdicts(response.results, known, rejected, ElementSet(Waiting(obligations, before)))
  }

  /** A run stops only with everything judged, out of rounds, or without any new evidence among the first requests. */
  ghost predicate FinishedRightly(obligations: seq<string>, round: nat, maximum: int,
                                  broker: (nat, Request) -> BrokerReply, rules: Rules, log: RoundLog, after: Ledger,
                                  requested: set<Request>, resolved: set<Packet>)
  {
    && AllTerminal(obligations, after)
    && if AllTerminal(obligations, log.judged) then after == log.judged
       else if round >= maximum then GivenUp(obligations, log.judged, after, BudgetExhausted)
       else
         && GivenUp(obligations, log.judged, after, NoNewEvidence)
         && IsChoice(rules, RequestsOf(log.judged, Waiting(obligations, log.judged)), log.chosen)
         && forall r :: r in log.chosen ==> r in requested || NothingNew(broker(round, r), resolved)
  }

  /** A run goes on only with something waiting, rounds left, and new evidence for the requests that come first. */
  ghost predicate ContinuesRightly(obligations: seq<string>, round: nat, maximum: int,
                                   broker: (nat, Request) -> BrokerReply, rules: Rules, log: RoundLog, after: Ledger)
  {
    && !AllTerminal(obligations, log.judged) && round < maximum && after == log.judged
    && IsChoice(rules, RequestsOf(log.judged, Waiting(obligations, log.judged)), log.chosen)
    && (forall r :: r in log.asked ==> r in log.chosen)
    && log.packets != [] && AllFromBroker(round, broker, log.asked, log.packets)
    && (|log.packets| > 1 ==> Characters(log.packets) <= rules.contextLimit)
  }

  /** The distinct requests in order of priority, cut at the limit. */
  ghost predicate IsChoice(rules: Rules, requests: seq<Request>, chosen: seq<Request>) {
    && NoDuplicates(chosen) && SortedBy(rules.before, chosen)
    && |chosen| == (if |ElementSet(requests)| <= rules.requestLimit then |ElementSet(requests)| else rules.requestLimit)
    && (forall r :: r in chosen ==> r in requests)
    && (forall c, r :: c in chosen && r in requests && r !in chosen ==> rules.before(c, r))
  }

  ghost function RejectedIds(r: Response): set<string> {
    if r.Failed? then {} else set c | c in r.candidates && !c.grounded && c.id != "" :: c.id
  }

  ghost function GroundedIds(r: Response): set<string> {
    if r.Failed? then {} else set c | c in r.candidates && c.grounded :: c.id
  }

  ghost predicate Breaks(round: nat, response: Response, broker: (nat, Request) -> BrokerReply) {
    response.Failed? || exists r :: broker(round, r).BrokerFailed?
  }

  /** `p` is evidence the broker found for one of the requests asked. */
  ghost predicate FromBroker(round: nat, broker: (nat, Request) -> BrokerReply, asked: seq<Request>, p: Packet) {
    p.evidence && exists r :: r in asked && broker(round, r) == Found(p)
  }

  ghost predicate AllFromBroker(round: nat, broker: (nat, Request) -> BrokerReply, asked: seq<Request>, packets: seq<Packet>) {
    forall p :: p in packets ==> FromBroker(round, broker, asked, p)
  }

  /** Since the start of a round, these requests were asked and these packets accepted. */
  ghost predicate IsCollected(round: nat, broker: (nat, Request) -> BrokerReply, limit: nat, requestedBefore: set<Request>,
                              resolvedBefore: set<Packet>, requested: set<Request>, resolved: set<Packet>, asked: seq<Request>,
                              packets: seq<Packet>)
  {
    && AddedOnce(requestedBefore, asked, requested) && AddedOnce(resolvedBefore, packets, resolved)
    && AllFromBroker(round, broker, asked, packets) && (|packets| > 1 ==> Characters(packets) <= limit)
  }

  /** `all` is `packets`, perhaps with new evidence that still fits. */
  predicate IsAccepted(reply: BrokerReply, limit: nat, packets: seq<Packet>, resolved: set<Packet>, all: seq<Packet>, after: set<Packet>) {
    || (all == packets && after == resolved)
    || (reply.Found? && reply.packet.evidence && reply.packet !in resolved
        && all == packets + [reply.packet] && after == resolved + {reply.packet}
        && (packets != [] ==> Characters(packets) + reply.packet.characters <= limit))
  }

  lemma CollectOne(round: nat, broker: (nat, Request) -> BrokerReply, limit: nat, requestedBefore: set<Request>,
                   resolvedBefore: set<Packet>, requested: set<Request>, resolved: set<Packet>, asked: seq<Request>,
                   packets: seq<Packet>, r: Request, after: set<Packet>, all: seq<Packet>)
    requires IsCollected(round, broker, limit, requestedBefore, resolvedBefore, requested, resolved, asked, packets)
    requires r !in requested && IsAccepted(broker(round, r), limit, packets, resolved, all, after)
    ensures IsCollected(round, broker, limit, requestedBefore, resolvedBefore, requested + {r}, after, asked + [r], all)
  {
    AddedOneMore(requestedBefore, asked, requested, r);
    PacketsStayFromBroker(round, broker, asked, packets, r, all);
    if all != packets {
      AddedOneMore(resolvedBefore, packets, resolved, broker(round, r).packet);
      assert all[..|packets|] == packets;
    }
  }

  lemma PacketsStayFromBroker(round: nat, broker: (nat, Request) -> BrokerReply, asked: seq<Request>, packets: seq<Packet>,
                              r: Request, all: seq<Packet>)
    requires AllFromBroker(round, broker, asked, packets)
    requires all == packets || (exists p :: broker(round, r) == Found(p) && p.evidence && all == packets + [p])
    ensures AllFromBroker(round, broker, asked + [r], all)
  {
    forall p | p in all
      ensures FromBroker(round, broker, asked + [r], p)
    {
      if p in packets {
        assert FromBroker(round, broker, asked, p);
        var q :| q in asked && broker(round, q) == Found(p);
        assert q in asked + [r];
      } else {
        assert r in asked + [r];
      }
    }
  }

  predicate NothingNew(reply: BrokerReply, resolved: set<Packet>) {
    reply.Found? && (!reply.packet.evidence || reply.packet in resolved)
  }

  function Characters(packets: seq<Packet>): nat {
    if packets == [] then 0 else Characters(packets[..|packets| - 1]) + packets[|packets| - 1].characters
  }

  function RequestsOf(ledger: Ledger, ids: seq<string>): (requests: seq<Request>)
    ensures forall id, r :: id in ids && id in ledger && r in ledger[id].requests ==> r in requests
  {
    if ids == [] then [] else
      (if ids[0] in ledger then ledger[ids[0]].requests else []) + RequestsOf(ledger, ids[1..])
  }

  method SiftCandidates(items: seq<CandidateItem>) returns (valid: set<string>, rejected: set<string>)
    ensures valid == set c | c in items && c.grounded :: c.id
    ensures rejected == set c | c in items && !c.grounded && c.id != "" :: c.id
  {
    valid, rejected := {}, {};
    for n := 0 to |items|
      invariant valid == set c | c in items[..n] && c.grounded :: c.id
      invariant rejected == set c | c in items[..n] && !c.grounded && c.id != "" :: c.id
    {
      assert items[..n + 1] == items[..n] + [items[n]];
      if items[n].grounded {
        valid := valid + {items[n].id};
      } else if items[n].id != "" {
        rejected := rejected + {items[n].id};
      }
    }
    assert items[..|items|] == items;
  }

  method ChooseRequests(requests: seq<Request>, rules: Rules) returns (chosen: seq<Request>)
    requires TotalPreorder(rules.before)
    ensures IsChoice(rules, requests, chosen)
  {
    var unique: seq<Request> := [];
    for n := 0 to |requests|
      invariant NoDuplicates(unique) && forall r :: r in unique <==> r in requests[..n]
    {
      assert requests[..n + 1] == requests[..n] + [requests[n]];
      if requests[n] !in unique {
        unique := unique + [requests[n]];
      }
    }
    assert requests[..|requests|] == requests;
    var sorted := Sort(unique, rules.before);
    PermutationKeepsDistinct(unique, sorted);
    NoDuplicatesCardinality(sorted);
    assert ElementSet(requests) == set r | r in sorted;
    var cut := if |sorted| < rules.requestLimit then |sorted| else rules.requestLimit;
    chosen := sorted[..cut];
    forall c, r | c in chosen && r in requests && r !in chosen
      ensures rules.before(c, r)
    {
      var i :| 0 <= i < cut && sorted[i] == c;
      var j :| 0 <= j < |sorted| && sorted[j] == r;
    }
  }

  /** Judging touches waiting obligations only, and leaves none without a disposition. */
  lemma ApplyKeepsTerminals(obligations: seq<string>, before: Ledger, after: Ledger, verdicts: map<string, Verdict>)
    requires verdicts.Keys == ElementSet(Waiting(obligations, before))
    requires EntriesFiled(before, after, verdicts, verdicts.Keys)
    ensures TerminalsKept(before, after)
    ensures forall id :: id in obligations ==> id in after
  {
    forall id
      ensures IsTerminal(before, id) ==> id in after && after[id] == before[id]
      ensures id in obligations ==> id in after
    {
      assert Lookup(after, id) == JudgedEntry(before, verdicts, verdicts.Keys, id);
    }
  }

  function MarkedEntry(before: Ledger, ids: seq<string>, reason: Reason, id: string): Option<Disposition> {
    if id in ids then Some(Disposition(Unresolved, {}, [], reason)) else Lookup(before, id)
  }

  function Verdicts(results: seq<Answer>, known: set<string>, rejected: set<string>, ids: set<string>): map<string, Verdict> {
    map id | id in ids :: Judge(RepliesTo(results, id), known, rejected)
  }

  predicate CoherentVerdict(v: Verdict, known: set<string>) {
    v.Stands? ==> Coherent(v.disposition.status, v.disposition.candidateIds, v.disposition.requests, known)
  }

  lemma VerdictsAreCoherent(results: seq<Answer>, known: set<string>, rejected: set<string>, ids: set<string>)
    ensures var verdicts := Verdicts(results, known, rejected, ids);
      forall id :: id in verdicts ==> CoherentVerdict(verdicts[id], known)
  {
    forall id | id in ids
      ensures CoherentVerdict(Judge(RepliesTo(results, id), known, rejected), known)
    {
      AnswerStandsIffCoherent(RepliesTo(results, id), known, rejected);
    }
  }

  function JudgedEntry(before: Ledger, verdicts: map<string, Verdict>, filed: set<string>, id: string): Option<Disposition> {
    if id in filed && id in verdicts then Some(Settled(verdicts[id])) else Lookup(before, id)
  }

  /** Only an answer that stands changes whether an obligation is listed as waiting. */
  predicate StillNeeds(before: set<string>, verdicts: map<string, Verdict>, filed: set<string>, id: string) {
    if id in filed && id in verdicts && verdicts[id].Stands? then verdicts[id].disposition.status.NeedsContext? else id in before
  }

  ghost predicate EntriesFiled(before: Ledger, now: Ledger, verdicts: map<string, Verdict>, filed: set<string>) {
    forall id :: Lookup(now, id) == JudgedEntry(before, verdicts, filed, id)
  }

  ghost predicate NeedsFiled(before: set<string>, now: set<string>, verdicts: map<string, Verdict>, filed: set<string>) {
    forall id :: id in now <==> StillNeeds(before, verdicts, filed, id)
  }

  lemma EntriesGrow(before: Ledger, now: Ledger, verdicts: map<string, Verdict>, filed: set<string>, id: string)
    requires id in verdicts && EntriesFiled(before, now, verdicts, filed)
    ensures EntriesFiled(before, now[id := Settled(verdicts[id])], verdicts, filed + {id})
  {
    var next := now[id := Settled(verdicts[id])];
    forall other
      ensures Lookup(next, other) == JudgedEntry(before, verdicts, filed + {id}, other)
    {
      assert Lookup(now, other) == JudgedEntry(before, verdicts, filed, other);
    }
  }

  function NeedsAfter(needs: set<string>, id: string, v: Verdict): set<string> {
    if v.Refused? then needs else needs - {id} + if v.disposition.status.NeedsContext? then {id} else {}
  }

  lemma NeedsGrow(before: set<string>, now: set<string>, verdicts: map<string, Verdict>, filed: set<string>, id: string)
    requires id in verdicts && id !in filed
    requires NeedsFiled(before, now, verdicts, filed)
    ensures NeedsFiled(before, NeedsAfter(now, id, verdicts[id]), verdicts, filed + {id})
  {
    assert id in now <==> StillNeeds(before, verdicts, filed, id);
  }

  ghost function Excused(verdicts: map<string, Verdict>, filed: set<string>): set<string> {
    set id | id in filed && id in verdicts && verdicts[id].Refused? && verdicts[id].issue.None?
  }

  ghost function Faulted(verdicts: map<string, Verdict>, filed: set<string>): set<string> {
    set id | id in filed && id in verdicts && verdicts[id].Refused? && verdicts[id].issue.Some?
  }

  predicate NamesUnknown(obligations: seq<string>, results: seq<Answer>) {
    exists a :: a in results && a.obligationId !in obligations
  }

  lemma TallyGrows(verdicts: map<string, Verdict>, filed: set<string>, id: string)
    requires id in verdicts && id !in filed
    ensures |Excused(verdicts, filed + {id})| ==
      |Excused(verdicts, filed)| + if verdicts[id].Refused? && verdicts[id].issue.None? then 1 else 0
    ensures |Faulted(verdicts, filed + {id})| ==
      |Faulted(verdicts, filed)| + if verdicts[id].Refused? && verdicts[id].issue.Some? then 1 else 0
  {
    var excused, faulted := Excused(verdicts, filed), Faulted(verdicts, filed);
    if verdicts[id].Stands? {
      assert Excused(verdicts, filed + {id}) == excused && Faulted(verdicts, filed + {id}) == faulted;
    } else if verdicts[id].issue.None? {
      assert Excused(verdicts, filed + {id}) == excused + {id} && Faulted(verdicts, filed + {id}) == faulted;
    } else {
      assert Excused(verdicts, filed + {id}) == excused && Faulted(verdicts, filed + {id}) == faulted + {id};
    }
  }

  /** The verdicts in `filed` are in the ledger, on the list and in both tallies. */
  ghost predicate AreFiled(before: Ledger, now: Ledger, needsBefore: set<string>, needs: set<string>,
                           verdicts: map<string, Verdict>, filed: set<string>, excused: int, faulted: int)
  {
    && EntriesFiled(before, now, verdicts, filed) && NeedsFiled(needsBefore, needs, verdicts, filed)
    && excused == |Excused(verdicts, filed)| && faulted == |Faulted(verdicts, filed)|
  }

  lemma FiledOneMore(before: Ledger, now: Ledger, needsBefore: set<string>, needs: set<string>,
                     verdicts: map<string, Verdict>, filed: set<string>, excused: int, faulted: int, id: string)
    requires AreFiled(before, now, needsBefore, needs, verdicts, filed, excused, faulted) && id in verdicts && id !in filed
    ensures var v := verdicts[id];
      AreFiled(before, now[id := Settled(v)], needsBefore, NeedsAfter(needs, id, v), verdicts, filed + {id},
               excused + (if v.Refused? && v.issue.None? then 1 else 0), faulted + if v.Refused? && v.issue.Some? then 1 else 0)
  {
    TallyGrows(verdicts, filed, id);
    EntriesGrow(before, now, verdicts, filed, id);
    NeedsGrow(needsBefore, needs, verdicts, filed, id);
  }

  lemma MapsAgree<K, V>(a: map<K, V>, b: map<K, V>)
    requires forall k :: Lookup(a, k) == Lookup(b, k)
    ensures a == b
  {
    forall k
      ensures (k in a <==> k in b) && (k in a ==> a[k] == b[k])
    {
      assert Lookup(a, k) == Lookup(b, k);
    }
  }

  // ---------------------------------------------------------------- the whole run

  datatype Failure = RaisedIn(round: nat) | RetainedNonTerminal

  /** How one round judged: by which known candidates, with which verdicts and dispositions. */
  datatype Step = Step(known: set<string>, verdicts: map<string, Verdict>, judged: Ledger)

  /** What one run did, round by round; a ledger holds the dispositions after its round. */
  datatype Trace = Trace(ledgers: seq<Ledger>, steps: seq<Step>, asked: seq<Request>, delivered: seq<Packet>)

  ghost function RejectedBy(model: nat -> Response, rounds: nat): set<string> {
    if rounds == 0 then {} else RejectedBy(model, rounds - 1) + RejectedIds(model(rounds - 1))
  }

  /** A round judged exactly what waited before it, by the model's answers and the candidates grounded so far. */
  ghost predicate StepFollows(obligations: seq<string>, model: nat -> Response, round: nat, before: Ledger, step: Step, after: Ledger) {
    && GroundedIds(model(round)) <= step.known && AllGrounded(step.known, model, round + 1)
    && step.verdicts == VerdictsOf(model(round), obligations, before, step.known, RejectedBy(model, round + 1))
    && EntriesFiled(before, step.judged, step.verdicts, step.verdicts.Keys)
    && Closes(obligations, step.judged, after)
  }

  ghost function LedgerBefore(ledgers: seq<Ledger>, round: nat): Ledger
    requires round <= |ledgers|
  {
    if round == 0 then map[] else ledgers[round - 1]
  }

  ghost function StepRule(obligations: seq<string>, model: nat -> Response): (nat, Ledger, Step, Ledger) -> bool {
    (round: nat, before: Ledger, step: Step, after: Ledger) => StepFollows(obligations, model, round, before, step, after)
  }

  ghost predicate EachStep(rule: (nat, Ledger, Step, Ledger) -> bool, trace: Trace) {
    && |trace.steps| == |trace.ledgers|
    && forall k: nat :: k < |trace.steps| ==> rule(k, LedgerBefore(trace.ledgers, k), trace.steps[k], trace.ledgers[k])
  }

  ghost predicate RunFollows(obligations: seq<string>, model: nat -> Response, trace: Trace) {
    EachStep(StepRule(obligations, model), trace)
  }

  /** The last answer on `id` that stood asked for context. */
  ghost predicate LastAsks(steps: seq<Step>, id: string) {
    steps != [] &&
    var front, verdicts := steps[..|steps| - 1], steps[|steps| - 1].verdicts;
    if id in verdicts && verdicts[id].Stands? then verdicts[id].disposition.status.NeedsContext? else LastAsks(front, id)
  }

  /** Some answer on `id` that stood asked for context. */
  ghost predicate AskedOnce(steps: seq<Step>, id: string) {
    exists k :: 0 <= k < |steps| && Asks(steps[k], id)
  }

  predicate Asks(step: Step, id: string) {
    id in step.verdicts && step.verdicts[id].Stands? && step.verdicts[id].disposition.status.NeedsContext?
  }

  /** The model's own answer settled `id`; it was neither refused nor given up. */
  predicate Answered(ledger: Ledger, id: string) {
    IsTerminal(ledger, id) && ledger[id].reason.Said?
  }

  /** The list of obligations needing context is what the standing answers make it. */
  ghost predicate ListIsExact(listed: set<string>, steps: seq<Step>, ledger: Ledger) {
    forall id :: IsListedRightly(listed, steps, ledger, id)
  }

  ghost predicate IsListedRightly(listed: set<string>, steps: seq<Step>, ledger: Ledger, id: string) {
    && (id in listed <==> LastAsks(steps, id))
    && (id in listed <==> AskedOnce(steps, id) && !Answered(ledger, id))
    && (id in ledger && !ledger[id].reason.Said? ==> !ledger[id].status.NeedsContext?)
  }

  /** Giving up and refusing leave the list alone; an answer that stands settles whether its obligation is listed. */
  lemma ListStaysExact(obligations: seq<string>, listed: set<string>, steps: seq<Step>, before: Ledger,
                       step: Step, after: Ledger, next: set<string>, id: string)
    requires IsListedRightly(listed, steps, before, id)
    requires step.verdicts.Keys == {} || step.verdicts.Keys == ElementSet(Waiting(obligations, before))
    requires ReasonsMatch(step.verdicts)
    requires EntriesFiled(before, step.judged, step.verdicts, step.verdicts.Keys)
    requires NeedsFiled(listed, next, step.verdicts, step.verdicts.Keys) && Closes(obligations, step.judged, after)
    ensures IsListedRightly(next, steps + [step], after, id)
  {
    var grown := steps + [step];
    assert grown[..|grown| - 1] == steps;
    AskedOnceMore(steps, step, id);
    assert id in next <==> StillNeeds(listed, step.verdicts, step.verdicts.Keys, id);
    assert Lookup(step.judged, id) == JudgedEntry(before, step.verdicts, step.verdicts.Keys, id);
    if after != step.judged {
      var waiting := Waiting(obligations, step.judged);
      var reason := if GivenUp(obligations, step.judged, after, BudgetExhausted) then BudgetExhausted else NoNewEvidence;
      assert Lookup(after, id) == MarkedEntry(step.judged, waiting, reason, id);
    }
  }

  lemma AskedOnceMore(steps: seq<Step>, step: Step, id: string)
    ensures AskedOnce(steps + [step], id) <==> AskedOnce(steps, id) || Asks(step, id)
  {
    var grown := steps + [step];
    assert Asks(step, id) ==> Asks(grown[|steps|], id);
    assert forall k :: 0 <= k < |steps| ==> grown[k] == steps[k];
  }

  /** Standing verdicts carry what the model said, refusals do not. */
  ghost predicate ReasonsMatch(verdicts: map<string, Verdict>) {
    forall id :: id in verdicts ==> (verdicts[id].Stands? <==> Settled(verdicts[id]).reason.Said?)
  }

  lemma StandingIsSaid(response: Response, obligations: seq<string>, before: Ledger, known: set<string>, rejected: set<string>)
    ensures ReasonsMatch(VerdictsOf(response, obligations, before, known, rejected))
  {
  }

  /** The whole account of the first rounds of a run, beside the state they led to. */
  ghost predicate Accounts(obligations: seq<string>, model: nat -> Response, trace: Trace, ledger: Ledger, listed: set<string>,
                           linked: set<string>, requested: set<Request>, resolved: set<Packet>, rejected: set<string>)
  {
    var round := |trace.ledgers|;
    && ledger == LedgerBefore(trace.ledgers, round) && rejected == RejectedBy(model, round)
    && RunFollows(obligations, model, trace) && ListIsExact(listed, trace.steps, ledger)
    && TerminalForever(trace.ledgers) && AllGrounded(linked, model, round)
    && AddedOnce({}, trace.asked, requested) && AddedOnce({}, trace.delivered, resolved)
  }

  /** One more round in the account. */
  function Recorded(trace: Trace, step: Step, after: Ledger, log: RoundLog): Trace {
    Trace(trace.ledgers + [after], trace.steps + [step], trace.asked + log.asked, trace.delivered + log.packets)
  }

  lemma EachStepGrows(rule: (nat, Ledger, Step, Ledger) -> bool, trace: Trace, grown: Trace, step: Step, after: Ledger)
    requires EachStep(rule, trace) && rule(|trace.steps|, LedgerBefore(trace.ledgers, |trace.ledgers|), step, after)
    requires grown.ledgers == trace.ledgers + [after] && grown.steps == trace.steps + [step]
    ensures EachStep(rule, grown)
  {
    forall k: nat | k < |grown.steps|
      ensures rule(k, LedgerBefore(grown.ledgers, k), grown.steps[k], grown.ledgers[k])
    {
      assert LedgerBefore(grown.ledgers, k) == LedgerBefore(trace.ledgers, k);
      if k < |trace.steps| {
        assert grown.steps[k] == trace.steps[k] && grown.ledgers[k] == trace.ledgers[k];
        assert rule(k, LedgerBefore(trace.ledgers, k), trace.steps[k], trace.ledgers[k]);
      }
    }
  }

  lemma ListGrows(obligations: seq<string>, model: nat -> Response, round: nat, listed: set<string>, steps: seq<Step>,
                  before: Ledger, step: Step, after: Ledger, next: set<string>)
    requires ListIsExact(listed, steps, before) && StepFollows(obligations, model, round, before, step, after)
    requires NeedsFiled(listed, next, step.verdicts, step.verdicts.Keys)
    ensures ListIsExact(next, steps + [step], after)
  {
    StandingIsSaid(model(round), obligations, before, step.known, RejectedBy(model, round + 1));
    forall id
      ensures IsListedRightly(next, steps + [step], after, id)
    {
      assert IsListedRightly(listed, steps, before, id);
      ListStaysExact(obligations, listed, steps, before, step, after, next, id);
    }
  }

  /** A round that judges and closes as it should extends the account. */
  lemma NextRound(obligations: seq<string>, model: nat -> Response, trace: Trace, before: Ledger, listed: set<string>,
                  linked: set<string>, requested: set<Request>, resolved: set<Packet>, log: RoundLog, step: Step, after: Ledger,
                  listedNext: set<string>, linkedNext: set<string>, requestedNext: set<Request>, resolvedNext: set<Packet>)
    requires var round := |trace.ledgers|;
      && Accounts(obligations, model, trace, before, listed, linked, requested, resolved, RejectedBy(model, round))
      && step == Step(linked + GroundedIds(model(round)), log.verdicts, log.judged)
      && log.verdicts == VerdictsOf(model(round), obligations, before, step.known, RejectedBy(model, round + 1))
      && linkedNext <= step.known
    requires EntriesFiled(before, log.judged, log.verdicts, log.verdicts.Keys) && Closes(obligations, log.judged, after)
    requires NeedsFiled(listed, listedNext, log.verdicts, log.verdicts.Keys) && TerminalsKept(before, after)
    requires AddedOnce(requested, log.asked, requestedNext) && AddedOnce(resolved, log.packets, resolvedNext)
    ensures Accounts(obligations, model, Recorded(trace, step, after, log), after, listedNext, linkedNext, requestedNext,
                     resolvedNext, RejectedBy(model, |trace.ledgers| + 1))
  {
    var round, grown := |trace.ledgers|, Recorded(trace, step, after, log);
    GroundedInOneMore(linked, step.known, model, round);
    GroundedInOneMore(linked, linkedNext, model, round);
    EachStepGrows(StepRule(obligations, model), trace, grown, step, after);
    ListGrows(obligations, model, round, listed, trace.steps, before, step, after, listedNext);
    TerminalStaysForever(trace.ledgers, after);
    AddedOnceAgain({}, trace.asked, requested, log.asked, requestedNext);
    AddedOnceAgain({}, trace.delivered, resolved, log.packets, resolvedNext);
  }

  /** Every obligation that asked for context was in the end answered by the model itself. */
  ghost predicate AllAskedAreAnswered(obligations: seq<string>, steps: seq<Step>, ledger: Ledger) {
    forall id :: id in obligations && AskedOnce(steps, id) ==> Answered(ledger, id)
  }

  ghost predicate TerminalForever(ledgers: seq<Ledger>) {
    forall i, j :: 0 <= i <= j < |ledgers| ==> TerminalsKept(ledgers[i], ledgers[j])
  }

  lemma TerminalStaysForever(ledgers: seq<Ledger>, next: Ledger)
    requires TerminalForever(ledgers)
    requires ledgers != [] ==> TerminalsKept(ledgers[|ledgers| - 1], next)
    ensures TerminalForever(ledgers + [next])
  {
    var grown := ledgers + [next];
    forall i, j | 0 <= i <= j < |grown|
      ensures TerminalsKept(grown[i], grown[j])
    {
      if i < |ledgers| == j {
        assert TerminalsKept(ledgers[i], ledgers[|ledgers| - 1]);
      }
    }
  }

  /** Every candidate id linked so far was grounded by one of the first `rounds` responses. */
  ghost predicate AllGrounded(ids: set<string>, model: nat -> Response, rounds: nat) {
    forall id :: id in ids ==> exists k: nat :: k < rounds && id in GroundedIds(model(k))
  }

  lemma GroundedInOneMore(before: set<string>, after: set<string>, model: nat -> Response, rounds: nat)
    requires AllGrounded(before, model, rounds) && after <= before + GroundedIds(model(rounds))
    ensures AllGrounded(after, model, rounds + 1)
  {
    forall id | id in after
      ensures exists k: nat :: k < rounds + 1 && id in GroundedIds(model(k))
    {
      if id in before {
        var k: nat :| k < rounds && id in GroundedIds(model(k));
        assert k < rounds + 1;
      } else {
        assert id in GroundedIds(model(rounds));
      }
    }
  }

  ghost predicate NothingBreaks(model: nat -> Response, broker: (nat, Request) -> BrokerReply, maximum: int) {
    forall round: nat :: round <= maximum ==> !Breaks(round, model(round), broker)
  }

  /**
    Whatever the model answers and the broker finds, a region's run keeps every terminal disposition, asks and delivers
    nothing twice, and ends with every obligation terminal. The closing check fires exactly for a region without
    obligations or a run without rounds.
   */
  method AnalyzeRegion(obligations: seq<string>, maximum: int, model: nat -> Response,
                       broker: (nat, Request) -> BrokerReply, rules: Rules)
    returns (state: CoverageState, failure: Option<Failure>, ghost trace: Trace)
    requires TotalPreorder(rules.before)
    ensures fresh(state) && state.Valid() && state.obligations == obligations
    ensures failure.None? ==> obligations != [] && AllTerminal(obligations, state.dispositions)
    ensures NothingBreaks(model, broker, maximum) ==>
      failure == if obligations == [] || maximum < 0 then Some(RetainedNonTerminal) else None
    ensures failure == Some(RetainedNonTerminal) ==> obligations == [] || maximum < 0
    ensures TerminalForever(trace.ledgers) && (maximum >= 0 ==> |trace.ledgers| <= maximum + 1)
    ensures AddedOnce({}, trace.asked, state.requestedContext) && AddedOnce({}, trace.delivered, state.resolvedContext)
    ensures AllGrounded(state.candidateIds, model, |trace.ledgers|)
    ensures RunFollows(obligations, model, trace) && state.dispositions == LedgerBefore(trace.ledgers, |trace.ledgers|)
    ensures ListIsExact(state.needsContextIds, trace.steps, state.dispositions)
    ensures failure.None? ==> (state.needsContextIds == {} <==> AllAskedAreAnswered(obligations, trace.steps, state.dispositions))
  {
    state := new CoverageState(obligations);
    failure, trace := None, Trace([], [], [], []);
    var rejected: set<string> := {};
    var round, running := 0, true;
    while running && round <= maximum
      invariant state.Valid() && fresh(state) && state.obligations == obligations
      invariant 0 <= round && |trace.ledgers| == round && (maximum >= 0 ==> round <= maximum + 1)
      invariant round == 0 ==> running && state.dispositions == map[]
      invariant running ==> failure.None? && (maximum >= 0 ==> round <= maximum)
      invariant maximum < 0 ==> round == 0
      invariant !running && failure.None? ==> AllTerminal(obligations, state.dispositions)
      invariant failure.Some? ==> failure.value.RaisedIn? && !NothingBreaks(model, broker, maximum)
      invariant Accounts(obligations, model, trace, state.dispositions, state.needsContextIds, state.candidateIds,
                         state.requestedContext, state.resolvedContext, rejected)
      decreases maximum + 1 - round
    {
      ghost var before, listed, known := state.dispositions, state.needsContextIds, state.candidateIds;
      ghost var requested, resolved := state.requestedContext, state.resolvedContext;
      var outcome;
      ghost var log;
      outcome, rejected, log := state.ReviewRound(round, maximum, model(round), broker, rules, rejected);
      ghost var step := Step(known + GroundedIds(model(round)), log.verdicts, log.judged);
      NextRound(obligations, model, trace, before, listed, known, requested, resolved, log, step, state.dispositions,
                state.needsContextIds, state.candidateIds, state.requestedContext, state.resolvedContext);
      trace := Recorded(trace, step, state.dispositions, log);
      if outcome.Raised? {
        failure := Some(RaisedIn(round));
      }
      running := outcome.Continue?;
      round := round + 1;
    }
    var waiting := Waiting(obligations, state.dispositions);
    assert waiting != [] ==> waiting[0] in waiting;
    assert obligations != [] ==> obligations[0] in obligations;
    if failure.None? && (obligations == [] || waiting != []) {
      failure := Some(RetainedNonTerminal);
    }
    EmptyListIff(state.obligations, state.needsContextIds, trace.steps, state.dispositions);
  }

  lemma EmptyListIff(obligations: seq<string>, listed: set<string>, steps: seq<Step>, ledger: Ledger)
    requires ListIsExact(listed, steps, ledger) && forall id :: id in listed ==> id in obligations
    ensures listed == {} <==> AllAskedAreAnswered(obligations, steps, ledger)
  {
    forall id
      ensures id in listed <==> AskedOnce(steps, id) && !Answered(ledger, id)
    {
      assert IsListedRightly(listed, steps, ledger, id);
    }
    assert AllAskedAreAnswered(obligations, steps, ledger) ==> forall id :: id !in listed;
  }

  const QUESTION := Reply(NeedsContext, {}, [Request("definition", "f")], "")

  /** A model that answers obligation `q` with a request for context, whatever the round. */
  function Asking(): nat -> Response {
    (round: nat) => Response([], [Answer("q", QUESTION)])
  }

  lemma AskingAsks(before: Ledger, step: Step, after: Ledger)
    requires before == map[] && StepFollows(["q"], Asking(), 0, before, step, after)
    ensures Asks(step, "q")
  {
    var results := Asking()(0).results;
    assert "q" in ["q"] && Waiting(["q"], map[]) == ["q"] && "q" in ElementSet(Waiting(["q"], map[]));
    assert results[..0] == [] && RepliesTo(results, "q") == [QUESTION];
  }

  /** A run whose only answer asks for context and that has no rounds left: nothing waits, yet the obligation is listed. */
  method GivingUpLeavesWaitingListed() returns (state: CoverageState, failure: Option<Failure>)
    ensures failure.None? && AllTerminal(["q"], state.dispositions) && state.needsContextIds == {"q"}
  {
    var broker := (round: nat, r: Request) => Found(Packet(false, "", 0));
    ghost var trace;
    state, failure, trace := AnalyzeRegion(["q"], 0, Asking(), broker, Rules((a, b) => true, 1, 0));
    assert "q" in ["q"];
    assert StepRule(["q"], Asking())(0, LedgerBefore(trace.ledgers, 0), trace.steps[0], trace.ledgers[0]);
    AskingAsks(LedgerBefore(trace.ledgers, 0), trace.steps[0], trace.ledgers[0]);
    assert trace.steps[..0] == [];
    assert IsListedRightly(state.needsContextIds, trace.steps, state.dispositions, "q");
    assert forall id :: id in state.needsContextIds ==> id in state.obligations;
  }
}
