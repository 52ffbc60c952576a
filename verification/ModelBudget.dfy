/** The scan-wide model budget: locked steps of many workers, in any interleaving. */
module ModelBudget {
  import opened GraphSnapshot

  datatype Reservation = Reservation(model: string, inputCharacters: nat, requestedOutputTokens: nat)

  datatype Limits = Limits(calls: int, inflight: int, inputCharacters: int, requestedOutputTokens: int, cost: real,
                           costByModel: map<string, real>)

  datatype Usage = Usage(calls: int, inflight: int, inputCharacters: int, requestedOutputTokens: int,
                         inputTokens: int, outputTokens: int, cost: real,
                         costByModel: map<string, real>, tokensByModel: map<string, (int, int)>)

  /** What a finished call reports. */
  datatype Spent = Spent(inputTokens: nat, outputTokens: nat, cost: real)

  datatype Refusal = CallLimit | InflightLimit | CharacterLimit | OutputTokenLimit

  datatype Overspent = TotalCost | ModelCost(model: string)

  const UNUSED := Usage(0, 0, 0, 0, 0, 0, 0.0, map[], map[])

  function AtLeastZero(n: int): nat {
    if n < 0 then 0 else n
  }

  // ---------------------------------------------------------------- one locked step

  function RefusalOf(l: Limits, u: Usage, r: Reservation): Option<Refusal> {
    if u.calls + 1 > l.calls then Some(CallLimit)
    else if u.inflight + 1 > l.inflight then Some(InflightLimit)
    else if u.inputCharacters + r.inputCharacters > l.inputCharacters then Some(CharacterLimit)
    else if u.requestedOutputTokens + r.requestedOutputTokens > l.requestedOutputTokens then Some(OutputTokenLimit)
    else None
  }

  function Reserved(u: Usage, r: Reservation): Usage {
    u.(calls := u.calls + 1, inflight := u.inflight + 1,
       inputCharacters := u.inputCharacters + r.inputCharacters,
       requestedOutputTokens := u.requestedOutputTokens + r.requestedOutputTokens)
  }

  function Released(u: Usage): Usage {
    u.(inflight := AtLeastZero(u.inflight - 1))
  }

  function CostOf(u: Usage, model: string): real {
    if model in u.costByModel then u.costByModel[model] else 0.0
  }

  function TokensOf(u: Usage, model: string): (int, int) {
    if model in u.tokensByModel then u.tokensByModel[model] else (0, 0)
  }

  function Charged(u: Usage, model: string, spent: Spent): Usage {
    u.(inputTokens := u.inputTokens + spent.inputTokens,
       outputTokens := u.outputTokens + spent.outputTokens,
       cost := u.cost + spent.cost,
       costByModel := u.costByModel[model := CostOf(u, model) + spent.cost],
       tokensByModel := u.tokensByModel[model := (TokensOf(u, model).0 + spent.inputTokens,
                                                  TokensOf(u, model).1 + spent.outputTokens)])
  }

  function OverspentBy(l: Limits, u: Usage, model: string): Option<Overspent> {
    if u.cost > l.cost then Some(TotalCost)
    else if model in l.costByModel && CostOf(u, model) > l.costByModel[model] then Some(ModelCost(model))
    else None
  }

  class ModelUsageBudget {
    const limits: Limits
    var calls: int
    var inflight: int
    var inputCharacters: int
    var requestedOutputTokens: int
    var inputTokens: int
    var outputTokens: int
    var cost: real
    var costByModel: map<string, real>
    var tokensByModel: map<string, (int, int)>

    function View(): Usage
      reads this
    {
      Usage(calls, inflight, inputCharacters, requestedOutputTokens, inputTokens, outputTokens, cost, costByModel, tokensByModel)
    }

    constructor (l: Limits)
      ensures limits == l && View() == UNUSED
    {
      limits := l;
      new;
      Reset();
    }

    /** Starts a new scan; calls still in flight are forgotten. */
    method Reset()
      modifies this
      ensures View() == UNUSED
    {
      calls, inflight, inputCharacters, requestedOutputTokens := 0, 0, 0, 0;
      inputTokens, outputTokens, cost := 0, 0, 0.0;
      costByModel, tokensByModel := map[], map[];
    }

    /** A refused reservation changes nothing. */
    method Reserve(model: string, characters: int, outputTokens: Option<int>) returns (r: Result<Reservation, Refusal>)
      modifies this
      ensures var wanted := Reservation(model, AtLeastZero(characters),
                                        AtLeastZero(if outputTokens.Some? then outputTokens.value else 0));
        match RefusalOf(limits, old(View()), wanted)
        case Some(refusal) => r == Failure(refusal) && View() == old(View())
        case None => r == Success(wanted) && View() == Reserved(old(View()), wanted)
    {
      var wanted := Reservation(model, AtLeastZero(characters), AtLeastZero(if outputTokens.Some? then outputTokens.value else 0));
      if calls + 1 > limits.calls { return Failure(CallLimit); }
      if inflight + 1 > limits.inflight { return Failure(InflightLimit); }
      if inputCharacters + wanted.inputCharacters > limits.inputCharacters { return Failure(CharacterLimit); }
      if requestedOutputTokens + wanted.requestedOutputTokens > limits.requestedOutputTokens {
        return Failure(OutputTokenLimit);
      }
      calls := calls + 1;
      inflight := inflight + 1;
      inputCharacters := inputCharacters + wanted.inputCharacters;
      requestedOutputTokens := requestedOutputTokens + wanted.requestedOutputTokens;
      r := Success(wanted);
    }

    method Cancel(r: Reservation)
      modifies this
      ensures View() == Released(old(View()))
    {
      inflight := AtLeastZero(inflight - 1);
    }

    /** The usage is recorded whether or not it overspends. */
    method Complete(r: Reservation, spent: Spent) returns (overspent: Option<Overspent>)
      modifies this
      ensures View() == Charged(Released(old(View())), r.model, spent)
      ensures overspent == OverspentBy(limits, View(), r.model)
    {
      inflight := AtLeastZero(inflight - 1);
      inputTokens := inputTokens + spent.inputTokens;
      outputTokens := outputTokens + spent.outputTokens;
      cost := cost + spent.cost;
      costByModel := costByModel[r.model := (if r.model in costByModel then costByModel[r.model] else 0.0) + spent.cost];
      var prior := if r.model in tokensByModel then tokensByModel[r.model] else (0, 0);
      tokensByModel := tokensByModel[r.model := (prior.0 + spent.inputTokens, prior.1 + spent.outputTokens)];
      if cost > limits.cost { return Some(TotalCost); }
      if r.model in limits.costByModel && costByModel[r.model] > limits.costByModel[r.model] {
        return Some(ModelCost(r.model));
      }
      overspent := None;
    }
  }

  // ---------------------------------------------------------------- interleaved runs

  datatype Event =
    | TryReserve(r: Reservation)
    | DoCancel(r: Reservation)
    | DoComplete(r: Reservation, spent: Spent)
    | DoReset

  /** The usage, the reservations still held, and those granted since the last reset. */
  datatype Run = Run(usage: Usage, held: multiset<Reservation>, granted: seq<Reservation>)

  function Step(l: Limits, s: Run, e: Event): Run {
    match e
    case TryReserve(r) =>
      if RefusalOf(l, s.usage, r).Some? then s
      else Run(Reserved(s.usage, r), s.held + multiset{r}, s.granted + [r])
    case DoCancel(r) => Run(Released(s.usage), s.held - multiset{r}, s.granted)
    case DoComplete(r, spent) => Run(Charged(Released(s.usage), r.model, spent), s.held - multiset{r}, s.granted)
    case DoReset => Run(UNUSED, s.held, [])
  }

  function After(l: Limits, events: seq<Event>): Run {
    if events == [] then Run(UNUSED, multiset{}, [])
    else Step(l, After(l, events[..|events| - 1]), events[|events| - 1])
  }

  /** Releases give back something held, and a reset finds nothing held. */
  predicate IsProper(s: Run, e: Event) {
    match e
    case TryReserve(_) => true
    case DoCancel(r) => r in s.held
    case DoComplete(r, _) => r in s.held
    case DoReset => s.held == multiset{}
  }

  /** What the workers owe the budget. */
  ghost predicate AllProper(l: Limits, events: seq<Event>) {
    forall i :: 0 <= i < |events| ==> IsProper(After(l, events[..i]), events[i])
  }

  function SumCharacters(granted: seq<Reservation>): nat {
    if granted == [] then 0 else SumCharacters(granted[..|granted| - 1]) + granted[|granted| - 1].inputCharacters
  }

  function SumOutputTokens(granted: seq<Reservation>): nat {
    if granted == [] then 0 else SumOutputTokens(granted[..|granted| - 1]) + granted[|granted| - 1].requestedOutputTokens
  }

  lemma ProperPrefix(l: Limits, events: seq<Event>, n: nat)
    requires n <= |events| && AllProper(l, events)
    ensures AllProper(l, events[..n])
  {
    var front := events[..n];
    forall i | 0 <= i < n
      ensures IsProper(After(l, front[..i]), front[i])
    {
      assert front[..i] == events[..i] && front[i] == events[i];
    }
  }

  /** In every reachable state the limits hold, whatever workers release, and cancelling refunds only the slot. */
  lemma {:induction false} LimitsAlwaysHold(l: Limits, events: seq<Event>)
    ensures var s := After(l, events);
      && s.usage.calls == |s.granted| <= AtLeastZero(l.calls)
      && s.usage.inputCharacters == SumCharacters(s.granted) <= AtLeastZero(l.inputCharacters)
      && s.usage.requestedOutputTokens == SumOutputTokens(s.granted) <= AtLeastZero(l.requestedOutputTokens)
      && 0 <= s.usage.inflight <= AtLeastZero(l.inflight)
  {
    if events != [] {
      var front := After(l, events[..|events| - 1]);
      LimitsAlwaysHold(l, events[..|events| - 1]);
      var e := events[|events| - 1];
      if e.TryReserve? {
        var grown := front.granted + [e.r];
        assert grown[..|grown| - 1] == front.granted;
      }
    }
  }

  /** While workers release only what they hold and resets wait for them, the counter is exactly the number held. */
  lemma {:induction false} InflightCountsHeld(l: Limits, events: seq<Event>)
    requires AllProper(l, events)
    ensures After(l, events).usage.inflight == |After(l, events).held| <= AtLeastZero(l.inflight)
  {
    if events != [] {
      var n := |events| - 1;
      ProperPrefix(l, events, n);
      InflightCountsHeld(l, events[..n]);
      var before, e := After(l, events[..n]), events[n];
      if e.TryReserve? {
        assert |before.held + multiset{e.r}| == |before.held| + 1;
      } else {
        assert IsProper(before, e);
      }
    }
  }

  /** ... and the floor at zero never engages. */
  lemma FloorNeverEngages(l: Limits, events: seq<Event>, i: nat)
    requires AllProper(l, events) && i < |events| && (events[i].DoCancel? || events[i].DoComplete?)
    ensures After(l, events[..i]).usage.inflight >= 1
  {
    ProperPrefix(l, events, i);
    InflightCountsHeld(l, events[..i]);
  }

  ghost predicate CountsHeld(s: Run) {
    s.usage.inflight == |s.held|
  }

  /** A release is harmless when it gives back something held, or when nothing is held at all; a reset only then. */
  ghost predicate Harmless(s: Run, e: Event) {
    IsProper(s, e) || s.held == multiset{}
  }

  /** The counter was right before, after, and between all events. */
  ghost predicate AlwaysCountsHeld(l: Limits, events: seq<Event>) {
    CountsHeld(After(l, events)) && (events != [] ==> AlwaysCountsHeld(l, events[..|events| - 1]))
  }

  ghost predicate OnlyHarmless(l: Limits, events: seq<Event>) {
    events != [] ==>
      var n := |events| - 1;
      OnlyHarmless(l, events[..n]) && Harmless(After(l, events[..n]), events[n])
  }

  /** The counter is right at every moment exactly when every release and every reset is harmless. */
  lemma {:induction false} CounterIsRightIff(l: Limits, events: seq<Event>)
    ensures AlwaysCountsHeld(l, events) <==> OnlyHarmless(l, events)
  {
    if events != [] {
      var n := |events| - 1;
      CounterIsRightIff(l, events[..n]);
      if AlwaysCountsHeld(l, events[..n]) {
      }
    }
  }

  /** After a reset the cap admits as many calls again as it allows, however many are still in flight. */
  lemma ResetOverrunsTheCap(l: Limits, s: Run, next: Reservation, n: nat)
    requires n <= l.inflight && n <= l.calls
    requires Times(n, next.inputCharacters) <= l.inputCharacters && Times(n, next.requestedOutputTokens) <= l.requestedOutputTokens
    ensures var t := ReserveTimes(l, Step(l, s, DoReset), next, n);
      t.usage.inflight == n && |t.held| == |s.held| + n
  {
    ReservedTimes(l, Step(l, s, DoReset), next, n);
  }

  function Times(n: nat, each: nat): nat {
    if n == 0 then 0 else Times(n - 1, each) + each
  }

  function ReserveTimes(l: Limits, s: Run, next: Reservation, n: nat): Run {
    if n == 0 then s else Step(l, ReserveTimes(l, s, next, n - 1), TryReserve(next))
  }

  lemma {:induction false} ReservedTimes(l: Limits, s: Run, next: Reservation, n: nat)
    requires s.usage == UNUSED && n <= l.inflight && n <= l.calls
    requires Times(n, next.inputCharacters) <= l.inputCharacters && Times(n, next.requestedOutputTokens) <= l.requestedOutputTokens
    ensures var t := ReserveTimes(l, s, next, n);
      && t.usage.inflight == t.usage.calls == n && |t.held| == |s.held| + n
      && t.usage.inputCharacters == Times(n, next.inputCharacters)
      && t.usage.requestedOutputTokens == Times(n, next.requestedOutputTokens)
  {
    if n > 0 {
      ReservedTimes(l, s, next, n - 1);
      var before := ReserveTimes(l, s, next, n - 1);
      assert |before.held + multiset{next}| == |before.held| + 1;
    }
  }

  /** Releasing one reservation twice leaves the counter one short of what is still held. */
  lemma DoubleReleaseUndercounts(l: Limits, s: Run, r: Reservation)
    requires CountsHeld(s) && s.held[r] == 1 && |s.held| >= 2
    ensures var t := Step(l, Step(l, s, DoCancel(r)), DoCancel(r));
      t.usage.inflight == |t.held| - 1 && t.held == s.held - multiset{r}
  {
    var once := s.held - multiset{r};
    assert once - multiset{r} == once;
  }

  /** ... so a budget at its cap then admits one call more than the cap. */
  lemma DoubleReleaseOverrunsTheCap(l: Limits, s: Run, r: Reservation, next: Reservation)
    requires CountsHeld(s) && s.held[r] == 1 && |s.held| == l.inflight >= 2
    requires s.usage.calls + 2 <= l.calls
    requires s.usage.inputCharacters + 2 * next.inputCharacters <= l.inputCharacters
    requires s.usage.requestedOutputTokens + 2 * next.requestedOutputTokens <= l.requestedOutputTokens
    ensures var t := Step(l, Step(l, s, DoCancel(r)), DoCancel(r));
      |Step(l, Step(l, t, TryReserve(next)), TryReserve(next)).held| == l.inflight + 1
  {
    DoubleReleaseUndercounts(l, s, r);
    var t := Step(l, Step(l, s, DoCancel(r)), DoCancel(r));
    assert |t.held + multiset{next}| == |t.held| + 1;
    assert |t.held + multiset{next} + multiset{next}| == |t.held| + 2;
  }

  // ---------------------------------------------------------------- per-model sums

  ghost function Total<V>(m: map<string, V>, weight: V -> real): real {
    if m == map[] then 0.0 else
      var k :| k in m;
      weight(m[k]) + Total(m - {k}, weight)
  }

  lemma {:induction false} TotalPicks<V>(m: map<string, V>, weight: V -> real, k: string)
    requires k in m
    ensures Total(m, weight) == weight(m[k]) + Total(m - {k}, weight)
    decreases m
  {
    var j :| j in m && Total(m, weight) == weight(m[j]) + Total(m - {j}, weight);
    if j != k {
      TotalPicks(m - {j}, weight, k);
      TotalPicks(m - {k}, weight, j);
      assert m - {j} - {k} == m - {k} - {j};
    }
  }

  lemma TotalUpdates<V>(m: map<string, V>, weight: V -> real, k: string, v: V)
    ensures Total(m[k := v], weight) == Total(m, weight) - (if k in m then weight(m[k]) else 0.0) + weight(v)
  {
    var grown := m[k := v];
    TotalPicks(grown, weight, k);
    if k in m {
      TotalPicks(m, weight, k);
      assert grown - {k} == m - {k};
    } else {
      assert grown - {k} == m;
    }
  }

  function Cost(): real -> real {
    (c: real) => c
  }

  function InputTokens(): ((int, int)) -> real {
    (t: (int, int)) => t.0 as real
  }

  function OutputTokens(): ((int, int)) -> real {
    (t: (int, int)) => t.1 as real
  }

  ghost predicate SumsAgree(u: Usage) {
    && Total(u.costByModel, Cost()) == u.cost
    && Total(u.tokensByModel, InputTokens()) == u.inputTokens as real
    && Total(u.tokensByModel, OutputTokens()) == u.outputTokens as real
  }

  lemma ChargingKeepsSums(u: Usage, model: string, spent: Spent)
    requires SumsAgree(u)
    ensures SumsAgree(Charged(u, model, spent))
  {
    var next := Charged(u, model, spent);
    TotalUpdates(u.costByModel, Cost(), model, next.costByModel[model]);
    TotalUpdates(u.tokensByModel, InputTokens(), model, next.tokensByModel[model]);
    TotalUpdates(u.tokensByModel, OutputTokens(), model, next.tokensByModel[model]);
  }

  /** The per-model bills add up to the scan's bill in every reachable state. */
  lemma {:induction false} PerModelUsageSumsUp(l: Limits, events: seq<Event>)
    ensures SumsAgree(After(l, events).usage)
  {
    if events != [] {
      var n := |events| - 1;
      PerModelUsageSumsUp(l, events[..n]);
      var e := events[n];
      if e.DoComplete? {
        ChargingKeepsSums(Released(After(l, events[..n]).usage), e.r.model, e.spent);
      }
    }
  }
}
