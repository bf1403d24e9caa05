// The replanning loop of pkg/proxy/adaptive.go (DialContext) and what it records.
module AdaptiveDialer {
  import opened Bytes
  import opened Text
  import opened Memory
  import opened Ranking
  import Carrier
  import Dpi
  import opened Planner

  // ----- Candidates ------------------------------------------------------------------------------

  function NotDirect(cs: seq<Carrier.Candidate>): seq<Carrier.Candidate> {
    if cs == [] then []
    else
      NotDirect(cs[..|cs| - 1]) + if cs[|cs| - 1].kind == Carrier.Direct then [] else [cs[|cs| - 1]]
  }

  /** withoutDirectCarrier: never leaves nothing. */
  function WithoutDirect(cs: seq<Carrier.Candidate>): seq<Carrier.Candidate> {
    if NotDirect(cs) == [] then cs else NotDirect(cs)
  }

  predicate InRange(cs: seq<Carrier.Candidate>, tried: seq<nat>) {
    forall k :: 0 <= k < |tried| ==> tried[k] < |cs|
  }

  function Pick(cs: seq<Carrier.Candidate>, tried: seq<nat>): (r: seq<Carrier.Candidate>)
    requires InRange(cs, tried)
    ensures |r| == |tried|
    ensures forall k :: 0 <= k < |tried| ==> r[k] == cs[tried[k]]
  {
    seq(|tried|, k requires 0 <= k < |tried| => cs[tried[k]])
  }

  /** The second list is the first without its direct candidates, in order; but all of it if it has no other. */
  ghost predicate DirectDropped(cs: seq<Carrier.Candidate>, out: seq<Carrier.Candidate>) {
    if forall p :: 0 <= p < |cs| ==> cs[p].kind == Carrier.Direct then out == cs
    else exists kept: seq<nat> :: NotDirectPlaces(cs, kept) && out == Pick(cs, kept)
  }

  ghost predicate NotDirectPlaces(cs: seq<Carrier.Candidate>, kept: seq<nat>) {
    && InRange(cs, kept) && (forall i, j :: 0 <= i < j < |kept| ==> kept[i] < kept[j])
    && forall p: nat :: p < |cs| ==> (p in kept <==> cs[p].kind != Carrier.Direct)
  }

  lemma {:induction false} NotDirectKeeps(cs: seq<Carrier.Candidate>) returns (kept: seq<nat>)
    ensures NotDirectPlaces(cs, kept) && NotDirect(cs) == Pick(cs, kept)
  {
    if cs == [] {
      kept := [];
    } else {
      var n := |cs| - 1;
      var before := NotDirectKeeps(cs[..n]);
      kept := if cs[n].kind == Carrier.Direct then before else before + [n];
      OneMorePlace(cs, before, kept);
    }
  }

  lemma OneMorePlace(cs: seq<Carrier.Candidate>, before: seq<nat>, kept: seq<nat>)
    requires cs != [] && NotDirectPlaces(cs[..|cs| - 1], before)
    requires kept == if cs[|cs| - 1].kind == Carrier.Direct then before else before + [|cs| - 1]
    ensures NotDirectPlaces(cs, kept)
    ensures Pick(cs, kept)
      == Pick(cs[..|cs| - 1], before) + if cs[|cs| - 1].kind == Carrier.Direct then [] else [cs[|cs| - 1]]
  {
    var n: nat := |cs| - 1;
    assert n !in before;
    forall p: nat | p < |cs|
      ensures p in kept <==> cs[p].kind != Carrier.Direct
    {
      assert p < n ==> cs[p] == cs[..n][p] && (p in kept <==> p in before);
    }
    PickOneMore(cs, before, kept);
  }

  lemma PickOneMore(cs: seq<Carrier.Candidate>, before: seq<nat>, kept: seq<nat>)
    requires cs != [] && InRange(cs[..|cs| - 1], before)
    requires kept == if cs[|cs| - 1].kind == Carrier.Direct then before else before + [|cs| - 1]
    ensures InRange(cs, kept)
    ensures Pick(cs, kept)
      == Pick(cs[..|cs| - 1], before) + if cs[|cs| - 1].kind == Carrier.Direct then [] else [cs[|cs| - 1]]
  {
  }

  lemma WithoutDirectDrops(cs: seq<Carrier.Candidate>)
    ensures DirectDropped(cs, WithoutDirect(cs))
  {
    var kept := NotDirectKeeps(cs);
    NothingKeptIff(cs, kept);
  }

  lemma NothingKeptIff(cs: seq<Carrier.Candidate>, kept: seq<nat>)
    requires NotDirectPlaces(cs, kept)
    ensures kept == [] <==> forall p :: 0 <= p < |cs| ==> cs[p].kind == Carrier.Direct
  {
    if kept != [] {
      assert kept[0] in kept;
    }
    assert forall p: nat :: p < |cs| && cs[p].kind != Carrier.Direct ==> p in kept;
  }

  method WithoutDirectCarrier(candidates: seq<Carrier.Candidate>) returns (out: seq<Carrier.Candidate>)
    ensures out == WithoutDirect(candidates) && DirectDropped(candidates, out)
  {
    out := [];
    for i := 0 to |candidates|
      invariant out == NotDirect(candidates[..i])
    {
      assert candidates[..i + 1][..i] == candidates[..i];
      if candidates[i].kind == Carrier.Direct {
        continue;
      }
      out := out + [candidates[i]];
    }
    assert candidates[..|candidates|] == candidates;
    if |out| == 0 {
      out := candidates;
    }
    WithoutDirectDrops(candidates);
  }

  // ----- What one dial records ---------------------------------------------------------------------

  /** "tcp" */
  const TCP: text := [116, 99, 112]

  function DialResult(req: Request, plan: Plan, success: bool, scope: Scope, latency: int): Result {
    Result(plan, req.destination, TCP, success, scope, false, latency, 0.0, None)
  }

  /** The carrier failure that one failed dial is reported as. */
  function Charge(req: Request, plan: Plan, latency: int, now: int): Report {
    Report(DialResult(req, plan, false, CarrierScope, latency), now)
  }

  predicate FailuresOnly(reports: seq<Report>) {
    forall i :: 0 <= i < |reports| ==> reports[i].result.scope == CarrierScope && !reports[i].result.success
  }

  function Wins(log: seq<Observed<Carrier.Event>>): nat {
    if log == [] then 0 else Wins(log[..|log| - 1]) + if log[|log| - 1].event.success then 1 else 0
  }

  lemma CarrierLogSnoc(reports: seq<Report>, r: Report)
    ensures CarrierLog(reports + [r]) == CarrierLog(reports) + CarrierEvents(r.result, r.now)
    ensures DpiLog(reports + [r]) == DpiLog(reports) + DpiEvents(r.result, r.now)
  {
    assert (reports + [r])[..|reports|] == reports;
  }

  lemma WinsSnoc(log: seq<Observed<Carrier.Event>>, o: Observed<Carrier.Event>)
    ensures Wins(log + [o]) == Wins(log) + if o.event.success then 1 else 0
  {
    assert (log + [o])[..|log|] == log;
  }

  lemma FailureAddsNoWin(r: Result, now: int)
    requires r.scope == CarrierScope && !r.success
    ensures |CarrierEvents(r, now)| <= 1 && DpiEvents(r, now) == []
    ensures CarrierEvents(r, now) != [] ==> !CarrierEvents(r, now)[0].event.success
  {
    assert AboutCarrier(r) && !AboutDpi(r);
    assert CarrierEvents(r, now) == if Trim(CarrierName(r)) == [] then [] else [CarrierEvent(r, false, now)];
  }

  lemma NoWinAdded(log: seq<Observed<Carrier.Event>>, events: seq<Observed<Carrier.Event>>)
    requires |events| <= 1 && (events != [] ==> !events[0].event.success)
    ensures Wins(log + events) == Wins(log)
  {
    if events == [] {
      assert log + events == log;
    } else {
      assert events == [events[0]];
      WinsSnoc(log, events[0]);
    }
  }

  lemma {:induction false} FailuresWinNothing(reports: seq<Report>)
    requires FailuresOnly(reports)
    ensures Wins(CarrierLog(reports)) == 0 && DpiLog(reports) == []
  {
    if reports != [] {
      var before, last := reports[..|reports| - 1], reports[|reports| - 1];
      FailuresWinNothing(before);
      FailureAddsNoWin(last.result, last.now);
      NoWinAdded(CarrierLog(before), CarrierEvents(last.result, last.now));
    }
  }

  /** Both layers of this plan can be recorded. */
  predicate Named(plan: Plan) {
    Trim(plan.carrier.carrier.name) != [] && Trim(plan.dpi.strategy.name) != []
  }

  lemma PlansAreNamed(decay: int -> real, cs: Carrier.Store, ds: Dpi.Store, req: Request, clock: nat -> int)
    ensures var plan := PlanFor(decay, cs, ds, req, clock); plan.Some? ==> Named(plan.value)
  {
    if PlanFor(decay, cs, ds, req, clock).Some? {
      PlanSuitsCarrier(decay, cs, ds, req, clock);
    }
  }

  /** What a returned connection leaves behind: earlier failures, then exactly one carrier success,
      and one DPI success unless the route is direct, whose DPI verdict application bytes decide. */
  ghost predicate Evidence(reports: seq<Report>, outcome: Outcome) {
    && Wins(CarrierLog(reports)) == (if outcome.Connected? then 1 else 0)
    && |DpiLog(reports)| == (if outcome.Connected? && outcome.plan.carrier.carrier.kind != Carrier.Direct then 1 else 0)
    && (DpiLog(reports) != [] ==> DpiLog(reports)[0].event.success)
  }

  /** The engines' logs at some earlier moment. */
  datatype Start = Start(carriers: seq<Observed<Carrier.Event>>, dpi: seq<Observed<Dpi.Event>>)

  ghost predicate Recorded(planner: Planner, start: Start, reports: seq<Report>)
    reads planner.carriers, planner.dpi
  {
    && planner.Valid()
    && planner.carriers.log == start.carriers + CarrierLog(reports)
    && planner.dpi.log == start.dpi + DpiLog(reports)
  }

  method Note(planner: Planner, result: Result, now: int, ghost start: Start, ghost reports: seq<Report>)
    returns (ok: bool, ghost all: seq<Report>)
    requires Recorded(planner, start, reports)
    modifies planner.carriers, planner.dpi
    ensures ok <==> Recordable(result)
    ensures all == reports + [Report(result, now)] && Recorded(planner, start, all)
    ensures planner.carriers.log == old(planner.carriers.log) + CarrierEvents(result, now)
    ensures planner.dpi.log == old(planner.dpi.log) + DpiEvents(result, now)
  {
    ok := planner.Observe(result, now);
    all := reports + [Report(result, now)];
    CarrierLogSnoc(reports, Report(result, now));
    Assoc(start.carriers, CarrierLog(reports), CarrierEvents(result, now));
    Assoc(start.dpi, DpiLog(reports), DpiEvents(result, now));
  }

  // ----- The loop ---------------------------------------------------------------------------------------

  datatype Dial = Fails(latency: int) | Connects(latency: int)

  datatype Outcome = NotConfigured | NoPlan | Exhausted | Connected(plan: Plan) | RecordFailed

  /** The results of one successful connection, in order. */
  function SuccessReports(req: Request, plan: Plan, latency: int, now: int): seq<Report> {
    var first := Report(DialResult(req, plan, true, CarrierScope, latency), now);
    if plan.carrier.carrier.kind == Carrier.Direct then [first]
    else [first, Report(DialResult(req, plan, true, DpiScope, latency), now)]
  }

  lemma CarrierResultEvents(r: Result, now: int)
    requires r.scope == CarrierScope && Trim(CarrierName(r)) != []
    ensures CarrierEvents(r, now) == [CarrierEvent(r, r.success, now)] && DpiEvents(r, now) == []
  {
    assert AboutCarrier(r) && !AboutDpi(r);
  }

  lemma CarrierSuccess(req: Request, plan: Plan, latency: int, now: int)
    requires Named(plan)
    ensures var r := DialResult(req, plan, true, CarrierScope, latency);
      && |CarrierEvents(r, now)| == 1 && CarrierEvents(r, now)[0].event.success
      && DpiEvents(r, now) == []
  {
    CarrierResultEvents(DialResult(req, plan, true, CarrierScope, latency), now);
  }

  lemma DpiSuccess(req: Request, plan: Plan, latency: int, now: int)
    requires Named(plan)
    ensures var r := DialResult(req, plan, true, DpiScope, latency);
      CarrierEvents(r, now) == [] && |DpiEvents(r, now)| == 1 && DpiEvents(r, now)[0].event.success
  {
  }

  lemma AfterCarrierSuccess(req: Request, plan: Plan, latency: int, now: int, failures: seq<Report>)
    requires Named(plan) && FailuresOnly(failures)
    ensures var one := failures + [Report(DialResult(req, plan, true, CarrierScope, latency), now)];
      Wins(CarrierLog(one)) == 1 && DpiLog(one) == []
  {
    var r := DialResult(req, plan, true, CarrierScope, latency);
    FailuresWinNothing(failures);
    CarrierSuccess(req, plan, latency, now);
    CarrierLogSnoc(failures, Report(r, now));
    var events := CarrierEvents(r, now);
    assert events == [events[0]];
    WinsSnoc(CarrierLog(failures), events[0]);
  }

  lemma AfterDpiSuccess(req: Request, plan: Plan, latency: int, now: int, reports: seq<Report>)
    requires Named(plan) && DpiLog(reports) == []
    ensures var both := reports + [Report(DialResult(req, plan, true, DpiScope, latency), now)];
      CarrierLog(both) == CarrierLog(reports) && |DpiLog(both)| == 1 && DpiLog(both)[0].event.success
  {
    var r := DialResult(req, plan, true, DpiScope, latency);
    DpiSuccess(req, plan, latency, now);
    CarrierLogSnoc(reports, Report(r, now));
  }

  lemma SuccessEvidence(req: Request, plan: Plan, latency: int, now: int, failures: seq<Report>)
    requires Named(plan) && FailuresOnly(failures)
    ensures Evidence(failures + SuccessReports(req, plan, latency, now), Connected(plan))
  {
    var one := failures + [Report(DialResult(req, plan, true, CarrierScope, latency), now)];
    AfterCarrierSuccess(req, plan, latency, now, failures);
    SuccessInOrder(req, plan, latency, now, failures);
    if plan.carrier.carrier.kind != Carrier.Direct {
      AfterDpiSuccess(req, plan, latency, now, one);
      var both := one + [Report(DialResult(req, plan, true, DpiScope, latency), now)];
      EvidenceIs(both, plan);
    } else {
      EvidenceIs(one, plan);
    }
  }

  lemma EvidenceIs(reports: seq<Report>, plan: Plan)
    requires Wins(CarrierLog(reports)) == 1
    requires |DpiLog(reports)| == if plan.carrier.carrier.kind == Carrier.Direct then 0 else 1
    requires DpiLog(reports) != [] ==> DpiLog(reports)[0].event.success
    ensures Evidence(reports, Connected(plan))
  {
  }

  lemma SuccessInOrder(req: Request, plan: Plan, latency: int, now: int, failures: seq<Report>)
    ensures var first := Report(DialResult(req, plan, true, CarrierScope, latency), now);
      var second := Report(DialResult(req, plan, true, DpiScope, latency), now);
      failures + SuccessReports(req, plan, latency, now)
        == if plan.carrier.carrier.kind == Carrier.Direct then failures + [first] else failures + [first] + [second]
  {
    Appended(failures, Report(DialResult(req, plan, true, CarrierScope, latency), now),
             Report(DialResult(req, plan, true, DpiScope, latency), now));
  }

  lemma Appended<T>(s: seq<T>, a: T, b: T)
    ensures s + [a] + [b] == s + [a, b]
  {
  }

  method RecordSuccessfulConnection(planner: Planner, req: Request, plan: Plan, latency: int, now: int,
                                    ghost start: Start, ghost failures: seq<Report>)
    returns (outcome: Outcome, ghost all: seq<Report>)
    requires Recorded(planner, start, failures) && Named(plan) && FailuresOnly(failures)
    modifies planner.carriers, planner.dpi
    ensures Recorded(planner, start, all)
    ensures outcome == Connected(plan) && all == failures + SuccessReports(req, plan, latency, now)
    ensures Evidence(all, outcome)
  {
    SuccessEvidence(req, plan, latency, now, failures);
    SuccessInOrder(req, plan, latency, now, failures);
    var ok;
    ok, all := Note(planner, DialResult(req, plan, true, CarrierScope, latency), now, start, failures);
    if !ok {
      return RecordFailed, all;
    }
    if plan.carrier.carrier.kind != Carrier.Direct {
      ok, all := Note(planner, DialResult(req, plan, true, DpiScope, latency), now, start, all);
      if !ok {
        return RecordFailed, all;
      }
    }
    outcome := Connected(plan);
  }

  function PlanKey(plan: Plan): text {
    plan.carrier.carrier.name + [BAR] + (plan.dpi.strategy.name + [BAR] + plan.dpiTarget)
  }

  /** The order in which a cold loop should try candidates p and q. */
  predicate Before(cs: seq<Carrier.Candidate>, p: nat, q: nat)
    requires p < |cs| && q < |cs|
  {
    cs[p].cost < cs[q].cost || (cs[p].cost == cs[q].cost && p < q)
  }

  /** Every candidate once, in stable cost order. */
  predicate StableCostOrder(cs: seq<Carrier.Candidate>, tried: seq<nat>) {
    && InRange(cs, tried)
    && (forall a, b :: 0 <= a < b < |tried| ==> Before(cs, tried[a], tried[b]))
    && (forall p: nat :: p < |cs| ==> p in tried)
  }

  const SPREAD := 1.025

  /** Nothing is known about these candidates yet, their names make distinct keys, and their costs
      lie close enough together. */
  ghost predicate Cold(store: Carrier.Store, key: text, cs: seq<Carrier.Candidate>) {
    && Distinct(cs) && Close(cs)
    && (forall p :: 0 <= p < |cs| ==> !Carrier.Known(At(store, key, cs[p].name)))
  }

  predicate Distinct(cs: seq<Carrier.Candidate>) {
    && (forall p :: 0 <= p < |cs| ==> BAR !in cs[p].name)
    && (forall p, q :: 0 <= p < q < |cs| ==> cs[p].name != cs[q].name)
  }

  predicate Close(cs: seq<Carrier.Candidate>) {
    forall p, q :: 0 <= p < |cs| && 0 <= q < |cs| ==> cs[p].cost - cs[q].cost < SPREAD
  }

  /** No evidence of this loop is older than one half-life when a later round looks at it. */
  ghost predicate Prompt(clock: nat -> nat -> int, observed: nat -> int) {
    forall i: nat, k: nat, j: nat :: i < k ==> clock(k)(j) - observed(i) <= Carrier.HALF_LIFE
  }

  ghost predicate AllFail(dial: nat -> Dial) {
    forall i: nat :: dial(i).Fails?
  }

  // ----- One failure ranks a carrier below every untried one ----------------------------------------------

  /** The stats of a carrier that has failed once, in this loop. */
  ghost predicate FailedOnce(stats: Option<Carrier.Stats>, observed: nat -> int, rounds: nat) {
    exists k: nat, latency: int :: k < rounds && stats == Some(FailureStats(latency, observed(k)))
  }

  function FailureStats(latency: int, at: int): Carrier.Stats {
    Carrier.Revised(Carrier.NoStats, Carrier.Event(false, latency, 0.0, at))
  }

  lemma FailureLearns(trafficClass: text, c: Carrier.Candidate, latency: int, at: int)
    ensures Carrier.Learned(trafficClass, c, FailureStats(latency, at)) <= -1.8 - c.cost
  {
  }

  lemma FailureScore(decay: int -> real, trafficClass: text, c: Carrier.Candidate, latency: int, at: int, now: int)
    requires Carrier.IsDecay(decay) && now - at <= Carrier.HALF_LIFE
    ensures Carrier.Score(decay, trafficClass, c, Some(FailureStats(latency, at)), now) <= 0.25 - c.cost - SPREAD
  {
    var s := FailureStats(latency, at);
    FailureLearns(trafficClass, c, latency, at);
    FadedFailure(Carrier.Baseline(c), Carrier.Learned(trafficClass, c, s) - Carrier.Baseline(c),
                 Carrier.Freshness(decay, s, now));
  }

  lemma FadedFailure(base: real, gain: real, f: real)
    requires gain <= -2.05 && f >= 0.5
    ensures Carrier.Blend(base, gain, f) <= base - SPREAD
  {
    var loss := -gain;
    assert f * loss >= 0.5 * loss;
    assert f * gain == -(f * loss);
  }

  /** At one half-life an instant failure costs exactly the spread. */
  lemma FailedScoreIs(decay: int -> real, trafficClass: text, c: Carrier.Candidate, at: int)
    requires Carrier.IsDecay(decay) && Lower(trafficClass) == Ascii("default")
    ensures Carrier.Score(decay, trafficClass, c, Some(FailureStats(0, at)), at + Carrier.HALF_LIFE)
      == 0.25 - c.cost - SPREAD
  {
    var s := FailureStats(0, at);
    DefaultClass();
    assert Carrier.Learned(trafficClass, c, s) == -1.8 - c.cost;
    assert Carrier.Freshness(decay, s, at + Carrier.HALF_LIFE) == 0.5;
  }

  lemma DefaultClass()
    ensures Ascii("default") != Ascii("interactive") && Ascii("default") != Ascii("realtime")
    ensures Ascii("default") != Ascii("streaming") && Ascii("default") != Ascii("bulk")
  {
    assert |Ascii("default")| == 7 && |Ascii("interactive")| == 11 && |Ascii("realtime")| == 8;
    assert |Ascii("streaming")| == 9 && |Ascii("bulk")| == 4;
  }

  // ----- One round of a cold loop ---------------------------------------------------------------------------

  /** `tried` are the rounds so far: a start of the stable cost order, each failed once; the others
      come later and are unknown. */
  ghost predicate Progress(store: Carrier.Store, key: text, cs: seq<Carrier.Candidate>, tried: seq<nat>,
                           observed: nat -> int)
  {
    && InRange(cs, tried)
    && (forall a, b :: 0 <= a < b < |tried| ==> Before(cs, tried[a], tried[b]))
    && (forall p: nat :: p < |cs| && p !in tried ==> Later(cs, tried, p) && At(store, key, cs[p].name) == None)
    && (forall p: nat :: p < |cs| && p in tried ==> FailedOnce(At(store, key, cs[p].name), observed, |tried|))
  }

  predicate Later(cs: seq<Carrier.Candidate>, tried: seq<nat>, p: nat)
    requires InRange(cs, tried) && p < |cs|
  {
    forall k :: 0 <= k < |tried| ==> Before(cs, tried[k], p)
  }

  lemma NextIsFirstUntried(decay: int -> real, store: Carrier.Store, ctx: Carrier.Context, cs: seq<Carrier.Candidate>,
                           tried: seq<nat>, clock: nat -> nat -> int, observed: nat -> int, p: nat)
    requires Carrier.IsDecay(decay) && Prompt(clock, observed)
    requires Progress(store, Carrier.ContextKey(ctx), cs, tried, observed)
    requires Close(cs)
    requires p < |cs| && p !in tried
    ensures var best := FirstBest(Carrier.RankAll(decay, store, ctx, cs, clock(|tried|)));
      best !in tried && (p != best ==> Before(cs, best, p))
  {
    var key, n := Carrier.ContextKey(ctx), |tried|;
    var ranked := Carrier.RankAll(decay, store, ctx, cs, clock(n));
    FrontIsFirstBest(ranked);
    var best := FirstBest(ranked);
    assert ranked[p].score == 0.25 - cs[p].cost;
    assert best !in tried ==> ranked[best].score == 0.25 - cs[best].cost;
    if best in tried {
      TriedScoresLow(decay, store, ctx, cs, tried, clock, observed, best);
    }
  }

  lemma TriedScoresLow(decay: int -> real, store: Carrier.Store, ctx: Carrier.Context, cs: seq<Carrier.Candidate>,
                       tried: seq<nat>, clock: nat -> nat -> int, observed: nat -> int, q: nat)
    requires Carrier.IsDecay(decay) && Prompt(clock, observed)
    requires Progress(store, Carrier.ContextKey(ctx), cs, tried, observed)
    requires q < |cs| && q in tried
    ensures Carrier.Rank(decay, store, ctx, cs[q], clock(|tried|)(q)).score <= 0.25 - cs[q].cost - SPREAD
  {
    var key, n := Carrier.ContextKey(ctx), |tried|;
    assert FailedOnce(At(store, key, cs[q].name), observed, n);
    var k: nat, latency: int :| k < n && At(store, key, cs[q].name) == Some(FailureStats(latency, observed(k)));
    FailureScore(decay, ctx.trafficClass, cs[q], latency, observed(k), clock(n)(q));
  }

  lemma FailedRound(store: Carrier.Store, key: text, cs: seq<Carrier.Candidate>, tried: seq<nat>, observed: nat -> int,
                    best: nat, latency: int)
    requires Progress(store, key, cs, tried, observed)
    requires Distinct(cs)
    requires best < |cs| && best !in tried
    requires forall p: nat :: p < |cs| && p !in tried && p != best ==> Before(cs, best, p)
    ensures Progress(Put(store, key, cs[best].name, FailureStats(latency, observed(|tried|))), key, cs, tried + [best],
                     observed)
  {
    var n, next := |tried|, tried + [best];
    var after := Put(store, key, cs[best].name, FailureStats(latency, observed(n)));
    assert Later(cs, tried, best);
    forall p: nat | p < |cs|
      ensures p !in next ==> Later(cs, next, p) && At(after, key, cs[p].name) == None
      ensures p in next ==> FailedOnce(At(after, key, cs[p].name), observed, n + 1)
    {
      PutAt(store, key, cs[best].name, FailureStats(latency, observed(n)), key, cs[p].name);
      assert p in next <==> p in tried || p == best;
    }
  }

  lemma ColdStart(log: seq<Observed<Carrier.Event>>, key: text, cs: seq<Carrier.Candidate>, observed: nat -> int)
    requires Cold(MemoryOf(Carrier.Update, log), key, cs)
    ensures Progress(MemoryOf(Carrier.Update, log), key, cs, [], observed)
  {
    forall p: nat | p < |cs|
      ensures At(MemoryOf(Carrier.Update, log), key, cs[p].name) == None
    {
      UnknownIsAbsent(log, key, cs[p].name);
    }
  }

  lemma UnknownIsAbsent(log: seq<Observed<Carrier.Event>>, key: text, name: text)
    requires !Carrier.Known(At(MemoryOf(Carrier.Update, log), key, name))
    ensures At(MemoryOf(Carrier.Update, log), key, name) == None
  {
    MemoryIsFoldOfOwnLog(Carrier.Update, log, key, name);
    if Matching(log, key, name) != [] {
      Carrier.StatsCountTheLog(Matching(log, key, name));
    }
  }

  lemma {:induction false} DistinctFit(tried: seq<nat>, room: set<nat>)
    requires forall k :: 0 <= k < |tried| ==> tried[k] in room
    requires forall a, b :: 0 <= a < b < |tried| ==> tried[a] != tried[b]
    ensures |tried| <= |room|
  {
    if tried != [] {
      DistinctFit(tried[1..], room - {tried[0]});
    }
  }

  function Below(n: nat): (r: set<nat>)
    ensures |r| == n && forall i: nat :: i in r <==> i < n
  {
    if n == 0 then {} else Below(n - 1) + {n - 1}
  }

  lemma TriedFit(cs: seq<Carrier.Candidate>, tried: seq<nat>)
    requires InRange(cs, tried) && forall a, b :: 0 <= a < b < |tried| ==> Before(cs, tried[a], tried[b])
    ensures |tried| <= |cs|
  {
    DistinctFit(tried, Below(|cs|));
  }

  lemma {:induction false} CompatibleFit(protocol: text, candidates: seq<Carrier.Candidate>)
    ensures |Carrier.Compatible(protocol, candidates)| <= |candidates|
  {
    if candidates != [] {
      CompatibleFit(protocol, candidates[..|candidates| - 1]);
    }
  }

  // ----- Plans of a cold loop ---------------------------------------------------------------------------------

  predicate Usable(strategies: seq<Dpi.Strategy>) {
    strategies != [] && forall s :: s in strategies ==> s.Valid()
  }

  lemma {:induction false} DirectOnlyIsUsable(strategies: seq<Dpi.Strategy>)
    requires forall s :: s in strategies ==> s.Valid()
    ensures Usable(DirectOnly(strategies))
  {
    if strategies == [] {
      var direct := Ascii("direct");
      assert direct == [100, 105, 114, 101, 99, 116];
      assert Trim(direct) == direct;
    } else if strategies[0].name != Ascii("direct") {
      DirectOnlyIsUsable(strategies[1..]);
    }
  }

  function StrategyFor(ds: Dpi.Store, req: Request, c: Carrier.Candidate): Option<Dpi.Decision> {
    Dpi.Choice(ds, Dpi.Context(req.networkID, DpiTarget(req, c), req.trafficClass), StrategiesFor(req, c))
  }

  lemma StrategyReady(ds: Dpi.Store, req: Request, c: Carrier.Candidate)
    requires Usable(req.strategies)
    ensures StrategyFor(ds, req, c).Some?
  {
    DirectOnlyIsUsable(req.strategies);
  }

  /** The loop's key for a candidate, while the DPI learner stands still. */
  function KeyFor(ds: Dpi.Store, req: Request, c: Carrier.Candidate): text {
    var d := StrategyFor(ds, req, c);
    c.name + [BAR] + ((if d.Some? then d.value.strategy.name else []) + [BAR] + DpiTarget(req, c))
  }

  lemma KeysDiffer(ds: Dpi.Store, req: Request, a: Carrier.Candidate, b: Carrier.Candidate)
    requires BAR !in a.name && BAR !in b.name && KeyFor(ds, req, a) == KeyFor(ds, req, b)
    ensures a.name == b.name
  {
    var x, y := KeyFor(ds, req, a)[|a.name| + 1..], KeyFor(ds, req, b)[|b.name| + 1..];
    assert KeyFor(ds, req, a) == a.name + [BAR] + x && KeyFor(ds, req, b) == b.name + [BAR] + y;
    CutAtBar(a.name, b.name, x, y);
  }

  lemma PlanOfBest(decay: int -> real, store: Carrier.Store, ds: Dpi.Store, req: Request, clock: nat -> int)
    requires Trim(req.destination) != [] && Usable(req.strategies)
    requires Carrier.Compatible(req.protocol, req.carriers) != []
    ensures var cs := Carrier.Compatible(req.protocol, req.carriers);
      var plan := PlanFor(decay, store, ds, req, clock);
      && plan.Some? && plan.value.networkID == req.networkID && plan.value.trafficClass == req.trafficClass
      && plan.value.carrier.carrier == cs[FirstBest(Carrier.RankAll(decay, store, CarrierContext(req), cs, clock))]
      && PlanKey(plan.value) == KeyFor(ds, req, plan.value.carrier.carrier)
  {
    var cs := Carrier.Compatible(req.protocol, req.carriers);
    var ranked := Carrier.RankAll(decay, store, CarrierContext(req), cs, clock);
    Carrier.ChoiceIsBest(decay, store, CarrierContext(req), req.carriers, clock);
    StrategyReady(ds, req, cs[FirstBest(ranked)]);
  }

  // ----- The dialer ---------------------------------------------------------------------------------------------

  datatype RaceFailure = RaceFailure(attempt: nat, latency: int, at: int)

  /** How a race of two attempts ended, within what RaceOutcome of Race.dfy allows: no attempt fails
      twice, and the winner has not failed. */
  datatype RaceEnd = RaceEnd(winner: Option<nat>, latency: int, failures: seq<RaceFailure>) {
    predicate Valid() {
      && (winner.Some? ==> winner.value < 2)
      && (forall i :: 0 <= i < |failures| ==> failures[i].attempt < 2 && Some(failures[i].attempt) != winner)
      && forall i, j :: 0 <= i < j < |failures| ==> failures[i].attempt != failures[j].attempt
    }
  }

  /** Everything the environment decides: clock readings, dial results, and the race. */
  datatype World = World(
    network: text, now: int, clock: nat -> nat -> int, dial: nat -> Dial, observed: nat -> int,
    raceClock: nat -> nat -> int, race: RaceEnd)

  /** The conditions under which failover is complete. */
  ghost predicate ColdRun(decay: int -> real, store: Carrier.Store, req: Request, world: World) {
    && Carrier.IsDecay(decay) && Prompt(world.clock, world.observed) && AllFail(world.dial)
    && Trim(req.destination) != [] && Usable(req.strategies) && req.protocol == TCP
    && Carrier.Compatible(TCP, req.carriers) != []
    && Cold(store, Carrier.ContextKey(CarrierContext(req)), Carrier.Compatible(TCP, req.carriers))
  }

  /** The keys already used belong to exactly the candidates already tried. */
  ghost predicate SeenAre(ds: Dpi.Store, req: Request, cs: seq<Carrier.Candidate>, tried: seq<nat>, seen: set<text>) {
    forall p: nat :: p < |cs| ==> (p in tried <==> KeyFor(ds, req, cs[p]) in seen)
  }

  lemma SeeOneMore(ds: Dpi.Store, req: Request, cs: seq<Carrier.Candidate>, tried: seq<nat>, seen: set<text>, best: nat)
    requires SeenAre(ds, req, cs, tried, seen) && best < |cs|
    requires Distinct(cs)
    ensures SeenAre(ds, req, cs, tried + [best], seen + {KeyFor(ds, req, cs[best])})
  {
    forall p: nat | p < |cs|
      ensures p in tried + [best] <==> KeyFor(ds, req, cs[p]) in seen + {KeyFor(ds, req, cs[best])}
    {
      if KeyFor(ds, req, cs[p]) == KeyFor(ds, req, cs[best]) {
        KeysDiffer(ds, req, cs[p], cs[best]);
      }
    }
  }

  /** What the next candidate is: a fresh one that no other fresh one precedes, or none is left. */
  ghost predicate NextIs(cs: seq<Carrier.Candidate>, tried: seq<nat>, best: nat) {
    && best < |cs|
    && (best in tried ==> StableCostOrder(cs, tried))
    && (best !in tried ==> forall p: nat :: p < |cs| && p !in tried && p != best ==> Before(cs, best, p))
  }

  lemma NextUntried(decay: int -> real, store: Carrier.Store, ctx: Carrier.Context, cs: seq<Carrier.Candidate>,
                    tried: seq<nat>, clock: nat -> nat -> int, observed: nat -> int)
    requires Carrier.IsDecay(decay) && Prompt(clock, observed) && cs != []
    requires Progress(store, Carrier.ContextKey(ctx), cs, tried, observed)
    requires Close(cs)
    ensures NextIs(cs, tried, FirstBest(Carrier.RankAll(decay, store, ctx, cs, clock(|tried|))))
  {
    var best := FirstBest(Carrier.RankAll(decay, store, ctx, cs, clock(|tried|)));
    forall p: nat | p < |cs| && p !in tried
      ensures best !in tried && (p != best ==> Before(cs, best, p))
    {
      NextIsFirstUntried(decay, store, ctx, cs, tried, clock, observed, p);
    }
  }

  /** One round of a cold run: an untried candidate is next exactly while there is one. */
  lemma ColdRound(decay: int -> real, store: Carrier.Store, ds: Dpi.Store, req: Request, cs: seq<Carrier.Candidate>,
                  clock: nat -> nat -> int, observed: nat -> int, tried: seq<nat>, seen: set<text>)
    returns (best: nat)
    requires Carrier.IsDecay(decay) && Prompt(clock, observed)
    requires Trim(req.destination) != [] && Usable(req.strategies)
    requires cs == Carrier.Compatible(req.protocol, req.carriers) && cs != []
    requires Progress(store, Carrier.ContextKey(CarrierContext(req)), cs, tried, observed)
    requires Close(cs)
    requires SeenAre(ds, req, cs, tried, seen)
    ensures NextIs(cs, tried, best)
    ensures var plan := PlanFor(decay, store, ds, req, clock(|tried|));
      && plan.Some? && plan.value.networkID == req.networkID && plan.value.trafficClass == req.trafficClass
      && plan.value.carrier.carrier == cs[best] && PlanKey(plan.value) == KeyFor(ds, req, cs[best])
      && (PlanKey(plan.value) in seen <==> best in tried)
  {
    PlanOfBest(decay, store, ds, req, clock(|tried|));
    NextUntried(decay, store, CarrierContext(req), cs, tried, clock, observed);
    best := FirstBest(Carrier.RankAll(decay, store, CarrierContext(req), cs, clock(|tried|)));
  }

  lemma FailureRemembered(log: seq<Observed<Carrier.Event>>, r: Result, now: int)
    requires !r.success && r.throughput == 0.0 && r.at == None
    requires At(MemoryOf(Carrier.Update, log), CarrierKey(r), CarrierName(r)) == None
    ensures MemoryOf(Carrier.Update, log + [CarrierEvent(r, false, now)])
      == Put(MemoryOf(Carrier.Update, log), CarrierKey(r), CarrierName(r), FailureStats(r.latency, now))
  {
    assert (log + [CarrierEvent(r, false, now)])[..|log|] == log;
  }

  /** A failed dial of that candidate makes it the last of the tried ones. */
  lemma ColdStep(log: seq<Observed<Carrier.Event>>, ds: Dpi.Store, req: Request, cs: seq<Carrier.Candidate>,
                 observed: nat -> int, tried: seq<nat>, seen: set<text>, best: nat, r: Result)
    requires Progress(MemoryOf(Carrier.Update, log), Carrier.ContextKey(CarrierContext(req)), cs, tried, observed)
    requires SeenAre(ds, req, cs, tried, seen) && NextIs(cs, tried, best) && best !in tried
    requires Distinct(cs)
    requires r == DialResult(req, r.plan, false, CarrierScope, r.latency) && req.protocol == TCP
    requires r.plan.networkID == req.networkID && r.plan.trafficClass == req.trafficClass
    requires r.plan.carrier.carrier == cs[best]
    ensures Progress(MemoryOf(Carrier.Update, log + [CarrierEvent(r, false, observed(|tried|))]),
                     Carrier.ContextKey(CarrierContext(req)), cs, tried + [best], observed)
    ensures SeenAre(ds, req, cs, tried + [best], seen + {KeyFor(ds, req, cs[best])})
  {
    FailureRemembered(log, r, observed(|tried|));
    FailedRound(MemoryOf(Carrier.Update, log), CarrierKey(r), cs, tried, observed, best, r.latency);
    SeeOneMore(ds, req, cs, tried, seen, best);
  }

  /** Where a cold run stands before its next round. */
  ghost predicate Underway(decay: int -> real, store: Carrier.Store, ds: Dpi.Store, req: Request, world: World,
                           tried: seq<nat>, seen: set<text>, dialled: seq<Carrier.Candidate>)
  {
    var cs := Carrier.Compatible(TCP, req.carriers);
    && Carrier.IsDecay(decay) && Prompt(world.clock, world.observed)
    && Trim(req.destination) != [] && Usable(req.strategies) && req.protocol == TCP
    && cs != [] && Distinct(cs) && Close(cs)
    && Progress(store, Carrier.ContextKey(CarrierContext(req)), cs, tried, world.observed)
    && SeenAre(ds, req, cs, tried, seen)
    && dialled == Pick(cs, tried)
  }

  lemma ColdBegins(decay: int -> real, log: seq<Observed<Carrier.Event>>, ds: Dpi.Store, req: Request, world: World)
    requires ColdRun(decay, MemoryOf(Carrier.Update, log), req, world)
    ensures Underway(decay, MemoryOf(Carrier.Update, log), ds, req, world, [], {}, [])
  {
    ColdStart(log, Carrier.ContextKey(CarrierContext(req)), Carrier.Compatible(TCP, req.carriers), world.observed);
  }

  lemma ColdNext(decay: int -> real, log: seq<Observed<Carrier.Event>>, ds: Dpi.Store, req: Request, world: World,
                 tried: seq<nat>, seen: set<text>, dialled: seq<Carrier.Candidate>, best: nat, plan: Plan, latency: int)
    requires Underway(decay, MemoryOf(Carrier.Update, log), ds, req, world, tried, seen, dialled)
    requires var cs := Carrier.Compatible(TCP, req.carriers);
      && NextIs(cs, tried, best) && best !in tried
      && plan.carrier.carrier == cs[best] && PlanKey(plan) == KeyFor(ds, req, cs[best])
    requires plan.networkID == req.networkID && plan.trafficClass == req.trafficClass
    ensures Underway(decay, AfterFailure(log, req, plan, latency, world.observed(|tried|)), ds, req, world,
                     tried + [best], seen + {PlanKey(plan)}, dialled + [plan.carrier.carrier])
  {
    var cs := Carrier.Compatible(TCP, req.carriers);
    ColdStep(log, ds, req, cs, world.observed, tried, seen, best, DialResult(req, plan, false, CarrierScope, latency));
  }

  lemma ColdStays(decay: int -> real, log: seq<Observed<Carrier.Event>>, ds: Dpi.Store, req: Request, world: World,
                  tried: seq<nat>, seen: set<text>, dialled: seq<Carrier.Candidate>)
    returns (next: seq<nat>)
    requires Underway(decay, MemoryOf(Carrier.Update, log), ds, req, world, tried, seen, dialled)
    ensures var cs := Carrier.Compatible(TCP, req.carriers);
      var plan := PlanFor(decay, MemoryOf(Carrier.Update, log), ds, req, world.clock(|tried|));
      && plan.Some? && |next| == |tried| + 1
      && (PlanKey(plan.value) in seen ==> StableCostOrder(cs, tried) && dialled == Pick(cs, tried))
      && (PlanKey(plan.value) !in seen ==>
            forall latency: int ::
              Underway(decay, AfterFailure(log, req, plan.value, latency, world.observed(|tried|)), ds, req, world,
                       next, seen + {PlanKey(plan.value)}, dialled + [plan.value.carrier.carrier]))
  {
    var cs := Carrier.Compatible(TCP, req.carriers);
    var best := ColdRound(decay, MemoryOf(Carrier.Update, log), ds, req, cs, world.clock, world.observed, tried, seen);
    var plan := PlanFor(decay, MemoryOf(Carrier.Update, log), ds, req, world.clock(|tried|)).value;
    next := tried + [best];
    if best !in tried {
      forall latency: int
        ensures Underway(decay, AfterFailure(log, req, plan, latency, world.observed(|tried|)), ds, req, world, next,
                         seen + {PlanKey(plan)}, dialled + [plan.carrier.carrier])
      {
        ColdNext(decay, log, ds, req, world, tried, seen, dialled, best, plan, latency);
      }
    }
  }

  /** The carrier learner's store after one more failed dial. */
  ghost function AfterFailure(log: seq<Observed<Carrier.Event>>, req: Request, plan: Plan, latency: int, now: int)
    : Carrier.Store
  {
    MemoryOf(Carrier.Update, log + [CarrierEvent(DialResult(req, plan, false, CarrierScope, latency), false, now)])
  }

  lemma ColdFits(decay: int -> real, store: Carrier.Store, ds: Dpi.Store, req: Request, world: World,
                 tried: seq<nat>, seen: set<text>, dialled: seq<Carrier.Candidate>)
    requires Underway(decay, store, ds, req, world, tried, seen, dialled)
    ensures |tried| <= |req.carriers|
  {
    TriedFit(Carrier.Compatible(TCP, req.carriers), tried);
    CompatibleFit(TCP, req.carriers);
  }

  lemma FailureEvents(req: Request, plan: Plan, latency: int, now: int)
    requires Named(plan)
    ensures var r := DialResult(req, plan, false, CarrierScope, latency);
      CarrierEvents(r, now) == [CarrierEvent(r, false, now)] && DpiEvents(r, now) == []
  {
    CarrierResultEvents(DialResult(req, plan, false, CarrierScope, latency), now);
  }

  lemma OneMoreFailure(failures: seq<Report>, req: Request, plan: Plan, latency: int, now: int)
    requires FailuresOnly(failures)
    ensures FailuresOnly(failures + [Charge(req, plan, latency, now)])
  {
  }

  method RecordFailure(planner: Planner, req: Request, plan: Plan, latency: int, now: int,
                       ghost start: Start, ghost failures: seq<Report>)
    returns (ghost all: seq<Report>)
    requires Recorded(planner, start, failures) && Named(plan) && FailuresOnly(failures)
    modifies planner.carriers, planner.dpi
    ensures Recorded(planner, start, all) && FailuresOnly(all)
    ensures all == failures + [Charge(req, plan, latency, now)]
    ensures planner.carriers.store == AfterFailure(old(planner.carriers.log), req, plan, latency, now)
    ensures planner.dpi.log == old(planner.dpi.log) && planner.dpi.store == old(planner.dpi.store)
  {
    var failure := DialResult(req, plan, false, CarrierScope, latency);
    FailureEvents(req, plan, latency, now);
    OneMoreFailure(failures, req, plan, latency, now);
    var _, reports := Note(planner, failure, now, start, failures);
    all := reports;
  }

  /** What round i reports about the plan it dialled. */
  function DialReports(req: Request, world: World, i: nat, plan: Plan): seq<Report> {
    match world.dial(i)
    case Fails(latency) => [Charge(req, plan, latency, world.observed(i))]
    case Connects(latency) => SuccessReports(req, plan, latency, world.observed(i))
  }

  /** What the rounds that dialled these plans report. */
  function LoopReports(req: Request, world: World, plans: seq<Plan>): seq<Report> {
    if plans == [] then []
    else
      var i := |plans| - 1;
      LoopReports(req, world, plans[..i]) + DialReports(req, world, i, plans[i])
  }

  lemma LoopReportsSnoc(before: seq<Report>, req: Request, world: World, plans: seq<Plan>, plan: Plan)
    ensures before + LoopReports(req, world, plans + [plan])
      == before + LoopReports(req, world, plans) + DialReports(req, world, |plans|, plan)
  {
    assert (plans + [plan])[..|plans|] == plans;
    Assoc(before, LoopReports(req, world, plans), DialReports(req, world, |plans|, plan));
  }

  function Carriers(plans: seq<Plan>): seq<Carrier.Candidate> {
    seq(|plans|, i requires 0 <= i < |plans| => plans[i].carrier.carrier)
  }

  /** Every round dials what the planner chooses once the rounds before it are learned. */
  ghost predicate Replanned(decay: int -> real, ds: Dpi.Store, req: Request, world: World,
                            start: Start, before: seq<Report>, plans: seq<Plan>)
  {
    forall i: nat :: i < |plans| ==> RoundPlan(decay, ds, req, world, start, before, plans[..i]) == Some(plans[i])
  }

  /** The planner's choice after the rounds that dialled these plans. */
  ghost function RoundPlan(decay: int -> real, ds: Dpi.Store, req: Request, world: World,
                           start: Start, before: seq<Report>, plans: seq<Plan>): Option<Plan>
  {
    var log := start.carriers + CarrierLog(before + LoopReports(req, world, plans));
    PlanFor(decay, MemoryOf(Carrier.Update, log), ds, req, world.clock(|plans|))
  }

  lemma ReplannedSnoc(decay: int -> real, ds: Dpi.Store, req: Request, world: World,
                      start: Start, before: seq<Report>, plans: seq<Plan>, plan: Plan)
    requires Replanned(decay, ds, req, world, start, before, plans)
    requires RoundPlan(decay, ds, req, world, start, before, plans) == Some(plan)
    ensures Replanned(decay, ds, req, world, start, before, plans + [plan])
  {
    var more := plans + [plan];
    forall i: nat | i < |more|
      ensures RoundPlan(decay, ds, req, world, start, before, more[..i]) == Some(more[i])
    {
      assert more[..i] == plans[..i];
      assert i == |plans| ==> plans[..i] == plans;
    }
  }

  /** A plan is dialled at most once, all but the last dial failed, and a connection comes from the
      last. */
  predicate EndsWith(world: World, plans: seq<Plan>, outcome: Outcome) {
    && (forall i, j :: 0 <= i < j < |plans| ==> PlanKey(plans[i]) != PlanKey(plans[j]))
    && (forall i :: 0 <= i < |plans| - 1 ==> world.dial(i).Fails?)
    && (outcome.Connected? ==> plans != [] && plans[|plans| - 1] == outcome.plan)
    && (plans != [] ==> (outcome.Connected? <==> world.dial(|plans| - 1).Connects?))
  }

  /** One round of the loop: the plan it dialled, if any, and the outcome if this round decided it. */
  method Round(planner: Planner, req: Request, world: World, attempt: nat, seen: set<text>,
               ghost start: Start, ghost failures: seq<Report>)
    returns (plan: Option<Plan>, end: Option<Outcome>, ghost all: seq<Report>)
    requires Recorded(planner, start, failures) && FailuresOnly(failures)
    modifies planner.carriers, planner.dpi
    ensures Recorded(planner, start, all)
    ensures if end.Some? then Evidence(all, end.value) else FailuresOnly(all)
    ensures all == if plan.Some? then failures + DialReports(req, world, attempt, plan.value) else failures
    ensures var chosen := PlanFor(
        planner.carriers.decay, old(planner.carriers.store), old(planner.dpi.store), req, world.clock(attempt));
      && plan == (if chosen.Some? && PlanKey(chosen.value) !in seen then chosen else None)
      && (chosen == None ==> end == Some(NoPlan))
      && (chosen.Some? && plan == None ==> end == Some(Exhausted))
      && (plan.Some? ==> end == if world.dial(attempt).Fails? then None else Some(Connected(plan.value)))
    ensures end == None ==>
      && planner.carriers.store == AfterFailure(
        old(planner.carriers.log), req, plan.value, world.dial(attempt).latency, world.observed(attempt))
      && planner.dpi.store == old(planner.dpi.store)
  {
    FailuresWinNothing(failures);
    all := failures;
    plan := planner.Choose(req, world.clock(attempt));
    if plan == None {
      return None, Some(NoPlan), all;
    }
    PlansAreNamed(planner.carriers.decay, planner.carriers.store, planner.dpi.store, req, world.clock(attempt));
    if PlanKey(plan.value) in seen {
      return None, Some(Exhausted), all;
    }
    match world.dial(attempt) {
      case Connects(latency) =>
        var outcome, reports :=
          RecordSuccessfulConnection(planner, req, plan.value, latency, world.observed(attempt), start, failures);
        end, all := Some(outcome), reports;
      case Fails(latency) =>
        all := RecordFailure(planner, req, plan.value, latency, world.observed(attempt), start, failures);
        end := None;
    }
  }

  function Keys(plans: seq<Plan>): set<text> {
    set i | 0 <= i < |plans| :: PlanKey(plans[i])
  }

  /** Why the loop stopped: the planner had no plan, or only one already dialled, or the rounds ran out. */
  ghost predicate Stops(decay: int -> real, ds: Dpi.Store, req: Request, world: World, start: Start,
                        before: seq<Report>, plans: seq<Plan>, outcome: Outcome)
  {
    var next := RoundPlan(decay, ds, req, world, start, before, plans);
    match outcome
    case NoPlan => next == None
    case Exhausted => |plans| == |req.carriers| + 2 || (next.Some? && PlanKey(next.value) in Keys(plans))
    case Connected(_) => true
    case _ => false
  }

  /** What the loop did: which plans it dialled, why it ended, and what it reported. */
  ghost predicate LoopRecord(decay: int -> real, ds: Dpi.Store, req: Request, world: World, start: Start,
                             before: seq<Report>, plans: seq<Plan>, outcome: Outcome, reports: seq<Report>)
  {
    && Replanned(decay, ds, req, world, start, before, plans)
    && EndsWith(world, plans, outcome)
    && Stops(decay, ds, req, world, start, before, plans, outcome)
    && reports == before + LoopReports(req, world, plans)
  }

  /** Where the loop stands between rounds: every dial so far has failed, and is charged. */
  ghost predicate Looping(decay: int -> real, ds: Dpi.Store, req: Request, world: World, start: Start,
                          before: seq<Report>, plans: seq<Plan>, reports: seq<Report>)
  {
    && Replanned(decay, ds, req, world, start, before, plans) && EndsWith(world, plans, Exhausted)
    && reports == before + LoopReports(req, world, plans)
  }

  lemma LoopBegins(decay: int -> real, ds: Dpi.Store, req: Request, world: World, start: Start, before: seq<Report>)
    ensures Looping(decay, ds, req, world, start, before, [], before)
  {
    assert before + [] == before;
  }

  lemma KeysSnoc(plans: seq<Plan>, plan: Plan)
    ensures Keys(plans + [plan]) == Keys(plans) + {PlanKey(plan)}
  {
    var more := plans + [plan];
    assert more[|plans|] == plan;
    forall i | 0 <= i < |plans|
      ensures PlanKey(plans[i]) in Keys(more)
    {
      assert more[i] == plans[i];
    }
  }

  lemma OneMoreRound(world: World, plans: seq<Plan>, plan: Plan)
    requires EndsWith(world, plans, Exhausted) && PlanKey(plan) !in Keys(plans)
    ensures world.dial(|plans|).Fails? ==> EndsWith(world, plans + [plan], Exhausted)
    ensures world.dial(|plans|).Connects? ==> EndsWith(world, plans + [plan], Connected(plan))
  {
    assert forall i :: 0 <= i < |plans| ==> (plans + [plan])[i] == plans[i] && PlanKey(plans[i]) in Keys(plans);
  }

  lemma ChosenNow(decay: int -> real, ds: Dpi.Store, req: Request, world: World, start: Start, before: seq<Report>,
                  plans: seq<Plan>, reports: seq<Report>, store: Carrier.Store)
    requires reports == before + LoopReports(req, world, plans)
    requires store == MemoryOf(Carrier.Update, start.carriers + CarrierLog(reports))
    ensures RoundPlan(decay, ds, req, world, start, before, plans)
      == PlanFor(decay, store, ds, req, world.clock(|plans|))
  {
  }

  lemma LoopDials(decay: int -> real, ds: Dpi.Store, req: Request, world: World, start: Start, before: seq<Report>,
                  plans: seq<Plan>, reports: seq<Report>, plan: Plan)
    requires Looping(decay, ds, req, world, start, before, plans, reports) && PlanKey(plan) !in Keys(plans)
    requires RoundPlan(decay, ds, req, world, start, before, plans) == Some(plan)
    ensures var more := plans + [plan];
      var all := reports + DialReports(req, world, |plans|, plan);
      if world.dial(|plans|).Fails? then Looping(decay, ds, req, world, start, before, more, all)
      else LoopRecord(decay, ds, req, world, start, before, more, Connected(plan), all)
    ensures Keys(plans + [plan]) == Keys(plans) + {PlanKey(plan)}
  {
    LoopReportsSnoc(before, req, world, plans, plan);
    ReplannedSnoc(decay, ds, req, world, start, before, plans, plan);
    OneMoreRound(world, plans, plan);
    KeysSnoc(plans, plan);
  }

  lemma LoopStops(decay: int -> real, ds: Dpi.Store, req: Request, world: World, start: Start, before: seq<Report>,
                  plans: seq<Plan>, reports: seq<Report>, outcome: Outcome)
    requires Looping(decay, ds, req, world, start, before, plans, reports)
    requires Stops(decay, ds, req, world, start, before, plans, outcome) && !outcome.Connected?
    ensures LoopRecord(decay, ds, req, world, start, before, plans, outcome, reports)
  {
  }

  /** The replanning loop. Each round dials what the planner chooses given all failures so far, and
      the loop ends as Stops says; the reports are one charge for the plan of every failed round and,
      for a returned connection, the successes of the plan that made it. */
  method Replan(planner: Planner, req: Request, world: World, ghost start: Start, ghost before: seq<Report>)
    returns (outcome: Outcome, plans: seq<Plan>, ghost reports: seq<Report>)
    requires Recorded(planner, start, before) && FailuresOnly(before)
    modifies planner.carriers, planner.dpi
    ensures Recorded(planner, start, reports) && Evidence(reports, outcome)
    ensures LoopRecord(planner.carriers.decay, old(planner.dpi.store), req, world, start, before, plans, outcome,
                       reports)
    ensures |plans| <= |req.carriers| + 2
  {
    ghost var decay, ds := planner.carriers.decay, planner.dpi.store;
    var seen: set<text> := {};
    plans, reports := [], before;
    LoopBegins(decay, ds, req, world, start, before);
    var attempt := 0;
    while attempt < |req.carriers| + 2
      invariant |plans| == attempt <= |req.carriers| + 2
      invariant Recorded(planner, start, reports) && FailuresOnly(reports)
      invariant planner.dpi.store == ds && seen == Keys(plans)
      invariant Looping(decay, ds, req, world, start, before, plans, reports)
    {
      ChosenNow(decay, ds, req, world, start, before, plans, reports, planner.carriers.store);
      var plan, end, all := Round(planner, req, world, attempt, seen, start, reports);
      if plan == None {
        LoopStops(decay, ds, req, world, start, before, plans, reports, end.value);
        return end.value, plans, reports;
      }
      LoopDials(decay, ds, req, world, start, before, plans, reports, plan.value);
      seen := seen + {PlanKey(plan.value)};
      plans := plans + [plan.value];
      reports := all;
      if end.Some? {
        return end.value, plans, reports;
      }
      attempt := attempt + 1;
    }
    FailuresWinNothing(reports);
    outcome := Exhausted;
    LoopStops(decay, ds, req, world, start, before, plans, reports, outcome);
  }

  lemma CarriersSnoc(plans: seq<Plan>, plan: Plan)
    ensures Carriers(plans + [plan]) == Carriers(plans) + [plan.carrier.carrier]
  {
  }

  /** The carrier learner's log after the rounds that dialled these plans. */
  ghost function LogAfter(req: Request, world: World, start: Start, before: seq<Report>, plans: seq<Plan>)
    : seq<Observed<Carrier.Event>>
  {
    start.carriers + CarrierLog(before + LoopReports(req, world, plans))
  }

  lemma LogAfterFailure(req: Request, world: World, start: Start, before: seq<Report>, plans: seq<Plan>, plan: Plan)
    requires world.dial(|plans|).Fails? && Named(plan)
    ensures MemoryOf(Carrier.Update, LogAfter(req, world, start, before, plans + [plan]))
      == AfterFailure(LogAfter(req, world, start, before, plans), req, plan, world.dial(|plans|).latency,
                      world.observed(|plans|))
  {
    var i, latency := |plans|, world.dial(|plans|).latency;
    var reports := before + LoopReports(req, world, plans);
    LoopReportsSnoc(before, req, world, plans, plan);
    FailureEvents(req, plan, latency, world.observed(i));
    CarrierLogSnoc(reports, Charge(req, plan, latency, world.observed(i)));
    Assoc(start.carriers, CarrierLog(reports),
          [CarrierEvent(DialResult(req, plan, false, CarrierScope, latency), false, world.observed(i))]);
  }

  lemma AllButLast<T>(s: seq<T>)
    requires s != []
    ensures s == s[..|s| - 1] + [s[|s| - 1]] && |s| == |s[..|s| - 1]| + 1
  {
  }

  /** The rounds of a cold run are a start of the stable cost order. */
  lemma {:induction false} ColdRounds(decay: int -> real, ds: Dpi.Store, req: Request, world: World, start: Start,
                                      before: seq<Report>, plans: seq<Plan>)
    returns (tried: seq<nat>)
    requires ColdRun(decay, MemoryOf(Carrier.Update, LogAfter(req, world, start, before, [])), req, world)
    requires Replanned(decay, ds, req, world, start, before, plans)
    requires forall i, j :: 0 <= i < j < |plans| ==> PlanKey(plans[i]) != PlanKey(plans[j])
    ensures |tried| == |plans|
    ensures Underway(decay, MemoryOf(Carrier.Update, LogAfter(req, world, start, before, plans)), ds, req, world,
                     tried, Keys(plans), Carriers(plans))
  {
    if plans == [] {
      ColdBegins(decay, LogAfter(req, world, start, before, []), ds, req, world);
      tried := [];
    } else {
      var earlier, last := plans[..|plans| - 1], plans[|plans| - 1];
      AllButLast(plans);
      EarlierPlans(decay, ds, req, world, start, before, earlier, last);
      var sofar := ColdRounds(decay, ds, req, world, start, before, earlier);
      tried := ColdRoundsSnoc(decay, ds, req, world, start, before, earlier, last, sofar);
    }
  }

  lemma ColdRoundsSnoc(decay: int -> real, ds: Dpi.Store, req: Request, world: World, start: Start,
                       before: seq<Report>, plans: seq<Plan>, plan: Plan, sofar: seq<nat>)
    returns (tried: seq<nat>)
    requires |sofar| == |plans| && world.dial(|plans|).Fails?
    requires Underway(decay, MemoryOf(Carrier.Update, LogAfter(req, world, start, before, plans)), ds, req, world,
                      sofar, Keys(plans), Carriers(plans))
    requires RoundPlan(decay, ds, req, world, start, before, plans) == Some(plan) && PlanKey(plan) !in Keys(plans)
    ensures |tried| == |plans| + 1
    ensures Underway(decay, MemoryOf(Carrier.Update, LogAfter(req, world, start, before, plans + [plan])), ds, req,
                     world, tried, Keys(plans + [plan]), Carriers(plans + [plan]))
  {
    var log := LogAfter(req, world, start, before, plans);
    tried := ColdStays(decay, log, ds, req, world, sofar, Keys(plans), Carriers(plans));
    PlansAreNamed(decay, MemoryOf(Carrier.Update, log), ds, req, world.clock(|plans|));
    LogAfterFailure(req, world, start, before, plans, plan);
    KeysSnoc(plans, plan);
    CarriersSnoc(plans, plan);
  }

  lemma EarlierPlans(decay: int -> real, ds: Dpi.Store, req: Request, world: World, start: Start,
                     before: seq<Report>, earlier: seq<Plan>, last: Plan)
    requires var plans := earlier + [last];
      && Replanned(decay, ds, req, world, start, before, plans)
      && forall i, j :: 0 <= i < j < |plans| ==> PlanKey(plans[i]) != PlanKey(plans[j])
    ensures Replanned(decay, ds, req, world, start, before, earlier)
    ensures RoundPlan(decay, ds, req, world, start, before, earlier) == Some(last)
    ensures PlanKey(last) !in Keys(earlier)
    ensures forall i, j :: 0 <= i < j < |earlier| ==> PlanKey(earlier[i]) != PlanKey(earlier[j])
  {
    var plans := earlier + [last];
    assert plans[..|earlier|] == earlier;
    forall i: nat | i < |earlier|
      ensures plans[i] == earlier[i] && plans[..i] == earlier[..i]
    {
    }
  }

  /** Complete failover: in a context nothing is known about, when every dial fails, a loop that stops
      as Replan does has dialled every compatible candidate exactly once, in stable cost order. */
  lemma ColdFailover(decay: int -> real, ds: Dpi.Store, req: Request, world: World, start: Start,
                     before: seq<Report>, plans: seq<Plan>, outcome: Outcome, reports: seq<Report>)
    returns (tried: seq<nat>)
    requires ColdRun(decay, MemoryOf(Carrier.Update, start.carriers + CarrierLog(before)), req, world)
    requires LoopRecord(decay, ds, req, world, start, before, plans, outcome, reports)
    ensures outcome == Exhausted
    ensures StableCostOrder(Carrier.Compatible(TCP, req.carriers), tried)
    ensures Carriers(plans) == Pick(Carrier.Compatible(TCP, req.carriers), tried)
  {
    LogAtStart(req, world, start, before);
    NoDialConnects(world, plans, outcome);
    tried := ColdRounds(decay, ds, req, world, start, before, plans);
    ColdEnds(decay, ds, req, world, LogAfter(req, world, start, before, plans), plans, tried);
  }

  lemma LogAtStart(req: Request, world: World, start: Start, before: seq<Report>)
    ensures LogAfter(req, world, start, before, []) == start.carriers + CarrierLog(before)
  {
    assert before + [] == before;
  }

  lemma NoDialConnects(world: World, plans: seq<Plan>, outcome: Outcome)
    requires AllFail(world.dial) && EndsWith(world, plans, outcome)
    ensures !outcome.Connected?
  {
    if plans != [] {
      assert world.dial(|plans| - 1).Fails?;
    }
  }

  /** A cold run always has a next plan, and its rounds never run out before it repeats. */
  lemma ColdEnds(decay: int -> real, ds: Dpi.Store, req: Request, world: World, log: seq<Observed<Carrier.Event>>,
                 plans: seq<Plan>, tried: seq<nat>)
    requires |tried| == |plans|
    requires Underway(decay, MemoryOf(Carrier.Update, log), ds, req, world, tried, Keys(plans), Carriers(plans))
    ensures |plans| <= |req.carriers|
    ensures var next := PlanFor(decay, MemoryOf(Carrier.Update, log), ds, req, world.clock(|plans|));
      next.Some? && (PlanKey(next.value) in Keys(plans) ==>
                       && StableCostOrder(Carrier.Compatible(TCP, req.carriers), tried)
                       && Carriers(plans) == Pick(Carrier.Compatible(TCP, req.carriers), tried))
  {
    var _ := ColdStays(decay, log, ds, req, world, tried, Keys(plans), Carriers(plans));
    ColdFits(decay, MemoryOf(Carrier.Update, log), ds, req, world, tried, Keys(plans), Carriers(plans));
  }

  // ----- The spread cannot be larger ------------------------------------------------------------------------

  /** A cold run of two candidates, the second dearer by the spread or more, whose first dial fails at
      once and is looked at one half-life later. */
  ghost predicate WideRun(decay: int -> real, store: Carrier.Store, req: Request, world: World,
                          c: Carrier.Candidate, dearer: Carrier.Candidate)
  {
    && Carrier.IsDecay(decay) && Prompt(world.clock, world.observed) && AllFail(world.dial)
    && Trim(req.destination) != [] && Usable(req.strategies) && req.protocol == TCP
    && Carrier.Compatible(TCP, req.carriers) == [c, dearer] && Distinct([c, dearer])
    && !Carrier.Known(At(store, Carrier.ContextKey(CarrierContext(req)), c.name))
    && !Carrier.Known(At(store, Carrier.ContextKey(CarrierContext(req)), dearer.name))
    && dearer.cost >= c.cost + SPREAD && Lower(req.trafficClass) == Ascii("default")
    && world.dial(0) == Fails(0) && world.clock(1)(0) == world.observed(0) + Carrier.HALF_LIFE
  }

  lemma FirstOfTwo(decay: int -> real, store: Carrier.Store, ctx: Carrier.Context, c: Carrier.Candidate,
                   dearer: Carrier.Candidate, clock: nat -> int)
    requires dearer.cost >= c.cost + SPREAD && At(store, Carrier.ContextKey(ctx), dearer.name) == None
    requires Carrier.Rank(decay, store, ctx, c, clock(0)).score >= 0.25 - c.cost - SPREAD
    ensures FirstBest(Carrier.RankAll(decay, store, ctx, [c, dearer], clock)) == 0
  {
    FrontIsFirstBest(Carrier.RankAll(decay, store, ctx, [c, dearer], clock));
  }

  /** In both rounds of a wide run the planner chooses the cheaper candidate, under one key. */
  lemma WideChoice(decay: int -> real, store: Carrier.Store, ds: Dpi.Store, req: Request, clock: nat -> int,
                   c: Carrier.Candidate, dearer: Carrier.Candidate)
    requires Trim(req.destination) != [] && Usable(req.strategies) && req.protocol == TCP
    requires Carrier.Compatible(TCP, req.carriers) == [c, dearer] && dearer.cost >= c.cost + SPREAD
    requires At(store, Carrier.ContextKey(CarrierContext(req)), dearer.name) == None
    requires Carrier.Rank(decay, store, CarrierContext(req), c, clock(0)).score >= 0.25 - c.cost - SPREAD
    ensures var plan := PlanFor(decay, store, ds, req, clock);
      && plan.Some? && plan.value.networkID == req.networkID && plan.value.trafficClass == req.trafficClass
      && plan.value.carrier.carrier == c && PlanKey(plan.value) == KeyFor(ds, req, c)
  {
    PlanOfBest(decay, store, ds, req, clock);
    FirstOfTwo(decay, store, CarrierContext(req), c, dearer, clock);
  }

  lemma WideFirst(decay: int -> real, ds: Dpi.Store, req: Request, world: World, start: Start,
                  c: Carrier.Candidate, dearer: Carrier.Candidate)
    returns (plan: Plan)
    requires WideRun(decay, MemoryOf(Carrier.Update, start.carriers), req, world, c, dearer)
    ensures RoundPlan(decay, ds, req, world, start, [], []) == Some(plan)
    ensures plan.networkID == req.networkID && plan.trafficClass == req.trafficClass
    ensures plan.carrier.carrier == c && PlanKey(plan) == KeyFor(ds, req, c) && Named(plan)
  {
    var store, key := MemoryOf(Carrier.Update, start.carriers), Carrier.ContextKey(CarrierContext(req));
    assert start.carriers + [] == start.carriers;
    LogAtStart(req, world, start, []);
    UnknownIsAbsent(start.carriers, key, c.name);
    UnknownIsAbsent(start.carriers, key, dearer.name);
    WideChoice(decay, store, ds, req, world.clock(0), c, dearer);
    PlansAreNamed(decay, store, ds, req, world.clock(0));
    plan := PlanFor(decay, store, ds, req, world.clock(0)).value;
  }

  lemma WideSecond(decay: int -> real, ds: Dpi.Store, req: Request, world: World, start: Start,
                   c: Carrier.Candidate, dearer: Carrier.Candidate, plan: Plan)
    requires WideRun(decay, MemoryOf(Carrier.Update, start.carriers), req, world, c, dearer)
    requires plan.networkID == req.networkID && plan.trafficClass == req.trafficClass
    requires plan.carrier.carrier == c && PlanKey(plan) == KeyFor(ds, req, c) && Named(plan)
    ensures var again := RoundPlan(decay, ds, req, world, start, [], [plan]);
      again.Some? && PlanKey(again.value) == PlanKey(plan)
  {
    var store := AfterFailure(start.carriers, req, plan, 0, world.observed(0));
    WideStore(decay, req, world, start, c, dearer, plan);
    ChosenAgain(decay, store, ds, req, world.clock(1), c, dearer, world.observed(0));
    SecondChoice(decay, ds, req, world, start, plan, store);
  }

  lemma ChosenAgain(decay: int -> real, store: Carrier.Store, ds: Dpi.Store, req: Request, clock: nat -> int,
                    c: Carrier.Candidate, dearer: Carrier.Candidate, at: int)
    requires Carrier.IsDecay(decay) && Lower(req.trafficClass) == Ascii("default")
    requires Trim(req.destination) != [] && Usable(req.strategies) && req.protocol == TCP
    requires Carrier.Compatible(TCP, req.carriers) == [c, dearer] && dearer.cost >= c.cost + SPREAD
    requires At(store, Carrier.ContextKey(CarrierContext(req)), c.name) == Some(FailureStats(0, at))
    requires At(store, Carrier.ContextKey(CarrierContext(req)), dearer.name) == None
    requires clock(0) == at + Carrier.HALF_LIFE
    ensures var plan := PlanFor(decay, store, ds, req, clock);
      plan.Some? && PlanKey(plan.value) == KeyFor(ds, req, c)
  {
    FailedRank(decay, store, CarrierContext(req), c, at);
    WideChoice(decay, store, ds, req, clock, c, dearer);
  }

  lemma SecondChoice(decay: int -> real, ds: Dpi.Store, req: Request, world: World, start: Start, plan: Plan,
                     store: Carrier.Store)
    requires MemoryOf(Carrier.Update, LogAfter(req, world, start, [], [plan])) == store
    ensures RoundPlan(decay, ds, req, world, start, [], [plan]) == PlanFor(decay, store, ds, req, world.clock(1))
  {
  }

  lemma FailedRank(decay: int -> real, store: Carrier.Store, ctx: Carrier.Context, c: Carrier.Candidate, at: int)
    requires Carrier.IsDecay(decay) && Lower(ctx.trafficClass) == Ascii("default")
    requires At(store, Carrier.ContextKey(ctx), c.name) == Some(FailureStats(0, at))
    ensures Carrier.Rank(decay, store, ctx, c, at + Carrier.HALF_LIFE).score == 0.25 - c.cost - SPREAD
  {
    FailedScoreIs(decay, ctx.trafficClass, c, at);
  }

  /** What the learner knows after the first round. */
  lemma WideStore(decay: int -> real, req: Request, world: World, start: Start,
                  c: Carrier.Candidate, dearer: Carrier.Candidate, plan: Plan)
    requires WideRun(decay, MemoryOf(Carrier.Update, start.carriers), req, world, c, dearer)
    requires plan.networkID == req.networkID && plan.trafficClass == req.trafficClass
    requires plan.carrier.carrier == c && Named(plan)
    ensures var store := AfterFailure(start.carriers, req, plan, 0, world.observed(0));
      var key := Carrier.ContextKey(CarrierContext(req));
      && MemoryOf(Carrier.Update, LogAfter(req, world, start, [], [plan])) == store
      && At(store, key, c.name) == Some(FailureStats(0, world.observed(0)))
      && At(store, key, dearer.name) == None
  {
    var key, at := Carrier.ContextKey(CarrierContext(req)), world.observed(0);
    var r := DialResult(req, plan, false, CarrierScope, 0);
    assert start.carriers + [] == start.carriers && [] + [plan] == [plan];
    LogAtStart(req, world, start, []);
    LogAfterFailure(req, world, start, [], [], plan);
    UnknownIsAbsent(start.carriers, key, c.name);
    UnknownIsAbsent(start.carriers, key, dearer.name);
    assert CarrierKey(r) == key && c.name != dearer.name by {
      assert [c, dearer][0].name != [c, dearer][1].name;
    }
    FailureRemembered(start.carriers, r, at);
    PutAt(MemoryOf(Carrier.Update, start.carriers), key, c.name, FailureStats(0, at), key, c.name);
    PutAt(MemoryOf(Carrier.Update, start.carriers), key, c.name, FailureStats(0, at), key, dearer.name);
  }

  /** The bound on the cost spread is sharp: at the spread or beyond it the loop dials the cheaper
      candidate, is offered it again, and stops without ever dialling the dearer one. */
  lemma SpreadIsSharp(decay: int -> real, ds: Dpi.Store, req: Request, world: World, start: Start, plans: seq<Plan>,
                      outcome: Outcome, reports: seq<Report>, c: Carrier.Candidate, dearer: Carrier.Candidate)
    requires WideRun(decay, MemoryOf(Carrier.Update, start.carriers), req, world, c, dearer)
    requires LoopRecord(decay, ds, req, world, start, [], plans, outcome, reports)
    ensures outcome == Exhausted && Carriers(plans) == [c]
  {
    var plan := WideFirst(decay, ds, req, world, start, c, dearer);
    WideSecond(decay, ds, req, world, start, c, dearer, plan);
    NoDialConnects(world, plans, outcome);
    OnlyOneRound(decay, ds, req, world, start, plans, outcome, reports, plan);
  }

  /** A loop offered the same plan again stops after one dial. */
  lemma OnlyOneRound(decay: int -> real, ds: Dpi.Store, req: Request, world: World, start: Start, plans: seq<Plan>,
                     outcome: Outcome, reports: seq<Report>, plan: Plan)
    requires LoopRecord(decay, ds, req, world, start, [], plans, outcome, reports) && !outcome.Connected?
    requires RoundPlan(decay, ds, req, world, start, [], []) == Some(plan)
    requires var again := RoundPlan(decay, ds, req, world, start, [], [plan]);
      again.Some? && PlanKey(again.value) == PlanKey(plan)
    ensures plans == [plan] && outcome == Exhausted
  {
    if plans != [] {
      FirstRounds(decay, ds, req, world, start, plans, outcome);
    }
  }

  lemma FirstRounds(decay: int -> real, ds: Dpi.Store, req: Request, world: World, start: Start, plans: seq<Plan>,
                    outcome: Outcome)
    requires Replanned(decay, ds, req, world, start, [], plans) && EndsWith(world, plans, outcome) && plans != []
    ensures RoundPlan(decay, ds, req, world, start, [], []) == Some(plans[0])
    ensures |plans| > 1 ==>
      && RoundPlan(decay, ds, req, world, start, [], [plans[0]]) == Some(plans[1])
      && PlanKey(plans[0]) != PlanKey(plans[1])
  {
    assert plans[..0] == [];
    if |plans| > 1 {
      assert plans[..1] == [plans[0]];
    }
  }

  /** Such a run: "direct" at no cost and "relay" at 1.025, in an empty store. */
  const FREE := Carrier.Candidate(Ascii("direct"), Carrier.Direct, [], 0.0, true, true)
  const DEAR := Carrier.Candidate(Ascii("relay"), Carrier.RelayKind, [97, 58, 49], SPREAD, true, true)

  function WideRequest(): Request {
    Request([110], [97, 58, 49], TCP, Ascii("default"), [FREE, DEAR], DirectOnly([]))
  }

  function WideWorld(): World {
    World([110], 0, (k: nat) => (j: nat) => if k == 0 then 0 else Carrier.HALF_LIFE, (i: nat) => Fails(0),
          (i: nat) => 0, (k: nat) => (j: nat) => 0, RaceEnd(None, 0, []))
  }

  lemma WideRunExists()
    ensures WideRun(Carrier.Hyperbola, map[], WideRequest(), WideWorld(), FREE, DEAR)
  {
    Carrier.HyperbolaIsDecay();
    DirectOnlyIsUsable([]);
    TrimKeeps([97, 58, 49]);
    FreeAndDear();
    DefaultIsLower();
  }

  lemma FreeAndDear()
    ensures Carrier.Compatible(TCP, [FREE, DEAR]) == [FREE, DEAR] && Distinct([FREE, DEAR])
  {
    TcpIsTcp();
    NameIsPlain("direct");
    NameIsPlain("relay");
    BothCompatible(FREE, DEAR);
    assert |Ascii("direct")| == 6 && |Ascii("relay")| == 5;
  }

  lemma DefaultIsLower()
    ensures Lower(Ascii("default")) == Ascii("default")
  {
    var t := Ascii("default");
    assert forall i :: 0 <= i < |t| ==> LowerByte(t[i]) == t[i];
  }

  lemma BothCompatible(a: Carrier.Candidate, b: Carrier.Candidate)
    requires Carrier.IsCompatible(TCP, a) && Carrier.IsCompatible(TCP, b)
    ensures Carrier.Compatible(TCP, [a, b]) == [a, b]
  {
    assert [a, b][..1] == [a] && [a][..0] == [];
    assert Carrier.Compatible(TCP, [a]) == [a];
  }

  // ----- The race for an unknown context --------------------------------------------------------------------

  function Costed(cs: seq<Carrier.Candidate>): (r: seq<Ranked<Carrier.Candidate>>)
    ensures |r| == |cs|
    ensures forall i :: 0 <= i < |cs| ==> r[i] == Ranked(cs[i], 0.0, cs[i].cost, false)
  {
    seq(|cs|, i requires 0 <= i < |cs| => Ranked(cs[i], 0.0, cs[i].cost, false))
  }

  /** sort.SliceStable by cost. */
  function ByCost(cs: seq<Carrier.Candidate>): seq<Ranked<Carrier.Candidate>> {
    StableSort(Costed(cs))
  }

  /** The two cheapest candidates, the earlier first among equals. */
  function Racers(cs: seq<Carrier.Candidate>): (r: seq<Ranked<Carrier.Candidate>>)
    ensures |r| <= 2
  {
    if |ByCost(cs)| > 2 then ByCost(cs)[..2] else ByCost(cs)
  }

  /** Of two or more candidates, the racers are two: one that no other precedes in cost and position,
      and one that only that one precedes. */
  lemma RacersAreCheapest(cs: seq<Carrier.Candidate>) returns (first: nat, second: nat)
    requires |cs| >= 2
    ensures first < |cs| && second < |cs| && first != second && |Racers(cs)| == 2
    ensures Racers(cs)[0].item == cs[first] && Racers(cs)[1].item == cs[second]
    ensures forall p: nat :: p < |cs| && p != first ==> Before(cs, first, p)
    ensures forall p: nat :: p < |cs| && p != first && p != second ==> Before(cs, second, p)
  {
    first, second := TwoCheapest(Costed(cs));
    forall p: nat | p < |cs|
      ensures p != first ==> Before(cs, first, p)
      ensures p != first && p != second ==> Before(cs, second, p)
    {
      assert p != first ==> Cheaper(Costed(cs), first, p);
      assert p != first && p != second ==> Cheaper(Costed(cs), second, p);
    }
  }

  /** The plan raceUnknown makes for racer i on its own. */
  function SoloPlan(decay: int -> real, cs: Carrier.Store, ds: Dpi.Store, req: Request, world: World, i: nat)
    : Option<Plan>
  {
    if i >= |Racers(req.carriers)| then None
    else PlanFor(decay, cs, ds, req.(carriers := [Racers(req.carriers)[i].item]), world.raceClock(i))
  }

  /** A racer that got a plan, under its carrier's name. */
  datatype Entrant = Entrant(name: text, plan: Plan)

  /** Those among the first n racers that got a plan. */
  function Entrants(decay: int -> real, cs: Carrier.Store, ds: Dpi.Store, req: Request, world: World, n: nat)
    : seq<Entrant>
    requires n <= |Racers(req.carriers)|
  {
    if n == 0 then []
    else
      Entrants(decay, cs, ds, req, world, n - 1)
      + Entering(Racers(req.carriers)[n - 1].item.name, SoloPlan(decay, cs, ds, req, world, n - 1))
  }

  function Entering(name: text, plan: Option<Plan>): seq<Entrant> {
    if plan.Some? then [Entrant(name, plan.value)] else []
  }

  function AllEntrants(decay: int -> real, cs: Carrier.Store, ds: Dpi.Store, req: Request, world: World): seq<Entrant> {
    Entrants(decay, cs, ds, req, world, |Racers(req.carriers)|)
  }

  /** The plan an attempt is charged with or returns: plans are kept by name, the later of two
      entrants of one name replacing the earlier. */
  function PlanOf(entrants: seq<Entrant>, i: nat): Plan
    requires i < |entrants|
  {
    var last := |entrants| - 1;
    if entrants[last].name == entrants[i].name then entrants[last].plan else PlanOf(entrants[..last], i)
  }

  /** An attempt stands for the plan of the last entrant with its name: its own, if its name is not
      repeated after it. */
  lemma {:induction false} PlanOfLast(entrants: seq<Entrant>, i: nat, j: nat)
    requires i < |entrants| && j < |entrants| && entrants[i].name == entrants[j].name
    requires forall k :: j < k < |entrants| ==> entrants[k].name != entrants[j].name
    ensures PlanOf(entrants, i) == entrants[j].plan
  {
    if j < |entrants| - 1 {
      assert entrants[|entrants| - 1].name != entrants[j].name;
      PlanOfLast(entrants[..|entrants| - 1], i, j);
    }
  }

  lemma PlanOfSnoc(entrants: seq<Entrant>, e: Entrant, i: nat)
    requires i <= |entrants|
    ensures PlanOf(entrants + [e], i)
      == if i == |entrants| || entrants[i].name == e.name then e.plan else PlanOf(entrants, i)
  {
    assert (entrants + [e])[..|entrants|] == entrants;
  }

  predicate EntrantsNamed(entrants: seq<Entrant>) {
    forall i :: 0 <= i < |entrants| ==> Named(entrants[i].plan)
  }

  lemma {:induction false} PlanOfIsNamed(entrants: seq<Entrant>, i: nat)
    requires i < |entrants| && EntrantsNamed(entrants)
    ensures Named(PlanOf(entrants, i))
  {
    if entrants[|entrants| - 1].name != entrants[i].name {
      PlanOfIsNamed(entrants[..|entrants| - 1], i);
    }
  }

  lemma SoloPlansAreNamed(decay: int -> real, cs: Carrier.Store, ds: Dpi.Store, req: Request, world: World, i: nat)
    ensures var plan := SoloPlan(decay, cs, ds, req, world, i); plan.Some? ==> Named(plan.value)
  {
    if i < |Racers(req.carriers)| {
      PlansAreNamed(decay, cs, ds, req.(carriers := [Racers(req.carriers)[i].item]), world.raceClock(i));
    }
  }

  lemma NextEntrant(decay: int -> real, cs: Carrier.Store, ds: Dpi.Store, req: Request, world: World, i: nat)
    requires i < |Racers(req.carriers)|
    ensures Entrants(decay, cs, ds, req, world, i + 1)
      == Entrants(decay, cs, ds, req, world, i)
         + Entering(Racers(req.carriers)[i].item.name, SoloPlan(decay, cs, ds, req, world, i))
  {
  }

  lemma EnteringNamed(entrants: seq<Entrant>, name: text, plan: Option<Plan>)
    requires EntrantsNamed(entrants) && (plan.Some? ==> Named(plan.value))
    ensures EntrantsNamed(entrants + Entering(name, plan))
  {
  }

  lemma {:induction false} EntrantsAreNamed(decay: int -> real, cs: Carrier.Store, ds: Dpi.Store, req: Request,
                                            world: World, n: nat)
    requires n <= |Racers(req.carriers)|
    ensures EntrantsNamed(Entrants(decay, cs, ds, req, world, n))
  {
    if n > 0 {
      var i: nat := n - 1;
      EntrantsAreNamed(decay, cs, ds, req, world, i);
      SoloPlansAreNamed(decay, cs, ds, req, world, i);
      NextEntrant(decay, cs, ds, req, world, i);
      EnteringNamed(Entrants(decay, cs, ds, req, world, i), Racers(req.carriers)[i].item.name,
                    SoloPlan(decay, cs, ds, req, world, i));
    }
  }

  /** One charge per failed attempt, in the order the race reports them. */
  function Charges(req: Request, entrants: seq<Entrant>, failed: seq<RaceFailure>): seq<Report>
    requires forall i :: 0 <= i < |failed| ==> failed[i].attempt < |entrants|
  {
    if failed == [] then []
    else
      var last := failed[|failed| - 1];
      Charges(req, entrants, failed[..|failed| - 1])
      + [Charge(req, PlanOf(entrants, last.attempt), last.latency, last.at)]
  }

  /** What the race leaves behind, and the plan it returns. */
  function RaceReports(req: Request, entrants: seq<Entrant>, race: RaceEnd): seq<Report>
    requires race.Valid()
  {
    if |entrants| < 2 then [] else Charges(req, entrants, race.failures)
  }

  function RaceWon(entrants: seq<Entrant>, race: RaceEnd): Option<Plan>
    requires race.Valid()
  {
    if |entrants| < 2 || race.winner == None then None else Some(PlanOf(entrants, race.winner.value))
  }

  method PlanSolo(planner: Planner, req: Request, world: World, racers: seq<Ranked<Carrier.Candidate>>, i: nat)
    returns (plan: Option<Plan>)
    requires racers == Racers(req.carriers) && i < |racers|
    ensures plan == SoloPlan(planner.carriers.decay, planner.carriers.store, planner.dpi.store, req, world, i)
  {
    var single := req.(carriers := [racers[i].item]);
    plan := planner.Choose(single, world.raceClock(i));
  }

  /** The names of the entrants, and the plan filed under each. */
  predicate Filed(entrants: seq<Entrant>, names: seq<text>, plans: map<text, Plan>) {
    && |names| == |entrants|
    && forall k :: 0 <= k < |names| ==>
      names[k] == entrants[k].name && names[k] in plans && plans[names[k]] == PlanOf(entrants, k)
  }

  lemma FileOneMore(entrants: seq<Entrant>, names: seq<text>, plans: map<text, Plan>, name: text, plan: Option<Plan>)
    requires Filed(entrants, names, plans)
    ensures var more := entrants + Entering(name, plan);
      if plan == None then Filed(more, names, plans) else Filed(more, names + [name], plans[name := plan.value])
  {
    if plan == None {
      assert entrants + [] == entrants;
    } else {
      FileAnother(entrants, names, plans, Entrant(name, plan.value));
    }
  }

  lemma FileAnother(entrants: seq<Entrant>, names: seq<text>, plans: map<text, Plan>, e: Entrant)
    requires Filed(entrants, names, plans)
    ensures Filed(entrants + [e], names + [e.name], plans[e.name := e.plan])
  {
    forall k: nat | k <= |names|
      ensures var n := (names + [e.name])[k];
        n == (entrants + [e])[k].name && plans[e.name := e.plan][n] == PlanOf(entrants + [e], k)
    {
      PlanOfSnoc(entrants, e, k);
    }
  }

  /** Plans each racer on its own; a racer without a plan does not enter. */
  method PlanRace(planner: Planner, req: Request, world: World) returns (names: seq<text>, plans: map<text, Plan>)
    ensures Filed(AllEntrants(planner.carriers.decay, planner.carriers.store, planner.dpi.store, req, world), names,
                  plans)
  {
    var racers := ByCost(req.carriers);
    if |racers| > 2 {
      racers := racers[..2];
    }
    names, plans := [], map[];
    for i := 0 to |racers|
      invariant Filed(Entrants(planner.carriers.decay, planner.carriers.store, planner.dpi.store, req, world, i), names,
                      plans)
    {
      var plan := PlanSolo(planner, req, world, racers, i);
      ghost var entrants := Entrants(planner.carriers.decay, planner.carriers.store, planner.dpi.store, req, world, i);
      NextEntrant(planner.carriers.decay, planner.carriers.store, planner.dpi.store, req, world, i);
      FileOneMore(entrants, names, plans, racers[i].item.name, plan);
      if plan == None {
        continue;
      }
      plans := plans[racers[i].item.name := plan.value];
      names := names + [racers[i].item.name];
    }
  }

  lemma ChargesSnoc(before: seq<Report>, req: Request, entrants: seq<Entrant>, failed: seq<RaceFailure>, i: nat)
    requires i < |failed| && forall k :: 0 <= k < |failed| ==> failed[k].attempt < |entrants|
    ensures before + Charges(req, entrants, failed[..i + 1])
      == before + Charges(req, entrants, failed[..i])
         + [Charge(req, PlanOf(entrants, failed[i].attempt), failed[i].latency, failed[i].at)]
  {
    assert failed[..i + 1][..i] == failed[..i];
    Assoc(before, Charges(req, entrants, failed[..i]),
          [Charge(req, PlanOf(entrants, failed[i].attempt), failed[i].latency, failed[i].at)]);
  }

  method RecordRaceFailures(planner: Planner, req: Request, failed: seq<RaceFailure>, names: seq<text>,
                            plans: map<text, Plan>,
                            ghost entrants: seq<Entrant>, ghost start: Start, ghost before: seq<Report>)
    returns (ghost all: seq<Report>)
    requires Recorded(planner, start, before) && FailuresOnly(before)
    requires Filed(entrants, names, plans) && EntrantsNamed(entrants)
    requires forall i :: 0 <= i < |failed| ==> failed[i].attempt < |names|
    modifies planner.carriers, planner.dpi
    ensures Recorded(planner, start, all) && FailuresOnly(all)
    ensures all == before + Charges(req, entrants, failed) && planner.dpi.store == old(planner.dpi.store)
  {
    all := before;
    assert before + [] == before;
    for i := 0 to |failed|
      invariant Recorded(planner, start, all) && FailuresOnly(all)
      invariant all == before + Charges(req, entrants, failed[..i])
      invariant planner.dpi.store == old(planner.dpi.store)
    {
      var f := failed[i];
      PlanOfIsNamed(entrants, f.attempt);
      ChargesSnoc(before, req, entrants, failed, i);
      all := RecordFailure(planner, req, plans[names[f.attempt]], f.latency, f.at, start, all);
    }
    assert failed[..|failed|] == failed;
  }

  /** raceUnknown: plan the two cheapest, race them, charge each failed attempt with its plan, and
      return the plan of the attempt that won. */
  method RaceUnknown(planner: Planner, req: Request, world: World, ghost start: Start, ghost before: seq<Report>)
    returns (won: Option<Plan>, ghost failures: seq<Report>)
    requires Recorded(planner, start, before) && FailuresOnly(before) && world.race.Valid()
    modifies planner.carriers, planner.dpi
    ensures Recorded(planner, start, failures) && FailuresOnly(failures)
    ensures planner.dpi.store == old(planner.dpi.store)
    ensures var entrants :=
        AllEntrants(planner.carriers.decay, old(planner.carriers.store), old(planner.dpi.store), req, world);
      && failures == before + RaceReports(req, entrants, world.race)
      && won == RaceWon(entrants, world.race)
      && (won.Some? ==> Named(won.value))
  {
    ghost var entrants := AllEntrants(planner.carriers.decay, planner.carriers.store, planner.dpi.store, req, world);
    EntrantsAreNamed(planner.carriers.decay, planner.carriers.store, planner.dpi.store, req, world,
                     |Racers(req.carriers)|);
    failures := before;
    var names, plans := PlanRace(planner, req, world);
    if |names| < 2 {
      assert before + [] == before;
      return None, failures;
    }
    failures := RecordRaceFailures(planner, req, world.race.failures, names, plans, entrants, start, before);
    if world.race.winner == None {
      return None, failures;
    }
    PlanOfIsNamed(entrants, world.race.winner.value);
    won := Some(plans[names[world.race.winner.value]]);
  }

  // ----- DialContext -----------------------------------------------------------------------------------------

  datatype Settings = Settings(
    carriers: seq<Carrier.Candidate>, strategies: seq<Dpi.Strategy>, trafficClass: text, raceDisabled: bool,
    cooldown: int)

  const DEFAULT_COOLDOWN := 600_000_000_000

  function RequestFor(settings: Settings, ds: Dpi.Store, destination: text, world: World): Request {
    var network := if world.network == [] then Ascii("unknown") else world.network;
    var cooldown := if settings.cooldown <= 0 then DEFAULT_COOLDOWN else settings.cooldown;
    var tired := Dpi.Exhausted(ds, Dpi.Context(network, destination, settings.trafficClass), settings.strategies,
                               world.now, cooldown);
    Request(network, destination, TCP, settings.trafficClass,
            if |settings.carriers| > 1 && tired then WithoutDirect(settings.carriers) else settings.carriers,
            settings.strategies)
  }

  /** A first-use race is run when it is not switched off, there is a choice, and nothing is known
      about any candidate in this context. */
  predicate Races(settings: Settings, cs: Carrier.Store, req: Request) {
    && !settings.raceDisabled && |req.carriers| > 1
    && !exists c :: c in req.carriers && Carrier.Known(At(cs, Carrier.ContextKey(CarrierContext(req)), c.name))
  }

  /** The entrants of that race. */
  function Entered(settings: Settings, decay: int -> real, cs: Carrier.Store, ds: Dpi.Store, req: Request, world: World)
    : seq<Entrant>
  {
    if Races(settings, cs, req) then AllEntrants(decay, cs, ds, req, world) else []
  }

  /** What one call dials, reports and returns, from the learners' logs at its start. */
  ghost predicate Dialled(settings: Settings, decay: int -> real, cs: Carrier.Store, ds: Dpi.Store, req: Request,
                          world: World, start: Start, outcome: Outcome, plans: seq<Plan>, reports: seq<Report>)
    requires world.race.Valid()
  {
    var entrants := Entered(settings, decay, cs, ds, req, world);
    var charges := RaceReports(req, entrants, world.race);
    match RaceWon(entrants, world.race)
    case Some(plan) =>
      && outcome == Connected(plan) && plans == []
      && reports == charges + SuccessReports(req, plan, world.race.latency, world.now)
    case None =>
      LoopRecord(decay, ds, req, world, start, charges, plans, outcome, reports)
  }

  /** The carrier learner has no observation of any candidate in this context. */
  ghost predicate FirstUseOf(settings: Settings, log: seq<Observed<Carrier.Event>>, req: Request) {
    var ctx := Carrier.Context(req.networkID, req.destination, req.trafficClass, req.protocol);
    && !settings.raceDisabled && |req.carriers| > 1
    && forall c :: c in req.carriers ==> Matching(log, Carrier.ContextKey(ctx), c.name) == []
  }

  lemma KnownIffObserved(log: seq<Observed<Carrier.Event>>, key: text, name: text)
    ensures Carrier.Known(At(MemoryOf(Carrier.Update, log), key, name)) <==> Matching(log, key, name) != []
  {
    MemoryIsFoldOfOwnLog(Carrier.Update, log, key, name);
    if Matching(log, key, name) != [] {
      Carrier.StatsCountTheLog(Matching(log, key, name));
    }
  }

  lemma RacesIffFirstUse(settings: Settings, log: seq<Observed<Carrier.Event>>, req: Request)
    ensures Races(settings, MemoryOf(Carrier.Update, log), req) <==> FirstUseOf(settings, log, req)
  {
    forall c | c in req.carriers
      ensures Carrier.Known(At(MemoryOf(Carrier.Update, log), Carrier.ContextKey(CarrierContext(req)), c.name))
        <==> Matching(log, Carrier.ContextKey(CarrierContext(req)), c.name) != []
    {
      KnownIffObserved(log, Carrier.ContextKey(CarrierContext(req)), c.name);
    }
  }

  /** A call races exactly when racing is on, more than one candidate is left, and no observation of any of them in
      this context is in the log; any other goes straight to the loop. */
  lemma RacesOnlyOnFirstUse(settings: Settings, decay: int -> real, ds: Dpi.Store, req: Request, world: World,
                            start: Start, outcome: Outcome, plans: seq<Plan>, reports: seq<Report>)
    requires world.race.Valid()
    requires Dialled(settings, decay, MemoryOf(Carrier.Update, start.carriers), ds, req, world, start, outcome, plans,
                     reports)
    ensures !FirstUseOf(settings, start.carriers, req) ==>
      LoopRecord(decay, ds, req, world, start, [], plans, outcome, reports)
    ensures FirstUseOf(settings, start.carriers, req) ==>
      var entrants := AllEntrants(decay, MemoryOf(Carrier.Update, start.carriers), ds, req, world);
      var charges := if |entrants| < 2 then [] else Charges(req, entrants, world.race.failures);
      if |entrants| >= 2 && world.race.winner.Some? then
        var plan := PlanOf(entrants, world.race.winner.value);
        outcome == Connected(plan) && plans == []
        && reports == charges + SuccessReports(req, plan, world.race.latency, world.now)
      else LoopRecord(decay, ds, req, world, start, charges, plans, outcome, reports)
  {
    RacesIffFirstUse(settings, start.carriers, req);
  }

  /** Every strategy's last failure for this destination is recent, and no later success followed. */
  ghost predicate Worn(settings: Settings, log: seq<Observed<Dpi.Event>>, ctx: Dpi.Context, now: int) {
    settings.strategies != [] && forall c :: c in settings.strategies ==>
      Dpi.Worn(Matching(log, Dpi.ContextKey(ctx), c.name), now,
               if settings.cooldown <= 0 then 600_000_000_000 else settings.cooldown)
  }

  /** What a call works with: everything configured, except that direct candidates are left out, if there
      are others, while direct traffic to this destination is worn out. */
  ghost predicate WorksWith(settings: Settings, log: seq<Observed<Dpi.Event>>, destination: text, world: World,
                            req: Request)
  {
    && req.networkID == (if world.network == [] then Ascii("unknown") else world.network)
    && req.destination == destination && req.protocol == TCP && req.trafficClass == settings.trafficClass
    && req.strategies == settings.strategies
    && if Worn(settings, log, Dpi.Context(req.networkID, destination, settings.trafficClass), world.now)
       then DirectDropped(settings.carriers, req.carriers)
       else req.carriers == settings.carriers
  }

  lemma ExhaustedIffWorn(settings: Settings, log: seq<Observed<Dpi.Event>>, ctx: Dpi.Context, now: int)
    ensures Dpi.Exhausted(MemoryOf(Dpi.Update, log), ctx, settings.strategies, now,
                          if settings.cooldown <= 0 then DEFAULT_COOLDOWN else settings.cooldown)
      <==> Worn(settings, log, ctx, now)
  {
    var key, cooldown := Dpi.ContextKey(ctx), if settings.cooldown <= 0 then DEFAULT_COOLDOWN else settings.cooldown;
    forall c | c in settings.strategies
      ensures Dpi.FailedRecently(At(MemoryOf(Dpi.Update, log), key, c.name), now, cooldown)
        <==> Dpi.Worn(Matching(log, key, c.name), now, cooldown)
    {
      Dpi.FailedRecentlyIffWorn(log, key, c.name, now, cooldown);
    }
  }

  lemma RequestWorks(settings: Settings, log: seq<Observed<Dpi.Event>>, destination: text, world: World)
    ensures var req := RequestFor(settings, MemoryOf(Dpi.Update, log), destination, world);
      WorksWith(settings, log, destination, world, req)
  {
    var network := if world.network == [] then Ascii("unknown") else world.network;
    ExhaustedIffWorn(settings, log, Dpi.Context(network, destination, settings.trafficClass), world.now);
    WithoutDirectDrops(settings.carriers);
    if |settings.carriers| <= 1 {
      OneStays(settings.carriers);
    }
  }

  lemma OneStays(cs: seq<Carrier.Candidate>)
    requires |cs| <= 1
    ensures DirectDropped(cs, cs)
  {
    if p :| 0 <= p < |cs| && cs[p].kind != Carrier.Direct {
      assert NotDirectPlaces(cs, [0]) && cs == Pick(cs, [0]);
    }
  }

  /** All plans and reports are about carriers the call works with. */
  predicate OnlyOffered(req: Request, outcome: Outcome, plans: seq<Plan>, reports: seq<Report>) {
    && (forall i :: 0 <= i < |plans| ==> plans[i].carrier.carrier in req.carriers)
    && (outcome.Connected? ==> outcome.plan.carrier.carrier in req.carriers)
    && (forall i :: 0 <= i < |reports| ==> reports[i].result.plan.carrier.carrier in req.carriers)
  }

  predicate PlansOffered(req: Request, plans: seq<Plan>) {
    forall i :: 0 <= i < |plans| ==> plans[i].carrier.carrier in req.carriers
  }

  predicate ReportsOffered(req: Request, reports: seq<Report>) {
    forall i :: 0 <= i < |reports| ==> reports[i].result.plan.carrier.carrier in req.carriers
  }

  lemma ReplannedOffered(decay: int -> real, ds: Dpi.Store, req: Request, world: World, start: Start,
                         before: seq<Report>, plans: seq<Plan>)
    requires Replanned(decay, ds, req, world, start, before, plans)
    ensures PlansOffered(req, plans)
  {
    forall i: nat | i < |plans|
      ensures plans[i].carrier.carrier in req.carriers
    {
      var log := start.carriers + CarrierLog(before + LoopReports(req, world, plans[..i]));
      assert RoundPlan(decay, ds, req, world, start, before, plans[..i]) == Some(plans[i]);
      PlanSuitsCarrier(decay, MemoryOf(Carrier.Update, log), ds, req, world.clock(|plans[..i]|));
    }
  }

  lemma {:induction false} LoopReportsOffered(req: Request, world: World, plans: seq<Plan>)
    requires PlansOffered(req, plans)
    ensures ReportsOffered(req, LoopReports(req, world, plans))
  {
    if plans != [] {
      LoopReportsOffered(req, world, plans[..|plans| - 1]);
    }
  }

  predicate EntrantsOffered(req: Request, entrants: seq<Entrant>) {
    forall i :: 0 <= i < |entrants| ==> entrants[i].plan.carrier.carrier in req.carriers
  }

  lemma {:induction false} PlanOfIsOffered(req: Request, entrants: seq<Entrant>, i: nat)
    requires i < |entrants| && EntrantsOffered(req, entrants)
    ensures PlanOf(entrants, i).carrier.carrier in req.carriers
  {
    if entrants[|entrants| - 1].name != entrants[i].name {
      PlanOfIsOffered(req, entrants[..|entrants| - 1], i);
    }
  }

  lemma {:induction false} ChargesOffered(req: Request, entrants: seq<Entrant>, failed: seq<RaceFailure>)
    requires EntrantsOffered(req, entrants)
    requires forall i :: 0 <= i < |failed| ==> failed[i].attempt < |entrants|
    ensures ReportsOffered(req, Charges(req, entrants, failed))
  {
    if failed != [] {
      ChargesOffered(req, entrants, failed[..|failed| - 1]);
      PlanOfIsOffered(req, entrants, failed[|failed| - 1].attempt);
    }
  }

  /** A racer's plan is for that racer. */
  lemma {:induction false} EntrantsAreRacers(decay: int -> real, cs: Carrier.Store, ds: Dpi.Store, req: Request,
                                             world: World, n: nat)
    requires n <= |Racers(req.carriers)|
    ensures EntrantsOffered(req, Entrants(decay, cs, ds, req, world, n))
  {
    if n > 0 {
      var i: nat := n - 1;
      var racer := Racers(req.carriers)[i].item;
      EntrantsAreRacers(decay, cs, ds, req, world, i);
      NextEntrant(decay, cs, ds, req, world, i);
      RacerIsOffered(req.carriers, i);
      SoloIsRacer(decay, cs, ds, req, world, i);
      EnteringOffered(req, Entrants(decay, cs, ds, req, world, i), racer.name, SoloPlan(decay, cs, ds, req, world, i));
    }
  }

  lemma SoloIsRacer(decay: int -> real, cs: Carrier.Store, ds: Dpi.Store, req: Request, world: World, i: nat)
    requires i < |Racers(req.carriers)|
    ensures var plan := SoloPlan(decay, cs, ds, req, world, i);
      plan.Some? ==> plan.value.carrier.carrier == Racers(req.carriers)[i].item
  {
    if SoloPlan(decay, cs, ds, req, world, i).Some? {
      PlanSuitsCarrier(decay, cs, ds, req.(carriers := [Racers(req.carriers)[i].item]), world.raceClock(i));
    }
  }

  lemma EnteringOffered(req: Request, entrants: seq<Entrant>, name: text, plan: Option<Plan>)
    requires EntrantsOffered(req, entrants) && (plan.Some? ==> plan.value.carrier.carrier in req.carriers)
    ensures EntrantsOffered(req, entrants + Entering(name, plan))
  {
  }

  lemma RacerIsOffered(cs: seq<Carrier.Candidate>, i: nat)
    requires i < |Racers(cs)|
    ensures Racers(cs)[i].item in cs
  {
    var ranked := Costed(cs);
    SortIsPermutation(ranked);
    assert Racers(cs)[i] == ByCost(cs)[i];
    assert Racers(cs)[i] in multiset(StableSort(ranked));
  }

  /** Whoever races is one of the candidates the call works with. */
  lemma EnteredOffered(settings: Settings, decay: int -> real, cs: Carrier.Store, ds: Dpi.Store, req: Request,
                       world: World)
    ensures EntrantsOffered(req, Entered(settings, decay, cs, ds, req, world))
  {
    EntrantsAreRacers(decay, cs, ds, req, world, |Racers(req.carriers)|);
  }

  lemma LoopOffered(decay: int -> real, ds: Dpi.Store, req: Request, world: World, start: Start,
                    before: seq<Report>, plans: seq<Plan>, outcome: Outcome, reports: seq<Report>)
    requires LoopRecord(decay, ds, req, world, start, before, plans, outcome, reports) && ReportsOffered(req, before)
    ensures OnlyOffered(req, outcome, plans, reports)
  {
    ReplannedOffered(decay, ds, req, world, start, before, plans);
    LoopReportsOffered(req, world, plans);
    LastIsOffered(req, world, plans, outcome);
  }

  lemma LastIsOffered(req: Request, world: World, plans: seq<Plan>, outcome: Outcome)
    requires EndsWith(world, plans, outcome) && PlansOffered(req, plans)
    ensures outcome.Connected? ==> outcome.plan.carrier.carrier in req.carriers
  {
  }

  lemma RaceOffered(req: Request, entrants: seq<Entrant>, race: RaceEnd)
    requires race.Valid() && EntrantsOffered(req, entrants)
    ensures ReportsOffered(req, RaceReports(req, entrants, race))
    ensures RaceWon(entrants, race).Some? ==> RaceWon(entrants, race).value.carrier.carrier in req.carriers
  {
    if |entrants| >= 2 {
      ChargesOffered(req, entrants, race.failures);
      if race.winner.Some? {
        PlanOfIsOffered(req, entrants, race.winner.value);
      }
    }
  }

  lemma DialledByRace(settings: Settings, decay: int -> real, cs: Carrier.Store, ds: Dpi.Store, req: Request,
                      world: World, start: Start, plan: Plan, charges: seq<Report>)
    requires world.race.Valid()
    requires var entrants := Entered(settings, decay, cs, ds, req, world);
      RaceWon(entrants, world.race) == Some(plan) && charges == RaceReports(req, entrants, world.race)
    ensures Dialled(settings, decay, cs, ds, req, world, start, Connected(plan), [],
                    charges + SuccessReports(req, plan, world.race.latency, world.now))
    ensures OnlyOffered(req, Connected(plan), [], charges + SuccessReports(req, plan, world.race.latency, world.now))
  {
    EnteredOffered(settings, decay, cs, ds, req, world);
    RaceOffered(req, Entered(settings, decay, cs, ds, req, world), world.race);
  }

  lemma DialledByLoop(settings: Settings, decay: int -> real, cs: Carrier.Store, ds: Dpi.Store, req: Request,
                      world: World, start: Start, outcome: Outcome, charges: seq<Report>, plans: seq<Plan>,
                      reports: seq<Report>)
    requires world.race.Valid()
    requires var entrants := Entered(settings, decay, cs, ds, req, world);
      RaceWon(entrants, world.race) == None && charges == RaceReports(req, entrants, world.race)
    requires LoopRecord(decay, ds, req, world, start, charges, plans, outcome, reports)
    ensures Dialled(settings, decay, cs, ds, req, world, start, outcome, plans, reports)
    ensures OnlyOffered(req, outcome, plans, reports)
  {
    EnteredOffered(settings, decay, cs, ds, req, world);
    RaceOffered(req, Entered(settings, decay, cs, ds, req, world), world.race);
    LoopOffered(decay, ds, req, world, start, charges, plans, outcome, reports);
  }

  /** While direct traffic is worn out and there is another candidate, none of them is direct. */
  lemma NoDirectWhenWorn(settings: Settings, log: seq<Observed<Dpi.Event>>, destination: text, world: World,
                         req: Request)
    requires WorksWith(settings, log, destination, world, req)
    requires Worn(settings, log, Dpi.Context(req.networkID, destination, settings.trafficClass), world.now)
    requires exists c :: c in settings.carriers && c.kind != Carrier.Direct
    ensures forall c :: c in req.carriers ==> c.kind != Carrier.Direct && c in settings.carriers
  {
    var cs := settings.carriers;
    var c :| c in cs && c.kind != Carrier.Direct;
    var p: nat :| p < |cs| && cs[p] == c;
    var kept :| NotDirectPlaces(cs, kept) && req.carriers == Pick(cs, kept);
    PickedAreNotDirect(cs, kept);
  }

  lemma PickedAreNotDirect(cs: seq<Carrier.Candidate>, kept: seq<nat>)
    requires NotDirectPlaces(cs, kept)
    ensures forall c :: c in Pick(cs, kept) ==> c.kind != Carrier.Direct && c in cs
  {
    forall k | 0 <= k < |kept|
      ensures Pick(cs, kept)[k].kind != Carrier.Direct && Pick(cs, kept)[k] in cs
    {
      assert kept[k] in kept && cs[kept[k]] in cs;
    }
  }

  class Dialer {
    const planner: Planner
    const settings: Settings

    constructor (planner: Planner, settings: Settings)
      ensures this.planner == planner && this.settings == settings
    {
      this.planner, this.settings := planner, settings;
    }

    method Prepare(destination: text, world: World) returns (req: Request)
      ensures req == RequestFor(settings, planner.dpi.store, destination, world)
    {
      var cooldown := settings.cooldown;
      if cooldown <= 0 {
        cooldown := DEFAULT_COOLDOWN;
      }
      var network := world.network;
      if network == [] {
        network := Ascii("unknown");
      }
      var candidates := settings.carriers;
      if |candidates| > 1 {
        var tired := planner.dpi.RecentlyExhausted(
          Dpi.Context(network, destination, settings.trafficClass), settings.strategies, world.now, cooldown);
        if tired {
          candidates := WithoutDirectCarrier(candidates);
        }
      }
      req := Request(network, destination, TCP, settings.trafficClass, candidates, settings.strategies);
    }

    /** The race of a first use, if one is due. */
    method FirstUse(req: Request, world: World, ghost start: Start)
      returns (won: Option<Plan>, ghost charges: seq<Report>)
      requires Recorded(planner, start, []) && world.race.Valid()
      modifies planner.carriers, planner.dpi
      ensures Recorded(planner, start, charges) && FailuresOnly(charges)
      ensures planner.dpi.store == old(planner.dpi.store)
      ensures settings.raceDisabled ==> planner.carriers.store == old(planner.carriers.store)
      ensures var entrants := Entered(
          settings, planner.carriers.decay, old(planner.carriers.store), old(planner.dpi.store), req, world);
        && charges == RaceReports(req, entrants, world.race)
        && won == RaceWon(entrants, world.race)
        && (won.Some? ==> Named(won.value))
    {
      won, charges := None, [];
      if !settings.raceDisabled && |req.carriers| > 1 {
        var evidence := planner.carriers.HasEvidence(CarrierContext(req), req.carriers);
        if !evidence {
          assert Races(settings, planner.carriers.store, req);
          won, charges := RaceUnknown(planner, req, world, start, []);
        }
      }
    }

    /** The rest of the call: the race when it is the first use, and otherwise, or when nobody wins, the loop. */
    method DialRequest(req: Request, world: World)
      returns (outcome: Outcome, plans: seq<Plan>, ghost tried: seq<nat>, ghost reports: seq<Report>)
      requires planner.Valid() && world.race.Valid()
      modifies planner.carriers, planner.dpi
      ensures planner.Valid()
      ensures planner.carriers.log == old(planner.carriers.log) + CarrierLog(reports)
      ensures planner.dpi.log == old(planner.dpi.log) + DpiLog(reports)
      ensures Evidence(reports, outcome) && outcome != RecordFailed && outcome != NotConfigured
      ensures |plans| <= |req.carriers| + 2
      ensures OnlyOffered(req, outcome, plans, reports)
      ensures Dialled(settings, planner.carriers.decay, old(planner.carriers.store), old(planner.dpi.store), req, world,
                      Start(old(planner.carriers.log), old(planner.dpi.log)), outcome, plans, reports)
      ensures settings.raceDisabled && ColdRun(planner.carriers.decay, old(planner.carriers.store), req, world) ==>
        var cs := Carrier.Compatible(TCP, req.carriers);
        outcome == Exhausted && StableCostOrder(cs, tried) && Carriers(plans) == Pick(cs, tried)
    {
      plans, tried := [], [];
      ghost var start := Start(planner.carriers.log, planner.dpi.log);
      ghost var decay, cs, ds := planner.carriers.decay, planner.carriers.store, planner.dpi.store;
      ghost var charges;
      var won;
      won, charges := FirstUse(req, world, start);
      reports := charges;
      if won.Some? {
        outcome, reports :=
          RecordSuccessfulConnection(planner, req, won.value, world.race.latency, world.now, start, reports);
        DialledByRace(settings, decay, cs, ds, req, world, start, won.value, charges);
        return;
      }
      outcome, plans, reports := Replan(planner, req, world, start, reports);
      if settings.raceDisabled && ColdRun(decay, cs, req, world) {
        tried := ColdFailover(decay, ds, req, world, start, charges, plans, outcome, reports);
      }
      DialledByLoop(settings, decay, cs, ds, req, world, start, outcome, charges, plans, reports);
    }

    /** What one call records is its failures and, for a returned connection, exactly one carrier
        success and at most one DPI success, all for the plans it dialled. In a cold context with the
        race off, when every dial fails, it dials every compatible candidate exactly once, in stable
        cost order, and stops. */
    method DialContext(destination: text, world: World)
      returns (outcome: Outcome, plans: seq<Plan>, ghost tried: seq<nat>, ghost reports: seq<Report>,
               ghost req: Request)
      requires planner.Valid() && world.race.Valid()
      modifies planner.carriers, planner.dpi
      ensures planner.Valid()
      ensures planner.carriers.log == old(planner.carriers.log) + CarrierLog(reports)
      ensures planner.dpi.log == old(planner.dpi.log) + DpiLog(reports)
      ensures Evidence(reports, outcome) && outcome != RecordFailed
      ensures |plans| <= |settings.carriers| + 2
      ensures outcome == NotConfigured <==> settings.carriers == [] || settings.strategies == []
      ensures outcome == NotConfigured ==> plans == [] && reports == []
      ensures WorksWith(settings, old(planner.dpi.log), destination, world, req)
      ensures OnlyOffered(req, outcome, plans, reports)
      ensures outcome != NotConfigured ==>
        Dialled(settings, planner.carriers.decay, old(planner.carriers.store), old(planner.dpi.store), req, world,
                Start(old(planner.carriers.log), old(planner.dpi.log)), outcome, plans, reports)
      ensures settings.raceDisabled && ColdRun(planner.carriers.decay, old(planner.carriers.store), req, world) ==>
        var cs := Carrier.Compatible(TCP, req.carriers);
        outcome == Exhausted && StableCostOrder(cs, tried) && Carriers(plans) == Pick(cs, tried)
    {
      plans, tried, reports := [], [], [];
      req := RequestFor(settings, planner.dpi.store, destination, world);
      RequestWorks(settings, planner.dpi.log, destination, world);
      if |settings.carriers| == 0 || |settings.strategies| == 0 {
        return NotConfigured, plans, tried, reports, req;
      }
      var request := Prepare(destination, world);
      WithoutDirectFits(settings.carriers);
      outcome, plans, tried, reports := DialRequest(request, world);
    }
  }

  lemma {:induction false} NotDirectFits(cs: seq<Carrier.Candidate>)
    ensures |NotDirect(cs)| <= |cs|
  {
    if cs != [] {
      NotDirectFits(cs[..|cs| - 1]);
    }
  }

  lemma WithoutDirectFits(cs: seq<Carrier.Candidate>)
    ensures |WithoutDirect(cs)| <= |cs|
  {
    NotDirectFits(cs);
  }

  // ----- The shipped carriers -----------------------------------------------------------------------------------

  function Carried(name: string, kind: Carrier.Kind, endpoint: text, cost: real, udp: bool): seq<Carrier.Candidate> {
    if endpoint == [] then [] else [Carrier.Candidate(Ascii(name), kind, endpoint, cost, true, udp)]
  }

  function Basic(udp: text, tcp: text): seq<Carrier.Candidate> {
    [Carrier.Candidate(Ascii("direct"), Carrier.Direct, [], 0.0, true, true)]
    + Carried("chameleon-udp", Carrier.ChameleonUDP, udp, 0.35, true)
    + Carried("chameleon-tcp", Carrier.ChameleonTCP, tcp, 0.55, false)
  }

  /** Defaults, WithTLS and WithQUIC: each carrier whose endpoint is configured. */
  function Shipped(udp: text, tcp: text, relay: text, tls: text, quic: text): seq<Carrier.Candidate> {
    Basic(udp, tcp)
    + Carried("relay", Carrier.RelayKind, relay, 0.9, true)
    + Carried("chameleon-tls", Carrier.ChameleonTLS, tls, 0.45, false)
    + Carried("chameleon-quic", Carrier.ChameleonQUIC, quic, 0.30, true)
  }

  predicate Plain(c: Carrier.Candidate) {
    BAR !in c.name && Carrier.IsCompatible(TCP, c) && c.cost <= 0.9
  }

  predicate PlainAndDistinct(cs: seq<Carrier.Candidate>) {
    && (forall i :: 0 <= i < |cs| ==> Plain(cs[i]))
    && (forall i, j :: 0 <= i < j < |cs| ==> cs[i].name != cs[j].name)
  }

  lemma TcpIsTcp()
    ensures Lower(Trim(TCP)) == TCP == Ascii("tcp") && Ascii("udp") != TCP
  {
    assert Trim(TCP) == TCP && Lower(TCP) == TCP;
    assert Ascii("udp")[0] == 117;
  }

  predicate Simple(name: string) {
    |name| > 0 && forall c :: c in name ==> 'a' <= c <= 'z' || c == '-'
  }

  lemma NameIsPlain(name: string)
    requires Simple(name)
    ensures Trim(Ascii(name)) != [] && BAR !in Ascii(name)
  {
    var t := Ascii(name);
    forall i | 0 <= i < |name|
      ensures t[i] == name[i] as int && t[i] !in WHITE && t[i] != BAR
    {
      assert name[i] in name;
    }
    assert t[0] !in WHITE && t[|t| - 1] !in WHITE;
    assert Trim(t) == t;
  }

  lemma NamesDiffer(a: string, b: string)
    requires Simple(a) && Simple(b) && Ascii(a) == Ascii(b)
    ensures a == b
  {
    assert |a| == |Ascii(a)| == |b|;
    forall i | 0 <= i < |a|
      ensures a[i] == b[i]
    {
      assert a[i] in a && b[i] in b;
      assert Ascii(a)[i] == a[i] as int && Ascii(b)[i] == b[i] as int;
    }
  }

  ghost predicate NamedFrom(cs: seq<Carrier.Candidate>, used: seq<string>) {
    && (forall k :: 0 <= k < |used| ==> Simple(used[k]))
    && forall i :: 0 <= i < |cs| ==> OneOf(cs[i].name, used)
  }

  ghost predicate OneOf(name: text, used: seq<string>) {
    exists k :: 0 <= k < |used| && name == Ascii(used[k])
  }

  lemma CarriedAdds(cs: seq<Carrier.Candidate>, used: seq<string>, name: string, kind: Carrier.Kind, endpoint: text,
                    cost: real, udp: bool)
    requires PlainAndDistinct(cs) && NamedFrom(cs, used) && Simple(name) && name !in used && 0.0 <= cost <= 0.9
    ensures PlainAndDistinct(cs + Carried(name, kind, endpoint, cost, udp))
    ensures NamedFrom(cs + Carried(name, kind, endpoint, cost, udp), used + [name])
  {
    TcpIsTcp();
    NameIsPlain(name);
    forall i | 0 <= i < |cs|
      ensures cs[i].name != Ascii(name)
    {
      assert OneOf(cs[i].name, used);
      var k :| 0 <= k < |used| && cs[i].name == Ascii(used[k]);
      if Ascii(used[k]) == Ascii(name) {
        NamesDiffer(used[k], name);
      }
    }
    StillNamed(cs, used, name, Carried(name, kind, endpoint, cost, udp));
  }

  lemma StillNamed(cs: seq<Carrier.Candidate>, used: seq<string>, name: string, more: seq<Carrier.Candidate>)
    requires NamedFrom(cs, used) && Simple(name) && forall i :: 0 <= i < |more| ==> more[i].name == Ascii(name)
    ensures NamedFrom(cs + more, used + [name])
  {
    var all, names := cs + more, used + [name];
    forall i | 0 <= i < |all|
      ensures OneOf(all[i].name, names)
    {
      if i < |cs| {
        assert OneOf(cs[i].name, used);
        var k :| 0 <= k < |used| && cs[i].name == Ascii(used[k]);
        assert names[k] == used[k];
      } else {
        assert all[i] == more[i - |cs|] && names[|used|] == name;
      }
    }
  }

  lemma {:induction false} PlainAreCompatible(cs: seq<Carrier.Candidate>)
    requires forall i :: 0 <= i < |cs| ==> Plain(cs[i])
    ensures Carrier.Compatible(TCP, cs) == cs
  {
    if cs != [] {
      PlainAreCompatible(cs[..|cs| - 1]);
      assert cs == cs[..|cs| - 1] + [cs[|cs| - 1]];
    }
  }

  const BASIC: seq<string> := ["direct", "chameleon-udp", "chameleon-tcp"]

  lemma BasicArePlain(udp: text, tcp: text)
    ensures PlainAndDistinct(Basic(udp, tcp)) && NamedFrom(Basic(udp, tcp), BASIC)
  {
    var c0 := [Carrier.Candidate(Ascii("direct"), Carrier.Direct, [], 0.0, true, true)];
    var c1 := c0 + Carried("chameleon-udp", Carrier.ChameleonUDP, udp, 0.35, true);
    TcpIsTcp();
    NameIsPlain("direct");
    assert ["direct"][0] == "direct" && OneOf(c0[0].name, ["direct"]);
    CarriedAdds(c0, ["direct"], "chameleon-udp", Carrier.ChameleonUDP, udp, 0.35, true);
    CarriedAdds(c1, ["direct"] + ["chameleon-udp"], "chameleon-tcp", Carrier.ChameleonTCP, tcp, 0.55, false);
    assert ["direct"] + ["chameleon-udp"] + ["chameleon-tcp"] == BASIC;
  }

  lemma ShippedArePlain(udp: text, tcp: text, relay: text, tls: text, quic: text)
    ensures PlainAndDistinct(Shipped(udp, tcp, relay, tls, quic))
  {
    var c3 := Basic(udp, tcp) + Carried("relay", Carrier.RelayKind, relay, 0.9, true);
    var c4 := c3 + Carried("chameleon-tls", Carrier.ChameleonTLS, tls, 0.45, false);
    var n3 := BASIC + ["relay"];
    BasicArePlain(udp, tcp);
    CarriedAdds(Basic(udp, tcp), BASIC, "relay", Carrier.RelayKind, relay, 0.9, true);
    CarriedAdds(c3, n3, "chameleon-tls", Carrier.ChameleonTLS, tls, 0.45, false);
    CarriedAdds(c4, n3 + ["chameleon-tls"], "chameleon-quic", Carrier.ChameleonQUIC, quic, 0.30, true);
  }

  /** Whatever endpoints are configured, the shipped carriers meet the conditions of a cold run in a
      context nothing is known about. */
  lemma ShippedCarriersAreCold(store: Carrier.Store, key: text, udp: text, tcp: text, relay: text, tls: text,
                               quic: text)
    requires key !in store
    ensures var cs := Carrier.Compatible(TCP, Shipped(udp, tcp, relay, tls, quic));
      cs == Shipped(udp, tcp, relay, tls, quic) && cs != [] && Cold(store, key, cs)
  {
    ShippedArePlain(udp, tcp, relay, tls, quic);
    PlainAreCompatible(Shipped(udp, tcp, relay, tls, quic));
  }
}
