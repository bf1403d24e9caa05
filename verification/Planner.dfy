// pkg/planner/planner.go: one decision from two learners, and results fed back to the learner of the
// layer they speak about. traffic.Classify is a pure function of the request; its result is a
// field here.
module Planner {
  import opened Bytes
  import opened Text
  import opened Memory
  import Carrier
  import Dpi

  datatype Request = Request(
    networkID: text, destination: text, protocol: text, trafficClass: text,
    carriers: seq<Carrier.Candidate>, strategies: seq<Dpi.Strategy>)

  datatype Plan = Plan(
    networkID: text, trafficClass: text, carrier: Carrier.Decision, dpi: Dpi.Decision, dpiTarget: text)

  // ----- Choosing ----------------------------------------------------------------------------------

  function DirectOnly(strategies: seq<Dpi.Strategy>): seq<Dpi.Strategy> {
    if strategies == [] then Dpi.DefaultStrategies()[..1]
    else if strategies[0].name == Ascii("direct") then [strategies[0]]
    else DirectOnly(strategies[1..])
  }

  function CarrierContext(req: Request): Carrier.Context {
    Carrier.Context(req.networkID, req.destination, req.trafficClass, req.protocol)
  }

  /** The local network sees a tunnel's endpoint, not the final destination. */
  function DpiTarget(req: Request, c: Carrier.Candidate): text {
    if c.kind != Carrier.Direct && c.endpoint != [] then c.endpoint else req.destination
  }

  function StrategiesFor(req: Request, c: Carrier.Candidate): seq<Dpi.Strategy> {
    if c.kind == Carrier.ChameleonQUIC || c.kind == Carrier.ChameleonUDP then DirectOnly(req.strategies)
    else req.strategies
  }

  function PlanFor(decay: int -> real, cs: Carrier.Store, ds: Dpi.Store, req: Request, clock: nat -> int)
    : Option<Plan>
  {
    if Trim(req.destination) == [] then None
    else
      match Carrier.Choice(decay, cs, CarrierContext(req), req.carriers, clock)
      case None => None
      case Some(c) =>
        var target := DpiTarget(req, c.carrier);
        match Dpi.Choice(ds, Dpi.Context(req.networkID, target, req.trafficClass), StrategiesFor(req, c.carrier))
        case None => None
        case Some(d) => Some(Plan(req.networkID, req.trafficClass, c, d, target))
  }

  lemma {:induction false} DirectOnlyIsDirect(strategies: seq<Dpi.Strategy>)
    ensures |DirectOnly(strategies)| == 1 && DirectOnly(strategies)[0].name == Ascii("direct")
  {
    if strategies != [] {
      DirectOnlyIsDirect(strategies[1..]);
    }
  }

  /** The only strategy left for a carrier that is never cut up: the first one named direct, or, without
      one, the plain direct strategy. */
  predicate FirstDirect(strategies: seq<Dpi.Strategy>, only: Dpi.Strategy) {
    || (only == Dpi.Strategy(Ascii("direct"), [Dpi.TechDirect], [], 0, 0.0, false)
        && forall s :: s in strategies ==> s.name != Ascii("direct"))
    || exists i ::
         && 0 <= i < |strategies| && strategies[i] == only && only.name == Ascii("direct")
         && forall k :: 0 <= k < i ==> strategies[k].name != Ascii("direct")
  }

  lemma {:induction false} DirectOnlyIsFirst(strategies: seq<Dpi.Strategy>)
    ensures |DirectOnly(strategies)| == 1 && FirstDirect(strategies, DirectOnly(strategies)[0])
  {
    if strategies != [] && strategies[0].name != Ascii("direct") {
      var rest := strategies[1..];
      DirectOnlyIsFirst(rest);
      var only := DirectOnly(rest)[0];
      if exists i ::
        && 0 <= i < |rest| && rest[i] == only && only.name == Ascii("direct")
        && forall k :: 0 <= k < i ==> rest[k].name != Ascii("direct")
      {
        var i :|
          && 0 <= i < |rest| && rest[i] == only && only.name == Ascii("direct")
          && forall k :: 0 <= k < i ==> rest[k].name != Ascii("direct");
        assert strategies[i + 1] == only;
        assert forall k :: 0 < k <= i ==> strategies[k] == rest[k - 1];
      } else {
        assert forall s :: s in strategies ==> s == strategies[0] || s in rest;
      }
    }
  }

  /** The address the local network sees: a tunnel's endpoint when it has one, else the destination. */
  predicate IsFirstHop(req: Request, c: Carrier.Candidate, hop: text) {
    && (c.kind == Carrier.Direct || c.endpoint == [] ==> hop == req.destination)
    && (c.kind != Carrier.Direct && c.endpoint != [] ==> hop == c.endpoint)
  }

  /** A plan is the carrier learner's choice for the destination and then the DPI learner's choice for the first hop
      on that carrier, out of all strategies, or of the direct one alone for a QUIC or UDP carrier. */
  lemma PlanIsBothChoices(decay: int -> real, cs: Carrier.Store, ds: Dpi.Store, req: Request, clock: nat -> int)
    requires PlanFor(decay, cs, ds, req, clock).Some?
    ensures var plan := PlanFor(decay, cs, ds, req, clock).value;
      var c := plan.carrier.carrier;
      var context := Carrier.Context(req.networkID, req.destination, req.trafficClass, req.protocol);
      var dpiContext := Dpi.Context(req.networkID, plan.dpiTarget, req.trafficClass);
      && plan.networkID == req.networkID && plan.trafficClass == req.trafficClass && Trim(req.destination) != []
      && Carrier.Choice(decay, cs, context, req.carriers, clock) == Some(plan.carrier)
      && IsFirstHop(req, c, plan.dpiTarget)
      && (c.kind != Carrier.ChameleonQUIC && c.kind != Carrier.ChameleonUDP
          ==> Dpi.Choice(ds, dpiContext, req.strategies) == Some(plan.dpi))
      && (c.kind == Carrier.ChameleonQUIC || c.kind == Carrier.ChameleonUDP
          ==> FirstDirect(req.strategies, plan.dpi.strategy)
              && Dpi.Choice(ds, dpiContext, [plan.dpi.strategy]) == Some(plan.dpi))
  {
    var plan := PlanFor(decay, cs, ds, req, clock).value;
    OneDirectChoice(ds, Dpi.Context(req.networkID, plan.dpiTarget, req.trafficClass), req.strategies);
  }

  lemma OneDirectChoice(ds: Dpi.Store, ctx: Dpi.Context, strategies: seq<Dpi.Strategy>)
    ensures var choice := Dpi.Choice(ds, ctx, DirectOnly(strategies));
      choice.Some? ==>
        FirstDirect(strategies, choice.value.strategy) && Dpi.Choice(ds, ctx, [choice.value.strategy]) == choice
  {
    DirectOnlyIsFirst(strategies);
    if Dpi.Choice(ds, ctx, DirectOnly(strategies)).Some? {
      Dpi.ChoiceIsBest(ds, ctx, DirectOnly(strategies));
      assert DirectOnly(strategies) == [DirectOnly(strategies)[0]];
    }
  }

  /** A plan uses a compatible carrier and an allowed strategy: a QUIC or UDP carrier is never cut up. */
  lemma PlanSuitsCarrier(decay: int -> real, cs: Carrier.Store, ds: Dpi.Store, req: Request, clock: nat -> int)
    requires PlanFor(decay, cs, ds, req, clock).Some?
    ensures var plan := PlanFor(decay, cs, ds, req, clock).value;
      var c, d := plan.carrier.carrier, plan.dpi.strategy;
      && c in req.carriers && Carrier.IsCompatible(req.protocol, c) && d.Valid()
      && (if c.kind == Carrier.ChameleonQUIC || c.kind == Carrier.ChameleonUDP then d.name == Ascii("direct")
          else d in req.strategies)
  {
    var plan := PlanFor(decay, cs, ds, req, clock).value;
    var c := plan.carrier.carrier;
    Carrier.ChoiceIsBest(decay, cs, CarrierContext(req), req.carriers, clock);
    Carrier.CompatibleMembers(req.protocol, req.carriers, c);
    Dpi.ChoiceIsBest(ds, Dpi.Context(req.networkID, plan.dpiTarget, req.trafficClass), StrategiesFor(req, c));
    DirectOnlyIsDirect(req.strategies);
    assert plan.dpi.strategy in StrategiesFor(req, c);
  }

  // ----- Feeding results back --------------------------------------------------------------------------

  datatype Scope = NoScope | Both | CarrierScope | DpiScope | UnknownScope

  datatype Result = Result(
    plan: Plan, destination: text, protocol: text, success: bool, scope: Scope, carrierAlreadyObserved: bool,
    latency: int, throughput: real, at: Option<int>)

  function CarrierName(r: Result): text {
    r.plan.carrier.carrier.name
  }

  function StrategyName(r: Result): text {
    r.plan.dpi.strategy.name
  }

  predicate AboutCarrier(r: Result) {
    r.scope == NoScope || r.scope == Both || r.scope == CarrierScope
  }

  predicate AboutDpi(r: Result) {
    r.scope == NoScope || r.scope == Both || r.scope == DpiScope
  }

  /** Both names can be recorded, as far as the scope needs them. */
  predicate Recordable(r: Result) {
    && (AboutCarrier(r) ==> Trim(CarrierName(r)) != [])
    && (AboutDpi(r) ==> Trim(StrategyName(r)) != [])
    && (ImpliesReachable(r) ==> Trim(CarrierName(r)) != [])
  }

  /** A DPI failure whose carrier nobody has vouched for yet. */
  predicate ImpliesReachable(r: Result) {
    !r.success && r.scope == DpiScope && !r.carrierAlreadyObserved
  }

  function Moment(r: Result, now: int): int {
    if r.at.Some? then r.at.value else now
  }

  function CarrierKey(r: Result): text {
    Carrier.ContextKey(Carrier.Context(r.plan.networkID, r.destination, r.plan.trafficClass, r.protocol))
  }

  function DpiKey(r: Result): text {
    Dpi.ContextKey(Dpi.Context(r.plan.networkID, r.plan.dpiTarget, r.plan.trafficClass))
  }

  function CarrierEvent(r: Result, success: bool, now: int): Observed<Carrier.Event> {
    Observed(CarrierKey(r), CarrierName(r), Carrier.Event(success, r.latency, r.throughput, Moment(r, now)))
  }

  function DpiEvent(r: Result, now: int): Observed<Dpi.Event> {
    Observed(DpiKey(r), StrategyName(r), Dpi.Event(r.success, r.latency, r.throughput, Moment(r, now)))
  }

  /** What one result adds to the carrier learner's log. */
  function CarrierEvents(r: Result, now: int): seq<Observed<Carrier.Event>> {
    if Trim(CarrierName(r)) == [] then []
    else if AboutCarrier(r) then [CarrierEvent(r, r.success, now)]
    else if ImpliesReachable(r) && Trim(StrategyName(r)) != [] then [CarrierEvent(r, true, now)]
    else []
  }

  /** What one result adds to the DPI learner's log. */
  function DpiEvents(r: Result, now: int): seq<Observed<Dpi.Event>> {
    if Trim(StrategyName(r)) == [] || !AboutDpi(r) then []
    else if AboutCarrier(r) && Trim(CarrierName(r)) == [] then []
    else [DpiEvent(r, now)]
  }

  /** The events of a result that goes back to the contexts its plan was chosen in: the carrier's outcome to the
      carrier learner under the destination, the strategy's to the DPI learner under the first hop. Each scope reaches
      its own learner only, but a DPI failure vouches for a carrier nobody has reported on. */
  ghost predicate GoesBack(req: Request, hop: text, r: Result, now: int) {
    var at := if r.at.Some? then r.at.value else now;
    var success := r.success || r.scope == DpiScope;
    var onCarrier := Observed(
      Carrier.ContextKey(Carrier.Context(req.networkID, req.destination, req.trafficClass, req.protocol)),
      r.plan.carrier.carrier.name, Carrier.Event(success, r.latency, r.throughput, at));
    var onStrategy := Observed(
      Dpi.ContextKey(Dpi.Context(req.networkID, hop, req.trafficClass)),
      r.plan.dpi.strategy.name, Dpi.Event(r.success, r.latency, r.throughput, at));
    var vouched := r.scope == DpiScope && !r.success && !r.carrierAlreadyObserved;
    && CarrierEvents(r, now) == (if r.scope in {NoScope, Both, CarrierScope} || vouched then [onCarrier] else [])
    && DpiEvents(r, now) == (if r.scope in {NoScope, Both, DpiScope} then [onStrategy] else [])
  }

  lemma GoesBackWhenNamed(req: Request, r: Result, now: int)
    requires r.plan.networkID == req.networkID && r.plan.trafficClass == req.trafficClass
    requires r.destination == req.destination && r.protocol == req.protocol
    requires Trim(CarrierName(r)) != [] && Trim(StrategyName(r)) != []
    ensures GoesBack(req, r.plan.dpiTarget, r, now)
  {
  }

  /** Every result of a dial under a chosen plan does, whatever its scope. */
  lemma ResultsReachTheirChoices(decay: int -> real, cs: Carrier.Store, ds: Dpi.Store, req: Request, clock: nat -> int,
                                 r: Result, now: int)
    requires PlanFor(decay, cs, ds, req, clock) == Some(r.plan)
    requires r.destination == req.destination && r.protocol == req.protocol
    ensures var c := r.plan.carrier.carrier;
      GoesBack(req, if c.kind != Carrier.Direct && c.endpoint != [] then c.endpoint else req.destination, r, now)
  {
    PlanIsBothChoices(decay, cs, ds, req, clock);
    PlanSuitsCarrier(decay, cs, ds, req, clock);
    GoesBackWhenNamed(req, r, now);
  }

  class Planner {
    const carriers: Carrier.Engine
    const dpi: Dpi.Engine

    constructor (carriers: Carrier.Engine, dpi: Dpi.Engine)
      ensures this.carriers == carriers && this.dpi == dpi
    {
      this.carriers := carriers;
      this.dpi := dpi;
    }

    ghost predicate Valid()
      reads carriers, dpi
    {
      carriers.Valid() && dpi.Valid()
    }

    static method DirectOnlyDPI(strategies: seq<Dpi.Strategy>) returns (out: seq<Dpi.Strategy>)
      ensures out == DirectOnly(strategies)
    {
      for i := 0 to |strategies|
        invariant DirectOnly(strategies) == DirectOnly(strategies[i..])
      {
        if strategies[i].name == Ascii("direct") {
          return [strategies[i]];
        }
      }
      out := Dpi.DefaultStrategies()[..1];
    }

    method Choose(req: Request, clock: nat -> int) returns (plan: Option<Plan>)
      ensures plan == PlanFor(carriers.decay, carriers.store, dpi.store, req, clock)
    {
      if Trim(req.destination) == [] {
        return None;
      }
      var c := carriers.Choose(CarrierContext(req), req.carriers, clock);
      if c == None {
        return None;
      }
      var chosen := c.value.carrier;
      var target := req.destination;
      if chosen.kind != Carrier.Direct && chosen.endpoint != [] {
        target := chosen.endpoint;
      }
      var strategies := req.strategies;
      if chosen.kind == Carrier.ChameleonQUIC || chosen.kind == Carrier.ChameleonUDP {
        strategies := DirectOnlyDPI(req.strategies);
      }
      var d := dpi.Choose(Dpi.Context(req.networkID, target, req.trafficClass), strategies);
      if d == None {
        return None;
      }
      plan := Some(Plan(req.networkID, req.trafficClass, c.value, d.value, target));
    }

    method ObserveCarrier(r: Result, success: bool, now: int) returns (ok: bool)
      requires carriers.Valid()
      modifies carriers
      ensures carriers.Valid()
      ensures ok <==> Trim(CarrierName(r)) != []
      ensures carriers.log == old(carriers.log) + if ok then [CarrierEvent(r, success, now)] else []
    {
      var ctx := Carrier.Context(r.plan.networkID, r.destination, r.plan.trafficClass, r.protocol);
      ok := carriers.Observe(Carrier.Observation(ctx, CarrierName(r), success, r.latency, r.throughput,
                                                 Some(Moment(r, now))), now);
    }

    method ObserveDpi(r: Result, now: int) returns (ok: bool)
      requires dpi.Valid()
      modifies dpi
      ensures dpi.Valid()
      ensures ok <==> Trim(StrategyName(r)) != []
      ensures dpi.log == old(dpi.log) + if ok then [DpiEvent(r, now)] else []
    {
      var ctx := Dpi.Context(r.plan.networkID, r.plan.dpiTarget, r.plan.trafficClass);
      ok := dpi.Observe(Dpi.Observation(ctx, StrategyName(r), r.success, r.latency, r.throughput, Some(Moment(r, now))),
                        now);
    }

    method Observe(r: Result, now: int) returns (ok: bool)
      requires Valid()
      modifies carriers, dpi
      ensures Valid()
      ensures ok <==> Recordable(r)
      ensures carriers.log == old(carriers.log) + CarrierEvents(r, now)
      ensures dpi.log == old(dpi.log) + DpiEvents(r, now)
    {
      var scope := if r.scope == NoScope then Both else r.scope;
      if scope == CarrierScope || scope == Both {
        ok := ObserveCarrier(r, r.success, now);
        if !ok {
          return false;
        }
      }
      if scope == DpiScope || scope == Both {
        ok := ObserveDpi(r, now);
        if !ok {
          return false;
        }
      }
      if !r.success && scope == DpiScope && !r.carrierAlreadyObserved {
        ok := ObserveCarrier(r, true, now);
        if !ok {
          return false;
        }
      }
      ok := true;
    }
  }

  // ----- Failures stay in their scope -------------------------------------------------------------------

  datatype Report = Report(result: Result, now: int)

  function CarrierLog(reports: seq<Report>): seq<Observed<Carrier.Event>> {
    if reports == [] then []
    else
      var last := reports[|reports| - 1];
      CarrierLog(reports[..|reports| - 1]) + CarrierEvents(last.result, last.now)
  }

  function DpiLog(reports: seq<Report>): seq<Observed<Dpi.Event>> {
    if reports == [] then []
    else
      var last := reports[|reports| - 1];
      DpiLog(reports[..|reports| - 1]) + DpiEvents(last.result, last.now)
  }

  /** Observe keeps the two memories the folds of these logs: a run of it from empty engines. */
  method ObserveAll(planner: Planner, reports: seq<Report>)
    requires planner.Valid() && planner.carriers.log == [] && planner.dpi.log == []
    modifies planner.carriers, planner.dpi
    ensures planner.carriers.store == MemoryOf(Carrier.Update, CarrierLog(reports))
    ensures planner.dpi.store == MemoryOf(Dpi.Update, DpiLog(reports))
  {
    for i := 0 to |reports|
      invariant planner.Valid()
      invariant planner.carriers.log == CarrierLog(reports[..i]) && planner.dpi.log == DpiLog(reports[..i])
    {
      assert reports[..i + 1][..i] == reports[..i];
      var ok := planner.Observe(reports[i].result, reports[i].now);
    }
    assert reports[..|reports|] == reports;
  }

  /** Whether a result speaks against this carrier in this context. */
  predicate ChargesRoute(r: Result, key: text, name: text) {
    !r.success && AboutCarrier(r) && CarrierKey(r) == key && CarrierName(r) == name && Trim(name) != []
  }

  predicate ChargesStrategy(r: Result, key: text, name: text) {
    && !r.success && AboutDpi(r) && DpiKey(r) == key && StrategyName(r) == name && Trim(name) != []
    && (AboutCarrier(r) ==> Trim(CarrierName(r)) != [])
  }

  /** The results that speak against a carrier: failures reported for the carrier or for both layers. */
  function RouteFailures(reports: seq<Report>, key: text, name: text): nat {
    if reports == [] then 0
    else
      RouteFailures(reports[..|reports| - 1], key, name)
      + if ChargesRoute(reports[|reports| - 1].result, key, name) then 1 else 0
  }

  /** The results that speak against a strategy. */
  function StrategyFailures(reports: seq<Report>, key: text, name: text): nat {
    if reports == [] then 0
    else
      StrategyFailures(reports[..|reports| - 1], key, name)
      + if ChargesStrategy(reports[|reports| - 1].result, key, name) then 1 else 0
  }

  function FailuresIn<O>(failed: O -> bool, events: seq<O>): nat {
    if events == [] then 0
    else FailuresIn(failed, events[..|events| - 1]) + if failed(events[|events| - 1]) then 1 else 0
  }

  const CarrierFailed: Carrier.Event -> bool := (e: Carrier.Event) => !e.success
  const DpiFailed: Dpi.Event -> bool := (e: Dpi.Event) => !e.success

  /** The failures of one name in one context that some new observations add. */
  function Added<O>(failed: O -> bool, events: seq<Observed<O>>, key: text, name: text): nat {
    if events != [] && events[0].key == key && events[0].name == name && failed(events[0].event) then 1 else 0
  }

  lemma FailuresGrow<O>(failed: O -> bool, log: seq<Observed<O>>, events: seq<Observed<O>>, key: text, name: text)
    requires |events| <= 1
    ensures FailuresIn(failed, Matching(log + events, key, name))
      == FailuresIn(failed, Matching(log, key, name)) + Added(failed, events, key, name)
  {
    if events == [] {
      assert log + events == log;
    } else {
      var own, o := Matching(log, key, name), events[0];
      assert events == [o] && (log + [o])[..|log|] == log;
      if o.key == key && o.name == name {
        assert (own + [o.event])[..|own|] == own;
      } else {
        assert own + [] == own;
      }
    }
  }

  lemma {:induction false} CarrierStatsFailures(events: seq<Carrier.Event>)
    ensures Fold(Carrier.Update, events).Some? <==> events != []
    ensures events != [] ==> Fold(Carrier.Update, events).value.failures == FailuresIn(CarrierFailed, events)
  {
    if events != [] {
      CarrierStatsFailures(events[..|events| - 1]);
    }
  }

  lemma {:induction false} DpiStatsFailures(events: seq<Dpi.Event>)
    ensures Fold(Dpi.Update, events).Some? <==> events != []
    ensures events != [] ==> Fold(Dpi.Update, events).value.failures == FailuresIn(DpiFailed, events)
  {
    if events != [] {
      DpiStatsFailures(events[..|events| - 1]);
    }
  }

  lemma CarrierEventCharges(r: Result, now: int, key: text, name: text)
    ensures |CarrierEvents(r, now)| <= 1
    ensures Added(CarrierFailed, CarrierEvents(r, now), key, name) == if ChargesRoute(r, key, name) then 1 else 0
  {
  }

  lemma DpiEventCharges(r: Result, now: int, key: text, name: text)
    ensures |DpiEvents(r, now)| <= 1
    ensures Added(DpiFailed, DpiEvents(r, now), key, name) == if ChargesStrategy(r, key, name) then 1 else 0
  {
  }

  lemma {:induction false} CarrierLogFailures(reports: seq<Report>, key: text, name: text)
    ensures FailuresIn(CarrierFailed, Matching(CarrierLog(reports), key, name)) == RouteFailures(reports, key, name)
  {
    if reports != [] {
      var before, last := reports[..|reports| - 1], reports[|reports| - 1];
      CarrierLogFailures(before, key, name);
      CarrierEventCharges(last.result, last.now, key, name);
      FailuresGrow(CarrierFailed, CarrierLog(before), CarrierEvents(last.result, last.now), key, name);
    }
  }

  lemma {:induction false} DpiLogFailures(reports: seq<Report>, key: text, name: text)
    ensures FailuresIn(DpiFailed, Matching(DpiLog(reports), key, name)) == StrategyFailures(reports, key, name)
  {
    if reports != [] {
      var before, last := reports[..|reports| - 1], reports[|reports| - 1];
      DpiLogFailures(before, key, name);
      DpiEventCharges(last.result, last.now, key, name);
      FailuresGrow(DpiFailed, DpiLog(before), DpiEvents(last.result, last.now), key, name);
    }
  }

  /** After any run of results, a carrier has been charged exactly with the failures reported for the
      carrier or for both layers, and a strategy exactly with those reported for DPI or for both: a
      DPI failure never counts against a route, nor a route failure against a strategy. */
  lemma FailuresStayInScope(reports: seq<Report>, key: text, name: text)
    ensures var c := At(MemoryOf(Carrier.Update, CarrierLog(reports)), key, name);
      (if c.Some? then c.value.failures else 0) == RouteFailures(reports, key, name)
    ensures var d := At(MemoryOf(Dpi.Update, DpiLog(reports)), key, name);
      (if d.Some? then d.value.failures else 0) == StrategyFailures(reports, key, name)
  {
    MemoryIsFoldOfOwnLog(Carrier.Update, CarrierLog(reports), key, name);
    MemoryIsFoldOfOwnLog(Dpi.Update, DpiLog(reports), key, name);
    CarrierStatsFailures(Matching(CarrierLog(reports), key, name));
    DpiStatsFailures(Matching(DpiLog(reports), key, name));
    CarrierLogFailures(reports, key, name);
    DpiLogFailures(reports, key, name);
  }

  /** A result about the carrier alone leaves the DPI learner as it was. */
  lemma {:induction false} CarrierScopeNeverTouchesDpi(reports: seq<Report>)
    requires forall i :: 0 <= i < |reports| ==> reports[i].result.scope == CarrierScope
    ensures DpiLog(reports) == [] && MemoryOf(Dpi.Update, DpiLog(reports)) == map[]
  {
    if reports != [] {
      CarrierScopeNeverTouchesDpi(reports[..|reports| - 1]);
    }
  }
}
