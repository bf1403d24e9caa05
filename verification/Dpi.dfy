// pkg/dpi/engine.go and strategy.go: which way to write to the network, learned per network context.
module Dpi {
  import opened Bytes
  import opened Text
  import opened Averages
  import opened Ranking
  import opened Memory

  datatype Technique = TechDirect | TechSplit | TechPacedSplit | TechFake | TechDisorder

  datatype Strategy = Strategy(
    name: text, techniques: seq<Technique>, splitPoints: seq<int>, delay: int, cost: real, requiresPacketControl: bool)
  {
    predicate Valid() {
      && Trim(name) != [] && techniques != [] && cost >= 0.0 && delay >= 0
      && forall p :: p in splitPoints ==> p > 0
    }
  }

  const MILLISECOND := 1_000_000

  function DefaultStrategies(): seq<Strategy> {
    [Strategy(Ascii("direct"), [TechDirect], [], 0, 0.0, false),
     Strategy(Ascii("split-early"), [TechSplit], [1], 25 * MILLISECOND, 0.35, false),
     Strategy(Ascii("paced-split"), [TechPacedSplit], [1], 2 * MILLISECOND, 0.65, false)]
  }

  datatype Context = Context(networkID: text, destination: text, trafficClass: text)

  function Parts(ctx: Context): seq<text> {
    [Normal(ctx.networkID, Ascii("unknown-network")), Normal(ctx.destination, Ascii("*")),
     Normal(ctx.trafficClass, Ascii("default"))]
  }

  function ContextKey(ctx: Context): text {
    Join(Parts(ctx))
  }

  /** The classifier's traffic classes hold no '|'. */
  predicate PlainTail(ctx: Context) {
    BAR !in Parts(ctx)[2]
  }

  /** A bar in one network id reads as the end of the other. */
  predicate Overlap(p: seq<text>, q: seq<text>)
    requires |p| == |q| == 3
  {
    p[2] == q[2] && (Overlaps(p[0], p[1], q[0], q[1]) || Overlaps(q[0], q[1], p[0], p[1]))
  }

  lemma JoinsOverlapIff(p: seq<text>, q: seq<text>)
    requires |p| == |q| == 3 && BAR !in p[2] && BAR !in q[2]
    ensures Join(p) == Join(q) <==> p == q || Overlap(p, q)
  {
    KeyIs(p);
    KeyIs(q);
    if Join(p) == Join(q) {
      CutAtLastBar(p[2], q[2], p[0] + [BAR] + p[1], q[0] + [BAR] + q[1]);
    }
    JoinedPairs(p[0], p[1], q[0], q[1]);
    assert p == [p[0], p[1], p[2]] && q == [q[0], q[1], q[2]];
  }

  lemma KeyIs(p: seq<text>)
    requires |p| == 3
    ensures Join(p) == (p[0] + [BAR] + p[1]) + [BAR] + p[2]
  {
    assert p[1..] == [p[1], p[2]] && p[1..][1..] == [p[2]];
    assert Join(p[1..]) == p[1] + [BAR] + p[2];
  }

  /** A context counts as its three parts in lower case without the white space around them, and a blank part as
      its default. */
  lemma PartsAreSpelled(ctx: Context, n: text, d: text, c: text)
    requires Spells(ctx.networkID, n) && Spells(ctx.destination, d) && Spells(ctx.trafficClass, c)
    ensures Parts(ctx) ==
      [if n == [] then Ascii("unknown-network") else n, if d == [] then Ascii("*") else d,
       if c == [] then Ascii("default") else c]
  {
    NormalOfSpelled(ctx.networkID, n, Ascii("unknown-network"));
    NormalOfSpelled(ctx.destination, d, Ascii("*"));
    NormalOfSpelled(ctx.trafficClass, c, Ascii("default"));
  }

  /** As for carriers: contexts share evidence exactly when their normalised parts give the same pieces. */
  lemma KeysAgreeIff(a: Context, b: Context)
    ensures ContextKey(a) == ContextKey(b) <==> AllPieces(Parts(a)) == AllPieces(Parts(b))
    ensures Parts(a) == Parts(b) <==> ContextKey(a) == ContextKey(b) && SameBars(Parts(a), Parts(b))
  {
    JoinsAgreeIff(Parts(a), Parts(b));
    PartsAgreeIff(Parts(a), Parts(b));
  }

  lemma KeysOverlapIff(a: Context, b: Context)
    requires PlainTail(a) && PlainTail(b)
    ensures ContextKey(a) == ContextKey(b) <==> Parts(a) == Parts(b) || Overlap(Parts(a), Parts(b))
  {
    JoinsOverlapIff(Parts(a), Parts(b));
  }

  lemma KeysSeparateContexts(a: Context, b: Context)
    requires PlainTail(a) && PlainTail(b) && BAR !in Parts(a)[0] && BAR !in Parts(b)[0]
    ensures ContextKey(a) == ContextKey(b) <==> Parts(a) == Parts(b)
  {
    KeysOverlapIff(a, b);
  }

  // ----- Statistics --------------------------------------------------------------------------------

  datatype Event = Event(success: bool, latency: int, throughput: real, at: int)

  datatype Stats = Stats(
    attempts: nat, successes: nat, failures: nat, failureStreak: nat,
    avgLatency: int, avgThroughput: real, lastSuccess: Option<int>, lastFailure: Option<int>)

  const NoStats := Stats(0, 0, 0, 0, 0, 0.0, None, None)

  function Counted(s: Stats, e: Event): Stats {
    var t := s.(attempts := s.attempts + 1);
    if e.success then t.(successes := s.successes + 1, failureStreak := 0, lastSuccess := Some(e.at))
    else t.(failures := s.failures + 1, failureStreak := s.failureStreak + 1, lastFailure := Some(e.at))
  }

  function Revised(s: Stats, e: Event): Stats {
    var t := Counted(s, e);
    t.(avgLatency := RunningDuration(t.avgLatency, e.latency, t.attempts),
       avgThroughput := RunningFloat(t.avgThroughput, e.throughput, t.attempts))
  }

  function Update(prev: Option<Stats>, e: Event): Stats {
    Revised(if prev.Some? then prev.value else NoStats, e)
  }

  function Outcomes(events: seq<Event>): (r: seq<bool>)
    ensures |r| == |events|
  {
    seq(|events|, i requires 0 <= i < |events| => events[i].success)
  }

  function EventLatencies(events: seq<Event>): (r: seq<int>)
    ensures |r| == |events|
  {
    seq(|events|, i requires 0 <= i < |events| => events[i].latency)
  }

  function Throughputs(events: seq<Event>): (r: seq<real>)
    ensures |r| == |events|
  {
    seq(|events|, i requires 0 <= i < |events| => events[i].throughput)
  }

  /** The counters are those of the observation log, and the averages its running means. */
  lemma {:induction false} StatsFollowTheLog(events: seq<Event>)
    requires events != []
    ensures Fold(Update, events).Some?
    ensures var s := Fold(Update, events).value;
      && s.attempts == |events| == s.successes + s.failures
      && s.successes == Successes(Outcomes(events))
      && s.failureStreak == TrailingFailures(Outcomes(events))
      && s.avgLatency == RunningMean(EventLatencies(events))
      && s.avgThroughput == RunningRealMean(Throughputs(events))
  {
    var n := |events| - 1;
    assert Outcomes(events)[..n] == Outcomes(events[..n]);
    assert EventLatencies(events)[..n] == EventLatencies(events[..n]);
    assert Throughputs(events)[..n] == Throughputs(events[..n]);
    if n > 0 {
      StatsFollowTheLog(events[..n]);
    } else {
      assert events[..n] == [];
      assert Outcomes(events[..n]) == [];
    }
  }

  /** The index of the last event of this outcome. */
  predicate IsLast(events: seq<Event>, success: bool, i: nat) {
    && i < |events| && events[i].success == success
    && forall k :: i < k < |events| ==> events[k].success != success
  }

  /** The time of the last event of this outcome, if there is any. */
  ghost predicate IsTimeOfLast(events: seq<Event>, success: bool, t: Option<int>) {
    && (t == None <==> forall k :: 0 <= k < |events| ==> events[k].success != success)
    && forall i: nat :: IsLast(events, success, i) ==> t == Some(events[i].at)
  }

  lemma TimeMovesOn(events: seq<Event>, success: bool, t: Option<int>)
    requires events != [] && IsTimeOfLast(events[..|events| - 1], success, t)
    ensures var last := events[|events| - 1];
      IsTimeOfLast(events, success, if last.success == success then Some(last.at) else t)
  {
    var n := |events| - 1;
    var before := events[..n];
    assert forall k :: 0 <= k < n ==> before[k] == events[k];
    forall i: nat | IsLast(events, success, i) && i < n
      ensures IsLast(before, success, i) && events[n].success != success
    {
    }
  }

  /** The times remembered are those of the log's last failure and last success. */
  lemma {:induction false} LastTimes(events: seq<Event>)
    requires events != []
    ensures Fold(Update, events).Some?
    ensures var s := Fold(Update, events).value;
      IsTimeOfLast(events, false, s.lastFailure) && IsTimeOfLast(events, true, s.lastSuccess)
  {
    var n := |events| - 1;
    var s := NoStats;
    if n > 0 {
      LastTimes(events[..n]);
      s := Fold(Update, events[..n]).value;
    } else {
      assert events[..n] == [];
    }
    TimeMovesOn(events, false, s.lastFailure);
    TimeMovesOn(events, true, s.lastSuccess);
    TimesKept(s, events[n]);
  }

  lemma TimesKept(s: Stats, e: Event)
    ensures Revised(s, e).lastFailure == if !e.success then Some(e.at) else s.lastFailure
    ensures Revised(s, e).lastSuccess == if e.success then Some(e.at) else s.lastSuccess
  {
  }

  // ----- Choosing ------------------------------------------------------------------------------------

  function Known(stats: Option<Stats>): bool {
    stats.Some? && stats.value.attempts > 0
  }

  function Score(strategy: Strategy, stats: Option<Stats>): real {
    if !Known(stats) then 0.20 - strategy.cost
    else
      var s := stats.value;
      var rate := s.successes as real / s.attempts as real;
      var base := rate * 6.0 - s.failureStreak as real * 1.6 - strategy.cost;
      var slow := if s.avgLatency > 0 then MinReal(s.avgLatency as real / (500 * MILLISECOND) as real, 2.0) else 0.0;
      var fast := if s.avgThroughput > 0.0 then MinReal(s.avgThroughput / 5242880.0, 1.5) else 0.0;
      base - slow + fast
  }

  type Store = Entries<Stats>

  function RankAll(store: Store, ctx: Context, cs: seq<Strategy>): (r: seq<Ranked<Strategy>>)
    ensures |r| == |cs|
    ensures forall i :: 0 <= i < |cs| ==>
      r[i] == Ranked(cs[i], Score(cs[i], At(store, ContextKey(ctx), cs[i].name)), cs[i].cost,
                     Known(At(store, ContextKey(ctx), cs[i].name)))
  {
    seq(|cs|, i requires 0 <= i < |cs| =>
      Ranked(cs[i], Score(cs[i], At(store, ContextKey(ctx), cs[i].name)), cs[i].cost,
             Known(At(store, ContextKey(ctx), cs[i].name))))
  }

  function Names(cs: seq<Ranked<Strategy>>): (r: seq<text>)
    ensures |r| == |cs|
    ensures forall i :: 0 <= i < |cs| ==> r[i] == cs[i].item.name
  {
    seq(|cs|, i requires 0 <= i < |cs| => cs[i].item.name)
  }

  datatype Decision = Decision(strategy: Strategy, score: real, known: bool, alternates: seq<text>)

  function Choice(store: Store, ctx: Context, candidates: seq<Strategy>): Option<Decision> {
    if candidates == [] || exists c :: c in candidates && !c.Valid() then None
    else
      var sorted := StableSort(RankAll(store, ctx, candidates));
      Some(Decision(sorted[0].item, sorted[0].score, sorted[0].known, Names(sorted[1..])))
  }

  /** As for carriers: maximal score, then lowest cost, then earliest; the rest in order. */
  lemma ChoiceIsBest(store: Store, ctx: Context, candidates: seq<Strategy>)
    requires Choice(store, ctx, candidates).Some?
    ensures var ranked := RankAll(store, ctx, candidates);
      var d := Choice(store, ctx, candidates).value;
      && IsFirstBest(ranked, FirstBest(ranked))
      && d.strategy == candidates[FirstBest(ranked)] && d.score == ranked[FirstBest(ranked)].score
      && multiset(StableSort(ranked)) == multiset(ranked) && Sorted(StableSort(ranked))
      && [d.strategy.name] + d.alternates == Names(StableSort(ranked))
  {
    var ranked := RankAll(store, ctx, candidates);
    FrontIsFirstBest(ranked);
    SortIsPermutation(ranked);
    SortIsSorted(ranked);
    var sorted := StableSort(ranked);
    assert sorted == [sorted[0]] + sorted[1..];
  }

  // ----- The engine -------------------------------------------------------------------------------------

  datatype Observation = Observation(context: Context, strategy: text, success: bool, latency: int, throughput: real,
                                     at: Option<int>)

  function Noted(obs: Observation, now: int): Observed<Event> {
    Observed(ContextKey(obs.context), obs.strategy,
             Event(obs.success, obs.latency, obs.throughput, if obs.at.Some? then obs.at.value else now))
  }

  const DEFAULT_WINDOW := 600_000_000_000

  /** The strategy failed within the window and has not succeeded since. */
  predicate FailedRecently(stats: Option<Stats>, now: int, window: int) {
    && Known(stats) && stats.value.lastFailure.Some?
    && !(stats.value.lastSuccess.Some? && stats.value.lastSuccess.value > stats.value.lastFailure.value)
    && 0 <= now - stats.value.lastFailure.value <= if window <= 0 then DEFAULT_WINDOW else window
  }

  predicate Exhausted(store: Store, ctx: Context, candidates: seq<Strategy>, now: int, window: int) {
    candidates != []
    && forall c :: c in candidates ==> FailedRecently(At(store, ContextKey(ctx), c.name), now, window)
  }

  /** The strategy's last failure lies within the window, and its last success is not later. */
  ghost predicate Worn(events: seq<Event>, now: int, window: int) {
    exists i: nat ::
      && IsLast(events, false, i) && 0 <= now - events[i].at <= window
      && forall j: nat :: IsLast(events, true, j) ==> events[j].at <= events[i].at
  }

  function LastOf(events: seq<Event>, success: bool): (i: nat)
    requires exists k :: 0 <= k < |events| && events[k].success == success
    ensures IsLast(events, success, i)
  {
    var n := |events| - 1;
    if events[n].success == success then n
    else
      var k :| 0 <= k < |events| && events[k].success == success;
      assert events[..n][k] == events[k];
      LastOf(events[..n], success)
  }

  lemma WornFrom(events: seq<Event>, now: int, window: int, i: nat)
    requires IsLast(events, false, i)
    ensures Worn(events, now, window)
      <==> 0 <= now - events[i].at <= window
           && forall j: nat :: IsLast(events, true, j) ==> events[j].at <= events[i].at
  {
    assert forall k: nat :: IsLast(events, false, k) ==> k == i;
  }

  lemma FoldWorn(events: seq<Event>, now: int, window: int)
    requires events != []
    ensures FailedRecently(Fold(Update, events), now, window)
      <==> Worn(events, now, if window <= 0 then 600_000_000_000 else window)
  {
    LastTimes(events);
    StatsFollowTheLog(events);
    if exists k :: 0 <= k < |events| && !events[k].success {
      var i := LastOf(events, false);
      WornFrom(events, now, if window <= 0 then 600_000_000_000 else window, i);
      if exists k :: 0 <= k < |events| && events[k].success {
        LastSuccessOnly(events, LastOf(events, true), events[i].at);
      }
    }
  }

  lemma LastSuccessOnly(events: seq<Event>, j: nat, at: int)
    requires IsLast(events, true, j)
    ensures (forall k: nat :: IsLast(events, true, k) ==> events[k].at <= at) <==> events[j].at <= at
  {
    assert forall k: nat :: IsLast(events, true, k) ==> k == j;
  }

  /** Recent failure, from the strategy's own observations. */
  lemma FailedRecentlyIffWorn(log: seq<Observed<Event>>, key: text, name: text, now: int, window: int)
    ensures FailedRecently(At(MemoryOf(Update, log), key, name), now, window)
      <==> Worn(Matching(log, key, name), now, if window <= 0 then 600_000_000_000 else window)
  {
    MemoryIsFoldOfOwnLog(Update, log, key, name);
    if Matching(log, key, name) != [] {
      FoldWorn(Matching(log, key, name), now, window);
    }
  }

  class Engine {
    var store: Store
    ghost var log: seq<Observed<Event>>

    /** The store is the fold of everything observed. */
    ghost predicate Valid()
      reads this
    {
      store == MemoryOf(Update, log)
    }

    constructor ()
      ensures Valid() && log == []
    {
      this.store := map[];
      this.log := [];
    }

    method Observe(obs: Observation, now: int) returns (ok: bool)
      requires Valid()
      modifies this
      ensures Valid()
      ensures ok <==> Trim(obs.strategy) != []
      ensures log == if ok then old(log) + [Noted(obs, now)] else old(log)
      ensures store == if ok then Remember(Update, old(store), Noted(obs, now)) else old(store)
    {
      if Trim(obs.strategy) == [] {
        return false;
      }
      var at := if obs.at.Some? then obs.at.value else now;
      var key := ContextKey(obs.context);
      var found := At(store, key, obs.strategy);
      var stats := Record(found, obs, at);
      store := Put(store, key, obs.strategy, stats);
      log := log + [Noted(obs, now)];
      assert log[..|log| - 1] == old(log);
      ok := true;
    }

    static method Record(found: Option<Stats>, obs: Observation, at: int) returns (stats: Stats)
      ensures stats == Update(found, Event(obs.success, obs.latency, obs.throughput, at))
    {
      stats := if found.Some? then found.value else NoStats;
      stats := stats.(attempts := stats.attempts + 1);
      if obs.success {
        stats := stats.(successes := stats.successes + 1, failureStreak := 0, lastSuccess := Some(at));
      } else {
        stats := stats.(failures := stats.failures + 1, failureStreak := stats.failureStreak + 1,
                        lastFailure := Some(at));
      }
      stats := stats.(avgLatency := RunningDuration(stats.avgLatency, obs.latency, stats.attempts));
      stats := stats.(avgThroughput := RunningFloat(stats.avgThroughput, obs.throughput, stats.attempts));
    }

    method Choose(ctx: Context, candidates: seq<Strategy>) returns (decision: Option<Decision>)
      ensures decision == Choice(store, ctx, candidates)
    {
      if |candidates| == 0 {
        return None;
      }
      for i := 0 to |candidates|
        invariant forall k :: 0 <= k < i ==> candidates[k].Valid()
      {
        if !candidates[i].Valid() {
          assert candidates[i] in candidates;
          return None;
        }
      }
      var ranking: seq<Ranked<Strategy>> := [];
      for i := 0 to |candidates|
        invariant ranking == RankAll(store, ctx, candidates)[..i]
      {
        var stats := At(store, ContextKey(ctx), candidates[i].name);
        ranking := ranking + [Ranked(candidates[i], Score(candidates[i], stats), candidates[i].cost, Known(stats))];
      }
      assert ranking == RankAll(store, ctx, candidates);
      var sorted := StableSort(ranking);
      decision := Some(Decision(sorted[0].item, sorted[0].score, sorted[0].known, Names(sorted[1..])));
    }

    method RecentlyExhausted(ctx: Context, candidates: seq<Strategy>, now: int, window: int) returns (yes: bool)
      ensures yes <==> Exhausted(store, ctx, candidates, now, window)
    {
      if |candidates| == 0 {
        return false;
      }
      for i := 0 to |candidates|
        invariant forall k :: 0 <= k < i ==> FailedRecently(At(store, ContextKey(ctx), candidates[k].name), now, window)
      {
        if !FailedRecently(At(store, ContextKey(ctx), candidates[i].name), now, window) {
          assert candidates[i] in candidates;
          return false;
        }
      }
      yes := true;
    }
  }
}
