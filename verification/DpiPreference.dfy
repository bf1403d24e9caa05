// What the scores of pkg/dpi/engine.go make Choose prefer: theorems about the log and the chosen strategy.
module DpiPreference {
  import opened Bytes
  import opened Text
  import opened Averages
  import opened Ranking
  import opened Memory
  import opened Dpi

  /** Latency in units of half a second, throughput in units of 5 MiB/s. */
  function Slow(s: Stats): real {
    if s.avgLatency <= 0 then 0.0 else UpTo(s.avgLatency as real / 500_000_000.0, 2.0)
  }

  function Fast(s: Stats): real {
    if s.avgThroughput <= 0.0 then 0.0 else UpTo(s.avgThroughput / 5242880.0, 1.5)
  }

  /** 6 for the whole share of successes, 1.6 less for each failure of the streak. */
  lemma ScoreIsWorth(strategy: Strategy, s: Stats)
    requires s.attempts > 0
    ensures Score(strategy, Some(s))
      == 6.0 * ShareOf(s.successes, s.attempts) - 1.6 * s.failureStreak as real - Slow(s) + Fast(s) - strategy.cost
    ensures Score(strategy, None) == 0.2 - strategy.cost
  {
  }

  // ----- Choosing on the evidence of a log -----------------------------------------------------------------

  ghost function Own(log: seq<Observed<Event>>, ctx: Context, c: Strategy): seq<Event> {
    Matching(log, ContextKey(ctx), c.name)
  }

  /** The place of the chosen strategy among the candidates. */
  ghost predicate Chosen(log: seq<Observed<Event>>, ctx: Context, cs: seq<Strategy>, b: nat) {
    var d := Choice(MemoryOf(Update, log), ctx, cs);
    b < |cs| && d.Some? && d.value.strategy == cs[b] && IsFirstBest(RankAll(MemoryOf(Update, log), ctx, cs), b)
  }

  /** Choose always chooses one of them when all are valid. */
  lemma SomeChosen(log: seq<Observed<Event>>, ctx: Context, cs: seq<Strategy>) returns (b: nat)
    requires cs != [] && forall c :: c in cs ==> c.Valid()
    ensures Chosen(log, ctx, cs, b)
  {
    var ranked := RankAll(MemoryOf(Update, log), ctx, cs);
    FrontIsFirstBest(ranked);
    b := FirstBest(ranked);
  }

  lemma ScoreOf(log: seq<Observed<Event>>, ctx: Context, cs: seq<Strategy>, j: nat)
    requires j < |cs|
    ensures var r := RankAll(MemoryOf(Update, log), ctx, cs)[j];
      r.cost == cs[j].cost && r.score == Score(cs[j], Fold(Update, Own(log, ctx, cs[j])))
  {
    MemoryIsFoldOfOwnLog(Update, log, ContextKey(ctx), cs[j].name);
  }

  // ----- Success beats no evidence, and failure does not -----------------------------------------------------

  predicate OnlySuccesses(events: seq<Event>) {
    events != [] && forall k :: 0 <= k < |events| ==> events[k].success
  }

  /** Nothing but failures that moved no bytes, if anything at all. */
  predicate Unproven(events: seq<Event>) {
    forall k :: 0 <= k < |events| ==> !events[k].success && events[k].throughput <= 0.0
  }

  lemma {:induction false} NoThroughput(xs: seq<real>)
    requires forall k :: 0 <= k < |xs| ==> xs[k] <= 0.0
    ensures RunningRealMean(xs) <= 0.0
  {
    if xs != [] {
      var n := |xs| - 1;
      NoThroughput(xs[..n]);
      RunningFloatStaysDown(RunningRealMean(xs[..n]), xs[n], |xs|);
    }
  }

  lemma RunningFloatStaysDown(current: real, next: real, count: nat)
    requires current <= 0.0 && next <= 0.0 && count > 0
    ensures RunningFloat(current, next, count) <= 0.0
  {
    if count > 1 {
      RunningFloatKeeps(-current, -next, count);
      assert -current * (count - 1) as real + -next == -(current * (count - 1) as real + next);
      Negated(current * (count - 1) as real + next, count as real);
    }
  }

  lemma Negated(x: real, y: real)
    requires y > 0.0 && x <= 0.0
    ensures x / y <= 0.0
  {
  }

  lemma SuccessScore(strategy: Strategy, events: seq<Event>)
    requires OnlySuccesses(events)
    ensures Score(strategy, Fold(Update, events)) >= 4.0 - strategy.cost
  {
    StatsFollowTheLog(events);
    AllTrue(Outcomes(events));
    ScoreIsWorth(strategy, Fold(Update, events).value);
    WholeShare(|events|);
  }

  lemma UnprovenScore(strategy: Strategy, events: seq<Event>)
    requires Unproven(events)
    ensures Score(strategy, Fold(Update, events)) <= 0.2 - strategy.cost
  {
    ScoreIsWorth(strategy, NoStats.(attempts := 1));
    if events != [] {
      StatsFollowTheLog(events);
      AllFalse(Outcomes(events));
      NoThroughput(Throughputs(events));
      ScoreIsWorth(strategy, Fold(Update, events).value);
      WholeShare(|events|);
    }
  }

  /** If some strategy has succeeded whenever it was tried, the chosen one has evidence other than
      failures, or is cheaper by 3.8. */
  lemma SuccessIsPreferred(log: seq<Observed<Event>>, ctx: Context, cs: seq<Strategy>, i: nat, b: nat)
    requires Chosen(log, ctx, cs, b) && i < |cs| && OnlySuccesses(Own(log, ctx, cs[i]))
    ensures !Unproven(Own(log, ctx, cs[b])) || cs[b].cost <= cs[i].cost - 3.8
  {
    ScoreOf(log, ctx, cs, i);
    ScoreOf(log, ctx, cs, b);
    SuccessScore(cs[i], Own(log, ctx, cs[i]));
    if Unproven(Own(log, ctx, cs[b])) {
      UnprovenScore(cs[b], Own(log, ctx, cs[b]));
    }
  }

  // ----- Better evidence never loses a place ------------------------------------------------------------------

  predicate NoWorse(s: Stats, t: Stats) {
    && s.attempts > 0 && t.attempts > 0
    && s.successes * t.attempts >= t.successes * s.attempts && s.failureStreak <= t.failureStreak
    && s.avgLatency <= t.avgLatency && s.avgThroughput >= t.avgThroughput
  }

  predicate Better(s: Stats, t: Stats) {
    || s.successes * t.attempts > t.successes * s.attempts
    || s.failureStreak < t.failureStreak
    || (s.avgLatency < t.avgLatency && s.avgLatency < 1_000_000_000 && t.avgLatency > 0)
    || (s.avgThroughput > t.avgThroughput && s.avgThroughput > 0.0 && t.avgThroughput < 7864320.0)
  }

  lemma BetterScores(c: Strategy, d: Strategy, s: Stats, t: Stats)
    requires NoWorse(s, t) && c.cost == d.cost
    ensures Score(c, Some(s)) >= Score(d, Some(t))
    ensures Better(s, t) ==> Score(c, Some(s)) > Score(d, Some(t))
  {
    SharesCompare(s.successes, s.attempts, t.successes, t.attempts);
    CappedCompare(s, t);
    ScoreIsWorth(c, s);
    ScoreIsWorth(d, t);
  }

  lemma CappedCompare(s: Stats, t: Stats)
    requires NoWorse(s, t)
    ensures Slow(s) <= Slow(t) && Fast(s) >= Fast(t)
    ensures s.avgLatency < t.avgLatency && s.avgLatency < 1_000_000_000 && t.avgLatency > 0 ==> Slow(s) < Slow(t)
    ensures s.avgThroughput > t.avgThroughput && s.avgThroughput > 0.0 && t.avgThroughput < 7864320.0 ==>
      Fast(s) > Fast(t)
  {
  }

  /** A chosen strategy stays chosen when its own evidence gets better, and nothing else changes. */
  lemma BetterStaysChosen(log: seq<Observed<Event>>, better: seq<Observed<Event>>, ctx: Context, cs: seq<Strategy>,
                          i: nat, b: nat)
    requires Chosen(log, ctx, cs, i) && Chosen(better, ctx, cs, b)
    requires forall j :: 0 <= j < |cs| && j != i ==> Own(better, ctx, cs[j]) == Own(log, ctx, cs[j])
    requires var was, grown := Fold(Update, Own(log, ctx, cs[i])), Fold(Update, Own(better, ctx, cs[i]));
      was.Some? && grown.Some? && NoWorse(grown.value, was.value)
    ensures b == i
  {
    BetterScores(cs[i], cs[i], Fold(Update, Own(better, ctx, cs[i])).value, Fold(Update, Own(log, ctx, cs[i])).value);
    forall j: nat | j < |cs|
      ensures var r, r' := RankAll(MemoryOf(Update, log), ctx, cs)[j], RankAll(MemoryOf(Update, better), ctx, cs)[j];
        r'.cost == r.cost && (if j == i then r'.score >= r.score else r'.score == r.score)
    {
      ScoreOf(log, ctx, cs, j);
      ScoreOf(better, ctx, cs, j);
    }
    StillFirst(RankAll(MemoryOf(Update, log), ctx, cs), RankAll(MemoryOf(Update, better), ctx, cs), i, b);
  }

  /** Of two equally dear strategies, the one whose evidence is worse is not chosen. */
  lemma WorseIsNotChosen(log: seq<Observed<Event>>, ctx: Context, cs: seq<Strategy>, i: nat, j: nat, b: nat)
    requires Chosen(log, ctx, cs, b) && i < |cs| && j < |cs| && cs[i].cost == cs[j].cost
    requires var x, y := Fold(Update, Own(log, ctx, cs[i])), Fold(Update, Own(log, ctx, cs[j]));
      x.Some? && y.Some? && NoWorse(x.value, y.value) && Better(x.value, y.value)
    ensures b != j
  {
    ScoreOf(log, ctx, cs, i);
    ScoreOf(log, ctx, cs, j);
    BetterScores(cs[i], cs[j], Fold(Update, Own(log, ctx, cs[i])).value, Fold(Update, Own(log, ctx, cs[j])).value);
  }
}
