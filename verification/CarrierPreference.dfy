// What the scores of pkg/carrier/engine.go make Choose prefer: theorems about the log and the chosen
// carrier, for every traffic class.
module CarrierPreference {
  import opened Bytes
  import opened Text
  import opened Averages
  import opened Ranking
  import opened Memory
  import opened Carrier

  // ----- What each kind of evidence is worth -------------------------------------------------------------

  function Share(s: Stats): real
    requires s.attempts > 0
  {
    ShareOf(s.successes, s.attempts)
  }

  /** Penalties in seconds, and the boost in units of 8 MiB/s. */
  function Slow(s: Stats): real {
    UpTo(s.avgLatency as real / 1_000_000_000.0, 2.5)
  }

  function Shaky(s: Stats): real {
    UpTo(s.avgJitter as real / 1_000_000_000.0, 1.5)
  }

  function Fast(s: Stats): real {
    UpTo(s.avgThroughput / 8388608.0, 2.0)
  }

  predicate Interactive(trafficClass: text) {
    Lower(trafficClass) == Ascii("interactive") || Lower(trafficClass) == Ascii("realtime")
  }

  predicate Streaming(trafficClass: text) {
    Lower(trafficClass) == Ascii("streaming")
  }

  predicate Bulk(trafficClass: text) {
    Lower(trafficClass) == Ascii("bulk")
  }

  /** What a class makes of success share, failure streak, latency, jitter and throughput. */
  function Worth(trafficClass: text, share: real, streak: real, slow: real, shaky: real, fast: real): real {
    var base := 7.0 * share - 1.8 * streak;
    if Interactive(trafficClass) then base - 2.2 * slow - 1.7 * shaky + 0.25 * fast
    else if Streaming(trafficClass) then base - 0.7 * slow - 0.4 * shaky + 1.5 * fast
    else if Bulk(trafficClass) then base - 0.3 * slow + 2.0 * fast
    else base - slow + fast
  }

  lemma LearnedIsWorth(trafficClass: text, c: Candidate, s: Stats)
    requires s.attempts > 0
    ensures Learned(trafficClass, c, s)
      == Worth(trafficClass, Share(s), s.failureStreak as real, Slow(s), Shaky(s), Fast(s)) - c.cost
  {
  }

  // ----- Choosing on the evidence of a log -----------------------------------------------------------------

  ghost function Own(log: seq<Observed<Event>>, ctx: Context, c: Candidate): seq<Event> {
    Matching(log, ContextKey(ctx), c.name)
  }

  /** The carrier chosen on the evidence of a log, and its place among the compatible ones. */
  ghost predicate Chosen(decay: int -> real, log: seq<Observed<Event>>, ctx: Context, candidates: seq<Candidate>,
                         clock: nat -> int, b: nat)
  {
    var cs, d := Compatible(ctx.protocol, candidates), Choice(decay, MemoryOf(Update, log), ctx, candidates, clock);
    b < |cs| && d.Some? && d.value.carrier == cs[b]
    && IsFirstBest(RankAll(decay, MemoryOf(Update, log), ctx, cs, clock), b)
  }

  /** Choose always chooses one of them. */
  lemma SomeChosen(decay: int -> real, log: seq<Observed<Event>>, ctx: Context, candidates: seq<Candidate>,
                   clock: nat -> int)
    returns (b: nat)
    requires Compatible(ctx.protocol, candidates) != []
    ensures Chosen(decay, log, ctx, candidates, clock, b)
  {
    var cs := Compatible(ctx.protocol, candidates);
    var ranked := RankAll(decay, MemoryOf(Update, log), ctx, cs, clock);
    FrontIsFirstBest(ranked);
    b := FirstBest(ranked);
  }

  /** The score of candidate j, from its own events. */
  lemma ScoreOf(decay: int -> real, log: seq<Observed<Event>>, ctx: Context, cs: seq<Candidate>, clock: nat -> int,
                j: nat)
    requires j < |cs|
    ensures var r := RankAll(decay, MemoryOf(Update, log), ctx, cs, clock)[j];
      r.cost == cs[j].cost
      && r.score == Score(decay, ctx.trafficClass, cs[j], Fold(Update, Own(log, ctx, cs[j])), clock(j))
  {
    MemoryIsFoldOfOwnLog(Update, log, ContextKey(ctx), cs[j].name);
  }

  // ----- Success beats no evidence, and failure does not -----------------------------------------------------

  predicate OnlySuccesses(events: seq<Event>) {
    events != [] && forall k :: 0 <= k < |events| ==> events[k].success
  }

  /** Nothing but failures that moved no bytes, if anything at all. */
  predicate Unproven(events: seq<Event>) {
    forall k :: 0 <= k < |events| ==> !events[k].success && events[k].throughput <= 0.0
  }

  lemma {:induction false} ThroughputOf(events: seq<Event>)
    requires events != []
    ensures Fold(Update, events).Some? && Fold(Update, events).value.attempts == |events|
    ensures Fold(Update, events).value.avgThroughput >= 0.0
    ensures (forall k :: 0 <= k < |events| ==> events[k].throughput <= 0.0) ==>
      Fold(Update, events).value.avgThroughput == 0.0
  {
    var n := |events| - 1;
    if n > 0 {
      ThroughputOf(events[..n]);
    }
    var prev := if n > 0 then Fold(Update, events[..n]).value else NoStats;
    assert events[..n] == [] ==> n == 0;
    RunningFloatKeeps(prev.avgThroughput, events[n].throughput, prev.attempts + 1);
  }

  lemma SuccessStats(trafficClass: text, c: Candidate, s: Stats)
    requires s.attempts > 0 && s.successes == s.attempts && s.failureStreak == 0 && s.avgThroughput >= 0.0
    requires s.avgLatency <= 1_000_000_000 && s.avgJitter <= 1_000_000_000
    ensures Learned(trafficClass, c, s) >= 3.1 - c.cost
  {
    LearnedIsWorth(trafficClass, c, s);
    WholeShare(s.attempts);
  }

  lemma FailureStats(trafficClass: text, c: Candidate, s: Stats)
    requires s.attempts > 0 && s.successes == 0 && s.failureStreak > 0 && s.avgThroughput == 0.0
    requires s.avgLatency >= 0 && s.avgJitter >= 0
    ensures Learned(trafficClass, c, s) <= -1.8 - c.cost
  {
    LearnedIsWorth(trafficClass, c, s);
    WholeShare(s.attempts);
  }

  /** Successes that took at most a second each are worth at least 3.1 less the cost. */
  lemma SuccessesAreWorth(trafficClass: text, c: Candidate, events: seq<Event>)
    requires OnlySuccesses(events) && LatenciesUpTo(events, 1_000_000_000)
    ensures Fold(Update, events).Some? && Fold(Update, events).value.attempts > 0
    ensures Learned(trafficClass, c, Fold(Update, events).value) >= 3.1 - c.cost
  {
    StatsCountTheLog(events);
    AllTrue(Outcomes(events));
    AveragesStayWithinLatencies(events, 1_000_000_000);
    ThroughputOf(events);
    SuccessStats(trafficClass, c, Fold(Update, events).value);
  }

  /** Failures that moved no bytes are worth no more than -1.8 less the cost. */
  lemma FailuresAreWorth(trafficClass: text, c: Candidate, events: seq<Event>)
    requires Unproven(events) && events != []
    ensures Fold(Update, events).Some? && Fold(Update, events).value.attempts > 0
    ensures Learned(trafficClass, c, Fold(Update, events).value) <= -1.8 - c.cost
  {
    StatsCountTheLog(events);
    AllFalse(Outcomes(events));
    AveragesStayWithinLatencies(events, LargestLatency(events));
    ThroughputOf(events);
    FailureStats(trafficClass, c, Fold(Update, events).value);
  }

  function LargestLatency(events: seq<Event>): (hi: int)
    ensures hi >= 0 && LatenciesUpTo(events, hi)
  {
    if events == [] then 0
    else
      var n := |events| - 1;
      Max(LargestLatency(events[..n]), events[n].latency)
  }

  lemma BlendBounds(base: real, gain: real, f: real)
    requires f > 0.0
    ensures gain <= 0.0 ==> Blend(base, gain, f) <= base
    ensures gain >= 2.85 && f >= 0.5 ==> Blend(base, gain, f) >= base + 1.425
  {
    var loss := -gain;
    assert f * gain == -(f * loss);
    if gain <= 0.0 {
      assert f * loss >= 0.0;
    }
    if gain >= 2.85 && f >= 0.5 {
      assert f * gain >= 0.5 * gain;
    }
  }

  lemma UnprovenScore(decay: int -> real, trafficClass: text, c: Candidate, events: seq<Event>, now: int)
    requires IsDecay(decay) && Unproven(events)
    ensures Score(decay, trafficClass, c, Fold(Update, events), now) <= 0.25 - c.cost
  {
    if events != [] {
      FailuresAreWorth(trafficClass, c, events);
      var s := Fold(Update, events).value;
      BlendBounds(Baseline(c), Learned(trafficClass, c, s) - Baseline(c), Freshness(decay, s, now));
    }
  }

  lemma ProvenScore(decay: int -> real, trafficClass: text, c: Candidate, events: seq<Event>, now: int)
    requires IsDecay(decay) && OnlySuccesses(events) && LatenciesUpTo(events, 1_000_000_000)
    requires now - events[|events| - 1].at <= HALF_LIFE
    ensures Score(decay, trafficClass, c, Fold(Update, events), now) >= 1.675 - c.cost
  {
    StatsCountTheLog(events);
    SuccessesAreWorth(trafficClass, c, events);
    var s := Fold(Update, events).value;
    FreshEnough(decay, s, events[|events| - 1].at, now);
    BlendBounds(Baseline(c), Learned(trafficClass, c, s) - Baseline(c), Freshness(decay, s, now));
  }

  lemma FreshEnough(decay: int -> real, s: Stats, at: int, now: int)
    requires IsDecay(decay) && s.lastObservation == Some(at) && now - at <= HALF_LIFE
    ensures Freshness(decay, s, now) >= 0.5
  {
  }

  /** Some candidate has succeeded whenever it was tried, within a second each, and less than a half-life
      ago. Then in every class the chosen one has evidence other than failures, or is cheaper by 1.425. */
  lemma SuccessIsPreferred(decay: int -> real, log: seq<Observed<Event>>, ctx: Context, candidates: seq<Candidate>,
                           clock: nat -> int, i: nat, b: nat)
    requires IsDecay(decay) && Chosen(decay, log, ctx, candidates, clock, b)
    requires var cs := Compatible(ctx.protocol, candidates);
      && i < |cs| && OnlySuccesses(Own(log, ctx, cs[i])) && LatenciesUpTo(Own(log, ctx, cs[i]), 1_000_000_000)
      && var own := Own(log, ctx, cs[i]); clock(i) - own[|own| - 1].at <= HALF_LIFE
    ensures var cs := Compatible(ctx.protocol, candidates);
      !Unproven(Own(log, ctx, cs[b])) || cs[b].cost <= cs[i].cost - 1.425
  {
    var cs := Compatible(ctx.protocol, candidates);
    ScoreOf(decay, log, ctx, cs, clock, i);
    ScoreOf(decay, log, ctx, cs, clock, b);
    ProvenScore(decay, ctx.trafficClass, cs[i], Own(log, ctx, cs[i]), clock(i));
    if Unproven(Own(log, ctx, cs[b])) {
      UnprovenScore(decay, ctx.trafficClass, cs[b], Own(log, ctx, cs[b]), clock(b));
    }
  }

  // ----- Better evidence never loses a place ------------------------------------------------------------------

  /** At least the share of successes, no longer streak of failures, no larger averages of latency and
      jitter, no smaller one of throughput. */
  predicate NoWorse(s: Stats, t: Stats) {
    && s.attempts > 0 && t.attempts > 0
    && s.successes * t.attempts >= t.successes * s.attempts && s.failureStreak <= t.failureStreak
    && s.avgLatency <= t.avgLatency && s.avgJitter <= t.avgJitter && s.avgThroughput >= t.avgThroughput
  }

  /** Where one of these differs and the class still looks at it. */
  predicate Better(trafficClass: text, s: Stats, t: Stats) {
    || s.successes * t.attempts > t.successes * s.attempts
    || s.failureStreak < t.failureStreak
    || (s.avgLatency < t.avgLatency && s.avgLatency < 2_500_000_000)
    || (s.avgThroughput > t.avgThroughput && t.avgThroughput < 16777216.0)
    || (s.avgJitter < t.avgJitter && s.avgJitter < 1_500_000_000
        && (Interactive(trafficClass) || Streaming(trafficClass)))
  }

  lemma BetterIsWorthMore(trafficClass: text, c: Candidate, s: Stats, t: Stats)
    requires NoWorse(s, t)
    ensures Learned(trafficClass, c, s) >= Learned(trafficClass, c, t)
    ensures Better(trafficClass, s, t) ==> Learned(trafficClass, c, s) > Learned(trafficClass, c, t)
  {
    SharesCompare(s.successes, s.attempts, t.successes, t.attempts);
    LearnedIsWorth(trafficClass, c, s);
    LearnedIsWorth(trafficClass, c, t);
    CappedCompare(s, t);
    WorthGrows(trafficClass, Share(s), s.failureStreak as real, Slow(s), Shaky(s), Fast(s),
               Share(t), t.failureStreak as real, Slow(t), Shaky(t), Fast(t));
  }

  lemma CappedCompare(s: Stats, t: Stats)
    requires NoWorse(s, t)
    ensures Slow(s) <= Slow(t) && Shaky(s) <= Shaky(t) && Fast(s) >= Fast(t)
    ensures s.avgLatency < t.avgLatency && s.avgLatency < 2_500_000_000 ==> Slow(s) < Slow(t)
    ensures s.avgJitter < t.avgJitter && s.avgJitter < 1_500_000_000 ==> Shaky(s) < Shaky(t)
    ensures s.avgThroughput > t.avgThroughput && t.avgThroughput < 16777216.0 ==> Fast(s) > Fast(t)
  {
  }

  lemma WorthGrows(trafficClass: text, share: real, streak: real, slow: real, shaky: real, fast: real,
                   share': real, streak': real, slow': real, shaky': real, fast': real)
    requires share >= share' && streak <= streak' && slow <= slow' && shaky <= shaky' && fast >= fast'
    ensures var worth := Worth(trafficClass, share, streak, slow, shaky, fast);
      var worth' := Worth(trafficClass, share', streak', slow', shaky', fast');
      && worth >= worth'
      && (share > share' || streak < streak' || slow < slow' || fast > fast' ==> worth > worth')
      && (shaky < shaky' && (Interactive(trafficClass) || Streaming(trafficClass)) ==> worth > worth')
  {
  }

  /** Of two equally fresh sets of evidence for equally dear carriers, the better one scores higher. */
  lemma BetterScores(decay: int -> real, trafficClass: text, c: Candidate, d: Candidate, s: Stats, t: Stats,
                     now: int, at: int)
    requires IsDecay(decay) && NoWorse(s, t) && c.cost == d.cost
    requires Freshness(decay, s, now) == Freshness(decay, t, at)
    ensures Score(decay, trafficClass, c, Some(s), now) >= Score(decay, trafficClass, d, Some(t), at)
    ensures Better(trafficClass, s, t) ==>
      Score(decay, trafficClass, c, Some(s), now) > Score(decay, trafficClass, d, Some(t), at)
  {
    BetterIsWorthMore(trafficClass, c, s, t);
    SameCost(trafficClass, c, d, t);
    BlendGrows(Baseline(c), Learned(trafficClass, c, s) - Baseline(c), Learned(trafficClass, d, t) - Baseline(d),
               Freshness(decay, s, now));
  }

  lemma SameCost(trafficClass: text, c: Candidate, d: Candidate, t: Stats)
    requires t.attempts > 0 && c.cost == d.cost
    ensures Learned(trafficClass, c, t) == Learned(trafficClass, d, t) && Baseline(c) == Baseline(d)
  {
    LearnedIsWorth(trafficClass, c, t);
    LearnedIsWorth(trafficClass, d, t);
  }

  lemma BlendGrows(base: real, gain: real, gain': real, f: real)
    requires f > 0.0 && gain >= gain'
    ensures Blend(base, gain, f) >= Blend(base, gain', f)
    ensures gain > gain' ==> Blend(base, gain, f) > Blend(base, gain', f)
  {
    assert f * gain - f * gain' == f * (gain - gain');
  }

  /** A chosen carrier stays chosen when its own evidence gets better, and nothing else changes. */
  lemma BetterStaysChosen(decay: int -> real, log: seq<Observed<Event>>, better: seq<Observed<Event>>, ctx: Context,
                          candidates: seq<Candidate>, clock: nat -> int, i: nat, b: nat)
    requires IsDecay(decay)
    requires Chosen(decay, log, ctx, candidates, clock, i) && Chosen(decay, better, ctx, candidates, clock, b)
    requires var cs := Compatible(ctx.protocol, candidates);
      && (forall j :: 0 <= j < |cs| && j != i ==> Own(better, ctx, cs[j]) == Own(log, ctx, cs[j]))
      && var was, grown := Own(log, ctx, cs[i]), Own(better, ctx, cs[i]);
         && was != [] && grown != [] && grown[|grown| - 1].at == was[|was| - 1].at
         && Fold(Update, grown).Some? && Fold(Update, was).Some?
         && NoWorse(Fold(Update, grown).value, Fold(Update, was).value)
    ensures b == i
  {
    var cs := Compatible(ctx.protocol, candidates);
    var was, grown := Own(log, ctx, cs[i]), Own(better, ctx, cs[i]);
    StatsCountTheLog(was);
    StatsCountTheLog(grown);
    BetterScores(decay, ctx.trafficClass, cs[i], cs[i], Fold(Update, grown).value, Fold(Update, was).value,
                 clock(i), clock(i));
    forall j: nat | j < |cs|
      ensures var r := RankAll(decay, MemoryOf(Update, log), ctx, cs, clock)[j];
        var r' := RankAll(decay, MemoryOf(Update, better), ctx, cs, clock)[j];
        r'.cost == r.cost && (if j == i then r'.score >= r.score else r'.score == r.score)
    {
      ScoreOf(decay, log, ctx, cs, clock, j);
      ScoreOf(decay, better, ctx, cs, clock, j);
    }
    StillFirst(RankAll(decay, MemoryOf(Update, log), ctx, cs, clock),
               RankAll(decay, MemoryOf(Update, better), ctx, cs, clock), i, b);
  }

  /** Of two equally dear carriers with evidence of one age, the one whose evidence is worse is not chosen. */
  lemma WorseIsNotChosen(decay: int -> real, log: seq<Observed<Event>>, ctx: Context, candidates: seq<Candidate>,
                         clock: nat -> int, i: nat, j: nat, b: nat)
    requires IsDecay(decay) && Chosen(decay, log, ctx, candidates, clock, b)
    requires var cs := Compatible(ctx.protocol, candidates);
      && i < |cs| && j < |cs| && cs[i].cost == cs[j].cost
      && var x, y := Own(log, ctx, cs[i]), Own(log, ctx, cs[j]);
         && x != [] && y != [] && clock(i) - x[|x| - 1].at == clock(j) - y[|y| - 1].at
         && Fold(Update, x).Some? && Fold(Update, y).Some?
         && NoWorse(Fold(Update, x).value, Fold(Update, y).value)
         && Better(ctx.trafficClass, Fold(Update, x).value, Fold(Update, y).value)
    ensures b != j
  {
    var cs := Compatible(ctx.protocol, candidates);
    var x, y := Own(log, ctx, cs[i]), Own(log, ctx, cs[j]);
    StatsCountTheLog(x);
    StatsCountTheLog(y);
    ScoreOf(decay, log, ctx, cs, clock, i);
    ScoreOf(decay, log, ctx, cs, clock, j);
    BetterScores(decay, ctx.trafficClass, cs[i], cs[j], Fold(Update, x).value, Fold(Update, y).value,
                 clock(i), clock(j));
  }
}
