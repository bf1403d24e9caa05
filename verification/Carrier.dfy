// pkg/carrier/engine.go: which route to take, learned per network context. Scores are real numbers
// and the decay curve is a parameter of which only the shape is used.
module Carrier {
  import opened Bytes
  import opened Text
  import opened Averages
  import opened Ranking
  import opened Memory

  datatype Kind = Direct | ChameleonUDP | ChameleonQUIC | ChameleonTCP | ChameleonTLS | RelayKind | OtherKind

  datatype Candidate = Candidate(
    name: text, kind: Kind, endpoint: text, cost: real, supportsTCP: bool, supportsUDP: bool)

  datatype Context = Context(networkID: text, destination: text, trafficClass: text, protocol: text)

  function Parts(ctx: Context): seq<text> {
    [Normal(ctx.networkID, Ascii("unknown-network")), Normal(ctx.destination, Ascii("*")),
     Normal(ctx.trafficClass, Ascii("default")), Normal(ctx.protocol, Ascii("tcp"))]
  }

  function ContextKey(ctx: Context): text {
    Join(Parts(ctx))
  }

  /** The classifier's traffic classes hold no '|'; protocols come from callers. */
  predicate PlainTail(ctx: Context) {
    BAR !in Parts(ctx)[2] && BAR !in Parts(ctx)[3]
  }

  /** A bar in one network id reads as the end of the other. */
  predicate Overlap(p: seq<text>, q: seq<text>)
    requires |p| == |q| == 4
  {
    p[2] == q[2] && p[3] == q[3] && (Overlaps(p[0], p[1], q[0], q[1]) || Overlaps(q[0], q[1], p[0], p[1]))
  }

  lemma KeyIs(p: seq<text>)
    requires |p| == 4
    ensures Join(p) == (p[0] + [BAR] + p[1]) + [BAR] + p[2] + [BAR] + p[3]
  {
    var rest := p[1..];
    assert rest[1..] == [p[2], p[3]] && [p[2], p[3]][1..] == [p[3]];
    assert Join(rest[1..]) == p[2] + [BAR] + p[3];
    assert Join(rest) == rest[0] + [BAR] + Join(rest[1..]);
    assert Join(p) == p[0] + [BAR] + Join(rest);
    assert Join(rest) == p[1] + [BAR] + (p[2] + [BAR] + p[3]);
  }

  lemma JoinsOverlapIff(p: seq<text>, q: seq<text>)
    requires |p| == |q| == 4 && BAR !in p[2] && BAR !in p[3] && BAR !in q[2] && BAR !in q[3]
    ensures Join(p) == Join(q) <==> p == q || Overlap(p, q)
  {
    KeyIs(p);
    KeyIs(q);
    var x, y := p[0] + [BAR] + p[1], q[0] + [BAR] + q[1];
    if Join(p) == Join(q) {
      CutAtLastBar(p[3], q[3], x + [BAR] + p[2], y + [BAR] + q[2]);
      CutAtLastBar(p[2], q[2], x, y);
    }
    JoinedPairs(p[0], p[1], q[0], q[1]);
    assert p == [p[0], p[1], p[2], p[3]] && q == [q[0], q[1], q[2], q[3]];
  }

  /** Any two contexts share evidence exactly when their normalised parts, cut at bars, give the same
      pieces; they are the same context exactly when, besides, each part holds as many bars as the other's. */
  lemma KeysAgreeIff(a: Context, b: Context)
    ensures ContextKey(a) == ContextKey(b) <==> AllPieces(Parts(a)) == AllPieces(Parts(b))
    ensures Parts(a) == Parts(b) <==> ContextKey(a) == ContextKey(b) && SameBars(Parts(a), Parts(b))
  {
    JoinsAgreeIff(Parts(a), Parts(b));
    PartsAgreeIff(Parts(a), Parts(b));
  }

  /** With class and protocol free of '|', contexts that share a key agree or overlap at a bar in a network id. */
  lemma KeysOverlapIff(a: Context, b: Context)
    requires PlainTail(a) && PlainTail(b)
    ensures ContextKey(a) == ContextKey(b) <==> Parts(a) == Parts(b) || Overlap(Parts(a), Parts(b))
  {
    JoinsOverlapIff(Parts(a), Parts(b));
  }

  /** Only the destination may hold '|'. */
  predicate PlainBut(ctx: Context) {
    BAR !in Parts(ctx)[0] && PlainTail(ctx)
  }

  /** Network ids, classes and protocols without '|' separate contexts, whatever the destinations hold. */
  lemma KeysSeparateContexts(a: Context, b: Context)
    requires PlainBut(a) && PlainBut(b)
    ensures ContextKey(a) == ContextKey(b) <==> Parts(a) == Parts(b)
  {
    var p, q := Parts(a), Parts(b);
    forall i | 0 <= i < 4 && i != 1
      ensures Bars(p[i]) == Bars(q[i])
    {
      PlainHasNoBars(p[i]);
      PlainHasNoBars(q[i]);
    }
    OneFreePart(p, q, 1);
  }

  /** Two real contexts with one key: a network id "a|b", as the planning tool accepts it. */
  lemma ContextsCollide(trafficClass: text, protocol: text)
    requires PlainTail(Context([97], [99], trafficClass, protocol))
    ensures var a, b := Context([97], B_BAR_C, trafficClass, protocol), Context(A_BAR_B, [99], trafficClass, protocol);
      ContextKey(a) == ContextKey(b) && Parts(a) != Parts(b)
  {
    BarsOverlap();
    KeysOverlapIff(Context([97], B_BAR_C, trafficClass, protocol), Context(A_BAR_B, [99], trafficClass, protocol));
  }

  /** And two with bar-free network ids: the tool's protocol is free text, so (d, c, "c|p") and
      ("d|c", c, "p") run together, for every class c. */
  lemma ProtocolsCollide(networkID: text, d: text, c: text, p: text)
    requires IsNormal(d) && IsNormal(c) && IsNormal(p)
    ensures var a := Context(networkID, d, c, c + [BAR] + p);
      var b := Context(networkID, d + [BAR] + c, c, p);
      ContextKey(a) == ContextKey(b) && Parts(a) != Parts(b)
  {
    NormalBoth(c, p);
    NormalBoth(d, c);
    NormalParts(Context(networkID, d, c, c + [BAR] + p));
    NormalParts(Context(networkID, d + [BAR] + c, c, p));
    RunTogether(Normal(networkID, Ascii("unknown-network")), d, c, p);
    assert |d| < |d + [BAR] + c|;
  }

  lemma NormalParts(ctx: Context)
    requires IsNormal(ctx.destination) && IsNormal(ctx.trafficClass) && IsNormal(ctx.protocol)
    ensures Parts(ctx)
      == [Normal(ctx.networkID, Ascii("unknown-network")), ctx.destination, ctx.trafficClass, ctx.protocol]
  {
    NormalKeeps(ctx.destination, Ascii("*"));
    NormalKeeps(ctx.trafficClass, Ascii("default"));
    NormalKeeps(ctx.protocol, Ascii("tcp"));
  }

  /** A context counts as its four parts in lower case without the white space around them, and a blank part as
      its default. */
  lemma PartsAreSpelled(ctx: Context, n: text, d: text, c: text, p: text)
    requires Spells(ctx.networkID, n) && Spells(ctx.destination, d)
    requires Spells(ctx.trafficClass, c) && Spells(ctx.protocol, p)
    ensures Parts(ctx) ==
      [if n == [] then Ascii("unknown-network") else n, if d == [] then Ascii("*") else d,
       if c == [] then Ascii("default") else c, if p == [] then Ascii("tcp") else p]
  {
    NormalOfSpelled(ctx.networkID, n, Ascii("unknown-network"));
    NormalOfSpelled(ctx.destination, d, Ascii("*"));
    NormalOfSpelled(ctx.trafficClass, c, Ascii("default"));
    NormalOfSpelled(ctx.protocol, p, Ascii("tcp"));
  }

  lemma RunTogether(n: text, d: text, c: text, p: text)
    ensures Join([n, d, c, c + [BAR] + p]) == Join([n, d + [BAR] + c, c, p])
  {
    KeyIs([n, d, c, c + [BAR] + p]);
    KeyIs([n, d + [BAR] + c, c, p]);
  }

  // ----- Statistics --------------------------------------------------------------------------------

  datatype Event = Event(success: bool, latency: int, throughput: real, at: int)

  datatype Stats = Stats(
    attempts: nat, successes: nat, failures: nat, failureStreak: nat,
    avgLatency: int, avgJitter: int, lastLatency: int, avgThroughput: real,
    lastSuccess: Option<int>, lastFailure: Option<int>, lastObservation: Option<int>)

  const NoStats := Stats(0, 0, 0, 0, 0, 0, 0, 0.0, None, None, None)

  function Counted(s: Stats, e: Event): Stats {
    var t := s.(attempts := s.attempts + 1, lastObservation := Some(e.at));
    if e.success then t.(successes := s.successes + 1, failureStreak := 0, lastSuccess := Some(e.at))
    else t.(failures := s.failures + 1, failureStreak := s.failureStreak + 1, lastFailure := Some(e.at))
  }

  function Timed(s: Stats, e: Event): Stats {
    if e.latency <= 0 then s
    else
      s.(avgJitter :=
           if s.lastLatency > 0 then RunningDuration(s.avgJitter, Distance(s.lastLatency, e.latency), s.attempts)
           else s.avgJitter,
         lastLatency := e.latency,
         avgLatency := RunningDuration(s.avgLatency, e.latency, s.attempts))
  }

  function Revised(s: Stats, e: Event): Stats {
    var t := Timed(Counted(s, e), e);
    if e.throughput > 0.0 then t.(avgThroughput := RunningFloat(t.avgThroughput, e.throughput, t.attempts)) else t
  }

  function Update(prev: Option<Stats>, e: Event): Stats {
    Revised(if prev.Some? then prev.value else NoStats, e)
  }

  function Outcomes(events: seq<Event>): (r: seq<bool>)
    ensures |r| == |events|
  {
    seq(|events|, i requires 0 <= i < |events| => events[i].success)
  }

  lemma RevisedCounts(s: Stats, e: Event)
    ensures var t := Revised(s, e);
      && t.attempts == s.attempts + 1 && t.lastObservation == Some(e.at)
      && (if e.success then t.successes == s.successes + 1 && t.failures == s.failures && t.failureStreak == 0
          else t.successes == s.successes && t.failures == s.failures + 1 && t.failureStreak == s.failureStreak + 1)
  {
  }

  /** The counters are those of the observation log. */
  lemma {:induction false} StatsCountTheLog(events: seq<Event>)
    requires events != []
    ensures Fold(Update, events).Some?
    ensures var s := Fold(Update, events).value;
      && s.attempts == |events| == s.successes + s.failures
      && s.successes == Successes(Outcomes(events))
      && s.failureStreak == TrailingFailures(Outcomes(events))
      && s.lastObservation == Some(events[|events| - 1].at)
  {
    var n := |events| - 1;
    assert Outcomes(events)[..n] == Outcomes(events[..n]);
    if n > 0 {
      StatsCountTheLog(events[..n]);
      RevisedCounts(Fold(Update, events[..n]).value, events[n]);
    } else {
      assert Outcomes(events[..n]) == [];
      RevisedCounts(NoStats, events[n]);
    }
  }

  predicate LatenciesUpTo(events: seq<Event>, hi: int) {
    forall i :: 0 <= i < |events| ==> events[i].latency <= hi
  }

  /** Both averages stay between 0 and the largest latency. */
  lemma {:induction false} AveragesStayWithinLatencies(events: seq<Event>, hi: int)
    requires events != [] && hi >= 0 && LatenciesUpTo(events, hi)
    ensures Fold(Update, events).Some?
    ensures var s := Fold(Update, events).value;
      0 <= s.avgLatency <= hi && 0 <= s.avgJitter <= hi && 0 <= s.lastLatency <= hi && s.attempts == |events|
  {
    var n, e := |events| - 1, events[|events| - 1];
    if n > 0 {
      AveragesStayWithinLatencies(events[..n], hi);
    }
    var s := Counted(if n > 0 then Fold(Update, events[..n]).value else NoStats, e);
    if e.latency > 0 {
      MeanStepWithin(s.avgLatency, e.latency, s.attempts, 0, hi);
      if s.lastLatency > 0 {
        MeanStepWithin(s.avgJitter, Distance(s.lastLatency, e.latency), s.attempts, 0, hi);
      }
    }
  }

  function EventLatencies(events: seq<Event>): (r: seq<int>)
    ensures |r| == |events|
  {
    seq(|events|, i requires 0 <= i < |events| => events[i].latency)
  }

  /** How far each latency is from the one before; 0 for the first. */
  function Steps(latencies: seq<int>): (r: seq<int>)
    ensures |r| == |latencies|
  {
    seq(|latencies|, i requires 0 <= i < |latencies| =>
      if i == 0 then 0 else Distance(latencies[i - 1], latencies[i]))
  }

  function Throughputs(events: seq<Event>): (r: seq<real>)
    ensures |r| == |events|
  {
    seq(|events|, i requires 0 <= i < |events| => events[i].throughput)
  }

  lemma MeasuredStep(s: Stats, e: Event)
    requires e.latency > 0
    ensures var t := Revised(s, e);
      && t.attempts == s.attempts + 1 && t.lastLatency == e.latency
      && t.avgLatency == RunningDuration(s.avgLatency, e.latency, s.attempts + 1)
      && t.avgJitter == (if s.lastLatency > 0
                         then RunningDuration(s.avgJitter, Distance(s.lastLatency, e.latency), s.attempts + 1)
                         else s.avgJitter)
  {
  }

  /** An observation without a latency leaves latency and jitter as they were, one without a throughput that. */
  lemma UnmeasuredKeepsAverages(s: Stats, e: Event)
    ensures var t := Revised(s, e);
      && (e.latency <= 0 ==>
            t.avgLatency == s.avgLatency && t.avgJitter == s.avgJitter && t.lastLatency == s.lastLatency)
      && (e.throughput <= 0.0 ==> t.avgThroughput == s.avgThroughput)
  {
  }

  /** With measured latencies the averages are their running mean and that of their steps, and with
      measured throughputs the third is theirs. */
  lemma {:induction false} AveragesAreMeans(events: seq<Event>)
    requires events != [] && forall i :: 0 <= i < |events| ==> events[i].latency > 0
    ensures Fold(Update, events).Some?
    ensures var s := Fold(Update, events).value;
      && s.attempts == |events| && s.lastLatency == events[|events| - 1].latency
      && s.avgLatency == RunningMean(EventLatencies(events))
      && s.avgJitter == RunningMean(Steps(EventLatencies(events)))
  {
    var n := |events| - 1;
    assert EventLatencies(events)[..n] == EventLatencies(events[..n]);
    assert Steps(EventLatencies(events))[..n] == Steps(EventLatencies(events[..n]));
    if n > 0 {
      AveragesAreMeans(events[..n]);
      MeasuredStep(Fold(Update, events[..n]).value, events[n]);
    } else {
      MeasuredStep(NoStats, events[n]);
      assert events[..n] == [] && EventLatencies(events[..n]) == [];
      assert Steps(EventLatencies(events)) == [0];
    }
  }

  lemma {:induction false} ThroughputIsMean(events: seq<Event>)
    requires events != [] && forall i :: 0 <= i < |events| ==> events[i].throughput > 0.0
    ensures Fold(Update, events).Some? && Fold(Update, events).value.attempts == |events|
    ensures Fold(Update, events).value.avgThroughput == RunningRealMean(Throughputs(events))
  {
    var n := |events| - 1;
    assert Throughputs(events)[..n] == Throughputs(events[..n]);
    if n > 0 {
      ThroughputIsMean(events[..n]);
    } else {
      assert events[..n] == [] && Throughputs(events[..n]) == [];
    }
  }

  // ----- Scores ---------------------------------------------------------------------------------------

  const SECOND := 1_000_000_000
  const HALF_LIFE := 24 * 3600 * SECOND

  /** What the exponential decay is used for: no evidence is fresher than new, none ever counts for
      nothing, age only weakens it, and a day halves it. */
  ghost predicate IsDecay(decay: int -> real) {
    && (forall age: int {:trigger decay(age)} :: 0.0 < decay(age) <= 1.0)
    && decay(0) == 1.0 && decay(HALF_LIFE) == 0.5
    && (forall a: int, b: int {:trigger decay(a), decay(b)} :: 0 <= a <= b ==> decay(a) >= decay(b))
  }

  /** Such curves exist. */
  function Hyperbola(age: int): real {
    if age <= 0 then 1.0 else HALF_LIFE as real / (HALF_LIFE + age) as real
  }

  lemma HyperbolaIsDecay()
    ensures IsDecay(Hyperbola)
  {
    forall a: int, b: int | 0 <= a <= b
      ensures Hyperbola(a) >= Hyperbola(b)
    {
      if a > 0 {
        var h, x, y := HALF_LIFE as real, (HALF_LIFE + a) as real, (HALF_LIFE + b) as real;
        assert h / x - h / y == h * (y - x) / (x * y);
      }
    }
  }

  function Latest(a: Option<int>, b: Option<int>): Option<int> {
    if a.Some? && (b.None? || a.value > b.value) then a else b
  }

  function Freshness(decay: int -> real, s: Stats, now: int): real {
    var last := if s.lastObservation.Some? then s.lastObservation else Latest(s.lastSuccess, s.lastFailure);
    if last.None? || now <= last.value then 1.0 else decay(now - last.value)
  }

  function Baseline(c: Candidate): real {
    0.25 - c.cost
  }

  function Learned(trafficClass: text, c: Candidate, s: Stats): real
    requires s.attempts > 0
  {
    var rate := s.successes as real / s.attempts as real;
    var base := rate * 7.0 - s.failureStreak as real * 1.8 - c.cost;
    var latency := MinReal(s.avgLatency as real / SECOND as real, 2.5);
    var jitter := MinReal(s.avgJitter as real / SECOND as real, 1.5);
    var boost := MinReal(s.avgThroughput / 8388608.0, 2.0);
    var kind := Lower(trafficClass);
    if kind == Ascii("interactive") || kind == Ascii("realtime") then base - latency * 2.2 - jitter * 1.7 + boost * 0.25
    else if kind == Ascii("streaming") then base - latency * 0.7 - jitter * 0.4 + boost * 1.5
    else if kind == Ascii("bulk") then base - latency * 0.3 + boost * 2.0
    else base - latency + boost
  }

  function Known(stats: Option<Stats>): bool {
    stats.Some? && stats.value.attempts > 0
  }

  function Score(decay: int -> real, trafficClass: text, c: Candidate, stats: Option<Stats>, now: int): real {
    if !Known(stats) then Baseline(c)
    else Blend(Baseline(c), Learned(trafficClass, c, stats.value) - Baseline(c), Freshness(decay, stats.value, now))
  }

  function Blend(base: real, gain: real, f: real): real {
    base + f * gain
  }

  predicate Between(x: real, a: real, b: real) {
    a <= x <= b || b <= x <= a
  }

  /** A known carrier's score lies between what it learned and its baseline, and only ever moves
      toward the baseline as its evidence ages. */
  lemma ScoreFadesToBaseline(decay: int -> real, trafficClass: text, c: Candidate, s: Stats, now: int, later: int)
    requires IsDecay(decay) && s.attempts > 0 && now <= later
    ensures var learned, early, late := Learned(trafficClass, c, s),
        Score(decay, trafficClass, c, Some(s), now), Score(decay, trafficClass, c, Some(s), later);
      Between(early, learned, Baseline(c)) && Between(late, early, Baseline(c))
  {
    var f, g := Freshness(decay, s, now), Freshness(decay, s, later);
    assert 0.0 < g <= f <= 1.0;
    Fade(Baseline(c), Learned(trafficClass, c, s), f, g);
  }

  lemma Fade(base: real, learned: real, f: real, g: real)
    requires 0.0 < g <= f <= 1.0
    ensures var gain := learned - base;
      Between(Blend(base, gain, f), learned, base) && Between(Blend(base, gain, g), Blend(base, gain, f), base)
  {
    Shrink(base, learned - base, f, g);
  }

  lemma Shrink(base: real, gain: real, f: real, g: real)
    requires 0.0 < g <= f <= 1.0
    ensures gain >= 0.0 ==> base <= Blend(base, gain, g) <= Blend(base, gain, f) <= base + gain
    ensures gain <= 0.0 ==> base >= Blend(base, gain, g) >= Blend(base, gain, f) >= base + gain
  {
    if gain < 0.0 {
      var drop := -gain;
      assert 0.0 <= g * drop <= f * drop <= drop;
      assert f * gain == -(f * drop) && g * gain == -(g * drop);
    }
  }

  // ----- Choosing ------------------------------------------------------------------------------------

  datatype Decision = Decision(carrier: Candidate, score: real, known: bool, alternates: seq<text>)

  predicate IsCompatible(protocol: text, c: Candidate) {
    var lower := Lower(Trim(protocol));
    var proto := if lower == [] then Ascii("tcp") else lower;
    && Trim(c.name) != [] && c.cost >= 0.0
    && (proto == Ascii("udp") ==> c.supportsUDP)
    && (proto == Ascii("tcp") ==> c.supportsTCP)
  }

  /** The compatible candidates, in their order. */
  function Compatible(protocol: text, candidates: seq<Candidate>): seq<Candidate> {
    if candidates == [] then []
    else
      var last := candidates[|candidates| - 1];
      Compatible(protocol, candidates[..|candidates| - 1]) + if IsCompatible(protocol, last) then [last] else []
  }

  lemma {:induction false} CompatibleMembers(protocol: text, candidates: seq<Candidate>, c: Candidate)
    ensures c in Compatible(protocol, candidates) <==> c in candidates && IsCompatible(protocol, c)
  {
    if candidates != [] {
      var n := |candidates| - 1;
      CompatibleMembers(protocol, candidates[..n], c);
      assert candidates == candidates[..n] + [candidates[n]];
    }
  }

  /** For a request that spells its protocol `p`, "tcp" or nothing asks for TCP support and "udp" for UDP support;
      any other protocol asks for neither. The name must not be blank nor the cost negative. */
  lemma CompatibleIff(protocol: text, p: text, candidates: seq<Candidate>, c: Candidate)
    requires Spells(protocol, p)
    ensures c in Compatible(protocol, candidates) <==>
      && c in candidates && !AllSpace(c.name) && c.cost >= 0.0
      && (p == Ascii("udp") ==> c.supportsUDP) && (p == [] || p == Ascii("tcp") ==> c.supportsTCP)
  {
    NormalOfSpelled(protocol, p, Ascii("tcp"));
    BlankIff(c.name);
    CompatibleMembers(protocol, candidates, c);
    assert Ascii("tcp")[0] != Ascii("udp")[0];
  }

  type Store = Entries<Stats>

  /** The i-th compatible candidate is scored at the i-th reading of the clock. */
  function Rank(decay: int -> real, store: Store, ctx: Context, c: Candidate, now: int): Ranked<Candidate> {
    var stats := At(store, ContextKey(ctx), c.name);
    Ranked(c, Score(decay, ctx.trafficClass, c, stats, now), c.cost, Known(stats))
  }

  function RankAll(decay: int -> real, store: Store, ctx: Context, cs: seq<Candidate>, clock: nat -> int)
    : (r: seq<Ranked<Candidate>>)
    ensures |r| == |cs|
    ensures forall i :: 0 <= i < |cs| ==> r[i] == Rank(decay, store, ctx, cs[i], clock(i))
  {
    seq(|cs|, i requires 0 <= i < |cs| => Rank(decay, store, ctx, cs[i], clock(i)))
  }

  function Names(cs: seq<Ranked<Candidate>>): (r: seq<text>)
    ensures |r| == |cs|
    ensures forall i :: 0 <= i < |cs| ==> r[i] == cs[i].item.name
  {
    seq(|cs|, i requires 0 <= i < |cs| => cs[i].item.name)
  }

  function Choice(decay: int -> real, store: Store, ctx: Context, candidates: seq<Candidate>, clock: nat -> int)
    : Option<Decision>
  {
    var cs := Compatible(ctx.protocol, candidates);
    if cs == [] then None
    else
      var sorted := StableSort(RankAll(decay, store, ctx, cs, clock));
      Some(Decision(sorted[0].item, sorted[0].score, sorted[0].known, Names(sorted[1..])))
  }

  /** The chosen carrier's score is maximal; among equals it is the cheapest, and among those the
      first. Chosen and alternates together are the compatible candidates, best first. */
  lemma ChoiceIsBest(decay: int -> real, store: Store, ctx: Context, candidates: seq<Candidate>, clock: nat -> int)
    requires Compatible(ctx.protocol, candidates) != []
    ensures var cs := Compatible(ctx.protocol, candidates);
      var ranked := RankAll(decay, store, ctx, cs, clock);
      var d := Choice(decay, store, ctx, candidates, clock).value;
      && IsFirstBest(ranked, FirstBest(ranked))
      && d.carrier == cs[FirstBest(ranked)] && d.score == ranked[FirstBest(ranked)].score
      && multiset(StableSort(ranked)) == multiset(ranked) && Sorted(StableSort(ranked))
      && [d.carrier.name] + d.alternates == Names(StableSort(ranked))
  {
    var cs := Compatible(ctx.protocol, candidates);
    var ranked := RankAll(decay, store, ctx, cs, clock);
    FrontIsFirstBest(ranked);
    SortIsPermutation(ranked);
    SortIsSorted(ranked);
    var sorted := StableSort(ranked);
    assert sorted == [sorted[0]] + sorted[1..];
  }

  /** Without evidence in the context, the first of the cheapest compatible carriers is chosen. */
  lemma NoEvidencePicksCheapest(decay: int -> real, store: Store, ctx: Context, candidates: seq<Candidate>,
                                clock: nat -> int)
    requires var cs := Compatible(ctx.protocol, candidates);
      cs != [] && forall c :: c in cs ==> !Known(At(store, ContextKey(ctx), c.name))
    ensures var cs := Compatible(ctx.protocol, candidates);
      var chosen := Choice(decay, store, ctx, candidates, clock).value.carrier;
      exists i :: 0 <= i < |cs| && cs[i] == chosen && IsFirstCheapest(cs, i)
  {
    var cs := Compatible(ctx.protocol, candidates);
    var ranked := RankAll(decay, store, ctx, cs, clock);
    FrontIsFirstBest(ranked);
    forall j | 0 <= j < |cs|
      ensures ranked[j].score == 0.25 - cs[j].cost && ranked[j].cost == cs[j].cost
    {
      assert cs[j] in cs;
    }
    assert IsFirstCheapest(cs, FirstBest(ranked));
  }

  ghost predicate IsFirstCheapest(cs: seq<Candidate>, i: nat) {
    && i < |cs|
    && (forall j :: 0 <= j < |cs| ==> cs[i].cost <= cs[j].cost)
    && (forall j :: 0 <= j < i ==> cs[i].cost < cs[j].cost)
  }

  // ----- The engine -------------------------------------------------------------------------------------

  datatype Observation = Observation(context: Context, carrier: text, success: bool, latency: int, throughput: real,
                                     at: Option<int>)

  function Noted(obs: Observation, now: int): Observed<Event> {
    Observed(ContextKey(obs.context), obs.carrier,
             Event(obs.success, obs.latency, obs.throughput, if obs.at.Some? then obs.at.value else now))
  }

  class Engine {
    const decay: int -> real
    var store: Store
    ghost var log: seq<Observed<Event>>

    /** The store is the fold of everything observed. */
    ghost predicate Valid()
      reads this
    {
      store == MemoryOf(Update, log)
    }

    constructor (decay: int -> real)
      ensures Valid() && log == [] && this.decay == decay
    {
      this.decay := decay;
      this.store := map[];
      this.log := [];
    }

    method Observe(obs: Observation, now: int) returns (ok: bool)
      requires Valid()
      modifies this
      ensures Valid()
      ensures ok <==> Trim(obs.carrier) != []
      ensures log == if ok then old(log) + [Noted(obs, now)] else old(log)
      ensures store == if ok then Remember(Update, old(store), Noted(obs, now)) else old(store)
    {
      if Trim(obs.carrier) == [] {
        return false;
      }
      var at := if obs.at.Some? then obs.at.value else now;
      var key := ContextKey(obs.context);
      var found := At(store, key, obs.carrier);
      var stats := Record(found, obs, at);
      store := Put(store, key, obs.carrier, stats);
      log := log + [Noted(obs, now)];
      assert log[..|log| - 1] == old(log);
      ok := true;
    }

    /** The update of one Stats entry in place. */
    static method Record(found: Option<Stats>, obs: Observation, at: int) returns (stats: Stats)
      ensures stats == Update(found, Event(obs.success, obs.latency, obs.throughput, at))
    {
      stats := if found.Some? then found.value else NoStats;
      stats := stats.(attempts := stats.attempts + 1);
      if obs.success {
        stats := stats.(successes := stats.successes + 1, failureStreak := 0, lastSuccess := Some(at));
      } else {
        stats := stats.(failures := stats.failures + 1, failureStreak := stats.failureStreak + 1,
                        lastFailure := Some(at));
      }
      stats := stats.(lastObservation := Some(at));
      if obs.latency > 0 {
        if stats.lastLatency > 0 {
          var jitter := obs.latency - stats.lastLatency;
          if jitter < 0 {
            jitter := -jitter;
          }
          stats := stats.(avgJitter := RunningDuration(stats.avgJitter, jitter, stats.attempts));
        }
        stats := stats.(lastLatency := obs.latency);
        stats := stats.(avgLatency := RunningDuration(stats.avgLatency, obs.latency, stats.attempts));
      }
      if obs.throughput > 0.0 {
        stats := stats.(avgThroughput := RunningFloat(stats.avgThroughput, obs.throughput, stats.attempts));
      }
    }

    method FilterCompatible(protocol: text, candidates: seq<Candidate>) returns (out: seq<Candidate>)
      ensures out == Compatible(protocol, candidates)
    {
      out := [];
      var proto := Lower(Trim(protocol));
      if proto == [] {
        proto := Ascii("tcp");
      }
      for i := 0 to |candidates|
        invariant out == Compatible(protocol, candidates[..i])
      {
        var c := candidates[i];
        assert candidates[..i + 1][..i] == candidates[..i];
        if Trim(c.name) == [] || c.cost < 0.0 {
          continue;
        }
        if proto == Ascii("udp") && !c.supportsUDP {
          continue;
        }
        if proto == Ascii("tcp") && !c.supportsTCP {
          continue;
        }
        out := out + [c];
      }
      assert candidates[..|candidates|] == candidates;
    }

    /** Choose: rank the compatible candidates at successive clock readings. */
    method Choose(ctx: Context, candidates: seq<Candidate>, clock: nat -> int) returns (decision: Option<Decision>)
      ensures decision == Choice(decay, store, ctx, candidates, clock)
    {
      var compatible := FilterCompatible(ctx.protocol, candidates);
      if |compatible| == 0 {
        return None;
      }
      var ranking: seq<Ranked<Candidate>> := [];
      for i := 0 to |compatible|
        invariant ranking == RankAll(decay, store, ctx, compatible, clock)[..i]
      {
        var c := compatible[i];
        var stats := At(store, ContextKey(ctx), c.name);
        ranking := ranking + [Ranked(c, Score(decay, ctx.trafficClass, c, stats, clock(i)), c.cost, Known(stats))];
      }
      assert ranking == RankAll(decay, store, ctx, compatible, clock);
      var sorted := StableSort(ranking);
      var best := sorted[0];
      decision := Some(Decision(best.item, best.score, best.known, Names(sorted[1..])));
    }

    /** HasEvidence: any candidate observed in this very context. */
    method HasEvidence(ctx: Context, candidates: seq<Candidate>) returns (found: bool)
      ensures found <==> exists c :: c in candidates && Known(At(store, ContextKey(ctx), c.name))
    {
      for i := 0 to |candidates|
        invariant forall k :: 0 <= k < i ==> !Known(At(store, ContextKey(ctx), candidates[k].name))
      {
        if Known(At(store, ContextKey(ctx), candidates[i].name)) {
          assert candidates[i] in candidates;
          return true;
        }
      }
      found := false;
    }
  }
}
