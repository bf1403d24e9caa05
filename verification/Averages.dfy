// The running means of pkg/dpi/engine.go, pkg/carrier/engine.go and pkg/adaptive/session_memory.go,
// and the summary of pkg/probe/metrics.go. Durations are integers; latencies are assumed not to
// overflow 64 bits.
module Averages {
  import opened Bytes

  function MinReal(a: real, b: real): real {
    if a <= b then a else b
  }

  /** Go's integer division truncates toward zero. */
  function Quotient(a: int, b: int): int
    requires b > 0
  {
    if a >= 0 then a / b else -((-a) / b)
  }

  /** The quotient is the part of a/b before the point, on either side of zero. */
  lemma QuotientTruncates(a: int, b: int)
    requires b > 0
    ensures var q := Quotient(a, b);
      && (a >= 0 ==> 0 <= q * b <= a < q * b + b)
      && (a < 0 ==> q * b - b < a <= q * b <= 0)
  {
    var m := if a >= 0 then a else -a;
    QuotientBounds(m, b);
    assert Quotient(a, b) == if a >= 0 then Quotient(m, b) else -Quotient(m, b);
  }

  lemma QuotientBounds(a: int, b: int)
    requires a >= 0 && b > 0
    ensures Quotient(a, b) >= 0 && Quotient(a, b) * b <= a < Quotient(a, b) * b + b
  {
    assert a == a / b * b + a % b;
  }

  lemma Scale(a: int, b: int, n: nat)
    requires a <= b
    ensures a * n <= b * n
  {
  }

  function RunningDuration(current: int, next: int, count: nat): int {
    if count <= 1 then next
    else
      var total := current * (count - 1) + next;
      Quotient(total, count)
  }

  function RunningFloat(current: real, next: real, count: nat): real {
    if count <= 1 then next
    else (current * (count - 1) as real + next) / count as real
  }

  function UpTo(x: real, cap: real): real {
    if x >= cap then cap else x
  }

  function ShareOf(part: nat, whole: nat): real
    requires whole > 0
  {
    part as real / whole as real
  }

  lemma WholeShare(n: nat)
    requires n > 0
    ensures ShareOf(n, n) == 1.0 && ShareOf(0, n) == 0.0
  {
  }

  lemma SharesCompare(a: nat, m: nat, b: nat, n: nat)
    requires m > 0 && n > 0
    ensures a * n >= b * m ==> ShareOf(a, m) >= ShareOf(b, n)
    ensures a * n > b * m ==> ShareOf(a, m) > ShareOf(b, n)
  {
    assert a as real * n as real == (a * n) as real && b as real * m as real == (b * m) as real;
    QuotientsCompare(a as real, m as real, b as real, n as real);
  }

  lemma QuotientsCompare(a: real, m: real, b: real, n: real)
    requires m > 0.0 && n > 0.0
    ensures a * n >= b * m ==> a / m >= b / n
    ensures a * n > b * m ==> a / m > b / n
  {
    assert (a / m) * m == a && (b / n) * n == b;
    assert a * n - b * m == (a / m - b / n) * (m * n);
    assert m * n > 0.0;
  }

  lemma RunningFloatKeeps(current: real, next: real, count: nat)
    requires current >= 0.0 && count > 0
    ensures next >= 0.0 ==> RunningFloat(current, next, count) >= 0.0
  {
    if count > 1 && next >= 0.0 {
      assert current * (count - 1) as real + next >= 0.0;
    }
  }

  // ----- The integer mean of a sequence of samples ---------------------------------------------

  function Sum(xs: seq<int>): int {
    if xs == [] then 0 else Sum(xs[..|xs| - 1]) + xs[|xs| - 1]
  }

  /** The stored average after the samples have been observed in order. */
  function RunningMean(xs: seq<int>): int {
    if xs == [] then 0
    else RunningDuration(RunningMean(xs[..|xs| - 1]), xs[|xs| - 1], |xs|)
  }

  predicate NonNegative(xs: seq<int>) {
    forall i :: 0 <= i < |xs| ==> xs[i] >= 0
  }

  predicate Within(xs: seq<int>, lo: int, hi: int) {
    forall i :: 0 <= i < |xs| ==> lo <= xs[i] <= hi
  }

  /** One truncating step loses less than one count. */
  lemma StepLoss(current: int, next: int, n: nat)
    requires n >= 1 && current >= 0 && next >= 0
    ensures var mean := RunningDuration(current, next, n);
      mean >= 0 && 0 <= current * (n - 1) + next - mean * n <= n - 1
  {
    if n > 1 {
      Scale(0, current, n - 1);
      QuotientBounds(current * (n - 1) + next, n);
    }
  }

  /** After n samples the stored mean has drifted below the exact one by at most n(n-1)/2 in total. */
  lemma {:induction false} TruncationDrift(xs: seq<int>)
    requires NonNegative(xs)
    ensures RunningMean(xs) >= 0
    ensures var n := |xs|; 0 <= Sum(xs) - n * RunningMean(xs) && 2 * (Sum(xs) - n * RunningMean(xs)) <= n * (n - 1)
  {
    if xs != [] {
      var n, before, x := |xs|, xs[..|xs| - 1], xs[|xs| - 1];
      TruncationDrift(before);
      var mean := RunningMean(before);
      StepLoss(mean, x, n);
      DriftAdds(Sum(before), mean, x, n, RunningMean(xs));
    }
  }

  lemma DriftAdds(sum: int, mean: int, x: int, n: int, next: int)
    requires 0 <= sum - (n - 1) * mean && 2 * (sum - (n - 1) * mean) <= (n - 1) * (n - 2)
    requires 0 <= mean * (n - 1) + x - next * n <= n - 1
    ensures 0 <= sum + x - n * next && 2 * (sum + x - n * next) <= n * (n - 1)
  {
    var loss := mean * (n - 1) + x - next * n;
    assert sum + x - n * next == sum - (n - 1) * mean + loss;
    assert n * (n - 1) == (n - 1) * (n - 2) + 2 * (n - 1);
  }

  lemma MeanStepWithin(current: int, next: int, n: nat, lo: int, hi: int)
    requires n >= 1 && 0 <= lo <= next <= hi && (n > 1 ==> lo <= current <= hi)
    ensures lo <= RunningDuration(current, next, n) <= hi
  {
    if n > 1 {
      var total := current * (n - 1) + next;
      Scale(lo, current, n - 1);
      Scale(current, hi, n - 1);
      TotalWithin(total, n, lo, hi);
    }
  }

  lemma TotalWithin(total: int, n: nat, lo: int, hi: int)
    requires n >= 1 && 0 <= lo && lo * (n - 1) + lo <= total <= hi * (n - 1) + hi
    ensures lo <= Quotient(total, n) <= hi
  {
    Scale(0, lo, n - 1);
    QuotientBounds(total, n);
    var mean := Quotient(total, n);
    if mean < lo {
      Scale(mean + 1, lo, n);
    }
    if mean > hi {
      Scale(hi + 1, mean, n);
    }
  }

  /** The stored mean never leaves the range of its samples. */
  lemma {:induction false} MeanWithinSamples(xs: seq<int>, lo: int, hi: int)
    requires xs != [] && 0 <= lo && Within(xs, lo, hi)
    ensures lo <= RunningMean(xs) <= hi
  {
    var n := |xs|;
    if n > 1 {
      MeanWithinSamples(xs[..n - 1], lo, hi);
    }
    MeanStepWithin(RunningMean(xs[..n - 1]), xs[n - 1], n, lo, hi);
  }

  /** The drift bound is met: the stored mean of 0, 1, ..., n-1 is 0. */
  lemma {:induction false} RampDriftsFully(n: nat)
    ensures RunningMean(Ramp(n)) == 0 && 2 * (Sum(Ramp(n)) - n * RunningMean(Ramp(n))) == n * (n - 1)
  {
    if n > 0 {
      RampDriftsFully(n - 1);
      assert Ramp(n)[..n - 1] == Ramp(n - 1);
      SmallQuotient(n - 1, n);
      assert n * (n - 1) == (n - 1) * (n - 2) + 2 * (n - 1);
    }
  }

  function Ramp(n: nat): (r: seq<int>)
    ensures |r| == n
  {
    if n == 0 then [] else Ramp(n - 1) + [n - 1]
  }

  lemma SmallQuotient(a: int, b: int)
    requires 0 <= a < b
    ensures Quotient(a, b) == 0
  {
  }

  // ----- The real mean ----------------------------------------------------------------------------

  function RealSum(xs: seq<real>): real {
    if xs == [] then 0.0 else RealSum(xs[..|xs| - 1]) + xs[|xs| - 1]
  }

  function RunningRealMean(xs: seq<real>): real {
    if xs == [] then 0.0
    else RunningFloat(RunningRealMean(xs[..|xs| - 1]), xs[|xs| - 1], |xs|)
  }

  /** Without truncation the running mean is the exact mean. */
  lemma {:induction false} RealMeanIsExact(xs: seq<real>)
    ensures RunningRealMean(xs) * |xs| as real == RealSum(xs)
  {
    if xs != [] {
      RealMeanIsExact(xs[..|xs| - 1]);
    }
  }

  // ----- probe.Summarize --------------------------------------------------------------------------------

  /** `error` is the text of the probe's error, if it failed. */
  datatype Sample = Sample(latency: int, error: Option<string>)

  datatype Summary = Summary(
    attempts: nat, successes: nat, failures: nat, avgLatency: int, jitter: int, lossRate: real, error: string)

  predicate Silent(sample: Sample) {
    sample.error == None || sample.error == Some("")
  }

  /** The error text a summary ends up with. */
  function ErrorText(samples: seq<Sample>): string {
    if samples == [] then ""
    else NextText(ErrorText(samples[..|samples| - 1]), samples[|samples| - 1])
  }

  function NextText(text: string, sample: Sample): string {
    if text == "" && sample.error.Some? then sample.error.value else text
  }

  /** The first error text that says anything, or none. */
  predicate IsFirstText(samples: seq<Sample>, text: string) {
    if text == "" then forall i :: 0 <= i < |samples| ==> Silent(samples[i])
    else
      exists i :: 0 <= i < |samples| && samples[i].error == Some(text) && forall j :: 0 <= j < i ==> Silent(samples[j])
  }

  /** The latencies of the successful samples, in order. */
  function Latencies(samples: seq<Sample>): seq<int> {
    if samples == [] then []
    else
      var last := samples[|samples| - 1];
      Latencies(samples[..|samples| - 1]) + if last.error.Some? then [] else [last.latency]
  }

  function Distance(a: int, b: int): int {
    if a < b then b - a else a - b
  }

  /** Differences between neighbours, where the earlier one is positive. */
  function Jitters(xs: seq<int>): seq<int> {
    if |xs| < 2 then []
    else
      Jitters(xs[..|xs| - 1])
      + if xs[|xs| - 2] > 0 then [Distance(xs[|xs| - 2], xs[|xs| - 1])] else []
  }

  function Mean(xs: seq<int>): int {
    if xs == [] then 0 else Quotient(Sum(xs), |xs|)
  }

  method Summarize(samples: seq<Sample>) returns (summary: Summary)
    ensures summary.attempts == |samples|
    ensures summary.successes == |Latencies(samples)| && summary.failures == |samples| - summary.successes
    ensures summary.avgLatency == Mean(Latencies(samples))
    ensures summary.jitter == Mean(Jitters(Latencies(samples)))
    ensures samples != [] ==> summary.lossRate == summary.failures as real / summary.attempts as real
    ensures samples == [] ==> summary.lossRate == 0.0
    ensures summary.error == ErrorText(samples)
  {
    var error := "";
    var successes, failures, total, last, jitterTotal, jitterCount := 0, 0, 0, 0, 0, 0;
    ghost var taken: seq<int> := [];
    for i := 0 to |samples|
      invariant taken == Latencies(samples[..i])
      invariant successes == |taken| && failures == i - successes && total == Sum(taken)
      invariant last == LastOf(taken)
      invariant jitterTotal == Sum(Jitters(taken)) && jitterCount == |Jitters(taken)|
      invariant error == ErrorText(samples[..i])
    {
      NextSample(samples, i);
      if samples[i].error.Some? {
        failures := failures + 1;
        if error == "" {
          error := samples[i].error.value;
        }
        continue;
      }
      var latency := samples[i].latency;
      NextLatency(taken, latency);
      taken := taken + [latency];
      successes := successes + 1;
      total := total + latency;
      if last > 0 {
        var delta := latency - last;
        if delta < 0 {
          delta := -delta;
        }
        jitterTotal := jitterTotal + delta;
        jitterCount := jitterCount + 1;
      }
      last := latency;
    }
    assert samples[..|samples|] == samples;
    summary := Summary(|samples|, successes, failures,
      if successes > 0 then Quotient(total, successes) else 0,
      if jitterCount > 0 then Quotient(jitterTotal, jitterCount) else 0,
      if |samples| > 0 then failures as real / |samples| as real else 0.0,
      error);
  }

  function LastOf(xs: seq<int>): int {
    if xs == [] then 0 else xs[|xs| - 1]
  }

  lemma NextSample(samples: seq<Sample>, i: nat)
    requires i < |samples|
    ensures Latencies(samples[..i + 1])
      == if samples[i].error.Some? then Latencies(samples[..i]) else Latencies(samples[..i]) + [samples[i].latency]
    ensures ErrorText(samples[..i + 1]) == NextText(ErrorText(samples[..i]), samples[i])
  {
    assert samples[..i + 1][..i] == samples[..i];
  }

  /** A summary names the first failure that has something to say. */
  lemma {:induction false} ErrorTextIsFirst(samples: seq<Sample>)
    ensures IsFirstText(samples, ErrorText(samples))
  {
    if samples != [] {
      var before, last := samples[..|samples| - 1], samples[|samples| - 1];
      ErrorTextIsFirst(before);
      if ErrorText(before) != "" {
        var k :| 0 <= k < |before| && before[k].error == Some(ErrorText(before))
          && forall j :: 0 <= j < k ==> Silent(before[j]);
        assert samples[k] == before[k] && forall j :: 0 <= j < k ==> samples[j] == before[j];
      } else {
        assert forall j :: 0 <= j < |before| ==> samples[j] == before[j];
        assert samples[|samples| - 1] == last;
      }
    }
  }

  lemma NextLatency(xs: seq<int>, x: int)
    ensures Sum(xs + [x]) == Sum(xs) + x && LastOf(xs + [x]) == x
    ensures var before, after := Jitters(xs), Jitters(xs + [x]);
      if LastOf(xs) > 0 then |after| == |before| + 1 && Sum(after) == Sum(before) + Distance(LastOf(xs), x)
      else after == before
  {
    SumSnoc(xs, x);
    assert (xs + [x])[..|xs|] == xs;
    if LastOf(xs) > 0 {
      SumSnoc(Jitters(xs), Distance(LastOf(xs), x));
    }
  }

  lemma SumSnoc(xs: seq<int>, x: int)
    ensures Sum(xs + [x]) == Sum(xs) + x
  {
    assert (xs + [x])[..|xs|] == xs;
  }

  lemma {:induction false} SumWithin(xs: seq<int>, lo: int, hi: int)
    requires Within(xs, lo, hi)
    ensures lo * |xs| <= Sum(xs) <= hi * |xs|
  {
    if xs != [] {
      var n := |xs|;
      SumWithin(xs[..n - 1], lo, hi);
      assert lo * n == lo * (n - 1) + lo && hi * n == hi * (n - 1) + hi;
    }
  }

  lemma MeanWithin(xs: seq<int>, lo: int, hi: int)
    requires xs != [] && 0 <= lo && Within(xs, lo, hi)
    ensures lo <= Mean(xs) <= hi
  {
    SumWithin(xs, lo, hi);
    TotalWithin(Sum(xs), |xs|, lo, hi);
  }

  lemma {:induction false} JittersWithin(xs: seq<int>, lo: int, hi: int)
    requires Within(xs, lo, hi)
    ensures Within(Jitters(xs), 0, hi - lo)
  {
    if |xs| >= 2 {
      JittersWithin(xs[..|xs| - 1], lo, hi);
    }
  }

  /** A summary's average lies within its successful samples, and its jitter within their spread. */
  lemma SummaryWithinSamples(samples: seq<Sample>, lo: int, hi: int)
    requires Latencies(samples) != [] && 0 <= lo <= hi && Within(Latencies(samples), lo, hi)
    ensures lo <= Mean(Latencies(samples)) <= hi
    ensures 0 <= Mean(Jitters(Latencies(samples))) <= hi - lo
  {
    MeanWithin(Latencies(samples), lo, hi);
    JittersWithin(Latencies(samples), lo, hi);
    if Jitters(Latencies(samples)) != [] {
      MeanWithin(Jitters(Latencies(samples)), 0, hi - lo);
    }
  }
}
