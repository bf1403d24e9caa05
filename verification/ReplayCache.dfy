// The nonce replay cache of pkg/tunnel/server.go (acceptNonce).
module ReplayCache {
  import Clock

  type Nonce = seq<int>

  // Two minutes, in nanoseconds.
  const DEFAULT_SKEW := 120_000_000_000

  function Purge(seen: map<Nonce, int>, now: int, skew: Clock.int64): map<Nonce, int> {
    map n | n in seen && Clock.Sub(now, seen[n]) <= skew :: seen[n]
  }

  function Stepped(seen: map<Nonce, int>, call: Call, skew: Clock.int64): map<Nonce, int> {
    var kept := Purge(seen, call.now, skew);
    if call.nonce in kept then kept else kept[call.nonce := call.now]
  }

  datatype Call = Call(nonce: Nonce, now: int)

  // ----- The cache against its log ------------------------------------------------------------

  /** The cache after a sequence of calls. */
  function Seen(skew: Clock.int64, calls: seq<Call>): map<Nonce, int> {
    if calls == [] then map[]
    else Stepped(Seen(skew, calls[..|calls| - 1]), calls[|calls| - 1], skew)
  }

  /** What call i answered. */
  predicate Accepted(skew: Clock.int64, calls: seq<Call>, i: nat)
    requires i < |calls|
  {
    calls[i].nonce !in Purge(Seen(skew, calls[..i]), calls[i].now, skew)
  }

  predicate Chronological(calls: seq<Call>) {
    forall i, j :: 0 <= i <= j < |calls| ==> calls[i].now <= calls[j].now
  }

  /** Call i was accepted and is no older than the skew at `now`. */
  predicate Live(skew: Clock.int64, calls: seq<Call>, i: int, nonce: Nonce, now: int) {
    0 <= i < |calls| && calls[i].nonce == nonce && Accepted(skew, calls, i) && Clock.Sub(now, calls[i].now) <= skew
  }

  lemma AcceptedOfPrefix(skew: Clock.int64, calls: seq<Call>, n: nat, i: nat)
    requires i < n <= |calls|
    ensures Accepted(skew, calls[..n], i) == Accepted(skew, calls, i)
  {
    assert calls[..n][..i] == calls[..i];
  }

  /** A later call leaves an acceptance live until the skew has passed. */
  lemma LiveAfterCall(skew: Clock.int64, calls: seq<Call>, i: nat, nonce: Nonce)
    requires Chronological(calls) && i < |calls| - 1
    ensures var before := calls[..|calls| - 1];
      Live(skew, calls, i, nonce, calls[|calls| - 1].now) ==
      (&& Live(skew, before, i, nonce, before[|before| - 1].now)
       && Clock.Sub(calls[|calls| - 1].now, calls[i].now) <= skew)
  {
    AcceptedOfPrefix(skew, calls, |calls| - 1, i);
  }

  /** At every moment the cache is exactly the set of acceptances no older than the skew. */
  lemma {:induction false} CacheIsLiveAcceptances(skew: Clock.int64, calls: seq<Call>, nonce: Nonce)
    requires skew > 0 && Chronological(calls) && calls != []
    ensures var now := calls[|calls| - 1].now;
      nonce in Seen(skew, calls) <==> exists i :: Live(skew, calls, i, nonce, now)
    ensures forall i :: Live(skew, calls, i, nonce, calls[|calls| - 1].now) ==>
      nonce in Seen(skew, calls) && Seen(skew, calls)[nonce] == calls[i].now
    decreases |calls|
  {
    var n := |calls| - 1;
    var before, last := calls[..n], calls[n];
    assert Seen(skew, calls) == Stepped(Seen(skew, before), last, skew);
    if n > 0 {
      CacheIsLiveAcceptances(skew, before, nonce);
    }
    forall i | Live(skew, calls, i, nonce, last.now)
      ensures nonce in Seen(skew, calls) && Seen(skew, calls)[nonce] == calls[i].now
    {
      if i < n {
        LiveAfterCall(skew, calls, i, nonce);
      }
    }
    if nonce in Purge(Seen(skew, before), last.now, skew) {
      var i :| Live(skew, before, i, nonce, before[n - 1].now);
      LiveAfterCall(skew, calls, i, nonce);
      assert Live(skew, calls, i, nonce, last.now);
    } else if nonce in Seen(skew, calls) {
      assert Live(skew, calls, n, nonce, last.now);
    }
  }

  /** A call is refused exactly when the log holds an acceptance of its nonce within the skew. */
  lemma VerdictFollowsLog(skew: Clock.int64, calls: seq<Call>, j: nat)
    requires skew > 0 && Chronological(calls) && j < |calls|
    ensures Accepted(skew, calls, j) <==>
      !exists i :: 0 <= i < j && Live(skew, calls, i, calls[j].nonce, calls[j].now)
  {
    var before, call := calls[..j], calls[j];
    forall i | 0 <= i < j
      ensures Accepted(skew, before, i) == Accepted(skew, calls, i)
    {
      AcceptedOfPrefix(skew, calls, j, i);
    }
    if j > 0 {
      CacheIsLiveAcceptances(skew, before, call.nonce);
      if !Accepted(skew, calls, j) {
        var i :| Live(skew, before, i, call.nonce, before[j - 1].now);
        assert Live(skew, calls, i, call.nonce, call.now);
      }
      if i :| 0 <= i < j && Live(skew, calls, i, call.nonce, call.now) {
        assert Live(skew, before, i, call.nonce, before[j - 1].now);
      }
    }
  }

  /** Two acceptances of one nonce are more than the skew apart. */
  lemma AcceptancesAreApart(skew: Clock.int64, calls: seq<Call>, i: nat, j: nat)
    requires skew > 0 && Chronological(calls) && i < j < |calls|
    requires calls[i].nonce == calls[j].nonce && Accepted(skew, calls, i) && Accepted(skew, calls, j)
    ensures Clock.Sub(calls[j].now, calls[i].now) > skew
  {
    VerdictFollowsLog(skew, calls, j);
    assert !Live(skew, calls, i, calls[j].nonce, calls[j].now);
  }

  class Server {
    const maxClockSkew: Clock.int64
    var seen: map<Nonce, int>
    ghost var log: seq<Call>

    ghost predicate Valid()
      reads this
    {
      seen == Seen(maxClockSkew, log)
    }

    constructor (maxClockSkew: Clock.int64)
      ensures this.maxClockSkew == (if maxClockSkew <= 0 then 120_000_000_000 else maxClockSkew)
      ensures Valid() && log == []
    {
      this.maxClockSkew := if maxClockSkew <= 0 then DEFAULT_SKEW else maxClockSkew;
      this.seen := map[];
      this.log := [];
    }

    /** acceptNonce: forget what is too old, then refuse what is still remembered. */
    method AcceptNonce(nonce: Nonce, now: int) returns (accepted: bool)
      requires Valid()
      modifies this
      ensures Valid() && log == old(log) + [Call(nonce, now)]
      ensures accepted <==> Accepted(maxClockSkew, log, |log| - 1)
      ensures seen == Stepped(old(seen), Call(nonce, now), maxClockSkew)
    {
      var todo := seen.Keys;
      ghost var before := seen;
      while todo != {}
        invariant log == old(log)
        invariant todo <= seen.Keys <= before.Keys
        invariant forall n :: n in seen ==> seen[n] == before[n]
        invariant forall n :: n in before ==>
          (n in seen <==> n in todo || Clock.Sub(now, before[n]) <= maxClockSkew)
        decreases todo
      {
        var n :| n in todo;
        if Clock.Sub(now, seen[n]) > maxClockSkew {
          seen := seen - {n};
        }
        todo := todo - {n};
      }
      assert seen == Purge(before, now, maxClockSkew);
      log := log + [Call(nonce, now)];
      assert log[..|log| - 1] == old(log);
      if nonce in seen {
        return false;
      }
      seen := seen[nonce := now];
      accepted := true;
    }
  }

  // ----- With the freshness window of the hello --------------------------------------------------

  /** The hello, presented at `now` after these calls, is fresh and its nonce is accepted. */
  predicate AcceptedAgain(skew: Clock.int64, calls: seq<Call>, nonce: Nonce, seconds: Clock.int64, now: int) {
    && Clock.HelloFresh(skew, seconds, now)
    && Chronological(calls + [Call(nonce, now)])
    && Accepted(skew, calls + [Call(nonce, now)], |calls|)
  }

  /** A hello accepted at calls[i] can be accepted once more, however often it was presented and refused
      within the skew, exactly when its timestamp lies after that moment: only then is it fresh once the
      cache has forgotten it. At the largest skew the cache never forgets. */
  lemma AcceptedAgainIffStampedAhead(skew: Clock.int64, calls: seq<Call>, i: nat, seconds: Clock.int64)
    requires skew > 0 && Chronological(calls) && i < |calls|
    requires Accepted(skew, calls, i) && Clock.HelloFresh(skew, seconds, calls[i].now)
    requires forall k :: i < k < |calls| ==> calls[k].now <= calls[i].now + skew
    ensures (exists now :: AcceptedAgain(skew, calls, calls[i].nonce, seconds, now))
      <==> Clock.UnixTime(seconds) > calls[i].now && skew < Clock.MAX
  {
    var nonce, n, at := calls[i].nonce, |calls|, Clock.UnixTime(seconds);
    if now :| AcceptedAgain(skew, calls, nonce, seconds, now) {
      AgainIsLater(skew, calls, i, seconds, now);
    }
    if at > calls[i].now && skew < Clock.MAX {
      Clock.HelloFreshIff(skew, seconds, calls[i].now);
      var now := if Clock.FarAhead(at, calls[i].now) then at else calls[i].now + skew + 1;
      Clock.HelloFreshIff(skew, seconds, now);
      ForgottenIsAccepted(skew, calls, i, now);
      assert AcceptedAgain(skew, calls, nonce, seconds, now);
    }
  }

  lemma AgainIsLater(skew: Clock.int64, calls: seq<Call>, i: nat, seconds: Clock.int64, now: int)
    requires skew > 0 && i < |calls| && Accepted(skew, calls, i)
    requires AcceptedAgain(skew, calls, calls[i].nonce, seconds, now)
    ensures Clock.UnixTime(seconds) > calls[i].now && skew < Clock.MAX
  {
    var more := calls + [Call(calls[i].nonce, now)];
    assert more[..|calls|] == calls;
    AcceptedOfPrefix(skew, more, |calls|, i);
    AcceptancesAreApart(skew, more, i, |calls|);
    Clock.HelloFreshIff(skew, seconds, now);
  }

  /** More than the skew after an acceptance, and with no other since, its nonce is accepted again. */
  lemma ForgottenIsAccepted(skew: Clock.int64, calls: seq<Call>, i: nat, now: int)
    requires 0 < skew < Clock.MAX && Chronological(calls) && i < |calls| && Accepted(skew, calls, i)
    requires now > calls[i].now + skew && forall k :: i < k < |calls| ==> calls[k].now <= calls[i].now + skew
    ensures var more := calls + [Call(calls[i].nonce, now)]; Chronological(more) && Accepted(skew, more, |calls|)
  {
    var n, more := |calls|, calls + [Call(calls[i].nonce, now)];
    assert more[..n] == calls;
    assert forall k :: 0 <= k <= i ==> calls[k].now <= calls[i].now;
    assert Chronological(more);
    AcceptedOfPrefix(skew, more, n, i);
    VerdictFollowsLog(skew, more, n);
    forall k | 0 <= k < n
      ensures !Live(skew, more, k, calls[i].nonce, now)
    {
      if k > i && Accepted(skew, more, k) && more[k].nonce == calls[i].nonce {
        AcceptancesAreApart(skew, more, i, k);
      }
    }
  }

  // ----- Hellos from the far future --------------------------------------------------------------------

  /** One hello presented n times, each time as soon as the cache has forgotten it. */
  function Replays(nonce: Nonce, start: int, skew: Clock.int64, n: nat): (calls: seq<Call>)
    ensures |calls| == n
  {
    if n == 0 then [] else Replays(nonce, start, skew, n - 1) + [Call(nonce, start + (n - 1) * (skew + 1))]
  }

  lemma {:induction false} ReplayAt(nonce: Nonce, start: int, skew: Clock.int64, n: nat, k: nat)
    requires k < n
    ensures Replays(nonce, start, skew, n)[k] == Call(nonce, start + k * (skew + 1))
  {
    if k < n - 1 {
      ReplayAt(nonce, start, skew, n - 1, k);
    }
  }

  lemma {:induction false} StepsApart(step: int, j: nat, k: nat)
    requires step > 0 && j < k
    ensures k * step >= j * step + step
  {
    assert k * step == (k - 1) * step + step;
    if j < k - 1 {
      StepsApart(step, j, k - 1);
    }
  }

  lemma ReplaysApart(start: int, skew: Clock.int64, j: nat, k: nat)
    requires skew > 0 && j < k
    ensures start + k * (skew + 1) - (start + j * (skew + 1)) >= skew + 1
  {
    StepsApart(skew + 1, j, k);
  }

  /** A hello stamped at least 2^63 nanoseconds ahead is fresh and accepted every time the cache has forgotten
      it, as often as that leaves it so far ahead. */
  lemma FarHelloIsAcceptedEveryTime(skew: Clock.int64, nonce: Nonce, start: int, seconds: Clock.int64, n: nat)
    requires 0 < skew < Clock.MAX && Clock.FarAhead(Clock.UnixTime(seconds), start + n * (skew + 1))
    ensures var calls := Replays(nonce, start, skew, n);
      && Chronological(calls)
      && forall k: nat :: k < n ==> Accepted(skew, calls, k) && Clock.HelloFresh(skew, seconds, calls[k].now)
  {
    var calls := Replays(nonce, start, skew, n);
    forall j: nat, k: nat | j < k < n
      ensures calls[j].now + skew < calls[k].now && calls[j].nonce == calls[k].nonce == nonce
    {
      ReplayAt(nonce, start, skew, n, j);
      ReplayAt(nonce, start, skew, n, k);
      ReplaysApart(start, skew, j, k);
    }
    assert Chronological(calls);
    forall k: nat | k < n
      ensures Accepted(skew, calls, k) && Clock.HelloFresh(skew, seconds, calls[k].now)
    {
      VerdictFollowsLog(skew, calls, k);
      ReplayAt(nonce, start, skew, n, k);
      ReplaysApart(start, skew, k, n);
      Clock.HelloFreshIff(skew, seconds, calls[k].now);
    }
  }
}
