// What the carrier and DPI engines share: evidence kept per network context and per name.
module Memory {
  import opened Bytes
  import opened Text

  // ----- Context keys ------------------------------------------------------------------------

  const BAR: byte := 124

  /** A source-text literal as bytes. */
  function Ascii(s: string): text {
    seq(|s|, i requires 0 <= i < |s| => if s[i] < 128 as char then s[i] as int else 63)
  }

  /** strings.ToLower(strings.TrimSpace(part)), with the default for an empty part. */
  function Normal(part: text, default: text): text {
    var n := Lower(Trim(part));
    if n == [] then default else n
  }

  predicate IsNormal(t: text) {
    t != [] && t[0] !in WHITE && t[|t| - 1] !in WHITE && forall c :: c in t ==> LowerByte(c) == c
  }

  /** Trimmed lower-case text is left as it is. */
  lemma NormalKeeps(t: text, default: text)
    requires IsNormal(t)
    ensures Normal(t, default) == t
  {
    TrimKeeps(t);
    assert forall i :: 0 <= i < |t| ==> t[i] in t;
    assert Lower(t) == t;
  }

  /** The same text but for the case of its letters. */
  predicate SameLetters(t: text, lower: text) {
    && |t| == |lower|
    && forall i :: 0 <= i < |t| ==> lower[i] == if 65 <= t[i] <= 90 then t[i] + 32 else t[i]
  }

  /** `t` spells `core` in any case, with any white space around it. */
  ghost predicate Spells(t: text, core: text) {
    exists lead: text, middle: text, tail: text ::
      t == lead + (middle + tail) && AllSpace(lead) && AllSpace(tail) && InkAtEnds(middle) && SameLetters(middle, core)
  }

  /** However a part is spelled, it counts as its lower-case core; a blank one as the default. */
  lemma NormalOfSpelled(t: text, core: text, default: text)
    requires Spells(t, core)
    ensures Lower(Trim(t)) == core && Normal(t, default) == if core == [] then default else core
  {
    var lead: text, middle: text, tail: text :|
      t == lead + (middle + tail) && AllSpace(lead) && AllSpace(tail) && InkAtEnds(middle) && SameLetters(middle, core);
    TrimIs(lead, middle, tail);
    assert Lower(middle) == core;
  }

  lemma NormalBoth(a: text, b: text)
    requires IsNormal(a) && IsNormal(b)
    ensures IsNormal(a + [BAR] + b)
  {
    var t := a + [BAR] + b;
    assert t[0] == a[0] && t[|t| - 1] == b[|b| - 1];
  }

  /** strings.Join(parts, "|"). */
  function Join(parts: seq<text>): text {
    if parts == [] then []
    else if |parts| == 1 then parts[0]
    else parts[0] + [BAR] + Join(parts[1..])
  }

  predicate NoBars(parts: seq<text>) {
    forall i :: 0 <= i < |parts| ==> BAR !in parts[i]
  }

  lemma CutAtBar(a: text, b: text, x: text, y: text)
    requires BAR !in a && BAR !in b && a + [BAR] + x == b + [BAR] + y
    ensures a == b && x == y
  {
    var s := a + [BAR] + x;
    assert s[..|a|] == a && s[..|b|] == b;
    IndexIs(s, BAR, |a|);
    IndexIs(s, BAR, |b|);
    assert x == s[|a| + 1..] && y == s[|b| + 1..];
  }

  /** Keys of as many parts without '|' are equal only when the parts are. */
  lemma {:induction false} JoinIsInjective(a: seq<text>, b: seq<text>)
    requires |a| == |b| && NoBars(a) && NoBars(b) && Join(a) == Join(b)
    ensures a == b
  {
    if |a| == 1 {
      assert a == [a[0]] && b == [b[0]];
    } else if |a| > 1 {
      CutAtBar(a[0], b[0], Join(a[1..]), Join(b[1..]));
      JoinIsInjective(a[1..], b[1..]);
      assert a == [a[0]] + a[1..] && b == [b[0]] + b[1..];
    }
  }

  /** The parts of a text between its bars. */
  function Pieces(t: text): (r: seq<text>)
    ensures |r| == Bars(t) + 1
  {
    if t == [] then [[]] else Prepend(t[0], Pieces(t[1..]))
  }

  function Prepend(c: byte, r: seq<text>): (s: seq<text>)
    requires r != []
    ensures |s| == |r| + if c == BAR then 1 else 0
  {
    if c == BAR then [[]] + r else [[c] + r[0]] + r[1..]
  }

  lemma PrependOne(c: byte, r: seq<text>, more: seq<text>)
    requires r != []
    ensures Prepend(c, r + more) == Prepend(c, r) + more
  {
  }

  function Bars(t: text): nat {
    if t == [] then 0 else Bars(t[1..]) + if t[0] == BAR then 1 else 0
  }

  function AllPieces(parts: seq<text>): seq<text> {
    if parts == [] then [] else Pieces(parts[0]) + AllPieces(parts[1..])
  }

  lemma {:induction false} JoinOfPieces(t: text)
    ensures Join(Pieces(t)) == t
  {
    if t != [] {
      var r := Pieces(t[1..]);
      JoinOfPieces(t[1..]);
      assert t == [t[0]] + t[1..];
      JoinOfPrepended(t[0], r);
    }
  }

  lemma JoinOfPrepended(c: byte, r: seq<text>)
    requires r != []
    ensures Join(Prepend(c, r)) == [c] + Join(r)
  {
    var s := Prepend(c, r);
    if c == BAR {
      assert s[1..] == r;
    } else {
      assert s[1..] == r[1..];
    }
  }

  lemma {:induction false} PiecesOfBoth(a: text, b: text)
    ensures Pieces(a + [BAR] + b) == Pieces(a) + Pieces(b)
  {
    var s := a + [BAR] + b;
    if a == [] {
      assert s[0] == BAR && s[1..] == b;
    } else {
      var r := Pieces(a[1..]);
      PiecesOfBoth(a[1..], b);
      assert s[0] == a[0] && s[1..] == a[1..] + [BAR] + b;
      PrependOne(a[0], r, Pieces(b));
    }
  }

  lemma {:induction false} PiecesOfJoin(parts: seq<text>)
    requires parts != []
    ensures Pieces(Join(parts)) == AllPieces(parts)
  {
    if |parts| == 1 {
      assert AllPieces(parts[1..]) == [] && Pieces(parts[0]) + [] == Pieces(parts[0]);
    } else {
      PiecesOfBoth(parts[0], Join(parts[1..]));
      PiecesOfJoin(parts[1..]);
    }
  }

  /** Keys are equal exactly when the parts, cut at their bars, give the same pieces in a row. */
  lemma JoinsAgreeIff(p: seq<text>, q: seq<text>)
    requires p != [] && q != []
    ensures Join(p) == Join(q) <==> AllPieces(p) == AllPieces(q)
  {
    PiecesOfJoin(p);
    PiecesOfJoin(q);
    JoinOfPieces(Join(p));
    JoinOfPieces(Join(q));
  }

  predicate SameBars(p: seq<text>, q: seq<text>) {
    |p| == |q| && forall i :: 0 <= i < |p| ==> Bars(p[i]) == Bars(q[i])
  }

  /** The pieces and the number of bars in each part determine the parts. */
  lemma {:induction false} PartsFromPieces(p: seq<text>, q: seq<text>)
    requires SameBars(p, q) && AllPieces(p) == AllPieces(q)
    ensures p == q
  {
    if p != [] {
      var n := Bars(p[0]) + 1;
      assert AllPieces(p)[..n] == Pieces(p[0]) && AllPieces(q)[..n] == Pieces(q[0]);
      assert AllPieces(p)[n..] == AllPieces(p[1..]) && AllPieces(q)[n..] == AllPieces(q[1..]);
      JoinOfPieces(p[0]);
      JoinOfPieces(q[0]);
      PartsFromPieces(p[1..], q[1..]);
      assert p == [p[0]] + p[1..] && q == [q[0]] + q[1..];
    }
  }

  /** Parts agree exactly when their keys do and each holds as many bars as the other's. */
  lemma PartsAgreeIff(p: seq<text>, q: seq<text>)
    requires p != [] && q != []
    ensures p == q <==> Join(p) == Join(q) && SameBars(p, q)
  {
    JoinsAgreeIff(p, q);
    if Join(p) == Join(q) && SameBars(p, q) {
      PartsFromPieces(p, q);
    }
  }

  function TotalBars(parts: seq<text>): nat {
    if parts == [] then 0 else Bars(parts[0]) + TotalBars(parts[1..])
  }

  lemma {:induction false} PiecesCount(parts: seq<text>)
    ensures |AllPieces(parts)| == TotalBars(parts) + |parts|
  {
    if parts != [] {
      PiecesCount(parts[1..]);
    }
  }

  lemma {:induction false} PlainHasNoBars(t: text)
    ensures Bars(t) == 0 <==> BAR !in t
  {
    if t != [] {
      PlainHasNoBars(t[1..]);
      assert t == [t[0]] + t[1..];
    }
  }

  lemma {:induction false} TotalOfOthers(p: seq<text>, q: seq<text>, j: nat)
    requires |p| == |q| && j < |p| && TotalBars(p) == TotalBars(q)
    requires forall i :: 0 <= i < |p| && i != j ==> Bars(p[i]) == Bars(q[i])
    ensures Bars(p[j]) == Bars(q[j])
  {
    if j == 0 {
      SameTotals(p[1..], q[1..]);
    } else {
      TotalOfOthers(p[1..], q[1..], j - 1);
    }
  }

  lemma {:induction false} SameTotals(p: seq<text>, q: seq<text>)
    requires SameBars(p, q)
    ensures TotalBars(p) == TotalBars(q)
  {
    if p != [] {
      SameTotals(p[1..], q[1..]);
    }
  }

  /** So with one part that may hold any bars, and the others holding as many as each other, keys
      separate. */
  lemma OneFreePart(p: seq<text>, q: seq<text>, j: nat)
    requires |p| == |q| && j < |p|
    requires forall i :: 0 <= i < |p| && i != j ==> Bars(p[i]) == Bars(q[i])
    ensures Join(p) == Join(q) <==> p == q
  {
    PartsAgreeIff(p, q);
    JoinsAgreeIff(p, q);
    PiecesCount(p);
    PiecesCount(q);
    if Join(p) == Join(q) {
      TotalOfOthers(p, q, j);
    }
  }

  lemma CutAtLastBar(a: text, b: text, x: text, y: text)
    requires BAR !in a && BAR !in b && x + [BAR] + a == y + [BAR] + b
    ensures a == b && x == y
  {
    LastBar(x, a);
    LastBar(y, b);
    var s := x + [BAR] + a;
    assert a == s[|x| + 1..] && x == s[..|x|];
    assert b == (y + [BAR] + b)[|y| + 1..] && y == (y + [BAR] + b)[..|y|];
  }

  lemma LastBar(x: text, a: text)
    requires BAR !in a
    ensures LastIndexOf(x + [BAR] + a, BAR) == |x|
  {
    assert (x + [BAR] + a)[|x| + 1..] == a;
    LastIndexIs(x + [BAR] + a, BAR, |x|);
  }

  /** n and d read as m and e when a bar in m is taken for the one between the parts. */
  predicate Overlaps(n: text, d: text, m: text, e: text) {
    |n| < |m| && m[|n|] == BAR && n == m[..|n|] && d == m[|n| + 1..] + [BAR] + e
  }

  /** Two pairs join to the same text exactly when they are equal or one overlaps the other. */
  lemma JoinedPairs(n: text, d: text, m: text, e: text)
    ensures n + [BAR] + d == m + [BAR] + e <==> (n == m && d == e) || Overlaps(n, d, m, e) || Overlaps(m, e, n, d)
  {
    if n + [BAR] + d == m + [BAR] + e {
      if |n| < |m| {
        LongerHead(n, d, m, e);
      } else if |n| > |m| {
        LongerHead(m, e, n, d);
      } else {
        var s := n + [BAR] + d;
        assert s[..|n|] == n == m && s[|n| + 1..] == d == e;
      }
    }
    if Overlaps(n, d, m, e) {
      assert m == n + [BAR] + m[|n| + 1..];
    }
    if Overlaps(m, e, n, d) {
      assert n == m + [BAR] + n[|m| + 1..];
    }
  }

  lemma LongerHead(n: text, d: text, m: text, e: text)
    requires n + [BAR] + d == m + [BAR] + e && |n| < |m|
    ensures Overlaps(n, d, m, e)
  {
    var s := n + [BAR] + d;
    assert s[..|m|] == m && s[..|n|] == n && s[|n|] == BAR;
    assert d == s[|n| + 1..] == m[|n| + 1..] + [BAR] + e;
  }

  const A_BAR_B: text := [97, 124, 98]
  const B_BAR_C: text := [98, 124, 99]

  /** "a|b" before "c" and "a" before "b|c". */
  lemma BarsOverlap()
    ensures Overlaps([97], B_BAR_C, A_BAR_B, [99])
    ensures forall default: text ::
      && Normal(A_BAR_B, default) == A_BAR_B && Normal(B_BAR_C, default) == B_BAR_C
      && Normal([97], default) == [97] && Normal([99], default) == [99]
  {
    assert A_BAR_B[..1] == [97] && A_BAR_B[2..] == [98];
    forall default: text
      ensures Normal(A_BAR_B, default) == A_BAR_B && Normal(B_BAR_C, default) == B_BAR_C
      ensures Normal([97], default) == [97] && Normal([99], default) == [99]
    {
      NormalKeeps(A_BAR_B, default);
      NormalKeeps(B_BAR_C, default);
      NormalKeeps([97], default);
      NormalKeeps([99], default);
    }
  }

  // ----- Evidence per context and name -----------------------------------------------------------

  type Entries<S> = map<text, map<text, S>>

  function At<S>(entries: Entries<S>, key: text, name: text): Option<S> {
    if key in entries && name in entries[key] then Some(entries[key][name]) else None
  }

  function Put<S>(entries: Entries<S>, key: text, name: text, stats: S): Entries<S> {
    entries[key := (if key in entries then entries[key] else map[])[name := stats]]
  }

  lemma PutAt<S>(entries: Entries<S>, key: text, name: text, stats: S, k: text, n: text)
    ensures At(Put(entries, key, name, stats), k, n)
      == if k == key && n == name then Some(stats) else At(entries, k, n)
  {
  }

  /** One observation of a name in a context. */
  datatype Observed<O> = Observed(key: text, name: text, event: O)

  function Remember<S, O>(update: (Option<S>, O) -> S, entries: Entries<S>, o: Observed<O>): Entries<S> {
    Put(entries, o.key, o.name, update(At(entries, o.key, o.name), o.event))
  }

  /** The memory after a log of observations. */
  function MemoryOf<S, O>(update: (Option<S>, O) -> S, log: seq<Observed<O>>): Entries<S> {
    if log == [] then map[]
    else Remember(update, MemoryOf(update, log[..|log| - 1]), log[|log| - 1])
  }

  /** The events of one name in one context, in order. */
  function Matching<O>(log: seq<Observed<O>>, key: text, name: text): seq<O> {
    if log == [] then []
    else
      var last := log[|log| - 1];
      Matching(log[..|log| - 1], key, name) + if last.key == key && last.name == name then [last.event] else []
  }

  function Fold<S, O>(update: (Option<S>, O) -> S, events: seq<O>): Option<S> {
    if events == [] then None
    else Some(update(Fold(update, events[..|events| - 1]), events[|events| - 1]))
  }

  /** What is remembered of a name in a context is the fold of exactly its own observations there. */
  lemma {:induction false} MemoryIsFoldOfOwnLog<S, O>(update: (Option<S>, O) -> S, log: seq<Observed<O>>, key: text,
                                                      name: text)
    ensures At(MemoryOf(update, log), key, name) == Fold(update, Matching(log, key, name))
  {
    if log != [] {
      var before, last := log[..|log| - 1], log[|log| - 1];
      MemoryIsFoldOfOwnLog(update, before, key, name);
      var entries := MemoryOf(update, before);
      PutAt(entries, last.key, last.name, update(At(entries, last.key, last.name), last.event), key, name);
      var own := Matching(before, key, name);
      if last.key == key && last.name == name {
        assert (own + [last.event])[..|own|] == own;
      } else {
        assert own + [] == own;
      }
    }
  }

  // ----- Success counting --------------------------------------------------------------------------

  function Successes(outcomes: seq<bool>): nat {
    if outcomes == [] then 0
    else Successes(outcomes[..|outcomes| - 1]) + if outcomes[|outcomes| - 1] then 1 else 0
  }

  /** Failures since the last success. */
  function TrailingFailures(outcomes: seq<bool>): nat {
    if outcomes == [] || outcomes[|outcomes| - 1] then 0
    else 1 + TrailingFailures(outcomes[..|outcomes| - 1])
  }

  lemma {:induction false} SuccessesAre(outcomes: seq<bool>)
    ensures Successes(outcomes) == multiset(outcomes)[true] <= |outcomes|
  {
    if outcomes != [] {
      var n := |outcomes| - 1;
      SuccessesAre(outcomes[..n]);
      assert outcomes == outcomes[..n] + [outcomes[n]];
    }
  }

  /** The failures since the last success. */
  lemma {:induction false} TrailingFailuresAre(outcomes: seq<bool>)
    ensures var n := TrailingFailures(outcomes);
      && n <= |outcomes| && (n < |outcomes| ==> outcomes[|outcomes| - 1 - n])
      && forall k :: |outcomes| - n <= k < |outcomes| ==> !outcomes[k]
  {
    if outcomes != [] {
      TrailingFailuresAre(outcomes[..|outcomes| - 1]);
    }
  }

  lemma {:induction false} AllTrue(results: seq<bool>)
    requires forall k :: 0 <= k < |results| ==> results[k]
    ensures Successes(results) == |results| && TrailingFailures(results) == 0
  {
    if results != [] {
      AllTrue(results[..|results| - 1]);
    }
  }

  lemma {:induction false} AllFalse(results: seq<bool>)
    requires forall k :: 0 <= k < |results| ==> !results[k]
    ensures Successes(results) == 0 && TrailingFailures(results) == |results|
  {
    if results != [] {
      AllFalse(results[..|results| - 1]);
    }
  }
}
