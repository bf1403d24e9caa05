// pkg/dpi/writer.go and conn.go: writing the first payload in fragments.
module SplitWriter {
  import opened Bytes
  import opened Memory
  import opened Text
  import Dpi

  // ----- A writer that may write partially ------------------------------------------------------------

  /** What one Write call reports. */
  datatype Answer = Answer(n: int, failed: bool)

  function Accepted(n: int, size: nat): (k: nat)
    ensures k <= size
  {
    if n <= 0 then 0 else if n > size then size else n
  }

  /** `answers` are the reports still to come; after them every write succeeds in full. `writes` are
      the bytes each call took. */
  class Wire {
    var answers: seq<Answer>
    var writes: seq<seq<byte>>

    constructor (answers: seq<Answer>)
      ensures this.answers == answers && writes == []
    {
      this.answers, writes := answers, [];
    }

    function Sent(): seq<byte>
      reads this
    {
      Flatten(writes)
    }

    method Write(p: seq<byte>) returns (n: int, failed: bool)
      modifies this
      ensures old(answers) == [] ==> n == |p| && !failed && answers == []
      ensures old(answers) != [] ==> Answer(n, failed) == old(answers[0]) && answers == old(answers[1..])
      ensures writes == old(writes) + [p[..Accepted(n, |p|)]]
      ensures Sent() == old(Sent()) + p[..Accepted(n, |p|)]
    {
      if answers == [] {
        n, failed := |p|, false;
      } else {
        n, failed := answers[0].n, answers[0].failed;
        answers := answers[1..];
      }
      FlattenSnoc(writes, p[..Accepted(n, |p|)]);
      writes := writes + [p[..Accepted(n, |p|)]];
    }
  }

  // ----- Split points ------------------------------------------------------------------------------------

  predicate Sorted(s: seq<int>) {
    forall i, j :: 0 <= i < j < |s| ==> s[i] <= s[j]
  }

  predicate Increasing(s: seq<int>) {
    forall i, j :: 0 <= i < j < |s| ==> s[i] < s[j]
  }

  /** sort.Ints. */
  function SortInts(s: seq<int>): seq<int> {
    if s == [] then [] else InsertInt(s[0], SortInts(s[1..]))
  }

  function InsertInt(x: int, s: seq<int>): seq<int> {
    if s == [] || x <= s[0] then [x] + s else [s[0]] + InsertInt(x, s[1..])
  }

  lemma {:induction false} InsertSorted(x: int, s: seq<int>)
    requires Sorted(s)
    ensures Sorted(InsertInt(x, s)) && forall y :: y in InsertInt(x, s) <==> y == x || y in s
  {
    if s != [] && x > s[0] {
      InsertSorted(x, s[1..]);
      assert s == [s[0]] + s[1..];
      var rest := InsertInt(x, s[1..]);
      forall k | 0 <= k < |rest|
        ensures s[0] <= rest[k]
      {
        assert rest[k] in rest;
      }
    }
  }

  lemma {:induction false} SortSorts(s: seq<int>)
    ensures Sorted(SortInts(s)) && forall y :: y in SortInts(s) <==> y in s
  {
    if s != [] {
      SortSorts(s[1..]);
      InsertSorted(s[0], SortInts(s[1..]));
      assert s == [s[0]] + s[1..];
    }
  }

  /** The in-range points, each once, in order. */
  ghost predicate SplitsOf(out: seq<int>, points: seq<int>, size: nat) {
    && Increasing(out)
    && forall p :: p in out <==> p in points && 0 < p < size
  }

  /** Sorted points without repetitions and without those out of range. */
  function Distinct(sorted: seq<int>, size: nat): seq<int> {
    if sorted == [] then []
    else
      var before, p := Distinct(sorted[..|sorted| - 1], size), sorted[|sorted| - 1];
      if p <= 0 || p >= size || (before != [] && before[|before| - 1] == p) then before else before + [p]
  }

  lemma {:induction false} DistinctIsSplits(sorted: seq<int>, size: nat)
    requires Sorted(sorted)
    ensures SplitsOf(Distinct(sorted, size), sorted, size)
  {
    if sorted != [] {
      var n := |sorted| - 1;
      DistinctIsSplits(sorted[..n], size);
      assert sorted == sorted[..n] + [sorted[n]];
      var before := Distinct(sorted[..n], size);
      if before == [] || before[|before| - 1] != sorted[n] {
        LastIsBelow(before, sorted, n);
      }
    }
  }

  /** normalizedSplitPoints. */
  function Splits(points: seq<int>, size: nat): seq<int> {
    Distinct(SortInts(points), size)
  }

  lemma SplitsAreSplits(points: seq<int>, size: nat)
    ensures SplitsOf(Splits(points, size), points, size) && InOrder(0, Splits(points, size), size)
  {
    SortSorts(points);
    DistinctIsSplits(SortInts(points), size);
    var out := Splits(points, size);
    assert forall i :: 0 <= i < |out| ==> out[i] in out;
  }

  method NormalizedSplitPoints(points: seq<int>, size: nat) returns (out: seq<int>)
    ensures out == Splits(points, size) && SplitsOf(out, points, size)
  {
    SplitsAreSplits(points, size);
    out := [];
    if |points| == 0 {
      return;
    }
    var sorted := SortInts(points);
    var last := -1;
    for i := 0 to |sorted|
      invariant out == Distinct(sorted[..i], size)
      invariant last == if out == [] then -1 else out[|out| - 1]
    {
      var p := sorted[i];
      assert sorted[..i + 1][..i] == sorted[..i];
      if p <= 0 || p >= size || p == last {
        continue;
      }
      out := out + [p];
      last := p;
    }
    assert sorted[..|sorted|] == sorted;
  }

  lemma LastIsBelow(out: seq<int>, sorted: seq<int>, i: nat)
    requires Sorted(sorted) && i < |sorted| && Increasing(out) && forall p :: p in out ==> p in sorted[..i]
    requires out == [] || sorted[i] != out[|out| - 1]
    ensures Increasing(out + [sorted[i]])
  {
    if out != [] {
      assert out[|out| - 1] in out;
    }
  }

  /** The increasing list of a set of points is unique. */
  lemma {:induction false} SplitsAreUnique(a: seq<int>, b: seq<int>)
    requires Increasing(a) && Increasing(b) && forall p :: p in a <==> p in b
    ensures a == b
  {
    if a == [] {
      assert forall i :: 0 <= i < |b| ==> b[i] in b;
    } else {
      assert a[0] in b && b != [] && b[0] in a;
      assert a == [a[0]] + a[1..] && b == [b[0]] + b[1..];
      assert a[0] == b[0];
      forall p
        ensures p in a[1..] <==> p in b[1..]
      {
        assert p in a[1..] <==> p in a && p != a[0];
        assert p in b[1..] <==> p in b && p != b[0];
      }
      SplitsAreUnique(a[1..], b[1..]);
    }
  }

  // ----- Writing ------------------------------------------------------------------------------------------

  datatype Error = NilWriter | EmptyPayload | InvalidStrategy | RequiresPacketControl | ShortWrite | WriteFailed

  /** What becomes of some bytes: how many are taken, the answers left, and the error. */
  datatype Delivery = Delivery(taken: nat, left: seq<Answer>, err: Option<Error>)

  /** writeAll of `size` bytes. */
  function Deliver(answers: seq<Answer>, size: nat): (d: Delivery)
    ensures d.taken <= size && (d.err == None ==> d.taken == size)
    ensures d.err == None || d.err == Some(ShortWrite) || d.err == Some(WriteFailed)
    decreases size
  {
    if size == 0 then Delivery(0, answers, None)
    else if answers == [] then Delivery(size, [], None)
    else
      var a := answers[0];
      if a.failed then Delivery(Accepted(a.n, size), answers[1..], Some(WriteFailed))
      else if a.n <= 0 || a.n > size then Delivery(Accepted(a.n, size), answers[1..], Some(ShortWrite))
      else
        var d := Deliver(answers[1..], size - a.n);
        d.(taken := a.n + d.taken)
  }

  method WriteAll(w: Wire, data: seq<byte>) returns (err: Option<Error>)
    modifies w
    ensures var d := Deliver(old(w.answers), |data|);
      err == d.err && w.answers == d.left && w.Sent() == old(w.Sent()) + data[..d.taken]
    ensures old(w.answers) == [] && data != [] ==> w.writes == old(w.writes) + [data]
  {
    var rest := data;
    ghost var k := 0;
    ghost var all := Deliver(w.answers, |data|);
    assert data[..0] == [];
    while |rest| > 0
      invariant 0 <= k <= |data| && rest == data[k..]
      invariant w.Sent() == old(w.Sent()) + data[..k]
      invariant var d := Deliver(w.answers, |rest|); all == d.(taken := k + d.taken)
      invariant old(w.answers) == [] ==> w.answers == [] && (k == 0 || k == |data|)
      invariant old(w.answers) == [] ==> w.writes == if k == 0 then old(w.writes) else old(w.writes) + [data]
    {
      var n, failed := w.Write(rest);
      ghost var taken := Accepted(n, |rest|);
      assert data[..k] + rest[..taken] == data[..k + taken];
      Assoc(old(w.Sent()), data[..k], rest[..taken]);
      assert rest[..|rest|] == rest && data[0..] == data;
      k := k + taken;
      if failed {
        return Some(WriteFailed);
      }
      if n <= 0 || n > |rest| {
        return Some(ShortWrite);
      }
      rest := rest[n..];
    }
    err := None;
  }

  /** One fragment after the other, up to the first error. */
  function DeliverAll(answers: seq<Answer>, fragments: seq<seq<byte>>): (d: Delivery)
    ensures d.taken <= |Flatten(fragments)| && (d.err == None ==> d.taken == |Flatten(fragments)|)
    ensures d.err == None || d.err == Some(ShortWrite) || d.err == Some(WriteFailed)
    decreases |fragments|
  {
    if fragments == [] then Delivery(0, answers, None)
    else
      var d := Deliver(answers, |fragments[0]|);
      if d.err.Some? then d
      else
        var e := DeliverAll(d.left, fragments[1..]);
        e.(taken := d.taken + e.taken)
  }

  lemma {:induction false} FullDelivery(fragments: seq<seq<byte>>)
    ensures DeliverAll([], fragments) == Delivery(|Flatten(fragments)|, [], None)
    decreases |fragments|
  {
    if fragments != [] {
      FullDelivery(fragments[1..]);
    }
  }

  predicate OnlyDirect(techniques: seq<Dpi.Technique>) {
    |techniques| == 1 && techniques[0] == Dpi.TechDirect
  }

  /** Cut points after `start`. */
  predicate InOrder(start: nat, ends: seq<int>, size: nat) {
    Increasing(ends) && forall i :: 0 <= i < |ends| ==> start < ends[i] < size
  }

  lemma TailInOrder(start: nat, ends: seq<int>, size: nat)
    requires InOrder(start, ends, size) && ends != []
    ensures start < ends[0] < size && InOrder(ends[0], ends[1..], size)
  {
  }

  /** The fragments that end at `ends` and at the end of the payload, from `start` on. */
  function Fragments(payload: seq<byte>, start: nat, ends: seq<int>): (r: seq<seq<byte>>)
    requires start <= |payload| && InOrder(start, ends, |payload|)
    ensures r != []
    decreases |ends|
  {
    if ends == [] then [payload[start..]]
    else
      TailInOrder(start, ends, |payload|);
      [payload[start..ends[0]]] + Fragments(payload, ends[0], ends[1..])
  }

  /** The offsets between fragments. */
  function Boundaries(fragments: seq<seq<byte>>, base: nat): set<int> {
    if |fragments| <= 1 then {} else {base + |fragments[0]|} + Boundaries(fragments[1..], base + |fragments[0]|)
  }

  /** Fragments are not empty, join to the payload, and are cut at `cuts` and nowhere else. */
  ghost predicate CutsAt(fragments: seq<seq<byte>>, payload: seq<byte>, base: nat, cuts: seq<int>) {
    && Flatten(fragments) == payload
    && (forall f :: f in fragments ==> f != [])
    && forall p :: p in Boundaries(fragments, base) <==> p in cuts
  }

  lemma {:induction false} FragmentsCut(payload: seq<byte>, start: nat, ends: seq<int>)
    requires start < |payload| && InOrder(start, ends, |payload|)
    ensures CutsAt(Fragments(payload, start, ends), payload[start..], start, ends)
    decreases |ends|
  {
    var fragments := Fragments(payload, start, ends);
    if ends == [] {
      assert Flatten(fragments) == payload[start..] + Flatten([]);
    } else {
      TailInOrder(start, ends, |payload|);
      var rest := Fragments(payload, ends[0], ends[1..]);
      FragmentsCut(payload, ends[0], ends[1..]);
      assert ends == [ends[0]] + ends[1..];
      assert fragments[1..] == rest;
      assert payload[start..] == payload[start..ends[0]] + payload[ends[0]..];
    }
  }

  /** Why ApplyWriter writes nothing at all. */
  function Refusal(noWriter: bool, payload: seq<byte>, strategy: Dpi.Strategy): Option<Error> {
    if noWriter then Some(NilWriter)
    else if payload == [] then Some(EmptyPayload)
    else if !strategy.Valid() then Some(InvalidStrategy)
    else if strategy.requiresPacketControl then Some(RequiresPacketControl)
    else None
  }

  /** A payload goes out at all exactly when it is there, its strategy has a name, a technique, no negative cost or
      delay and only positive split points, and needs no control over packets. */
  lemma RefusedIff(payload: seq<byte>, strategy: Dpi.Strategy)
    ensures Refusal(false, payload, strategy) == None <==>
      && payload != [] && !AllSpace(strategy.name) && strategy.techniques != []
      && strategy.cost >= 0.0 && strategy.delay >= 0 && !strategy.requiresPacketControl
      && forall p :: p in strategy.splitPoints ==> p >= 1
  {
    BlankIff(strategy.name);
  }

  /** Where the strategy cuts this payload. */
  function CutPoints(payload: seq<byte>, strategy: Dpi.Strategy): set<int> {
    if strategy.techniques == [Dpi.TechDirect] then {} else set p | p in strategy.splitPoints && 0 < p < |payload|
  }

  /** The fragments ApplyWriter writes. */
  function Fragmented(payload: seq<byte>, strategy: Dpi.Strategy): (r: seq<seq<byte>>)
    ensures r != []
  {
    SplitsAreSplits(strategy.splitPoints, |payload|);
    Fragments(payload, 0, if OnlyDirect(strategy.techniques) then [] else Splits(strategy.splitPoints, |payload|))
  }

  /** They make up the payload, none is empty, and they meet at the distinct in-range split points. */
  lemma FragmentedCuts(payload: seq<byte>, strategy: Dpi.Strategy)
    requires payload != []
    ensures var fragments := Fragmented(payload, strategy);
      && Flatten(fragments) == payload && (forall f :: f in fragments ==> f != [])
      && Boundaries(fragments, 0) == CutPoints(payload, strategy)
  {
    SplitsAreSplits(strategy.splitPoints, |payload|);
    var cuts := if OnlyDirect(strategy.techniques) then [] else Splits(strategy.splitPoints, |payload|);
    FragmentsCut(payload, 0, cuts);
    assert payload[0..] == payload;
  }

  /** A refused payload leaves the writer alone; any other goes out in fragments as far as the writer's
      answers allow, and in full exactly when there is no error. */
  method ApplyWriter(w: Wire?, payload: seq<byte>, strategy: Dpi.Strategy) returns (err: Option<Error>)
    modifies w
    ensures Refusal(w == null, payload, strategy).Some? ==> err == Refusal(w == null, payload, strategy)
    ensures w != null && Refusal(false, payload, strategy).Some? ==> unchanged(w)
    ensures w != null && Refusal(false, payload, strategy) == None ==>
      var d := DeliverAll(old(w.answers), Fragmented(payload, strategy));
      d.taken <= |payload| && err == d.err && w.answers == d.left && w.Sent() == old(w.Sent()) + payload[..d.taken]
    ensures w != null && err == None ==> w.Sent() == old(w.Sent()) + payload
    ensures w != null && Refusal(false, payload, strategy) == None && old(w.answers) == [] ==>
      err == None && w.writes == old(w.writes) + Fragmented(payload, strategy)
  {
    if w == null {
      return Some(NilWriter);
    }
    if |payload| == 0 {
      return Some(EmptyPayload);
    }
    if !strategy.Valid() {
      return Some(InvalidStrategy);
    }
    if strategy.requiresPacketControl {
      return Some(RequiresPacketControl);
    }
    FragmentedCuts(payload, strategy);
    FullDelivery(Fragmented(payload, strategy));
    var points := NormalizedSplitPoints(strategy.splitPoints, |payload|);
    if |points| == 0 || OnlyDirect(strategy.techniques) {
      OneFragment(w.answers, payload);
      err := WriteAll(w, payload);
    } else {
      SplitsAreSplits(strategy.splitPoints, |payload|);
      err := WriteFragments(w, payload, points);
    }
    assert payload[..|payload|] == payload;
  }

  lemma OneFragment(answers: seq<Answer>, payload: seq<byte>)
    ensures Fragments(payload, 0, []) == [payload] && DeliverAll(answers, [payload]) == Deliver(answers, |payload|)
  {
    assert payload[0..] == payload && [payload][1..] == [];
  }

  /** The fragment loop. No end lies at or before the start, so none is skipped. */
  method WriteFragments(w: Wire, payload: seq<byte>, points: seq<int>) returns (err: Option<Error>)
    requires |payload| > 0 && InOrder(0, points, |payload|)
    requires Flatten(Fragments(payload, 0, points)) == payload
    modifies w
    ensures var d := DeliverAll(old(w.answers), Fragments(payload, 0, points));
      err == d.err && w.answers == d.left && w.Sent() == old(w.Sent()) + payload[..d.taken]
    ensures old(w.answers) == [] ==> w.writes == old(w.writes) + Fragments(payload, 0, points)
  {
    var start := 0;
    var ends := points + [|payload|];
    ghost var left := FirstRound(payload, points);
    ghost var goal := Goal(w.answers == [], DeliverAll(w.answers, left), w.Sent(), w.writes + left);
    assert payload[..0] == [] && w.Sent() + [] == w.Sent();
    for i := 0 to |ends|
      invariant 0 <= start <= |payload| && Round(payload, points, start, i, left)
      invariant OnCourse(goal, payload, start, left, w.answers, w.Sent(), w.writes)
    {
      err, left := WriteRound(w, payload, points, start, ends[i], i, goal, left);
      if err != None {
        return;
      }
      start := ends[i];
    }
    err := None;
  }

  /** What the whole loop should come to. */
  datatype Goal = Goal(full: bool, whole: Delivery, sent: seq<byte>, writes: seq<seq<byte>>)

  /** After `start` bytes, with these fragments left, the loop is still on its way there. */
  ghost predicate OnCourse(goal: Goal, payload: seq<byte>, start: nat, left: seq<seq<byte>>,
                           answers: seq<Answer>, sent: seq<byte>, writes: seq<seq<byte>>)
    requires start <= |payload|
  {
    && sent == goal.sent + payload[..start]
    && Resumes(goal.whole, start, DeliverAll(answers, left))
    && (goal.full ==> answers == [] && goal.writes == writes + left)
  }

  /** One round: the fragment up to `end`. */
  method WriteRound(w: Wire, payload: seq<byte>, points: seq<int>, start: nat, end: nat, ghost i: nat,
                    ghost goal: Goal, ghost left: seq<seq<byte>>)
    returns (err: Option<Error>, ghost later: seq<seq<byte>>)
    requires Round(payload, points, start, i, left) && i <= |points| && end == (points + [|payload|])[i]
    requires start <= |payload| && OnCourse(goal, payload, start, left, w.answers, w.Sent(), w.writes)
    modifies w
    ensures start < end <= |payload| && Round(payload, points, end, i + 1, later)
    ensures err == None ==> OnCourse(goal, payload, end, later, w.answers, w.Sent(), w.writes)
    ensures err.Some? ==>
      && err == goal.whole.err && w.answers == goal.whole.left && !goal.full
      && goal.whole.taken <= |payload| && w.Sent() == goal.sent + payload[..goal.whole.taken]
  {
    later := NextRound(goal.whole, payload, points, start, i, left, w.answers);
    Assoc(w.writes, [payload[start..end]], later);
    PieceSent(goal.sent, payload, start, end, Deliver(w.answers, |payload[start..end]|).taken);
    err := WriteAll(w, payload[start..end]);
  }

  /** After `taken` bytes, d is what is left of the whole delivery. */
  predicate Resumes(whole: Delivery, taken: nat, d: Delivery) {
    whole == d.(taken := taken + d.taken)
  }

  lemma DeliverNext(answers: seq<Answer>, piece: seq<byte>, left: seq<seq<byte>>)
    ensures var d := Deliver(answers, |piece|);
      if d.err.Some? then DeliverAll(answers, [piece] + left) == d
      else Resumes(DeliverAll(answers, [piece] + left), |piece|, DeliverAll(d.left, left))
  {
    assert ([piece] + left)[1..] == left;
  }

  lemma RoundDelivers(whole: Delivery, start: nat, answers: seq<Answer>, piece: seq<byte>, left: seq<seq<byte>>,
                      d: Delivery, rest: Delivery)
    requires d == Deliver(answers, |piece|) && rest == DeliverAll(d.left, left)
    requires Resumes(whole, start, DeliverAll(answers, [piece] + left))
    ensures if d.err.Some? then Resumes(whole, start, d) else Resumes(whole, start + |piece|, rest)
  {
    DeliverNext(answers, piece, left);
  }

  lemma PieceSent(sent: seq<byte>, payload: seq<byte>, start: nat, end: nat, taken: nat)
    requires start <= end <= |payload| && taken <= end - start
    ensures sent + payload[..start] + payload[start..end][..taken] == sent + payload[..start + taken]
  {
    assert payload[..start] + payload[start..end][..taken] == payload[..start + taken];
  }

  /** Before round i the fragments up to `start` are written. */
  predicate Pending(payload: seq<byte>, start: nat, points: seq<int>, i: nat) {
    if i <= |points| then start < |payload| && InOrder(start, points[i..], |payload|) else start == |payload|
  }

  function Left(payload: seq<byte>, start: nat, points: seq<int>, i: nat): seq<seq<byte>>
    requires Pending(payload, start, points, i)
  {
    if i <= |points| then Fragments(payload, start, points[i..]) else []
  }

  lemma LeftStep(payload: seq<byte>, start: nat, points: seq<int>, i: nat)
    requires Pending(payload, start, points, i) && i <= |points|
    ensures var end := (points + [|payload|])[i];
      && start < end <= |payload| && Pending(payload, end, points, i + 1)
      && Left(payload, start, points, i) == [payload[start..end]] + Left(payload, end, points, i + 1)
  {
    if i < |points| {
      TailInOrder(start, points[i..], |payload|);
      assert points[i..][1..] == points[i + 1..];
    } else {
      assert points[i..] == [] && payload[start..|payload|] == payload[start..];
    }
  }

  /** What remains to be written before round i. */
  predicate Round(payload: seq<byte>, points: seq<int>, start: nat, i: nat, left: seq<seq<byte>>) {
    Pending(payload, start, points, i) && left == Left(payload, start, points, i)
  }

  lemma FirstRound(payload: seq<byte>, points: seq<int>) returns (left: seq<seq<byte>>)
    requires |payload| > 0 && InOrder(0, points, |payload|)
    ensures left == Fragments(payload, 0, points) && Round(payload, points, 0, 0, left)
  {
    assert points[0..] == points;
    left := Fragments(payload, 0, points);
  }

  lemma NextRound(whole: Delivery, payload: seq<byte>, points: seq<int>, start: nat, i: nat, left: seq<seq<byte>>,
                  answers: seq<Answer>)
    returns (later: seq<seq<byte>>)
    requires Round(payload, points, start, i, left) && i <= |points|
    requires Resumes(whole, start, DeliverAll(answers, left))
    ensures var end := (points + [|payload|])[i];
      && start < end <= |payload| && Round(payload, points, end, i + 1, later)
      && left == [payload[start..end]] + later
      && var d := Deliver(answers, |payload[start..end]|);
         if d.err.Some? then Resumes(whole, start, d) else Resumes(whole, end, DeliverAll(d.left, later))
  {
    var end := (points + [|payload|])[i];
    LeftStep(payload, start, points, i);
    later := Left(payload, end, points, i + 1);
    var d := Deliver(answers, |payload[start..end]|);
    RoundDelivers(whole, start, answers, payload[start..end], later, d, DeliverAll(d.left, later));
  }

  // ----- FirstWriteConn --------------------------------------------------------------------------------------

  /** What a caller of Write is told. */
  datatype Told = Told(n: int, failed: bool)

  /** What the bare connection tells about one write, and what it takes. */
  function BareTold(answers: seq<Answer>, p: seq<byte>): Told {
    if answers == [] then Told(|p|, false) else Told(answers[0].n, answers[0].failed)
  }

  function BareTaken(answers: seq<Answer>, p: seq<byte>): (k: nat)
    ensures k <= |p|
  {
    Accepted(BareTold(answers, p).n, |p|)
  }

  /** What the first write through the wrapper tells, and what goes out. */
  function FirstTold(answers: seq<Answer>, p: seq<byte>, strategy: Dpi.Strategy): Told {
    if Refusal(false, p, strategy) == None && DeliverAll(answers, Fragmented(p, strategy)).err == None
    then Told(|p|, false) else Told(0, true)
  }

  function FirstTaken(answers: seq<Answer>, p: seq<byte>, strategy: Dpi.Strategy): (k: nat)
    ensures k <= |p|
  {
    if Refusal(false, p, strategy).Some? then 0
    else
      FragmentedCuts(p, strategy);
      DeliverAll(answers, Fragmented(p, strategy)).taken
  }

  class FirstWriteConn {
    const conn: Wire
    const strategy: Dpi.Strategy
    var applied: bool     // sync.Once

    constructor (conn: Wire, strategy: Dpi.Strategy)
      ensures this.conn == conn && this.strategy == strategy && !applied
    {
      this.conn, this.strategy, applied := conn, strategy, false;
    }

    /** The first write goes out in fragments and is reported in full or as a failure; every later one
        is the connection's own. Either way a beginning of p goes out, all of it on success. */
    method Write(p: seq<byte>) returns (told: Told)
      requires this as object != conn
      modifies this, conn
      ensures applied
      ensures !old(applied) ==>
        && told == FirstTold(old(conn.answers), p, strategy)
        && conn.Sent() == old(conn.Sent()) + p[..FirstTaken(old(conn.answers), p, strategy)]
      ensures old(applied) ==>
        && told == BareTold(old(conn.answers), p)
        && conn.Sent() == old(conn.Sent()) + p[..BareTaken(old(conn.answers), p)]
      ensures !old(applied) && old(conn.answers) == [] ==> (told.failed <==> Refusal(false, p, strategy).Some?)
      ensures !old(applied) && old(conn.answers) == [] && !told.failed ==>
        conn.writes == old(conn.writes) + Fragmented(p, strategy)
      ensures !told.failed && told.n == |p| ==> conn.Sent() == old(conn.Sent()) + p
      ensures old(conn.Sent()) <= conn.Sent()
    {
      assert p[..|p|] == p && p[..0] == [] && conn.Sent() + [] == conn.Sent();
      if !applied {
        FullDelivery(Fragmented(p, strategy));
        applied := true;
        var err := ApplyWriter(conn, p, strategy);
        if err != None {
          return Told(0, true);
        }
        return Told(|p|, false);
      }
      var n, failed := conn.Write(p);
      told := Told(n, failed);
    }
  }

  /** The reported count is what was delivered exactly when the write succeeds, is refused, or fails at a
      first answer that takes nothing. */
  lemma FirstCountIsTrueIff(answers: seq<Answer>, p: seq<byte>, strategy: Dpi.Strategy)
    ensures FirstTold(answers, p, strategy).n == FirstTaken(answers, p, strategy)
      <==> (|| !FirstTold(answers, p, strategy).failed
            || Refusal(false, p, strategy).Some?
            || (answers != [] && answers[0].n <= 0))
  {
    if Refusal(false, p, strategy) == None {
      FragmentedCuts(p, strategy);
      var fragments := Fragmented(p, strategy);
      assert fragments[0] in fragments;
      if answers == [] {
        FullDelivery(fragments);
      }
    }
  }

  /** On a connection that takes everything, wrapper and bare connection tell the same about a first write
      exactly when it is not refused. */
  lemma SameOnFullWireIffNotRefused(p: seq<byte>, strategy: Dpi.Strategy)
    ensures FirstTold([], p, strategy) == BareTold([], p) <==> Refusal(false, p, strategy) == None
  {
    FullDelivery(Fragmented(p, strategy));
  }

  /** net.Conn as NewFirstWriteConn returns it. */
  datatype Wrapped = NilConn | Bare(conn: Wire) | First(wrapper: FirstWriteConn)

  method NewFirstWriteConn(conn: Wire?, strategy: Dpi.Strategy) returns (r: Wrapped)
    ensures r.NilConn? <==> conn == null
    ensures conn != null && strategy.name in {[], Ascii("direct")} <==> r.Bare?
    ensures r.Bare? ==> r.conn == conn
    ensures r.First? ==>
      fresh(r.wrapper) && r.wrapper.conn == conn && r.wrapper.strategy == strategy && !r.wrapper.applied
  {
    if conn == null {
      return NilConn;
    }
    if strategy.name == [] || strategy.name == Ascii("direct") {
      return Bare(conn);
    }
    var wrapper := new FirstWriteConn(conn, strategy);
    r := First(wrapper);
  }

  /** Writes one payload after another until one is not taken in full. */
  method WriteStream(c: FirstWriteConn, ps: seq<seq<byte>>) returns (taken: nat)
    requires c as object != c.conn
    modifies c, c.conn
    ensures taken <= |ps|
    ensures taken == |ps| ==> c.conn.Sent() == old(c.conn.Sent()) + Flatten(ps)
    ensures taken < |ps| ==> old(c.conn.Sent()) + Flatten(ps[..taken]) <= c.conn.Sent()
  {
    taken := 0;
    while taken < |ps|
      invariant taken <= |ps| && c.conn.Sent() == old(c.conn.Sent()) + Flatten(ps[..taken])
    {
      var told := c.Write(ps[taken]);
      if told.failed || told.n != |ps[taken]| {
        return;
      }
      assert ps[..taken + 1] == ps[..taken] + [ps[taken]];
      FlattenSnoc(ps[..taken], ps[taken]);
      Assoc(old(c.conn.Sent()), Flatten(ps[..taken]), ps[taken]);
      taken := taken + 1;
    }
    assert ps[..taken] == ps;
  }

  /** The same on the bare connection: the two differ in how the bytes are cut, not in the bytes. */
  method WriteStreamBare(w: Wire, ps: seq<seq<byte>>) returns (taken: nat)
    modifies w
    ensures taken <= |ps|
    ensures taken == |ps| ==> w.Sent() == old(w.Sent()) + Flatten(ps)
  {
    taken := 0;
    while taken < |ps|
      invariant taken <= |ps| && w.Sent() == old(w.Sent()) + Flatten(ps[..taken])
    {
      var n, failed := w.Write(ps[taken]);
      if failed || n != |ps[taken]| {
        return;
      }
      assert ps[..taken + 1] == ps[..taken] + [ps[taken]];
      FlattenSnoc(ps[..taken], ps[taken]);
      Assoc(old(w.Sent()), Flatten(ps[..taken]), ps[taken]);
      taken := taken + 1;
    }
    assert ps[..taken] == ps;
  }

  // ----- Where the wrapper does differ ---------------------------------------------------------------------

  /** An empty first write fails, though the bare connection takes it. */
  method EmptyFirstWriteFails(strategy: Dpi.Strategy) returns (wrapped: Told, bare: Told)
    ensures wrapped == Told(0, true) && bare == Told(0, false)
  {
    var w := new Wire([]);
    var v := new Wire([]);
    var c := new FirstWriteConn(w, strategy);
    wrapped := c.Write([]);
    var n, failed := v.Write([]);
    bare := Told(n, failed);
  }

  /** The strategies that cut off the first byte. */
  predicate SplitsEarly(strategy: Dpi.Strategy) {
    && strategy.Valid() && !strategy.requiresPacketControl
    && strategy.splitPoints == [1] && !OnlyDirect(strategy.techniques)
  }

  lemma ShippedSplitsEarly()
    ensures SplitsEarly(Dpi.DefaultStrategies()[1]) && SplitsEarly(Dpi.DefaultStrategies()[2])
  {
    assert Ascii("split-early")[0] == 115 && Ascii("split-early")[|Ascii("split-early")| - 1] == 121;
    assert Trim(Ascii("split-early")) == Ascii("split-early");
    assert Ascii("paced-split")[0] == 112 && Ascii("paced-split")[|Ascii("paced-split")| - 1] == 116;
    assert Trim(Ascii("paced-split")) == Ascii("paced-split");
  }

  lemma OneEarlyCut()
    ensures Splits([1], 3) == [1]
  {
    SplitsAreSplits([1], 3);
    SplitsAreUnique(Splits([1], 3), [1]);
  }

  lemma EarlyFragments(strategy: Dpi.Strategy)
    requires SplitsEarly(strategy)
    ensures Fragmented([1, 2, 3], strategy) == [[1], [2, 3]]
  {
    var p: seq<byte>, cuts: seq<int> := [1, 2, 3], [1];
    OneEarlyCut();
    assert cuts[1..] == [] && p[0..1] == [1] && p[1..] == [2, 3];
    assert Fragments(p, 1, []) == [[2, 3]];
    assert Fragments(p, 0, cuts) == [p[0..1]] + Fragments(p, 1, cuts[1..]);
  }

  /** With either shipped split strategy: the first fragment goes out, the second fails, and the caller is told
      that nothing did. */
  method FailedFirstWriteHidesBytes(strategy: Dpi.Strategy) returns (told: Told, delivered: seq<byte>)
    requires SplitsEarly(strategy)
    ensures told == Told(0, true) && delivered == [1]
  {
    var p: seq<byte> := [1, 2, 3];
    var w := new Wire([Answer(1, false), Answer(0, true)]);
    var c := new FirstWriteConn(w, strategy);
    EarlyFragments(strategy);
    assert [Answer(1, false), Answer(0, true)][1..] == [Answer(0, true)];
    assert [[1], [2, 3]][1..] == [[2, 3]];
    told := c.Write(p);
    delivered := w.Sent();
    assert p[..1] == [1] && [] + p[..1] == p[..1];
  }
}
