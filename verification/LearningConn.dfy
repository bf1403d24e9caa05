// learningConn of pkg/proxy/adaptive.go and pkg/proxy/outcome.go: what one direct connection teaches
// the DPI learner. A run is any interleaving of the atomic steps of concurrent Read and Write calls.
module LearningConn {
  import opened Bytes
  import opened Text
  import opened Memory
  import Carrier
  import Dpi
  import opened Planner

  // ----- The failure test ----------------------------------------------------------------------------

  datatype Error = EOF | ConnectionReset | BrokenPipe | TimedOut | NetTimeout | OtherError

  const SECOND := 1_000_000_000
  const DEFAULT_WINDOW := 12 * SECOND

  predicate LikelyDirectDPIFailure(kind: Carrier.Kind, attempted: bool, read: nat, error: Option<Error>, elapsed: int,
                                   window: int)
  {
    && kind == Carrier.Direct && attempted && read == 0
    && error.Some? && error.value != OtherError
    && 0 <= elapsed <= (if window <= 0 then DEFAULT_WINDOW else window) + SECOND
  }

  // ----- One connection --------------------------------------------------------------------------------

  /** What newLearningConn is given. */
  datatype Config = Config(plan: Plan, destination: text, latency: int, window: int, learn: bool)

  /** Where a Read or Write call stands. */
  datatype Call =
    | Writing(size: nat)                                      // before the swap of writeAttempted
    | Stamping(size: nat)                                     // won the swap, about to store firstWriteAt
    | Sending(size: nat)                                      // about to write to the connection
    | Reading(size: nat)                                      // about to read from the connection
    | Counting(n: nat)                                        // read n > 0 bytes, about to add them up
    | Succeeding                                              // about to record a success once
    | Failing(error: Error)                                   // about to load firstWriteAt
    | CheckingAttempt(error: Error, elapsed: int)             // about to load writeAttempted
    | CheckingRead(error: Error, elapsed: int, attempted: bool)  // about to load bytesRead
    | Concluding(verdict: Verdict)                            // about to record a failure once
    | Finished

  /** What was recorded, with the values it was decided on. */
  datatype Verdict =
    | Success(read: nat, written: nat)
    | Failure(error: Error, attempted: bool, readAtCheck: nat, elapsed: int)

  /** `recorded` is outcomeOnce together with what its one execution observed. */
  datatype State = State(
    calls: seq<Call>, bytesRead: nat, bytesWritten: nat, firstWriteAt: int, writeAttempted: bool,
    recorded: seq<Verdict>)

  const FRESH := State([], 0, 0, 0, false, [])

  datatype Action =
    | CallWrite(size: nat)
    | CallRead(size: nat)
    | Step(i: nat, now: int, n: nat, error: Option<Error>)   // the inputs only some steps use

  predicate Enabled(c: Config, s: State, a: Action) {
    match a
    case CallWrite(_) => true
    case CallRead(_) => true
    case Step(i, now, n, error) =>
      && i < |s.calls| && s.calls[i] != Finished
      && (s.calls[i].Sending? || s.calls[i].Reading? ==> n <= s.calls[i].size)
  }

  /** sync.Once. */
  function RecordOnce(s: State, v: Verdict): State {
    if s.recorded == [] then s.(recorded := [v]) else s
  }

  function At(s: State, i: nat, call: Call): State
    requires i < |s.calls|
  {
    s.(calls := s.calls[i := call])
  }

  function Advance(c: Config, s: State, i: nat, now: int, n: nat, error: Option<Error>): State
    requires Enabled(c, s, Step(i, now, n, error))
  {
    match s.calls[i]
    case Writing(size) =>
      if size > 0 && c.learn && !s.writeAttempted then At(s, i, Stamping(size)).(writeAttempted := true)
      else At(s, i, Sending(size))
    case Stamping(size) => At(s, i, Sending(size)).(firstWriteAt := now)
    case Sending(_) =>
      At(s, i, if error.Some? then Failing(error.value) else Finished).(bytesWritten := s.bytesWritten + n)
    case Reading(_) =>
      At(s, i, if n > 0 then Counting(n) else if error.Some? then Failing(error.value) else Finished)
    case Counting(k) => At(s, i, Succeeding).(bytesRead := s.bytesRead + k)
    case Succeeding =>
      var t := At(s, i, Finished);
      if c.learn then RecordOnce(t, Success(s.bytesRead, s.bytesWritten)) else t
    case Failing(e) =>
      At(s, i, if !c.learn || s.firstWriteAt == 0 then Finished else CheckingAttempt(e, now - s.firstWriteAt))
    case CheckingAttempt(e, elapsed) => At(s, i, CheckingRead(e, elapsed, s.writeAttempted))
    case CheckingRead(e, elapsed, attempted) =>
      At(s, i,
         if LikelyDirectDPIFailure(c.plan.carrier.carrier.kind, attempted, s.bytesRead, Some(e), elapsed, c.window)
         then Concluding(Failure(e, attempted, s.bytesRead, elapsed)) else Finished)
    case Concluding(v) => RecordOnce(At(s, i, Finished), v)
    case Finished => s
  }

  function Apply(c: Config, s: State, a: Action): State
    requires Enabled(c, s, a)
  {
    match a
    case CallWrite(size) => s.(calls := s.calls + [Writing(size)])
    case CallRead(size) => s.(calls := s.calls + [Reading(size)])
    case Step(i, now, n, error) => Advance(c, s, i, now, n, error)
  }

  predicate CanRun(c: Config, s: State, actions: seq<Action>)
    decreases |actions|
  {
    actions == [] || (Enabled(c, s, actions[0]) && CanRun(c, Apply(c, s, actions[0]), actions[1..]))
  }

  function Run(c: Config, s: State, actions: seq<Action>): State
    requires CanRun(c, s, actions)
    decreases |actions|
  {
    if actions == [] then s else Run(c, Apply(c, s, actions[0]), actions[1..])
  }

  // ----- The invariant ---------------------------------------------------------------------------------

  /** A verdict rests on what it should. */
  predicate Grounded(c: Config, s: State, v: Verdict) {
    match v
    case Success(read, _) => 0 < read <= s.bytesRead
    case Failure(e, attempted, read, elapsed) =>
      && LikelyDirectDPIFailure(c.plan.carrier.carrier.kind, attempted, read, Some(e), elapsed, c.window)
      && s.writeAttempted
  }

  predicate CallInv(c: Config, s: State, call: Call) {
    match call
    case Counting(n) => n > 0
    case Succeeding => s.bytesRead > 0
    case CheckingAttempt(_, _) => c.learn
    case CheckingRead(_, _, attempted) => c.learn && (attempted ==> s.writeAttempted)
    case Concluding(v) => c.learn && v.Failure? && Grounded(c, s, v)
    case _ => true
  }

  predicate Inv(c: Config, s: State) {
    && |s.recorded| <= 1
    && (!c.learn ==> s.recorded == [] && !s.writeAttempted)
    && (forall v :: v in s.recorded ==> Grounded(c, s, v))
    && (forall i :: 0 <= i < |s.calls| ==> CallInv(c, s, s.calls[i]))
    && (c.learn && s.bytesRead > 0 && s.recorded == [] ==> exists i :: 0 <= i < |s.calls| && s.calls[i] == Succeeding)
  }

  lemma StepKeepsCalls(c: Config, s: State, i: nat, now: int, n: nat, error: Option<Error>)
    requires Inv(c, s) && Enabled(c, s, Step(i, now, n, error))
    ensures var t := Advance(c, s, i, now, n, error);
      forall k :: 0 <= k < |t.calls| ==> CallInv(c, t, t.calls[k])
  {
    var t := Advance(c, s, i, now, n, error);
    forall k | 0 <= k < |t.calls|
      ensures CallInv(c, t, t.calls[k])
    {
      assert CallInv(c, s, s.calls[k]) && CallInv(c, s, s.calls[i]);
    }
  }

  lemma StepInv(c: Config, s: State, a: Action)
    requires Inv(c, s) && Enabled(c, s, a)
    ensures Inv(c, Apply(c, s, a))
  {
    var t := Apply(c, s, a);
    if a.Step? {
      StepKeepsCalls(c, s, a.i, a.now, a.n, a.error);
      assert CallInv(c, s, s.calls[a.i]);
      if c.learn && t.bytesRead > 0 && t.recorded == [] {
        if s.calls[a.i].Counting? {
          assert t.calls[a.i] == Succeeding;
        } else {
          var k :| 0 <= k < |s.calls| && s.calls[k] == Succeeding;
          assert t.calls[k] == Succeeding;
        }
      }
    } else {
      assert forall k :: 0 <= k < |s.calls| ==> t.calls[k] == s.calls[k];
    }
  }

  lemma {:induction false} RunInv(c: Config, s: State, actions: seq<Action>)
    requires Inv(c, s) && CanRun(c, s, actions)
    ensures Inv(c, Run(c, s, actions))
    decreases |actions|
  {
    if actions != [] {
      StepInv(c, s, actions[0]);
      RunInv(c, Apply(c, s, actions[0]), actions[1..]);
    }
  }

  predicate Idle(s: State) {
    forall i :: 0 <= i < |s.calls| ==> s.calls[i] == Finished
  }

  // ----- What the learners are told -----------------------------------------------------------------------

  /** The planner result of a verdict. A success's throughput is not modelled: only its count matters. */
  function ResultOf(c: Config, v: Verdict, throughput: real): Result {
    match v
    case Success(_, _) => Result(c.plan, c.destination, Ascii("tcp"), true, DpiScope, true, c.latency, throughput, None)
    case Failure(_, _, _, elapsed) =>
      Result(c.plan, c.destination, Ascii("tcp"), false, DpiScope, true, elapsed, 0.0, None)
  }

  /** A verdict reaches the DPI learner alone, under the plan's first hop and strategy: a success with the time the
      connection took to open, a failure with the time since the first write. */
  lemma VerdictIsDpiEvidence(c: Config, v: Verdict, throughput: real, now: int)
    requires Trim(c.plan.dpi.strategy.name) != []
    ensures CarrierEvents(ResultOf(c, v, throughput), now) == []
    ensures DpiEvents(ResultOf(c, v, throughput), now) == [Observed(
      Dpi.ContextKey(Dpi.Context(c.plan.networkID, c.plan.dpiTarget, c.plan.trafficClass)), c.plan.dpi.strategy.name,
      if v.Success? then Dpi.Event(true, c.latency, throughput, now) else Dpi.Event(false, v.elapsed, 0.0, now))]
  {
  }

  /** In any interleaving, one connection records at most one outcome, and only if it is a learning
      one. A success follows bytes read; a failure follows an attempted write, a read count of zero at
      its check, and a terminal error within the window. It never reaches the carrier learner. Once
      the calls are idle, a connection that read anything has recorded exactly one outcome. */
  lemma OneOutcome(c: Config, actions: seq<Action>)
    requires CanRun(c, FRESH, actions)
    ensures var s := Run(c, FRESH, actions);
      && |s.recorded| <= 1 && (s.recorded != [] ==> c.learn)
      && (forall v :: v in s.recorded ==> Grounded(c, s, v))
      && (c.learn && s.bytesRead > 0 && Idle(s) ==> |s.recorded| == 1)
    ensures var s := Run(c, FRESH, actions);
      forall v, throughput: real, now: int :: v in s.recorded ==> CarrierEvents(ResultOf(c, v, throughput), now) == []
  {
    RunInv(c, FRESH, actions);
  }

  // ----- When a recorded failure means silence -----------------------------------------------------------

  /** The step in which a call adds up bytes it has read. */
  predicate IsCount(s: State, a: Action) {
    a.Step? && a.i < |s.calls| && s.calls[a.i].Counting?
  }

  predicate Counts(c: Config, s: State, actions: seq<Action>)
    requires CanRun(c, s, actions)
    decreases |actions|
  {
    actions != [] && (IsCount(s, actions[0]) || Counts(c, Apply(c, s, actions[0]), actions[1..]))
  }

  predicate Leaves(actions: seq<Action>, i: nat) {
    forall a :: a in actions && a.Step? ==> a.i != i
  }

  lemma StepReads(c: Config, s: State, a: Action)
    requires Inv(c, s) && Enabled(c, s, a)
    ensures Apply(c, s, a).bytesRead >= s.bytesRead
    ensures Apply(c, s, a).bytesRead > s.bytesRead <==> IsCount(s, a)
  {
    if a.Step? {
      assert CallInv(c, s, s.calls[a.i]);
    }
  }

  lemma {:induction false} RunReads(c: Config, s: State, actions: seq<Action>, i: nat)
    requires Inv(c, s) && CanRun(c, s, actions) && i < |s.calls| && Leaves(actions, i)
    ensures var t := Run(c, s, actions);
      && i < |t.calls| && t.calls[i] == s.calls[i] && t.bytesRead >= s.bytesRead
      && (t.bytesRead > s.bytesRead <==> Counts(c, s, actions))
    decreases |actions|
  {
    if actions != [] {
      assert actions[0] in actions;
      StepReads(c, s, actions[0]);
      StepInv(c, s, actions[0]);
      RunReads(c, Apply(c, s, actions[0]), actions[1..], i);
    }
  }

  /** A failure is recorded after a byte has been counted exactly when nothing was recorded before and some
      call counts between the check of the failing call and its conclusion. */
  lemma FailureOvertakenIffCounted(c: Config, before: seq<Action>, check: Action, between: seq<Action>,
                                   conclude: Action)
    requires CanRun(c, FRESH, before) && Enabled(c, Run(c, FRESH, before), check) && check.Step?
    requires Run(c, FRESH, before).calls[check.i].CheckingRead?
    requires var checked := Apply(c, Run(c, FRESH, before), check);
      && checked.calls[check.i].Concluding?
      && CanRun(c, checked, between) && Leaves(between, check.i)
      && Enabled(c, Run(c, checked, between), conclude)
    requires conclude.Step? && conclude.i == check.i
    ensures var checked := Apply(c, Run(c, FRESH, before), check);
      var s := Run(c, checked, between);
      var t := Apply(c, s, conclude);
      && (s.recorded == [] <==> t.recorded != s.recorded)
      && (s.recorded == [] ==> t.recorded == [checked.calls[check.i].verdict] && t.recorded[0].Failure?)
      && (t.recorded != s.recorded && t.bytesRead > 0 <==> s.recorded == [] && Counts(c, checked, between))
  {
    RunInv(c, FRESH, before);
    var checked := Apply(c, Run(c, FRESH, before), check);
    StepInv(c, Run(c, FRESH, before), check);
    assert CallInv(c, checked, checked.calls[check.i]);
    RunReads(c, checked, between, check.i);
  }

  /** The caller starts a Read or Write only when no other is under way. */
  predicate Serial(c: Config, s: State, actions: seq<Action>)
    requires CanRun(c, s, actions)
    decreases |actions|
  {
    actions != [] ==>
      (actions[0].Step? || Idle(s)) && Serial(c, Apply(c, s, actions[0]), actions[1..])
  }

  predicate SerialInv(c: Config, s: State) {
    && Inv(c, s)
    && (forall i, j :: 0 <= i < |s.calls| && 0 <= j < |s.calls| ==>
          s.calls[i] != Finished && s.calls[j] != Finished ==> i == j)
    && (forall i :: 0 <= i < |s.calls| && s.calls[i].Concluding? ==> s.bytesRead == 0)
  }

  lemma SerialStep(c: Config, s: State, a: Action)
    requires SerialInv(c, s) && Enabled(c, s, a) && (a.Step? || Idle(s))
    ensures SerialInv(c, Apply(c, s, a))
  {
    StepInv(c, s, a);
    if a.Step? {
      assert CallInv(c, s, s.calls[a.i]);
    }
  }

  lemma {:induction false} SerialRunInv(c: Config, s: State, actions: seq<Action>)
    requires SerialInv(c, s) && CanRun(c, s, actions) && Serial(c, s, actions)
    ensures SerialInv(c, Run(c, s, actions))
    decreases |actions|
  {
    if actions != [] {
      SerialStep(c, s, actions[0]);
      SerialRunInv(c, Apply(c, s, actions[0]), actions[1..]);
    }
  }

  /** With a caller that never overlaps its calls, no byte has arrived when a failure is recorded. */
  lemma SerialFailureMeansSilence(c: Config, actions: seq<Action>, a: Action)
    requires CanRun(c, FRESH, actions) && Serial(c, FRESH, actions)
    requires Enabled(c, Run(c, FRESH, actions), a) && (a.Step? || Idle(Run(c, FRESH, actions)))
    ensures var s := Run(c, FRESH, actions);
      var t := Apply(c, s, a);
      t.recorded != s.recorded && t.recorded[0].Failure? ==> t.bytesRead == 0
  {
    SerialRunInv(c, FRESH, actions);
    var s := Run(c, FRESH, actions);
    if a.Step? {
      assert CallInv(c, s, s.calls[a.i]);
    }
  }

  // ----- Which failures count ----------------------------------------------------------------------------

  /** Only this call goes on, and the clock stands at `now`. */
  predicate Alone(actions: seq<Action>, i: nat, now: int) {
    forall a :: a in actions ==> a.Step? && a.i == i && a.now == now
  }

  /** What a failing call charges the strategy with: a direct route that was written to and never answered, an error
      that ends a connection, and at most the window and one second since the first write; 12 seconds stand for a
      window that is not positive. A clock of 0 stands for no write. */
  predicate Charged(c: Config, s: State, e: Error, now: int) {
    && c.learn && c.plan.carrier.carrier.kind == Carrier.Direct && s.writeAttempted && s.bytesRead == 0
    && e in {EOF, ConnectionReset, BrokenPipe, TimedOut, NetTimeout}
    && s.firstWriteAt != 0 && s.firstWriteAt <= now
    && now - s.firstWriteAt <= (if c.window <= 0 then 13_000_000_000 else c.window + 1_000_000_000)
  }

  lemma OverWhenFinished(c: Config, s: State, i: nat, now: int, actions: seq<Action>)
    requires CanRun(c, s, actions) && Alone(actions, i, now) && i < |s.calls| && s.calls[i] == Finished
    ensures Run(c, s, actions) == s
  {
    if actions != [] {
      FirstIsOwn(actions, i, now);
    }
  }

  lemma FirstIsOwn(actions: seq<Action>, i: nat, now: int)
    requires actions != [] && Alone(actions, i, now)
    ensures actions[0].Step? && actions[0].i == i && actions[0].now == now && Alone(actions[1..], i, now)
  {
    assert actions[0] in actions;
  }

  /** A call that is not over yet takes its own step next. */
  lemma NextIsOwn(c: Config, s: State, i: nat, now: int, actions: seq<Action>)
    requires CanRun(c, s, actions) && Alone(actions, i, now) && i < |s.calls| && s.calls[i] != Finished
    requires i < |Run(c, s, actions).calls| && Run(c, s, actions).calls[i] == Finished
    ensures actions != [] && actions[0].Step? && actions[0].i == i && actions[0].now == now
    ensures Alone(actions[1..], i, now)
  {
    FirstIsOwn(actions, i, now);
  }

  lemma ConcludesAlone(c: Config, s: State, i: nat, now: int, actions: seq<Action>)
    requires CanRun(c, s, actions) && Alone(actions, i, now) && i < |s.calls| && s.calls[i].Concluding?
    requires i < |Run(c, s, actions).calls| && Run(c, s, actions).calls[i] == Finished
    ensures Run(c, s, actions) == RecordOnce(At(s, i, Finished), s.calls[i].verdict)
  {
    NextIsOwn(c, s, i, now, actions);
    OverWhenFinished(c, Apply(c, s, actions[0]), i, now, actions[1..]);
  }

  lemma ChecksAlone(c: Config, s: State, i: nat, now: int, actions: seq<Action>)
    requires CanRun(c, s, actions) && Alone(actions, i, now) && i < |s.calls| && s.calls[i].CheckingAttempt?
    requires i < |Run(c, s, actions).calls| && Run(c, s, actions).calls[i] == Finished
    requires c.learn && s.firstWriteAt != 0 && s.calls[i].elapsed == now - s.firstWriteAt
    ensures var e := s.calls[i].error;
      Run(c, s, actions) ==
        (if Charged(c, s, e, now) then RecordOnce(At(s, i, Finished), Failure(e, true, 0, now - s.firstWriteAt))
         else At(s, i, Finished))
  {
    NextIsOwn(c, s, i, now, actions);
    var checking := Apply(c, s, actions[0]);
    NextIsOwn(c, checking, i, now, actions[1..]);
    var checked, rest := Apply(c, checking, actions[1..][0]), actions[1..][1..];
    assert At(At(s, i, checking.calls[i]), i, checked.calls[i]) == At(s, i, checked.calls[i]);
    if checked.calls[i] == Finished {
      OverWhenFinished(c, checked, i, now, rest);
    } else {
      ConcludesAlone(c, checked, i, now, rest);
      assert At(checked, i, Finished) == At(s, i, Finished);
    }
  }

  /** A failing Read or Write that goes on alone, in any state, records a failure exactly when it is charged and
      nothing was recorded before; it changes nothing else. */
  lemma FailureCountsIffCharged(c: Config, s: State, i: nat, e: Error, now: int, actions: seq<Action>)
    requires CanRun(c, s, actions) && Alone(actions, i, now) && i < |s.calls| && s.calls[i] == Failing(e)
    requires i < |Run(c, s, actions).calls| && Run(c, s, actions).calls[i] == Finished
    ensures Run(c, s, actions) == s.(
      calls := s.calls[i := Finished],
      recorded := if Charged(c, s, e, now) && s.recorded == [] then [Failure(e, true, 0, now - s.firstWriteAt)]
                  else s.recorded)
  {
    NextIsOwn(c, s, i, now, actions);
    var loaded := Apply(c, s, actions[0]);
    if loaded.calls[i] == Finished {
      OverWhenFinished(c, loaded, i, now, actions[1..]);
    } else {
      ChecksAlone(c, loaded, i, now, actions[1..]);
      assert At(loaded, i, Finished) == At(s, i, Finished);
    }
  }

  /** A first Write of something, on a connection that learns, marks the attempt and its time whatever becomes of it;
      with an error it then fails. */
  lemma FirstWriteIsStamped(c: Config, s: State, size: nat, start: int, n: nat, e: Error)
    requires c.learn && size > 0 && n <= size && !s.writeAttempted
    ensures var i := |s.calls|;
      var actions := [CallWrite(size), Do(i, 0), Do(i, start), Step(i, 0, n, Some(e))];
      && CanRun(c, s, actions)
      && Run(c, s, actions) == s.(calls := s.calls + [Failing(e)], bytesWritten := s.bytesWritten + n,
                                  writeAttempted := true, firstWriteAt := start)
  {
    var i := |s.calls|;
    var actions := [CallWrite(size), Do(i, 0), Do(i, start), Step(i, 0, n, Some(e))];
    var called := s.(calls := s.calls + [Writing(size)]);
    var won := s.(calls := s.calls + [Stamping(size)], writeAttempted := true);
    var stamped := won.(calls := s.calls + [Sending(size)], firstWriteAt := start);
    var sent := stamped.(calls := s.calls + [Failing(e)], bytesWritten := s.bytesWritten + n);
    assert Apply(c, called, actions[1]) == won && Apply(c, won, actions[2]) == stamped;
    assert Apply(c, stamped, actions[3]) == sent;
    RunOne(c, stamped, sent, actions, 3);
    RunOne(c, won, stamped, actions, 2);
    RunOne(c, called, won, actions, 1);
    RunOne(c, s, called, actions, 0);
    assert actions[0..] == actions;
  }

  /** An empty Write is no attempt. */
  lemma EmptyWriteLeavesNoMark(c: Config, s: State, i: nat, now: int, actions: seq<Action>)
    requires CanRun(c, s, actions) && Alone(actions, i, now) && |actions| <= 2
    requires i < |s.calls| && s.calls[i] == Writing(0)
    ensures var t := Run(c, s, actions);
      && t.writeAttempted == s.writeAttempted && t.firstWriteAt == s.firstWriteAt && t.recorded == s.recorded
      && t.bytesWritten == s.bytesWritten
  {
    if actions != [] {
      FirstIsOwn(actions, i, now);
      var later := actions[1..];
      if later != [] {
        FirstIsOwn(later, i, now);
        var sending := Apply(c, s, actions[0]);
        assert later[1..] == [];
        assert Run(c, sending, later) == Run(c, Apply(c, sending, later[0]), []) == Apply(c, sending, later[0]);
      }
    }
  }

  /** A Read that gets something counts it and, on a connection that learns, records a success unless something was
      recorded before, whatever error came with it. */
  lemma AnswerCounts(c: Config, s: State, i: nat, n: nat, error: Option<Error>)
    requires i < |s.calls| && s.calls[i].Reading? && 0 < n <= s.calls[i].size
    ensures var actions := [Step(i, 0, n, error), Do(i, 0), Do(i, 0)];
      && CanRun(c, s, actions)
      && Run(c, s, actions) == s.(
           calls := s.calls[i := Finished], bytesRead := s.bytesRead + n,
           recorded := if c.learn && s.recorded == [] then [Success(s.bytesRead + n, s.bytesWritten)] else s.recorded)
  {
    var actions := [Step(i, 0, n, error), Do(i, 0), Do(i, 0)];
    var got := At(s, i, Counting(n));
    var counted := At(s, i, Succeeding).(bytesRead := s.bytesRead + n);
    var done := Apply(c, counted, actions[2]);
    assert Apply(c, got, actions[1]) == counted;
    RunOne(c, counted, done, actions, 2);
    RunOne(c, got, counted, actions, 1);
    RunOne(c, s, got, actions, 0);
    assert actions[0..] == actions;
  }

  // ----- A failure can overtake the first byte ----------------------------------------------------------------

  function Do(i: nat, now: int): Action {
    Step(i, now, 0, None)
  }

  /** A write fails and its check sees no byte read; the first byte arrives before it records. */
  const OVERTAKING: seq<Action> := [
    CallWrite(1), Do(0, 0), Do(0, 1), Step(0, 0, 0, Some(BrokenPipe)), Do(0, 1), Do(0, 0), Do(0, 0),
    CallRead(1), Step(1, 0, 1, None), Do(1, 0), Do(0, 0), Do(1, 0)]

  const CHECK_DONE := State([Concluding(OVERTAKEN)], 0, 0, 1, true, [])
  const OVERTAKEN := Failure(BrokenPipe, true, 0, 0)
  const OVERTAKEN_END := State([Finished, Finished], 1, 0, 1, true, [OVERTAKEN])

  /** So "no response byte ever arrived" holds at the check, not when the failure is recorded. */
  lemma FailureCanOvertakeFirstByte(c: Config)
    requires c.learn && c.plan.carrier.carrier.kind == Carrier.Direct
    ensures CanRun(c, FRESH, OVERTAKING) && Run(c, FRESH, OVERTAKING) == OVERTAKEN_END
    ensures Idle(OVERTAKEN_END) && OVERTAKEN_END.bytesRead == 1 && OVERTAKEN_END.recorded == [OVERTAKEN]
  {
    Overtakes(c);
    FromStart(c, OVERTAKING, OVERTAKEN_END);
    AllOver();
  }

  lemma AllOver()
    ensures Idle(OVERTAKEN_END)
  {
  }

  lemma Overtakes(c: Config)
    requires c.learn && c.plan.carrier.carrier.kind == Carrier.Direct
    ensures CanRun(c, FRESH, OVERTAKING[0..]) && Run(c, FRESH, OVERTAKING[0..]) == OVERTAKEN_END
  {
    WriteStarts(c);
    RunOne(c, FRESH, State([Writing(1)], 0, 0, 0, false, []), OVERTAKING, 0);
  }

  lemma FromStart(c: Config, actions: seq<Action>, t: State)
    requires CanRun(c, FRESH, actions[0..]) && Run(c, FRESH, actions[0..]) == t
    ensures CanRun(c, FRESH, actions) && Run(c, FRESH, actions) == t
  {
    assert actions[0..] == actions;
  }

  lemma WriteStarts(c: Config)
    requires c.learn && c.plan.carrier.carrier.kind == Carrier.Direct
    ensures var s := State([Writing(1)], 0, 0, 0, false, []);
      CanRun(c, s, OVERTAKING[1..]) && Run(c, s, OVERTAKING[1..]) == OVERTAKEN_END
  {
    WriteFails(c);
    RunOne(c, State([Writing(1)], 0, 0, 0, false, []), STAMPING, OVERTAKING, 1);
  }

  const STAMPING := State([Stamping(1)], 0, 0, 0, true, [])

  lemma WriteFails(c: Config)
    requires c.learn && c.plan.carrier.carrier.kind == Carrier.Direct
    ensures CanRun(c, STAMPING, OVERTAKING[2..]) && Run(c, STAMPING, OVERTAKING[2..]) == OVERTAKEN_END
  {
    DuringCheck(c);
    var s3 := CHECK_DONE.(calls := [Sending(1)]);
    RunOne(c, s3, CHECK_DONE.(calls := [Failing(BrokenPipe)]), OVERTAKING, 3);
    RunOne(c, STAMPING, s3, OVERTAKING, 2);
  }

  lemma DuringCheck(c: Config)
    requires c.learn && c.plan.carrier.carrier.kind == Carrier.Direct
    ensures var s := CHECK_DONE.(calls := [Failing(BrokenPipe)]);
      CanRun(c, s, OVERTAKING[4..]) && Run(c, s, OVERTAKING[4..]) == OVERTAKEN_END
  {
    AfterCheck(c);
    var s5 := CHECK_DONE.(calls := [CheckingAttempt(BrokenPipe, 0)]);
    var s6 := CHECK_DONE.(calls := [CheckingRead(BrokenPipe, 0, true)]);
    RunOne(c, s6, CHECK_DONE, OVERTAKING, 6);
    RunOne(c, s5, s6, OVERTAKING, 5);
    RunOne(c, CHECK_DONE.(calls := [Failing(BrokenPipe)]), s5, OVERTAKING, 4);
  }

  lemma AfterCheck(c: Config)
    requires c.learn
    ensures CanRun(c, CHECK_DONE, OVERTAKING[7..]) && Run(c, CHECK_DONE, OVERTAKING[7..]) == OVERTAKEN_END
  {
    var s8 := CHECK_DONE.(calls := [Concluding(OVERTAKEN), Reading(1)]);
    var s9 := CHECK_DONE.(calls := [Concluding(OVERTAKEN), Counting(1)]);
    var s10 := CHECK_DONE.(calls := [Concluding(OVERTAKEN), Succeeding], bytesRead := 1);
    var s11 := OVERTAKEN_END.(calls := [Finished, Succeeding]);
    RunOne(c, s11, OVERTAKEN_END, OVERTAKING, 11);
    RunOne(c, s10, s11, OVERTAKING, 10);
    RunOne(c, s9, s10, OVERTAKING, 9);
    RunOne(c, s8, s9, OVERTAKING, 8);
    RunOne(c, CHECK_DONE, s8, OVERTAKING, 7);
  }

  lemma RunOne(c: Config, s: State, t: State, actions: seq<Action>, i: nat)
    requires i < |actions| && Enabled(c, s, actions[i]) && Apply(c, s, actions[i]) == t
    requires CanRun(c, t, actions[i + 1..])
    ensures CanRun(c, s, actions[i..]) && Run(c, s, actions[i..]) == Run(c, t, actions[i + 1..])
  {
    assert actions[i..][0] == actions[i] && actions[i..][1..] == actions[i + 1..];
  }
}
