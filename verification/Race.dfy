// RaceConnections of pkg/probe/race.go: n dial goroutines, a collector that closes the result
// channel, and the caller's loop. A run is any interleaving of their steps.
module Race {
  import opened Bytes

  type Conn = nat

  /** What a dial returned: attempt i's connection is identified with i. */
  datatype Result = Dialled(attempt: nat) | Failure(attempt: nat)

  datatype Attempt =
    | Waiting          // before its stagger delay has passed
    | Dialling
    | Connected        // dial succeeded, before CompareAndSwap
    | Won              // set the flag, about to send its result
    | Sent             // about to cancel the race
    | Losing           // lost the swap, about to close its connection
    | Failed           // dial failed, about to report or give up
    | Finished

  datatype Caller =
    | Looping
    | ReturnedWinner(attempt: nat)
    | ReturnedFailed
    | ReturnedCancelled

  /** `winner` is the attempt that set the atomic flag; `live` are the connections ever dialled. */
  datatype State = State(
    attempts: seq<Attempt>, winner: Option<nat>, raceDone: bool, callerDone: bool,
    channel: seq<Result>, channelClosed: bool, caller: Caller, failures: seq<nat>,
    live: set<Conn>, closed: set<Conn>)

  datatype Action =
    | Delay(i: nat)            // the timer fires
    | GiveUp(i: nat)           // the race is over before the timer fires
    | Succeed(i: nat)
    | Fail(i: nat)
    | Swap(i: nat)
    | Send(i: nat)             // the winner's result enters the channel
    | CancelRace(i: nat)
    | CloseLoser(i: nat)
    | Report(i: nat)           // a failure enters the channel
    | Abandon(i: nat)          // a failure is dropped because the race is over
    | CloseChannel
    | Receive
    | SeeClosed
    | CallerCancels
    | SeeCancelled

  function Init(n: nat): State {
    State(seq(n, _ => Waiting), None, false, false, [], false, Looping, [], {}, {})
  }

  predicate At(s: State, i: nat, phase: Attempt) {
    i < |s.attempts| && s.attempts[i] == phase
  }

  /** The context the dials share is done once the winner, the caller's cancellation or the
      caller's return has cancelled it. */
  predicate RaceOver(s: State) {
    s.raceDone || s.callerDone || !s.caller.Looping?
  }

  predicate Enabled(s: State, a: Action) {
    match a
    case Delay(i) => At(s, i, Waiting)
    case GiveUp(i) => At(s, i, Waiting) && RaceOver(s)
    case Succeed(i) => At(s, i, Dialling)
    case Fail(i) => At(s, i, Dialling)
    case Swap(i) => At(s, i, Connected)
    case Send(i) => At(s, i, Won)
    case CancelRace(i) => At(s, i, Sent)
    case CloseLoser(i) => At(s, i, Losing)
    case Report(i) => At(s, i, Failed)
    case Abandon(i) => At(s, i, Failed) && RaceOver(s)
    case CloseChannel => !s.channelClosed && forall i :: 0 <= i < |s.attempts| ==> s.attempts[i] == Finished
    case Receive => s.caller.Looping? && s.channel != []
    case SeeClosed => s.caller.Looping? && s.channel == [] && s.channelClosed
    case CallerCancels => !s.callerDone
    case SeeCancelled => s.caller.Looping? && s.callerDone
  }

  function Apply(s: State, a: Action): State
    requires Enabled(s, a)
  {
    match a
    case Delay(i) => s.(attempts := s.attempts[i := Dialling])
    case GiveUp(i) => s.(attempts := s.attempts[i := Finished])
    case Succeed(i) => s.(attempts := s.attempts[i := Connected], live := s.live + {i})
    case Fail(i) => s.(attempts := s.attempts[i := Failed])
    case Swap(i) =>
      if s.winner.Some? then s.(attempts := s.attempts[i := Losing])
      else s.(attempts := s.attempts[i := Won], winner := Some(i))
    case Send(i) => s.(attempts := s.attempts[i := Sent], channel := s.channel + [Dialled(i)])
    case CancelRace(i) => s.(attempts := s.attempts[i := Finished], raceDone := true)
    case CloseLoser(i) => s.(attempts := s.attempts[i := Finished], closed := s.closed + {i})
    case Report(i) => s.(attempts := s.attempts[i := Finished], channel := s.channel + [Failure(i)])
    case Abandon(i) => s.(attempts := s.attempts[i := Finished])
    case CloseChannel => s.(channelClosed := true)
    case Receive =>
      var result := s.channel[0];
      (match result
       case Dialled(i) => s.(channel := s.channel[1..], caller := ReturnedWinner(i))
       case Failure(i) => s.(channel := s.channel[1..], failures := s.failures + [i]))
    case SeeClosed =>
      s.(caller := if s.failures == [] && s.callerDone then ReturnedCancelled else ReturnedFailed)
    case CallerCancels => s.(callerDone := true)
    case SeeCancelled => s.(caller := ReturnedCancelled)
  }

  predicate CanRun(s: State, actions: seq<Action>)
    decreases |actions|
  {
    actions == [] || (Enabled(s, actions[0]) && CanRun(Apply(s, actions[0]), actions[1..]))
  }

  function Run(s: State, actions: seq<Action>): State
    requires CanRun(s, actions)
    decreases |actions|
  {
    if actions == [] then s else Run(Apply(s, actions[0]), actions[1..])
  }

  // ----- The invariant ---------------------------------------------------------------------------

  function Failures(channel: seq<Result>): seq<nat> {
    if channel == [] then []
    else (if channel[0].Failure? then [channel[0].attempt] else []) + Failures(channel[1..])
  }

  /** Every failure the caller has seen or can still see. */
  function Reported(s: State): seq<nat> {
    s.failures + Failures(s.channel)
  }

  ghost predicate NoDuplicates(xs: seq<nat>) {
    forall i, j :: 0 <= i < j < |xs| ==> xs[i] != xs[j]
  }

  ghost predicate AttemptInv(s: State, i: nat)
    requires i < |s.attempts|
  {
    match s.attempts[i]
    case Connected => i in s.live && i !in s.closed && s.winner != Some(i)
    case Won => s.winner == Some(i) && i in s.live && i !in s.closed
    case Sent => s.winner == Some(i) && i in s.live && i !in s.closed
    case Losing => i in s.live && i !in s.closed && s.winner.Some? && s.winner != Some(i)
    case Finished => i in s.live ==> (i in s.closed <==> s.winner != Some(i))
    case _ => i !in s.live && s.winner != Some(i)
  }

  ghost predicate WinnerInv(s: State) {
    && (forall i: nat :: Dialled(i) in s.channel ==> s.winner == Some(i))
    && (s.caller.ReturnedWinner? ==> s.winner == Some(s.caller.attempt))
    && (s.winner.Some? ==> s.winner.value in s.live)
    && (s.winner.Some? ==>
          || At(s, s.winner.value, Won)
          || Dialled(s.winner.value) in s.channel || s.caller == ReturnedWinner(s.winner.value))
    && (s.raceDone || s.closed != {} ==> s.winner.Some?)
  }

  ghost predicate FailureInv(s: State) {
    && NoDuplicates(Reported(s))
    && (forall i: nat :: i in Reported(s) ==> At(s, i, Finished) && i !in s.live)
    && (s.winner == None && !s.callerDone ==>
          forall i :: 0 <= i < |s.attempts| && s.attempts[i] == Finished ==> i in Reported(s))
  }

  ghost predicate Inv(s: State) {
    && (forall i :: 0 <= i < |s.attempts| ==> AttemptInv(s, i))
    && (forall i: nat :: i in s.live ==> i < |s.attempts|) && s.closed <= s.live
    && WinnerInv(s)
    && FailureInv(s)
    && (s.channelClosed ==> forall i :: 0 <= i < |s.attempts| ==> s.attempts[i] == Finished)
    && (s.caller == ReturnedFailed ==> s.channelClosed && s.channel == [])
    && (s.caller == ReturnedCancelled ==> s.callerDone)
  }

  lemma {:induction false} FailuresAppend(a: seq<Result>, b: seq<Result>)
    ensures Failures(a + b) == Failures(a) + Failures(b)
  {
    if a == [] {
      assert a + b == b;
    } else {
      FailuresAppend(a[1..], b);
      assert (a + b)[1..] == a[1..] + b;
      Assoc(if a[0].Failure? then [a[0].attempt] else [], Failures(a[1..]), Failures(b));
    }
  }

  /** How a step changes the list of reported failures. */
  lemma ReportedAfter(s: State, a: Action)
    requires Enabled(s, a)
    ensures Reported(Apply(s, a)) == if a.Report? then Reported(s) + [a.i] else Reported(s)
  {
    match a
    case Send(i) =>
      FailuresAppend(s.channel, [Dialled(i)]);
      assert Failures([Dialled(i)]) == [];
    case Report(i) =>
      FailuresAppend(s.channel, [Failure(i)]);
      assert Failures([Failure(i)]) == [i];
      Assoc(s.failures, Failures(s.channel), [i]);
    case Receive =>
      if s.channel[0].Failure? {
        Assoc(s.failures, [s.channel[0].attempt], Failures(s.channel[1..]));
      }
    case _ =>
  }

  /** An attempt that is given up or abandoned means a winner or a cancelled caller. */
  lemma OverMeans(s: State, i: nat)
    requires Inv(s) && RaceOver(s) && i < |s.attempts| && s.attempts[i] != Finished
    ensures s.winner.Some? || s.callerDone
  {
  }

  lemma FailureStep(s: State, a: Action)
    requires Inv(s) && Enabled(s, a)
    ensures FailureInv(Apply(s, a))
  {
    var r := Apply(s, a);
    ReportedAfter(s, a);
    if a.Report? {
      assert a.i !in Reported(s);
      assert AttemptInv(s, a.i);
    }
    if a.GiveUp? || a.Abandon? {
      OverMeans(s, a.i);
    }
    if a.CancelRace? || a.CloseLoser? {
      assert AttemptInv(s, a.i);
    }
    forall i: nat | i in Reported(r)
      ensures At(r, i, Finished) && i !in r.live
    {
      if i in Reported(s) {
        assert At(s, i, Finished);
      }
    }
    if r.winner == None && !r.callerDone {
      forall i: nat | i < |r.attempts| && r.attempts[i] == Finished
        ensures i in Reported(r)
      {
        assert s.attempts[i] == Finished || (a.Report? && a.i == i);
      }
    }
  }

  lemma WinnerStep(s: State, a: Action)
    requires Inv(s) && Enabled(s, a)
    ensures WinnerInv(Apply(s, a))
  {
    var r := Apply(s, a);
    match a
    case Receive =>
      assert s.channel == [s.channel[0]] + s.channel[1..];
    case Swap(i) => assert AttemptInv(s, i);
    case Send(i) =>
      assert AttemptInv(s, i);
      assert Dialled(i) in s.channel + [Dialled(i)];
    case CancelRace(i) => assert AttemptInv(s, i);
    case CloseLoser(i) => assert AttemptInv(s, i);
    case _ =>
  }

  lemma AttemptStep(s: State, a: Action, i: nat)
    requires Inv(s) && Enabled(s, a) && i < |s.attempts|
    ensures AttemptInv(Apply(s, a), i)
  {
    assert AttemptInv(s, i);
    if a.Swap? {
      SwapStep(s, a.i, i);
    } else if a.CloseLoser? {
      CloseStep(s, a.i, i);
    } else {
      OtherStep(s, a, i);
    }
  }

  lemma SwapStep(s: State, j: nat, i: nat)
    requires Inv(s) && Enabled(s, Swap(j)) && i < |s.attempts|
    ensures AttemptInv(Apply(s, Swap(j)), i)
  {
    assert AttemptInv(s, i) && AttemptInv(s, j);
  }

  lemma CloseStep(s: State, j: nat, i: nat)
    requires Inv(s) && Enabled(s, CloseLoser(j)) && i < |s.attempts|
    ensures AttemptInv(Apply(s, CloseLoser(j)), i)
  {
    assert AttemptInv(s, i) && AttemptInv(s, j);
  }

  lemma OtherStep(s: State, a: Action, i: nat)
    requires Inv(s) && Enabled(s, a) && i < |s.attempts| && !a.Swap? && !a.CloseLoser?
    ensures AttemptInv(Apply(s, a), i)
  {
    assert AttemptInv(s, i);
  }

  lemma StepInv(s: State, a: Action)
    requires Inv(s) && Enabled(s, a)
    ensures Inv(Apply(s, a))
  {
    var r := Apply(s, a);
    FailureStep(s, a);
    WinnerStep(s, a);
    forall i: nat | i < |r.attempts|
      ensures AttemptInv(r, i)
    {
      AttemptStep(s, a, i);
    }
    if a.CloseLoser? {
      assert AttemptInv(s, a.i);
    }
  }

  lemma {:induction false} RunInv(s: State, actions: seq<Action>)
    requires Inv(s) && CanRun(s, actions)
    ensures Inv(Run(s, actions))
    ensures |Run(s, actions).attempts| == |s.attempts|
    decreases |actions|
  {
    if actions != [] {
      StepInv(s, actions[0]);
      RunInv(Apply(s, actions[0]), actions[1..]);
    }
  }

  lemma InitInv(n: nat)
    ensures Inv(Init(n))
  {
  }

  // ----- The outcome --------------------------------------------------------------------------------

  ghost predicate AllFinished(s: State) {
    forall i :: 0 <= i < |s.attempts| ==> s.attempts[i] == Finished
  }

  /** Attempt i's success is on its way to the caller, or has been returned. */
  predicate Success(s: State, i: nat) {
    Dialled(i) in s.channel || s.caller == ReturnedWinner(i)
  }

  lemma FailuresSeen(s: State)
    requires FailureInv(s)
    ensures NoDuplicates(s.failures)
    ensures forall i: nat :: i in s.failures ==> At(s, i, Finished) && i !in s.live
  {
    assert s.failures == Reported(s)[..|s.failures|];
  }

  /** In every interleaving: results carry at most one success, the returned connection was dialled
      and is never closed by the race, and once the goroutines have finished every other one is; the
      failures handed to the caller are distinct attempts that dialled nothing. */
  lemma RaceOutcome(n: nat, actions: seq<Action>)
    requires CanRun(Init(n), actions)
    ensures var s := Run(Init(n), actions);
      && (forall i: nat, j: nat :: Success(s, i) && Success(s, j) ==> i == j)
      && (s.caller.ReturnedWinner? ==> s.caller.attempt in s.live && s.caller.attempt !in s.closed)
      && (s.caller.ReturnedWinner? && AllFinished(s) ==> s.closed == s.live - {s.caller.attempt})
      && NoDuplicates(s.failures) && (forall i: nat :: i in s.failures ==> i < n && i !in s.live)
  {
    InitInv(n);
    RunInv(Init(n), actions);
    var s := Run(Init(n), actions);
    FailuresSeen(s);
    if s.caller.ReturnedWinner? {
      assert AttemptInv(s, s.caller.attempt);
      if AllFinished(s) {
        forall i: nat | i in s.live - {s.caller.attempt} ensures i in s.closed { assert AttemptInv(s, i); }
      }
    }
  }

  /** A race that reports failure has dialled nothing, and unless the caller cancelled it, its failure
      list names every attempt exactly once. */
  lemma FailedRaceListsEveryAttempt(n: nat, actions: seq<Action>)
    requires CanRun(Init(n), actions) && Run(Init(n), actions).caller == ReturnedFailed
    ensures var s := Run(Init(n), actions);
      && s.live == {}
      && NoDuplicates(s.failures)
      && (!s.callerDone ==> forall i: nat :: i < n <==> i in s.failures)
  {
    InitInv(n);
    RunInv(Init(n), actions);
    var s := Run(Init(n), actions);
    assert Reported(s) == s.failures;
    forall i: nat ensures i !in s.live { assert i < n ==> AttemptInv(s, i); }
  }

  /** Once everything has finished, a dialled connection is left neither closed nor returned exactly
      when the caller's cancellation was seen after some attempt had already won. */
  lemma OrphanIffCancelledAfterWin(n: nat, actions: seq<Action>, i: nat)
    requires CanRun(Init(n), actions)
    requires AllFinished(Run(Init(n), actions)) && !Run(Init(n), actions).caller.Looping?
    ensures var s := Run(Init(n), actions);
      (i in s.live && i !in s.closed && s.caller != ReturnedWinner(i))
        <==> (s.caller == ReturnedCancelled && s.winner == Some(i))
  {
    InitInv(n);
    RunInv(Init(n), actions);
    var s := Run(Init(n), actions);
    if i in s.live {
      assert AttemptInv(s, i);
    }
  }

  /** A caller who never cancels loses no connection: once everything has finished, each dialled one
      is closed or returned, or still waits in the channel the caller is about to read. */
  lemma PatientCallerLosesNothing(n: nat, actions: seq<Action>, i: nat)
    requires CanRun(Init(n), actions) && CallerCancels !in actions
    requires AllFinished(Run(Init(n), actions)) && i in Run(Init(n), actions).live
    ensures var s := Run(Init(n), actions);
      i in s.closed || s.caller == ReturnedWinner(i) || (s.caller.Looping? && Dialled(i) in s.channel)
  {
    InitInv(n);
    RunInv(Init(n), actions);
    NeverCancelled(Init(n), actions);
    assert AttemptInv(Run(Init(n), actions), i);
  }

  /** A caller that waits for the channel to close hears of its own cancellation only when no attempt has told it of
      a failure: a failure told is never swallowed. */
  lemma {:induction false} FailuresAreNotSwallowed(s: State, actions: seq<Action>)
    requires CanRun(s, actions) && SeeCancelled !in actions && s.caller.Looping?
    ensures Run(s, actions).caller == ReturnedCancelled ==> Run(s, actions).failures == [] && Run(s, actions).callerDone
    decreases |actions|
  {
    if actions != [] {
      var t := Apply(s, actions[0]);
      if t.caller.Looping? {
        FailuresAreNotSwallowed(t, actions[1..]);
      } else {
        ReturnedForGood(t, actions[1..]);
      }
    }
  }

  lemma {:induction false} ReturnedForGood(s: State, actions: seq<Action>)
    requires CanRun(s, actions) && !s.caller.Looping?
    ensures Run(s, actions).caller == s.caller && Run(s, actions).failures == s.failures
    ensures s.callerDone ==> Run(s, actions).callerDone
    decreases |actions|
  {
    if actions != [] {
      ReturnedForGood(Apply(s, actions[0]), actions[1..]);
    }
  }

  lemma {:induction false} NeverCancelled(s: State, actions: seq<Action>)
    requires CanRun(s, actions) && CallerCancels !in actions
    ensures Run(s, actions).callerDone == s.callerDone
    decreases |actions|
  {
    if actions != [] {
      assert actions[0] != CallerCancels;
      NeverCancelled(Apply(s, actions[0]), actions[1..]);
    }
  }

  /** A run in which the caller cancels and does lose one. */
  const ORPHAN_RUN: seq<Action> := [
    Delay(0), Succeed(0), CallerCancels, Swap(0), Send(0), SeeCancelled, CancelRace(0)]

  lemma OrphanRunExists()
    ensures CanRun(Init(1), ORPHAN_RUN)
    ensures var s := Run(Init(1), ORPHAN_RUN);
      AllFinished(s) && s.live == {0} && s.closed == {} && s.caller == ReturnedCancelled
  {
    assert Init(1) == ONE_WAITING;
    OrphanRunFrom();
    assert ORPHAN_RUN[0..] == ORPHAN_RUN;
  }

  const ONE_WAITING := State([Waiting], None, false, false, [], false, Looping, [], {}, {})

  const ORPHANED := State([Finished], Some(0), true, true, [Dialled(0)], false, ReturnedCancelled, [], {0}, {})
  const CANCELLED := State([Connected], None, false, true, [], false, Looping, [], {0}, {})

  lemma OrphanRunFrom()
    ensures CanRun(ONE_WAITING, ORPHAN_RUN[0..]) && Run(ONE_WAITING, ORPHAN_RUN[0..]) == ORPHANED
  {
    WinnerAfterCancellation();
    var s1 := ONE_WAITING.(attempts := [Dialling]);
    var s2 := ONE_WAITING.(attempts := [Connected], live := {0});
    RunOne(s2, CANCELLED, ORPHAN_RUN, 2);
    RunOne(s1, s2, ORPHAN_RUN, 1);
    RunOne(ONE_WAITING, s1, ORPHAN_RUN, 0);
  }

  lemma WinnerAfterCancellation()
    ensures CanRun(CANCELLED, ORPHAN_RUN[3..]) && Run(CANCELLED, ORPHAN_RUN[3..]) == ORPHANED
  {
    var s4 := CANCELLED.(attempts := [Won], winner := Some(0));
    var s5 := s4.(attempts := [Sent], channel := [Dialled(0)]);
    var s6 := s5.(caller := ReturnedCancelled);
    RunOne(s6, ORPHANED, ORPHAN_RUN, 6);
    RunOne(s5, s6, ORPHAN_RUN, 5);
    RunOne(s4, s5, ORPHAN_RUN, 4);
    RunOne(CANCELLED, s4, ORPHAN_RUN, 3);
  }

  /** One step of a run given by its remaining actions. */
  lemma RunOne(s: State, t: State, actions: seq<Action>, i: nat)
    requires i < |actions| && Enabled(s, actions[i]) && Apply(s, actions[i]) == t
    requires CanRun(t, actions[i + 1..])
    ensures CanRun(s, actions[i..]) && Run(s, actions[i..]) == Run(t, actions[i + 1..])
  {
    assert actions[i..][0] == actions[i] && actions[i..][1..] == actions[i + 1..];
  }
}
