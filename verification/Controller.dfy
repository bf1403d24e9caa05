// mobile/mobile.go: the one SOCKS runtime that several Android components start and stop. A run is
// any interleaving of StartOwned and StopOwned calls and of the serve goroutines they leave behind.
module Controller {
  import opened Bytes
  import opened Text

  /** One serve goroutine. Generation g is element g - 1. */
  datatype Serve = Launched | Serving | Returned(failed: bool) | Cleared | Closed

  /** One stopOwned call. */
  datatype Stop =
    | Entering
    | Cancelling(target: nat, newest: nat)   // unlocked, about to call the cancel function it read
    | Waiting(target: nat)                   // for done or the timeout
    | StopReturned

  datatype StopCall = StopCall(owner: text, phase: Stop)

  /** A call of runtime `target`'s cancel function by a stop for `owner` that looked when `newest` was
      the current generation. */
  datatype Cancellation = Cancellation(owner: text, target: nat, newest: nat)

  datatype LastError = NoError | StartFailed | ListenerStopped(generation: nat) | StopTimedOut(blamed: nat, target: nat)

  /** `registered` is the runtime behind controller.cancel; `starters` are the owners generations were
      started for. */
  datatype State = State(
    registered: Option<nat>, owner: text, generation: nat, starters: seq<text>, serves: seq<Serve>,
    stops: seq<StopCall>, cancelled: set<nat>, cancellations: seq<Cancellation>, lastError: LastError)

  const LEGACY: text := [108, 101, 103, 97, 99, 121]

  const IDLE := State(None, [], 0, [], [], [], {}, [], NoError)

  datatype Action =
    | StartOwned(owner: text, binds: bool)
    | StopOwned(owner: text)
    | Serves(g: nat)                     // the goroutine reports that it serves
    | ServeReturns(g: nat, failed: bool)
    | Clear(g: nat)
    | CloseDone(g: nat)
    | Look(i: nat)                       // the locked part of stopOwned
    | Cancel(i: nat)
    | SeeDone(i: nat)
    | TimeOut(i: nat)

  function OwnerOf(raw: text): text {
    if Trim(raw) == [] then LEGACY else Trim(raw)
  }

  function ServeOf(s: State, g: nat): Serve {
    if 1 <= g <= |s.serves| then s.serves[g - 1] else Closed
  }

  function PhaseOf(s: State, i: nat): Stop {
    if i < |s.stops| then s.stops[i].phase else StopReturned
  }

  predicate Enabled(s: State, a: Action) {
    match a
    case StartOwned(_, _) => true
    case StopOwned(_) => true
    case Serves(g) => ServeOf(s, g) == Launched
    case ServeReturns(g, _) => ServeOf(s, g) == Serving
    case Clear(g) => ServeOf(s, g).Returned?
    case CloseDone(g) => ServeOf(s, g) == Cleared
    case Look(i) => PhaseOf(s, i) == Entering
    case Cancel(i) => PhaseOf(s, i).Cancelling?
    case SeeDone(i) => PhaseOf(s, i).Waiting? && ServeOf(s, PhaseOf(s, i).target) == Closed
    case TimeOut(i) => PhaseOf(s, i).Waiting?
  }

  function Serve1(s: State, g: nat, serve: Serve): State
    requires 1 <= g <= |s.serves|
  {
    s.(serves := s.serves[g - 1 := serve])
  }

  function Stop1(s: State, i: nat, phase: Stop): State
    requires i < |s.stops|
  {
    s.(stops := s.stops[i := s.stops[i].(phase := phase)])
  }

  function Apply(s: State, a: Action): State
    requires Enabled(s, a)
  {
    match a
    case StartOwned(raw, binds) =>
      if s.registered.Some? then s
      else if !binds then s.(lastError := StartFailed)
      else
        State(Some(s.generation + 1), OwnerOf(raw), s.generation + 1, s.starters + [OwnerOf(raw)],
              s.serves + [Launched], s.stops, s.cancelled, s.cancellations, NoError)
    case StopOwned(raw) => s.(stops := s.stops + [StopCall(Trim(raw), Entering)])
    case Serves(g) => Serve1(s, g, Serving)
    case ServeReturns(g, failed) => Serve1(s, g, Returned(failed))
    case Clear(g) =>
      var t := Serve1(s, g, Cleared);
      if s.generation != g then t
      else
        t.(registered := None, owner := [],
           lastError := if s.serves[g - 1].failed && g !in s.cancelled then ListenerStopped(g) else s.lastError)
    case CloseDone(g) => Serve1(s, g, Closed)
    case Look(i) =>
      if s.registered.None? || (s.stops[i].owner != [] && s.owner != s.stops[i].owner) then Stop1(s, i, StopReturned)
      else Stop1(s, i, Cancelling(s.registered.value, s.generation))
    case Cancel(i) =>
      var stop := s.stops[i];
      Stop1(s, i, Waiting(stop.phase.target)).(
        cancelled := s.cancelled + {stop.phase.target},
        cancellations := s.cancellations + [Cancellation(stop.owner, stop.phase.target, stop.phase.newest)])
    case SeeDone(i) => Stop1(s, i, StopReturned)
    case TimeOut(i) =>
      var t := Stop1(s, i, StopReturned);
      if s.registered.Some? then t.(lastError := StopTimedOut(s.registered.value, s.stops[i].phase.target)) else t
  }

  predicate CanRun(s: State, actions: seq<Action>)
    decreases |actions|
  {
    actions == [] || (Enabled(s, actions[0]) && CanRun(Apply(s, actions[0]), actions[1..]))
  }

  function Run(s: State, actions: seq<Action>): State
    requires CanRun(s, actions)
    decreases |actions|
  {
    if actions == [] then s else Run(Apply(s, actions[0]), actions[1..])
  }

  // ----- The invariant ---------------------------------------------------------------------------------

  /** The goroutine has not yet run its final locked section. */
  predicate Uncleared(s: State, g: nat) {
    ServeOf(s, g).Launched? || ServeOf(s, g).Serving? || ServeOf(s, g).Returned?
  }

  /** A stop for `owner` may act on runtime g. */
  predicate Entitled(s: State, owner: text, g: nat) {
    1 <= g <= |s.starters| && (owner == [] || s.starters[g - 1] == owner)
  }

  predicate StopInv(s: State, call: StopCall) {
    match call.phase
    case Cancelling(target, newest) => Entitled(s, call.owner, target) && target == newest
    case Waiting(target) => Entitled(s, call.owner, target) && target in s.cancelled
    case _ => true
  }

  ghost predicate Inv(s: State) {
    && s.generation == |s.starters| == |s.serves|
    && (forall g: nat :: Uncleared(s, g) <==> s.registered == Some(g))
    && (s.registered.Some? ==> s.registered.value == s.generation > 0 && s.owner == s.starters[s.generation - 1])
    && (s.registered.None? ==> s.owner == [])
    && (forall i :: 0 <= i < |s.starters| ==> s.starters[i] != [])
    && (forall i :: 0 <= i < |s.stops| ==> StopInv(s, s.stops[i]))
    && (forall c :: c in s.cancellations ==> Entitled(s, c.owner, c.target) && c.target == c.newest)
    && (forall g :: g in s.cancelled <==> exists c :: c in s.cancellations && c.target == g)
  }

  lemma StartInv(s: State, raw: text, binds: bool)
    requires Inv(s)
    ensures Inv(Apply(s, StartOwned(raw, binds)))
  {
    var t := Apply(s, StartOwned(raw, binds));
    if t.registered != s.registered {
      forall g: nat
        ensures Uncleared(t, g) <==> t.registered == Some(g)
      {
        assert g != t.generation ==> ServeOf(t, g) == ServeOf(s, g);
        assert Uncleared(s, g) <==> s.registered == Some(g);
      }
      forall i | 0 <= i < |t.stops| ensures StopInv(t, t.stops[i]) { assert StopInv(s, s.stops[i]); }
    }
  }

  lemma ServeInv(s: State, a: Action)
    requires Inv(s) && Enabled(s, a) && (a.Serves? || a.ServeReturns? || a.Clear? || a.CloseDone?)
    ensures Inv(Apply(s, a))
  {
    var t := Apply(s, a);
    assert Uncleared(s, a.g) <==> s.registered == Some(a.g);
    forall g: nat
      ensures Uncleared(t, g) <==> t.registered == Some(g)
    {
      assert g != a.g ==> ServeOf(t, g) == ServeOf(s, g);
      assert Uncleared(s, g) <==> s.registered == Some(g);
    }
    forall i | 0 <= i < |t.stops| ensures StopInv(t, t.stops[i]) { assert StopInv(s, s.stops[i]); }
  }

  lemma StopStepInv(s: State, a: Action)
    requires Inv(s) && Enabled(s, a) && (a.Look? || a.SeeDone? || a.TimeOut?)
    ensures Inv(Apply(s, a))
  {
    var t := Apply(s, a);
    forall g: nat
      ensures Uncleared(t, g) <==> t.registered == Some(g)
    {
      assert ServeOf(t, g) == ServeOf(s, g);
      assert Uncleared(s, g) <==> s.registered == Some(g);
    }
    forall i | 0 <= i < |t.stops| ensures StopInv(t, t.stops[i]) { assert StopInv(s, s.stops[i]); }
  }

  lemma CancelInv(s: State, i: nat)
    requires Inv(s) && Enabled(s, Cancel(i))
    ensures Inv(Apply(s, Cancel(i)))
  {
    var t := Apply(s, Cancel(i));
    assert StopInv(s, s.stops[i]);
    var added := t.cancellations[|s.cancellations|];
    forall g: nat
      ensures Uncleared(t, g) <==> t.registered == Some(g)
    {
      assert ServeOf(t, g) == ServeOf(s, g);
      assert Uncleared(s, g) <==> s.registered == Some(g);
    }
    forall k | 0 <= k < |t.stops| ensures StopInv(t, t.stops[k]) { assert StopInv(s, s.stops[k]); }
    assert forall c :: c in t.cancellations <==> c in s.cancellations || c == added;
  }

  lemma StepInv(s: State, a: Action)
    requires Inv(s) && Enabled(s, a)
    ensures Inv(Apply(s, a))
  {
    match a
    case StartOwned(raw, binds) => StartInv(s, raw, binds);
    case StopOwned(raw) =>
      var t := Apply(s, a);
      assert forall g: nat :: ServeOf(t, g) == ServeOf(s, g) && (Uncleared(t, g) <==> Uncleared(s, g));
      forall i | 0 <= i < |s.stops| ensures StopInv(t, t.stops[i]) { assert StopInv(s, s.stops[i]); }
    case Cancel(i) => CancelInv(s, i);
    case Look(_) => StopStepInv(s, a);
    case SeeDone(_) => StopStepInv(s, a);
    case TimeOut(_) => StopStepInv(s, a);
    case _ => ServeInv(s, a);
  }

  lemma {:induction false} RunInv(s: State, actions: seq<Action>)
    requires Inv(s) && CanRun(s, actions)
    ensures Inv(Run(s, actions))
    decreases |actions|
  {
    if actions != [] {
      StepInv(s, actions[0]);
      RunInv(Apply(s, actions[0]), actions[1..]);
    }
  }

  // ----- What every run guarantees ---------------------------------------------------------------------

  /** A runtime is registered exactly while its serve goroutine has not cleared it; there is never a
      second such goroutine, and its generation is the current one. */
  lemma RegisteredIffServing(actions: seq<Action>, g: nat)
    requires CanRun(IDLE, actions)
    ensures var s := Run(IDLE, actions);
      && (s.registered == Some(g) <==> Uncleared(s, g))
      && (Uncleared(s, g) ==> 1 <= g == s.generation == |s.starters| && s.owner == s.starters[g - 1])
      && (s.registered == None <==> s.owner == [])
  {
    RunInv(IDLE, actions);
  }

  /** A stop cancels only the runtime that was current when it looked, and if it names an owner, only
      one started for that owner, however starts and stops interleave. */
  lemma StopsStayWithTheirOwner(actions: seq<Action>, c: Cancellation)
    requires CanRun(IDLE, actions) && c in Run(IDLE, actions).cancellations
    ensures var s := Run(IDLE, actions);
      && 1 <= c.target == c.newest <= s.generation == |s.starters|
      && (c.owner != [] ==> s.starters[c.target - 1] == c.owner)
  {
    RunInv(IDLE, actions);
  }

  /** Only a stop cancels a runtime: of its owner, or without an owner. */
  lemma OnlyStopsCancel(actions: seq<Action>, g: nat)
    requires CanRun(IDLE, actions)
    ensures var s := Run(IDLE, actions);
      g in s.cancelled ==>
        && 1 <= g <= |s.starters|
        && exists c :: c in s.cancellations && c.target == g && c.owner in {[], s.starters[g - 1]}
  {
    RunInv(IDLE, actions);
    var s := Run(IDLE, actions);
    if g in s.cancelled {
      var c :| c in s.cancellations && c.target == g;
      assert Entitled(s, c.owner, g);
    }
  }

  /** StopOwned proceeds against another owner's runtime exactly when its own argument is blank:
      a blank owner then means the same as Stop. */
  lemma BlankOwnerStopsAnyone(actions: seq<Action>, raw: text)
    requires CanRun(IDLE, actions) && Run(IDLE, actions).registered.Some?
    ensures var s := Run(IDLE, actions);
      var called := Apply(s, StopOwned(raw));
      Enabled(called, Look(|s.stops|)) &&
      var looked := Apply(called, Look(|s.stops|));
      PhaseOf(looked, |s.stops|).Cancelling? <==> Trim(raw) == [] || Trim(raw) == s.owner
  {
    RunInv(IDLE, actions);
  }

  /** A start registers a runtime exactly when none is registered and its listener binds; while one is registered it
      changes nothing, and without a listener it leaves its own error. */
  lemma StartRegistersIff(actions: seq<Action>, raw: text, binds: bool)
    requires CanRun(IDLE, actions)
    ensures var s := Run(IDLE, actions);
      var t := Apply(s, StartOwned(raw, binds));
      && (s.registered == None && binds <==> |t.starters| == |s.starters| + 1)
      && (|t.starters| > |s.starters| ==>
            && t.registered == Some(|t.starters|) && t.lastError == NoError
            && t.starters == s.starters + [if Trim(raw) == [] then [108, 101, 103, 97, 99, 121] else Trim(raw)])
      && (s.registered.Some? ==> t == s)
      && (s.registered == None && !binds ==> t == s.(lastError := StartFailed))
  {
    RunInv(IDLE, actions);
  }

  /** A runtime that ends frees its registration, and leaves an error exactly when its serve loop failed and no stop
      has cancelled it. */
  lemma EndReportsIff(actions: seq<Action>, g: nat)
    requires CanRun(IDLE, actions) && Enabled(Run(IDLE, actions), Clear(g))
    ensures var s := Run(IDLE, actions);
      var t := Apply(s, Clear(g));
      && s.registered == Some(g) && t.registered == None
      && t.lastError == (if s.serves[g - 1].failed && forall c :: c in s.cancellations ==> c.target != g
                         then ListenerStopped(g) else s.lastError)
  {
    RunInv(IDLE, actions);
    var s := Run(IDLE, actions);
    assert Uncleared(s, g);
    assert g in s.cancelled <==> exists c :: c in s.cancellations && c.target == g;
  }

  /** A stop that times out while a runtime is registered blames its own target exactly when that
      target has not been cleared; otherwise the blame falls on a runtime started since. */
  lemma TimeoutBlamesOwnTargetIffUncleared(actions: seq<Action>, i: nat)
    requires CanRun(IDLE, actions) && Enabled(Run(IDLE, actions), TimeOut(i))
    requires Run(IDLE, actions).registered.Some?
    ensures var s := Run(IDLE, actions);
      var target := PhaseOf(s, i).target;
      && Apply(s, TimeOut(i)).lastError == StopTimedOut(s.registered.value, target)
      && (s.registered.value == target <==> Uncleared(s, target))
      && (!Uncleared(s, target) ==> target < s.registered.value)
  {
    RunInv(IDLE, actions);
    var s := Run(IDLE, actions);
    assert StopInv(s, s.stops[i]);
    assert Uncleared(s, PhaseOf(s, i).target) <==> s.registered == Some(PhaseOf(s, i).target);
  }

  const FIRST: text := [97]
  const SECOND: text := [98]

  /** The timer fires although the runtime it waited for has ended and another has started. */
  const LATE_TIMEOUT: seq<Action> := [
    StartOwned(FIRST, true), Serves(1), StopOwned(FIRST), Look(0), Cancel(0), ServeReturns(1, false), Clear(1),
    StartOwned(SECOND, true), TimeOut(0)]

  const STOPPING := State(Some(1), FIRST, 1, [FIRST], [Serving], [StopCall(FIRST, Cancelling(1, 1))], {}, [], NoError)
  const ENDED :=
    State(None, [], 1, [FIRST], [Cleared], [StopCall(FIRST, Waiting(1))], {1}, [Cancellation(FIRST, 1, 1)], NoError)
  const BLAMED :=
    State(Some(2), SECOND, 2, [FIRST, SECOND], [Cleared, Launched], [StopCall(FIRST, StopReturned)], {1},
          [Cancellation(FIRST, 1, 1)], StopTimedOut(2, 1))

  lemma LateTimeoutBlamesNewRuntime()
    ensures CanRun(IDLE, LATE_TIMEOUT) && Run(IDLE, LATE_TIMEOUT) == BLAMED
    ensures BLAMED.registered == Some(2) && BLAMED.cancelled == {1} && BLAMED.lastError == StopTimedOut(2, 1)
  {
    SingleLetters();
    StopEnds();
    var s1 := IDLE.(registered := Some(1), owner := FIRST, generation := 1, starters := [FIRST], serves := [Launched]);
    var s2 := s1.(serves := [Serving]);
    var s3 := s2.(stops := [StopCall(FIRST, Entering)]);
    RunOne(s3, STOPPING, LATE_TIMEOUT, 3);
    RunOne(s2, s3, LATE_TIMEOUT, 2);
    RunOne(s1, s2, LATE_TIMEOUT, 1);
    RunOne(IDLE, s1, LATE_TIMEOUT, 0);
    assert LATE_TIMEOUT[0..] == LATE_TIMEOUT;
  }

  lemma StopEnds()
    ensures CanRun(STOPPING, LATE_TIMEOUT[4..]) && Run(STOPPING, LATE_TIMEOUT[4..]) == BLAMED
  {
    NextRuntime();
    var s5 := ENDED.(registered := Some(1), owner := FIRST, serves := [Serving]);
    var s6 := s5.(serves := [Returned(false)]);
    RunOne(s6, ENDED, LATE_TIMEOUT, 6);
    RunOne(s5, s6, LATE_TIMEOUT, 5);
    RunOne(STOPPING, s5, LATE_TIMEOUT, 4);
  }

  lemma NextRuntime()
    ensures CanRun(ENDED, LATE_TIMEOUT[7..]) && Run(ENDED, LATE_TIMEOUT[7..]) == BLAMED
  {
    SingleLetters();
    var s8 := BLAMED.(stops := [StopCall(FIRST, Waiting(1))], lastError := NoError);
    RunOne(s8, BLAMED, LATE_TIMEOUT, 8);
    RunOne(ENDED, s8, LATE_TIMEOUT, 7);
  }

  lemma SingleLetters()
    ensures Trim(FIRST) == FIRST && Trim(SECOND) == SECOND
  {
  }

  lemma RunOne(s: State, t: State, actions: seq<Action>, i: nat)
    requires i < |actions| && Enabled(s, actions[i]) && Apply(s, actions[i]) == t
    requires CanRun(t, actions[i + 1..])
    ensures CanRun(s, actions[i..]) && Run(s, actions[i..]) == Run(t, actions[i + 1..])
  {
    assert actions[i..][0] == actions[i] && actions[i..][1..] == actions[i + 1..];
  }
}
