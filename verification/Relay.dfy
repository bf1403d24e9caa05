// The UDP relay table of pkg/tunnel/quic_datagram.go. Calls of upstream, drop and close and the
// per-socket readers are threads; each step is one critical section or one blocking operation,
// so a run is any interleaving of them.
module Relay {
  import opened Bytes

  type Dest = string
  type Sock = nat
  type Tid = nat

  const MAX_DESTINATIONS := 64

  datatype Thread =
    | Checking(dest: Dest)              // upstream, before its first lock
    | Dialling(dest: Dest)
    | Rechecking(dest: Dest, sock: Sock) // upstream, before its second lock
    | Discarding(sock: Sock)            // upstream lost or was refused, must close its own socket
    | Reading(dest: Dest, sock: Sock)   // readResponses
    | Dropping(dest: Dest, reader: Option<Sock>) // drop, before its lock; the socket whose reader calls it
    | ShuttingDown                      // close, before its lock
    | Closing(socks: set<Sock>)         // removed from the table, being closed
    | Done

  /** Sockets are numbered in the order they are dialled. */
  datatype State = State(table: map<Dest, Sock>, threads: map<Tid, Thread>, dialled: nat, closed: set<Sock>)

  datatype Action =
    | Call(t: Tid, dest: Dest)
    | Check(t: Tid)
    | DialFails(t: Tid)
    | DialSucceeds(t: Tid, allowed: bool) // `allowed`: the remote address passed the private-address check
    | Recheck(t: Tid, reader: Tid)
    | Discard(t: Tid)
    | ReadFails(t: Tid)
    | ReaderQuits(t: Tid)
    | StartDrop(t: Tid, dest: Dest)
    | Drop(t: Tid)
    | StartClose(t: Tid)
    | Shutdown(t: Tid)
    | CloseOne(t: Tid, sock: Sock)

  const Init := State(map[], map[], 0, {})

  predicate Enabled(s: State, a: Action) {
    match a
    case Call(t, _) => t !in s.threads
    case StartDrop(t, _) => t !in s.threads
    case StartClose(t) => t !in s.threads
    case Check(t) => t in s.threads && s.threads[t].Checking?
    case DialFails(t) => t in s.threads && s.threads[t].Dialling?
    case DialSucceeds(t, _) => t in s.threads && s.threads[t].Dialling?
    case Recheck(t, reader) => t in s.threads && s.threads[t].Rechecking? && reader !in s.threads
    case Discard(t) => t in s.threads && s.threads[t].Discarding?
    case ReadFails(t) => t in s.threads && s.threads[t].Reading?
    case ReaderQuits(t) => t in s.threads && s.threads[t].Reading?
    case Drop(t) => t in s.threads && s.threads[t].Dropping?
    case Shutdown(t) => t in s.threads && s.threads[t].ShuttingDown?
    case CloseOne(t, sock) => t in s.threads && s.threads[t].Closing? && sock in s.threads[t].socks
  }

  function ToClose(socks: set<Sock>): Thread {
    if socks == {} then Done else Closing(socks)
  }

  function Apply(s: State, a: Action): State
    requires Enabled(s, a)
  {
    match a
    case Call(t, dest) => s.(threads := s.threads[t := Checking(dest)])
    case StartDrop(t, dest) => s.(threads := s.threads[t := Dropping(dest, None)])
    case StartClose(t) => s.(threads := s.threads[t := ShuttingDown])
    case Check(t) =>
      var dest := s.threads[t].dest;
      s.(threads := s.threads[t :=
        if dest in s.table || |s.table| >= MAX_DESTINATIONS then Done else Dialling(dest)])
    case DialFails(t) => s.(threads := s.threads[t := Done])
    case DialSucceeds(t, allowed) =>
      s.(threads := s.threads[t :=
           if allowed then Rechecking(s.threads[t].dest, s.dialled) else Discarding(s.dialled)],
         dialled := s.dialled + 1)
    case Recheck(t, reader) =>
      var Rechecking(dest, sock) := s.threads[t];
      if dest in s.table || |s.table| >= MAX_DESTINATIONS then s.(threads := s.threads[t := Discarding(sock)])
      else s.(table := s.table[dest := sock], threads := s.threads[t := Done][reader := Reading(dest, sock)])
    case Discard(t) => s.(closed := s.closed + {s.threads[t].sock}, threads := s.threads[t := Done])
    case ReadFails(t) => s.(threads := s.threads[t := Dropping(s.threads[t].dest, Some(s.threads[t].sock))])
    case ReaderQuits(t) => s.(threads := s.threads[t := Done])
    case Drop(t) =>
      var dest := s.threads[t].dest;
      if dest in s.table
      then s.(table := s.table - {dest}, threads := s.threads[t := Closing({s.table[dest]})])
      else s.(threads := s.threads[t := Done])
    case Shutdown(t) => s.(table := map[], threads := s.threads[t := ToClose(s.table.Values)])
    case CloseOne(t, sock) =>
      s.(closed := s.closed + {sock}, threads := s.threads[t := ToClose(s.threads[t].socks - {sock})])
  }

  predicate CanRun(s: State, actions: seq<Action>)
    decreases |actions|
  {
    actions == [] || (Enabled(s, actions[0]) && CanRun(Apply(s, actions[0]), actions[1..]))
  }

  function Run(s: State, actions: seq<Action>): State
    requires CanRun(s, actions)
    decreases |actions|
  {
    if actions == [] then s else Run(Apply(s, actions[0]), actions[1..])
  }

  // ----- Where a socket is --------------------------------------------------------------------

  /** The sockets a thread holds and has yet to install or close. */
  function Owned(th: Thread): set<Sock> {
    match th
    case Rechecking(_, sock) => {sock}
    case Discarding(sock) => {sock}
    case Closing(socks) => socks
    case _ => {}
  }

  predicate OwnedBy(s: State, t: Tid, sock: Sock) {
    t in s.threads && sock in Owned(s.threads[t])
  }

  predicate Installed(s: State, dest: Dest, sock: Sock) {
    dest in s.table && s.table[dest] == sock
  }

  /** Exactly one of these holds of a dialled socket in a reachable state; see Partition. */
  ghost predicate Held(s: State, sock: Sock) {
    exists t :: OwnedBy(s, t, sock)
  }

  ghost predicate InTable(s: State, sock: Sock) {
    exists d :: Installed(s, d, sock)
  }

  ghost predicate Inv(s: State) {
    && |s.table| <= MAX_DESTINATIONS
    && (forall d, e, sock: Sock :: Installed(s, d, sock) && Installed(s, e, sock) ==> d == e)
    && (forall d, sock: Sock :: Installed(s, d, sock) ==> sock < s.dialled && sock !in s.closed)
    && (forall t: Tid, sock: Sock :: OwnedBy(s, t, sock) ==> sock < s.dialled && sock !in s.closed)
    && (forall t: Tid, d, sock: Sock :: OwnedBy(s, t, sock) ==> !Installed(s, d, sock))
    && (forall t: Tid, u: Tid, sock: Sock :: OwnedBy(s, t, sock) && OwnedBy(s, u, sock) ==> t == u)
    && (forall sock: Sock :: sock in s.closed ==> sock < s.dialled)
    && (forall sock: Sock :: sock < s.dialled && sock !in s.closed ==> Held(s, sock) || InTable(s, sock))
    && (forall t: Tid, d, sock: Sock :: ReaderAt(s, t, d, sock) ==> ReaderInv(s, d, sock))
  }

  /** The thread reads this socket, or is about to drop its destination because the read failed. */
  predicate ReaderAt(s: State, t: Tid, dest: Dest, sock: Sock) {
    t in s.threads && (s.threads[t] == Reading(dest, sock) || s.threads[t] == Dropping(dest, Some(sock)))
  }

  /** A reader's socket has been installed: it is under no destination but the reader's and no
      upstream call still holds it. */
  ghost predicate ReaderInv(s: State, dest: Dest, sock: Sock) {
    && sock < s.dialled
    && (forall d :: Installed(s, d, sock) ==> d == dest)
    && (forall u: Tid :: u in s.threads && s.threads[u].Rechecking? ==> s.threads[u].sock != sock)
  }

  lemma StillLocated(s: State, a: Action, sock: Sock)
    requires Inv(s) && Enabled(s, a)
    requires sock < Apply(s, a).dialled && sock !in Apply(s, a).closed
    ensures Held(Apply(s, a), sock) || InTable(Apply(s, a), sock)
  {
    var r := Apply(s, a);
    if sock == s.dialled {
      assert OwnedBy(r, a.t, sock);
    } else if u :| OwnedBy(s, u, sock) {
      if a.Recheck? && u == a.t && !OwnedBy(r, u, sock) {
        assert Installed(r, s.threads[u].dest, sock);
      } else {
        assert OwnedBy(r, u, sock);
      }
    } else {
      var d :| Installed(s, d, sock);
      if Installed(r, d, sock) {
      } else {
        assert sock in s.table.Values;
        assert OwnedBy(r, a.t, sock);
      }
    }
  }

  /** Where an installed socket was before the step. */
  lemma InstalledBefore(s: State, a: Action, d: Dest, sock: Sock)
    requires Enabled(s, a) && Installed(Apply(s, a), d, sock)
    ensures Installed(s, d, sock) || (a.Recheck? && OwnedBy(s, a.t, sock) && d !in s.table)
    ensures !Installed(s, d, sock) ==> forall u: Tid :: OwnedBy(Apply(s, a), u, sock) ==> u != a.t
  {
  }

  /** Where an owned socket was before the step. */
  lemma OwnedBefore(s: State, a: Action, t: Tid, sock: Sock)
    requires Enabled(s, a) && OwnedBy(Apply(s, a), t, sock)
    ensures OwnedBy(s, t, sock)
         || (t == a.t && a.DialSucceeds? && sock == s.dialled)
         || (t == a.t && a.Shutdown? && InTable(s, sock))
         || (t == a.t && a.Drop? && Installed(s, s.threads[t].dest, sock))
  {
    if a.Shutdown? && t == a.t {
      assert sock in s.table.Values;
      var d :| d in s.table && s.table[d] == sock;
      assert Installed(s, d, sock);
    } else if a.Drop? && t == a.t {
      assert Installed(s, s.threads[t].dest, sock);
    }
  }

  /** A socket is closed by the thread that owns it. */
  lemma ClosedBefore(s: State, a: Action, sock: Sock)
    requires Enabled(s, a) && sock in Apply(s, a).closed && sock !in s.closed
    ensures OwnedBy(s, a.t, sock) && !OwnedBy(Apply(s, a), a.t, sock)
    ensures (a.Discard? || a.CloseOne?) && Apply(s, a).table == s.table
  {
  }

  /** The readers after a step. */
  lemma ReadersAfter(s: State, a: Action, t: Tid, dest: Dest, sock: Sock)
    requires Inv(s) && Enabled(s, a) && ReaderAt(Apply(s, a), t, dest, sock)
    ensures ReaderInv(Apply(s, a), dest, sock)
  {
    var r := Apply(s, a);
    if t in s.threads {
      assert ReaderAt(s, t, dest, sock);
      forall u: Tid | u in r.threads && r.threads[u].Rechecking? ensures r.threads[u].sock != sock {
        assert u in s.threads && s.threads[u].Rechecking? ==> s.threads[u].sock != sock;
      }
      forall d | Installed(r, d, sock) ensures d == dest {
        InstalledBefore(s, a, d, sock);
      }
    } else {
      assert OwnedBy(s, a.t, sock);
      forall u: Tid | u in r.threads && r.threads[u].Rechecking? ensures r.threads[u].sock != sock {
        assert OwnedBy(s, u, r.threads[u].sock);
      }
      forall d | Installed(r, d, sock) ensures d == dest {
        InstalledBefore(s, a, d, sock);
      }
    }
  }

  lemma StepInv(s: State, a: Action)
    requires Inv(s) && Enabled(s, a)
    ensures Inv(Apply(s, a))
  {
    var r := Apply(s, a);
    forall sock: Sock | sock in r.closed && sock !in s.closed
      ensures OwnedBy(s, a.t, sock) && !OwnedBy(r, a.t, sock) && r.table == s.table
    {
      ClosedBefore(s, a, sock);
    }
    forall d, sock: Sock | Installed(r, d, sock)
      ensures sock < r.dialled && sock !in r.closed
      ensures forall e :: Installed(r, e, sock) ==> d == e
    {
      InstalledBefore(s, a, d, sock);
      forall e | Installed(r, e, sock) ensures d == e { InstalledBefore(s, a, e, sock); }
    }
    forall t: Tid, d, sock: Sock | OwnedBy(r, t, sock) && Installed(r, d, sock)
      ensures false
    {
      InstalledBefore(s, a, d, sock);
      OwnedBefore(s, a, t, sock);
    }
    forall t: Tid, sock: Sock | OwnedBy(r, t, sock)
      ensures sock < r.dialled && sock !in r.closed
      ensures forall u: Tid :: OwnedBy(r, u, sock) ==> t == u
    {
      OwnedBefore(s, a, t, sock);
      forall u: Tid | OwnedBy(r, u, sock) ensures t == u { OwnedBefore(s, a, u, sock); }
    }
    forall sock: Sock | sock < r.dialled && sock !in r.closed
      ensures Held(r, sock) || InTable(r, sock)
    {
      StillLocated(s, a, sock);
    }
    forall t: Tid, d, sock: Sock | ReaderAt(r, t, d, sock)
      ensures ReaderInv(r, d, sock)
    {
      ReadersAfter(s, a, t, d, sock);
    }
  }

  lemma {:induction false} RunInv(s: State, actions: seq<Action>)
    requires Inv(s) && CanRun(s, actions)
    ensures Inv(Run(s, actions))
    decreases |actions|
  {
    if actions != [] {
      StepInv(s, actions[0]);
      RunInv(Apply(s, actions[0]), actions[1..]);
    }
  }

  // ----- What holds of every run -----------------------------------------------------------------

  /** Any interleaving keeps the table within its limit and every dialled socket in exactly one
      place: held by one thread that must install or close it, installed under one destination, or
      closed. */
  lemma RelaySafety(actions: seq<Action>)
    requires CanRun(Init, actions)
    ensures var s := Run(Init, actions);
      && |s.table| <= MAX_DESTINATIONS
      && (forall sock: Sock :: sock < s.dialled ==> Partition(s, sock))
      && (forall t: Tid, u: Tid, sock: Sock :: OwnedBy(s, t, sock) && OwnedBy(s, u, sock) ==> t == u)
      && (forall d, e, sock: Sock :: Installed(s, d, sock) && Installed(s, e, sock) ==> d == e)
  {
    RunInv(Init, actions);
  }

  ghost predicate Partition(s: State, sock: Sock) {
    var held, inTable, closed := Held(s, sock), InTable(s, sock), sock in s.closed;
    (held && !inTable && !closed) || (!held && inTable && !closed) || (!held && !inTable && closed)
  }

  /** No thread still has a socket to install or close. */
  predicate Settled(s: State) {
    forall t :: t in s.threads ==> s.threads[t].Done? || s.threads[t].Reading?
  }

  ghost predicate AllClosed(s: State) {
    forall sock: Sock :: sock < s.dialled ==> sock in s.closed
  }

  lemma SettledIff(s: State)
    requires Inv(s) && Settled(s)
    ensures AllClosed(s) <==> s.table == map[]
  {
    forall d | d in s.table
      ensures !AllClosed(s)
    {
      assert Installed(s, d, s.table[d]);
    }
    assert s.table != map[] ==> exists d :: d in s.table;
  }

  /** When everything in flight has finished, every dialled socket is closed exactly when the table
      is empty. */
  lemma SettledClosesAllIffEmpty(actions: seq<Action>)
    requires CanRun(Init, actions) && Settled(Run(Init, actions))
    ensures AllClosed(Run(Init, actions)) <==> Run(Init, actions).table == map[]
  {
    RunInv(Init, actions);
    SettledIff(Run(Init, actions));
  }

  /** No call of upstream is under way. */
  predicate NoUpstream(s: State) {
    forall t :: t in s.threads ==>
      !s.threads[t].Checking? && !s.threads[t].Dialling? && !s.threads[t].Rechecking?
  }

  lemma {:induction false} EmptyStaysEmpty(s: State, actions: seq<Action>)
    requires NoUpstream(s) && s.table == map[] && CanRun(s, actions)
    requires forall a :: a in actions ==> !a.Call?
    ensures Run(s, actions).table == map[]
    decreases |actions|
  {
    if actions != [] {
      assert actions[0] in actions;
      EmptyStaysEmpty(Apply(s, actions[0]), actions[1..]);
    }
  }

  /** close with no upstream call outstanding, and none after it: once all that is in flight has
      finished, every socket ever dialled is closed. */
  lemma CleanShutdownClosesAll(before: seq<Action>, t: Tid, after: seq<Action>)
    requires CanRun(Init, before) && Enabled(Run(Init, before), Shutdown(t)) && NoUpstream(Run(Init, before))
    requires CanRun(Apply(Run(Init, before), Shutdown(t)), after)
    requires forall a :: a in after ==> !a.Call?
    ensures var s := Run(Apply(Run(Init, before), Shutdown(t)), after);
      s.table == map[] && (Settled(s) ==> AllClosed(s))
  {
    RunInv(Init, before);
    var s := Apply(Run(Init, before), Shutdown(t));
    StepInv(Run(Init, before), Shutdown(t));
    RunInv(s, after);
    EmptyStaysEmpty(s, after);
    if Settled(Run(s, after)) {
      SettledIff(Run(s, after));
    }
  }

  // ----- Refused and allowed sockets ---------------------------------------------------------------

  /** The sockets whose remote address was refused in a run: they are numbered as they are dialled. */
  function Refused(s: State, actions: seq<Action>): set<Sock>
    requires CanRun(s, actions)
    decreases |actions|
  {
    if actions == [] then {}
    else
      (if actions[0].DialSucceeds? && !actions[0].allowed then {s.dialled} else {})
      + Refused(Apply(s, actions[0]), actions[1..])
  }

  /** Such a socket has been dialled, and no thread may install it or reads it. */
  ghost predicate KeptOut(s: State, sock: Sock) {
    && sock < s.dialled && !InTable(s, sock)
    && (forall t: Tid :: t in s.threads && s.threads[t].Rechecking? ==> s.threads[t].sock != sock)
    && (forall t: Tid, d :: !ReaderAt(s, t, d, sock))
  }

  lemma KeptOutStep(s: State, a: Action, sock: Sock)
    requires Enabled(s, a) && KeptOut(s, sock)
    ensures KeptOut(Apply(s, a), sock)
  {
    var r := Apply(s, a);
    forall d | Installed(r, d, sock)
      ensures Installed(s, d, sock)
    {
      InstalledBefore(s, a, d, sock);
    }
    forall t: Tid, d | ReaderAt(r, t, d, sock)
      ensures ReaderAt(s, t, d, sock)
    {
    }
  }

  lemma RefusedNow(s: State, a: Action)
    requires Inv(s) && Enabled(s, a) && a.DialSucceeds? && !a.allowed
    ensures KeptOut(Apply(s, a), s.dialled)
  {
    var r := Apply(s, a);
    forall d
      ensures !Installed(r, d, s.dialled)
    {
      assert !Installed(s, d, s.dialled);
    }
    forall t: Tid, d
      ensures !ReaderAt(r, t, d, s.dialled)
    {
      assert !ReaderAt(s, t, d, s.dialled);
    }
    forall t: Tid | t in s.threads && s.threads[t].Rechecking?
      ensures s.threads[t].sock < s.dialled
    {
      assert OwnedBy(s, t, s.threads[t].sock);
    }
  }

  lemma {:induction false} RefusedRun(s: State, actions: seq<Action>, out: set<Sock>)
    requires Inv(s) && CanRun(s, actions) && forall sock :: sock in out ==> KeptOut(s, sock)
    ensures forall sock :: sock in out + Refused(s, actions) ==> KeptOut(Run(s, actions), sock)
    decreases |actions|
  {
    if actions != [] {
      var a := actions[0];
      StepInv(s, a);
      forall sock | sock in out
        ensures KeptOut(Apply(s, a), sock)
      {
        KeptOutStep(s, a, sock);
      }
      var now: set<Sock> := if a.DialSucceeds? && !a.allowed then {s.dialled} else {};
      if now != {} {
        RefusedNow(s, a);
      }
      RefusedRun(Apply(s, a), actions[1..], out + now);
    }
  }

  /** In every interleaving: a socket whose remote address was refused is never in the table and never
      read, and is closed once nothing is in flight. */
  lemma RefusedIsNeverInstalled(actions: seq<Action>, sock: Sock)
    requires CanRun(Init, actions) && sock in Refused(Init, actions)
    ensures var s := Run(Init, actions);
      && (forall d :: d in s.table ==> s.table[d] != sock)
      && (forall t :: t in s.threads && s.threads[t].Reading? ==> s.threads[t].sock != sock)
      && (Settled(s) ==> sock in s.closed)
  {
    var s := Run(Init, actions);
    RefusedRun(Init, actions, {});
    RunInv(Init, actions);
    forall d | d in s.table
      ensures s.table[d] != sock
    {
      assert !Installed(s, d, sock);
    }
    forall t | t in s.threads && s.threads[t].Reading?
      ensures s.threads[t].sock != sock
    {
      assert !ReaderAt(s, t, s.threads[t].dest, sock);
    }
  }

  lemma {:induction false} ThreadWaits(s: State, actions: seq<Action>, t: Tid)
    requires CanRun(s, actions) && t in s.threads && forall a :: a in actions ==> a.t != t
    ensures t in Run(s, actions).threads && Run(s, actions).threads[t] == s.threads[t]
    decreases |actions|
  {
    if actions != [] {
      assert actions[0] in actions;
      ThreadWaits(Apply(s, actions[0]), actions[1..], t);
    }
  }

  /** An allowed dial is installed and read exactly when, at its second lock, its destination is free and
      the table not full; otherwise the table stays as it is and the socket is discarded. */
  lemma AllowedIsInstalledIffRoom(s: State, t: Tid, between: seq<Action>, reader: Tid)
    requires Enabled(s, DialSucceeds(t, true))
    requires CanRun(Apply(s, DialSucceeds(t, true)), between) && forall a :: a in between ==> a.t != t
    requires reader !in Run(Apply(s, DialSucceeds(t, true)), between).threads
    ensures var dest, sock, u := s.threads[t].dest, s.dialled, Run(Apply(s, DialSucceeds(t, true)), between);
      && Enabled(u, Recheck(t, reader))
      && var v := Apply(u, Recheck(t, reader));
         if dest !in u.table && |u.table| < 64
         then v.table == u.table[dest := sock] && v.threads[reader] == Reading(dest, sock)
         else v.table == u.table && reader !in v.threads
              && Enabled(v, Discard(t)) && sock in Apply(v, Discard(t)).closed
  {
    ThreadWaits(Apply(s, DialSucceeds(t, true)), between, t);
  }

  /** A call of upstream dials exactly when its destination is not yet in the table and there is room. */
  lemma UpstreamDialsIffRoom(s: State, t: Tid, dest: Dest, between: seq<Action>)
    requires t !in s.threads && CanRun(Apply(s, Call(t, dest)), between) && forall a :: a in between ==> a.t != t
    ensures var u := Run(Apply(s, Call(t, dest)), between);
      && Enabled(u, Check(t))
      && Apply(u, Check(t)).table == u.table
      && (Enabled(Apply(u, Check(t)), DialSucceeds(t, true)) <==> dest !in u.table && |u.table| < 64)
  {
    ThreadWaits(Apply(s, Call(t, dest)), between, t);
  }

  // ----- Every call ends ------------------------------------------------------------------------

  /** How many steps a thread can still take. */
  function Budget(th: Thread): nat {
    match th
    case Checking(_) => 4
    case Dialling(_) => 3
    case Rechecking(_, _) => 2
    case Discarding(_) => 1
    case Reading(_, _) => 3
    case Dropping(_, _) => 2
    case ShuttingDown => 65
    case Closing(socks) => |socks|
    case Done => 0
  }

  function OwnSteps(actions: seq<Action>, t: Tid): nat {
    if actions == [] then 0 else OwnSteps(actions[1..], t) + if actions[0].t == t then 1 else 0
  }

  lemma {:induction false} ValuesFit(table: map<Dest, Sock>)
    ensures |table.Values| <= |table|
    decreases |table|
  {
    if d :| d in table {
      var rest := table - {d};
      assert rest.Keys == table.Keys - {d} && |rest| == |rest.Keys| && |table| == |table.Keys|;
      ValuesFit(rest);
      assert table.Values == rest.Values + {table[d]} by {
        forall x | x in table.Values ensures x in rest.Values + {table[d]} {
          var k :| k in table && table[k] == x;
          assert k != d ==> k in rest && rest[k] == x;
        }
      }
    } else {
      assert table.Values == {};
    }
  }

  lemma StepSpends(s: State, a: Action, t: Tid)
    requires Inv(s) && Enabled(s, a) && t in s.threads
    ensures var u := Apply(s, a);
      t in u.threads && Budget(u.threads[t]) + (if a.t == t then 1 else 0) <= Budget(s.threads[t])
  {
    if a.Shutdown? {
      ValuesFit(s.table);
    }
  }

  /** A call, a drop, a close or a reader takes no more than a fixed number of steps, whatever the others do. */
  lemma {:induction false} CallsAreShort(s: State, actions: seq<Action>, t: Tid)
    requires Inv(s) && CanRun(s, actions) && t in s.threads
    ensures OwnSteps(actions, t) <= Budget(s.threads[t])
    decreases |actions|
  {
    if actions != [] {
      StepSpends(s, actions[0], t);
      StepInv(s, actions[0]);
      CallsAreShort(Apply(s, actions[0]), actions[1..], t);
    }
  }

  /** At most 66, counting the first. */
  lemma {:induction false} NoCallIsLong(s: State, actions: seq<Action>, t: Tid)
    requires Inv(s) && CanRun(s, actions) && t !in s.threads
    ensures OwnSteps(actions, t) <= 66
    decreases |actions|
  {
    if actions != [] {
      var u := Apply(s, actions[0]);
      StepInv(s, actions[0]);
      if t in u.threads {
        CallsAreShort(u, actions[1..], t);
      } else {
        NoCallIsLong(u, actions[1..], t);
      }
    }
  }

  ghost predicate NoIdleClosing(s: State) {
    forall t :: t in s.threads ==> s.threads[t] != Closing({})
  }

  lemma {:induction false} NobodyClosesNothing(s: State, actions: seq<Action>)
    requires NoIdleClosing(s) && CanRun(s, actions)
    ensures NoIdleClosing(Run(s, actions))
    decreases |actions|
  {
    if actions != [] {
      NobodyClosesNothing(Apply(s, actions[0]), actions[1..]);
    }
  }

  /** And until it is done it always has a next step: only a reader's waits for the network, and only the second lock
      of upstream needs a number for the reader it starts. */
  lemma UnfinishedCanStep(actions: seq<Action>, t: Tid, reader: Tid)
    requires CanRun(Init, actions) && t in Run(Init, actions).threads && reader !in Run(Init, actions).threads
    ensures var s := Run(Init, actions);
      s.threads[t].Done? || exists a: Action :: a.t == t && Enabled(s, a)
  {
    NobodyClosesNothing(Init, actions);
    var s := Run(Init, actions);
    match s.threads[t]
    case Checking(_) => assert Enabled(s, Check(t));
    case Dialling(_) => assert Enabled(s, DialFails(t));
    case Rechecking(_, _) => assert Enabled(s, Recheck(t, reader));
    case Discarding(_) => assert Enabled(s, Discard(t));
    case Reading(_, _) => assert Enabled(s, ReadFails(t));
    case Dropping(_, _) => assert Enabled(s, Drop(t));
    case ShuttingDown => assert Enabled(s, Shutdown(t));
    case Closing(socks) =>
      assert socks != {};
      var sock :| sock in socks;
      assert Enabled(s, CloseOne(t, sock));
    case Done =>
  }

  // ----- The session loop ----------------------------------------------------------------------

  /** One goroutine calls upstream, drop and close, and close last: no call begins while an upstream
      call is under way, and none after close. `closing` tells whether close has begun. */
  predicate OneSession(s: State, actions: seq<Action>, closing: bool)
    requires CanRun(s, actions)
    decreases |actions|
  {
    actions == []
    || (var a := actions[0];
        && (a.Call? || a.StartDrop? || a.StartClose? ==> !closing && NoUpstream(s))
        && OneSession(Apply(s, a), actions[1..], closing || a.StartClose?))
  }

  /** Once close has begun, the table is empty or about to be emptied for good. */
  ghost predicate ClosingInv(s: State) {
    NoUpstream(s) && (s.table == map[] || exists t: Tid :: t in s.threads && s.threads[t].ShuttingDown?)
  }

  lemma ClosingStep(s: State, a: Action)
    requires ClosingInv(s) && Enabled(s, a) && !a.Call? && !a.StartClose?
    ensures ClosingInv(Apply(s, a))
  {
    if s.table != map[] && !a.Shutdown? {
      var t: Tid :| t in s.threads && s.threads[t].ShuttingDown?;
      assert t in Apply(s, a).threads && Apply(s, a).threads[t].ShuttingDown?;
    }
  }

  lemma {:induction false} SessionRun(s: State, actions: seq<Action>, closing: bool)
    requires CanRun(s, actions) && OneSession(s, actions, closing) && (closing ==> ClosingInv(s))
    requires closing || exists a :: a in actions && a.StartClose?
    ensures ClosingInv(Run(s, actions))
    decreases |actions|
  {
    if actions != [] {
      var a := actions[0];
      assert actions == [a] + actions[1..];
      if a.StartClose? {
        assert a.t in Apply(s, a).threads && Apply(s, a).threads[a.t].ShuttingDown?;
      } else if closing {
        ClosingStep(s, a);
      }
      SessionRun(Apply(s, a), actions[1..], closing || a.StartClose?);
    }
  }

  /** However the readers interleave with it, a session that has ended leaves nothing open: once all
      that is in flight has finished, every socket it ever dialled is closed. */
  lemma SessionClosesAll(actions: seq<Action>)
    requires CanRun(Init, actions) && OneSession(Init, actions, false)
    requires exists a :: a in actions && a.StartClose?
    requires Settled(Run(Init, actions))
    ensures AllClosed(Run(Init, actions))
  {
    SessionRun(Init, actions, false);
    SettledClosesAllIffEmpty(actions);
  }

  /** The session loop is needed for this: the methods alone allow an upstream call to outlive close
      and install its socket in the fresh table, where nobody closes it. */
  const LATE_UPSTREAM: seq<Action> :=
    [Call(0, "d"), Check(0), DialSucceeds(0, true), StartClose(1), Shutdown(1), Recheck(0, 2)]

  lemma LateUpstreamLeaks()
    ensures CanRun(Init, LATE_UPSTREAM)
    ensures var s := Run(Init, LATE_UPSTREAM);
      Settled(s) && Installed(s, "d", 0) && !AllClosed(s)
  {
    var late := Rechecking("d", 0);
    var s1 := Init.(threads := map[0 := Checking("d")]);
    var s2 := Init.(threads := map[0 := Dialling("d")]);
    var s3 := State(map[], map[0 := late], 1, {});
    var s4 := s3.(threads := map[0 := late, 1 := ShuttingDown]);
    var s5 := s3.(threads := map[0 := late, 1 := Done]);
    var s6 := State(map["d" := 0], map[0 := Done, 1 := Done, 2 := Reading("d", 0)], 1, {});
    RunOne(s5, s6, LATE_UPSTREAM, 5);
    RunOne(s4, s5, LATE_UPSTREAM, 4);
    RunOne(s3, s4, LATE_UPSTREAM, 3);
    RunOne(s2, s3, LATE_UPSTREAM, 2);
    RunOne(s1, s2, LATE_UPSTREAM, 1);
    RunOne(Init, s1, LATE_UPSTREAM, 0);
    assert LATE_UPSTREAM[0..] == LATE_UPSTREAM;
    assert 0 !in s6.closed;
  }

  /** One step of a run given by its remaining actions. */
  lemma RunOne(s: State, t: State, actions: seq<Action>, i: nat)
    requires i < |actions| && Enabled(s, actions[i]) && Apply(s, actions[i]) == t
    requires CanRun(t, actions[i + 1..])
    ensures CanRun(s, actions[i..]) && Run(s, actions[i..]) == Run(t, actions[i + 1..])
  {
    assert actions[i..][0] == actions[i] && actions[i..][1..] == actions[i + 1..];
  }

  // ----- Readers drop by destination ----------------------------------------------------------------

  /** The drop of a reader whose read has failed, whatever happened in between, removes the reader's
      own socket exactly when that socket is still installed; otherwise it removes whatever has been
      installed for the destination since. */
  lemma ReaderDropsOwnIffInstalled(actions: seq<Action>, t: Tid, dest: Dest, sock: Sock)
    requires CanRun(Init, actions)
    requires t in Run(Init, actions).threads && Run(Init, actions).threads[t] == Dropping(dest, Some(sock))
    ensures var s := Run(Init, actions);
      var after := Apply(s, Drop(t));
      && (OwnedBy(after, t, sock) <==> InTable(s, sock))
      && (InTable(s, sock) <==> dest in s.table && s.table[dest] == sock)
      && after.table == s.table - {dest}
      && (forall other: Sock :: OwnedBy(after, t, other) <==> dest in s.table && s.table[dest] == other)
  {
    RunInv(Init, actions);
    var s := Run(Init, actions);
    assert ReaderAt(s, t, dest, sock);
    assert InTable(s, sock) <==> Installed(s, dest, sock);
    DropTakes(s, t);
  }

  lemma DropTakes(s: State, t: Tid)
    requires Enabled(s, Drop(t))
    ensures var dest, after := s.threads[t].dest, Apply(s, Drop(t));
      && after.table == s.table - {dest}
      && forall other: Sock :: OwnedBy(after, t, other) <==> dest in s.table && s.table[dest] == other
  {
  }

  /** The other case happens in a session: a write error drops the first socket, the next datagram
      installs a second one, and the first one's reader then removes the second. */
  lemma StaleReaderRemovesAnother() returns (actions: seq<Action>)
    ensures CanRun(Init, actions) && OneSession(Init, actions, false)
    ensures Run(Init, actions) == SECOND_REMOVED
    ensures OwnedBy(SECOND_REMOVED, 1, 1) && ReaderAt(SECOND_REMOVED, 4, "d", 1)
  {
    var s1 := Init.(threads := map[0 := Checking("d")]);
    var s2 := Init.(threads := map[0 := Dialling("d")]);
    var s3 := State(map[], map[0 := Rechecking("d", 0)], 1, {});
    actions := FirstIsDropped();
    actions := SessionOne(s3, Recheck(0, 1), FIRST_INSTALLED, actions);
    actions := SessionOne(s2, DialSucceeds(0, true), s3, actions);
    actions := SessionOne(s1, Check(0), s2, actions);
    actions := SessionOne(Init, Call(0, "d"), s1, actions);
  }

  const FIRST_INSTALLED := State(map["d" := 0], map[0 := Done, 1 := Reading("d", 0)], 1, {})
  const FIRST_DROPPED := State(map[], map[0 := Done, 1 := Reading("d", 0), 2 := Done], 1, {0})
  const SECOND_INSTALLED :=
    State(map["d" := 1], map[0 := Done, 1 := Reading("d", 0), 2 := Done, 3 := Done, 4 := Reading("d", 1)], 2, {0})
  const SECOND_REMOVED :=
    State(map[], map[0 := Done, 1 := Closing({1}), 2 := Done, 3 := Done, 4 := Reading("d", 1)], 2, {0})

  lemma FirstIsDropped() returns (actions: seq<Action>)
    ensures CanRun(FIRST_INSTALLED, actions) && OneSession(FIRST_INSTALLED, actions, false)
    ensures Run(FIRST_INSTALLED, actions) == SECOND_REMOVED
  {
    var s5 := FIRST_INSTALLED.(threads := FIRST_INSTALLED.threads[2 := Dropping("d", None)]);
    var s6 := s5.(table := map[], threads := FIRST_INSTALLED.threads[2 := Closing({0})]);
    actions := SecondIsInstalled();
    actions := SessionOne(s6, CloseOne(2, 0), FIRST_DROPPED, actions);
    actions := SessionOne(s5, Drop(2), s6, actions);
    actions := SessionOne(FIRST_INSTALLED, StartDrop(2, "d"), s5, actions);
  }

  lemma SecondIsInstalled() returns (actions: seq<Action>)
    ensures CanRun(FIRST_DROPPED, actions) && OneSession(FIRST_DROPPED, actions, false)
    ensures Run(FIRST_DROPPED, actions) == SECOND_REMOVED
  {
    var s8 := FIRST_DROPPED.(threads := FIRST_DROPPED.threads[3 := Checking("d")]);
    var s9 := FIRST_DROPPED.(threads := FIRST_DROPPED.threads[3 := Dialling("d")]);
    var s10 := s9.(threads := FIRST_DROPPED.threads[3 := Rechecking("d", 1)], dialled := 2);
    actions := SecondIsRemoved();
    actions := SessionOne(s10, Recheck(3, 4), SECOND_INSTALLED, actions);
    actions := SessionOne(s9, DialSucceeds(3, true), s10, actions);
    actions := SessionOne(s8, Check(3), s9, actions);
    actions := SessionOne(FIRST_DROPPED, Call(3, "d"), s8, actions);
  }

  lemma SecondIsRemoved() returns (actions: seq<Action>)
    ensures CanRun(SECOND_INSTALLED, actions) && OneSession(SECOND_INSTALLED, actions, false)
    ensures Run(SECOND_INSTALLED, actions) == SECOND_REMOVED
  {
    var s12 := SECOND_INSTALLED.(threads := SECOND_INSTALLED.threads[1 := Dropping("d", Some(0))]);
    actions := SessionOne(s12, Drop(1), SECOND_REMOVED, []);
    actions := SessionOne(SECOND_INSTALLED, ReadFails(1), s12, actions);
  }

  /** One more step before a run of a session that has not closed. */
  lemma SessionOne(s: State, a: Action, t: State, later: seq<Action>) returns (actions: seq<Action>)
    requires Enabled(s, a) && Apply(s, a) == t && !a.StartClose?
    requires a.Call? || a.StartDrop? ==> NoUpstream(s)
    requires CanRun(t, later) && OneSession(t, later, false)
    ensures CanRun(s, actions) && OneSession(s, actions, false) && Run(s, actions) == Run(t, later)
  {
    actions := [a] + later;
    assert actions[0] == a && actions[1..] == later;
  }
}
