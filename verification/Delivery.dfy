// What the runs of Handover.dfy come to: a client whose opening the server accepts is never stuck,
// gets to its stream within a bounded number of steps, and has everything it writes delivered, unless it is a
// probe.
module Delivery {
  import opened Bytes
  import opened Text
  import opened Crypto
  import opened Net
  import opened Auth
  import opened SecureStream
  import opened Handshake
  import opened Handover

  /** The server accepts all this client sends before it has read the status. */
  ghost predicate Accepted(client: Client, session: Session) {
    client.Valid() && Authenticate(session, Opening(client, session, ClientFailed)).Accept?
  }

  /** An Auth v2 client is accepted exactly with a live registration and the registered secret. */
  lemma RegisteredClientIsAccepted(client: Client, session: Session)
    requires client.Valid() && client.auth.UsesV2() && ValidRegistry(session.config.clients)
    ensures var id, clients := client.auth.clientID, session.config.clients;
      Accepted(client, session) <==>
        Live(clients, id, session.now) && client.auth.clientSecret == clients[Trim(id)].secret
  {
    TrimTwice(client.auth.clientID);
    AuthV2Agreement(session, client.auth, client.clientNonce, client.destination, client.seal);
  }

  /** The client has neither got to its stream nor given up. */
  predicate Opens(s: State) {
    s.client.SendingHello? || s.client.AwaitingStatus?
  }

  /** The server has sent its status, good or bad, or refused without one. */
  predicate Settled(s: State) {
    s.server.Dropped? || (s.server.Serving? && s.server.statusSent)
  }

  /** The client still has to answer a challenge. */
  predicate Challenged(client: Client, s: State) {
    client.auth.UsesV2() && s.client.SendingHello?
  }

  /** While the client opens, a settled server's status is waiting for it, and nothing else is; with
      `welcome`, the status is a good one. */
  ghost predicate Answered(client: Client, session: Session, s: State, welcome: bool) {
    && (Opens(s) && Settled(s) ==>
          && !Challenged(client, s) && WholeFrame(s.s2c)
          && (welcome ==> GoodStatus(client.SessionKey(session.serverNonce), s.s2c)))
    && (Opens(s) && !Settled(s) && !Challenged(client, s) ==> s.s2c == [])
    && (welcome ==> !s.client.ClientFailed? && (s.server.Dropped? ==> client.destination == PROBE))
  }

  /** A status that a server which reached the destination sends. */
  predicate Welcomes(a: Action) {
    a.SendStatus? ==> a.status != [] && a.status[0] == 0
  }

  // ----- Verdicts on the parts of an accepted opening ------------------------------------------------

  lemma PartOfAccepted(session: Session, part: seq<Octet>, more: seq<Octet>)
    requires Authenticate(session, part + more).Accept?
    ensures Authenticate(session, part).NeedMore? || Authenticate(session, part).Accept?
    ensures Authenticate(session, part).NeedMore? ==> more != []
  {
    if more == [] {
      assert part + [] == part;
    }
    if !Authenticate(session, part).NeedMore? {
      VerdictIsFinal(session, part, more);
    }
  }

  /** What the client has yet to say after this phase's opening. */
  function RestOfOpening(client: Client, session: Session, phase: ClientPhase): (rest: seq<Octet>)
    ensures Opening(client, session, phase) + rest == Opening(client, session, ClientFailed)
    ensures rest != [] ==> client.auth.UsesV2() && phase.SendingHello?
  {
    if client.auth.UsesV2() && phase.SendingHello? then client.Proof(session.serverNonce)
    else
      assert client.Hello() + [] == client.Hello();
      assert Opening(client, session, phase) + [] == Opening(client, session, phase);
      []
  }

  /** No part of an accepted opening is refused, and only the whole of it needs no more. */
  lemma NeverRefused(client: Client, session: Session, phase: ClientPhase, taken: seq<Octet>, rest: seq<Octet>)
    requires Accepted(client, session) && taken + rest == Opening(client, session, phase)
    ensures Authenticate(session, taken).NeedMore? || Authenticate(session, taken).Accept?
    ensures Authenticate(session, taken).NeedMore? && rest == [] ==> client.auth.UsesV2() && phase.SendingHello?
  {
    var tail := RestOfOpening(client, session, phase);
    Assoc(taken, rest, tail);
    PartOfAccepted(session, taken, rest + tail);
  }

  /** The whole hello of an accepted Auth v2 client is answered by a challenge. */
  lemma HelloIsPast(client: Client, session: Session)
    requires Accepted(client, session) && client.auth.UsesV2()
    ensures PastHello(session, client.Hello())
  {
    var id, hello := Trim(client.auth.clientID), client.Hello();
    ScanOfHonestHello(id, client.clientNonce, client.Proof(session.serverNonce));
    HelloV2Parts(id, client.clientNonce, []);
    assert hello + [] == hello;
  }

  // ----- No opening sticks -----------------------------------------------------------------------------

  lemma AnsweredStep(client: Client, session: Session, s: State, a: Action, welcome: bool)
    requires Accepted(client, session) && Inv(client, session, s) && Enabled(client, session, s, a)
    requires Answered(client, session, s, welcome) && (welcome ==> Welcomes(a))
    ensures Answered(client, session, Apply(client, session, s, a), welcome)
  {
    match a
    case Decide => AnsweredDecide(client, session, s, welcome);
    case SendStatus(_, _) => AnsweredStatus(client, session, s, a, welcome);
    case Challenge => AnsweredChallenge(client, session, s, welcome);
    case ReadChallenge => ReadChallengeNonce(client, session, s);
    case _ => AnsweredElsewhere(client, session, s, a, welcome);
  }

  lemma AnsweredElsewhere(client: Client, session: Session, s: State, a: Action, welcome: bool)
    requires Inv(client, session, s) && Enabled(client, session, s, a)
    requires !a.Decide? && !a.SendStatus? && !a.Challenge? && !a.ReadChallenge?
    requires Answered(client, session, s, welcome)
    ensures Answered(client, session, Apply(client, session, s, a), welcome)
  {
  }

  lemma AnsweredChallenge(client: Client, session: Session, s: State, welcome: bool)
    requires Accepted(client, session) && Inv(client, session, s) && Enabled(client, session, s, Challenge)
    requires Answered(client, session, s, welcome)
    ensures Answered(client, session, Apply(client, session, s, Challenge), welcome)
  {
    OnlyV2IsChallenged(client, session, s);
  }

  lemma OnlyV2IsChallenged(client: Client, session: Session, s: State)
    requires Accepted(client, session) && Inv(client, session, s) && Enabled(client, session, s, Challenge)
    ensures client.auth.UsesV2()
  {
    if !client.auth.UsesV2() {
      LegacyIsNotChallenged(client, session, s.taken, s.c2s + s.toSend);
    }
  }

  /** No part of an accepted legacy hello looks like an Auth v2 one. */
  lemma LegacyIsNotChallenged(client: Client, session: Session, taken: seq<Octet>, rest: seq<Octet>)
    requires Accepted(client, session) && !client.auth.UsesV2() && taken + rest == client.Hello()
    ensures !PastHello(session, taken)
  {
    if PastHello(session, taken) {
      PastHelloOfPrefix(session, taken, rest);
      assert client.Hello() + [] == client.Hello();
      ChallengedVerdict(client, session, SendingHello, client.Hello(), []);
      assert false;
    }
  }

  lemma AnsweredStatus(client: Client, session: Session, s: State, a: Action, welcome: bool)
    requires Inv(client, session, s) && Enabled(client, session, s, a) && a.SendStatus?
    requires Answered(client, session, s, welcome) && (welcome ==> Welcomes(a))
    ensures Answered(client, session, Apply(client, session, s, a), welcome)
  {
    var key := client.SessionKey(session.serverNonce);
    StatusFrame(key, a.nonce, a.status);
    assert [] + Frame(key, a.nonce, a.status) == Frame(key, a.nonce, a.status);
  }

  lemma AnsweredDecide(client: Client, session: Session, s: State, welcome: bool)
    requires Accepted(client, session) && Inv(client, session, s) && Enabled(client, session, s, Decide)
    requires Answered(client, session, s, welcome)
    ensures Answered(client, session, Apply(client, session, s, Decide), welcome)
  {
    NeverRefused(client, session, s.client, s.taken, s.c2s + s.toSend);
  }

  lemma StatusFrame(key: Key, nonce: nat, status: seq<byte>)
    requires 0 < |status| <= MAX_PLAIN_FRAME
    ensures WholeFrame(Frame(key, nonce, status))
    ensures status[0] == 0 ==> GoodStatus(key, Frame(key, nonce, status))
  {
    FrameHeader(key, nonce, status, []);
    OpenOfSeal(key, nonce, status);
    assert Frame(key, nonce, status) + [] == Frame(key, nonce, status);
  }

  /** While the client opens, some step other than a write of its application can be taken. */
  lemma OpeningStep(client: Client, session: Session, s: State) returns (a: Action)
    requires Accepted(client, session) && Inv(client, session, s) && Answered(client, session, s, false) && Opens(s)
    ensures Enabled(client, session, s, a) && !a.ClientWrite? && Welcomes(a)
  {
    if s.toSend != [] {
      a := Push(|s.toSend|);
    } else if s.client.SendingHello? && !client.auth.UsesV2() {
      a := AwaitStatus;
    } else if s.server.Authenticating? {
      a := AuthenticatingStep(client, session, s);
    } else if s.server.Serving? && !s.server.statusSent {
      a := SendStatus(0, [0]);
    } else {
      a := ReadStatus;
    }
  }

  lemma AuthenticatingStep(client: Client, session: Session, s: State) returns (a: Action)
    requires Accepted(client, session) && Inv(client, session, s)
    requires Opens(s) && s.toSend == [] && s.server.Authenticating?
    ensures Enabled(client, session, s, a) && !a.ClientWrite? && !a.SendStatus?
  {
    assert s.c2s + [] == s.c2s;
    NeverRefused(client, session, s.client, s.taken, s.c2s);
    if PastHello(session, s.taken) && !s.server.challenged {
      a := Challenge;
    } else if !Authenticate(session, s.taken).NeedMore? {
      a := Decide;
    } else if s.c2s != [] {
      a := Fill(1);
    } else {
      a := ReadChallenge;
      assert s.taken + [] == s.taken;
      HelloIsPast(client, session);
    }
  }

  // ----- Openings end -------------------------------------------------------------------------------------

  function ClientSteps(client: Client, session: Session, phase: ClientPhase): nat {
    match phase
    case SendingHello => 2 + if client.auth.UsesV2() then 3 * |client.Proof(session.serverNonce)| else 0
    case AwaitingStatus(_) => 1
    case _ => 0
  }

  function ServerSteps(phase: ServerPhase): nat {
    match phase
    case Authenticating(challenged) => if challenged then 2 else 3
    case Serving(_, _, statusSent) => if statusSent then 0 else 1
    case Dropped => 0
  }

  /** What is left to do before everybody waits for the application. */
  function Remaining(client: Client, session: Session, s: State): nat {
    3 * |s.toSend| + 2 * |s.c2s| + |s.raw| + ClientSteps(client, session, s.client) + ServerSteps(s.server)
  }

  lemma StepUsesUp(client: Client, session: Session, s: State, a: Action)
    requires Inv(client, session, s) && Enabled(client, session, s, a) && !a.ClientWrite?
    ensures Remaining(client, session, Apply(client, session, s, a)) < Remaining(client, session, s)
  {
    if a.ReadChallenge? {
      ReadChallengeNonce(client, session, s);
    }
  }

  lemma StepInv(client: Client, session: Session, s: State, a: Action)
    requires client.Valid() && Inv(client, session, s) && Enabled(client, session, s, a)
    ensures Inv(client, session, Apply(client, session, s, a))
  {
    ReplyStep(client, session, s, a);
    StreamStepInv(client, session, s, a);
  }

  lemma StepKeeps(client: Client, session: Session, s: State, a: Action, welcome: bool)
    requires Accepted(client, session) && Inv(client, session, s) && Enabled(client, session, s, a)
    requires Answered(client, session, s, welcome) && (welcome ==> Welcomes(a))
    ensures Inv(client, session, Apply(client, session, s, a))
    ensures Answered(client, session, Apply(client, session, s, a), welcome)
  {
    StepInv(client, session, s, a);
    AnsweredStep(client, session, s, a, welcome);
  }

  lemma {:induction false} RunAnswered(client: Client, session: Session, s: State, actions: seq<Action>, welcome: bool)
    requires Accepted(client, session) && Inv(client, session, s) && CanRun(client, session, s, actions)
    requires Answered(client, session, s, welcome)
    requires welcome ==> forall i :: 0 <= i < |actions| ==> Welcomes(actions[i])
    ensures Inv(client, session, Run(client, session, s, actions))
    ensures Answered(client, session, Run(client, session, s, actions), welcome)
    decreases |actions|
  {
    if actions != [] {
      StepKeeps(client, session, s, actions[0], welcome);
      RunAnswered(client, session, Apply(client, session, s, actions[0]), actions[1..], welcome);
    }
  }

  /** An accepted client is never stuck: in every reachable state in which it has neither got to its
      stream nor read a refusal, some protocol step is enabled. */
  lemma OpeningNeverSticks(client: Client, session: Session, actions: seq<Action>) returns (a: Action)
    requires Accepted(client, session) && CanRun(client, session, Init(client), actions)
    requires Opens(Run(client, session, Init(client), actions))
    ensures Enabled(client, session, Run(client, session, Init(client), actions), a) && !a.ClientWrite?
  {
    InitInv(client, session);
    RunAnswered(client, session, Init(client), actions, false);
    a := OpeningStep(client, session, Run(client, session, Init(client), actions));
  }

  /** Every run uses up what was left to do, so none without a write of the application goes on for
      ever. */
  lemma {:induction false} RunsAreShort(client: Client, session: Session, s: State, actions: seq<Action>)
    requires client.Valid() && Inv(client, session, s) && CanRun(client, session, s, actions)
    requires forall i :: 0 <= i < |actions| ==> !actions[i].ClientWrite?
    ensures |actions| + Remaining(client, session, Run(client, session, s, actions)) <= Remaining(client, session, s)
    decreases |actions|
  {
    if actions != [] {
      StepUsesUp(client, session, s, actions[0]);
      StepInv(client, session, s, actions[0]);
      RunsAreShort(client, session, Apply(client, session, s, actions[0]), actions[1..]);
    }
  }

  /** An opening takes at most this many steps, under every chunking. */
  lemma OpeningIsShort(client: Client, session: Session, actions: seq<Action>)
    requires client.Valid() && CanRun(client, session, Init(client), actions)
    requires forall i :: 0 <= i < |actions| ==> !actions[i].ClientWrite?
    ensures |actions| <= 3 * |Opening(client, session, ClientFailed)| + 5
  {
    InitInv(client, session);
    RunsAreShort(client, session, Init(client), actions);
  }

  // ----- Everything written is delivered ---------------------------------------------------------------------

  /** Some actions lead from one state to another. */
  ghost predicate Reaches(client: Client, session: Session, s: State, t: State) {
    exists actions :: CanRun(client, session, s, actions) && Run(client, session, s, actions) == t
  }

  lemma Stay(client: Client, session: Session, s: State)
    ensures Reaches(client, session, s, s)
  {
    assert CanRun(client, session, s, []) && Run(client, session, s, []) == s;
  }

  lemma First(client: Client, session: Session, s: State, a: Action, t: State)
    requires Enabled(client, session, s, a) && Reaches(client, session, Apply(client, session, s, a), t)
    ensures Reaches(client, session, s, t)
  {
    var more :| CanRun(client, session, Apply(client, session, s, a), more)
      && Run(client, session, Apply(client, session, s, a), more) == t;
    var actions := [a] + more;
    assert actions[0] == a && actions[1..] == more;
    assert CanRun(client, session, s, actions) && Run(client, session, s, actions) == t;
  }

  /** Octets are under way: to the server's reader, or, once a probe is over, into the closed connection. */
  predicate Unread(client: Client, s: State) {
    if client.destination == PROBE then s.toSend != [] else Wire(s) != []
  }

  /** A stream with octets under way can move them on. */
  lemma StreamingStep(client: Client, session: Session, s: State) returns (a: Action)
    requires Inv(client, session, s) && s.client.Streaming? && Unread(client, s)
    ensures Enabled(client, session, s, a) && (a.Push? || a.RawRead? || a.Deliver?)
  {
    if s.toSend != [] {
      a := Push(|s.toSend|);
    } else {
      assert s.raw + (s.c2s + []) == s.raw + s.c2s;
      WholeWhenArrived(s.server.key, s.raw, s.c2s);
      a := if FrameOpens(s.server.key, s.raw) then Deliver else RawRead(1);
    }
  }

  /** From every state of a welcomed client a run leads to its stream, through all further writes, to
      a state in which the server has received everything written, or nothing if it was a probe. */
  lemma {:induction false} AllDelivered(client: Client, session: Session, s: State, writes: seq<Written>)
    returns (t: State)
    requires Accepted(client, session) && Inv(client, session, s) && Answered(client, session, s, true)
    ensures Reaches(client, session, s, t) && t.client.Streaming?
    ensures t.written == s.written + writes
    ensures t.received == if client.destination == PROBE then [] else DataOf(t.written)
    decreases |writes|, Remaining(client, session, s)
  {
    if !Opens(s) && !Unread(client, s) && writes == [] {
      Stay(client, session, s);
      AllReceived(client, session, s);
      t := s;
    } else {
      var a, later := NextStep(client, session, s, writes);
      StepKeeps(client, session, s, a, true);
      t := AllDelivered(client, session, Apply(client, session, s, a), later);
      First(client, session, s, a, t);
    }
  }

  /** A step of the opening, of the stream, or of the application, in this order. */
  lemma NextStep(client: Client, session: Session, s: State, writes: seq<Written>)
    returns (a: Action, later: seq<Written>)
    requires Accepted(client, session) && Inv(client, session, s) && Answered(client, session, s, true)
    requires Opens(s) || Unread(client, s) || writes != []
    ensures Enabled(client, session, s, a) && Welcomes(a)
    ensures Apply(client, session, s, a).written + later == s.written + writes
    ensures |later| < |writes|
      || (later == writes && Remaining(client, session, Apply(client, session, s, a)) < Remaining(client, session, s))
  {
    if Opens(s) || Unread(client, s) {
      a := ProtocolStep(client, session, s);
      later := writes;
    } else {
      a := ClientWrite(writes[0].nonce, writes[0].data);
      later := writes[1..];
      NextWrite(s.written, writes[0], writes);
    }
  }

  lemma ProtocolStep(client: Client, session: Session, s: State) returns (a: Action)
    requires Accepted(client, session) && Inv(client, session, s) && Answered(client, session, s, true)
    requires Opens(s) || Unread(client, s)
    ensures Enabled(client, session, s, a) && Welcomes(a)
    ensures Apply(client, session, s, a).written == s.written
    ensures Remaining(client, session, Apply(client, session, s, a)) < Remaining(client, session, s)
  {
    if Opens(s) {
      a := OpeningStep(client, session, s);
    } else {
      a := StreamingStep(client, session, s);
    }
    StepUsesUp(client, session, s, a);
  }

  lemma AllReceived(client: Client, session: Session, s: State)
    requires Inv(client, session, s) && s.client.Streaming? && !Unread(client, s)
    ensures s.received == if client.destination == PROBE then [] else DataOf(s.written)
    ensures s.written + [] == s.written
  {
    assert s.received + [] == s.received;
  }

  lemma NextWrite(written: seq<Written>, w: Written, writes: seq<Written>)
    requires writes != [] && w == writes[0]
    ensures written + [Written(w.nonce, w.data)] + writes[1..] == written + writes
  {
  }

  /** However far an accepted client and a server that reaches the destination have got, and whatever
      the client goes on to write, a run takes them on to a state in which exactly that is delivered;
      a probe gets its stream too, and nothing it writes is delivered. */
  lemma AcceptedClientDelivers(client: Client, session: Session, actions: seq<Action>, writes: seq<Written>)
    returns (t: State)
    requires Accepted(client, session) && CanRun(client, session, Init(client), actions)
    requires forall i :: 0 <= i < |actions| ==> Welcomes(actions[i])
    ensures var s := Run(client, session, Init(client), actions);
      && Reaches(client, session, s, t) && t.client.Streaming? && t.written == s.written + writes
      && t.received == if client.destination == PROBE then [] else DataOf(s.written + writes)
  {
    InitInv(client, session);
    RunAnswered(client, session, Init(client), actions, true);
    t := AllDelivered(client, session, Run(client, session, Init(client), actions), writes);
  }

  /** In no run does the server receive anything a probe writes: after the status it closes. */
  lemma ProbeIsNeverRead(client: Client, session: Session, actions: seq<Action>)
    requires client.Valid() && CanRun(client, session, Init(client), actions)
    requires client.destination == PROBE
    ensures Run(client, session, Init(client), actions).received == []
  {
    InitInv(client, session);
    RunInv(client, session, Init(client), actions);
    NothingReceived(client, session, Run(client, session, Init(client), actions));
  }

  lemma NothingReceived(client: Client, session: Session, s: State)
    requires Inv(client, session, s) && client.destination == PROBE
    ensures s.received == []
  {
  }

  /** Whatever else it writes, an accepted client whose server has answered with 0 so far can get its
      bytes delivered exactly when it is no probe or there are none. */
  lemma DeliveredIffNoProbe(client: Client, session: Session, actions: seq<Action>, writes: seq<Written>)
    requires Accepted(client, session) && CanRun(client, session, Init(client), actions)
    requires forall i :: 0 <= i < |actions| ==> Welcomes(actions[i])
    ensures var s := Run(client, session, Init(client), actions);
      (exists t :: Delivered(client, session, s, t, writes))
        <==> client.destination != PROBE || DataOf(s.written + writes) == []
  {
    var s := Run(client, session, Init(client), actions);
    var t := AcceptedClientDelivers(client, session, actions, writes);
    if client.destination != PROBE || DataOf(s.written + writes) == [] {
      assert Delivered(client, session, s, t, writes);
    } else {
      InitInv(client, session);
      RunInv(client, session, Init(client), actions);
      forall u | Reaches(client, session, s, u)
        ensures u.received == []
      {
        ReachedIsUnread(client, session, s, u);
      }
    }
  }

  /** A run from s to t in which the application makes these writes, and all it ever wrote is received. */
  ghost predicate Delivered(client: Client, session: Session, s: State, t: State, writes: seq<Written>) {
    Reaches(client, session, s, t) && t.written == s.written + writes && t.received == DataOf(t.written)
  }

  lemma ReachedIsUnread(client: Client, session: Session, s: State, u: State)
    requires client.Valid() && Inv(client, session, s) && client.destination == PROBE
    requires Reaches(client, session, s, u)
    ensures u.received == []
  {
    var more :| CanRun(client, session, s, more) && Run(client, session, s, more) == u;
    RunInv(client, session, s, more);
    NothingReceived(client, session, u);
  }

  /** Valid clients exist: "a:1" is a valid destination, and so is the probe's. */
  lemma SomeDestinationIsValid()
    ensures ValidDestination([97, 58, 49]) && [97, 58, 49] != PROBE && ValidDestination(PROBE)
  {
    assert [97] + [58, 49] == [97, 58, 49] && |PROBE| == 15;
    HostAndOne([97]);
    HostAndOne(PROBE_HOST);
  }

  lemma HostAndOne(host: text)
    requires 0 < |host| <= 100 && forall c :: c in host ==> c == 46 || 97 <= c <= 122
    ensures ValidDestination(host + [58, 49])
  {
    var d, port: text := host + [58, 49], [49];
    assert host[0] in host && d[0] == host[0] && d[|d| - 1] == 49;
    TrimKeeps(d);
    HostSplits(host, port);
    PortIsOne();
  }

  lemma PortIsOne()
    ensures Trim([49]) == [49] && Atoi([49]) == Some(1)
  {
    TrimKeeps([49]);
    assert Number([49]) == 1;
  }

  lemma HostSplits(host: text, port: text)
    requires host != [] && port == [49] && forall c :: c in host ==> c == 46 || 97 <= c <= 122
    ensures SplitHostPort(host + [58, 49]) == Some(HostPort(host, port)) && Trim(host) != []
  {
    var d := host + [58, 49];
    assert host[0] in host && host[|host| - 1] in host;
    TrimKeeps(host);
    assert d[|host| + 1..] == port && d[..|host|] == host;
    LastIndexIs(d, COLON, |host|);
  }
}
